/**
 * The two tools the background-response sample gives its agent: a topic
 * classifier that returns canned research notes, and a fixed list of
 * character profiles.
 */
module BackgroundTools {
  import opened Text

  const ResearchResult := "研究结果："
  const GalaxyFacts := ResearchResult + "星系" + "包含数十亿颗恒星。未被探索的星系可能具有独特的恒星形成、奇异物质和未被探索的现象，如暗能量浓度。"
  const TravelFacts := ResearchResult + "星际旅行" + "需要先进的推进系统。挑战包括辐射暴露、生命支持和在未知空间中的导航。"
  const AstronautFacts := ResearchResult + "宇航员" + "在零重力环境、紧急协议、航天器系统和长期任务的团队动态方面接受严格培训。"
  const GeneralFactsPrefix := ResearchResult + "与"
  const GeneralFactsSuffix := "相关的一般太空探索事实。深空任务需要先进的技术、船员的韧性和对未知情况的应急计划。"

  /** ResearchSpaceFactsAsync: the first branch whose keyword occurs in the upper-cased topic decides. */
  function ResearchSpaceFacts(topic: string): (r: string)
    ensures ResearchResult <= r
  {
    var t := ToUpperInvariant(topic);
    if Contains(t, "星系") then GalaxyFacts
    else if Contains(t, "太空") || Contains(t, "TRAVEL") then TravelFacts
    else if Contains(t, "宇航员") then AstronautFacts
    else GeneralFactsPrefix + topic + GeneralFactsSuffix
  }

  /**
   * Which notes a topic gets: each canned answer exactly when its keyword
   * occurs (ignoring case) and no earlier one does; otherwise the general
   * notes, which name the topic.
   */
  lemma ResearchSpaceFactsFirstMatch(topic: string)
    ensures var r := ResearchSpaceFacts(topic);
            && (r == GalaxyFacts <==> ContainsIgnoreCase(topic, "星系"))
            && (r == TravelFacts <==> !ContainsIgnoreCase(topic, "星系")
                                      && (ContainsIgnoreCase(topic, "太空") || ContainsIgnoreCase(topic, "travel")))
            && (r == AstronautFacts <==> !ContainsIgnoreCase(topic, "星系") && !ContainsIgnoreCase(topic, "太空")
                                         && !ContainsIgnoreCase(topic, "travel") && ContainsIgnoreCase(topic, "宇航员"))
            && (r !in {GalaxyFacts, TravelFacts, AstronautFacts} ==> Contains(r, topic))
  {
    assert ToUpperInvariant("星系") == "星系";
    assert ToUpperInvariant("太空") == "太空";
    assert ToUpperInvariant("宇航员") == "宇航员";
    assert ToUpperInvariant("travel") == "TRAVEL";
    var r := ResearchSpaceFacts(topic);
    if r == GeneralFactsPrefix + topic + GeneralFactsSuffix {
      assert r[5] == '与';
      assert GalaxyFacts[5] == '星' && TravelFacts[5] == '星' && AstronautFacts[5] == '宇';
      assert r[6..6 + |topic|] == topic;
      ContainsAt(r, topic, 6);
    }
  }

  /** A topic mentioning "travel" in any case gets the travel notes, unless it mentions a galaxy. */
  lemma TravelInAnyCase(topic: string, i: nat)
    requires i + 6 <= |topic| && EqualsIgnoreCase(topic[i..i + 6], "travel")
    requires !ContainsIgnoreCase(topic, "星系")
    ensures ResearchSpaceFacts(topic) == TravelFacts
  {
    ContainsAt(topic, topic[i..i + 6], i);
    ContainsUpper(topic, topic[i..i + 6]);
    assert ToUpperInvariant("travel") == "TRAVEL";
    assert ToUpperInvariant("星系") == "星系";
    assert Contains(ToUpperInvariant(topic), "TRAVEL");
  }

  /** A profile: its first character, then the rest of the text. */
  function Profile(head: char, rest: string): (profile: string)
    ensures |profile| > 0 && profile[0] == head
  {
    [head] + rest
  }

  const VossProfile := Profile('伊', "莲娜·沃斯 上尉：一位经验丰富的任务指挥官，拥有 15 年的服役经验。性格坚毅、果断，但内心承受着对整个团队安危负责的沉重压力。前军用飞行员，后转为宇航员。")
  const ChenProfile := Profile('詹', "姆斯·陈 博士：首席科学官兼天体物理学家。才华横溢但社交笨拙，他在数据与探索中找到慰藉。强烈的好奇心常常将任务推向未知领域。")
  const TorresProfile := Profile('玛', "雅·托雷斯 中尉：导航专家，也是团队中最年轻的成员。乐观、精通技术，为各种挑战带来全新的视角和创新性的解决方案。")
  const RiveraProfile := Profile('马', "库斯·里维拉 指挥官：首席工程师，精通飞船系统。务实、足智多谋，即使在资源极其有限的情况下也能修好几乎任何东西。把船员安全置于一切之上。")
  const OkaforProfile := Profile('阿', "玛拉·奥卡福 博士：医疗官兼心理学家。富有同理心、观察力敏锐，在漫长的太空旅程中帮助维持团队士气和心理健康。空间医学专家。")

  /** GenerateCharacterProfilesAsync: the five crew profiles, no two alike. */
  function CharacterProfiles(): (profiles: seq<string>)
    ensures |profiles| == 5
    ensures forall i, j :: 0 <= i < j < |profiles| ==> profiles[i] != profiles[j]
  {
    var p := [VossProfile, ChenProfile, TorresProfile, RiveraProfile, OkaforProfile];
    assert p[0][0] == '伊' && p[1][0] == '詹' && p[2][0] == '玛' && p[3][0] == '马' && p[4][0] == '阿';
    p
  }
}
