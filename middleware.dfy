/**
 * The agent middleware sample: a keyword guardrail and a PII filter wrapped
 * around an agent run, logging wrappers around the chat client and around
 * function invocation, and an override of the GetWeather tool's result.
 */
module AgentMiddleware {
  import opened Common
  import opened Text
  import opened Chat

  // ----- Guardrail -----

  const ForbiddenKeywords: seq<string> := ["有害", "非法", "暴力"]
  const BlockedNotice := "[已屏蔽：包含禁止内容]"

  predicate MentionsForbidden(content: string) {
    exists i :: 0 <= i < |ForbiddenKeywords| && ContainsIgnoreCase(content, ForbiddenKeywords[i])
  }

  /**
   * What the guardrail makes of one text: the notice if a keyword occurs in
   * it, else the text. What passes mentions no keyword, and a text is kept
   * exactly when it mentions none.
   */
  function Guarded(content: string): (r: string)
    ensures !MentionsForbidden(r)
    ensures r == content <==> !MentionsForbidden(content)
  {
    NoticeIsClean();
    if MentionsForbidden(content) then BlockedNotice else content
  }

  /** FilterContent: the keywords are tried in order and the first one found blocks the text. */
  method FilterContent(content: string) returns (filtered: string)
    ensures filtered == Guarded(content)
  {
    var keywords := ForbiddenKeywords;
    for i := 0 to |keywords|
      invariant forall j :: 0 <= j < i ==> !ContainsIgnoreCase(content, keywords[j])
    {
      if ContainsIgnoreCase(content, keywords[i]) {
        return BlockedNotice;
      }
    }
    return content;
  }

  /** Upper-casing leaves text without ASCII lower-case letters as it is. */
  lemma UpperOfNoLower(s: string)
    requires forall i :: 0 <= i < |s| ==> !('a' <= s[i] <= 'z')
    ensures ToUpperInvariant(s) == s
  {
  }

  /** The notice itself mentions none of the keywords. */
  lemma NoticeIsClean()
    ensures !MentionsForbidden(BlockedNotice)
  {
    UpperOfNoLower(BlockedNotice);
    assert '有' !in BlockedNotice && '非' !in BlockedNotice && '暴' !in BlockedNotice;
    forall i | 0 <= i < |ForbiddenKeywords|
      ensures !ContainsIgnoreCase(BlockedNotice, ForbiddenKeywords[i])
    {
      var kw := ForbiddenKeywords[i];
      UpperOfNoLower(kw);
      if Contains(BlockedNotice, kw) {
        ContainsShowsFirstChar(BlockedNotice, kw);
      }
    }
  }

  /** Filtering twice is filtering once. */
  lemma GuardedIsIdempotent(content: string)
    ensures Guarded(Guarded(content)) == Guarded(content)
  {
  }

  // ----- PII filter -----

  /**
   * A regular expression, seen through what Regex.Replace asks of it: for a
   * text and a start index, the length of the match found there, 0 for none.
   */
  type Matcher = (string, nat) -> nat

  const PiiNotice := "[已屏蔽: PII]"

  /** The match that `m` reports at `i`, if it is a non-empty match inside `s`. */
  function MatchAt(m: Matcher, s: string, i: nat): (n: nat)
    ensures n > 0 ==> i + n <= |s|
  {
    var n := m(s, i);
    if 0 < n && i + n <= |s| then n else 0
  }

  /**
   * Regex.Replace from index `i` on: matches are found left to right and do
   * not overlap. Where nothing matches, the text is copied as it is.
   */
  function ReplaceMatchesFrom(s: string, m: Matcher, replacement: string, i: nat): (r: string)
    requires i <= |s|
    ensures (forall j :: i <= j < |s| ==> MatchAt(m, s, j) == 0) ==> r == s[i..]
    decreases |s| - i
  {
    if i == |s| then []
    else if MatchAt(m, s, i) > 0 then replacement + ReplaceMatchesFrom(s, m, replacement, i + MatchAt(m, s, i))
    else
      var rest := ReplaceMatchesFrom(s, m, replacement, i + 1);
      assert rest == s[i + 1..] ==> [s[i]] + rest == s[i..];
      [s[i]] + rest
  }

  /** Regex.Replace(s, replacement): a text in which the pattern matches nowhere is left as it is. */
  function RegexReplace(s: string, m: Matcher, replacement: string): (r: string)
    ensures MatchesNowhere(m, s) ==> r == s
  {
    ReplaceMatchesFrom(s, m, replacement, 0)
  }

  /** Characters the pattern does not match at are copied through one by one. */
  lemma {:induction false} ReplaceKeepsUnmatched(s: string, m: Matcher, replacement: string, i: nat, j: nat)
    requires i <= j <= |s|
    requires forall k :: i <= k < j ==> MatchAt(m, s, k) == 0
    ensures ReplaceMatchesFrom(s, m, replacement, i) == s[i..j] + ReplaceMatchesFrom(s, m, replacement, j)
    decreases j - i
  {
    if i < j {
      var rest := ReplaceMatchesFrom(s, m, replacement, j);
      assert ReplaceMatchesFrom(s, m, replacement, i) == [s[i]] + ReplaceMatchesFrom(s, m, replacement, i + 1);
      ReplaceKeepsUnmatched(s, m, replacement, i + 1, j);
      ConcatAssociates([s[i]], s[i + 1..j], rest);
      assert [s[i]] + s[i + 1..j] == s[i..j];
    } else {
      assert s[i..j] == [];
    }
  }

  lemma ConcatAssociates<T>(a: seq<T>, b: seq<T>, c: seq<T>)
    ensures a + (b + c) == a + b + c
  {
  }

  /**
   * The text before the first match is kept, and the first match becomes the
   * replacement; the scan then goes on after the match.
   */
  lemma ReplaceUpToFirstMatch(s: string, m: Matcher, replacement: string, i: nat, j: nat)
    requires i <= j < |s|
    requires forall k :: i <= k < j ==> MatchAt(m, s, k) == 0
    requires MatchAt(m, s, j) > 0
    ensures ReplaceMatchesFrom(s, m, replacement, i)
         == s[i..j] + replacement + ReplaceMatchesFrom(s, m, replacement, j + MatchAt(m, s, j))
  {
    ReplaceKeepsUnmatched(s, m, replacement, i, j);
    ConcatAssociates(s[i..j], replacement, ReplaceMatchesFrom(s, m, replacement, j + MatchAt(m, s, j)));
  }

  predicate IsAsciiDigit(c: char) { '0' <= c <= '9' }

  /** \w, restricted to ASCII. */
  predicate IsWordChar(c: char) {
    'a' <= c <= 'z' || 'A' <= c <= 'Z' || IsAsciiDigit(c) || c == '_'
  }

  /** \b at index i: a word character on exactly one side. */
  predicate IsWordBoundary(s: string, i: nat)
    requires i <= |s|
  {
    (i > 0 && IsWordChar(s[i - 1])) != (i < |s| && IsWordChar(s[i]))
  }

  predicate DigitsAt(s: string, i: nat, count: nat)
    requires i + count <= |s|
  {
    forall k :: i <= k < i + count ==> IsAsciiDigit(s[k])
  }

  /** The phone pattern \b\d{3}-\d{3}-\d{4}\b (with ASCII \d and \w). */
  function PhoneNumber(s: string, i: nat): (n: nat)
    ensures n == 0 || n == 12
  {
    if i + 12 <= |s| && IsWordBoundary(s, i)
       && DigitsAt(s, i, 3) && s[i + 3] == '-' && DigitsAt(s, i + 4, 3) && s[i + 7] == '-' && DigitsAt(s, i + 8, 4)
       && IsWordBoundary(s, i + 12)
    then 12 else 0
  }

  /**
   * The e-mail pattern \b[\w\.-]+@[\w\.-]+\.\w+\b and the full-name pattern
   * \b[A-Z][a-z]+\s[A-Z][a-z]+\b, whose .NET matching is not modelled.
   */
  datatype PiiRecognizers = PiiRecognizers(email: Matcher, fullName: Matcher)

  /** The three patterns, in the order the filter applies them. */
  function PiiPatterns(r: PiiRecognizers): (ps: seq<Matcher>)
    ensures |ps| == 3 && ps[0] == PhoneNumber && ps[1] == r.email && ps[2] == r.fullName
  {
    [PhoneNumber, r.email, r.fullName]
  }

  /**
   * The passes of `patterns`, in order, each replacing every match by the
   * notice. Text that no pattern matches comes out unchanged.
   */
  function Redacted(content: string, patterns: seq<Matcher>): (r: string)
    ensures (forall k :: 0 <= k < |patterns| ==> MatchesNowhere(patterns[k], content)) ==> r == content
    decreases |patterns|
  {
    if patterns == [] then content
    else
      var init := patterns[..|patterns| - 1];
      assert forall k :: 0 <= k < |init| ==> init[k] == patterns[k];
      RegexReplace(Redacted(content, init), patterns[|patterns| - 1], PiiNotice)
  }

  /** FilterPii: each pattern in turn replaces all of its matches in the text left by the previous ones. */
  method FilterPii(content: string, recognizers: PiiRecognizers) returns (filtered: string)
    ensures filtered == Redacted(content, PiiPatterns(recognizers))
  {
    var patterns := PiiPatterns(recognizers);
    filtered := content;
    for i := 0 to |patterns|
      invariant filtered == Redacted(content, patterns[..i])
    {
      assert patterns[..i + 1][..i] == patterns[..i];
      filtered := RegexReplace(filtered, patterns[i], PiiNotice);
    }
    assert patterns[..|patterns|] == patterns;
  }

  predicate MatchesNowhere(m: Matcher, s: string) {
    forall j :: 0 <= j < |s| ==> MatchAt(m, s, j) == 0
  }

  /** A phone number standing alone is recognised and replaced. */
  lemma PhoneNumberIsRedacted()
    ensures RegexReplace("123-456-7890", PhoneNumber, PiiNotice) == PiiNotice
  {
    var s := "123-456-7890";
    assert PhoneNumber(s, 0) == 12;
    assert ReplaceMatchesFrom(s, PhoneNumber, PiiNotice, 12) == [];
  }

  // ----- Per-message filtering -----

  /**
   * Both FilterMessages helpers: each message becomes a new message with the
   * same role and the filtered text; other contents and the message id are
   * not carried over.
   */
  function FilterMessages(messages: seq<ChatMessage>, filter: string -> string): (r: seq<ChatMessage>)
    ensures |r| == |messages|
    ensures forall i :: 0 <= i < |r| ==>
              r[i].role == messages[i].role && r[i].Text() == filter(messages[i].Text()) && r[i].messageId == None
  {
    if messages == [] then []
    else [TextMessage(messages[0].role, filter(messages[0].Text()))] + FilterMessages(messages[1..], filter)
  }

  function PiiFilter(recognizers: PiiRecognizers): string -> string {
    content => Redacted(content, PiiPatterns(recognizers))
  }

  /**
   * PIIMiddleware: the inner agent runs once, on the filtered messages and
   * the caller's thread and options; its response comes back with filtered
   * messages.
   */
  method PIIMiddleware(messages: seq<ChatMessage>, thread: Option<AgentThread>, options: Option<RunOptions>,
                       recognizers: PiiRecognizers, innerAgent: Collaborator<RunRequest, AgentRunResponse>)
    returns (response: AgentRunResponse)
    modifies innerAgent
    ensures innerAgent.log
         == old(innerAgent.log) + [RunRequest(FilterMessages(messages, PiiFilter(recognizers)), thread, options)]
    ensures var inner := innerAgent.reply(innerAgent.log);
            response == inner.(messages := FilterMessages(inner.messages, PiiFilter(recognizers)))
  {
    var filteredMessages := FilterMessages(messages, PiiFilter(recognizers));
    response := innerAgent.Call(RunRequest(filteredMessages, thread, options));
    response := response.(messages := FilterMessages(response.messages, PiiFilter(recognizers)));
  }

  /** GuardrailMiddleware: the same shape as PIIMiddleware, with the keyword guardrail as the filter. */
  method GuardrailMiddleware(messages: seq<ChatMessage>, thread: Option<AgentThread>, options: Option<RunOptions>,
                             innerAgent: Collaborator<RunRequest, AgentRunResponse>)
    returns (response: AgentRunResponse)
    modifies innerAgent
    ensures innerAgent.log == old(innerAgent.log) + [RunRequest(FilterMessages(messages, Guarded), thread, options)]
    ensures var inner := innerAgent.reply(innerAgent.log);
            response == inner.(messages := FilterMessages(inner.messages, Guarded))
    ensures forall i :: 0 <= i < |response.messages| ==> !MentionsForbidden(response.messages[i].Text())
  {
    var filteredMessages := FilterMessages(messages, Guarded);
    response := innerAgent.Call(RunRequest(filteredMessages, thread, options));
    response := response.(messages := FilterMessages(response.messages, Guarded));
  }

  // ----- Function invocation and chat client middleware -----

  datatype AIFunction = AIFunction(name: string)

  datatype FunctionInvocationContext = FunctionInvocationContext(aiFunction: AIFunction, callId: string)

  /** The object? a tool returns. */
  datatype ToolValue = StringValue(s: string) | OtherValue(id: nat)

  const SunnyWeather := "天气晴朗，最高气温25°C。"

  /** FunctionCallMiddleware: calls the next step once and returns its result as it is. */
  method FunctionCallMiddleware(context: FunctionInvocationContext,
                                next: Collaborator<FunctionInvocationContext, Option<ToolValue>>)
    returns (result: Option<ToolValue>)
    modifies next
    ensures next.log == old(next.log) + [context]
    ensures result == next.reply(next.log)
  {
    result := next.Call(context);
  }

  /**
   * FunctionCallOverrideWeather: the next step always runs; for GetWeather
   * its result is then replaced by a fixed forecast.
   */
  method FunctionCallOverrideWeather(context: FunctionInvocationContext,
                                     next: Collaborator<FunctionInvocationContext, Option<ToolValue>>)
    returns (result: Option<ToolValue>)
    modifies next
    ensures next.log == old(next.log) + [context]
    ensures context.aiFunction.name == "GetWeather" ==> result == Some(StringValue(SunnyWeather))
    ensures context.aiFunction.name != "GetWeather" ==> result == next.reply(next.log)
  {
    result := next.Call(context);
    if context.aiFunction.name == "GetWeather" {
      result := Some(StringValue(SunnyWeather));
    }
  }

  /** ChatClientMiddleware: calls the inner chat client once and returns its response as it is. */
  method ChatClientMiddleware(messages: seq<ChatMessage>, options: Option<ChatOptions>,
                              innerChatClient: Collaborator<ChatRequest, ChatResponse>)
    returns (response: ChatResponse)
    modifies innerChatClient
    ensures innerChatClient.log == old(innerChatClient.log) + [ChatRequest(messages, options)]
    ensures response == innerChatClient.reply(innerChatClient.log)
  {
    response := innerChatClient.Call(ChatRequest(messages, options));
  }
}
