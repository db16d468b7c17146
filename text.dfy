/**
 * The .NET string operations the samples rely on, with ordinal (code point by
 * code point) semantics.
 *
 * Case conversion folds the ASCII letters a-z only: ToUpperInvariant and
 * StringComparison.OrdinalIgnoreCase also fold other letters, but none of the
 * keywords compared in the samples (Chinese words, "TRAVEL", "Y") is reached
 * from a non-ASCII letter by upper-casing, so the decisions made with them are
 * the same.
 */
module Text {
  import opened Common

  /** char.IsWhiteSpace: the characters of Unicode's White_Space property. */
  predicate IsWhiteSpace(c: char) {
    || ('\U{9}' <= c <= '\U{D}')
    || c == ' ' || c == '\U{85}' || c == '\U{A0}' || c == '\U{1680}'
    || ('\U{2000}' <= c <= '\U{200A}')
    || c == '\U{2028}' || c == '\U{2029}' || c == '\U{202F}' || c == '\U{205F}' || c == '\U{3000}'
  }

  /** string.IsNullOrWhiteSpace: null, empty, or white space only. */
  predicate IsNullOrWhiteSpace(s: Option<string>): (r: bool)
    ensures s == None || s == Some("") ==> r
    ensures s.Some? ==> (r <==> forall c :: c in s.value ==> IsWhiteSpace(c))
  {
    s.None? || forall i :: 0 <= i < |s.value| ==> IsWhiteSpace(s.value[i])
  }

  /** char.ToUpperInvariant, restricted to the ASCII letters. */
  function UpperChar(c: char): (u: char)
    ensures ('a' <= c <= 'z') == (u != c)
    ensures !('a' <= u <= 'z')
  {
    if 'a' <= c <= 'z' then (c as int - 32) as char else c
  }

  /** string.ToUpperInvariant. */
  function ToUpperInvariant(s: string): (u: string)
    ensures |u| == |s|
    ensures forall i :: 0 <= i < |s| ==> u[i] == UpperChar(s[i])
  {
    seq(|s|, i requires 0 <= i < |s| => UpperChar(s[i]))
  }

  /** Ordinal string.Contains: `w` occurs somewhere in `s` (the empty string occurs everywhere). */
  predicate Contains(s: string, w: string)
    decreases |s|
  {
    w <= s || (|s| > 0 && Contains(s[1..], w))
  }

  /** `w` occurs in `s` at index `i`. */
  predicate OccursAt(s: string, w: string, i: nat) {
    i + |w| <= |s| && s[i..i + |w|] == w
  }

  /** string.Contains(w, StringComparison.OrdinalIgnoreCase): an exact occurrence is one, and none fits in a shorter string. */
  predicate ContainsIgnoreCase(s: string, w: string): (r: bool)
    ensures Contains(s, w) ==> r
    ensures r ==> |w| <= |s|
  {
    ContainsUpper(s, w);
    Contains(ToUpperInvariant(s), ToUpperInvariant(w))
  }

  /** string.Equals(w, StringComparison.OrdinalIgnoreCase): same length, and the same letters up to case. */
  predicate EqualsIgnoreCase(s: string, w: string): (r: bool)
    ensures r <==> |s| == |w| && forall i :: 0 <= i < |s| ==> UpperChar(s[i]) == UpperChar(w[i])
    ensures s == w ==> r
  {
    var us, uw := ToUpperInvariant(s), ToUpperInvariant(w);
    assert |s| == |w| && (forall i :: 0 <= i < |s| ==> UpperChar(s[i]) == UpperChar(w[i])) ==> us == uw by {
      if |s| == |w| && (forall i :: 0 <= i < |s| ==> UpperChar(s[i]) == UpperChar(w[i])) {
        assert forall i :: 0 <= i < |us| ==> us[i] == uw[i];
      }
    }
    us == uw
  }

  /**
   * Ordinal string.Replace(from, to): every occurrence of `from`, found left to
   * right without overlaps, is replaced by `to`. .NET refuses an empty `from`.
   */
  function Replace(s: string, from: string, to: string): (r: string)
    requires |from| > 0
    ensures !Contains(s, from) ==> r == s
    ensures |to| == |from| ==> |r| == |s|
    decreases |s|
  {
    if |s| < |from| then s
    else if from <= s then to + Replace(s[|from|..], from, to)
    else
      var rest := Replace(s[1..], from, to);
      assert !Contains(s, from) ==> [s[0]] + rest == s;
      [s[0]] + rest
  }

  /** The number a string of decimal digits spells, most significant digit first. */
  function DigitsValue(r: string): nat
    requires forall i :: 0 <= i < |r| ==> '0' <= r[i] <= '9'
    decreases |r|
  {
    if r == [] then 0 else DigitsValue(r[..|r| - 1]) * 10 + (r[|r| - 1] as int - '0' as int)
  }

  /**
   * The decimal digits of a non-negative int, as string interpolation writes
   * them: they spell the number, with no leading zero.
   */
  function DecimalString(n: nat): (r: string)
    ensures |r| > 0
    ensures forall i :: 0 <= i < |r| ==> '0' <= r[i] <= '9'
    ensures DigitsValue(r) == n
    ensures r[0] == '0' ==> n == 0
  {
    if n < 10 then [('0' as int + n) as char]
    else
      var high := DecimalString(n / 10);
      var r := high + [('0' as int + n % 10) as char];
      assert r[..|r| - 1] == high;
      r
  }

  /** An occurrence at a known position is an occurrence. */
  lemma {:induction false} ContainsAt(s: string, w: string, i: nat)
    requires i + |w| <= |s| && s[i..i + |w|] == w
    ensures Contains(s, w)
    decreases i
  {
    if i == 0 {
      assert w <= s;
    } else {
      assert s[1..][i - 1..i - 1 + |w|] == s[i..i + |w|];
      ContainsAt(s[1..], w, i - 1);
    }
  }

  /** Contains agrees with the direct definition: an occurrence at some index. */
  lemma {:induction false} ContainsIffOccurs(s: string, w: string)
    ensures Contains(s, w) <==> exists i :: OccursAt(s, w, i)
    decreases |s|
  {
    if Contains(s, w) {
      if w <= s {
        assert OccursAt(s, w, 0);
      } else {
        ContainsIffOccurs(s[1..], w);
        var i: nat :| OccursAt(s[1..], w, i);
        assert s[1..][i..i + |w|] == s[i + 1..i + 1 + |w|];
        assert OccursAt(s, w, i + 1);
      }
    }
    if exists i :: OccursAt(s, w, i) {
      var i: nat :| OccursAt(s, w, i);
      ContainsAt(s, w, i);
    }
  }

  /** Upper-casing keeps every occurrence, and what occurs is no longer than where it occurs. */
  lemma {:induction false} ContainsUpper(s: string, w: string)
    ensures Contains(s, w) ==> Contains(ToUpperInvariant(s), ToUpperInvariant(w))
    ensures Contains(ToUpperInvariant(s), ToUpperInvariant(w)) ==> |w| <= |s|
    decreases |s|
  {
    var us, uw := ToUpperInvariant(s), ToUpperInvariant(w);
    if Contains(s, w) {
      if w <= s {
        assert uw <= us;
      } else {
        ContainsUpper(s[1..], w);
        assert ToUpperInvariant(s[1..]) == us[1..];
      }
    }
    if Contains(us, uw) {
      ContainsIsNoLonger(us, uw);
    }
  }

  /** A string only occurs in strings at least as long. */
  lemma {:induction false} ContainsIsNoLonger(s: string, w: string)
    requires Contains(s, w)
    ensures |w| <= |s|
    decreases |s|
  {
    if !(w <= s) {
      ContainsIsNoLonger(s[1..], w);
    }
  }

  /** Every occurrence of a non-empty string shows its first character. */
  lemma {:induction false} ContainsShowsFirstChar(s: string, w: string)
    requires |w| > 0 && Contains(s, w)
    ensures w[0] in s
    decreases |s|
  {
    if w <= s {
      assert s[0] == w[0];
    } else {
      ContainsShowsFirstChar(s[1..], w);
      var k :| 0 <= k < |s| - 1 && s[1..][k] == w[0];
      assert s[k + 1] == w[0];
    }
  }
}
