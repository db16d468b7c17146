/**
 * The ASP.NET Core OAuth sample: the Google and GitHub authentication handlers
 * read their client credentials from configuration, and both rewrite the
 * redirect to the provider's authorization endpoint so that it always uses
 * https.
 */
module OAuthRedirect {
  import opened Common
  import opened Text

  const Http := "http://"
  const Https := "https://"

  // ----- Percent-encoding (section 2.1 of RFC 3986) -----

  predicate IsHexDigit(c: char) {
    '0' <= c <= '9' || 'A' <= c <= 'F' || 'a' <= c <= 'f'
  }

  function HexValue(c: char): (v: nat)
    requires IsHexDigit(c)
    ensures v < 16
  {
    if c <= '9' then c as int - '0' as int
    else if c <= 'F' then c as int - 'A' as int + 10
    else c as int - 'a' as int + 10
  }

  /** The upper-case hexadecimal digit that Uri.EscapeDataString writes. */
  function HexDigit(v: nat): (c: char)
    requires v < 16
    ensures IsHexDigit(c) && HexValue(c) == v
  {
    if v < 10 then ('0' as int + v) as char else ('A' as int + v - 10) as char
  }

  /** Whether the escape `%` `hi` `lo` stands for a single ASCII character. */
  predicate IsAsciiEscape(hi: char, lo: char) {
    IsHexDigit(hi) && IsHexDigit(lo) && HexValue(hi) * 16 + HexValue(lo) < 0x80
  }

  /**
   * Uri.UnescapeDataString: every escape `%XX` of an ASCII character is
   * replaced by that character, scanning left to right; decoded text is not
   * decoded again, and everything else is kept as it is.
   */
  function UnescapeDataString(s: string): (r: string)
    ensures |r| <= |s|
    decreases |s|
  {
    if |s| == 0 then []
    else if s[0] == '%' && |s| >= 3 && IsAsciiEscape(s[1], s[2]) then
      [(HexValue(s[1]) * 16 + HexValue(s[2])) as char] + UnescapeDataString(s[3..])
    else [s[0]] + UnescapeDataString(s[1..])
  }

  /** The characters RFC 3986 (section 2.3) calls unreserved; Uri.EscapeDataString keeps exactly these. */
  predicate IsUnreserved(c: char) {
    'A' <= c <= 'Z' || 'a' <= c <= 'z' || '0' <= c <= '9' || c == '-' || c == '.' || c == '_' || c == '~'
  }

  /** The UTF-8 encoding of one Unicode scalar value. */
  function Utf8Bytes(c: char): (bytes: seq<nat>)
    ensures 1 <= |bytes| <= 4
    ensures forall i :: 0 <= i < |bytes| ==> bytes[i] < 256
    ensures (|bytes| == 1) == (c as int < 0x80)
  {
    var n := c as int;
    if n < 0x80 then [n]
    else if n < 0x800 then [0xC0 + n / 64, 0x80 + n % 64]
    else if n < 0x10000 then [0xE0 + n / 4096, 0x80 + (n / 64) % 64, 0x80 + n % 64]
    else [0xF0 + n / 262144, 0x80 + (n / 4096) % 64, 0x80 + (n / 64) % 64, 0x80 + n % 64]
  }

  function PercentEncoded(bytes: seq<nat>): (r: string)
    requires forall i :: 0 <= i < |bytes| ==> bytes[i] < 256
    ensures |r| == 3 * |bytes|
  {
    if bytes == [] then []
    else ['%', HexDigit(bytes[0] / 16), HexDigit(bytes[0] % 16)] + PercentEncoded(bytes[1..])
  }

  /** Uri.EscapeDataString: every character but the unreserved ones becomes the escapes of its UTF-8 bytes. */
  function EscapeDataString(s: string): (r: string)
    ensures |s| <= |r| <= 12 * |s|
    decreases |s|
  {
    if s == [] then []
    else (if IsUnreserved(s[0]) then [s[0]] else PercentEncoded(Utf8Bytes(s[0]))) + EscapeDataString(s[1..])
  }

  predicate IsAscii(s: string) {
    forall i :: 0 <= i < |s| ==> s[i] as int < 0x80
  }

  /** Decoding undoes encoding (for ASCII text, the part of UTF-8 this model decodes). */
  lemma {:induction false} UnescapeUndoesEscape(s: string)
    requires IsAscii(s)
    ensures UnescapeDataString(EscapeDataString(s)) == s
    decreases |s|
  {
    if s != [] {
      var c, rest := s[0], EscapeDataString(s[1..]);
      assert IsAscii(s[1..]) by {
        forall i | 0 <= i < |s[1..]| ensures s[1..][i] as int < 0x80 {
          assert s[1..][i] == s[i + 1];
        }
      }
      UnescapeUndoesEscape(s[1..]);
      if IsUnreserved(c) {
        var e := [c] + rest;
        assert e[1..] == rest;
      } else {
        var n := c as int;
        assert Utf8Bytes(c) == [n];
        var e := ['%', HexDigit(n / 16), HexDigit(n % 16)] + rest;
        assert PercentEncoded([n]) == ['%', HexDigit(n / 16), HexDigit(n % 16)];
        assert e[3..] == rest;
        assert IsAsciiEscape(e[1], e[2]);
      }
      assert [c] + s[1..] == s;
    }
  }

  /** Text without a percent sign decodes to itself. */
  lemma {:induction false} UnescapeWithoutPercent(s: string)
    requires '%' !in s
    ensures UnescapeDataString(s) == s
    decreases |s|
  {
    if s != [] {
      assert '%' !in s[1..] by {
        forall i | 0 <= i < |s[1..]| ensures s[1..][i] != '%' { assert s[1..][i] == s[i + 1]; }
      }
      UnescapeWithoutPercent(s[1..]);
      assert [s[0]] + s[1..] == s;
    }
  }

  // ----- The scheme upgrade -----

  /**
   * decoded.Replace("http://", "https://"): no http:// is left, and text
   * without one is kept as it is.
   */
  function UpgradeToHttps(decoded: string): (r: string)
    ensures !Contains(r, Http)
    ensures !Contains(decoded, Http) ==> r == decoded
  {
    UpgradeLeavesNoHttp(decoded);
    Replace(decoded, Http, Https)
  }

  /**
   * OnRedirectToAuthorizationEndpoint, identical in the Google and the GitHub
   * handler: the redirect goes to the decoded redirect URI with http:// made
   * https://. The re-encoded text is computed and then not used.
   */
  function RedirectTarget(redirectUri: string): (target: string)
    ensures !Contains(target, Http)
    ensures !Contains(UnescapeDataString(redirectUri), Http) ==> target == UnescapeDataString(redirectUri)
  {
    var decoded := UnescapeDataString(redirectUri);
    var corrected := UpgradeToHttps(decoded);
    var encoded := EscapeDataString(corrected);
    corrected
  }

  /** Text without 'h' cannot start an occurrence of http://. */
  lemma {:induction false} NoHttpAfterPlainPrefix(p: string, x: string)
    requires !Contains(x, Http)
    requires 'h' !in p
    ensures !Contains(p + x, Http)
    decreases |p|
  {
    if p == [] {
      assert p + x == x;
    } else {
      assert (p + x)[1..] == p[1..] + x;
      assert 'h' !in p[1..] by {
        forall i | 0 <= i < |p[1..]| ensures p[1..][i] != 'h' { assert p[1..][i] == p[i + 1]; }
      }
      NoHttpAfterPlainPrefix(p[1..], x);
      assert (p + x)[0] == p[0];
    }
  }

  /** "https://" cannot re-form "http://", neither alone nor with what follows it. */
  lemma NoHttpAfterHttps(x: string)
    requires !Contains(x, Http)
    ensures !Contains(Https + x, Http)
  {
    NoHttpAfterPlainPrefix(Https[1..], x);
    assert (Https + x)[1..] == Https[1..] + x;
    assert (Https + x)[4] == 's';
  }

  /** The upgrade keeps every prefix that has no 'h' in it. */
  lemma {:induction false} UpgradeKeepsPrefix(w: string, t: string)
    ensures 'h' !in w && w <= Replace(t, Http, Https) ==> w <= t
    decreases |t|
  {
    if |t| >= |Http| && |w| > 0 {
      var r := Replace(t, Http, Https);
      if Http <= t {
        assert r[0] == 'h';
      } else {
        assert r == [t[0]] + Replace(t[1..], Http, Https);
        assert 'h' !in w ==> 'h' !in w[1..] by {
          forall i | 0 <= i < |w[1..]| ensures w[1..][i] == w[i + 1] { }
        }
        assert w <= r ==> w[1..] <= Replace(t[1..], Http, Https);
        UpgradeKeepsPrefix(w[1..], t[1..]);
      }
    }
  }

  /** The redirect never contains http://: "https://" cannot re-form it. */
  lemma {:induction false} UpgradeLeavesNoHttp(s: string)
    ensures !Contains(Replace(s, Http, Https), Http)
    decreases |s|
  {
    var r := Replace(s, Http, Https);
    if |s| < |Http| {
      if Contains(r, Http) { ContainsIsNoLonger(r, Http); }
    } else if Http <= s {
      UpgradeLeavesNoHttp(s[|Http|..]);
      NoHttpAfterHttps(Replace(s[|Http|..], Http, Https));
    } else {
      var rest := Replace(s[1..], Http, Https);
      UpgradeLeavesNoHttp(s[1..]);
      assert r == [s[0]] + rest;
      assert r[1..] == rest;
      if Http <= r {
        assert Http[1..] <= rest;
        UpgradeKeepsPrefix(Http[1..], s[1..]);
      }
    }
  }

  /** The upgrade is idempotent: applied to its own output it changes nothing. */
  lemma UpgradeIsIdempotent(s: string)
    ensures UpgradeToHttps(UpgradeToHttps(s)) == UpgradeToHttps(s)
  {
  }

  // ----- Handler configuration -----

  datatype Provider = Google | GitHub

  /** The configuration section the handler reads its credentials from. */
  function Section(p: Provider): string {
    match p
    case Google => "Google"
    case GitHub => "Github"
  }

  function ClientIdKey(p: Provider): string { Section(p) + ":ClientId" }
  function ClientSecretKey(p: Provider): string { Section(p) + ":ClientSecret" }

  datatype HandlerOptions = HandlerOptions(
    clientId: string,
    clientSecret: string,
    callbackPath: string,
    onRedirectToAuthorizationEndpoint: string -> string)

  function MissingSetting(p: Provider, setting: string): Exception {
    var provider := match p case Google => "Google" case GitHub => "GitHub";
    ArgumentNull(setting, Some(provider + setting + " configuration is missing."))
  }

  /**
   * The AddGoogle / AddGitHub option callbacks: a missing client id, then a
   * missing client secret, throws ArgumentNullException.
   */
  function ConfigureHandler(p: Provider, configuration: map<string, string>): (r: Result<HandlerOptions>)
    ensures r.Ok? <==> ClientIdKey(p) in configuration && ClientSecretKey(p) in configuration
    ensures ClientIdKey(p) !in configuration ==> r == Err(MissingSetting(p, "ClientId"))
    ensures ClientIdKey(p) in configuration && ClientSecretKey(p) !in configuration ==>
              r == Err(MissingSetting(p, "ClientSecret"))
    ensures r.Ok? ==> r.value.clientId == configuration[ClientIdKey(p)]
                      && r.value.clientSecret == configuration[ClientSecretKey(p)]
    ensures r.Ok? ==> forall uri :: r.value.onRedirectToAuthorizationEndpoint(uri) == RedirectTarget(uri)
  {
    if ClientIdKey(p) !in configuration then Err(MissingSetting(p, "ClientId"))
    else if ClientSecretKey(p) !in configuration then Err(MissingSetting(p, "ClientSecret"))
    else
      var callback := match p case Google => "/api/Auth/google/callback" case GitHub => "/api/Auth/github/callback";
      Ok(HandlerOptions(configuration[ClientIdKey(p)], configuration[ClientSecretKey(p)], callback, RedirectTarget))
  }
}
