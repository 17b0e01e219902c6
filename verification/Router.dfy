/**
  Hash routes. Texts are their UTF-8 bytes, one `char` to a byte, so that route names
  can be written as literals.
*/
module Router {
  import opened Wrappers

  predicate Bytes(s: string) { forall i :: 0 <= i < |s| ==> s[i] as int < 256 }

  predicate Cont(c: char) { 0x80 <= c as int < 0xC0 }

  /** The length of the well-formed UTF-8 sequence a text starts with, 0 when there is none. */
  function Utf8Length(s: string): (n: nat)
    ensures n <= |s|
  {
    if s == "" then 0
    else
      var b := s[0] as int;
      var c := if |s| > 1 then s[1] as int else 0;
      if b < 0x80 then 1
      else if 0xC2 <= b < 0xE0 then (if 0x80 <= c < 0xC0 then 2 else 0)
      else if 0xE0 <= b < 0xF0 then
        (if |s| > 2 && (if b == 0xE0 then 0xA0 else 0x80) <= c < (if b == 0xED then 0xA0 else 0xC0) && Cont(s[2])
         then 3 else 0)
      else if 0xF0 <= b < 0xF5 then
        (if |s| > 3 && (if b == 0xF0 then 0x90 else 0x80) <= c < (if b == 0xF4 then 0x90 else 0xC0)
            && Cont(s[2]) && Cont(s[3])
         then 4 else 0)
      else 0
  }

  predicate Utf8(s: string) { s == "" || (Utf8Length(s) > 0 && Utf8(s[Utf8Length(s)..])) }

  // ---- Encoding ----

  predicate Plain(c: char) {
    'A' <= c <= 'Z' || 'a' <= c <= 'z' || '0' <= c <= '9'
    || c == '-' || c == '_' || c == '.' || c == '!' || c == '~' || c == '*' || c == '\'' || c == '(' || c == ')'
  }

  function HexDigit(n: nat): (r: char)
    requires n < 16
  {
    if n < 10 then '0' + n as char else 'A' + (n - 10) as char
  }

  function Escape(c: char): (r: string)
    requires c as int < 256
    ensures |r| == 3 && r[0] == '%'
  {
    ['%', HexDigit(c as int / 16), HexDigit(c as int % 16)]
  }

  function Encoded(s: string): (r: string)
    requires Bytes(s)
  {
    if s == "" then "" else (if Plain(s[0]) then [s[0]] else Escape(s[0])) + Encoded(s[1..])
  }

  ghost predicate EncodedUpTo(s: string, i: nat, r: string)
    requires Bytes(s)
  {
    i <= |s| && Encoded(s) == r + Encoded(s[i..])
  }

  lemma {:induction false} EncodeStep(s: string, i: nat, r: string)
    requires Bytes(s) && i < |s| && EncodedUpTo(s, i, r)
    ensures EncodedUpTo(s, i + 1, r + if Plain(s[i]) then [s[i]] else Escape(s[i]))
  {
  }

  method EncodeComponent(s: string) returns (r: string)
    requires Bytes(s)
    ensures r == Encoded(s)
  {
    r := "";
    assert s[0..] == s && r + Encoded(s) == Encoded(s);
    for i := 0 to |s|
      invariant EncodedUpTo(s, i, r)
    {
      EncodeStep(s, i, r);
      r := r + if Plain(s[i]) then [s[i]] else Escape(s[i]);
    }
    assert r + "" == r;
  }

  // ---- Decoding ----

  function HexValue(c: char): (r: Option<nat>) {
    if '0' <= c <= '9' then Some((c - '0') as nat)
    else if 'a' <= c <= 'f' then Some((c - 'a') as nat + 10)
    else if 'A' <= c <= 'F' then Some((c - 'A') as nat + 10)
    else None
  }

  /** Two characters read as a hexadecimal byte; a leading plus sign is allowed. */
  function Radix16(x: char, y: char): (r: Option<char>)
    ensures r.Some? ==> r.value as int < 256
  {
    match HexValue(y)
    case None => None
    case Some(lo) =>
      if x == '+' then Some(lo as char)
      else match HexValue(x)
        case None => None
        case Some(hi) => Some((hi * 16 + lo) as char)
  }

  function DecodedBytes(s: string): (r: string) {
    if s == "" then ""
    else if s[0] == '%' && 2 < |s| && Radix16(s[1], s[2]).Some? then
      [Radix16(s[1], s[2]).value] + DecodedBytes(s[3..])
    else [s[0]] + DecodedBytes(s[1..])
  }

  function Decoded(s: string): (r: string) { if Utf8(DecodedBytes(s)) then DecodedBytes(s) else s }

  /** The first `i` bytes decode to `r`, and the rest is decoded from there. */
  ghost predicate DecodedUpTo(s: string, i: nat, r: string) {
    i <= |s| && DecodedBytes(s) == r + DecodedBytes(s[i..])
  }

  method PercentDecode(s: string) returns (r: string)
    ensures r == Decoded(s)
  {
    r := "";
    var i := 0;
    assert s[0..] == s && DecodedUpTo(s, 0, "");
    while i < |s|
      invariant DecodedUpTo(s, i, r)
    {
      DecodeStep(s, i, r);
      if s[i] == '%' && i + 2 < |s| {
        var v := Radix16(s[i + 1], s[i + 2]);
        if v.Some? {
          r := r + [v.value];
          i := i + 3;
          continue;
        }
      }
      r := r + [s[i]];
      i := i + 1;
    }
    assert s[i..] == "" && r + "" == r;
    if !Utf8(r) {
      r := s;
    }
  }

  lemma {:induction false} DecodeStep(s: string, i: nat, r: string)
    requires i < |s| && DecodedUpTo(s, i, r)
    ensures if s[i] == '%' && i + 2 < |s| && Radix16(s[i + 1], s[i + 2]).Some?
            then DecodedUpTo(s, i + 3, r + [Radix16(s[i + 1], s[i + 2]).value])
            else DecodedUpTo(s, i + 1, r + [s[i]])
  {
  }

  lemma {:induction false} EscapeDecodes(c: char)
    requires c as int < 256
    ensures Radix16(Escape(c)[1], Escape(c)[2]) == Some(c)
  {
  }

  /** Decoding an encoded text gives back its bytes, whatever they are. */
  lemma {:induction false} DecodeUndoesEncode(s: string)
    requires Bytes(s)
    ensures DecodedBytes(Encoded(s)) == s
  {
    if s != "" {
      var (c, rest) := (s[0], Encoded(s[1..]));
      DecodeUndoesEncode(s[1..]);
      if Plain(c) {
        assert Encoded(s)[1..] == rest;
      } else {
        EscapeDecodes(c);
        var e := Encoded(s);
        assert e[0] == '%' && e[1] == Escape(c)[1] && e[2] == Escape(c)[2] && e[3..] == rest;
      }
      assert s == [c] + s[1..];
    }
  }

  /** On text, decoding undoes encoding; on other bytes it gives the encoded form back. */
  lemma {:induction false} RoundTripIffText(s: string)
    requires Bytes(s)
    ensures Decoded(Encoded(s)) == if Utf8(s) then s else Encoded(s)
  {
    DecodeUndoesEncode(s);
  }

  // ---- Against the standard's decoder ----

  /** Section 2.1 of RFC 3986: a percent sign and two hexadecimal digits. */
  function StandardBytes(s: string): (r: string) {
    if s == "" then ""
    else if s[0] == '%' && 2 < |s| && HexValue(s[1]).Some? && HexValue(s[2]).Some? then
      [(HexValue(s[1]).value * 16 + HexValue(s[2]).value) as char] + StandardBytes(s[3..])
    else [s[0]] + StandardBytes(s[1..])
  }

  predicate SignedEscape(s: string, i: nat) {
    i + 2 < |s| && s[i] == '%' && s[i + 1] == '+' && HexValue(s[i + 2]).Some?
  }

  function SignedEscapes(s: string): (n: nat) {
    if s == "" then 0 else (if SignedEscape(s, 0) then 1 else 0) + SignedEscapes(s[1..])
  }

  lemma {:induction false} SignedEscapesCount(s: string)
    ensures SignedEscapes(s) > 0 <==> exists i: nat :: i < |s| && SignedEscape(s, i)
  {
    if s != "" {
      SignedEscapesCount(s[1..]);
      if exists i: nat :: i < |s[1..]| && SignedEscape(s[1..], i) {
        var i: nat :| i < |s[1..]| && SignedEscape(s[1..], i);
        assert SignedEscape(s, i + 1);
      }
      if exists i: nat :: i < |s| && SignedEscape(s, i) {
        var i: nat :| i < |s| && SignedEscape(s, i);
        if i > 0 {
          assert SignedEscape(s[1..], i - 1);
        } else {
          assert SignedEscape(s, 0);
        }
      }
    }
  }

  /** A stretch without percent signs is its own decoding. */
  lemma {:induction false} SkipTwo(s: string)
    requires |s| > 2 && s[1] != '%' && s[2] != '%'
    ensures SignedEscapes(s[1..]) == SignedEscapes(s[3..])
    ensures StandardBytes(s[1..]) == [s[1], s[2]] + StandardBytes(s[3..])
  {
  }

  lemma {:induction false} LengthsDiffer(s: string)
    ensures |DecodedBytes(s)| + 2 * SignedEscapes(s) == |StandardBytes(s)|
    ensures SignedEscapes(s) == 0 ==> DecodedBytes(s) == StandardBytes(s)
    decreases |s|
  {
    if s != "" {
      if s[0] == '%' && 2 < |s| && Radix16(s[1], s[2]).Some? {
        LengthsDiffer(s[3..]);
        SkipTwo(s);
      } else {
        LengthsDiffer(s[1..]);
      }
    }
  }

  /** An ASCII character splits a text into two parts judged apart. */
  lemma {:induction false} AsciiSplits(p: string, c: char, t: string)
    requires c as int < 0x80
    ensures Utf8(p + [c] + t) <==> Utf8(p) && Utf8(t)
    decreases |p|
  {
    var s := p + [c] + t;
    if p == "" {
      assert s[1..] == t;
    } else {
      var n := Utf8Length(p);
      assert Utf8Length(s) == n;
      if n > 0 {
        assert s[n..] == p[n..] + [c] + t;
        AsciiSplits(p[n..], c, t);
      }
    }
  }

  /** A signed escape becomes one ASCII character where the standard keeps three. */
  lemma {:induction false} SignedEscapeSplits(p: string, s: string)
    requires SignedEscape(s, 0)
    ensures Utf8(p + DecodedBytes(s)) <==> Utf8(p) && Utf8(DecodedBytes(s[3..]))
    ensures Utf8(p + StandardBytes(s)) <==> Utf8(p) && Utf8(StandardBytes(s[3..]))
  {
    var (d, r) := (DecodedBytes(s[3..]), StandardBytes(s[3..]));
    var v := Radix16(s[1], s[2]).value;
    assert p + DecodedBytes(s) == p + [v] + d;
    AsciiSplits(p, v, d);
    SkipTwo(s);
    assert p + StandardBytes(s) == p + [s[0]] + ("" + [s[1]] + ("" + [s[2]] + r));
    AsciiSplits(p, s[0], "" + [s[1]] + ("" + [s[2]] + r));
    AsciiSplits("", s[1], "" + [s[2]] + r);
    AsciiSplits("", s[2], r);
  }

  /** Apart from signed escapes the decoders take the same steps. */
  lemma {:induction false} SameStep(s: string) returns (c: char, t: string)
    requires s != "" && !SignedEscape(s, 0)
    ensures |t| < |s| && DecodedBytes(s) == [c] + DecodedBytes(t) && StandardBytes(s) == [c] + StandardBytes(t)
  {
    if s[0] == '%' && 2 < |s| && Radix16(s[1], s[2]).Some? {
      c, t := Radix16(s[1], s[2]).value, s[3..];
    } else {
      c, t := s[0], s[1..];
    }
  }

  /** Both decoders give up on the same texts. */
  lemma {:induction false} SameFallback(p: string, s: string)
    ensures Utf8(p + DecodedBytes(s)) <==> Utf8(p + StandardBytes(s))
    decreases |s|
  {
    if SignedEscape(s, 0) {
      var t := s[3..];
      SignedEscapeSplits(p, s);
      SameFallback("", t);
      assert "" + DecodedBytes(t) == DecodedBytes(t) && "" + StandardBytes(t) == StandardBytes(t);
    } else if s != "" {
      var c, t := SameStep(s);
      SameFallback(p + [c], t);
      assert p + ([c] + DecodedBytes(t)) == p + [c] + DecodedBytes(t);
      assert p + ([c] + StandardBytes(t)) == p + [c] + StandardBytes(t);
    }
  }

  /** The standard's bytes, or the text itself when they are not UTF-8. */
  function StandardDecoded(s: string): (r: string) { if Utf8(StandardBytes(s)) then StandardBytes(s) else s }

  /**
    The decoder agrees with the standard exactly on texts without a signed escape such as
    `%+5`, and on those whose decoded bytes are not UTF-8.
  */
  lemma {:induction false} StandardIffNoSignedEscape(s: string)
    ensures Decoded(s) == StandardDecoded(s)
      <==> (!exists i: nat :: i < |s| && SignedEscape(s, i)) || !Utf8(DecodedBytes(s))
  {
    LengthsDiffer(s);
    SignedEscapesCount(s);
    SameFallback("", s);
    assert "" + DecodedBytes(s) == DecodedBytes(s) && "" + StandardBytes(s) == StandardBytes(s);
  }

  lemma {:induction false} ShortEscape()
    ensures DecodedBytes("%+5") == [5 as char] && StandardBytes("%+5") == "%+5"
  {
    var s := "%+5";
    assert s[3..] == "" && s[0] == '%' && s[1] == '+' && Radix16(s[1], s[2]) == Some(5 as char);
    SkipTwo(s);
    assert StandardBytes(s) == ['%'] + ([s[1], s[2]] + StandardBytes(""));
  }

  lemma {:induction false} EscapeBeforeJunk()
    ensures DecodedBytes("%+5%FF") == [5 as char, 0xFF as char]
  {
    var (s, t) := ("%+5%FF", "%FF");
    assert s[3..] == t && t[3..] == "";
    assert Radix16(t[1], t[2]) == Some(0xFF as char) && DecodedBytes(t) == [0xFF as char];
    assert Radix16(s[1], s[2]) == Some(5 as char);
  }

  /** A signed escape decodes to one byte where the standard leaves it alone; the fallback can hide that. */
  lemma {:induction false} SignedEscapeDecodes()
    ensures Decoded("%+5") == [5 as char] && StandardDecoded("%+5") == "%+5"
    ensures Decoded("%+5%FF") == "%+5%FF" == StandardDecoded("%+5%FF")
  {
    ShortEscape();
    AsciiSplits("", 5 as char, "");
    assert "" + [5 as char] + "" == [5 as char];
    EscapeBeforeJunk();
    AsciiSplits("", 5 as char, [0xFF as char]);
    assert "" + [5 as char] + [0xFF as char] == [5 as char, 0xFF as char];
    StandardIffNoSignedEscape("%+5%FF");
  }

  // ---- Routes ----

  datatype Page =
    | Home | Instance | Servers | Versions | Import | Mods | Client | Account | Settings | Donations | Wardrobe

  datatype Route = Route(page: Page, instance: string, query: string, raw: string)

  function TrimHashes(s: string): (r: string) { if s != "" && s[0] == '#' then TrimHashes(s[1..]) else s }

  /** The length of the part of a text before the first `c`. */
  function Before(s: string, c: char): (n: nat)
    ensures n <= |s| && c !in s[..n] && (n < |s| ==> s[n] == c)
  {
    if s == "" || s[0] == c then 0
    else
      var n := Before(s[1..], c);
      assert s[..n + 1] == [s[0]] + s[1..][..n];
      n + 1
  }

  /** The parts of a path between slashes that are not empty. */
  function Segments(s: string): (r: seq<string>)
    decreases |s|
  {
    if s == "" then []
    else if s[0] == '/' then Segments(s[1..])
    else
      var n := Before(s, '/');
      [s[..n]] + Segments(s[n..])
  }

  function Raw(hash: string): (r: string) {
    if hash == "" then "#/" else if hash[0] == '#' then hash else "#" + hash
  }

  function PageOf(p0: string, p1: string): (r: Page) {
    if p0 == "" then Home
    else if p0 == "instances" then (if p1 == "" then Home else Instance)
    else if p0 == "servers" then Servers
    else if (p0 == "library" && p1 == "versions") || p0 == "versions" then Versions
    else if (p0 == "library" && p1 == "import") || p0 == "import" then Import
    else if p0 == "mods" then Mods
    else if p0 == "client" then Client
    else if p0 == "account" then Account
    else if p0 == "settings" then Settings
    else if p0 == "donaciones" then Donations
    else if p0 == "armario" then Wardrobe
    else Home
  }

  function Parse(hash: string): (r: Route) {
    var raw := Raw(hash);
    var body := TrimHashes(raw);
    var n := Before(body, '?');
    var parts := Segments(body[..n]);
    var p0 := if |parts| > 0 then parts[0] else "";
    var p1 := if |parts| > 1 then parts[1] else "";
    var page := PageOf(p0, p1);
    Route(page, if page == Instance then Decoded(p1) else "", if n < |body| then body[n + 1..] else "", raw)
  }

  function InstanceRoute(name: string): (r: string)
    requires Bytes(name)
  {
    "#/instances/" + Encoded(name)
  }

  /** What encoding leaves in a text: nothing a route is split at. */
  lemma {:induction false} EncodedIsOneSegment(s: string)
    requires Bytes(s)
    ensures '/' !in Encoded(s) && '?' !in Encoded(s) && '#' !in Encoded(s)
    ensures Encoded(s) == "" <==> s == ""
  {
    if s != "" {
      EncodedIsOneSegment(s[1..]);
      var head := if Plain(s[0]) then [s[0]] else Escape(s[0]);
      assert forall c :: c in Encoded(s) ==> c in head || c in Encoded(s[1..]);
      assert '/' !in head && '?' !in head && '#' !in head;
    }
  }

  lemma {:induction false} BeforeEnd(s: string, c: char, rest: string)
    requires c !in s
    ensures Before(s + [c] + rest, c) == |s| && Before(s, c) == |s|
  {
    if s != "" {
      assert s[0] in s;
      BeforeEnd(s[1..], c, rest);
      assert (s + [c] + rest)[1..] == s[1..] + [c] + rest;
    }
  }

  lemma {:induction false} TwoSegments(a: string, b: string)
    requires a != "" && '/' !in a && '/' !in b
    ensures Segments("/" + (a + "/" + b)) == [a] + (if b == "" then [] else [b])
  {
    var path := a + "/" + b;
    assert ("/" + path)[1..] == path;
    assert path[0] == a[0] && a[0] in a;
    BeforeEnd(a, '/', b);
    assert path == a + ['/'] + b && path[..|a|] == a && path[|a|..] == "/" + b;
    assert Segments(path) == [a] + Segments("/" + b);
    LastSegment(b);
  }

  lemma {:induction false} LastSegment(b: string)
    requires '/' !in b
    ensures Segments("/" + b) == if b == "" then [] else [b]
  {
    var s := "/" + b;
    assert s[0] == '/' && s[1..] == b;
    if b != "" {
      assert b[0] in b;
      BeforeEnd(b, '/', "");
      assert b[..|b|] == b && b[|b|..] == "";
      assert Segments(b) == [b[..|b|]] + Segments(b[|b|..]);
      assert Segments("") == [];
    }
    assert Segments(s) == Segments(b);
  }

  lemma {:induction false} RouteBody(enc: string)
    requires '/' !in enc && '?' !in enc
    ensures var body := "/" + ("instances" + "/" + enc);
      && Raw("#/instances/" + enc) == "#/instances/" + enc
      && TrimHashes("#/instances/" + enc) == body
      && Before(body, '?') == |body|
      && Segments(body[..|body|]) == ["instances"] + (if enc == "" then [] else [enc])
  {
    var (route, body) := ("#/instances/" + enc, "/" + ("instances" + "/" + enc));
    assert route == "#" + body && route[1..] == body && body[0] == '/';
    assert TrimHashes(body) == body;
    assert '?' !in "instances" && '/' !in "instances";
    assert '?' !in body;
    BeforeEnd(body, '?', "");
    assert body[..|body|] == body;
    TwoSegments("instances", enc);
  }

  /** Parsing an instance's route gives its page and name back exactly when the name is not empty. */
  lemma {:induction false} InstanceRouteParses(name: string)
    requires Bytes(name) && Utf8(name)
    ensures var r := Parse(InstanceRoute(name));
      && r.query == "" && r.raw == InstanceRoute(name) && r.instance == name
      && (r.page == Instance <==> name != "")
  {
    EncodedIsOneSegment(name);
    RouteBody(Encoded(name));
    RoundTripIffText(name);
  }

  /** Different names have different routes. */
  lemma {:induction false} RoutesAreDistinct(a: string, b: string)
    requires Bytes(a) && Bytes(b) && InstanceRoute(a) == InstanceRoute(b)
    ensures a == b
  {
    var n := |"#/instances/"|;
    assert Encoded(a) == InstanceRoute(a)[n..] == InstanceRoute(b)[n..] == Encoded(b);
    DecodeUndoesEncode(a);
    DecodeUndoesEncode(b);
  }
}
