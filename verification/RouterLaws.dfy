/**
  Routes, said of their characters: how a byte is written and read, what counts as UTF-8,
  which page a path leads to and what its query is.
*/
module RouterLaws {
  import opened Wrappers
  import opened Router

  // ---- Writing and reading bytes ----

  const CAPITALS := "ABCDEFGHIJKLMNOPQRSTUVWXYZ"
  const SMALLS := "abcdefghijklmnopqrstuvwxyz"
  const UPPER := "0123456789ABCDEF"
  const LOWER := "0123456789abcdef"

  /** Letters, digits and nine marks. */
  predicate Kept(c: char) { c in CAPITALS || c in SMALLS || c in "0123456789" || c in "-_.!~*'()" }

  lemma {:induction false} CapitalIff(c: char)
    ensures c in CAPITALS <==> 'A' <= c <= 'Z'
  {
    assert forall i :: 0 <= i < 26 ==> CAPITALS[i] == 'A' + i as char;
    if 'A' <= c <= 'Z' {
      assert CAPITALS[(c - 'A') as int] == c;
    }
  }

  lemma {:induction false} SmallIff(c: char)
    ensures c in SMALLS <==> 'a' <= c <= 'z'
  {
    assert forall i :: 0 <= i < 26 ==> SMALLS[i] == 'a' + i as char;
    if 'a' <= c <= 'z' {
      assert SMALLS[(c - 'a') as int] == c;
    }
  }

  lemma {:induction false} DigitIff(c: char)
    ensures c in "0123456789" <==> '0' <= c <= '9'
  {
    var d := "0123456789";
    assert forall i :: 0 <= i < 10 ==> d[i] == '0' + i as char;
    if '0' <= c <= '9' {
      assert d[(c - '0') as int] == c;
    }
  }

  lemma {:induction false} PlainIff(c: char)
    ensures Plain(c) <==> Kept(c)
  {
    CapitalIff(c);
    SmallIff(c);
    DigitIff(c);
  }

  /** A byte is kept when it is one of these characters, and otherwise written as a percent sign and two digits. */
  lemma {:induction false} ByteIsWritten(c: char)
    requires c as int < 256
    ensures Encoded([c]) == if Kept(c) then [c] else ['%', UPPER[c as int / 16], UPPER[c as int % 16]]
  {
    PlainIff(c);
    UpperDigit(c as int / 16);
    UpperDigit(c as int % 16);
    assert [c][1..] == "";
    assert Encoded([c]) == (if Plain(c) then [c] else Escape(c)) + "";
  }

  lemma {:induction false} UpperDigit(n: nat)
    requires n < 16
    ensures HexDigit(n) == UPPER[n]
  {
  }

  /** Texts are written byte by byte. */
  lemma {:induction false} EncodedConcat(a: string, b: string)
    requires Bytes(a) && Bytes(b)
    ensures Bytes(a + b) && Encoded(a + b) == Encoded(a) + Encoded(b)
  {
    if a == "" {
      assert a + b == b;
    } else {
      EncodedConcat(a[1..], b);
      assert (a + b)[0] == a[0] && (a + b)[1..] == a[1..] + b;
      var head := if Plain(a[0]) then [a[0]] else Escape(a[0]);
      assert head + (Encoded(a[1..]) + Encoded(b)) == (head + Encoded(a[1..])) + Encoded(b);
    }
  }

  /** `v` is the value of the digit, in either case. */
  predicate HexAs(c: char, v: nat) { v < 16 && (c == UPPER[v] || c == LOWER[v]) }

  lemma {:induction false} HexValueIff(c: char, v: nat)
    ensures HexValue(c) == Some(v) <==> HexAs(c, v)
  {
  }

  /**
    A percent sign and two digits in either case read as their byte, and a plus sign counts as
    a zero before the second.
  */
  lemma {:induction false} EscapeIsRead(x: char, y: char, v: nat, w: nat, rest: string)
    requires (HexAs(x, v) || (x == '+' && v == 0)) && HexAs(y, w)
    ensures DecodedBytes(['%', x, y] + rest) == [(16 * v + w) as char] + DecodedBytes(rest)
  {
    HexValueIff(x, v);
    HexValueIff(y, w);
    assert (['%', x, y] + rest)[3..] == rest;
  }

  /** Any other character is read as itself. */
  lemma {:induction false} OtherIsRead(c: char, rest: string)
    requires !(c == '%' && |rest| >= 2
               && (rest[0] == '+' || exists v :: HexAs(rest[0], v)) && exists w :: HexAs(rest[1], w))
    ensures DecodedBytes([c] + rest) == [c] + DecodedBytes(rest)
  {
    var s := [c] + rest;
    assert s[1..] == rest;
    if c == '%' && |rest| >= 2 {
      if HexValue(rest[0]).Some? {
        HexValueIff(rest[0], HexValue(rest[0]).value);
      }
      if HexValue(rest[1]).Some? {
        HexValueIff(rest[1], HexValue(rest[1]).value);
      }
    }
  }

  // ---- What is UTF-8 ----

  /** A code point that is not a surrogate. */
  predicate Scalar(p: nat) { p < 0xD800 || 0xE000 <= p < 0x11_0000 }

  /** Section 3 of RFC 3629. */
  function PointBytes(p: nat): (s: string)
    requires Scalar(p)
  {
    if p < 0x80 then [p as char]
    else if p < 0x800 then [(0xC0 + p / 0x40) as char, (0x80 + p % 0x40) as char]
    else if p < 0x1_0000 then
      [(0xE0 + p / 0x1000) as char, (0x80 + p / 0x40 % 0x40) as char, (0x80 + p % 0x40) as char]
    else
      [(0xF0 + p / 0x4_0000) as char, (0x80 + p / 0x1000 % 0x40) as char,
       (0x80 + p / 0x40 % 0x40) as char, (0x80 + p % 0x40) as char]
  }

  predicate Scalars(ps: seq<nat>) { forall i :: 0 <= i < |ps| ==> Scalar(ps[i]) }

  function TextOf(ps: seq<nat>): (s: string)
    requires Scalars(ps)
  {
    if ps == [] then "" else PointBytes(ps[0]) + TextOf(ps[1..])
  }

  lemma {:induction false} PointRange(p: nat)
    requires Scalar(p)
    ensures p < 0x800 ==> p / 0x40 < 0x20 && (p >= 0x80 ==> p / 0x40 >= 2)
    ensures 0x800 <= p < 0x1_0000 ==>
      var (a, b) := (p / 0x1000, p / 0x40 % 0x40);
      a < 16 && (a == 0 ==> b >= 0x20) && (a == 13 ==> b < 0x20)
    ensures 0x1_0000 <= p ==>
      var (a, b) := (p / 0x4_0000, p / 0x1000 % 0x40);
      a < 5 && (a == 0 ==> b >= 0x10) && (a == 4 ==> b < 0x10)
  {
  }

  lemma {:induction false} PointLength(p: nat, rest: string)
    requires Scalar(p)
    ensures Utf8Length(PointBytes(p) + rest) == |PointBytes(p)|
  {
    PointRange(p);
    var s := PointBytes(p) + rest;
    assert s[0] == PointBytes(p)[0];
  }

  /** The code point of the sequence a text starts with. */
  lemma {:induction false} FirstPoint(s: string) returns (p: nat)
    requires Utf8Length(s) > 0
    ensures Scalar(p) && PointBytes(p) == s[..Utf8Length(s)]
  {
    var (n, a) := (Utf8Length(s), s[0] as nat);
    if n == 1 {
      p := a;
    } else if n == 2 {
      p := TwoBytes(a - 0xC0, s[1] as nat - 0x80);
    } else if n == 3 {
      p := ThreeBytes(a - 0xE0, s[1] as nat - 0x80, s[2] as nat - 0x80);
    } else {
      p := FourBytes(a - 0xF0, s[1] as nat - 0x80, s[2] as nat - 0x80, s[3] as nat - 0x80);
    }
  }

  lemma {:induction false} TwoBytes(a: nat, b: nat) returns (p: nat)
    requires 2 <= a < 0x20 && b < 0x40
    ensures Scalar(p) && PointBytes(p) == [(0xC0 + a) as char, (0x80 + b) as char]
  {
    p := a * 0x40 + b;
  }

  lemma {:induction false} ThreeBytes(a: nat, b: nat, c: nat) returns (p: nat)
    requires a < 16 && b < 0x40 && c < 0x40 && (a == 0 ==> b >= 0x20) && (a == 13 ==> b < 0x20)
    ensures Scalar(p) && PointBytes(p) == [(0xE0 + a) as char, (0x80 + b) as char, (0x80 + c) as char]
  {
    p := (a * 0x40 + b) * 0x40 + c;
    assert p / 0x40 == a * 0x40 + b && p / 0x1000 == a;
  }

  lemma {:induction false} FourBytes(a: nat, b: nat, c: nat, d: nat) returns (p: nat)
    requires a < 5 && b < 0x40 && c < 0x40 && d < 0x40 && (a == 0 ==> b >= 0x10) && (a == 4 ==> b < 0x10)
    ensures Scalar(p)
    ensures PointBytes(p) == [(0xF0 + a) as char, (0x80 + b) as char, (0x80 + c) as char, (0x80 + d) as char]
  {
    p := ((a * 0x40 + b) * 0x40 + c) * 0x40 + d;
    assert p / 0x40 == (a * 0x40 + b) * 0x40 + c && p / 0x1000 == a * 0x40 + b && p / 0x4_0000 == a;
  }

  lemma {:induction false} TextOfCons(p: nat, ps: seq<nat>)
    requires Scalar(p) && Scalars(ps)
    ensures Scalars([p] + ps) && TextOf([p] + ps) == PointBytes(p) + TextOf(ps)
  {
    assert ([p] + ps)[1..] == ps;
  }

  lemma {:induction false} Points(s: string) returns (ps: seq<nat>)
    requires Utf8(s)
    ensures Scalars(ps) && TextOf(ps) == s
  {
    if s == "" {
      ps := [];
    } else {
      var n := Utf8Length(s);
      var p := FirstPoint(s);
      var rest := Points(s[n..]);
      ps := [p] + rest;
      TextOfCons(p, rest);
      assert s == s[..n] + s[n..];
    }
  }

  lemma {:induction false} TextIsUtf8(ps: seq<nat>)
    requires Scalars(ps)
    ensures Utf8(TextOf(ps))
  {
    if ps != [] {
      var (head, rest) := (PointBytes(ps[0]), TextOf(ps[1..]));
      TextIsUtf8(ps[1..]);
      PointLength(ps[0], rest);
      assert (head + rest)[|head|..] == rest;
    }
  }

  /**
    Bytes are taken for UTF-8 exactly when they are code points, none of them a surrogate,
    each in its shortest form.
  */
  lemma {:induction false} Utf8Iff(s: string)
    ensures Utf8(s) <==> exists ps :: Scalars(ps) && TextOf(ps) == s
  {
    if Utf8(s) {
      var ps := Points(s);
    }
    if ps :| Scalars(ps) && TextOf(ps) == s {
      TextIsUtf8(ps);
    }
  }

  // ---- Pages and queries ----

  /** A text without the characters that split a route. */
  predicate Part(s: string) { '/' !in s && '?' !in s && '#' !in s }

  lemma {:induction false} MarkFound(path: string, rest: string)
    requires '?' !in path
    ensures Before(path + ['?'] + rest, '?') == |path| && Before(path, '?') == |path|
  {
    BeforeEnd(path, '?', rest);
  }

  /** The query is what follows the first question mark, and has no say in the page. */
  lemma {:induction false} QueryAfterMark(path: string, query: string)
    requires path != "" && path[0] != '#' && '?' !in path
    ensures var (r, bare) := (Parse("#" + path + "?" + query), Parse("#" + path));
      && r.query == query && bare.query == "" && r.page == bare.page && r.instance == bare.instance
      && r.raw == "#" + path + "?" + query && bare.raw == "#" + path
  {
    var s := path + ['?'] + query;
    var (hash, bare) := ("#" + path + "?" + query, "#" + path);
    MarkFound(path, query);
    assert hash == "#" + s && hash[1..] == s && s[0] == path[0] && bare[1..] == path;
    assert TrimHashes(hash) == TrimHashes(s) == s && TrimHashes(bare) == TrimHashes(path) == path;
    assert s[..|path|] == path && s[|path| + 1..] == query && path[..|path|] == path;
  }

  /** A text without a hash sign is read as if it had one, and an empty one as the root. */
  lemma {:induction false} HashIsAdded(s: string)
    ensures s != "" && s[0] != '#' ==> Parse(s) == Parse("#" + s)
    ensures Parse("") == Parse("#/")
  {
  }

  /** The page of a path of two parts, the second of which may be empty. */
  lemma {:induction false} PathLeadsTo(a: string, b: string)
    requires a != "" && Part(a) && Part(b)
    ensures Parse("#/" + a + "/" + b).page == PageOf(a, b)
    ensures Parse("#/" + a + "/" + b).instance == if PageOf(a, b) == Instance then Decoded(b) else ""
  {
    var path := "/" + (a + "/" + b);
    assert "#/" + a + "/" + b == "#" + path;
    assert path[0] == '/';
    assert '?' !in path by {
      assert forall c :: c in path ==> c == '/' || c in a || c in b;
    }
    MarkFound(path, "");
    assert ("#" + path)[1..] == path && TrimHashes("#" + path) == path && path[..|path|] == path;
    TwoSegments(a, b);
  }

  /** Which page each path leads to; every other path leads home. */
  lemma {:induction false} Pages(a: string, b: string)
    requires a != "" && Part(a) && Part(b)
    ensures var page := Parse("#/" + a + "/" + b).page;
      && (page == Instance <==> a == "instances" && b != "")
      && (page == Servers <==> a == "servers")
      && (page == Versions <==> a == "versions" || (a == "library" && b == "versions"))
      && (page == Import <==> a == "import" || (a == "library" && b == "import"))
      && (page == Mods <==> a == "mods") && (page == Client <==> a == "client")
      && (page == Account <==> a == "account") && (page == Settings <==> a == "settings")
      && (page == Donations <==> a == "donaciones") && (page == Wardrobe <==> a == "armario")
  {
    PathLeadsTo(a, b);
    assert "instances"[0] == 'i' && "servers"[0] == 's' && "library"[0] == 'l' && "versions"[0] == 'v';
    assert "import"[1] == 'm' && "instances"[1] == 'n' && "mods"[0] == 'm' && "client"[0] == 'c';
    assert "account"[1] == 'c' && "armario"[1] == 'r' && "settings"[2] == 't' && "servers"[2] == 'r';
    assert "donaciones"[0] == 'd';
  }

  lemma {:induction false} BeforeWithin(a: string, c: char, rest: string)
    ensures Before(a + [c] + rest, c) == Before(a, c)
  {
    var n := Before(a, c);
    if n < |a| {
      BeforeEnd(a[..n], c, a[n + 1..] + [c] + rest);
      assert a + [c] + rest == a[..n] + [c] + (a[n + 1..] + [c] + rest);
    } else {
      assert a[..n] == a;
      BeforeEnd(a, c, rest);
    }
  }

  /** A path is split at its slashes, and what is empty between two of them does not count. */
  lemma {:induction false} SegmentsSplit(a: string, b: string)
    ensures Segments(a + "/" + b) == Segments(a) + Segments(b)
    decreases |a|
  {
    var s := a + ['/'] + b;
    assert s == a + "/" + b;
    if a == "" {
      assert s[1..] == b;
    } else if a[0] == '/' {
      SegmentsSplit(a[1..], b);
      assert s[1..] == a[1..] + "/" + b;
    } else {
      var n := Before(a, '/');
      BeforeWithin(a, '/', b);
      assert s[..n] == a[..n] && s[n..] == a[n..] + "/" + b;
      SegmentsSplit(a[n..], b);
    }
  }

  /** A part is one segment. */
  lemma {:induction false} PartIsSegment(a: string)
    requires '/' !in a
    ensures Segments(a) == if a == "" then [] else [a]
  {
    if a != "" {
      BeforeEnd(a, '/', "");
      assert a[0] != '/' && a[..|a|] == a && a[|a|..] == "" && Segments("") == [];
    }
  }

  /** Only the first two segments of a path say where it leads. */
  lemma {:induction false} FirstTwoLead(path: string)
    requires path != "" && path[0] != '#' && '?' !in path
    ensures var (r, parts) := (Parse("#" + path), Segments(path));
      && (|parts| == 0 ==> r.page == Home)
      && (|parts| == 1 ==> r.page == PageOf(parts[0], ""))
      && (|parts| >= 2 ==> r.page == PageOf(parts[0], parts[1]))
  {
    BeforeEnd(path, '?', "");
    assert ("#" + path)[1..] == path && TrimHashes("#" + path) == path && path[..|path|] == path;
  }
}
