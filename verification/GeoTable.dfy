/**
  The ESPGEO1 country table and its bytes: little-endian counts, two-byte codes,
  then 34-byte ranges, the IPv4 section before the IPv6 one.
*/
module GeoTable {
  import opened Wrappers
  import opened GeoAddress

  type u16 = n: int | 0 <= n < 0x1_0000
  type u32 = n: int | 0 <= n < 0x1_0000_0000

  /** A country code: two bytes. */
  type Code = c: seq<byte> | |c| == 2 witness [0, 0]

  datatype GeoRange = GeoRange(start: Address, end: Address, country: u16)

  datatype Table = Table(countries: seq<Code>, v4: seq<GeoRange>, v6: seq<GeoRange>)

  datatype EncodeError = TooManyCountries | TooManyV4 | TooManyV6

  datatype DecodeError = Truncated | BadMagic | UnsupportedVersion | BadLength

  datatype Header = Header(v4: u32, v6: u32, countries: u32) {
    function TotalLen(): (r: nat) { 24 + countries * 2 + (v4 + v6) * 34 }
  }

  /** "ESPGEO1" and a NUL. */
  const MAGIC: seq<byte> := [0x45, 0x53, 0x50, 0x47, 0x45, 0x4F, 0x31, 0]

  // ---- Little-endian words ----

  function Le16(n: u16): (b: seq<byte>)
    ensures |b| == 2
  {
    [n % 256, n / 256]
  }

  function FromLe16(b: seq<byte>): (r: u16)
    requires |b| == 2
  {
    b[0] as int + b[1] as int * 256
  }

  function Le32(n: u32): (b: seq<byte>)
    ensures |b| == 4
  {
    var (p, q, s) := (n / 256, n / 256 / 256, n / 256 / 256 / 256);
    [n % 256, p % 256, q % 256, s]
  }

  function FromLe32(b: seq<byte>): (r: u32)
    requires |b| == 4
  {
    b[0] as int + 256 * (b[1] as int + 256 * (b[2] as int + 256 * b[3] as int))
  }

  lemma {:induction false} Le32Back(b: seq<byte>)
    requires |b| == 4
    ensures Le32(FromLe32(b)) == b
  {
    var (s, q) := (b[3] as int, b[2] as int + 256 * b[3] as int);
    var p := b[1] as int + 256 * q;
    assert q / 256 == s && q % 256 == b[2];
    assert p / 256 == q && p % 256 == b[1];
    assert FromLe32(b) / 256 == p && FromLe32(b) % 256 == b[0];
  }

  // ---- The format ----

  function RangeBytes(r: GeoRange): (b: seq<byte>)
    ensures |b| == 34
  {
    r.start + r.end + Le16(r.country)
  }

  function RangeOf(b: seq<byte>): (r: GeoRange)
    requires |b| == 34
  {
    GeoRange(b[..16], b[16..32], FromLe16(b[32..]))
  }

  function CodesBytes(cs: seq<Code>): (b: seq<byte>)
    ensures |b| == 2 * |cs|
  {
    if cs == [] then [] else cs[0] + CodesBytes(cs[1..])
  }

  function CodesOf(b: seq<byte>): (cs: seq<Code>)
    requires |b| % 2 == 0
    ensures 2 * |cs| == |b|
  {
    if b == [] then [] else [b[..2]] + CodesOf(b[2..])
  }

  function RangesBytes(rs: seq<GeoRange>): (b: seq<byte>)
    ensures |b| == 34 * |rs|
  {
    if rs == [] then [] else RangeBytes(rs[0]) + RangesBytes(rs[1..])
  }

  function RangesOf(b: seq<byte>): (rs: seq<GeoRange>)
    requires |b| % 34 == 0
    ensures 34 * |rs| == |b|
  {
    if b == [] then [] else [RangeOf(b[..34])] + RangesOf(b[34..])
  }

  function HeaderBytes(h: Header): (b: seq<byte>)
    ensures |b| == 24
  {
    MAGIC + Le32(h.v4) + Le32(h.v6) + Le32(h.countries) + Le32(0)
  }

  function Encoded(t: Table): (r: Result<seq<byte>, EncodeError>) {
    if |t.countries| > 0xFFFF then Err(TooManyCountries)
    else if |t.v4| > 0xFFFF_FFFF then Err(TooManyV4)
    else if |t.v6| > 0xFFFF_FFFF then Err(TooManyV6)
    else
      var head := HeaderBytes(Header(|t.v4|, |t.v6|, |t.countries|));
      Ok(head + CodesBytes(t.countries) + RangesBytes(t.v4) + RangesBytes(t.v6))
  }

  function ParseHeader(b: seq<byte>): (r: Result<Header, DecodeError>) {
    if |b| < 24 then Err(Truncated)
    else if b[..8] != MAGIC then Err(BadMagic)
    else if FromLe32(b[20..24]) != 0 then Err(UnsupportedVersion)
    else Ok(Header(FromLe32(b[8..12]), FromLe32(b[12..16]), FromLe32(b[16..20])))
  }

  function Decoded(b: seq<byte>): (r: Result<Table, DecodeError>) {
    match ParseHeader(b)
    case Err(e) => Err(e)
    case Ok(h) =>
      if |b| != h.TotalLen() then Err(BadLength)
      else
        var (c, m) := (24 + 2 * h.countries, 24 + 2 * h.countries + 34 * h.v4);
        Ok(Table(CodesOf(b[24..c]), RangesOf(b[c..m]), RangesOf(b[m..])))
  }

  // ---- The loops ----

  method Encode(t: Table) returns (r: Result<seq<byte>, EncodeError>)
    ensures r == Encoded(t)
  {
    if |t.countries| > 0xFFFF {
      return Err(TooManyCountries);
    }
    if |t.v4| > 0xFFFF_FFFF {
      return Err(TooManyV4);
    }
    if |t.v6| > 0xFFFF_FFFF {
      return Err(TooManyV6);
    }
    var out := MAGIC + Le32(|t.v4|) + Le32(|t.v6|) + Le32(|t.countries|) + Le32(0);
    ghost var head := out;
    var i := 0;
    while i < |t.countries|
      invariant 0 <= i <= |t.countries|
      invariant out == head + CodesBytes(t.countries[..i])
    {
      CodesSnoc(t.countries[..i], t.countries[i]);
      assert t.countries[..i + 1] == t.countries[..i] + [t.countries[i]];
      out := out + t.countries[i];
      i := i + 1;
    }
    assert t.countries[..i] == t.countries;
    out := AppendRanges(out, t.v4);
    out := AppendRanges(out, t.v6);
    r := Ok(out);
  }

  method AppendRanges(prefix: seq<byte>, rs: seq<GeoRange>) returns (out: seq<byte>)
    ensures out == prefix + RangesBytes(rs)
  {
    out := prefix;
    var i := 0;
    while i < |rs|
      invariant 0 <= i <= |rs|
      invariant out == prefix + RangesBytes(rs[..i])
    {
      RangesSnoc(rs[..i], rs[i]);
      assert rs[..i + 1] == rs[..i] + [rs[i]];
      out := out + rs[i].start;
      out := out + rs[i].end;
      out := out + Le16(rs[i].country);
      i := i + 1;
    }
    assert rs[..i] == rs;
  }

  method Decode(bytes: seq<byte>) returns (r: Result<Table, DecodeError>)
    ensures r == Decoded(bytes)
  {
    var parsed := ParseHeader(bytes);
    if parsed.Err? {
      return Err(parsed.error);
    }
    var head := parsed.value;
    if |bytes| != head.TotalLen() {
      return Err(BadLength);
    }
    var countries := ReadCodes(bytes, head.countries);
    var at := 24 + 2 * head.countries;
    var v4 := ReadRanges(bytes, at, head.v4);
    var v6 := ReadRanges(bytes, at + 34 * head.v4, head.v6);
    assert bytes[at + 34 * head.v4..] == bytes[at + 34 * head.v4..|bytes|];
    r := Ok(Table(countries, v4, v6));
  }

  lemma {:induction false} FirstCode(bytes: seq<byte>, at: nat, end: nat)
    requires at + 2 <= end <= |bytes| && (end - at) % 2 == 0
    ensures CodesOf(bytes[at..end]) == [[bytes[at], bytes[at + 1]]] + CodesOf(bytes[at + 2..end])
  {
    var tail := bytes[at..end];
    assert tail[..2] == [bytes[at], bytes[at + 1]] && tail[2..] == bytes[at + 2..end];
  }

  method ReadCodes(bytes: seq<byte>, count: nat) returns (countries: seq<Code>)
    requires 24 + 2 * count <= |bytes|
    ensures countries == CodesOf(bytes[24..24 + 2 * count])
  {
    countries := [];
    var at := 24;
    ghost var end := 24 + 2 * count;
    ghost var all := CodesOf(bytes[24..end]);
    for i := 0 to count
      invariant at == 24 + 2 * i
      invariant (end - at) % 2 == 0
      invariant countries + CodesOf(bytes[at..end]) == all
    {
      var code := [bytes[at], bytes[at + 1]];
      FirstCode(bytes, at, end);
      assert (countries + [code]) + CodesOf(bytes[at + 2..end]) == all;
      countries := countries + [code];
      at := at + 2;
    }
  }

  lemma {:induction false} SliceOfSlice(b: seq<byte>, at: nat, n: nat, i: nat, j: nat)
    requires at + n <= |b| && i <= j <= n
    ensures b[at..at + n][i..j] == b[at + i..at + j]
  {
    var (s, t) := (b[at..at + n][i..j], b[at + i..at + j]);
    forall k | 0 <= k < |s|
      ensures s[k] == t[k]
    {
    }
  }

  lemma {:induction false} RangeAt(b: seq<byte>, at: nat)
    requires at + 34 <= |b|
    ensures RangeOf(b[at..at + 34]) == GeoRange(b[at..at + 16], b[at + 16..at + 32], FromLe16(b[at + 32..at + 34]))
  {
    SliceOfSlice(b, at, 34, 0, 16);
    SliceOfSlice(b, at, 34, 16, 32);
    SliceOfSlice(b, at, 34, 32, 34);
  }

  lemma {:induction false} FirstRange(bytes: seq<byte>, at: nat, end: nat)
    requires at + 34 <= end <= |bytes| && (end - at) % 34 == 0
    ensures (end - (at + 34)) % 34 == 0
    ensures RangesOf(bytes[at..end])
      == [GeoRange(bytes[at..at + 16], bytes[at + 16..at + 32], FromLe16(bytes[at + 32..at + 34]))]
         + RangesOf(bytes[at + 34..end])
  {
    RangeAt(bytes, at);
    SliceOfSlice(bytes, at, end - at, 0, 34);
    SliceOfSlice(bytes, at, end - at, 34, end - at);
  }

  method ReadRanges(bytes: seq<byte>, start: nat, count: nat) returns (rs: seq<GeoRange>)
    requires start + 34 * count <= |bytes|
    ensures rs == RangesOf(bytes[start..start + 34 * count])
  {
    rs := [];
    var at, i := start, 0;
    ghost var end := start + 34 * count;
    ghost var all := RangesOf(bytes[start..end]);
    while i < count
      invariant 0 <= i <= count && at == start + 34 * i
      invariant (end - at) % 34 == 0
      invariant rs + RangesOf(bytes[at..end]) == all
    {
      var r := GeoRange(bytes[at..at + 16], bytes[at + 16..at + 32], FromLe16(bytes[at + 32..at + 34]));
      FirstRange(bytes, at, end);
      assert (rs + [r]) + RangesOf(bytes[at + 34..end]) == all;
      rs := rs + [r];
      at := at + 34;
      i := i + 1;
    }
  }

  // ---- Round trips ----

  lemma {:induction false} CodesSnoc(cs: seq<Code>, c: Code)
    ensures CodesBytes(cs + [c]) == CodesBytes(cs) + c
  {
    if cs != [] {
      CodesSnoc(cs[1..], c);
      assert (cs + [c])[1..] == cs[1..] + [c];
    }
  }

  lemma {:induction false} RangesSnoc(rs: seq<GeoRange>, r: GeoRange)
    ensures RangesBytes(rs + [r]) == RangesBytes(rs) + RangeBytes(r)
  {
    if rs != [] {
      RangesSnoc(rs[1..], r);
      assert (rs + [r])[1..] == rs[1..] + [r];
    }
  }

  lemma {:induction false} RangeRoundTrip(r: GeoRange, b: seq<byte>)
    requires |b| == 34
    ensures RangeOf(RangeBytes(r)) == r && RangeBytes(RangeOf(b)) == b
  {
  }

  lemma {:induction false} CodesRoundTrip(cs: seq<Code>)
    ensures CodesOf(CodesBytes(cs)) == cs
  {
    if cs != [] {
      CodesRoundTrip(cs[1..]);
      assert CodesBytes(cs)[..2] == cs[0] && CodesBytes(cs)[2..] == CodesBytes(cs[1..]);
    }
  }

  lemma {:induction false} CodesBack(b: seq<byte>)
    requires |b| % 2 == 0
    ensures CodesBytes(CodesOf(b)) == b
  {
    if b != [] {
      CodesBack(b[2..]);
      assert b == b[..2] + b[2..];
    }
  }

  lemma {:induction false} RangesRoundTrip(rs: seq<GeoRange>)
    ensures RangesOf(RangesBytes(rs)) == rs
  {
    if rs != [] {
      RangesRoundTrip(rs[1..]);
      assert RangesBytes(rs)[..34] == RangeBytes(rs[0]) && RangesBytes(rs)[34..] == RangesBytes(rs[1..]);
      RangeRoundTrip(rs[0], RangeBytes(rs[0]));
    }
  }

  lemma {:induction false} RangesBack(b: seq<byte>)
    requires |b| % 34 == 0
    ensures RangesBytes(RangesOf(b)) == b
  {
    if b != [] {
      RangesBack(b[34..]);
      RangeRoundTrip(RangeOf(b[..34]), b[..34]);
      assert b == b[..34] + b[34..];
    }
  }

  lemma {:induction false} HeaderRoundTrip(h: Header, rest: seq<byte>)
    ensures ParseHeader(HeaderBytes(h) + rest) == Ok(h)
  {
  }

  lemma {:induction false} HeaderBack(b: seq<byte>)
    requires ParseHeader(b).Ok?
    ensures HeaderBytes(ParseHeader(b).value) == b[..24]
  {
    Le32Back(b[8..12]);
    Le32Back(b[12..16]);
    Le32Back(b[16..20]);
    Le32Back(b[20..24]);
    assert b[..24] == b[..8] + b[8..12] + b[12..16] + b[16..20] + b[20..24];
  }

  /** Reading back what was written gives the table, and the file is as long as its header says. */
  lemma {:induction false} DecodeInvertsEncode(t: Table)
    requires Encoded(t).Ok?
    ensures Decoded(Encoded(t).value) == Ok(t)
    ensures |Encoded(t).value| == ParseHeader(Encoded(t).value).value.TotalLen()
  {
    var h := Header(|t.v4|, |t.v6|, |t.countries|);
    var (cs, v4, v6) := (CodesBytes(t.countries), RangesBytes(t.v4), RangesBytes(t.v6));
    var b := HeaderBytes(h) + cs + v4 + v6;
    assert b == HeaderBytes(h) + (cs + v4 + v6);
    HeaderRoundTrip(h, cs + v4 + v6);
    var (c, m) := (24 + |cs|, 24 + |cs| + |v4|);
    assert b[24..c] == cs && b[c..m] == v4 && b[m..] == v6;
    CodesRoundTrip(t.countries);
    RangesRoundTrip(t.v4);
    RangesRoundTrip(t.v6);
  }

  lemma {:induction false} Quartered(b: seq<byte>, i: nat, j: nat, k: nat)
    requires i <= j <= k <= |b|
    ensures b == b[..i] + b[i..j] + b[j..k] + b[k..]
  {
  }

  lemma {:induction false} EncodeInvertsDecode(b: seq<byte>)
    requires Decoded(b).Ok? && ParseHeader(b).value.countries <= 0xFFFF
    ensures Encoded(Decoded(b).value) == Ok(b)
  {
    var h := ParseHeader(b).value;
    var (c, m) := (24 + 2 * h.countries, 24 + 2 * h.countries + 34 * h.v4);
    CodesBack(b[24..c]);
    RangesBack(b[c..m]);
    RangesBack(b[m..]);
    HeaderBack(b);
    Quartered(b, 24, c, m);
  }

  /**
    Writing what was read gives the same bytes back exactly when the country count
    fits the writer's limit, a limit the reader does not have.
  */
  lemma {:induction false} EncodeInvertsDecodeIff(b: seq<byte>)
    requires Decoded(b).Ok?
    ensures Encoded(Decoded(b).value) == Ok(b) <==> ParseHeader(b).value.countries <= 0xFFFF
  {
    if ParseHeader(b).value.countries <= 0xFFFF {
      EncodeInvertsDecode(b);
    } else {
      assert |Decoded(b).value.countries| > 0xFFFF;
    }
  }

  /** A table without ranges is read whatever its number of countries is, and written again up to the limit. */
  lemma {:induction false} ReaderTakesAnyCount(n: u32, codes: seq<byte>)
    requires |codes| == 2 * n
    ensures var b := HeaderBytes(Header(0, 0, n)) + codes;
      && Decoded(b).Ok? && |Decoded(b).value.countries| == n
      && Encoded(Decoded(b).value) == if n <= 0xFFFF then Ok(b) else Err(TooManyCountries)
  {
    var b := HeaderBytes(Header(0, 0, n)) + codes;
    HeaderRoundTrip(Header(0, 0, n), codes);
    EncodeInvertsDecodeIff(b);
  }

  // ---- The layout of a table ----

  /** The four bytes from `at` on, the lowest first. */
  function WordAt(b: seq<byte>, at: nat): (n: nat)
    requires at + 4 <= |b|
  {
    b[at] as nat + 0x100 * b[at + 1] as nat + 0x1_0000 * b[at + 2] as nat + 0x100_0000 * b[at + 3] as nat
  }

  predicate CodeLies(b: seq<byte>, at: nat, c: Code) {
    at + 2 <= |b| && b[at] == c[0] && b[at + 1] == c[1]
  }

  /** One entry: the first address, the last one, and the index of the country, the low byte first. */
  predicate RangeLies(b: seq<byte>, at: nat, r: GeoRange) {
    && at + 34 <= |b|
    && (forall k :: 0 <= k < 16 ==> b[at + k] == r.start[k])
    && (forall k :: 0 <= k < 16 ==> b[at + 16 + k] == r.end[k])
    && b[at + 32] as nat + 0x100 * b[at + 33] as nat == r.country
  }

  /** The bytes "ESPGEO1" and a NUL. */
  predicate Magic(b: seq<byte>) {
    && 8 <= |b| && b[0] == 69 && b[1] == 83 && b[2] == 80 && b[3] == 71
    && b[4] == 69 && b[5] == 79 && b[6] == 49 && b[7] == 0
  }

  predicate HeaderLies(b: seq<byte>, v4: nat, v6: nat, countries: nat) {
    && 24 <= |b| && Magic(b)
    && WordAt(b, 8) == v4 && WordAt(b, 12) == v6 && WordAt(b, 16) == countries && WordAt(b, 20) == 0
  }

  predicate CodesLie(b: seq<byte>, cs: seq<Code>) {
    forall i :: 0 <= i < |cs| ==> CodeLies(b, 24 + 2 * i, cs[i])
  }

  predicate RangesLie(b: seq<byte>, at: nat, rs: seq<GeoRange>) {
    forall i :: 0 <= i < |rs| ==> RangeLies(b, at + 34 * i, rs[i])
  }

  /** The file layout of the module's notes, byte by byte. */
  predicate LaidOut(b: seq<byte>, t: Table) {
    var (c, n, m) := (|t.countries|, |t.v4|, |t.v6|);
    && |b| == 24 + 2 * c + 34 * n + 34 * m
    && HeaderLies(b, n, m, c) && CodesLie(b, t.countries)
    && RangesLie(b, 24 + 2 * c, t.v4) && RangesLie(b, 24 + 2 * c + 34 * n, t.v6)
  }

  lemma {:induction false} WordOf(b: seq<byte>, at: nat)
    requires at + 4 <= |b|
    ensures FromLe32(b[at..at + 4]) == WordAt(b, at)
  {
    var w := b[at..at + 4];
    assert w[0] == b[at] && w[1] == b[at + 1] && w[2] == b[at + 2] && w[3] == b[at + 3];
  }

  lemma {:induction false} MagicBytes(b: seq<byte>)
    requires 8 <= |b|
    ensures b[..8] == MAGIC <==> Magic(b)
  {
    var h := b[..8];
    assert forall k :: 0 <= k < 8 ==> h[k] == b[k];
    if Magic(b) {
      assert h == MAGIC;
    }
  }

  lemma {:induction false} HeaderParts(b: seq<byte>)
    requires 24 <= |b|
    ensures ParseHeader(b) ==
      if !Magic(b) then Err(BadMagic)
      else if WordAt(b, 20) != 0 then Err(UnsupportedVersion)
      else Ok(Header(WordAt(b, 8), WordAt(b, 12), WordAt(b, 16)))
  {
    MagicBytes(b);
    WordOf(b, 8);
    WordOf(b, 12);
    WordOf(b, 16);
    WordOf(b, 20);
  }

  lemma {:induction false} CodeAt(b: seq<byte>, i: nat)
    requires |b| % 2 == 0 && 2 * i + 2 <= |b|
    ensures CodesOf(b)[i] == [b[2 * i], b[2 * i + 1]]
  {
    if i == 0 {
      assert b[..2] == [b[0], b[1]];
    } else {
      CodeAt(b[2..], i - 1);
    }
  }

  lemma {:induction false} SliceOfTail(b: seq<byte>, n: nat, i: nat, j: nat)
    requires n <= i <= j <= |b|
    ensures b[n..][i - n..j - n] == b[i..j]
  {
  }

  lemma {:induction false} EntryAt(b: seq<byte>, i: nat)
    requires |b| % 34 == 0 && 34 * i + 34 <= |b|
    ensures RangesOf(b)[i] == RangeOf(b[34 * i..34 * i + 34])
  {
    if i > 0 {
      EntryAt(b[34..], i - 1);
      SliceOfTail(b, 34, 34 * i, 34 * i + 34);
    }
  }

  /** An entry read at a place lies there, and no other one does. */
  lemma {:induction false} EntryLies(b: seq<byte>, at: nat, r: GeoRange)
    requires at + 34 <= |b|
    ensures RangeLies(b, at, r) <==> r == RangeOf(b[at..at + 34])
  {
    RangeAt(b, at);
    var (x, y, z) := (b[at..at + 16], b[at + 16..at + 32], b[at + 32..at + 34]);
    assert forall k :: 0 <= k < 16 ==> x[k] == b[at + k] && y[k] == b[at + 16 + k];
    assert z[0] == b[at + 32] && z[1] == b[at + 33];
    if RangeLies(b, at, r) {
      assert r.start == x && r.end == y;
    }
  }

  lemma {:induction false} CodesLieIff(b: seq<byte>, n: nat, cs: seq<Code>)
    requires 24 + 2 * n <= |b| && |cs| == n
    ensures CodesLie(b, cs) <==> cs == CodesOf(b[24..24 + 2 * n])
  {
    var part := b[24..24 + 2 * n];
    forall i | 0 <= i < n
      ensures CodeLies(b, 24 + 2 * i, cs[i]) <==> cs[i] == CodesOf(part)[i]
    {
      CodeAt(part, i);
      assert part[2 * i] == b[24 + 2 * i] && part[2 * i + 1] == b[24 + 2 * i + 1];
      assert cs[i] == [cs[i][0], cs[i][1]];
    }
  }

  lemma {:induction false} RangesLieIff(b: seq<byte>, at: nat, n: nat, rs: seq<GeoRange>)
    requires at + 34 * n <= |b| && |rs| == n
    ensures RangesLie(b, at, rs) <==> rs == RangesOf(b[at..at + 34 * n])
  {
    var part := b[at..at + 34 * n];
    forall i | 0 <= i < n
      ensures RangeLies(b, at + 34 * i, rs[i]) <==> rs[i] == RangesOf(part)[i]
    {
      EntryAt(part, i);
      SliceOfSlice(b, at, 34 * n, 34 * i, 34 * i + 34);
      EntryLies(b, at + 34 * i, rs[i]);
    }
  }

  /** Reading a file gives a table exactly when the file is laid out as that table. */
  lemma {:induction false} DecodedIffLaidOut(b: seq<byte>, t: Table)
    ensures Decoded(b) == Ok(t) <==> LaidOut(b, t)
  {
    if 24 <= |b| {
      HeaderParts(b);
      var (n, m, c) := (WordAt(b, 8), WordAt(b, 12), WordAt(b, 16));
      if Magic(b) && WordAt(b, 20) == 0 && |b| == 24 + 2 * c + 34 * n + 34 * m {
        PartsLie(b, t, n, m, c);
      }
    }
  }

  /** The parts of a file with these counts, as a table. */
  function PartsRead(b: seq<byte>, n: nat, m: nat, c: nat): (t: Table)
    requires |b| == 24 + 2 * c + 34 * n + 34 * m
    ensures |t.countries| == c && |t.v4| == n && |t.v6| == m
  {
    var (x, y) := (24 + 2 * c, 24 + 2 * c + 34 * n);
    Table(CodesOf(b[24..x]), RangesOf(b[x..y]), RangesOf(b[y..y + 34 * m]))
  }

  lemma {:induction false} DecodedParts(b: seq<byte>, n: u32, m: u32, c: u32)
    requires |b| == 24 + 2 * c + 34 * n + 34 * m && ParseHeader(b) == Ok(Header(n, m, c))
    ensures Decoded(b) == Ok(PartsRead(b, n, m, c))
  {
    var y := 24 + 2 * c + 34 * n;
    assert b[y..] == b[y..y + 34 * m];
  }

  lemma {:induction false} PartsLie(b: seq<byte>, t: Table, n: u32, m: u32, c: u32)
    requires |b| == 24 + 2 * c + 34 * n + 34 * m && ParseHeader(b) == Ok(Header(n, m, c))
    requires HeaderLies(b, n, m, c)
    ensures Decoded(b) == Ok(t) <==> LaidOut(b, t)
  {
    DecodedParts(b, n, m, c);
    HeaderCounts(b, t, n, m, c);
    if |t.countries| == c && |t.v4| == n && |t.v6| == m {
      PartsOf(b, t);
    }
  }

  /** With the right counts, a table is laid out exactly when it is the one read from the parts. */
  lemma {:induction false} PartsOf(b: seq<byte>, t: Table)
    requires |b| == 24 + 2 * |t.countries| + 34 * |t.v4| + 34 * |t.v6|
    requires HeaderLies(b, |t.v4|, |t.v6|, |t.countries|)
    ensures LaidOut(b, t) <==> t == PartsRead(b, |t.v4|, |t.v6|, |t.countries|)
  {
    var (x, y) := (24 + 2 * |t.countries|, 24 + 2 * |t.countries| + 34 * |t.v4|);
    var p := PartsRead(b, |t.v4|, |t.v6|, |t.countries|);
    assert t == p <==> t.countries == p.countries && t.v4 == p.v4 && t.v6 == p.v6;
    assert CodesLie(b, t.countries) <==> t.countries == p.countries by {
      CodesLieIff(b, |t.countries|, t.countries);
    }
    assert RangesLie(b, x, t.v4) <==> t.v4 == p.v4 by {
      RangesLieIff(b, x, |t.v4|, t.v4);
    }
    assert RangesLie(b, y, t.v6) <==> t.v6 == p.v6 by {
      RangesLieIff(b, y, |t.v6|, t.v6);
    }
  }

  lemma {:induction false} HeaderCounts(b: seq<byte>, t: Table, n: nat, m: nat, c: nat)
    requires HeaderLies(b, n, m, c)
    ensures LaidOut(b, t) ==> |t.countries| == c && |t.v4| == n && |t.v6| == m
  {
  }

  /** Writing gives a file exactly when the file is laid out as the table and the counts keep their limits. */
  lemma {:induction false} EncodedIffLaidOut(t: Table, b: seq<byte>)
    ensures Encoded(t) == Ok(b)
      <==> LaidOut(b, t) && |t.countries| < 0x1_0000 && |t.v4| < 0x1_0000_0000 && |t.v6| < 0x1_0000_0000
  {
    DecodedIffLaidOut(b, t);
    if Encoded(t) == Ok(b) {
      DecodeInvertsEncode(t);
    } else if LaidOut(b, t) && |t.countries| < 0x1_0000 {
      EncodeInvertsDecodeIff(b);
      HeaderParts(b);
    }
  }

  /** Why a file is refused: the tests in their order, on the bytes themselves. */
  lemma {:induction false} RefusedBecause(b: seq<byte>)
    ensures Decoded(b) == Err(Truncated) <==> |b| < 24
    ensures Decoded(b) == Err(BadMagic) <==> |b| >= 24 && !Magic(b)
    ensures Decoded(b) == Err(UnsupportedVersion) <==> |b| >= 24 && Magic(b) && WordAt(b, 20) != 0
    ensures Decoded(b) == Err(BadLength)
      <==> |b| >= 24 && Magic(b) && WordAt(b, 20) == 0
           && |b| != 24 + 2 * WordAt(b, 16) + 34 * WordAt(b, 8) + 34 * WordAt(b, 12)
  {
    if 24 <= |b| {
      HeaderParts(b);
    }
  }

  /** Why a table is not written: the first count that is too large. */
  lemma {:induction false} NotWrittenBecause(t: Table)
    ensures Encoded(t) == Err(TooManyCountries) <==> |t.countries| > 65535
    ensures Encoded(t) == Err(TooManyV4) <==> |t.countries| <= 65535 && |t.v4| > 4294967295
    ensures Encoded(t) == Err(TooManyV6) <==> |t.countries| <= 65535 && |t.v4| <= 4294967295 && |t.v6| > 4294967295
  {
  }
}
