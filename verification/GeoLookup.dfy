/**
  CSV lines to a country table, and the address lookup on it. The text of an
  address and the splitting of a line are inputs; what a row becomes is not.
*/
module GeoLookup {
  import opened Wrappers
  import opened GeoAddress
  import opened GeoTable
  import opened GeoIndex

  type Octets = o: seq<byte> | |o| == 4 witness [0, 0, 0, 0]

  /** An address field: whether it holds a colon, and what it parses to in each family. */
  datatype AddrText = AddrText(colon: bool, v4: Option<Octets>, v6: Option<Address>)

  /** `cc` is the third field without surrounding blanks. */
  datatype Line = Blank | Short | Fields(start: AddrText, end: AddrText, cc: seq<byte>)

  datatype Ip = V4(octets: Octets) | V6(addr: Address)

  // ---- Rows ----

  /** Section 2.5.5.2 of RFC 4291: ten zero bytes, two of ones, the IPv4 address. */
  function Mapped(o: Octets): (a: Address)
    ensures ToMapped(a) == Some(o)
  {
    var a := [0, 0, 0, 0, 0, 0, 0, 0, 0, 0, 255, 255] + o;
    assert a[..12] == [0, 0, 0, 0, 0, 0, 0, 0, 0, 0, 255, 255] && a[12..] == o;
    a
  }

  function ToMapped(a: Address): (r: Option<Octets>) {
    if a[..12] == [0, 0, 0, 0, 0, 0, 0, 0, 0, 0, 255, 255] then Some(a[12..]) else None
  }

  predicate IsLetter(b: byte) { 65 <= b <= 90 || 97 <= b <= 122 }

  function Upper(b: byte): (r: byte) { if 97 <= b <= 122 then b - 32 else b }

  /** DB-IP's "unknown". */
  predicate IsUnknown(cc: seq<byte>) { |cc| == 2 && Upper(cc[0]) == 90 && Upper(cc[1]) == 90 }

  /** The sixteen-byte address of a field, read as IPv6 or as IPv4. */
  function AddressOf(t: AddrText, v6: bool): (a: Option<Address>) {
    if v6 then t.v6
    else
      match t.v4
      case None => None
      case Some(o) => Some(Mapped(o))
  }

  lemma {:induction false} MappedBack(a: Address)
    requires ToMapped(a).Some?
    ensures Mapped(ToMapped(a).value) == a
  {
    assert a == a[..12] + a[12..];
  }

  /** The two addresses of a row and whether it belongs to the IPv4 section. */
  function ParseBounds(start: AddrText, end: AddrText): (r: Option<(Address, Address, bool)>)
    ensures r.Some? ==> AddressOf(start, start.colon) == Some(r.value.0)
    ensures r.Some? ==> AddressOf(end, start.colon) == Some(r.value.1)
    ensures r.Some? ==> (r.value.2 <==> ToMapped(r.value.0).Some? && ToMapped(r.value.1).Some?)
  {
    if start.colon then
      match (start.v6, end.v6)
      case (Some(s), Some(e)) => (
        match (ToMapped(s), ToMapped(e))
        case (Some(s4), Some(e4)) =>
          MappedBack(s);
          MappedBack(e);
          Some((Mapped(s4), Mapped(e4), true))
        case _ => Some((s, e, false)))
      case _ => None
    else
      match (start.v4, end.v4)
      case (Some(s), Some(e)) => Some((Mapped(s), Mapped(e), true))
      case _ => None
  }

  function ParseRow(start: AddrText, end: AddrText, cc: seq<byte>): (r: Option<(RawRange, bool)>)
    ensures r.Some? ==> !Less(r.value.0.end, r.value.0.start)
    ensures r.Some? ==> 65 <= r.value.0.cc[0] <= 90 && 65 <= r.value.0.cc[1] <= 90
    ensures r.Some? ==> AddressOf(start, start.colon) == Some(r.value.0.start)
    ensures r.Some? ==> AddressOf(end, start.colon) == Some(r.value.0.end)
    ensures r.Some? ==> (r.value.1 <==> ToMapped(r.value.0.start).Some? && ToMapped(r.value.0.end).Some?)
  {
    match ParseBounds(start, end)
    case None => None
    case Some((s, e, v4)) =>
      if Less(e, s) then None
      else if |cc| != 2 || !IsLetter(cc[0]) || !IsLetter(cc[1]) then None
      else Some((RawRange(s, e, [Upper(cc[0]), Upper(cc[1])]), v4))
  }

  /** The row a line contributes to a family's section, if any. */
  function RowFor(line: Line, v4: bool): (r: seq<RawRange>) {
    if !line.Fields? || IsUnknown(line.cc) then []
    else
      match ParseRow(line.start, line.end, line.cc)
      case Some((row, fam)) => if fam == v4 then [row] else []
      case None => []
  }

  /** The kept rows of one family, in file order. */
  function KeptRows(lines: seq<Line>, v4: bool): (r: seq<RawRange>) {
    if lines == [] then []
    else KeptRows(lines[..|lines| - 1], v4) + RowFor(lines[|lines| - 1], v4)
  }

  // ---- Rows, by what their fields say ----

  /** The value of the first mapped address, 0xFFFF followed by 32 zero bits. */
  const MAPPED: nat := 0xFFFF_0000_0000

  predicate InMapped(k: nat) { MAPPED <= k < MAPPED + 0x1_0000_0000 }

  /** The number an address field stands for, read as IPv6 or as IPv4. */
  function FieldNum(t: AddrText, v6: bool): (n: Option<nat>) {
    if v6 then (if t.v6.Some? then Some(Num(t.v6.value)) else None)
    else if t.v4.Some? then Some(MAPPED + Num(t.v4.value)) else None
  }

  /** The code is the two letters of the text, in upper case. */
  predicate Spells(cc: seq<byte>, c: Code) {
    && |cc| == 2
    && forall k :: 0 <= k < 2 ==> (65 <= cc[k] <= 90 && c[k] == cc[k]) || (97 <= cc[k] <= 122 && c[k] == cc[k] - 32)
  }

  /** The fields give a range from `lo` to `hi` of the family, both read by the colon of the first one. */
  predicate Reads(start: AddrText, end: AddrText, cc: seq<byte>, v4: bool, lo: nat, hi: nat, c: Code) {
    && FieldNum(start, start.colon) == Some(lo) && FieldNum(end, start.colon) == Some(hi) && lo <= hi
    && (v4 <==> InMapped(lo) && InMapped(hi)) && Spells(cc, c)
  }

  /** The two letters are ZZ, in either case. */
  predicate SaysUnknown(cc: seq<byte>) {
    |cc| == 2 && (cc[0] == 90 || cc[0] == 122) && (cc[1] == 90 || cc[1] == 122)
  }

  /** The line gives the family a range from `lo` to `hi` with this code. */
  predicate LineGives(line: Line, v4: bool, lo: nat, hi: nat, c: Code) {
    line.Fields? && !SaysUnknown(line.cc) && Reads(line.start, line.end, line.cc, v4, lo, hi, c)
  }

  lemma {:induction false} NumSplits(a: seq<byte>, b: seq<byte>)
    requires |b| == 4
    ensures Num(a + b) == Num(a) * 0x1_0000_0000 + Num(b)
    ensures Num(b) < 0x1_0000_0000
  {
    var (b1, b2, b3) := (b[..1], b[..2], b[..3]);
    assert (a + b)[..|a| + 3] == a + b3 && (a + b3)[..|a| + 2] == a + b2 && (a + b2)[..|a| + 1] == a + b1;
    assert (a + b1)[..|a|] == a && b[..3] == b3 && b3[..2] == b2 && b2[..1] == b1 && b1[..0] == [];
    assert Num(a + b1) == Num(a) * 256 + b[0] && Num(b1) == b[0];
    assert Num(a + b2) == Num(a + b1) * 256 + b[1] && Num(b2) == Num(b1) * 256 + b[1];
    assert Num(a + b3) == Num(a + b2) * 256 + b[2] && Num(b3) == Num(b2) * 256 + b[2];
  }

  lemma {:induction false} LeadingZeros(n: nat)
    ensures Num(seq(n, _ => 0)) == 0
  {
    if n > 0 {
      LeadingZeros(n - 1);
      var a: seq<byte> := seq(n, _ => 0);
      var b: seq<byte> := seq(n - 1, _ => 0);
      assert a[..n - 1] == b;
    }
  }

  lemma {:induction false} PrefixNum()
    ensures Num([0, 0, 0, 0, 0, 0, 0, 0, 0, 0, 255, 255]) == 0xFFFF
  {
    var p: seq<byte> := [0, 0, 0, 0, 0, 0, 0, 0, 0, 0, 255, 255];
    var z: seq<byte> := seq(10, _ => 0);
    LeadingZeros(10);
    assert p[..11][..10] == z && p[..11] == z + [255];
    assert Num(p[..11]) == 255;
  }

  /** Mapped addresses are those with a value in one range of 32 bits, after the octets' value. */
  lemma {:induction false} MappedNum(a: Address, o: Octets)
    ensures Num(Mapped(o)) == MAPPED + Num(o) && InMapped(MAPPED + Num(o))
    ensures ToMapped(a).Some? <==> InMapped(Num(a))
    ensures ToMapped(a).Some? ==> Mapped(ToMapped(a).value) == a
  {
    var p: seq<byte> := [0, 0, 0, 0, 0, 0, 0, 0, 0, 0, 255, 255];
    PrefixNum();
    NumSplits(p, o);
    var (h, t) := (a[..12], a[12..]);
    NumSplits(h, t);
    assert a == h + t && |h| == |p|;
    if Num(h) == 0xFFFF {
      NumInjective(h, p);
    }
    if ToMapped(a).Some? {
      MappedBack(a);
    }
  }

  lemma {:induction false} BoundsIff(start: AddrText, end: AddrText, s: Address, e: Address, v4: bool)
    ensures ParseBounds(start, end) == Some((s, e, v4))
      <==> FieldNum(start, start.colon) == Some(Num(s)) && FieldNum(end, start.colon) == Some(Num(e))
           && (v4 <==> InMapped(Num(s)) && InMapped(Num(e)))
  {
    var (f, g) := (AddressOf(start, start.colon), AddressOf(end, start.colon));
    FieldAddress(start, start.colon, s);
    FieldAddress(end, start.colon, e);
    MappedNum(s, [0, 0, 0, 0]);
    MappedNum(e, [0, 0, 0, 0]);
    if f.Some? && g.Some? {
      BoundsOf(start, end);
    }
  }

  /** Both addresses read, the bounds are these and the family is theirs. */
  lemma {:induction false} BoundsOf(start: AddrText, end: AddrText)
    requires AddressOf(start, start.colon).Some? && AddressOf(end, start.colon).Some?
    ensures var (s, e) := (AddressOf(start, start.colon).value, AddressOf(end, start.colon).value);
      ParseBounds(start, end) == Some((s, e, ToMapped(s).Some? && ToMapped(e).Some?))
  {
    var (s, e) := (AddressOf(start, start.colon).value, AddressOf(end, start.colon).value);
    if ToMapped(s).Some? && ToMapped(e).Some? {
      MappedBack(s);
      MappedBack(e);
    }
  }

  lemma {:induction false} FieldAddress(t: AddrText, v6: bool, a: Address)
    ensures AddressOf(t, v6) == Some(a) <==> FieldNum(t, v6) == Some(Num(a))
  {
    if v6 && t.v6.Some? && Num(t.v6.value) == Num(a) {
      NumInjective(t.v6.value, a);
    }
    if !v6 && t.v4.Some? {
      MappedNum(a, t.v4.value);
      if MAPPED + Num(t.v4.value) == Num(a) {
        NumInjective(Mapped(t.v4.value), a);
      }
    }
  }

  /**
    The fields of a row give it exactly when both addresses read in the family chosen by
    the colon, the end is not before the start, and the code is two letters, which the
    row has in upper case; it is an IPv4 row exactly when both addresses are mapped.
  */
  lemma {:induction false} ParseRowIff(start: AddrText, end: AddrText, cc: seq<byte>, row: RawRange, v4: bool)
    ensures ParseRow(start, end, cc) == Some((row, v4))
      <==> Reads(start, end, cc, v4, Num(row.start), Num(row.end), row.cc)
  {
    BoundsIff(start, end, row.start, row.end, v4);
    LessIsNumeric(row.end, row.start);
    CodeIff(cc, row.cc);
  }

  lemma {:induction false} CodeIff(cc: seq<byte>, c: Code)
    ensures Spells(cc, c) <==> |cc| == 2 && IsLetter(cc[0]) && IsLetter(cc[1]) && c == [Upper(cc[0]), Upper(cc[1])]
  {
    assert c == [c[0], c[1]];
  }

  lemma {:induction false} RowForIff(line: Line, v4: bool, row: RawRange)
    ensures row in RowFor(line, v4) <==> LineGives(line, v4, Num(row.start), Num(row.end), row.cc)
  {
    if line.Fields? {
      ParseRowIff(line.start, line.end, line.cc, row, v4);
    }
  }

  ghost predicate SomeLineGives(lines: seq<Line>, v4: bool, row: RawRange) {
    exists i :: 0 <= i < |lines| && LineGives(lines[i], v4, Num(row.start), Num(row.end), row.cc)
  }

  lemma {:induction false} SomeLineSplits(lines: seq<Line>, v4: bool, row: RawRange)
    requires lines != []
    ensures var (front, last) := (lines[..|lines| - 1], lines[|lines| - 1]);
      SomeLineGives(lines, v4, row)
      <==> SomeLineGives(front, v4, row) || LineGives(last, v4, Num(row.start), Num(row.end), row.cc)
  {
    var front := lines[..|lines| - 1];
    if SomeLineGives(front, v4, row) {
      var i :| 0 <= i < |front| && LineGives(front[i], v4, Num(row.start), Num(row.end), row.cc);
      assert lines[i] == front[i];
    }
  }

  /** A row is kept exactly when some line that is not "unknown" gives it to the family. */
  lemma {:induction false} KeptIff(lines: seq<Line>, v4: bool, row: RawRange)
    ensures row in KeptRows(lines, v4) <==> SomeLineGives(lines, v4, row)
  {
    if lines != [] {
      KeptIff(lines[..|lines| - 1], v4, row);
      RowForIff(lines[|lines| - 1], v4, row);
      SomeLineSplits(lines, v4, row);
    }
  }

  /** Some line that is not "unknown" covers the address with this code. */
  predicate LinesCover(lines: seq<Line>, v4: bool, k: nat, c: Code) {
    exists i :: 0 <= i < |lines| && LineCovers(lines[i], v4, k, c)
  }

  predicate LineCovers(line: Line, v4: bool, k: nat, c: Code) {
    && line.Fields?
    && var (lo, hi) := (FieldNum(line.start, line.start.colon), FieldNum(line.end, line.start.colon));
    && lo.Some? && hi.Some? && LineGives(line, v4, lo.value, hi.value, c) && lo.value <= k <= hi.value
  }

  /** No two lines give one address two codes. */
  ghost predicate LinesAgree(lines: seq<Line>, v4: bool) {
    forall k: nat, c: Code, d: Code :: LinesCover(lines, v4, k, c) && LinesCover(lines, v4, k, d) ==> c == d
  }

  /** Scanning the kept rows is scanning the lines. */
  lemma {:induction false} ScanOfLines(lines: seq<Line>, v4: bool, k: nat, c: Code)
    ensures Covers(KeptRows(lines, v4), k, c) <==> LinesCover(lines, v4, k, c)
  {
    var rows := KeptRows(lines, v4);
    if Covers(rows, k, c) {
      var j :| 0 <= j < |rows| && Within(rows[j], k) && rows[j].cc == c;
      KeptIff(lines, v4, rows[j]);
      assert rows[j] in rows;
      var i :| 0 <= i < |lines| && LineGives(lines[i], v4, Num(rows[j].start), Num(rows[j].end), rows[j].cc);
      assert LineCovers(lines[i], v4, k, c);
    }
    if LinesCover(lines, v4, k, c) {
      var i :| 0 <= i < |lines| && LineCovers(lines[i], v4, k, c);
      var row := RowOfLine(lines[i], v4, k, c);
      KeptIff(lines, v4, row);
      var j :| 0 <= j < |rows| && rows[j] == row;
      assert Within(rows[j], k);
    }
  }

  lemma {:induction false} RowOfLine(line: Line, v4: bool, k: nat, c: Code) returns (row: RawRange)
    requires LineCovers(line, v4, k, c)
    ensures LineGives(line, v4, Num(row.start), Num(row.end), row.cc)
    ensures row.cc == c && Num(row.start) <= k <= Num(row.end)
  {
    var v6 := line.start.colon;
    var (s, e) := (AddressOf(line.start, v6), AddressOf(line.end, v6));
    FieldAddress(line.start, v6, s.value);
    FieldAddress(line.end, v6, e.value);
    row := RawRange(s.value, e.value, c);
  }

  lemma {:induction false} AgreeIff(lines: seq<Line>, v4: bool)
    ensures Consistent(KeptRows(lines, v4)) <==> LinesAgree(lines, v4)
  {
    forall k: nat, c: Code
      ensures Covers(KeptRows(lines, v4), k, c) <==> LinesCover(lines, v4, k, c)
    {
      ScanOfLines(lines, v4, k, c);
    }
  }

  // ---- Country codes ----

  function InsertCode(cs: seq<Code>, c: Code): (r: seq<Code>) {
    if cs == [] || Less(c, cs[0]) then [c] + cs
    else if c == cs[0] then cs
    else [cs[0]] + InsertCode(cs[1..], c)
  }

  /** The codes of the rows, sorted and without repeats. */
  function CodesOfRows(rows: seq<RawRange>): (r: seq<Code>) {
    if rows == [] then [] else InsertCode(CodesOfRows(rows[1..]), rows[0].cc)
  }

  /** The index of `c` in an ascending list, 0 when it is missing. */
  function Position(cs: seq<Code>, c: Code): (r: nat) {
    if c !in cs then 0 else if cs[0] == c then 0 else 1 + Position(cs[1..], c)
  }

  function ToRanges(rows: seq<RawRange>, codes: seq<Code>): (rs: seq<GeoRange>)
    ensures |rs| == |rows|
    ensures forall i :: 0 <= i < |rs| ==> rs[i].start == rows[i].start && rs[i].end == rows[i].end
  {
    seq(|rows|, i requires 0 <= i < |rows| =>
      GeoRange(rows[i].start, rows[i].end, Position(codes, rows[i].cc) % 0x1_0000))
  }

  function TableOf(lines: seq<Line>): (r: Table) {
    var (v4, v6) := (Merged(KeptRows(lines, true)), Merged(KeptRows(lines, false)));
    var codes := CodesOfRows(v4 + v6);
    Table(codes, ToRanges(v4, codes), ToRanges(v6, codes))
  }

  method ParseCsv(lines: seq<Line>) returns (t: Table)
    ensures t == TableOf(lines)
  {
    var v4, v6 := [], [];
    var i := 0;
    while i < |lines|
      invariant 0 <= i <= |lines|
      invariant v4 == KeptRows(lines[..i], true) && v6 == KeptRows(lines[..i], false)
    {
      var line := lines[i];
      assert lines[..i + 1][..i] == lines[..i];
      i := i + 1;
      if !line.Fields? || IsUnknown(line.cc) {
        continue;
      }
      match ParseRow(line.start, line.end, line.cc)
      case Some((row, true)) => v4 := v4 + [row];
      case Some((row, false)) => v6 := v6 + [row];
      case None =>
    }
    assert lines[..i] == lines;
    v4 := Merge(v4);
    v6 := Merge(v6);
    var codes := CodesOfRows(v4 + v6);
    t := Table(codes, ToRanges(v4, codes), ToRanges(v6, codes));
  }

  // ---- Lookup ----

  /** The number of leading ranges of `section[lo..hi]` that start at or before `key`, by bisection. */
  function PartitionPoint(section: seq<GeoRange>, key: Address, lo: nat, hi: nat): (i: nat)
    requires lo <= hi <= |section|
    ensures lo <= i <= hi
    decreases hi - lo
  {
    if lo == hi then lo
    else
      var mid := (lo + hi) / 2;
      if AtMost(section[mid].start, key) then PartitionPoint(section, key, mid + 1, hi)
      else PartitionPoint(section, key, lo, mid)
  }

  function LookupIn(countries: seq<Code>, section: seq<GeoRange>, key: Address): (r: Option<Code>) {
    var i := PartitionPoint(section, key, 0, |section|);
    if i > 0 && AtMost(key, section[i - 1].end) && section[i - 1].country < |countries|
    then Some(countries[section[i - 1].country])
    else None
  }

  predicate UsesV4(ip: Ip) { ip.V4? || ToMapped(ip.addr).Some? }

  function KeyOf(ip: Ip): (r: Address) {
    match ip
    case V4(o) => Mapped(o)
    case V6(a) =>
      match ToMapped(a)
      case Some(o) => Mapped(o)
      case None => a
  }

  function Lookup(t: Table, ip: Ip): (r: Option<Code>) {
    LookupIn(t.countries, if UsesV4(ip) then t.v4 else t.v6, KeyOf(ip))
  }

  // ---- Codes ----

  ghost predicate Ascending(cs: seq<Code>) {
    forall i, j :: 0 <= i < j < |cs| ==> Num(cs[i]) < Num(cs[j])
  }

  predicate IsUpperCode(c: Code) { 65 <= c[0] <= 90 && 65 <= c[1] <= 90 }

  lemma {:induction false} InsertCodeHas(cs: seq<Code>, c: Code, d: Code)
    ensures d in InsertCode(cs, c) <==> d in cs || d == c
  {
    if cs != [] {
      assert cs == [cs[0]] + cs[1..];
      InsertCodeHas(cs[1..], c, d);
    }
  }

  lemma {:induction false} InsertCodeAbove(cs: seq<Code>, c: Code, k: nat)
    requires k < Num(c) && forall i :: 0 <= i < |cs| ==> k < Num(cs[i])
    ensures forall i :: 0 <= i < |InsertCode(cs, c)| ==> k < Num(InsertCode(cs, c)[i])
  {
    if cs != [] {
      InsertCodeAbove(cs[1..], c, k);
    }
  }

  lemma {:induction false} InsertCodeAscends(cs: seq<Code>, c: Code)
    requires Ascending(cs)
    ensures Ascending(InsertCode(cs, c))
  {
    if cs != [] {
      LessIsNumeric(c, cs[0]);
      if !Less(c, cs[0]) && c != cs[0] {
        if Num(c) == Num(cs[0]) {
          NumInjective(c, cs[0]);
        }
        InsertCodeAscends(cs[1..], c);
        InsertCodeAbove(cs[1..], c, Num(cs[0]));
      }
    }
  }

  lemma {:induction false} CodesOfRowsAscend(rows: seq<RawRange>)
    ensures Ascending(CodesOfRows(rows))
    ensures forall i :: 0 <= i < |rows| ==> rows[i].cc in CodesOfRows(rows)
    ensures forall c :: c in CodesOfRows(rows) ==> exists i :: 0 <= i < |rows| && rows[i].cc == c
  {
    if rows != [] {
      CodesOfRowsAscend(rows[1..]);
      InsertCodeAscends(CodesOfRows(rows[1..]), rows[0].cc);
      forall d
        ensures d in CodesOfRows(rows) <==> d in CodesOfRows(rows[1..]) || d == rows[0].cc
      {
        InsertCodeHas(CodesOfRows(rows[1..]), rows[0].cc, d);
      }
      forall c | c in CodesOfRows(rows)
        ensures exists i :: 0 <= i < |rows| && rows[i].cc == c
      {
        if c in CodesOfRows(rows[1..]) {
          var i :| 0 <= i < |rows[1..]| && rows[1..][i].cc == c;
          assert rows[i + 1].cc == c;
        } else {
          assert rows[0].cc == c;
        }
      }
    }
  }

  lemma {:induction false} PositionFinds(cs: seq<Code>, c: Code)
    requires c in cs
    ensures Position(cs, c) < |cs| && cs[Position(cs, c)] == c
  {
    if cs[0] != c {
      PositionFinds(cs[1..], c);
    }
  }

  lemma {:induction false} NumOfPair(c: Code)
    ensures Num(c) == c[0] as int * 256 + c[1] as int
  {
    assert c[..1] == [c[0]] && c[..1][..0] == [];
    assert Num(c[..1]) == c[0];
  }

  lemma {:induction false} LaterPair(x0: int, x1: int, y0: int, y1: int)
    requires 65 <= x0 <= 90 && 65 <= x1 <= 90 && 65 <= y0 <= 90 && 65 <= y1 <= 90
    requires x0 * 256 + x1 < y0 * 256 + y1
    ensures (x0 - 65) * 26 + (x1 - 65) < (y0 - 65) * 26 + (y1 - 65)
  {
  }

  lemma {:induction false} CodeAtLeastIndex(cs: seq<Code>, i: nat)
    requires Ascending(cs) && i < |cs| && forall j :: 0 <= j < |cs| ==> IsUpperCode(cs[j])
    ensures (cs[i][0] as int - 65) * 26 + (cs[i][1] as int - 65) >= i
  {
    assert IsUpperCode(cs[i]);
    if i > 0 {
      var (x, y) := (cs[i - 1], cs[i]);
      CodeAtLeastIndex(cs, i - 1);
      assert IsUpperCode(x) && Num(x) < Num(y);
      NumOfPair(x);
      NumOfPair(y);
      LaterPair(x[0] as int, x[1] as int, y[0] as int, y[1] as int);
    }
  }

  /** There are at most 26 * 26 upper-case codes, so a country index always fits its 16 bits. */
  lemma {:induction false} IndexFits(cs: seq<Code>, c: Code)
    requires Ascending(cs) && c in cs && forall j :: 0 <= j < |cs| ==> IsUpperCode(cs[j])
    ensures |cs| <= 26 * 26
    ensures Position(cs, c) % 0x1_0000 == Position(cs, c) < |cs| && cs[Position(cs, c)] == c
  {
    PositionFinds(cs, c);
    CodeAtLeastIndex(cs, |cs| - 1);
    assert IsUpperCode(cs[|cs| - 1]);
  }

  // ---- The index answers like a scan ----

  ghost predicate StartsAscend(section: seq<GeoRange>) {
    forall i, j :: 0 <= i < j < |section| ==> Num(section[i].start) < Num(section[j].start)
  }

  ghost predicate StartUpTo(section: seq<GeoRange>, key: Address, lo: nat) {
    lo <= |section| && forall i :: 0 <= i < lo ==> Num(section[i].start) <= Num(key)
  }

  ghost predicate StartAfter(section: seq<GeoRange>, key: Address, hi: nat) {
    forall i :: hi <= i < |section| ==> Num(section[i].start) > Num(key)
  }

  /** `n` separates the ranges that start at or before `key` from those that start after it. */
  ghost predicate SplitsAt(section: seq<GeoRange>, key: Address, n: nat) {
    StartUpTo(section, key, n) && StartAfter(section, key, n)
  }

  lemma {:induction false} OneSettlesItsSide(section: seq<GeoRange>, key: Address, mid: nat)
    requires StartsAscend(section) && mid < |section|
    ensures if AtMost(section[mid].start, key) then StartUpTo(section, key, mid + 1) else StartAfter(section, key, mid)
  {
    var k := Num(section[mid].start);
    LessIsNumeric(section[mid].start, key);
    forall i | 0 <= i < |section| && i != mid
      ensures if i < mid then Num(section[i].start) < k else Num(section[i].start) > k
    {
    }
  }

  lemma {:induction false} Halve(section: seq<GeoRange>, key: Address, lo: nat, hi: nat) returns (mid: nat, below: bool)
    requires lo < hi <= |section|
    ensures lo <= mid < hi && below == AtMost(section[mid].start, key)
    ensures PartitionPoint(section, key, lo, hi)
      == if below then PartitionPoint(section, key, mid + 1, hi) else PartitionPoint(section, key, lo, mid)
  {
    mid := (lo + hi) / 2;
    below := AtMost(section[mid].start, key);
  }

  /** With ascending starts, bisection finds the upper bound. */
  lemma {:induction false} UpperBound(section: seq<GeoRange>, key: Address, lo: nat, hi: nat)
    requires lo <= hi <= |section| && StartsAscend(section)
    requires StartUpTo(section, key, lo) && StartAfter(section, key, hi)
    ensures SplitsAt(section, key, PartitionPoint(section, key, lo, hi))
    decreases hi - lo
  {
    if lo < hi {
      var mid, below := Halve(section, key, lo, hi);
      OneSettlesItsSide(section, key, mid);
      if below {
        UpperBound(section, key, mid + 1, hi);
      } else {
        UpperBound(section, key, lo, mid);
      }
    }
  }

  lemma {:induction false} SeparatedPairs(rows: seq<RawRange>, i: nat, j: nat)
    requires Proper(rows) && Separated(rows) && i < j < |rows|
    ensures Hi(rows[i]) < Lo(rows[j])
    decreases j
  {
    if i < j - 1 {
      SeparatedPairs(rows, i, j - 1);
    }
  }

  lemma {:induction false} SeparatedStartsAscend(rows: seq<RawRange>, codes: seq<Code>)
    requires Proper(rows) && Separated(rows)
    ensures StartsAscend(ToRanges(rows, codes))
  {
    var section := ToRanges(rows, codes);
    forall i, j | 0 <= i < j < |section|
      ensures Num(section[i].start) < Num(section[j].start)
    {
      SeparatedPairs(rows, i, j);
    }
  }

  /** The upper bound of a key in separated ranges: only the range before it can cover the key. */
  lemma {:induction false} BoundInSeparated(rows: seq<RawRange>, key: Address, n: nat)
    requires Proper(rows) && Separated(rows)
    requires n <= |rows| && forall i :: 0 <= i < |rows| ==> (Num(rows[i].start) <= Num(key) <==> i < n)
    ensures forall i :: 0 <= i < |rows| && Within(rows[i], Num(key)) ==> i == n - 1
  {
    forall i | 0 <= i < n - 1
      ensures Hi(rows[i]) < Num(key)
    {
      SeparatedPairs(rows, i, n - 1);
    }
  }

  lemma {:induction false} LookupAtBound(rows: seq<RawRange>, codes: seq<Code>, key: Address, n: nat)
    requires n == PartitionPoint(ToRanges(rows, codes), key, 0, |rows|) <= |rows|
    requires Ascending(codes) && forall j :: 0 <= j < |codes| ==> IsUpperCode(codes[j])
    requires n > 0 ==> rows[n - 1].cc in codes
    ensures LookupIn(codes, ToRanges(rows, codes), key) ==
      if n > 0 && Num(key) <= Hi(rows[n - 1]) then Some(rows[n - 1].cc) else None
  {
    if n > 0 {
      LessIsNumeric(key, rows[n - 1].end);
      CodeOfRange(rows, codes, n - 1);
    }
  }

  /** The index kept with a range leads back to the code of its row. */
  lemma {:induction false} CodeOfRange(rows: seq<RawRange>, codes: seq<Code>, i: nat)
    requires Ascending(codes) && forall j :: 0 <= j < |codes| ==> IsUpperCode(codes[j])
    requires i < |rows| && rows[i].cc in codes
    ensures ToRanges(rows, codes)[i].country < |codes| && codes[ToRanges(rows, codes)[i].country] == rows[i].cc
  {
    IndexFits(codes, rows[i].cc);
  }

  /** On separated ranges, the upper bound finds the one range that can cover the key. */
  lemma {:induction false} LookupInSeparated(rows: seq<RawRange>, codes: seq<Code>, key: Address, c: Code)
    requires Proper(rows) && Separated(rows)
    requires Ascending(codes) && forall j :: 0 <= j < |codes| ==> IsUpperCode(codes[j])
    requires forall i :: 0 <= i < |rows| ==> rows[i].cc in codes
    ensures LookupIn(codes, ToRanges(rows, codes), key) == Some(c) <==> Covers(rows, Num(key), c)
  {
    var n := PartitionPoint(ToRanges(rows, codes), key, 0, |rows|);
    SeparatedStartsAscend(rows, codes);
    UpperBound(ToRanges(rows, codes), key, 0, |rows|);
    forall i | 0 <= i < |rows|
      ensures Num(rows[i].start) <= Num(key) <==> i < n
    {
      assert ToRanges(rows, codes)[i].start == rows[i].start;
    }
    BoundInSeparated(rows, key, n);
    LookupAtBound(rows, codes, key, n);
    CoverOfOne(rows, Num(key), c, n);
  }

  lemma {:induction false} CoverOfOne(rows: seq<RawRange>, k: nat, c: Code, n: nat)
    requires n <= |rows| && (n > 0 ==> Lo(rows[n - 1]) <= k)
    requires forall i :: 0 <= i < |rows| && Within(rows[i], k) ==> i == n - 1
    ensures Covers(rows, k, c) <==> n > 0 && k <= Hi(rows[n - 1]) && rows[n - 1].cc == c
  {
  }

  lemma {:induction false} KeptRowsProper(lines: seq<Line>, v4: bool)
    ensures Proper(KeptRows(lines, v4))
    ensures forall i :: 0 <= i < |KeptRows(lines, v4)| ==> IsUpperCode(KeptRows(lines, v4)[i].cc)
  {
    if lines != [] {
      KeptRowsProper(lines[..|lines| - 1], v4);
      var row := RowFor(lines[|lines| - 1], v4);
      if row != [] {
        LessIsNumeric(row[0].end, row[0].start);
      }
    }
  }

  lemma {:induction false} AbsorbAllCodes(out: seq<RawRange>, rows: seq<RawRange>)
    requires forall i :: 0 <= i < |out| ==> IsUpperCode(out[i].cc)
    requires forall i :: 0 <= i < |rows| ==> IsUpperCode(rows[i].cc)
    ensures forall i :: 0 <= i < |AbsorbAll(out, rows)| ==> IsUpperCode(AbsorbAll(out, rows)[i].cc)
    decreases |rows|
  {
    if rows != [] {
      AbsorbAllCodes(Absorb(out, rows[0]), rows[1..]);
    }
  }

  lemma {:induction false} MergedCodes(rows: seq<RawRange>)
    requires forall i :: 0 <= i < |rows| ==> IsUpperCode(rows[i].cc)
    ensures forall i :: 0 <= i < |Merged(rows)| ==> IsUpperCode(Merged(rows)[i].cc)
  {
    SortedRowsSorts(rows);
    forall i | 0 <= i < |SortedRows(rows)|
      ensures IsUpperCode(SortedRows(rows)[i].cc)
    {
      assert SortedRows(rows)[i] in multiset(SortedRows(rows));
      assert SortedRows(rows)[i] in rows;
    }
    AbsorbAllCodes([], SortedRows(rows));
  }

  lemma {:induction false} TableUpper(lines: seq<Line>)
    ensures var codes := TableOf(lines).countries;
      Ascending(codes) && forall j :: 0 <= j < |codes| ==> IsUpperCode(codes[j])
  {
    var (v4, v6) := (Merged(KeptRows(lines, true)), Merged(KeptRows(lines, false)));
    var codes := CodesOfRows(v4 + v6);
    CodesOfRowsAscend(v4 + v6);
    KeptRowsProper(lines, true);
    KeptRowsProper(lines, false);
    MergedCodes(KeptRows(lines, true));
    MergedCodes(KeptRows(lines, false));
    forall j | 0 <= j < |codes|
      ensures IsUpperCode(codes[j])
    {
      assert codes[j] in codes;
      var i :| 0 <= i < |v4 + v6| && (v4 + v6)[i].cc == codes[j];
    }
  }

  lemma {:induction false} CodeOfRowKept(rows: seq<RawRange>, i: nat)
    requires i < |rows|
    ensures rows[i].cc in CodesOfRows(rows)
  {
    CodesOfRowsAscend(rows);
  }

  lemma {:induction false} CodesOfBoth(a: seq<RawRange>, b: seq<RawRange>)
    ensures forall i :: 0 <= i < |a| ==> a[i].cc in CodesOfRows(a + b)
    ensures forall i :: 0 <= i < |b| ==> b[i].cc in CodesOfRows(a + b)
  {
    forall i | 0 <= i < |a|
      ensures a[i].cc in CodesOfRows(a + b)
    {
      CodeOfRowKept(a + b, i);
    }
    forall i | 0 <= i < |b|
      ensures b[i].cc in CodesOfRows(a + b)
    {
      CodeOfRowKept(a + b, |a| + i);
    }
  }

  lemma {:induction false} TableCountries(lines: seq<Line>)
    ensures TableOf(lines).countries == CodesOfRows(Merged(KeptRows(lines, true)) + Merged(KeptRows(lines, false)))
  {
  }

  lemma {:induction false} TableCodes(lines: seq<Line>, v4: bool)
    ensures var codes := TableOf(lines).countries;
      && Ascending(codes) && (forall j :: 0 <= j < |codes| ==> IsUpperCode(codes[j]))
      && forall i :: 0 <= i < |Merged(KeptRows(lines, v4))| ==> Merged(KeptRows(lines, v4))[i].cc in codes
  {
    TableUpper(lines);
    TableCountries(lines);
    CodesOfBoth(Merged(KeptRows(lines, true)), Merged(KeptRows(lines, false)));
  }

  /** The section of `TableOf(lines)` for one family. */
  function SectionOf(lines: seq<Line>, v4: bool): (r: seq<GeoRange>) {
    if v4 then TableOf(lines).v4 else TableOf(lines).v6
  }

  /** The indexed section and a linear scan of the lines agree on `key` and `c`. */
  ghost predicate LikeScan(lines: seq<Line>, v4: bool, key: Address, c: Code) {
    LookupIn(TableOf(lines).countries, SectionOf(lines, v4), key) == Some(c)
    <==>
    LinesCover(lines, v4, Num(key), c)
  }

  lemma {:induction false} SectionAnswersLikeScan(lines: seq<Line>, v4: bool, key: Address, c: Code)
    requires LinesAgree(lines, v4)
    ensures LikeScan(lines, v4, key, c)
  {
    var rows := KeptRows(lines, v4);
    AgreeIff(lines, v4);
    ScanOfLines(lines, v4, Num(key), c);
    KeptRowsProper(lines, v4);
    MergedSeparated(rows);
    MergedCovers(rows, Num(key), c);
    TableCodes(lines, v4);
    LookupInSeparated(Merged(rows), TableOf(lines).countries, key, c);
  }

  lemma {:induction false} CoveredKeyExists(rows: seq<RawRange>, k: nat, c: Code) returns (key: Address)
    requires Covers(rows, k, c)
    ensures Num(key) == k
  {
    var i :| 0 <= i < |rows| && Within(rows[i], k) && rows[i].cc == c;
    NumAtMostTop(rows[i].end);
    key := Bytes(k, 16);
    NumOfBytes(k, 16);
  }

  /**
    A section answers every key like a linear scan of the lines exactly when no two of
    the lines that count for it give one address two codes.
  */
  lemma {:induction false} SectionExactIffConsistent(lines: seq<Line>, v4: bool)
    ensures (forall key: Address, c: Code :: LikeScan(lines, v4, key, c)) <==> LinesAgree(lines, v4)
  {
    if LinesAgree(lines, v4) {
      forall key: Address, c: Code
        ensures LikeScan(lines, v4, key, c)
      {
        SectionAnswersLikeScan(lines, v4, key, c);
      }
    } else {
      var k: nat, c: Code, d: Code :| LinesCover(lines, v4, k, c) && LinesCover(lines, v4, k, d) && c != d;
      ScanOfLines(lines, v4, k, c);
      var key := CoveredKeyExists(KeptRows(lines, v4), k, c);
      assert !LikeScan(lines, v4, key, c) || !LikeScan(lines, v4, key, d);
    }
  }

  /** The number of an address, an IPv4 one being the mapped address with its octets. */
  function NumberOf(ip: Ip): (k: nat) {
    match ip
    case V4(o) => MAPPED + Num(o)
    case V6(a) => Num(a)
  }

  lemma {:induction false} KeyNumber(ip: Ip)
    ensures Num(KeyOf(ip)) == NumberOf(ip) && (UsesV4(ip) <==> InMapped(NumberOf(ip)))
  {
    match ip
    case V4(o) => MappedNum(Mapped(o), o);
    case V6(a) => MappedNum(a, [0, 0, 0, 0]);
  }

  /**
    Looking an address up gives the code of any line of its family that covers it, and
    none when none does; the family is IPv4 for every mapped address, however written.
  */
  lemma {:induction false} LookupIsScan(lines: seq<Line>, ip: Ip, c: Code)
    requires LinesAgree(lines, InMapped(NumberOf(ip)))
    ensures Lookup(TableOf(lines), ip) == Some(c) <==> LinesCover(lines, InMapped(NumberOf(ip)), NumberOf(ip), c)
  {
    KeyNumber(ip);
    SectionAnswersLikeScan(lines, UsesV4(ip), KeyOf(ip), c);
  }

  /**
    An overlap that the module's own notes allow for: past the end of a later row
    of another country, the earlier row that still covers the key is not found.
  */
  lemma {:induction false} LaterRowHidesEarlier(a: RawRange, b: RawRange, codes: seq<Code>, key: Address)
    requires Lo(a) < Lo(b) <= Hi(b) < Num(key) <= Hi(a) && a.cc != b.cc
    ensures Covers([a, b], Num(key), a.cc)
    ensures LookupIn(codes, ToRanges(Merged([a, b]), codes), key) == None
  {
    assert Within([a, b][0], Num(key));
    LessIsNumeric(a.start, b.start);
    assert [a, b][1..] == [b] && SortedRows([b]) == [b];
    assert SortedRows([a, b]) == [a, b];
    assert Absorb([], a) == [a] && Absorb([a], b) == [a, b];
    assert AbsorbAll([a, b], [b][1..]) == [a, b];
    assert Merged([a, b]) == AbsorbAll([a], [b]) == [a, b];
    var section := ToRanges([a, b], codes);
    UpperBound(section, key, 0, 2);
    assert section[1].start == b.start;
    LessIsNumeric(key, b.end);
  }
}
