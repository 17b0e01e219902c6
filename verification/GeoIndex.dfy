/**
  From CSV rows to an indexed table and back to an address: rows are sorted,
  merged per country and searched by upper bound. The index answers like a scan
  of the rows exactly when no two rows disagree about an address.
*/
module GeoIndex {
  import opened Wrappers
  import opened GeoAddress
  import opened GeoTable

  datatype RawRange = RawRange(start: Address, end: Address, cc: Code)

  // ---- Merging ----

  /** `next` begins at most one past `end`. */
  predicate Touches(end: Address, next: Address) {
    match Succ(end)
    case Some(e1) => AtMost(next, e1)
    case None => true
  }

  predicate RowAtMost(a: RawRange, b: RawRange) {
    Less(a.start, b.start) || (a.start == b.start && AtMost(a.end, b.end))
  }

  function InsertRow(r: RawRange, rows: seq<RawRange>): (res: seq<RawRange>) {
    if rows == [] || RowAtMost(r, rows[0]) then [r] + rows else [rows[0]] + InsertRow(r, rows[1..])
  }

  /** The stable sort by start, then end. */
  function SortedRows(rows: seq<RawRange>): (r: seq<RawRange>) {
    if rows == [] then [] else InsertRow(rows[0], SortedRows(rows[1..]))
  }

  /** Extend the last range by a row of the same country that touches it, or start a new one. */
  function Absorb(out: seq<RawRange>, r: RawRange): (res: seq<RawRange>) {
    var n := |out|;
    if n > 0 && out[n - 1].cc == r.cc && Touches(out[n - 1].end, r.start) then
      if Less(out[n - 1].end, r.end) then out[n - 1 := out[n - 1].(end := r.end)] else out
    else out + [r]
  }

  function AbsorbAll(out: seq<RawRange>, rows: seq<RawRange>): (r: seq<RawRange>)
    decreases |rows|
  {
    if rows == [] then out else AbsorbAll(Absorb(out, rows[0]), rows[1..])
  }

  function Merged(rows: seq<RawRange>): (r: seq<RawRange>) { AbsorbAll([], SortedRows(rows)) }

  method Merge(rows: seq<RawRange>) returns (out: seq<RawRange>)
    ensures out == Merged(rows)
  {
    var sorted := SortedRows(rows);
    out := [];
    var i := 0;
    while i < |sorted|
      invariant 0 <= i <= |sorted|
      invariant AbsorbAll(out, sorted[i..]) == Merged(rows)
    {
      var r, n := sorted[i], |out|;
      assert sorted[i..][1..] == sorted[i + 1..];
      ghost var was := out;
      if n > 0 && out[n - 1].cc == r.cc && Touches(out[n - 1].end, r.start) {
        if Less(out[n - 1].end, r.end) {
          out := out[n - 1 := out[n - 1].(end := r.end)];
        }
      } else {
        out := out + [r];
      }
      assert out == Absorb(was, r);
      i := i + 1;
    }
  }

  // ---- Rows and what they cover ----

  ghost function Lo(r: RawRange): (res: nat) { Num(r.start) }
  ghost function Hi(r: RawRange): (res: nat) { Num(r.end) }

  ghost predicate Within(r: RawRange, k: nat) { Lo(r) <= k <= Hi(r) }

  /** A linear scan: some row covers `k` with code `c`. */
  ghost predicate Covers(rows: seq<RawRange>, k: nat, c: Code) {
    exists i :: 0 <= i < |rows| && Within(rows[i], k) && rows[i].cc == c
  }

  /** Rows that cover the same address carry the same code. */
  ghost predicate Consistent(rows: seq<RawRange>) {
    forall k: nat, c: Code, d: Code :: Covers(rows, k, c) && Covers(rows, k, d) ==> c == d
  }

  ghost predicate Proper(rows: seq<RawRange>) { forall i :: 0 <= i < |rows| ==> Lo(rows[i]) <= Hi(rows[i]) }

  ghost predicate ByStart(rows: seq<RawRange>) {
    forall i, j :: 0 <= i < j < |rows| ==> Lo(rows[i]) <= Lo(rows[j])
  }

  /** Ascending, disjoint, and neighbours of one country do not touch. */
  ghost predicate Separated(rows: seq<RawRange>) {
    forall i :: 0 <= i < |rows| - 1 ==>
      Hi(rows[i]) < Lo(rows[i + 1]) && (rows[i].cc == rows[i + 1].cc ==> Hi(rows[i]) + 1 < Lo(rows[i + 1]))
  }

  lemma {:induction false} TouchesIsNumeric(end: Address, next: Address)
    ensures Touches(end, next) <==> Num(next) <= Num(end) + 1
  {
    SuccIsPlusOne(end);
    NumAtMostTop(next);
    if Succ(end).Some? {
      LessIsNumeric(next, Succ(end).value);
    }
  }

  lemma {:induction false} CoversConcat(a: seq<RawRange>, b: seq<RawRange>, k: nat, c: Code)
    ensures Covers(a + b, k, c) <==> Covers(a, k, c) || Covers(b, k, c)
  {
    if Covers(a, k, c) {
      var i :| 0 <= i < |a| && Within(a[i], k) && a[i].cc == c;
      assert (a + b)[i] == a[i];
    }
    if Covers(b, k, c) {
      var i :| 0 <= i < |b| && Within(b[i], k) && b[i].cc == c;
      assert (a + b)[|a| + i] == b[i];
    }
  }

  lemma {:induction false} RowAtMostByStart(a: RawRange, b: RawRange)
    ensures RowAtMost(a, b) ==> Lo(a) <= Lo(b)
    ensures !RowAtMost(a, b) ==> Lo(b) <= Lo(a)
  {
    LessIsNumeric(a.start, b.start);
    LessIsNumeric(a.end, b.end);
  }

  lemma {:induction false} InsertRowKeepsRows(r: RawRange, rows: seq<RawRange>)
    ensures multiset(InsertRow(r, rows)) == multiset{r} + multiset(rows)
  {
    if rows != [] {
      assert rows == [rows[0]] + rows[1..];
      if !RowAtMost(r, rows[0]) {
        InsertRowKeepsRows(r, rows[1..]);
      }
    }
  }

  lemma {:induction false} InsertRowSorts(r: RawRange, rows: seq<RawRange>)
    requires ByStart(rows)
    ensures ByStart(InsertRow(r, rows))
  {
    if rows != [] {
      RowAtMostByStart(r, rows[0]);
      if !RowAtMost(r, rows[0]) {
        InsertRowSorts(r, rows[1..]);
        InsertRowAtLeast(r, rows[1..], Lo(rows[0]));
      }
    }
  }

  lemma {:induction false} InsertRowAtLeast(r: RawRange, rows: seq<RawRange>, k: nat)
    requires k <= Lo(r) && forall i :: 0 <= i < |rows| ==> k <= Lo(rows[i])
    ensures forall i :: 0 <= i < |InsertRow(r, rows)| ==> k <= Lo(InsertRow(r, rows)[i])
  {
    if rows != [] && !RowAtMost(r, rows[0]) {
      InsertRowAtLeast(r, rows[1..], k);
    }
  }

  lemma {:induction false} SortedRowsSorts(rows: seq<RawRange>)
    ensures ByStart(SortedRows(rows)) && multiset(SortedRows(rows)) == multiset(rows)
  {
    if rows != [] {
      SortedRowsSorts(rows[1..]);
      InsertRowSorts(rows[0], SortedRows(rows[1..]));
      InsertRowKeepsRows(rows[0], SortedRows(rows[1..]));
      assert rows == [rows[0]] + rows[1..];
    }
  }

  lemma {:induction false} SameRowsSameCover(a: seq<RawRange>, b: seq<RawRange>)
    requires multiset(a) == multiset(b)
    ensures Proper(a) ==> Proper(b)
    ensures forall k: nat, c: Code :: Covers(a, k, c) ==> Covers(b, k, c)
  {
    forall i | 0 <= i < |b| && Proper(a)
      ensures Lo(b[i]) <= Hi(b[i])
    {
      assert b[i] in multiset(b);
      assert b[i] in a;
    }
    forall k: nat, c: Code | Covers(a, k, c)
      ensures Covers(b, k, c)
    {
      var i :| 0 <= i < |a| && Within(a[i], k) && a[i].cc == c;
      assert a[i] in multiset(a);
      assert a[i] in b;
    }
  }

  // ---- Merging keeps the cover and separates the ranges ----

  ghost predicate Follows(out: seq<RawRange>, rows: seq<RawRange>) {
    out != [] && rows != [] ==> Lo(out[|out| - 1]) <= Lo(rows[0])
  }

  lemma {:induction false} AbsorbCovers(out: seq<RawRange>, r: RawRange, k: nat, c: Code)
    requires Proper(out) && Lo(r) <= Hi(r) && Follows(out, [r])
    ensures Proper(Absorb(out, r))
    ensures Covers(Absorb(out, r), k, c) <==> Covers(out, k, c) || (Within(r, k) && r.cc == c)
  {
    var n := |out|;
    if n > 0 && out[n - 1].cc == r.cc && Touches(out[n - 1].end, r.start) {
      var (init, last) := (out[..n - 1], out[n - 1]);
      TouchesIsNumeric(last.end, r.start);
      LessIsNumeric(last.end, r.end);
      CoversConcat(init, [last], k, c);
      assert init + [last] == out;
      var grown := if Less(last.end, r.end) then last.(end := r.end) else last;
      CoversConcat(init, [grown], k, c);
      assert init + [grown] == Absorb(out, r);
      assert Covers([last], k, c) <==> Within(last, k) && last.cc == c by { assert [last][0] == last; }
      assert Covers([grown], k, c) <==> Within(grown, k) && grown.cc == c by { assert [grown][0] == grown; }
    } else {
      CoversConcat(out, [r], k, c);
      assert Covers([r], k, c) <==> Within(r, k) && r.cc == c by { assert [r][0] == r; }
    }
  }

  lemma {:induction false} AbsorbFollows(out: seq<RawRange>, rows: seq<RawRange>)
    requires rows != [] && ByStart(rows) && Follows(out, rows)
    ensures Follows(Absorb(out, rows[0]), rows[1..])
  {
  }

  ghost predicate Apart(a: RawRange, b: RawRange) { Hi(a) < Lo(b) && (a.cc == b.cc ==> Hi(a) + 1 < Lo(b)) }

  lemma {:induction false} AppendSeparates(out: seq<RawRange>, r: RawRange)
    requires Separated(out) && (out != [] ==> Apart(out[|out| - 1], r))
    ensures Separated(out + [r])
  {
  }

  lemma {:induction false} GrowLastSeparates(out: seq<RawRange>, end: Address)
    requires Separated(out) && out != []
    ensures Separated(out[|out| - 1 := out[|out| - 1].(end := end)])
  {
  }

  lemma {:induction false} AbsorbSeparates(out: seq<RawRange>, r: RawRange)
    requires Proper(out) && Lo(r) <= Hi(r) && Follows(out, [r]) && Separated(out)
    requires out != [] && Within(out[|out| - 1], Lo(r)) ==> out[|out| - 1].cc == r.cc
    ensures Separated(Absorb(out, r))
  {
    if out == [] {
      AppendSeparates(out, r);
    } else {
      var last := out[|out| - 1];
      TouchesIsNumeric(last.end, r.start);
      if last.cc == r.cc && Touches(last.end, r.start) {
        GrowLastSeparates(out, r.end);
      } else {
        assert Apart(last, r);
        AppendSeparates(out, r);
      }
    }
  }

  lemma {:induction false} AbsorbAllCovers(out: seq<RawRange>, rows: seq<RawRange>, k: nat, c: Code)
    requires Proper(out) && Proper(rows) && ByStart(rows) && Follows(out, rows)
    ensures Proper(AbsorbAll(out, rows))
    ensures Covers(AbsorbAll(out, rows), k, c) <==> Covers(out, k, c) || Covers(rows, k, c)
    decreases |rows|
  {
    if rows != [] {
      AbsorbCovers(out, rows[0], k, c);
      AbsorbFollows(out, rows);
      AbsorbAllCovers(Absorb(out, rows[0]), rows[1..], k, c);
      CoversConcat([rows[0]], rows[1..], k, c);
      assert [rows[0]] + rows[1..] == rows;
      assert Covers([rows[0]], k, c) <==> Within(rows[0], k) && rows[0].cc == c by { assert [rows[0]][0] == rows[0]; }
    }
  }

  lemma {:induction false} AbsorbAllSeparates(out: seq<RawRange>, rows: seq<RawRange>)
    requires Proper(out) && Proper(rows) && ByStart(rows) && Follows(out, rows)
    requires Separated(out) && Consistent(out + rows)
    ensures Separated(AbsorbAll(out, rows))
    decreases |rows|
  {
    if rows != [] {
      var r := rows[0];
      if out != [] && Within(out[|out| - 1], Lo(r)) {
        assert (out + rows)[|out| - 1] == out[|out| - 1] && (out + rows)[|out|] == r;
        assert Covers(out + rows, Lo(r), out[|out| - 1].cc) && Covers(out + rows, Lo(r), r.cc);
      }
      AbsorbSeparates(out, r);
      AbsorbFollows(out, rows);
      forall k: nat, c: Code
        ensures Covers(Absorb(out, r) + rows[1..], k, c) <==> Covers(out + rows, k, c)
      {
        AbsorbCovers(out, r, k, c);
        CoversConcat(Absorb(out, r), rows[1..], k, c);
        CoversConcat(out, rows, k, c);
        CoversConcat([r], rows[1..], k, c);
        assert [r] + rows[1..] == rows;
        assert Covers([r], k, c) <==> Within(r, k) && r.cc == c by { assert [r][0] == r; }
      }
      AbsorbCovers(out, r, 0, r.cc);
      AbsorbAllSeparates(Absorb(out, r), rows[1..]);
    }
  }

  /** Merging changes no answer of a scan, whatever the rows. */
  lemma {:induction false} MergedCovers(rows: seq<RawRange>, k: nat, c: Code)
    requires Proper(rows)
    ensures Proper(Merged(rows))
    ensures Covers(Merged(rows), k, c) <==> Covers(rows, k, c)
  {
    SortedRowsSorts(rows);
    SameRowsSameCover(rows, SortedRows(rows));
    SameRowsSameCover(SortedRows(rows), rows);
    AbsorbAllCovers([], SortedRows(rows), k, c);
  }

  /** Merged ranges of consistent rows are ascending, disjoint and joined as far as they can be. */
  lemma {:induction false} MergedSeparated(rows: seq<RawRange>)
    requires Proper(rows) && Consistent(rows)
    ensures Separated(Merged(rows))
  {
    var sorted := SortedRows(rows);
    SortedRowsSorts(rows);
    SameRowsSameCover(rows, sorted);
    SameRowsSameCover(sorted, rows);
    assert [] + sorted == sorted;
    AbsorbAllSeparates([], sorted);
  }
}
