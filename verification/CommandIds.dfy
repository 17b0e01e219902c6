/**
  Command ids: "c", the clock in milliseconds, the launch-registry sequence
  number, both in base 36 and with nothing between them. The relay correlates by
  these ids, so when two of them can coincide matters.
*/
module CommandIds {

  predicate IsDigit(c: char) { '0' <= c <= '9' || 'a' <= c <= 'z' }

  /** The digit table "0123456789abcdefghijklmnopqrstuvwxyz". */
  function Digit(d: nat): (c: char)
    requires d < 36
    ensures IsDigit(c) && DigitValue(c) == d
  {
    if d < 10 then '0' + (d as char) else 'a' + ((d - 10) as char)
  }

  lemma {:induction false} DigitTable(d: nat)
    requires d < 36
    ensures Digit(d) == "0123456789abcdefghijklmnopqrstuvwxyz"[d]
  {
  }

  function DigitValue(c: char): (d: nat)
    requires IsDigit(c)
    ensures d < 36
  {
    if c <= '9' then (c as int) - ('0' as int) else (c as int) - ('a' as int) + 10
  }

  predicate AllDigits(s: string) { forall i :: 0 <= i < |s| ==> IsDigit(s[i]) }

  function Numeral(n: nat): (s: string)
    ensures s != [] && AllDigits(s)
  {
    if n < 36 then [Digit(n)] else Numeral(n / 36) + [Digit(n % 36)]
  }

  /** The numeral of `n`, produced from its last digit and then reversed. */
  method Base36(n: nat) returns (s: string)
    ensures s == Numeral(n)
  {
    if n == 0 {
      return "0";
    }
    var out: string, m := [], n;
    while m > 0
      invariant Upper(m) + Reversed(out) == Upper(n)
    {
      PushDigit(out, m);
      out, m := out + [Digit(m % 36)], m / 36;
    }
    s := Reversed(out);
  }

  function Reversed(s: string): (r: string) {
    if s == [] then [] else Reversed(s[1..]) + [s[0]]
  }

  lemma {:induction false} ReversedSnoc(s: string, c: char)
    ensures Reversed(s + [c]) == [c] + Reversed(s)
  {
    if s != [] {
      ReversedSnoc(s[1..], c);
      assert (s + [c])[1..] == s[1..] + [c];
    }
  }

  /** The digits still to be produced while `m` is left. */
  function Upper(m: nat): (r: string) { if m == 0 then [] else Numeral(m) }

  lemma {:induction false} PushDigit(out: string, m: nat)
    requires m > 0
    ensures Upper(m / 36) + Reversed(out + [Digit(m % 36)]) == Upper(m) + Reversed(out)
  {
    var (up, d) := (Upper(m / 36), [Digit(m % 36)]);
    assert Upper(m) == up + d;
    ReversedSnoc(out, Digit(m % 36));
    assert (up + d) + Reversed(out) == up + (d + Reversed(out));
  }

  // ---- Numerals and their values ----

  function Value(s: string): (r: nat)
    requires AllDigits(s)
  {
    if s == [] then 0 else Value(s[..|s| - 1]) * 36 + DigitValue(s[|s| - 1])
  }

  lemma {:induction false} DigitOf(c: char)
    requires IsDigit(c)
    ensures Digit(DigitValue(c)) == c && (DigitValue(c) == 0 ==> c == '0')
  {
  }

  lemma {:induction false} ValueOfNumeral(n: nat)
    ensures Value(Numeral(n)) == n
    decreases n
  {
    if n >= 36 {
      ValueOfNumeral(n / 36);
      assert Numeral(n)[..|Numeral(n)| - 1] == Numeral(n / 36);
    }
  }

  /** A digit string without a leading zero is the numeral of its value. */
  lemma {:induction false} NumeralOfValue(s: string)
    requires s != [] && s[0] != '0' && AllDigits(s)
    ensures Value(s) > 0 && Numeral(Value(s)) == s
  {
    var d := DigitValue(s[|s| - 1]);
    DigitOf(s[|s| - 1]);
    if |s| == 1 {
      assert Value(s) == d;
    } else {
      var t := s[..|s| - 1];
      NumeralOfValue(t);
      assert Value(s) / 36 == Value(t) && Value(s) % 36 == d;
      assert s == t + [s[|s| - 1]];
    }
  }

  lemma {:induction false} LeadingDigit(n: nat)
    requires n > 0
    ensures Numeral(n)[0] != '0'
  {
    if n >= 36 {
      LeadingDigit(n / 36);
    }
  }

  lemma {:induction false} LengthMonotone(m: nat, n: nat)
    requires m <= n
    ensures |Numeral(m)| <= |Numeral(n)|
  {
    if m >= 36 {
      LengthMonotone(m / 36, n / 36);
    }
  }

  lemma {:induction false} LongerIsLarger(m: nat, n: nat)
    requires |Numeral(m)| < |Numeral(n)|
    ensures m < n
  {
    if n <= m {
      LengthMonotone(n, m);
    }
  }

  // ---- Ids ----

  function CommandId(now: int, seqNo: nat): (r: string) {
    "c" + Numeral(if now < 0 then 0 else now) + Numeral(seqNo)
  }

  /** `later` cut short `earlier` at a place where a sequence number could begin. */
  predicate CutsShort(earlier: nat, later: nat) {
    var (a, b) := (Numeral(earlier), Numeral(later));
    |b| < |a| && a[..|b|] == b && a[|b|] != '0'
  }

  /** Two ways to cut one text, the second with the longer rest. */
  lemma {:induction false} TwoCuts(a: string, s: string, b: string, t: string)
    requires a + s == b + t && |s| <= |t|
    ensures |b| <= |a| && a[..|b|] == b
    ensures if |a| == |b| then s == t else a[|b|] == t[0]
  {
    assert |a + s| == |b + t|;
    assert a[..|b|] == (a + s)[..|b|] == (b + t)[..|b|] == b;
    if |a| == |b| {
      assert s == (a + s)[|a|..] == (b + t)[|b|..] == t;
    } else {
      assert a[|b|] == (a + s)[|b|] == (b + t)[|b|] == t[0];
    }
  }

  lemma {:induction false} CollisionCutsShort(n1: nat, n2: nat, q1: nat, q2: nat)
    requires 0 < q1 < q2 && CommandId(n1, q1) == CommandId(n2, q2)
    ensures CutsShort(n1, n2)
  {
    var (a, s, b, t) := (Numeral(n1), Numeral(q1), Numeral(n2), Numeral(q2));
    assert a + s == CommandId(n1, q1)[1..] && b + t == CommandId(n2, q2)[1..];
    LengthMonotone(q1, q2);
    TwoCuts(a, s, b, t);
    if |a| == |b| {
      ValueOfNumeral(q1);
      ValueOfNumeral(q2);
    }
    LeadingDigit(q2);
  }

  lemma {:induction false} CutShortCollides(n1: nat, n2: nat) returns (q1: nat, q2: nat)
    requires CutsShort(n1, n2)
    ensures 0 < q1 < q2 && CommandId(n1, q1) == CommandId(n2, q2)
  {
    var (a, b) := (Numeral(n1), Numeral(n2));
    q1 := 1;
    var t := a[|b|..] + Numeral(q1);
    NumeralOfValue(t);
    q2 := Value(t);
    LongerIsLarger(q1, q2);
    assert a + Numeral(q1) == b + t;
  }

  /**
    Two calls can get the same id exactly when the numeral of the reading with the later
    sequence number is a proper prefix of the other, followed by a digit other than zero.
  */
  lemma {:induction false} CollideIffClockCutShort(n1: nat, n2: nat)
    ensures (exists q1: nat, q2: nat :: 0 < q1 < q2 && CommandId(n1, q1) == CommandId(n2, q2)) <==> CutsShort(n1, n2)
  {
    if CutsShort(n1, n2) {
      var q1, q2 := CutShortCollides(n1, n2);
    }
    forall q1: nat, q2: nat | 0 < q1 < q2 && CommandId(n1, q1) == CommandId(n2, q2)
      ensures CutsShort(n1, n2)
    {
      CollisionCutsShort(n1, n2, q1, q2);
    }
  }

  /** While the clock readings follow the sequence numbers, ids never repeat. */
  lemma {:induction false} FreshWhileReadingsFollow(now1: int, now2: int, q1: nat, q2: nat)
    requires now1 <= now2 && 0 < q1 < q2
    ensures CommandId(now1, q1) != CommandId(now2, q2)
  {
    var n1 := if now1 < 0 then 0 else now1;
    var n2 := if now2 < 0 then 0 else now2;
    if CommandId(n1, q1) == CommandId(n2, q2) {
      CollisionCutsShort(n1, n2, q1, q2);
      LongerIsLarger(n2, n1);
    }
  }

  /** A concrete repeat: the clock reads 71 ms, then steps back to 1 ms. */
  lemma {:induction false} RepeatAfterStepBack()
    ensures CommandId(71, 1) == CommandId(1, 35 * 36 + 1)
  {
    assert Numeral(71) == "1z" && Numeral(35 * 36 + 1) == "z1" && Numeral(1) == "1";
    assert "c" + "1z" + "1" == "c" + "1" + "z1";
  }
}

/** Command ids as the relay uses them: what the guard of a call asks for. */
module RelayIds {
  import opened CommandIds
  import opened RelayModel
  import opened RelaySystem

  /** A run whose calls may bring any id. */
  ghost predicate PossibleRun(s: System, es: seq<Event>)
    requires WellFormed(s)
    decreases |es|
  {
    es == [] || (Possible(s, es[0]) && PossibleRun(Next(s, es[0]), es[1..]))
  }

  /** The commands of the calls of a run, in the order in which they take the lock. */
  function Called(es: seq<Event>): (r: Batch) {
    if es == [] then [] else (if es[0].Call? then [es[0].cmd] else []) + Called(es[1..])
  }

  predicate DistinctIds(b: Batch) { forall i, j :: 0 <= i < j < |b| ==> b[i].id != b[j].id }

  predicate Apart(a: Batch, b: Batch) { forall i, j :: 0 <= i < |a| && 0 <= j < |b| ==> a[i].id != b[j].id }

  /** The k-th of the commands was given the sequence number `numbers[k]`, and the clock read `clock` of that. */
  ghost predicate Numbered(b: Batch, numbers: seq<nat>, clock: nat -> int) {
    && |numbers| == |b| && Distinct(numbers)
    && forall k :: 0 <= k < |b| ==> numbers[k] > 0 && b[k].id == CommandId(clock(numbers[k]), numbers[k])
  }

  ghost predicate ReadingsFollow(clock: nat -> int) { forall q: nat, r: nat :: q <= r ==> clock(q) <= clock(r) }

  lemma {:induction false} NumberedAreDistinct(b: Batch, numbers: seq<nat>, clock: nat -> int)
    requires Numbered(b, numbers, clock) && ReadingsFollow(clock)
    ensures DistinctIds(b)
  {
    forall i, j | 0 <= i < j < |b|
      ensures b[i].id != b[j].id
    {
      var (q, r) := (numbers[i], numbers[j]);
      if q < r {
        FreshWhileReadingsFollow(clock(q), clock(r), q, r);
      } else {
        FreshWhileReadingsFollow(clock(r), clock(q), r, q);
      }
    }
  }

  lemma {:induction false} DistinctIdsEnable(s: System, es: seq<Event>)
    requires WellFormed(s) && PossibleRun(s, es) && DistinctIds(Called(es)) && Apart(s.issued, Called(es))
    ensures EnabledRun(s, es)
    decreases |es|
  {
    if es != [] {
      var r := Next(s, es[0]);
      if es[0].Call? {
        assert Called(es)[0] == es[0].cmd && Called(es)[1..] == Called(es[1..]);
        forall c | c in s.issued
          ensures c.id != es[0].cmd.id
        {
        }
        assert r.issued == s.issued || r.issued == s.issued + [es[0].cmd];
      } else {
        assert Called(es) == Called(es[1..]);
      }
      DistinctIdsEnable(r, es[1..]);
    }
  }

  /**
    In every run, in whatever order the calls take the lock, ids made from sequence
    numbers meet the guard of a call while the clock readings follow the numbers.
  */
  lemma {:induction false} NumberedRunsAreEnabled(es: seq<Event>, numbers: seq<nat>, clock: nat -> int)
    requires PossibleRun(INIT, es) && Numbered(Called(es), numbers, clock) && ReadingsFollow(clock)
    ensures EnabledRun(INIT, es)
  {
    NumberedAreDistinct(Called(es), numbers, clock);
    DistinctIdsEnable(INIT, es);
  }
}
