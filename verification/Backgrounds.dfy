/**
  Natural order of frame names (frame2 before frame10), on names already in lower
  case: it is the lexicographic order of their characters and digit-run values.
*/
module NaturalOrder {

  datatype Ordering = Less | Equal | Greater {
    function Flip(): (r: Ordering) {
      match this
      case Less => Greater
      case Equal => Equal
      case Greater => Less
    }

    /** This order, or `next` when equal. */
    function Then(next: Ordering): (r: Ordering) { if Equal? then next else this }
  }

  function Compare(a: int, b: int): (r: Ordering) { if a < b then Less else if a > b then Greater else Equal }

  // ---- Digit runs ----

  predicate Digit(c: char) { '0' <= c <= '9' }

  predicate Digits(s: string) { forall i :: 0 <= i < |s| ==> Digit(s[i]) }

  function Pow10(n: nat): (r: nat)
    ensures r > 0
  {
    if n == 0 then 1 else 10 * Pow10(n - 1)
  }

  function DigitValue(c: char): (r: nat)
    requires Digit(c)
  {
    (c - '0') as int
  }

  /** The number a digit run writes. */
  function Value(s: string): (r: nat)
    requires Digits(s)
  {
    if s == "" then 0 else DigitValue(s[0]) * Pow10(|s| - 1) + Value(s[1..])
  }

  /** The length of the digit run `s` starts with. */
  function RunLength(s: string): (n: nat)
    ensures n <= |s| && Digits(s[..n]) && (n < |s| ==> !Digit(s[n]))
  {
    if s == "" || !Digit(s[0]) then 0
    else
      var n := RunLength(s[1..]);
      assert s[..n + 1] == [s[0]] + s[1..][..n];
      n + 1
  }

  function Trim(s: string): (r: string)
    ensures Digits(s) ==> Digits(r)
    ensures r != "" ==> r[0] != '0'
  {
    if s != "" && s[0] == '0' then Trim(s[1..]) else s
  }

  /** Character by character, as strings compare. */
  function CompareText(s: string, t: string): (r: Ordering) {
    if s == "" then (if t == "" then Equal else Less)
    else if t == "" then Greater
    else if s[0] != t[0] then Compare(s[0] as int, t[0] as int)
    else CompareText(s[1..], t[1..])
  }

  lemma {:induction false} TrimKeepsValue(s: string)
    requires Digits(s)
    ensures Value(Trim(s)) == Value(s)
  {
    if s != "" && s[0] == '0' {
      TrimKeepsValue(s[1..]);
    }
  }

  lemma {:induction false} ValueBound(s: string)
    requires Digits(s)
    ensures Value(s) < Pow10(|s|)
  {
    if s != "" {
      ValueBound(s[1..]);
      AtMostTimes(DigitValue(s[0]), 9, Pow10(|s| - 1));
    }
  }

  lemma {:induction false} AtMostTimes(a: nat, b: nat, p: nat)
    requires a <= b
    ensures a * p <= b * p
  {
  }

  lemma {:induction false} ValueAtLeast(s: string)
    requires Digits(s) && s != "" && s[0] != '0'
    ensures Value(s) >= Pow10(|s| - 1)
  {
    AtMostTimes(1, DigitValue(s[0]), Pow10(|s| - 1));
  }

  lemma {:induction false} PowMonotone(m: nat, n: nat)
    requires m <= n
    ensures Pow10(m) <= Pow10(n)
  {
    if m < n {
      PowMonotone(m, n - 1);
    }
  }

  lemma {:induction false} SameLengthCompare(s: string, t: string)
    requires Digits(s) && Digits(t) && |s| == |t|
    ensures CompareText(s, t) == Compare(Value(s), Value(t))
  {
    if s != "" {
      if s[0] == t[0] {
        SameLengthCompare(s[1..], t[1..]);
      } else if s[0] < t[0] {
        FirstDigitDecides(s, t);
      } else {
        FirstDigitDecides(t, s);
      }
    }
  }

  lemma {:induction false} FirstDigitDecides(s: string, t: string)
    requires Digits(s) && Digits(t) && |s| == |t| && s != "" && s[0] < t[0]
    ensures Value(s) < Value(t)
  {
    ValueBound(s[1..]);
    LargerDigit(DigitValue(s[0]), DigitValue(t[0]), Pow10(|s| - 1), Value(s[1..]), Value(t[1..]));
  }

  lemma {:induction false} LargerDigit(x: nat, y: nat, p: nat, u: nat, v: nat)
    requires x < y && u < p
    ensures x * p + u < y * p + v
  {
    AtMostTimes(x + 1, y, p);
    assert (x + 1) * p == x * p + p;
  }

  /** Comparing trimmed runs by length and then as text compares the numbers they write. */
  lemma {:induction false} RunsCompareByValue(s: string, t: string)
    requires Digits(s) && Digits(t)
    ensures Compare(|Trim(s)|, |Trim(t)|).Then(CompareText(Trim(s), Trim(t))) == Compare(Value(s), Value(t))
  {
    TrimKeepsValue(s);
    TrimKeepsValue(t);
    if |Trim(s)| == |Trim(t)| {
      SameLengthCompare(Trim(s), Trim(t));
    } else if |Trim(s)| < |Trim(t)| {
      LongerIsLarger(Trim(s), Trim(t));
    } else {
      LongerIsLarger(Trim(t), Trim(s));
    }
  }

  lemma {:induction false} LongerIsLarger(s: string, t: string)
    requires Digits(s) && Digits(t) && |s| < |t| && t[0] != '0'
    ensures Value(s) < Value(t)
  {
    ValueBound(s);
    ValueAtLeast(t);
    PowMonotone(|s|, |t| - 1);
  }

  // ---- Names as tokens ----

  datatype Token = Char(c: char) | Number(n: nat)

  /** A name as its characters and the values of its digit runs. */
  function Tokens(s: string): (r: seq<Token>)
    decreases |s|
  {
    if s == "" then []
    else if Digit(s[0]) then
      var n := RunLength(s);
      [Number(Value(s[..n]))] + Tokens(s[n..])
    else [Char(s[0])] + Tokens(s[1..])
  }

  predicate ProperToken(t: Token) { t.Char? ==> !Digit(t.c) }

  predicate Proper(ts: seq<Token>) { forall i :: 0 <= i < |ts| ==> ProperToken(ts[i]) }

  /** A digit run sorts among characters where the digits do. */
  function CompareToken(a: Token, b: Token): (r: Ordering) {
    match (a, b)
    case (Char(x), Char(y)) => Compare(x as int, y as int)
    case (Number(m), Number(n)) => Compare(m, n)
    case (Char(x), Number(_)) => if x < '0' then Less else Greater
    case (Number(_), Char(y)) => if y < '0' then Greater else Less
  }

  function CompareTokens(s: seq<Token>, t: seq<Token>): (r: Ordering) {
    if s == [] then (if t == [] then Equal else Less)
    else if t == [] then Greater
    else CompareToken(s[0], t[0]).Then(CompareTokens(s[1..], t[1..]))
  }

  lemma {:induction false} TokensProper(s: string)
    ensures Proper(Tokens(s))
    decreases |s|
  {
    if s != "" {
      TokensProper(if Digit(s[0]) then s[RunLength(s)..] else s[1..]);
    }
  }

  // ---- The comparison ----

  method TakeRun(s: string, start: nat) returns (run: string, next: nat)
    requires start < |s| && Digit(s[start])
    ensures next == start + RunLength(s[start..]) && next > start && next <= |s|
    ensures run == s[start..next]
  {
    run, next := "", start;
    while next < |s| && Digit(s[next])
      invariant start <= next <= |s|
      invariant run == s[start..next]
      invariant RunLength(s[start..]) == next - start + RunLength(s[next..])
    {
      assert s[next..][1..] == s[next + 1..];
      run := run + [s[next]];
      next := next + 1;
    }
  }

  lemma {:induction false} RunStep(s: string, t: string)
    requires s != "" && t != "" && Digit(s[0]) && Digit(t[0])
    ensures var (m, n) := (RunLength(s), RunLength(t));
      CompareTokens(Tokens(s), Tokens(t))
      == Compare(Value(s[..m]), Value(t[..n])).Then(CompareTokens(Tokens(s[m..]), Tokens(t[n..])))
  {
  }

  /** Comparing the names comes down to comparing what is left of them. */
  ghost predicate LeftToCompare(a: string, b: string, i: nat, j: nat) {
    && i <= |a| && j <= |b|
    && CompareTokens(Tokens(a), Tokens(b)) == CompareTokens(Tokens(a[i..]), Tokens(b[j..]))
  }

  lemma {:induction false} AfterChars(a: string, b: string, i: nat, j: nat)
    requires LeftToCompare(a, b, i, j) && i < |a| && j < |b| && !(Digit(a[i]) && Digit(b[j]))
    ensures if a[i] != b[j] then CompareTokens(Tokens(a), Tokens(b)) == Compare(a[i] as int, b[j] as int)
            else LeftToCompare(a, b, i + 1, j + 1)
  {
  }

  lemma {:induction false} AfterRuns(a: string, b: string, i: nat, j: nat, ni: nat, nj: nat)
    requires LeftToCompare(a, b, i, j) && i < |a| && j < |b| && Digit(a[i]) && Digit(b[j])
    requires ni == i + RunLength(a[i..]) && nj == j + RunLength(b[j..])
    ensures var (ta, tb) := (Trim(a[i..ni]), Trim(b[j..nj]));
      var o := Compare(|ta|, |tb|).Then(CompareText(ta, tb));
      if o != Equal then CompareTokens(Tokens(a), Tokens(b)) == o else LeftToCompare(a, b, ni, nj)
  {
    RunStep(a[i..], b[j..]);
    assert a[i..ni] == a[i..][..ni - i] && b[j..nj] == b[j..][..nj - j];
    RunsCompareByValue(a[i..ni], b[j..nj]);
    assert a[i..][ni - i..] == a[ni..] && b[j..][nj - j..] == b[nj..];
  }

  /** Compare two names, already in lower case. */
  method NaturalCmp(a: string, b: string) returns (o: Ordering)
    ensures o == CompareTokens(Tokens(a), Tokens(b))
  {
    var i, j := 0, 0;
    assert a[0..] == a && b[0..] == b;
    while true
      invariant LeftToCompare(a, b, i, j)
      decreases |a| - i
    {
      if i == |a| || j == |b| {
        return if j < |b| then Less else if i < |a| then Greater else Equal;
      }
      if Digit(a[i]) && Digit(b[j]) {
        var ra, ni := TakeRun(a, i);
        var rb, nj := TakeRun(b, j);
        AfterRuns(a, b, i, j, ni, nj);
        var (ta, tb) := (Trim(ra), Trim(rb));
        o := Compare(|ta|, |tb|).Then(CompareText(ta, tb));
        if o != Equal {
          return;
        }
        i, j := ni, nj;
      } else {
        AfterChars(a, b, i, j);
        if a[i] != b[j] {
          return Compare(a[i] as int, b[j] as int);
        }
        i, j := i + 1, j + 1;
      }
    }
  }

  // ---- It is a total order on tokens, so a total preorder on names ----

  lemma {:induction false} TokenOrder(a: Token, b: Token, c: Token)
    requires ProperToken(a) && ProperToken(b) && ProperToken(c)
    ensures CompareToken(b, a) == CompareToken(a, b).Flip()
    ensures CompareToken(a, b) == Equal <==> a == b
    ensures CompareToken(a, b) == Less && CompareToken(b, c) == Less ==> CompareToken(a, c) == Less
  {
  }

  lemma {:induction false} TokensReversible(s: seq<Token>, t: seq<Token>)
    requires Proper(s) && Proper(t)
    ensures CompareTokens(t, s) == CompareTokens(s, t).Flip()
    ensures CompareTokens(s, t) == Equal <==> s == t
  {
    if s != [] && t != [] {
      TokenOrder(s[0], t[0], t[0]);
      TokensReversible(s[1..], t[1..]);
      assert s == [s[0]] + s[1..] && t == [t[0]] + t[1..];
    }
  }

  lemma {:induction false} TokensTransitive(s: seq<Token>, t: seq<Token>, u: seq<Token>)
    requires Proper(s) && Proper(t) && Proper(u)
    requires CompareTokens(s, t) != Greater && CompareTokens(t, u) != Greater
    ensures CompareTokens(s, u) != Greater
    ensures CompareTokens(s, t) == Less || CompareTokens(t, u) == Less ==> CompareTokens(s, u) == Less
  {
    if s != [] && t != [] && u != [] {
      TokenOrder(s[0], t[0], u[0]);
      TokenOrder(t[0], u[0], u[0]);
      if s[0] == t[0] && t[0] == u[0] {
        TokensTransitive(s[1..], t[1..], u[1..]);
      }
    }
  }

  /** Swapping the names swaps the answer, and names are equal exactly when they split alike. */
  lemma {:induction false} NamesReversible(a: string, b: string)
    ensures CompareTokens(Tokens(b), Tokens(a)) == CompareTokens(Tokens(a), Tokens(b)).Flip()
    ensures CompareTokens(Tokens(a), Tokens(b)) == Equal <==> Tokens(a) == Tokens(b)
  {
    TokensProper(a);
    TokensProper(b);
    TokensReversible(Tokens(a), Tokens(b));
  }

  /** The order is transitive, and strict when either step is. */
  lemma {:induction false} NamesTransitive(a: string, b: string, c: string)
    requires CompareTokens(Tokens(a), Tokens(b)) != Greater && CompareTokens(Tokens(b), Tokens(c)) != Greater
    ensures CompareTokens(Tokens(a), Tokens(c)) != Greater
    ensures CompareTokens(Tokens(a), Tokens(c)) == Equal
      <==> CompareTokens(Tokens(a), Tokens(b)) == Equal && CompareTokens(Tokens(b), Tokens(c)) == Equal
  {
    TokensProper(a);
    TokensProper(b);
    TokensProper(c);
    TokensTransitive(Tokens(a), Tokens(b), Tokens(c));
    TokensReversible(Tokens(a), Tokens(b));
    TokensReversible(Tokens(b), Tokens(c));
    TokensReversible(Tokens(a), Tokens(c));
  }
}

/**
  Ids of background packs, made from a pack's name. Names come in lower case with
  accents already folded.
*/
module PackIds {

  predicate Alnum(c: char) { 'a' <= c <= 'z' || '0' <= c <= '9' }

  predicate Inner(c: char) { Alnum(c) || c == '_' || c == '-' }

  predicate Valid(id: string) {
    1 <= |id| <= 40 && Alnum(id[0]) && forall i :: 0 <= i < |id| ==> Inner(id[i])
  }

  predicate EndsInDash(s: string) { s != "" && s[|s| - 1] == '-' }

  /** Letters and digits kept, every stretch of other characters made one dash. */
  function Collapsed(s: string): (r: string) {
    if s == "" then ""
    else
      var (rest, c) := (Collapsed(s[..|s| - 1]), s[|s| - 1]);
      if Alnum(c) then rest + [c] else if EndsInDash(rest) then rest else rest + ['-']
  }

  function TrimStart(s: string): (r: string) { if s != "" && s[0] == '-' then TrimStart(s[1..]) else s }

  function TrimEnd(s: string): (r: string) { if EndsInDash(s) then TrimEnd(s[..|s| - 1]) else s }

  function Take(s: string, n: nat): (r: string) { if |s| <= n then s else s[..n] }

  function Slug(name: string): (r: string) {
    var t := Take(TrimEnd(TrimStart(Collapsed(name))), 32);
    if Valid(t) then t else "pack"
  }

  method SlugFor(name: string) returns (slug: string)
    ensures slug == Slug(name)
  {
    var out, dash := "", false;
    for i := 0 to |name|
      invariant out == Collapsed(name[..i]) && dash == EndsInDash(out)
    {
      assert name[..i + 1][..i] == name[..i];
      if Alnum(name[i]) {
        out := out + [name[i]];
        dash := false;
      } else if !dash {
        out := out + ['-'];
        dash := true;
      }
    }
    assert name[..|name|] == name;
    var trimmed := Take(TrimEnd(TrimStart(out)), 32);
    slug := if Valid(trimmed) then trimmed else "pack";
  }

  // ---- Tidy texts ----

  /** Letters, digits and single dashes between them. */
  predicate Tidy(s: string) {
    && (forall i :: 0 <= i < |s| ==> Alnum(s[i]) || s[i] == '-')
    && (forall i :: 0 <= i < |s| - 1 ==> !(s[i] == '-' && s[i + 1] == '-'))
  }

  predicate HasAlnum(s: string) { exists i :: 0 <= i < |s| && Alnum(s[i]) }

  lemma {:induction false} CollapsedTidy(s: string)
    ensures Tidy(Collapsed(s)) && (HasAlnum(Collapsed(s)) <==> HasAlnum(s))
  {
    if s != "" {
      var (front, c, r) := (s[..|s| - 1], s[|s| - 1], Collapsed(s));
      var rest := Collapsed(front);
      CollapsedTidy(front);
      assert HasAlnum(s) <==> HasAlnum(front) || Alnum(c) by {
        if HasAlnum(front) {
          var i :| 0 <= i < |front| && Alnum(front[i]);
          assert Alnum(s[i]);
        }
      }
      assert HasAlnum(r) <==> HasAlnum(rest) || Alnum(c) by {
        if HasAlnum(rest) {
          var i :| 0 <= i < |rest| && Alnum(rest[i]);
          assert Alnum(r[i]);
        }
        if Alnum(c) {
          assert Alnum(r[|r| - 1]);
        }
      }
    }
  }

  lemma {:induction false} TrimStartTidy(s: string)
    requires Tidy(s)
    ensures Tidy(TrimStart(s)) && (TrimStart(s) == "" || Alnum(TrimStart(s)[0]))
    ensures HasAlnum(s) <==> TrimStart(s) != ""
  {
  }

  /** Trimming the end of a text that starts with a letter or digit leaves some of it. */
  lemma {:induction false} TrimEndTidy(s: string)
    requires Tidy(s) && s != "" && Alnum(s[0])
    ensures Tidy(TrimEnd(s)) && TrimEnd(s) != "" && TrimEnd(s)[0] == s[0] && !EndsInDash(TrimEnd(s))
    ensures !EndsInDash(s) <==> TrimEnd(s) == s
    decreases |s|
  {
  }

  lemma {:induction false} TrimEndShorter(s: string)
    ensures |TrimEnd(s)| <= |s|
    decreases |s|
  {
    if EndsInDash(s) {
      TrimEndShorter(s[..|s| - 1]);
    }
  }

  /** Before the length limit and the fallback. */
  function Trimmed(name: string): (r: string) { TrimEnd(TrimStart(Collapsed(name))) }

  lemma {:induction false} TrimmedTidy(name: string)
    ensures HasAlnum(name) ==> Tidy(Trimmed(name)) && Trimmed(name) != "" && Alnum(Trimmed(name)[0])
    ensures !HasAlnum(name) ==> Trimmed(name) == ""
  {
    CollapsedTidy(name);
    TrimStartTidy(Collapsed(name));
    if HasAlnum(name) {
      TrimEndTidy(TrimStart(Collapsed(name)));
    }
  }

  /** Every name gets a valid id; a name without a letter or digit gets the fallback. */
  lemma {:induction false} SlugIsValid(name: string)
    ensures Valid(Slug(name))
    ensures Slug(name) == if HasAlnum(name) then Take(Trimmed(name), 32) else "pack"
    ensures HasAlnum(name) ==> Tidy(Slug(name))
  {
    TrimmedTidy(name);
  }

  lemma {:induction false} TidyIsCollapsed(s: string)
    requires Tidy(s)
    ensures Collapsed(s) == s
  {
    if s != "" {
      var front := s[..|s| - 1];
      TidyIsCollapsed(front);
      assert s == front + [s[|s| - 1]];
      assert |front| > 0 ==> front[|front| - 1] == s[|s| - 2];
    }
  }

  /** A slug is its own slug exactly when the length limit did not cut it right after a dash. */
  lemma {:induction false} SlugTwiceIff(name: string)
    ensures Slug(Slug(name)) == Slug(name) <==> !EndsInDash(Slug(name))
  {
    var t := Slug(name);
    SlugIsValid(name);
    assert Tidy("pack");
    TidyIsCollapsed(t);
    assert TrimStart(t) == t;
    TrimEndTidy(t);
    TrimEndShorter(t);
    assert HasAlnum(t) by {
      assert Alnum(t[0]);
    }
    SlugIsValid(t);
    assert Take(TrimEnd(t), 32) == TrimEnd(t);
  }

  // ---- Ids not yet taken ----

  function Digit(n: nat): (r: char)
    requires n < 10
  {
    '0' + n as char
  }

  function Decimal(n: nat): (r: string) { if n < 10 then [Digit(n)] else Decimal(n / 10) + [Digit(n % 10)] }

  function Numbered(base: string, n: nat): (r: string) { base + "-" + Decimal(n) }

  /** The numbered ids from 2 up to `n` are all taken. */
  predicate AllTaken(base: string, taken: set<string>, n: nat) {
    forall i :: 2 <= i < n ==> Numbered(base, i) in taken
  }

  predicate SmallestFree(base: string, taken: set<string>, n: nat) {
    Numbered(base, n) !in taken && AllTaken(base, taken, n)
  }

  /** An id from the pack's name; `suffix` is the random one used when all numbers are taken. */
  method UniquePackId(name: string, taken: set<string>, suffix: string) returns (id: string)
    ensures Slug(name) !in taken ==> id == Slug(name)
    ensures id in taken ==> id == Slug(name) + "-" + suffix && AllTaken(Slug(name), taken, 1000)
    ensures Slug(name) in taken ==>
      (exists n :: 2 <= n < 1000 && SmallestFree(Slug(name), taken, n) && id == Numbered(Slug(name), n))
      || (AllTaken(Slug(name), taken, 1000) && id == Slug(name) + "-" + suffix)
  {
    var base := SlugFor(name);
    if base !in taken {
      return base;
    }
    for i := 2 to 1000
      invariant AllTaken(base, taken, i)
    {
      id := Numbered(base, i);
      if id !in taken {
        assert SmallestFree(base, taken, i);
        return id;
      }
    }
    id := base + "-" + suffix;
  }

  lemma {:induction false} DecimalDigits(n: nat)
    ensures forall i :: 0 <= i < |Decimal(n)| ==> Inner(Decimal(n)[i])
    ensures n < 1000 ==> |Decimal(n)| <= 3
  {
    if n >= 10 {
      DecimalDigits(n / 10);
      if n < 1000 && n / 10 >= 10 {
        assert Decimal(n / 10) == Decimal(n / 10 / 10) + [Digit(n / 10 % 10)];
      }
    }
  }

  /** A numbered id still fits the rule for ids. */
  lemma {:induction false} NumberedIsValid(name: string, n: nat)
    requires n < 1000
    ensures Valid(Numbered(Slug(name), n))
  {
    SlugIsValid(name);
    DecimalDigits(n);
  }
}
