/**
  Natural order said of the names themselves: where two names part, and that numbers
  written in them count as numbers.
*/
module NaturalOrderLaws {
  import opened NaturalOrder

  /** A character sorts by its code, a number by its value, and a number among characters where the digits are. */
  predicate Below(a: Token, b: Token) {
    match (a, b)
    case (Char(x), Char(y)) => x < y
    case (Number(m), Number(n)) => m < n
    case (Char(x), Number(_)) => x < '0'
    case (Number(_), Char(y)) => '9' < y
  }

  /** The names agree up to token `k`, where the first one ends or has the lower token. */
  ghost predicate PartsAt(s: seq<Token>, t: seq<Token>, k: nat) {
    && k <= |s| && k <= |t| && s[..k] == t[..k]
    && (k == |s| < |t| || (k < |s| && k < |t| && Below(s[k], t[k])))
  }

  /** A name comes first exactly when it is a proper beginning of the other, or has the lower token where they part. */
  lemma {:induction false} LessIff(s: seq<Token>, t: seq<Token>)
    requires Proper(s) && Proper(t)
    ensures CompareTokens(s, t) == Less <==> exists k: nat :: PartsAt(s, t, k)
  {
    if s == [] {
      assert t != [] ==> PartsAt(s, t, 0);
    } else if t != [] {
      LessIff(s[1..], t[1..]);
      forall k: nat | PartsAt(s, t, k)
        ensures k == 0 || s[0] == t[0]
      {
        if k > 0 {
          assert s[..k][0] == s[0] && t[..k][0] == t[0];
        }
      }
      if s[0] != t[0] {
        assert PartsAt(s, t, 0) <==> Below(s[0], t[0]);
      } else {
        LessLater(s, t);
      }
    }
  }

  lemma {:induction false} LessLater(s: seq<Token>, t: seq<Token>)
    requires s != [] && t != [] && s[0] == t[0]
    ensures (exists k: nat :: PartsAt(s, t, k)) <==> exists k: nat :: PartsAt(s[1..], t[1..], k)
  {
    if k: nat :| PartsAt(s, t, k) {
      assert k > 0;
      assert s[1..][..k - 1] == s[..k][1..] && t[1..][..k - 1] == t[..k][1..];
      assert PartsAt(s[1..], t[1..], k - 1);
    }
    if k: nat :| PartsAt(s[1..], t[1..], k) {
      assert s[..k + 1] == [s[0]] + s[1..][..k] && t[..k + 1] == [t[0]] + t[1..][..k];
      assert PartsAt(s, t, k + 1);
    }
  }

  // ---- Names to tokens ----

  lemma {:induction false} RunLengthOf(s: string, n: nat)
    requires n <= |s| && Digits(s[..n]) && (n < |s| ==> !Digit(s[n]))
    ensures RunLength(s) == n
  {
    if n > 0 {
      assert s[..n][0] == s[0] && s[1..][..n - 1] == s[..n][1..];
      RunLengthOf(s[1..], n - 1);
    }
  }

  /** Names put together have their tokens put together, unless a digit run goes on. */
  lemma {:induction false} TokensConcat(p: string, q: string)
    requires p != "" && q != "" ==> !(Digit(p[|p| - 1]) && Digit(q[0]))
    ensures Tokens(p + q) == Tokens(p) + Tokens(q)
    decreases |p|
  {
    var s := p + q;
    if p == "" {
      assert s == q;
    } else if Digit(p[0]) {
      var n := RunLength(p);
      assert s[..n] == p[..n] && s[n..] == p[n..] + q;
      RunLengthOf(s, n);
      TokensConcat(p[n..], q);
    } else {
      assert s[1..] == p[1..] + q;
      TokensConcat(p[1..], q);
    }
  }

  /** A digit run is one number, and any other character itself. */
  lemma {:induction false} TokensOfPart(run: string, c: char)
    requires Digits(run) && run != "" && !Digit(c)
    ensures Tokens(run) == [Number(Value(run))] && Tokens([c]) == [Char(c)]
  {
    RunLengthOf(run, |run|);
    assert run[..|run|] == run;
  }

  /** One more digit makes the value ten times as large and adds the digit's own. */
  lemma {:induction false} ValueSnoc(s: string, d: char)
    requires Digits(s) && Digit(d)
    ensures Digits(s + [d]) && Value(s + [d]) == 10 * Value(s) + (d as int - '0' as int)
  {
    if s != "" {
      ValueSnoc(s[1..], d);
      assert (s + [d])[1..] == s[1..] + [d];
      assert DigitValue(s[0]) * Pow10(|s|) == 10 * (DigitValue(s[0]) * Pow10(|s| - 1));
    } else {
      assert ([] + [d])[1..] == "";
    }
  }

  predicate EndsInDigit(s: string) { s != "" && Digit(s[|s| - 1]) }

  predicate StartsWithDigit(s: string) { s != "" && Digit(s[0]) }

  lemma {:induction false} TokensAround(p: string, run: string, rest: string)
    requires !EndsInDigit(p) && Digits(run) && run != "" && !StartsWithDigit(rest)
    ensures Tokens(p + run + rest) == Tokens(p) + [Number(Value(run))] + Tokens(rest)
  {
    TokensConcat(p + run, rest);
    TokensConcat(p, run);
    TokensOfPart(run, ' ');
  }

  /** frame2 comes before frame10: after the same beginning the smaller number decides, however it is written. */
  lemma {:induction false} NumberDecides(p: string, a: string, b: string, e: string, f: string)
    requires !EndsInDigit(p) && Digits(a) && Digits(b) && a != "" && b != ""
    requires !StartsWithDigit(e) && !StartsWithDigit(f) && Value(a) < Value(b)
    ensures CompareTokens(Tokens(p + a + e), Tokens(p + b + f)) == Less
  {
    var (s, t, k) := (Tokens(p + a + e), Tokens(p + b + f), |Tokens(p)|);
    TokensAround(p, a, e);
    TokensAround(p, b, f);
    TokensProper(p + a + e);
    TokensProper(p + b + f);
    assert s[..k] == Tokens(p) == t[..k] && s[k] == Number(Value(a)) && t[k] == Number(Value(b));
    assert PartsAt(s, t, k);
    LessIff(s, t);
  }
}

/** Pack ids said of the words of the name. */
module PackIdLaws {
  import opened PackIds
  import NaturalOrder
  import NaturalOrderLaws

  /** The stretches of letters and digits of a name, in order. */
  function Words(s: string): (ws: seq<string>)
    ensures s != "" && Alnum(s[|s| - 1]) ==> ws != []
  {
    if s == "" then []
    else
      var (ws, c) := (Words(s[..|s| - 1]), s[|s| - 1]);
      if !Alnum(c) then ws
      else if |s| > 1 && Alnum(s[|s| - 2]) then ws[|ws| - 1 := ws[|ws| - 1] + [c]]
      else ws + [[c]]
  }

  /** Words with single dashes between them. */
  function Joined(ws: seq<string>): (r: string) {
    if ws == [] then "" else if |ws| == 1 then ws[0] else Joined(ws[..|ws| - 1]) + "-" + ws[|ws| - 1]
  }

  predicate EndsOutside(s: string) { s != "" && !Alnum(s[|s| - 1]) }

  lemma {:induction false} CollapsedEnd(s: string)
    ensures EndsInDash(Collapsed(s)) <==> EndsOutside(s)
  {
    if s != "" {
      CollapsedEnd(s[..|s| - 1]);
    }
  }

  lemma {:induction false} TrimStartSnoc(s: string, c: char)
    ensures TrimStart(s + [c]) ==
      if TrimStart(s) != "" then TrimStart(s) + [c] else if c == '-' then "" else [c]
  {
    if s == "" {
      assert s + [c] == [c] && [c][1..] == "";
    } else if s[0] == '-' {
      TrimStartSnoc(s[1..], c);
      assert (s + [c])[1..] == s[1..] + [c];
    }
  }

  predicate AllWords(ws: seq<string>) {
    forall i :: 0 <= i < |ws| ==> ws[i] != "" && forall k :: 0 <= k < |ws[i]| ==> Alnum(ws[i][k])
  }

  lemma {:induction false} WordsAreWords(s: string)
    ensures AllWords(Words(s)) && (Words(s) != [] <==> HasAlnum(s))
  {
    if s != "" {
      var front := s[..|s| - 1];
      WordsAreWords(front);
      assert HasAlnum(s) <==> HasAlnum(front) || Alnum(s[|s| - 1]) by {
        if HasAlnum(front) {
          var i :| 0 <= i < |front| && Alnum(front[i]);
          assert Alnum(s[i]);
        }
      }
    }
  }

  lemma {:induction false} JoinedEnd(ws: seq<string>)
    requires AllWords(ws) && ws != []
    ensures Joined(ws) != "" && !EndsInDash(Joined(ws))
  {
    var w := ws[|ws| - 1];
    assert Alnum(w[|w| - 1]);
    assert Joined(ws)[|Joined(ws)| - 1] == w[|w| - 1];
  }

  lemma {:induction false} JoinedGrows(ws: seq<string>, c: char)
    requires ws != []
    ensures Joined(ws[|ws| - 1 := ws[|ws| - 1] + [c]]) == Joined(ws) + [c]
    ensures Joined(ws + [[c]]) == Joined(ws) + "-" + [c]
  {
    var more := ws[|ws| - 1 := ws[|ws| - 1] + [c]];
    assert more[..|ws| - 1] == ws[..|ws| - 1];
    assert (ws + [[c]])[..|ws|] == ws;
  }

  lemma {:induction false} StartIsJoined(s: string)
    ensures TrimStart(Collapsed(s)) == Joined(Words(s)) + if Words(s) != [] && EndsOutside(s) then "-" else ""
  {
    if s != "" {
      var (front, c) := (s[..|s| - 1], s[|s| - 1]);
      var r := Collapsed(front);
      StartIsJoined(front);
      CollapsedEnd(front);
      WordsAreWords(front);
      if Words(front) != [] {
        JoinedEnd(Words(front));
        JoinedGrows(Words(front), c);
      }
      TrimStartSnoc(r, c);
      TrimStartSnoc(r, '-');
      WordOrDash(s);
    }
  }

  /** The step from a name without its last character. */
  lemma {:induction false} WordOrDash(s: string)
    requires s != ""
    ensures var (front, c) := (s[..|s| - 1], s[|s| - 1]);
      && (EndsOutside(front) <==> |s| > 1 && !Alnum(s[|s| - 2]))
      && (Alnum(c) && Words(front) == [] ==> Words(s) == [[c]] && Joined([[c]]) == [c])
  {
  }

  /** Before the length limit, an id is the words of the name with single dashes between them. */
  lemma {:induction false} TrimmedIsJoined(name: string)
    ensures Trimmed(name) == Joined(Words(name))
  {
    var (ws, t) := (Words(name), TrimStart(Collapsed(name)));
    StartIsJoined(name);
    WordsAreWords(name);
    if ws != [] {
      var j := Joined(ws);
      JoinedEnd(ws);
      assert TrimEnd(j) == j;
      if EndsOutside(name) {
        assert t == j + "-" && EndsInDash(t) && t[..|t| - 1] == j;
        assert TrimEnd(t) == TrimEnd(t[..|t| - 1]);
      } else {
        assert t == j + "" == j;
      }
    } else {
      assert t == "";
    }
  }

  /**
    An id is the words of the name with single dashes between them, up to 32 characters;
    without words it is "pack".
  */
  lemma {:induction false} SlugIsJoined(name: string)
    ensures Slug(name) ==
      if Words(name) == [] then "pack"
      else if |Joined(Words(name))| > 32 then Joined(Words(name))[..32] else Joined(Words(name))
  {
    SlugIsValid(name);
    TrimmedIsJoined(name);
    WordsAreWords(name);
  }

  lemma {:induction false} DecimalIsValue(n: nat)
    ensures NaturalOrder.Digits(Decimal(n)) && NaturalOrder.Value(Decimal(n)) == n
    ensures Decimal(n) != "" && (n > 0 ==> Decimal(n)[0] != '0')
  {
    if n >= 10 {
      DecimalIsValue(n / 10);
      NaturalOrderLaws.ValueSnoc(Decimal(n / 10), Digit(n % 10));
    } else {
      var d := [Digit(n)];
      assert d[1..] == "" && NaturalOrder.Pow10(0) == 1;
      assert NaturalOrder.Value(d) == NaturalOrder.DigitValue(d[0]) * NaturalOrder.Pow10(0) + NaturalOrder.Value("");
    }
  }

  /** The number added to an id reads back as that number, so ids with different numbers differ. */
  lemma {:induction false} NumberedReadsBack(base: string, m: nat, n: nat)
    ensures Numbered(base, n)[..|base| + 1] == base + "-"
    ensures NaturalOrder.Digits(Numbered(base, n)[|base| + 1..])
    ensures NaturalOrder.Value(Numbered(base, n)[|base| + 1..]) == n
    ensures Numbered(base, m) == Numbered(base, n) ==> m == n
  {
    DecimalIsValue(n);
    DecimalIsValue(m);
    assert Numbered(base, n)[|base| + 1..] == Decimal(n) && Numbered(base, m)[|base| + 1..] == Decimal(m);
  }

  /** An id has 1 to 40 lower-case letters, digits, dashes and underscores, and begins with a letter or a digit. */
  lemma {:induction false} ValidIff(id: string)
    ensures Valid(id) <==>
      && 1 <= |id| <= 40 && id[0] != '-' && id[0] != '_'
      && forall i :: 0 <= i < |id| ==> 'a' <= id[i] <= 'z' || '0' <= id[i] <= '9' || id[i] == '-' || id[i] == '_'
  {
  }
}
