/**
  Sixteen-byte big-endian addresses: lexicographic order is numeric order, and
  the byte-wise increment is plus one.
*/
module GeoAddress {
  import opened Wrappers

  type Address = a: seq<byte> | |a| == 16 witness seq(16, _ => 0)

  /** The big-endian value of a byte string. */
  function Num(a: seq<byte>): (r: nat) {
    if a == [] then 0 else Num(a[..|a| - 1]) * 256 + a[|a| - 1]
  }

  /** Lexicographic order, as slices of bytes compare. */
  predicate Less(a: seq<byte>, b: seq<byte>)
    requires |a| == |b|
  {
    exists k :: 0 <= k < |a| && a[..k] == b[..k] && a[k] < b[k]
  }

  predicate AtMost(a: seq<byte>, b: seq<byte>)
    requires |a| == |b|
  {
    a == b || Less(a, b)
  }

  lemma {:induction false} NumInjective(a: seq<byte>, b: seq<byte>)
    requires |a| == |b| && Num(a) == Num(b)
    ensures a == b
  {
    if a != [] {
      var (p, q) := (a[..|a| - 1], b[..|b| - 1]);
      NumInjective(p, q);
      assert a == p + [a[|a| - 1]] && b == q + [b[|b| - 1]];
    }
  }

  lemma {:induction false} LessSplits(a: seq<byte>, b: seq<byte>)
    requires |a| == |b| > 0
    ensures var (p, q) := (a[..|a| - 1], b[..|b| - 1]);
      Less(a, b) <==> Less(p, q) || (p == q && a[|a| - 1] < b[|b| - 1])
  {
    var n := |a| - 1;
    var (p, q) := (a[..n], b[..n]);
    forall k | 0 <= k < n
      ensures p[..k] == a[..k] && q[..k] == b[..k]
    {
    }
    if Less(p, q) {
      var k :| 0 <= k < n && p[..k] == q[..k] && p[k] < q[k];
      assert a[..k] == b[..k] && a[k] < b[k];
    }
    if p == q && a[n] < b[n] {
      assert a[..n] == b[..n];
    }
    if Less(a, b) {
      var k :| 0 <= k < |a| && a[..k] == b[..k] && a[k] < b[k];
      if k < n {
        assert p[..k] == q[..k] && p[k] < q[k];
      }
    }
  }

  /** One lexicographic compare is the numeric compare. */
  lemma {:induction false} LessIsNumeric(a: seq<byte>, b: seq<byte>)
    requires |a| == |b|
    ensures Less(a, b) <==> Num(a) < Num(b)
    ensures AtMost(a, b) <==> Num(a) <= Num(b)
  {
    if a != [] {
      LessSplits(a, b);
      LessIsNumeric(a[..|a| - 1], b[..|b| - 1]);
    }
    if Num(a) == Num(b) {
      NumInjective(a, b);
    }
  }

  // ---- Increment ----

  /** The largest value of `n` bytes. */
  function Top(n: nat): (r: nat) { if n == 0 then 0 else Top(n - 1) * 256 + 255 }

  lemma {:induction false} NumAtMostTop(a: seq<byte>)
    ensures Num(a) <= Top(|a|)
  {
    if a != [] {
      NumAtMostTop(a[..|a| - 1]);
    }
  }

  /** The next byte string of the same length, none after the last. */
  function Succ(a: seq<byte>): (r: Option<seq<byte>>)
    ensures r.Some? ==> |r.value| == |a|
  {
    if a == [] then None
    else
      var (p, d) := (a[..|a| - 1], a[|a| - 1]);
      if d != 255 then Some(p + [d + 1])
      else match Succ(p)
        case None => None
        case Some(q) => Some(q + [0])
  }

  /** `Succ` adds one, and fails exactly on all ones. */
  lemma {:induction false} SuccIsPlusOne(a: seq<byte>)
    ensures Succ(a).None? <==> Num(a) == Top(|a|)
    ensures Succ(a).Some? ==> Num(Succ(a).value) == Num(a) + 1
  {
    if a != [] {
      var (p, d) := (a[..|a| - 1], a[|a| - 1]);
      NumAtMostTop(p);
      SuccIsPlusOne(p);
      if d != 255 {
        assert Succ(a).value[..|a| - 1] == p;
      } else if Succ(p).Some? {
        assert Succ(a).value[..|a| - 1] == Succ(p).value;
      }
    }
  }

  /** The carry stops at the last byte that is not 255 and clears everything after it. */
  lemma {:induction false} SuccStopsAt(a: seq<byte>, i: nat)
    requires i < |a| && a[i] != 255 && forall j :: i < j < |a| ==> a[j] == 255
    ensures Succ(a).Some?
    ensures forall j :: 0 <= j < |a| ==> Succ(a).value[j] == if j < i then a[j] else if j == i then a[i] + 1 else 0
  {
    if i < |a| - 1 {
      SuccStopsAt(a[..|a| - 1], i);
    }
  }

  lemma {:induction false} SuccOfOnes(a: seq<byte>)
    requires forall j :: 0 <= j < |a| ==> a[j] == 255
    ensures Succ(a) == None
  {
    if a != [] {
      SuccOfOnes(a[..|a| - 1]);
    }
  }

  /** Carry from the last byte up, in a copy of the address. */
  method Increment(v: Address) returns (r: Option<seq<byte>>)
    ensures r == Succ(v)
  {
    var out := new byte[16](i requires 0 <= i < 16 => v[i]);
    var i := 16;
    while i > 0
      invariant 0 <= i <= 16
      invariant forall j :: i <= j < 16 ==> v[j] == 255 && out[j] == 0
      invariant forall j :: 0 <= j < i ==> out[j] == v[j]
    {
      i := i - 1;
      if out[i] == 255 {
        out[i] := 0;
      } else {
        SuccStopsAt(v, i);
        out[i] := out[i] + 1;
        assert out[..] == Succ(v).value;
        return Some(out[..]);
      }
    }
    SuccOfOnes(v);
    r := None;
  }

  // ---- Every value is an address ----

  function Bytes(k: nat, n: nat): (a: seq<byte>)
    ensures |a| == n
  {
    if n == 0 then [] else Bytes(k / 256, n - 1) + [k % 256]
  }

  lemma {:induction false} NumOfBytes(k: nat, n: nat)
    requires k <= Top(n)
    ensures Num(Bytes(k, n)) == k
  {
    if n > 0 {
      NumOfBytes(k / 256, n - 1);
      assert Bytes(k, n)[..n - 1] == Bytes(k / 256, n - 1);
    }
  }
}
