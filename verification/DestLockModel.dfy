/**
  The per-destination lock table. A lock leaves the table by reference count, while
  other tasks may hold clones of it and may be dropped anywhere.
*/
module DestLockModel {

  /** `locks` maps a destination to its lock; `strong[l]` is the reference count of lock `l`. */
  datatype Table = Table(locks: map<string, nat>, strong: seq<nat>) {
    predicate WellFormed() { forall d :: d in locks ==> locks[d] < |strong| }
  }

  /** The lock of `dest`, made on first use; the caller holds a clone. */
  function LockOf(t: Table, dest: string): (r: nat) {
    if dest in t.locks then t.locks[dest] else |t.strong|
  }

  function Clone(t: Table, dest: string): (r: Table)
    requires t.WellFormed()
    ensures r.WellFormed() && LockOf(t, dest) < |r.strong|
  {
    if dest in t.locks then t.(strong := t.strong[t.locks[dest] := t.strong[t.locks[dest]] + 1])
    else Table(t.locks[dest := |t.strong|], t.strong + [2])
  }

  /** Forget the table's clone when only the table and this caller are left. */
  function Release(t: Table, dest: string, lock: nat): (r: Table)
    requires t.WellFormed() && lock < |t.strong|
    ensures r.WellFormed() && |r.strong| == |t.strong|
  {
    if t.strong[lock] > 2 || dest !in t.locks then t
    else
      var k := t.locks[dest];
      Table(t.locks - {dest}, t.strong[k := if t.strong[k] > 0 then t.strong[k] - 1 else 0])
  }

  function Drop(t: Table, lock: nat): (r: Table)
    requires t.WellFormed() && lock < |t.strong|
    ensures r.WellFormed() && |r.strong| == |t.strong|
  {
    t.(strong := t.strong[lock := if t.strong[lock] > 0 then t.strong[lock] - 1 else 0])
  }
}
