/** The lock table as the program changes it. */
module DestLockTable {
  import opened DestLockModel

  class DestLock {
    ghost const id: nat
    var strong: nat

    constructor (ghost id: nat)
      ensures this.id == id && strong == 2
    {
      this.id := id;
      strong := 2;
    }

    /** One clone fewer. */
    method Drop()
      modifies this`strong
      ensures strong == if old(strong) > 0 then old(strong) - 1 else 0
    {
      if strong > 0 {
        strong := strong - 1;
      }
    }
  }

  class LockTable {
    var locks: map<string, DestLock>
    /** Every lock ever made, in order of their ids. */
    ghost var made: seq<DestLock>

    ghost predicate Valid()
      reads this, made
    {
      && (forall i :: 0 <= i < |made| ==> made[i].id == i)
      && (forall d :: d in locks ==> locks[d].id < |made| && made[locks[d].id] == locks[d])
    }

    ghost function View(): (t: Table)
      requires Valid()
      reads this, made
      ensures t.WellFormed()
    {
      Table(Ids(locks), Strongs(made))
    }

    static ghost function Ids(m: map<string, DestLock>): (r: map<string, nat>)
      ensures r.Keys == m.Keys && forall d :: d in m ==> r[d] == m[d].id
    {
      map d | d in m :: m[d].id
    }

    static ghost function Strongs(ls: seq<DestLock>): (r: seq<nat>)
      reads ls
      ensures |r| == |ls| && forall i :: 0 <= i < |ls| ==> r[i] == ls[i].strong
    {
      seq(|ls|, i requires 0 <= i < |ls| reads ls => ls[i].strong)
    }

    constructor ()
      ensures Valid() && View() == Table(map[], [])
    {
      locks, made := map[], [];
    }

    method Clone(dest: string) returns (lock: DestLock)
      requires Valid()
      modifies this, made
      ensures Valid() && View() == DestLockModel.Clone(old(View()), dest)
      ensures lock.id == LockOf(old(View()), dest) && lock.id < |made| && made[lock.id] == lock
    {
      if dest in locks {
        lock := locks[dest];
        lock.strong := lock.strong + 1;
      } else {
        lock := Make(dest);
      }
    }

    /** A lock for a destination that has none, cloned for the caller. */
    method Make(dest: string) returns (lock: DestLock)
      requires Valid() && dest !in locks
      modifies this
      ensures Valid() && made == old(made) + [lock] && lock.id == |old(made)| && fresh(lock)
      ensures View() == Table(old(View()).locks[dest := |old(made)|], old(View()).strong + [2])
    {
      ghost var was := View();
      lock := new DestLock(|made|);
      made := made + [lock];
      locks := locks[dest := lock];
      assert Strongs(made) == was.strong + [2];
      assert Ids(locks) == was.locks[dest := lock.id];
    }

    method Release(dest: string, lock: DestLock)
      requires Valid() && lock.id < |made| && made[lock.id] == lock
      modifies this`locks, made
      ensures Valid() && View() == DestLockModel.Release(old(View()), dest, lock.id)
    {
      if lock.strong <= 2 && dest in locks {
        Forget(dest);
      }
    }

    /** Remove the entry of `dest` and drop the table's clone. */
    method Forget(dest: string)
      requires Valid() && dest in locks
      modifies this`locks, made
      ensures Valid()
      ensures var (was, k) := (old(View()), old(View()).locks[dest]);
        View() == Table(was.locks - {dest}, was.strong[k := if was.strong[k] > 0 then was.strong[k] - 1 else 0])
    {
      ghost var was := View();
      var gone := locks[dest];
      locks := locks - {dest};
      gone.Drop();
      assert forall i :: 0 <= i < |made| && i != gone.id ==> made[i] != gone;
      assert Strongs(made) == was.strong[gone.id := gone.strong];
      assert Ids(locks) == was.locks - {dest};
    }
  }
}
