/**
  Download tasks over the lock table, in every interleaving of taking, locking,
  releasing and being dropped.
*/
module DestLocks {
  import opened DestLockModel

  /**
    A download task holds a clone of its lock until it is `Gone`. `Lingering`
    tasks are past the release, or were dropped while inside, with the clone still
    to be dropped.
  */
  datatype Phase = Waiting | Inside | Leaving | Lingering | Gone

  datatype Task = Task(dest: string, lock: nat, phase: Phase)

  datatype System = System(table: Table, tasks: seq<Task>)

  datatype Event =
    | Start(dest: string)
    | Acquire(i: nat)
    | Unlock(i: nat)
    | Release(i: nat)
    | DropClone(i: nat)
    | Cancel(i: nat)

  const INIT := System(Table(map[], []), [])

  predicate WellFormed(s: System) {
    s.table.WellFormed() && forall i :: 0 <= i < |s.tasks| ==> s.tasks[i].lock < |s.table.strong|
  }

  predicate At(s: System, i: nat, ph: Phase) { i < |s.tasks| && s.tasks[i].phase == ph }

  /** A lock lets a task in only while no task is inside it. */
  ghost predicate Enabled(s: System, e: Event) {
    match e
    case Start(_) => true
    case Acquire(i) =>
      && At(s, i, Waiting)
      && forall j :: 0 <= j < |s.tasks| && s.tasks[j].lock == s.tasks[i].lock ==> s.tasks[j].phase != Inside
    case Unlock(i) => At(s, i, Inside)
    case Release(i) => At(s, i, Leaving)
    case DropClone(i) => At(s, i, Lingering)
    case Cancel(i) => At(s, i, Waiting) || At(s, i, Inside)
  }

  function Moved(s: System, i: nat, ph: Phase): (r: System)
    requires WellFormed(s) && i < |s.tasks|
    ensures WellFormed(r)
  {
    s.(tasks := s.tasks[i := s.tasks[i].(phase := ph)])
  }

  ghost function Next(s: System, e: Event): (r: System)
    requires WellFormed(s) && Enabled(s, e)
    ensures WellFormed(r)
  {
    match e
    case Start(dest) => System(Clone(s.table, dest), s.tasks + [Task(dest, LockOf(s.table, dest), Waiting)])
    case Acquire(i) => Moved(s, i, Inside)
    case Unlock(i) => Moved(s, i, Leaving)
    case Release(i) =>
      Moved(s, i, Lingering).(table := DestLockModel.Release(s.table, s.tasks[i].dest, s.tasks[i].lock))
    case DropClone(i) => Moved(s, i, Gone).(table := Drop(s.table, s.tasks[i].lock))
    case Cancel(i) =>
      if s.tasks[i].phase == Inside then Moved(s, i, Lingering)
      else Moved(s, i, Gone).(table := Drop(s.table, s.tasks[i].lock))
  }

  ghost predicate EnabledRun(s: System, es: seq<Event>)
    requires WellFormed(s)
    decreases |es|
  {
    es == [] || (Enabled(s, es[0]) && EnabledRun(Next(s, es[0]), es[1..]))
  }

  ghost function Run(s: System, es: seq<Event>): (r: System)
    requires WellFormed(s) && EnabledRun(s, es)
    ensures WellFormed(r)
    decreases |es|
  {
    if es == [] then s else Run(Next(s, es[0]), es[1..])
  }

  // ---- Reference counts ----

  function Holds(t: Task, lock: nat): (r: nat) { if t.lock == lock && t.phase != Gone then 1 else 0 }

  /** How many tasks hold a clone of `lock`. */
  function Clones(ts: seq<Task>, lock: nat): (r: nat) {
    if ts == [] then 0 else Holds(ts[0], lock) + Clones(ts[1..], lock)
  }

  ghost predicate InTable(t: Table, lock: nat) { exists d :: d in t.locks && t.locks[d] == lock }

  ghost predicate Counted(s: System) {
    forall l :: 0 <= l < |s.table.strong| ==>
      s.table.strong[l] == Clones(s.tasks, l) + (if InTable(s.table, l) then 1 else 0)
  }

  predicate Working(t: Task) { t.phase == Waiting || t.phase == Inside || t.phase == Leaving }

  /**
    A lock belongs to one destination, a working task's lock is the one in the
    table, and a lock has at most one task inside.
  */
  ghost predicate Shared(s: System) {
    && WellFormed(s)
    && (forall i :: 0 <= i < |s.tasks| && Working(s.tasks[i]) ==>
          s.tasks[i].dest in s.table.locks && s.table.locks[s.tasks[i].dest] == s.tasks[i].lock)
    && (forall d, i :: d in s.table.locks && 0 <= i < |s.tasks| && s.tasks[i].lock == s.table.locks[d] ==>
          s.tasks[i].dest == d)
    && (forall d, e :: d in s.table.locks && e in s.table.locks && s.table.locks[d] == s.table.locks[e] ==> d == e)
    && (forall i, j :: 0 <= i < j < |s.tasks| && s.tasks[i].lock == s.tasks[j].lock ==>
          !(s.tasks[i].phase == Inside && s.tasks[j].phase == Inside))
  }

  ghost predicate Inv(s: System) { Shared(s) && Counted(s) }

  lemma {:induction false} ClonesAppend(ts: seq<Task>, t: Task, lock: nat)
    ensures Clones(ts + [t], lock) == Clones(ts, lock) + Holds(t, lock)
  {
    if ts == [] {
      assert ts + [t] == [t];
    } else {
      ClonesAppend(ts[1..], t, lock);
      assert (ts + [t])[1..] == ts[1..] + [t];
    }
  }

  lemma {:induction false} ClonesUpdate(ts: seq<Task>, i: nat, t: Task, lock: nat)
    requires i < |ts|
    ensures Clones(ts[i := t], lock) + Holds(ts[i], lock) == Clones(ts, lock) + Holds(t, lock)
  {
    if i == 0 {
      assert ts[i := t][1..] == ts[1..];
    } else {
      ClonesUpdate(ts[1..], i - 1, t, lock);
      assert ts[i := t][1..] == ts[1..][i - 1 := t];
    }
  }

  lemma {:induction false} ClonesOfTwo(ts: seq<Task>, i: nat, j: nat, lock: nat)
    requires i < |ts| && j < |ts| && i != j
    ensures Clones(ts, lock) >= Holds(ts[i], lock) + Holds(ts[j], lock)
  {
    var without := ts[i := ts[i].(phase := Gone)];
    ClonesUpdate(ts, i, ts[i].(phase := Gone), lock);
    ClonesUpdate(without, j, ts[j].(phase := Gone), lock);
  }

  lemma {:induction false} ClonesOfNew(ts: seq<Task>, lock: nat)
    requires forall i :: 0 <= i < |ts| ==> ts[i].lock < lock
    ensures Clones(ts, lock) == 0
  {
    if ts != [] {
      ClonesOfNew(ts[1..], lock);
    }
  }

  /** Some other task holds a clone exactly when there is more than one clone. */
  lemma {:induction false} OtherHolder(ts: seq<Task>, i: nat) returns (j: nat)
    requires i < |ts| && Clones(ts, ts[i].lock) > Holds(ts[i], ts[i].lock)
    ensures j < |ts| && j != i && Holds(ts[j], ts[i].lock) == 1
  {
    var lock := ts[i].lock;
    var gone := ts[i].(phase := Gone);
    ClonesUpdate(ts, i, gone, lock);
    j := SomeHolder(ts[i := gone], lock);
  }

  lemma {:induction false} SomeHolder(ts: seq<Task>, lock: nat) returns (j: nat)
    requires Clones(ts, lock) > 0
    ensures j < |ts| && Holds(ts[j], lock) == 1
  {
    if Holds(ts[0], lock) == 1 {
      j := 0;
    } else {
      j := SomeHolder(ts[1..], lock);
      j := j + 1;
    }
  }

  // ---- One step ----

  lemma {:induction false} StartTable(s: System, dest: string, l: nat)
    requires WellFormed(s)
    ensures var (t, k) := (Clone(s.table, dest), LockOf(s.table, dest));
      InTable(t, l) <==> InTable(s.table, l) || l == k
  {
    var t := Clone(s.table, dest);
    assert dest in t.locks && t.locks[dest] == LockOf(s.table, dest);
    if InTable(s.table, l) {
      var d :| d in s.table.locks && s.table.locks[d] == l;
      assert d in t.locks && t.locks[d] == l;
    }
  }

  lemma {:induction false} StartCounts(s: System, dest: string)
    requires Inv(s)
    ensures Counted(Next(s, Start(dest)))
  {
    var (r, k) := (Next(s, Start(dest)), LockOf(s.table, dest));
    forall l | 0 <= l < |r.table.strong|
      ensures r.table.strong[l] == Clones(r.tasks, l) + (if InTable(r.table, l) then 1 else 0)
    {
      ClonesAppend(s.tasks, Task(dest, k, Waiting), l);
      StartTable(s, dest, l);
      if l == |s.table.strong| {
        ClonesOfNew(s.tasks, l);
        assert !InTable(s.table, l);
      } else if l == k {
        assert dest in s.table.locks && InTable(s.table, l);
      }
    }
  }

  lemma {:induction false} StartShares(s: System, dest: string)
    requires Inv(s)
    ensures Shared(Next(s, Start(dest)))
  {
  }

  lemma {:induction false} StartKeeps(s: System, dest: string)
    requires Inv(s)
    ensures Inv(Next(s, Start(dest)))
  {
    StartCounts(s, dest);
    StartShares(s, dest);
  }

  lemma {:induction false} MoveKeepsCounts(s: System, i: nat, ph: Phase)
    requires WellFormed(s) && Counted(s) && i < |s.tasks| && s.tasks[i].phase != Gone && ph != Gone
    ensures Counted(Moved(s, i, ph))
  {
    forall l | 0 <= l < |s.table.strong|
      ensures Clones(s.tasks[i := s.tasks[i].(phase := ph)], l) == Clones(s.tasks, l)
    {
      ClonesUpdate(s.tasks, i, s.tasks[i].(phase := ph), l);
    }
  }

  lemma {:induction false} DropKeepsCounts(s: System, i: nat)
    requires WellFormed(s) && Counted(s) && i < |s.tasks| && s.tasks[i].phase != Gone
    ensures Counted(Moved(s, i, Gone).(table := Drop(s.table, s.tasks[i].lock)))
  {
    var r := Moved(s, i, Gone).(table := Drop(s.table, s.tasks[i].lock));
    forall l | 0 <= l < |s.table.strong|
      ensures r.table.strong[l] == Clones(r.tasks, l) + (if InTable(r.table, l) then 1 else 0)
    {
      ClonesUpdate(s.tasks, i, s.tasks[i].(phase := Gone), l);
      assert InTable(r.table, l) <==> InTable(s.table, l);
    }
  }

  /** A release removes the entry exactly when no other task holds a clone of the lock. */
  lemma {:induction false} ReleaseRemovesIffAlone(s: System, i: nat)
    requires Inv(s) && At(s, i, Leaving)
    ensures s.tasks[i].dest !in Next(s, Release(i)).table.locks
      <==> forall j :: 0 <= j < |s.tasks| && j != i ==> Holds(s.tasks[j], s.tasks[i].lock) == 0
  {
    var lock := s.tasks[i].lock;
    ClonesUpdate(s.tasks, i, s.tasks[i].(phase := Gone), lock);
    assert InTable(s.table, lock);
    if Clones(s.tasks, lock) > 1 {
      var j := OtherHolder(s.tasks, i);
      assert Holds(s.tasks[j], lock) == 1;
    }
    forall j | 0 <= j < |s.tasks| && j != i && Holds(s.tasks[j], lock) == 1
      ensures Clones(s.tasks, lock) >= 2
    {
      ClonesOfTwo(s.tasks, i, j, lock);
    }
  }

  lemma {:induction false} ReleaseKeepsCounts(s: System, i: nat)
    requires Inv(s) && At(s, i, Leaving)
    ensures Counted(Next(s, Release(i)))
  {
    var (r, lock, dest) := (Next(s, Release(i)), s.tasks[i].lock, s.tasks[i].dest);
    forall l | 0 <= l < |r.table.strong|
      ensures r.table.strong[l] == Clones(r.tasks, l) + (if InTable(r.table, l) then 1 else 0)
    {
      ClonesUpdate(s.tasks, i, s.tasks[i].(phase := Lingering), l);
      if r.table != s.table {
        assert InTable(s.table, lock);
        if l == lock {
          assert !InTable(r.table, l);
        } else if InTable(s.table, l) {
          var d :| d in s.table.locks && s.table.locks[d] == l;
          assert d in r.table.locks && r.table.locks[d] == l;
        } else {
          assert !InTable(r.table, l);
        }
      }
    }
  }

  lemma {:induction false} ReleaseKeepsSharing(s: System, i: nat)
    requires Inv(s) && At(s, i, Leaving)
    ensures Shared(Next(s, Release(i)))
  {
    var r := Next(s, Release(i));
    ReleaseRemovesIffAlone(s, i);
    if s.tasks[i].dest !in r.table.locks {
      forall j | 0 <= j < |s.tasks| && j != i && Working(s.tasks[j])
        ensures s.tasks[j].dest != s.tasks[i].dest
      {
        assert Holds(s.tasks[j], s.tasks[i].lock) == 0;
      }
    }
  }

  /** Moving a task on keeps the sharing: it works no more than before, and enters only a free lock. */
  lemma {:induction false} MoveShares(s: System, i: nat, ph: Phase)
    requires Shared(s) && i < |s.tasks| && (Working(s.tasks[i].(phase := ph)) ==> Working(s.tasks[i]))
    requires ph == Inside ==> Enabled(s, Acquire(i))
    ensures Shared(Moved(s, i, ph))
  {
  }

  lemma {:induction false} AcquireKeeps(s: System, i: nat)
    requires Inv(s) && Enabled(s, Acquire(i))
    ensures Inv(Next(s, Acquire(i)))
  {
    MoveKeepsCounts(s, i, Inside);
    MoveShares(s, i, Inside);
  }

  /** A task drops its clone and is gone. */
  lemma {:induction false} LeaveKeeps(s: System, i: nat)
    requires Inv(s) && i < |s.tasks| && s.tasks[i].phase != Gone
    ensures Inv(Moved(s, i, Gone).(table := Drop(s.table, s.tasks[i].lock)))
  {
    DropKeepsCounts(s, i);
    MoveShares(s, i, Gone);
  }

  lemma {:induction false} MoveKeeps(s: System, i: nat, ph: Phase)
    requires Inv(s) && i < |s.tasks| && s.tasks[i].phase == Inside && (ph == Leaving || ph == Lingering)
    ensures Inv(Moved(s, i, ph))
  {
    MoveKeepsCounts(s, i, ph);
    MoveShares(s, i, ph);
  }

  lemma {:induction false} InvKept(s: System, e: Event)
    requires Inv(s) && Enabled(s, e)
    ensures Inv(Next(s, e))
  {
    match e
    case Start(dest) => StartKeeps(s, dest);
    case Acquire(i) => AcquireKeeps(s, i);
    case Unlock(i) => MoveKeeps(s, i, Leaving);
    case Release(i) =>
      ReleaseKeepsCounts(s, i);
      ReleaseKeepsSharing(s, i);
    case DropClone(i) => LeaveKeeps(s, i);
    case Cancel(i) =>
      if s.tasks[i].phase == Inside {
        MoveKeeps(s, i, Lingering);
      } else {
        LeaveKeeps(s, i);
      }
  }

  lemma {:induction false} InvOnRun(s: System, es: seq<Event>)
    requires Inv(s) && EnabledRun(s, es)
    ensures Inv(Run(s, es))
    decreases |es|
  {
    if es != [] {
      InvKept(s, es[0]);
      InvOnRun(Next(s, es[0]), es[1..]);
    }
  }

  // ---- Over every run ----

  /** In every interleaving, at most one task is inside the critical section of a destination. */
  lemma {:induction false} MutualExclusion(es: seq<Event>, i: nat, j: nat)
    requires EnabledRun(INIT, es)
    requires At(Run(INIT, es), i, Inside) && At(Run(INIT, es), j, Inside)
    requires Run(INIT, es).tasks[i].dest == Run(INIT, es).tasks[j].dest
    ensures i == j
  {
    InvOnRun(INIT, es);
  }

  /** All tasks still working on a destination share one lock, the one in the table. */
  lemma {:induction false} OneLockPerDestination(es: seq<Event>, i: nat)
    requires EnabledRun(INIT, es)
    requires i < |Run(INIT, es).tasks| && Working(Run(INIT, es).tasks[i])
    ensures var s := Run(INIT, es);
      s.tasks[i].dest in s.table.locks && s.table.locks[s.tasks[i].dest] == s.tasks[i].lock
  {
    InvOnRun(INIT, es);
  }

  lemma {:induction false} Prepend(s: System, e: Event, es: seq<Event>)
    requires WellFormed(s) && Enabled(s, e) && EnabledRun(Next(s, e), es)
    ensures EnabledRun(s, [e] + es) && Run(s, [e] + es) == Run(Next(s, e), es)
  {
  }

  /** Two tasks on `d`: their phases and the table's count of their lock. */
  ghost function Two(d: string, first: Phase, second: Phase, clones: nat): (r: System) {
    System(Table(map[d := 0], [clones]), [Task(d, 0, first), Task(d, 0, second)])
  }

  lemma {:induction false} TwoStart(d: string, tail: seq<Event>)
    requires EnabledRun(Two(d, Waiting, Waiting, 3), tail)
    ensures var es := [Start(d)] + ([Start(d)] + tail);
      EnabledRun(INIT, es) && Run(INIT, es) == Run(Two(d, Waiting, Waiting, 3), tail)
  {
    var s1 := System(Table(map[d := 0], [2]), [Task(d, 0, Waiting)]);
    assert Next(INIT, Start(d)) == s1;
    assert Next(s1, Start(d)) == Two(d, Waiting, Waiting, 3);
    Prepend(s1, Start(d), tail);
    Prepend(INIT, Start(d), [Start(d)] + tail);
  }

  lemma {:induction false} FirstFinishes(d: string, tail: seq<Event>)
    requires EnabledRun(Two(d, Lingering, Waiting, 3), tail)
    ensures var es := [Acquire(0)] + ([Unlock(0)] + ([Release(0)] + tail));
      EnabledRun(Two(d, Waiting, Waiting, 3), es)
      && Run(Two(d, Waiting, Waiting, 3), es) == Run(Two(d, Lingering, Waiting, 3), tail)
  {
    assert Next(Two(d, Waiting, Waiting, 3), Acquire(0)) == Two(d, Inside, Waiting, 3);
    assert Next(Two(d, Inside, Waiting, 3), Unlock(0)) == Two(d, Leaving, Waiting, 3);
    assert Next(Two(d, Leaving, Waiting, 3), Release(0)) == Two(d, Lingering, Waiting, 3);
    Prepend(Two(d, Leaving, Waiting, 3), Release(0), tail);
    Prepend(Two(d, Inside, Waiting, 3), Unlock(0), [Release(0)] + tail);
    Prepend(Two(d, Waiting, Waiting, 3), Acquire(0), [Unlock(0)] + ([Release(0)] + tail));
  }

  lemma {:induction false} SecondFinishes(d: string, tail: seq<Event>)
    requires EnabledRun(Two(d, Lingering, Lingering, 3), tail)
    ensures var es := [Acquire(1)] + ([Unlock(1)] + ([Release(1)] + tail));
      EnabledRun(Two(d, Lingering, Waiting, 3), es)
      && Run(Two(d, Lingering, Waiting, 3), es) == Run(Two(d, Lingering, Lingering, 3), tail)
  {
    assert Next(Two(d, Lingering, Waiting, 3), Acquire(1)) == Two(d, Lingering, Inside, 3);
    assert Next(Two(d, Lingering, Inside, 3), Unlock(1)) == Two(d, Lingering, Leaving, 3);
    assert Next(Two(d, Lingering, Leaving, 3), Release(1)) == Two(d, Lingering, Lingering, 3);
    Prepend(Two(d, Lingering, Leaving, 3), Release(1), tail);
    Prepend(Two(d, Lingering, Inside, 3), Unlock(1), [Release(1)] + tail);
    Prepend(Two(d, Lingering, Waiting, 3), Acquire(1), [Unlock(1)] + ([Release(1)] + tail));
  }

  lemma {:induction false} BothDrop(d: string)
    ensures var es := [DropClone(0), DropClone(1)];
      && EnabledRun(Two(d, Lingering, Lingering, 3), es)
      && Run(Two(d, Lingering, Lingering, 3), es) == Two(d, Gone, Gone, 1)
  {
  }

  /**
    The table can keep an entry nobody holds: when a second task releases before the
    first has dropped its clone, neither of them removes it.
  */
  lemma {:induction false} EntryCanBeLeft(d: string) returns (es: seq<Event>)
    ensures EnabledRun(INIT, es)
    ensures var s := Run(INIT, es);
      d in s.table.locks && forall i :: 0 <= i < |s.tasks| ==> s.tasks[i].phase == Gone
  {
    es := [DropClone(0), DropClone(1)];
    BothDrop(d);
    SecondFinishes(d, es);
    es := [Acquire(1)] + ([Unlock(1)] + ([Release(1)] + es));
    FirstFinishes(d, es);
    es := [Acquire(0)] + ([Unlock(0)] + ([Release(0)] + es));
    TwoStart(d, es);
    es := [Start(d)] + ([Start(d)] + es);
  }

  /** A cancelled download leaves its entry: it drops its clone and makes no release at all. */
  lemma {:induction false} CancelledTaskLeavesEntry(d: string)
    ensures EnabledRun(INIT, [Start(d), Cancel(0)])
    ensures var s := Run(INIT, [Start(d), Cancel(0)]);
      d in s.table.locks && forall i :: 0 <= i < |s.tasks| ==> s.tasks[i].phase == Gone
  {
    var s1 := System(Table(map[d := 0], [2]), [Task(d, 0, Waiting)]);
    assert Next(INIT, Start(d)) == s1;
    Prepend(s1, Cancel(0), []);
    Prepend(INIT, Start(d), [Cancel(0)]);
    assert [Start(d)] + [Cancel(0)] == [Start(d), Cancel(0)] && [Cancel(0)] + [] == [Cancel(0)];
  }

  // ---- Exactly which entries are left ----

  /** Nobody but task `i` holds a clone of its lock. */
  predicate Alone(s: System, i: nat)
    requires i < |s.tasks|
  {
    forall j :: 0 <= j < |s.tasks| && j != i ==> Holds(s.tasks[j], s.tasks[i].lock) == 0
  }

  /** The step is a release of `lock` by its only holder. */
  ghost predicate AloneRelease(s: System, e: Event, lock: nat)
    requires WellFormed(s) && Enabled(s, e)
  {
    e.Release? && s.tasks[e.i].lock == lock && Alone(s, e.i)
  }

  /** Somewhere in the run `lock` is released by its only holder. */
  ghost predicate ReleasedAlone(s: System, es: seq<Event>, lock: nat)
    requires WellFormed(s) && EnabledRun(s, es)
    decreases |es|
  {
    es != [] && (AloneRelease(s, es[0], lock) || ReleasedAlone(Next(s, es[0]), es[1..], lock))
  }

  lemma {:induction false} ReleaseEntries(s: System, i: nat, lock: nat)
    requires Inv(s) && At(s, i, Leaving)
    ensures InTable(Next(s, Release(i)).table, lock)
      <==> InTable(s.table, lock) && !AloneRelease(s, Release(i), lock)
  {
    var (r, dest) := (Next(s, Release(i)), s.tasks[i].dest);
    ReleaseRemovesIffAlone(s, i);
    if InTable(s.table, lock) {
      var d :| d in s.table.locks && s.table.locks[d] == lock;
      assert d in r.table.locks ==> r.table.locks[d] == lock;
    }
    assert s.table.locks[dest] == s.tasks[i].lock;
  }

  /** A step makes the entries of new locks, and removes those released by their only holder. */
  lemma {:induction false} StepEntries(s: System, e: Event, lock: nat)
    requires Inv(s) && Enabled(s, e) && lock < |Next(s, e).table.strong|
    ensures |s.table.strong| <= |Next(s, e).table.strong|
    ensures InTable(Next(s, e).table, lock)
      <==> (lock >= |s.table.strong| || InTable(s.table, lock)) && !AloneRelease(s, e, lock)
  {
    if e.Start? {
      StartTable(s, e.dest, lock);
      if lock == LockOf(s.table, e.dest) && lock < |s.table.strong| {
        assert e.dest in s.table.locks && s.table.locks[e.dest] == lock;
      }
    } else if e.Release? {
      ReleaseEntries(s, e.i, lock);
    } else {
      assert Next(s, e).table.locks == s.table.locks;
    }
  }

  lemma {:induction false} EntriesOnRun(s: System, es: seq<Event>, lock: nat)
    requires Inv(s) && EnabledRun(s, es) && lock < |Run(s, es).table.strong|
    ensures InTable(Run(s, es).table, lock)
      <==> (lock >= |s.table.strong| || InTable(s.table, lock)) && !ReleasedAlone(s, es, lock)
    decreases |es|
  {
    if es != [] {
      var r := Next(s, es[0]);
      InvKept(s, es[0]);
      EntriesOnRun(r, es[1..], lock);
      if lock < |r.table.strong| {
        StepEntries(s, es[0], lock);
      } else {
        NotYetMade(s, es[0], lock);
      }
    }
  }

  lemma {:induction false} NotYetMade(s: System, e: Event, lock: nat)
    requires WellFormed(s) && Enabled(s, e) && lock >= |Next(s, e).table.strong|
    ensures lock >= |s.table.strong| && !AloneRelease(s, e, lock)
  {
  }

  /**
    In every run, a lock's entry is in the table exactly when no task that alone held
    the lock has released it: then it is left there, even with all its holders gone.
  */
  lemma {:induction false} EntryLeftIff(es: seq<Event>, lock: nat)
    requires EnabledRun(INIT, es) && lock < |Run(INIT, es).table.strong|
    ensures InTable(Run(INIT, es).table, lock) <==> !ReleasedAlone(INIT, es, lock)
  {
    EntriesOnRun(INIT, es, lock);
  }
}
