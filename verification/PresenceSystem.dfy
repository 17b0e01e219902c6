/**
  Everything that happens around the queue at once: calls from the game, tasks about
  to schedule a flush, an armed timer, and flushes, interleaved at every lock.
*/
module PresenceSystem {
  import opened Wrappers
  import opened PresenceModel

  /**
    Where a task is. `InRound` still has `groups` to go through in this round; `Checking`
    has its answer and looks whether anything is pending, and if so pauses.
  */
  datatype Task =
    | AboutToSchedule
    | Sleeping
    | AboutToFlush
    | LoopHead
    | InRound(groups: seq<Group>, didWork: bool)
    | Querying(batch: seq<Uuid>, groups: seq<Group>)
    | Checking(groups: seq<Group>)
    | Pausing(groups: seq<Group>)
    | Ending
    | Done

  datatype System = System(pending: seq<Waiting>, cache: Cache, flushing: bool, timer: bool, tasks: seq<Task>)

  const INIT := System([], map[], false, false, [])

  /** `Schedule` says whether an async runtime is at hand, `TakeBatch` whether the owner has a session. */
  datatype Event =
    | Visible(owner: Uuid, raw: seq<Option<Uuid>>, now: int)
    | Schedule(i: nat, runtime: bool)
    | Fire(i: nat)
    | Begin(i: nat)
    | Look(i: nat)
    | TakeBatch(i: nat, known: bool)
    | Answer(i: nat, answer: Option<seq<Player>>, now: int, later: int)
    | Check(i: nat)
    | Wake(i: nat)
    | EndRound(i: nat)
    | Finish(i: nat)

  predicate Enabled(s: System, e: Event) {
    if e.Visible? then true
    else if e.i >= |s.tasks| then false
    else
      var t := s.tasks[e.i];
      match e
      case Visible(_, _, _) => true
      case Schedule(_, _) => t.AboutToSchedule?
      case Fire(_) => t.Sleeping?
      case Begin(_) => t.AboutToFlush?
      case Look(_) => t.LoopHead?
      case TakeBatch(_, _) => t.InRound? && t.groups != []
      case Answer(_, _, _, _) => t.Querying?
      case Check(_) => t.Checking?
      case Wake(_) => t.Pausing?
      case EndRound(_) => t.InRound? && t.groups == []
      case Finish(_) => t.Ending?
  }

  function To(s: System, i: nat, t: Task): (r: System)
    requires i < |s.tasks|
  {
    s.(tasks := s.tasks[i := t])
  }

  function Called(s: System, owner: Uuid, raw: seq<Option<Uuid>>, now: int): (r: System) {
    var us := Asked(First(raw));
    System(Queued(s.pending, s.cache, us, owner, now), s.cache - Stale(s.cache, us, now), s.flushing, s.timer,
           if Queues(s.cache, us, owner, now) then s.tasks + [AboutToSchedule] else s.tasks)
  }

  function Scheduled(s: System, i: nat, runtime: bool): (r: System)
    requires i < |s.tasks|
  {
    if s.flushing || s.timer || s.pending == [] || !runtime then To(s, i, Done)
    else To(s, i, Sleeping).(timer := true)
  }

  function Taken(s: System, i: nat, known: bool): (r: System)
    requires i < |s.tasks| && s.tasks[i].InRound? && s.tasks[i].groups != []
  {
    var (g, rest) := (s.tasks[i].groups[0], s.tasks[i].groups[1..]);
    To(s, i, if known then Querying(Batch(g.uuids), rest) else InRound(rest, s.tasks[i].didWork))
      .(pending := RemoveAll(s.pending, Batch(g.uuids), g.owner))
  }

  function Next(s: System, e: Event): (r: System)
    requires Enabled(s, e)
  {
    match e
    case Visible(owner, raw, now) => Called(s, owner, raw, now)
    case Schedule(i, runtime) => Scheduled(s, i, runtime)
    case Fire(i) => To(s, i, AboutToFlush).(timer := false)
    case Begin(i) => if s.flushing then To(s, i, Done) else To(s, i, LoopHead).(flushing := true)
    case Look(i) => To(s, i, if s.pending == [] then Ending else InRound(ByOwner(s.pending), false))
    case TakeBatch(i, known) => Taken(s, i, known)
    case Answer(i, answer, now, later) =>
      To(s, i, Checking(s.tasks[i].groups)).(cache := Answered(s.cache, s.tasks[i].batch, answer, now, later))
    case Check(i) => To(s, i, if s.pending == [] then InRound(s.tasks[i].groups, true) else Pausing(s.tasks[i].groups))
    case Wake(i) => To(s, i, InRound(s.tasks[i].groups, true))
    case EndRound(i) => To(s, i, if s.tasks[i].didWork then LoopHead else Ending)
    case Finish(i) => To(s, i, if s.pending == [] then Done else AboutToSchedule).(flushing := false)
  }

  predicate EnabledRun(s: System, es: seq<Event>)
    decreases |es|
  {
    es == [] || (Enabled(s, es[0]) && EnabledRun(Next(s, es[0]), es[1..]))
  }

  function Run(s: System, es: seq<Event>): (r: System)
    requires EnabledRun(s, es)
    decreases |es|
  {
    if es == [] then s else Run(Next(s, es[0]), es[1..])
  }

  // ---- Invariant ----

  /** The task has groups of its round left. */
  predicate WithGroups(t: Task) { t.InRound? || t.Querying? || t.Checking? || t.Pausing? }

  predicate InFlush(t: Task) { t.LoopHead? || WithGroups(t) || t.Ending? }

  /** The groups a round still has to take are all pending. */
  predicate GroupsPending(p: seq<Waiting>, t: Task) {
    WithGroups(t) ==> Separate(t.groups) && forall i :: 0 <= i < |t.groups| ==> AllPending(p, t.groups[i])
  }

  /** The flag is up exactly while one task flushes, and a task sleeps while the timer is armed. */
  predicate Sound(s: System) {
    && PresenceModel.WellFormed(s.pending)
    && (forall i :: 0 <= i < |s.tasks| ==> GroupsPending(s.pending, s.tasks[i]))
    && (forall i :: 0 <= i < |s.tasks| && InFlush(s.tasks[i]) ==> s.flushing)
    && (forall i, j :: 0 <= i < j < |s.tasks| ==> !(InFlush(s.tasks[i]) && InFlush(s.tasks[j])))
    && (s.flushing ==> exists i :: 0 <= i < |s.tasks| && InFlush(s.tasks[i]))
    && (s.timer ==> exists i :: 0 <= i < |s.tasks| && s.tasks[i].Sleeping?)
  }

  predicate Coming(t: Task) { t.AboutToSchedule? || t.AboutToFlush? }

  /** Pending pairs have a flush running, a timer armed, or a task about to see to them. */
  predicate Served(s: System) {
    s.pending != [] ==> s.flushing || s.timer || exists i :: 0 <= i < |s.tasks| && Coming(s.tasks[i])
  }

  predicate Quiet(es: seq<Event>) { forall k :: 0 <= k < |es| ==> !es[k].Visible? }

  predicate WithRuntime(es: seq<Event>) { forall k :: 0 <= k < |es| ==> es[k].Schedule? ==> es[k].runtime }

  // ---- One step keeps the invariant ----

  lemma {:induction false} MorePending(s: System, p: seq<Waiting>)
    requires Sound(s) && forall u, o :: Has(s.pending, u, o) ==> Has(p, u, o)
    ensures forall i :: 0 <= i < |s.tasks| ==> GroupsPending(p, s.tasks[i])
  {
  }

  lemma {:induction false} CallIsSound(s: System, owner: Uuid, raw: seq<Option<Uuid>>, now: int)
    requires Sound(s)
    ensures Sound(Called(s, owner, raw, now))
    ensures forall u, o ::
      (Has(Called(s, owner, raw, now).pending, u, o)
       <==> Has(s.pending, u, o) || (owner != "" && o == owner && u in Asked(First(raw)) && !Fresh(s.cache, u, now)))
  {
    var (r, us) := (Called(s, owner, raw, now), Asked(First(raw)));
    forall u, o
      ensures PresenceModel.WellFormed(r.pending)
      ensures Has(r.pending, u, o)
        <==> Has(s.pending, u, o) || (owner != "" && o == owner && u in us && !Fresh(s.cache, u, now))
    {
      QueuedHas(s.pending, s.cache, us, owner, now, u, o);
    }
    QueuedHas(s.pending, s.cache, us, owner, now, "", "");
    MorePending(s, r.pending);
    CalledSound(s, r);
  }

  lemma {:induction false} CallKeeps(s: System, owner: Uuid, raw: seq<Option<Uuid>>, now: int)
    requires Sound(s) && Served(s)
    ensures Sound(Called(s, owner, raw, now)) && Served(Called(s, owner, raw, now))
  {
    var (r, us) := (Called(s, owner, raw, now), Asked(First(raw)));
    CallIsSound(s, owner, raw, now);
    if r.pending != [] && !Queues(s.cache, us, owner, now) {
      var (u, o) := (r.pending[0].uuid, r.pending[0].owners[0]);
      assert Has(r.pending, u, o);
      assert Has(s.pending, u, o);
      assert r.tasks == s.tasks;
    } else if r.pending != [] {
      assert Coming(r.tasks[|s.tasks|]);
    }
    ServedAfterCall(s, r);
  }

  lemma {:induction false} CalledSound(s: System, r: System)
    requires Sound(s) && PresenceModel.WellFormed(r.pending)
    requires forall i :: 0 <= i < |s.tasks| ==> GroupsPending(r.pending, s.tasks[i])
    requires r.flushing == s.flushing && r.timer == s.timer
    requires r.tasks == s.tasks || r.tasks == s.tasks + [AboutToSchedule]
    ensures Sound(r)
  {
    if s.flushing {
      var i :| 0 <= i < |s.tasks| && InFlush(s.tasks[i]);
      assert InFlush(r.tasks[i]);
    }
    if s.timer {
      var i :| 0 <= i < |s.tasks| && s.tasks[i].Sleeping?;
      assert r.tasks[i].Sleeping?;
    }
  }

  lemma {:induction false} ServedAfterCall(s: System, r: System)
    requires Served(s) && r.flushing == s.flushing && r.timer == s.timer
    requires (r.tasks == s.tasks && (r.pending != [] ==> s.pending != [])) || r.tasks == s.tasks + [AboutToSchedule]
    ensures Served(r)
  {
    if r.tasks == s.tasks + [AboutToSchedule] {
      assert Coming(r.tasks[|s.tasks|]);
    }
  }

  /** A step of one task that moves neither the queue nor who is flushing or asleep. */
  lemma {:induction false} StepKeeps(s: System, i: nat, t: Task)
    requires Sound(s) && i < |s.tasks| && InFlush(s.tasks[i]) == InFlush(t) && (s.tasks[i].Sleeping? ==> t.Sleeping?)
    requires GroupsPending(s.pending, t)
    ensures Sound(To(s, i, t))
  {
    var r := To(s, i, t);
    if s.flushing {
      var k :| 0 <= k < |s.tasks| && InFlush(s.tasks[k]);
      assert InFlush(r.tasks[k]);
    }
    if s.timer {
      var k :| 0 <= k < |s.tasks| && s.tasks[k].Sleeping?;
      assert r.tasks[k].Sleeping?;
    }
  }

  lemma {:induction false} MoveOnKeeps(s: System, i: nat, t: Task)
    requires Sound(s) && i < |s.tasks| && WithGroups(s.tasks[i]) && WithGroups(t) && t.groups == s.tasks[i].groups
    ensures Sound(To(s, i, t))
  {
    assert GroupsPending(s.pending, s.tasks[i]);
    StepKeeps(s, i, t);
  }

  lemma {:induction false} ScheduleKeeps(s: System, i: nat, runtime: bool)
    requires Sound(s) && i < |s.tasks| && s.tasks[i].AboutToSchedule?
    ensures Sound(Scheduled(s, i, runtime))
  {
    StepKeeps(s, i, Done);
    StepKeeps(s, i, Sleeping);
    assert To(s, i, Sleeping).tasks[i].Sleeping?;
  }

  lemma {:induction false} FireKeeps(s: System, i: nat)
    requires Sound(s) && Served(s) && i < |s.tasks| && s.tasks[i].Sleeping?
    ensures Sound(Next(s, Fire(i))) && Served(Next(s, Fire(i)))
  {
    var r := Next(s, Fire(i));
    assert Coming(r.tasks[i]);
    if s.flushing {
      var k :| 0 <= k < |s.tasks| && InFlush(s.tasks[k]);
      assert InFlush(r.tasks[k]);
    }
  }

  lemma {:induction false} BeginKeeps(s: System, i: nat)
    requires Sound(s) && i < |s.tasks| && s.tasks[i].AboutToFlush?
    ensures Sound(Next(s, Begin(i))) && Served(Next(s, Begin(i)))
  {
    var r := Next(s, Begin(i));
    if s.flushing {
      StepKeeps(s, i, Done);
    } else {
      assert InFlush(r.tasks[i]);
      if s.timer {
        var k :| 0 <= k < |s.tasks| && s.tasks[k].Sleeping?;
        assert r.tasks[k].Sleeping?;
      }
    }
  }

  lemma {:induction false} LookKeeps(s: System, i: nat)
    requires Sound(s) && i < |s.tasks| && s.tasks[i].LoopHead?
    ensures Sound(Next(s, Look(i)))
  {
    if s.pending == [] {
      StepKeeps(s, i, Ending);
    } else {
      GroupsFit(s.pending);
      StepKeeps(s, i, InRound(ByOwner(s.pending), false));
    }
  }

  /** Taking the first group's batch leaves the other groups pending, and the queue shorter. */
  lemma {:induction false} TakeLeaves(p: seq<Waiting>, gs: seq<Group>)
    requires PresenceModel.WellFormed(p) && gs != [] && Separate(gs)
    requires forall i :: 0 <= i < |gs| ==> AllPending(p, gs[i])
    ensures var r := RemoveAll(p, Batch(gs[0].uuids), gs[0].owner);
      && PresenceModel.WellFormed(r) && Size(r) < Size(p)
      && Separate(gs[1..])
      && forall i :: 0 <= i < |gs[1..]| ==> AllPending(r, gs[1..][i])
  {
    var (batch, owner) := (Batch(gs[0].uuids), gs[0].owner);
    assert Has(p, batch[0], owner) by {
      assert AllPending(p, gs[0]) && batch[0] == gs[0].uuids[0];
    }
    RemoveAllSize(p, batch, owner);
    RemoveAllHas(p, batch, owner, "", "");
    forall i, k | 0 <= i < |gs[1..]| && 0 <= k < |gs[1..][i].uuids|
      ensures Has(RemoveAll(p, batch, owner), gs[1..][i].uuids[k], gs[1..][i].owner)
    {
      assert AllPending(p, gs[i + 1]);
      RemoveAllHas(p, batch, owner, gs[1..][i].uuids[k], gs[1..][i].owner);
    }
  }

  lemma {:induction false} TakeKeeps(s: System, i: nat, known: bool)
    requires Sound(s) && i < |s.tasks| && s.tasks[i].InRound? && s.tasks[i].groups != []
    ensures Sound(Taken(s, i, known)) && Size(Taken(s, i, known).pending) < Size(s.pending)
  {
    var (r, gs) := (Taken(s, i, known), s.tasks[i].groups);
    assert GroupsPending(s.pending, s.tasks[i]);
    TakeLeaves(s.pending, gs);
    forall k | 0 <= k < |r.tasks|
      ensures GroupsPending(r.pending, r.tasks[k])
    {
      assert k != i ==> !InFlush(s.tasks[k]);
    }
    assert InFlush(r.tasks[i]);
    if s.timer {
      var k :| 0 <= k < |s.tasks| && s.tasks[k].Sleeping?;
      assert r.tasks[k].Sleeping?;
    }
  }

  lemma {:induction false} FinishKeeps(s: System, i: nat)
    requires Sound(s) && i < |s.tasks| && s.tasks[i].Ending?
    ensures Sound(Next(s, Finish(i))) && Served(Next(s, Finish(i)))
  {
    var r := Next(s, Finish(i));
    if s.pending != [] {
      assert Coming(r.tasks[i]);
    }
    if s.timer {
      var k :| 0 <= k < |s.tasks| && s.tasks[k].Sleeping?;
      assert r.tasks[k].Sleeping?;
    }
  }

  lemma {:induction false} SoundKept(s: System, e: Event)
    requires Sound(s) && Enabled(s, e) && !e.Visible?
    ensures Sound(Next(s, e))
  {
    match e
    case Visible(_, _, _) =>
    case Schedule(i, runtime) => ScheduleKeeps(s, i, runtime);
    case Fire(i) => FireSound(s, i);
    case Begin(i) => BeginKeeps(s, i);
    case Look(i) => LookKeeps(s, i);
    case TakeBatch(i, known) => TakeKeeps(s, i, known);
    case Answer(i, _, _, _) => MoveOnKeeps(s, i, Checking(s.tasks[i].groups));
    case Check(i) =>
      MoveOnKeeps(s, i, InRound(s.tasks[i].groups, true));
      MoveOnKeeps(s, i, Pausing(s.tasks[i].groups));
    case Wake(i) => MoveOnKeeps(s, i, InRound(s.tasks[i].groups, true));
    case EndRound(i) =>
      StepKeeps(s, i, LoopHead);
      StepKeeps(s, i, Ending);
    case Finish(i) => FinishKeeps(s, i);
  }

  lemma {:induction false} FireSound(s: System, i: nat)
    requires Sound(s) && i < |s.tasks| && s.tasks[i].Sleeping?
    ensures Sound(Next(s, Fire(i)))
  {
    if s.flushing {
      var k :| 0 <= k < |s.tasks| && InFlush(s.tasks[k]);
      assert InFlush(Next(s, Fire(i)).tasks[k]);
    }
  }

  /**
    Scheduling leaves the pending pairs without anyone coming for them exactly when no
    runtime is at hand and nothing else was.
  */
  lemma {:induction false} ScheduleServesIff(s: System, i: nat, runtime: bool)
    requires Sound(s) && Enabled(s, Schedule(i, runtime))
    ensures Served(Next(s, Schedule(i, runtime)))
      <==> (runtime || s.pending == [] || s.flushing || s.timer
            || exists j :: 0 <= j < |s.tasks| && j != i && Coming(s.tasks[j]))
  {
    var r := Next(s, Schedule(i, runtime));
    forall j | 0 <= j < |s.tasks| && j != i
      ensures r.tasks[j] == s.tasks[j]
    {
    }
    if exists j :: 0 <= j < |s.tasks| && j != i && Coming(s.tasks[j]) {
      var j :| 0 <= j < |s.tasks| && j != i && Coming(s.tasks[j]);
      assert Coming(r.tasks[j]);
    }
    if exists j :: 0 <= j < |r.tasks| && Coming(r.tasks[j]) {
      var j :| 0 <= j < |r.tasks| && Coming(r.tasks[j]);
      assert j != i && Coming(s.tasks[j]);
    }
  }

  lemma {:induction false} InvKept(s: System, e: Event)
    requires Sound(s) && Served(s) && Enabled(s, e) && (e.Schedule? ==> e.runtime)
    ensures Sound(Next(s, e)) && Served(Next(s, e))
  {
    if e.Visible? {
      CallKeeps(s, e.owner, e.raw, e.now);
    } else {
      SoundKept(s, e);
      if e.Schedule? {
        ScheduleServesIff(s, e.i, true);
      } else if e.Fire? {
        FireKeeps(s, e.i);
      } else if e.Begin? {
        BeginKeeps(s, e.i);
      } else if e.Finish? {
        FinishKeeps(s, e.i);
      } else {
        assert InFlush(s.tasks[e.i]) && s.flushing;
      }
    }
  }

  lemma {:induction false} InvOnRun(s: System, es: seq<Event>)
    requires Sound(s) && Served(s) && EnabledRun(s, es) && WithRuntime(es)
    ensures Sound(Run(s, es)) && Served(Run(s, es))
    decreases |es|
  {
    if es != [] {
      InvKept(s, es[0]);
      InvOnRun(Next(s, es[0]), es[1..]);
    }
  }

  /** In every interleaving, a pending pair is never left with nobody coming for it. */
  lemma {:induction false} NeverStranded(es: seq<Event>)
    requires EnabledRun(INIT, es) && WithRuntime(es) && Run(INIT, es).pending != []
    ensures var s := Run(INIT, es);
      exists i :: 0 <= i < |s.tasks| && (InFlush(s.tasks[i]) || s.tasks[i].Sleeping? || Coming(s.tasks[i]))
  {
    InvOnRun(INIT, es);
    var s := Run(INIT, es);
    if s.flushing {
      var i :| 0 <= i < |s.tasks| && InFlush(s.tasks[i]);
      assert InFlush(s.tasks[i]);
    } else if s.timer {
      var i :| 0 <= i < |s.tasks| && s.tasks[i].Sleeping?;
      assert s.tasks[i].Sleeping?;
    }
  }

  // ---- Without new calls everything ends, with the queue empty ----

  function Weight(t: Task, empty: bool): (w: nat)
    ensures w <= 11
  {
    match t
    case Done => 0
    case Ending => if empty then 1 else 7
    case LoopHead => 3
    case AboutToFlush => 4
    case Sleeping => 5
    case AboutToSchedule => 6
    case InRound(groups, _) => if groups == [] then 8 else 2
    case Querying(_, _) => 11
    case Checking(_) => 10
    case Pausing(_) => 9
  }

  function Weights(ts: seq<Task>, empty: bool): (w: nat)
    ensures w <= 11 * |ts|
  {
    if ts == [] then 0 else Weight(ts[0], empty) + Weights(ts[1..], empty)
  }

  /** One pair outweighs all that `k` can weigh. */
  function Total(pairs: nat, k: nat, weight: nat): (r: nat) { pairs * (k + 1) + weight }

  /** No run without calls is longer than this. */
  function Measure(s: System): (r: nat) {
    Total(Size(s.pending), 11 * |s.tasks|, Weights(s.tasks, s.pending == []))
  }

  lemma {:induction false} WeightsUpdate(ts: seq<Task>, i: nat, t: Task, empty: bool)
    requires i < |ts|
    ensures Weights(ts[i := t], empty) + Weight(ts[i], empty) == Weights(ts, empty) + Weight(t, empty)
  {
    if i == 0 {
      assert ts[i := t][1..] == ts[1..];
    } else {
      WeightsUpdate(ts[1..], i - 1, t, empty);
      assert ts[i := t][1..] == ts[1..][i - 1 := t];
    }
  }

  lemma {:induction false} Smaller(a: nat, b: nat, k: nat, v: nat, w: nat)
    requires a < b && v <= k
    ensures Total(a, k, v) < Total(b, k, w)
  {
    var d := b - a;
    assert b * (k + 1) == a * (k + 1) + d * (k + 1);
    assert d * (k + 1) == (d - 1) * (k + 1) + (k + 1);
    assert (d - 1) * (k + 1) >= 0;
  }

  lemma {:induction false} TakeDecreases(s: System, i: nat, known: bool)
    requires Sound(s) && Enabled(s, TakeBatch(i, known))
    ensures Measure(Taken(s, i, known)) < Measure(s)
  {
    var r := Taken(s, i, known);
    TakeKeeps(s, i, known);
    Smaller(Size(r.pending), Size(s.pending), 11 * |s.tasks|,
            Weights(r.tasks, r.pending == []), Weights(s.tasks, s.pending == []));
  }

  /** A step of one task that leaves the queue alone makes that task lighter. */
  lemma {:induction false} MoveDecreases(s: System, r: System, i: nat)
    requires i < |s.tasks| && |r.tasks| == |s.tasks| && r.pending == s.pending && r.tasks == s.tasks[i := r.tasks[i]]
    requires Weight(r.tasks[i], s.pending == []) < Weight(s.tasks[i], s.pending == [])
    ensures Measure(r) < Measure(s)
  {
    WeightsUpdate(s.tasks, i, r.tasks[i], s.pending == []);
  }

  lemma {:induction false} StepLightens(s: System, e: Event)
    requires Sound(s) && Enabled(s, e) && !e.Visible? && !e.TakeBatch?
    ensures var r := Next(s, e);
      && |r.tasks| == |s.tasks| && r.pending == s.pending && r.tasks == s.tasks[e.i := r.tasks[e.i]]
      && Weight(r.tasks[e.i], s.pending == []) < Weight(s.tasks[e.i], s.pending == [])
  {
  }

  lemma {:induction false} StepDecreases(s: System, e: Event)
    requires Sound(s) && Enabled(s, e) && !e.Visible?
    ensures Measure(Next(s, e)) < Measure(s)
  {
    if e.TakeBatch? {
      TakeDecreases(s, e.i, e.known);
    } else {
      StepLightens(s, e);
      MoveDecreases(s, Next(s, e), e.i);
    }
  }

  /** However the tasks interleave, a run without new calls is bounded by the pairs and tasks it starts with. */
  lemma {:induction false} QuietRunsEnd(s: System, es: seq<Event>)
    requires Sound(s) && EnabledRun(s, es) && Quiet(es)
    ensures |es| + Measure(Run(s, es)) <= Measure(s)
    decreases |es|
  {
    if es != [] {
      StepDecreases(s, es[0]);
      SoundKept(s, es[0]);
      QuietRunsEnd(Next(s, es[0]), es[1..]);
    }
  }

  predicate Settled(s: System) { forall i :: 0 <= i < |s.tasks| ==> s.tasks[i].Done? }

  lemma {:induction false} StepOf(t: Task, i: nat) returns (e: Event)
    requires !t.Done?
    ensures !e.Visible? && e.i == i && (e.Schedule? ==> e.runtime)
    ensures forall s: System :: i < |s.tasks| && s.tasks[i] == t ==> Enabled(s, e)
  {
    match t
    case AboutToSchedule => e := Schedule(i, true);
    case Sleeping => e := Fire(i);
    case AboutToFlush => e := Begin(i);
    case LoopHead => e := Look(i);
    case InRound(groups, _) => e := if groups == [] then EndRound(i) else TakeBatch(i, true);
    case Querying(_, _) => e := Answer(i, None, 0, 0);
    case Checking(_) => e := Check(i);
    case Pausing(_) => e := Wake(i);
    case Ending => e := Finish(i);
    case Done =>
  }

  /** From every state a run without new calls settles all tasks, and the queue is empty then. */
  lemma {:induction false} AlwaysDrains(s: System) returns (es: seq<Event>)
    requires Sound(s) && Served(s)
    ensures EnabledRun(s, es) && Quiet(es) && Settled(Run(s, es)) && Run(s, es).pending == []
    decreases Measure(s)
  {
    if Settled(s) {
      es := [];
    } else {
      var i :| 0 <= i < |s.tasks| && !s.tasks[i].Done?;
      var e := StepOf(s.tasks[i], i);
      InvKept(s, e);
      StepDecreases(s, e);
      var rest := AlwaysDrains(Next(s, e));
      es := [e] + rest;
      assert es[1..] == rest;
    }
  }

  /** Whenever all tasks have settled, whatever order they ran in, nothing is pending. */
  lemma {:induction false} NothingLeftBehind(es: seq<Event>)
    requires EnabledRun(INIT, es) && WithRuntime(es) && Settled(Run(INIT, es))
    ensures Run(INIT, es).pending == []
  {
    if Run(INIT, es).pending != [] {
      NeverStranded(es);
    }
  }

  /** One call for one player, in the state at the start. */
  function CalledOnce(owner: Uuid, u: Uuid): (s: System) {
    System([Waiting(u, [owner])], map[], false, false, [AboutToSchedule])
  }

  lemma {:induction false} AskedOnce(raw: seq<Option<Uuid>>, u: Uuid)
    requires raw == [Some(u)]
    ensures Asked(First(raw)) == [u]
  {
    AskedSeen([u]);
    assert Seen([u]) == raw;
  }

  lemma {:induction false} FirstCall(owner: Uuid, u: Uuid, now: int)
    requires owner != ""
    ensures Called(INIT, owner, [Some(u)], now) == CalledOnce(owner, u)
  {
    AskedOnce([Some(u)], u);
    QueuedOnce(owner, u, now);
    assert [] + [AboutToSchedule] == [AboutToSchedule];
  }

  lemma {:induction false} QueuedOnce(owner: Uuid, u: Uuid, now: int)
    requires owner != ""
    ensures Queued([], map[], [u], owner, now) == [Waiting(u, [owner])]
    ensures Queues(INIT.cache, [u], owner, now) && INIT.cache - Stale(INIT.cache, [u], now) == INIT.cache
  {
    OneCallQueues([u], owner, now);
    assert OneEach([u], owner) == [Waiting(u, [owner])];
    assert !Fresh(map[], [u][0], now);
  }

  lemma {:induction false} Prepend(s: System, e: Event, es: seq<Event>)
    requires Enabled(s, e) && EnabledRun(Next(s, e), es)
    ensures EnabledRun(s, [e] + es) && Run(s, [e] + es) == Run(Next(s, e), es)
  {
    assert ([e] + es)[1..] == es;
  }

  /** A call made outside the runtime, with nothing else under way, leaves its pair with nobody coming for it. */
  lemma {:induction false} StrandedOutsideRuntime(owner: Uuid, u: Uuid, now: int)
    requires owner != ""
    ensures var es := [Visible(owner, [Some(u)], now)] + ([Schedule(0, false)] + []);
      && EnabledRun(INIT, es) && Run(INIT, es) == CalledOnce(owner, u).(tasks := [Done])
      && Settled(Run(INIT, es)) && !Served(Run(INIT, es))
  {
    FirstCall(owner, u, now);
    Prepend(CalledOnce(owner, u), Schedule(0, false), []);
    Prepend(INIT, Visible(owner, [Some(u)], now), [Schedule(0, false)] + []);
  }

  // ---- Where pairs go ----

  /** A pair leaves the queue only in a batch, which is queried unless its owner has no session. */
  lemma {:induction false} LeavesInABatch(s: System, e: Event, u: Uuid, o: Uuid)
    requires Sound(s) && Enabled(s, e) && Has(s.pending, u, o) && !Has(Next(s, e).pending, u, o)
    ensures e.TakeBatch? && s.tasks[e.i].groups[0].owner == o && u in Batch(s.tasks[e.i].groups[0].uuids)
    ensures e.known ==> Next(s, e).tasks[e.i].Querying? && u in Next(s, e).tasks[e.i].batch
  {
    if e.Visible? {
      QueuedHas(s.pending, s.cache, Asked(First(e.raw)), e.owner, e.now, u, o);
    } else if e.TakeBatch? {
      var g := s.tasks[e.i].groups[0];
      RemoveAllHas(s.pending, Batch(g.uuids), g.owner, u, o);
    }
  }

  /** Every player of a queried batch is cached once the answer is in, whatever the answer. */
  lemma {:induction false} BatchIsCached(s: System, e: Event, u: Uuid)
    requires e.Answer? && Enabled(s, e) && u in s.tasks[e.i].batch
    ensures var c := Next(s, e).cache;
      && u in c && (c[u].Present? <==> Online(e.answer, u))
      && c[u].expires == if c[u].Present? then e.now + CACHE_TTL else e.later + NEGATIVE_TTL
  {
    AnswerCachesBatch(s.cache, s.tasks[e.i].batch, e.answer, e.now, e.later, u);
  }
}
