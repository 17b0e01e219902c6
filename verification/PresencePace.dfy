/**
  The flush's pauses on a clock, and when a query can come sooner after the one before
  than the interval between queries. Every timed run is a run of `PresenceSystem`.
*/
module PresencePace {
  import opened Wrappers
  import opened PresenceModel
  import opened PresenceSystem

  const QUERY_INTERVAL: nat := 3000

  /**
    `asked` is when the last query started, `lastFlush` when a flush last ended, and
    `until` when a task that sleeps may go on.
  */
  datatype Timed = Timed(s: PresenceSystem.System, now: nat, lastFlush: nat, asked: Option<nat>, until: map<nat, nat>)

  datatype Event = Tick(ms: nat) | Step(e: PresenceSystem.Event)

  function Start(now: nat): (t: Timed) { Timed(PresenceSystem.INIT, now, 0, None, map[]) }

  predicate Due(t: Timed, i: nat) { i in t.until && t.until[i] <= t.now }

  /** A sleeping task waits for its time, and a locked block reads the clock at one moment. */
  predicate Enabled(t: Timed, e: Event) {
    match e
    case Tick(_) => true
    case Step(f) =>
      && PresenceSystem.Enabled(t.s, f)
      && (f.Fire? || f.Wake? ==> Due(t, f.i))
      && (f.Visible? ==> f.now == t.now)
      && (f.Answer? ==> f.now == f.later == t.now)
  }

  /** The step starts a query. */
  predicate Queries(e: Event) { e.Step? && e.e.TakeBatch? && e.e.known }

  /** An armed timer waits for the rest of the interval since the last flush, a pause for a whole one. */
  function Alarms(t: Timed, f: PresenceSystem.Event): (r: map<nat, nat>)
    requires PresenceSystem.Enabled(t.s, f)
  {
    var r := PresenceSystem.Next(t.s, f);
    var rest := t.lastFlush + QUERY_INTERVAL;
    if f.Schedule? && r.tasks[f.i].Sleeping? then t.until[f.i := if rest < t.now then t.now else rest]
    else if f.Check? && r.tasks[f.i].Pausing? then t.until[f.i := t.now + QUERY_INTERVAL]
    else t.until
  }

  function Next(t: Timed, e: Event): (r: Timed)
    requires Enabled(t, e)
  {
    match e
    case Tick(ms) => t.(now := t.now + ms)
    case Step(f) =>
      Timed(PresenceSystem.Next(t.s, f), t.now, if f.Finish? then t.now else t.lastFlush,
            if Queries(e) then Some(t.now) else t.asked, Alarms(t, f))
  }

  predicate EnabledRun(t: Timed, es: seq<Event>)
    decreases |es|
  {
    es == [] || (Enabled(t, es[0]) && EnabledRun(Next(t, es[0]), es[1..]))
  }

  function Run(t: Timed, es: seq<Event>): (r: Timed)
    requires EnabledRun(t, es)
    decreases |es|
  {
    if es == [] then t else Run(Next(t, es[0]), es[1..])
  }

  // ---- Invariant ----

  /** The moment lies three seconds after the start of the last query. */
  predicate Clear(t: Timed, moment: nat) { t.asked.Some? ==> t.asked.value + 3000 <= moment }

  predicate Timely(t: Timed) {
    && Sound(t.s)
    && t.lastFlush <= t.now && (t.asked.Some? ==> t.asked.value <= t.now)
    && (t.asked.Some? && !t.s.flushing ==> t.asked.value <= t.lastFlush)
    && (forall i :: 0 <= i < |t.s.tasks| && t.s.tasks[i].Sleeping? ==> i in t.until)
    && (forall i :: 0 <= i < |t.s.tasks| && t.s.tasks[i].Pausing? ==> i in t.until && Clear(t, t.until[i]))
  }

  lemma {:induction false} CallTimely(t: Timed, e: Event)
    requires Timely(t) && Enabled(t, e) && e.Step? && e.e.Visible?
    ensures Timely(Next(t, e))
  {
    CallIsSound(t.s, e.e.owner, e.e.raw, e.e.now);
  }

  /** What a step of one task does to the others. */
  lemma {:induction false} OneTaskMoves(s: PresenceSystem.System, e: PresenceSystem.Event)
    requires Sound(s) && PresenceSystem.Enabled(s, e) && !e.Visible?
    ensures var r := PresenceSystem.Next(s, e);
      && Sound(r) && |r.tasks| == |s.tasks|
      && (forall i :: 0 <= i < |s.tasks| && i != e.i ==> r.tasks[i] == s.tasks[i])
      && (r.tasks[e.i].Sleeping? <==> e.Schedule? && r.timer && !s.timer)
      && (r.tasks[e.i].Pausing? <==> e.Check? && s.pending != [])
      && (e.TakeBatch? ==> forall i :: 0 <= i < |s.tasks| ==> !s.tasks[i].Pausing?)
      && (r.flushing <==> e.Begin? || (s.flushing && !e.Finish?)) && (e.TakeBatch? ==> s.flushing)
  {
    SoundKept(s, e);
    assert e.TakeBatch? ==> InFlush(s.tasks[e.i]);
  }

  lemma {:induction false} TimelyKept(t: Timed, e: Event)
    requires Timely(t) && Enabled(t, e)
    ensures Timely(Next(t, e))
  {
    if e.Step? {
      if e.e.Visible? {
        CallTimely(t, e);
      } else {
        OneTaskMoves(t.s, e.e);
      }
    }
  }

  lemma {:induction false} TimelyOnRun(t: Timed, es: seq<Event>)
    requires Timely(t) && EnabledRun(t, es)
    ensures Timely(Run(t, es))
    decreases |es|
  {
    if es != [] {
      TimelyKept(t, es[0]);
      TimelyOnRun(Next(t, es[0]), es[1..]);
    }
  }

  /** A timer waits for what is left of three seconds since the last flush ended, a pause for three seconds. */
  lemma {:induction false} Waits(t: Timed, f: PresenceSystem.Event)
    requires Enabled(t, Step(f)) && !f.Visible?
    ensures var r := Next(t, Step(f));
      && (f.Schedule? && r.s.tasks[f.i].Sleeping? ==>
            f.i in r.until && r.until[f.i] == if t.now - t.lastFlush > 3000 then t.now else t.lastFlush + 3000)
      && (f.Check? && t.s.pending != [] ==> f.i in r.until && r.until[f.i] == t.now + 3000)
      && (forall i :: i != f.i ==> (i in r.until <==> i in t.until) && (i in t.until ==> r.until[i] == t.until[i]))
  {
  }

  // ---- Every query of a run ----

  /** Every query comes at least an interval after the one before. */
  predicate Spaced(t: Timed, es: seq<Event>)
    requires EnabledRun(t, es)
    decreases |es|
  {
    es == [] || ((Queries(es[0]) ==> Clear(t, t.now)) && Spaced(Next(t, es[0]), es[1..]))
  }

  /** Every round that finds something pending starts an interval after the last query. */
  predicate RoundsWait(t: Timed, es: seq<Event>)
    requires EnabledRun(t, es)
    decreases |es|
  {
    es == [] || ((es[0].Step? && es[0].e.Look? && t.s.pending != [] ==> Clear(t, t.now))
                 && RoundsWait(Next(t, es[0]), es[1..]))
  }

  /** A task with a group to take has waited. */
  predicate Waited(t: Timed) {
    forall i :: 0 <= i < |t.s.tasks| && t.s.tasks[i].InRound? && t.s.tasks[i].groups != [] ==> Clear(t, t.now)
  }

  lemma {:induction false} GroupsMeanPending(p: seq<Waiting>, task: Task)
    requires GroupsPending(p, task) && WithGroups(task) && task.groups != []
    ensures p != []
  {
    var g := task.groups[0];
    assert AllPending(p, g);
    assert Has(p, g.uuids[0], g.owner);
  }

  /** The task that moves has waited, if it has a group to take now. */
  lemma {:induction false} MoverWaited(t: Timed, e: Event)
    requires Timely(t) && Waited(t) && Enabled(t, e) && e.Step? && !e.e.Visible?
    requires e.e.Look? && t.s.pending != [] ==> Clear(t, t.now)
    ensures var task := PresenceSystem.Next(t.s, e.e).tasks[e.e.i];
      task.InRound? && task.groups != [] ==> Clear(t, t.now) && !Queries(e)
  {
    var task := t.s.tasks[e.e.i];
    assert GroupsPending(t.s.pending, task);
    if e.e.Check? && task.groups != [] {
      GroupsMeanPending(t.s.pending, task);
    }
  }

  lemma {:induction false} WaitedKept(t: Timed, e: Event)
    requires Timely(t) && Waited(t) && Enabled(t, e)
    requires e.Step? && e.e.Look? && t.s.pending != [] ==> Clear(t, t.now)
    ensures Waited(Next(t, e))
  {
    if e.Step? && !e.e.Visible? {
      MoverWaited(t, e);
      OneTaskMoves(t.s, e.e);
      assert Queries(e) ==> forall i :: 0 <= i < |t.s.tasks| && i != e.e.i ==> !InFlush(t.s.tasks[i]);
    }
  }

  lemma {:induction false} WaitedRunIsSpaced(t: Timed, es: seq<Event>)
    requires Timely(t) && Waited(t) && EnabledRun(t, es) && RoundsWait(t, es)
    ensures Spaced(t, es)
    decreases |es|
  {
    if es != [] {
      TimelyKept(t, es[0]);
      WaitedKept(t, es[0]);
      WaitedRunIsSpaced(Next(t, es[0]), es[1..]);
    }
  }

  /** Within a round the pauses do their work: only a round begun too soon brings queries too close. */
  lemma {:induction false} SpacedWhileRoundsWait(now: nat, es: seq<Event>)
    requires EnabledRun(Start(now), es) && RoundsWait(Start(now), es)
    ensures Spaced(Start(now), es)
  {
    WaitedRunIsSpaced(Start(now), es);
  }

  // ---- The next query ----

  /** The next query of a run, if there is one, comes at least an interval after the last one. */
  predicate NextSpaced(t: Timed, es: seq<Event>)
    requires EnabledRun(t, es)
    decreases |es|
  {
    es == [] || (if Queries(es[0]) then Clear(t, t.now) else NextSpaced(Next(t, es[0]), es[1..]))
  }

  /** A flush that will pause before its next query. */
  predicate WillPause(s: PresenceSystem.System, task: Task) {
    task.Pausing? || ((task.Querying? || task.Checking?) && s.pending != [])
  }

  /** A flush with no query to come. */
  predicate Closing(task: Task) { task.Ending? || (task.InRound? && task.groups == [] && !task.didWork) }

  /** The task can begin a flush before the interval is over. */
  predicate StartsSoon(t: Timed, i: nat) {
    && i < |t.s.tasks|
    && (t.s.tasks[i].AboutToFlush? || (t.s.tasks[i].Sleeping? && i in t.until && !Clear(t, t.until[i])))
  }

  /** No query is to come from the task before the interval is over. */
  predicate AtRest(t: Timed, i: nat)
    requires i < |t.s.tasks|
  {
    (InFlush(t.s.tasks[i]) ==> Closing(t.s.tasks[i])) && !StartsSoon(t, i)
  }

  predicate Paced(t: Timed) {
    || Clear(t, t.now)
    || (exists i :: 0 <= i < |t.s.tasks| && WillPause(t.s, t.s.tasks[i]))
    || (forall i :: 0 <= i < |t.s.tasks| ==> AtRest(t, i))
  }

  lemma {:induction false} CallKeepsPending(s: PresenceSystem.System, o: Uuid, raw: seq<Option<Uuid>>, now: int)
    requires Sound(s) && s.pending != []
    ensures Called(s, o, raw, now).pending != []
  {
    var (u, p) := (s.pending[0].uuid, s.pending[0].owners[0]);
    CallIsSound(s, o, raw, now);
    assert Has(s.pending, u, p) && Has(Called(s, o, raw, now).pending, u, p);
  }

  lemma {:induction false} PauseKept(t: Timed, e: Event, i: nat)
    requires Timely(t) && Enabled(t, e) && i < |t.s.tasks| && WillPause(t.s, t.s.tasks[i])
    ensures Paced(Next(t, e)) && !Queries(e)
  {
    var r := Next(t, e);
    if e.Step? && e.e.Visible? {
      if t.s.pending != [] {
        CallKeepsPending(t.s, e.e.owner, e.e.raw, e.e.now);
      }
      assert WillPause(r.s, r.s.tasks[i]);
    } else if !(e.Step? && e.e.Wake? && e.e.i == i) {
      assert WillPause(r.s, r.s.tasks[i]);
    }
  }

  lemma {:induction false} MoverKeptAtRest(t: Timed, e: Event)
    requires Timely(t) && Enabled(t, e) && !Queries(e) && e.Step? && !e.e.Visible? && AtRest(t, e.e.i)
    ensures AtRest(Next(t, e), e.e.i) || Clear(t, t.now)
  {
    match e.e
    case Schedule(_, _) =>
    case Fire(_) =>
    case Begin(_) =>
    case EndRound(_) =>
    case Finish(_) =>
    case _ =>
  }

  lemma {:induction false} OneKeptAtRest(t: Timed, e: Event, i: nat)
    requires Timely(t) && Enabled(t, e) && !Queries(e)
    requires i < |Next(t, e).s.tasks| && (i < |t.s.tasks| ==> AtRest(t, i))
    ensures AtRest(Next(t, e), i) || Clear(Next(t, e), t.now)
  {
    if e.Step? && !e.e.Visible? {
      if i == e.e.i {
        MoverKeptAtRest(t, e);
      } else {
        OneTaskMoves(t.s, e.e);
      }
    }
  }

  lemma {:induction false} RestKept(t: Timed, e: Event)
    requires Timely(t) && Enabled(t, e) && forall i :: 0 <= i < |t.s.tasks| ==> AtRest(t, i)
    ensures Paced(Next(t, e)) && !Queries(e)
  {
    var r := Next(t, e);
    assert Queries(e) ==> AtRest(t, e.e.i);
    if !Clear(r, r.now) {
      forall i | 0 <= i < |r.s.tasks|
        ensures AtRest(r, i)
      {
        OneKeptAtRest(t, e, i);
      }
    }
  }

  lemma {:induction false} PacedIsSpaced(t: Timed, es: seq<Event>)
    requires Timely(t) && Paced(t) && EnabledRun(t, es)
    ensures NextSpaced(t, es)
    decreases |es|
  {
    if es != [] {
      var e := es[0];
      if Clear(t, t.now) {
        assert !Queries(e) ==> Clear(Next(t, e), Next(t, e).now);
      } else if exists i :: 0 <= i < |t.s.tasks| && WillPause(t.s, t.s.tasks[i]) {
        var i :| 0 <= i < |t.s.tasks| && WillPause(t.s, t.s.tasks[i]);
        PauseKept(t, e, i);
      } else {
        RestKept(t, e);
      }
      if !Queries(e) {
        TimelyKept(t, e);
        PacedIsSpaced(Next(t, e), es[1..]);
      }
    }
  }

  // ---- Otherwise it can come too soon ----

  lemma {:induction false} Prepend(t: Timed, e: Event, es: seq<Event>)
    requires Enabled(t, e) && !Queries(e) && EnabledRun(Next(t, e), es) && !NextSpaced(Next(t, e), es)
    ensures EnabledRun(t, [e] + es) && !NextSpaced(t, [e] + es)
  {
    assert ([e] + es)[1..] == es;
  }

  /** A player the cache does not know. */
  lemma {:induction false} Unseen(seen: set<Uuid>) returns (u: Uuid)
    ensures forall v :: v in seen ==> |v| < |u|
  {
    if seen == {} {
      u := "0";
    } else {
      var v :| v in seen;
      u := Unseen(seen - {v});
      if |u| <= |v| {
        u := v + "0";
      }
    }
  }

  lemma {:induction false} TakesTooSoon(t: Timed, i: nat) returns (es: seq<Event>)
    requires !Clear(t, t.now) && Enabled(t, Step(TakeBatch(i, true)))
    ensures EnabledRun(t, es) && !NextSpaced(t, es)
  {
    es := [Step(TakeBatch(i, true))];
  }

  lemma {:induction false} CallFillsQueue(s: PresenceSystem.System, o: Uuid, raw: seq<Option<Uuid>>, u: Uuid, now: int)
    requires Sound(s) && u !in s.cache && o != "" && raw == [Some(u)]
    ensures Called(s, o, raw, now).pending != []
  {
    CallIsSound(s, o, raw, now);
    AskedOnce(raw, u);
    assert Has(Called(s, o, raw, now).pending, u, o);
  }

  /** At the head of its loop a flush takes up a call that comes just then. */
  lemma {:induction false} LooksTooSoon(t: Timed, i: nat) returns (es: seq<Event>)
    requires Timely(t) && !Clear(t, t.now) && i < |t.s.tasks| && t.s.tasks[i].LoopHead?
    ensures EnabledRun(t, es) && !NextSpaced(t, es)
  {
    var u := Unseen(t.s.cache.Keys);
    assert u !in t.s.cache;
    var call := Step(Visible("0", [Some(u)], t.now));
    CallFillsQueue(t.s, "0", [Some(u)], u, t.now);
    TimelyKept(t, call);
    es := FindsTooSoon(Next(t, call), i);
    Prepend(t, call, es);
    es := [call] + es;
  }

  lemma {:induction false} FindsTooSoon(t: Timed, i: nat) returns (es: seq<Event>)
    requires Timely(t) && !Clear(t, t.now) && i < |t.s.tasks| && t.s.tasks[i].LoopHead? && t.s.pending != []
    ensures EnabledRun(t, es) && !NextSpaced(t, es)
  {
    var look := Step(Look(i));
    GroupsFit(t.s.pending);
    es := TakesTooSoon(Next(t, look), i);
    Prepend(t, look, es);
    es := [look] + es;
  }

  lemma {:induction false} RoundTooSoon(t: Timed, i: nat) returns (es: seq<Event>)
    requires Timely(t) && !Clear(t, t.now)
    requires i < |t.s.tasks| && t.s.tasks[i].InRound? && !Closing(t.s.tasks[i])
    ensures EnabledRun(t, es) && !NextSpaced(t, es)
  {
    if t.s.tasks[i].groups != [] {
      es := TakesTooSoon(t, i);
    } else {
      var e := Step(EndRound(i));
      TimelyKept(t, e);
      es := LooksTooSoon(Next(t, e), i);
      Prepend(t, e, es);
      es := [e] + es;
    }
  }

  /** A flush that finds nothing pending after its query does not pause. */
  lemma {:induction false} ChecksTooSoon(t: Timed, i: nat) returns (es: seq<Event>)
    requires Timely(t) && !Clear(t, t.now) && t.s.pending == []
    requires i < |t.s.tasks| && t.s.tasks[i].Checking?
    ensures EnabledRun(t, es) && !NextSpaced(t, es)
  {
    var e := Step(Check(i));
    TimelyKept(t, e);
    es := RoundTooSoon(Next(t, e), i);
    Prepend(t, e, es);
    es := [e] + es;
  }

  lemma {:induction false} FlushTooSoon(t: Timed, i: nat) returns (es: seq<Event>)
    requires Timely(t) && !Clear(t, t.now)
    requires i < |t.s.tasks| && InFlush(t.s.tasks[i]) && !Closing(t.s.tasks[i]) && !WillPause(t.s, t.s.tasks[i])
    ensures EnabledRun(t, es) && !NextSpaced(t, es)
  {
    match t.s.tasks[i]
    case LoopHead => es := LooksTooSoon(t, i);
    case InRound(_, _) => es := RoundTooSoon(t, i);
    case Checking(_) => es := ChecksTooSoon(t, i);
    case Querying(_, _) =>
      var e := Step(Answer(i, None, t.now, t.now));
      TimelyKept(t, e);
      es := ChecksTooSoon(Next(t, e), i);
      Prepend(t, e, es);
      es := [e] + es;
  }

  lemma {:induction false} BeginsTooSoon(t: Timed, i: nat) returns (es: seq<Event>)
    requires Timely(t) && !Clear(t, t.now) && !t.s.flushing && i < |t.s.tasks| && t.s.tasks[i].AboutToFlush?
    ensures EnabledRun(t, es) && !NextSpaced(t, es)
  {
    var e := Step(Begin(i));
    TimelyKept(t, e);
    es := LooksTooSoon(Next(t, e), i);
    Prepend(t, e, es);
    es := [e] + es;
  }

  /** A timer armed before the last query of a flush fires when it likes. */
  lemma {:induction false} StartsTooSoon(t: Timed, i: nat) returns (es: seq<Event>)
    requires Timely(t) && !Clear(t, t.now) && !t.s.flushing && StartsSoon(t, i)
    ensures EnabledRun(t, es) && !NextSpaced(t, es)
  {
    if t.s.tasks[i].AboutToFlush? {
      es := BeginsTooSoon(t, i);
    } else {
      var (wait, fire) := (Tick(if t.until[i] <= t.now then 0 else t.until[i] - t.now), Step(Fire(i)));
      var r := Next(t, wait);
      TimelyKept(t, wait);
      TimelyKept(r, fire);
      es := BeginsTooSoon(Next(r, fire), i);
      Prepend(r, fire, es);
      es := [fire] + es;
      Prepend(t, wait, es);
      es := [wait] + es;
    }
  }

  lemma {:induction false} EndsTooSoon(t: Timed, k: nat, i: nat) returns (es: seq<Event>)
    requires Timely(t) && !Clear(t, t.now) && StartsSoon(t, i) && k < |t.s.tasks| && t.s.tasks[k].Ending?
    ensures EnabledRun(t, es) && !NextSpaced(t, es)
  {
    var e := Step(Finish(k));
    TimelyKept(t, e);
    es := StartsTooSoon(Next(t, e), i);
    Prepend(t, e, es);
    es := [e] + es;
  }

  lemma {:induction false} ClosesTooSoon(t: Timed, k: nat, i: nat) returns (es: seq<Event>)
    requires Timely(t) && !Clear(t, t.now) && StartsSoon(t, i) && k < |t.s.tasks| && Closing(t.s.tasks[k])
    ensures EnabledRun(t, es) && !NextSpaced(t, es)
  {
    if t.s.tasks[k].Ending? {
      es := EndsTooSoon(t, k, i);
    } else {
      var e := Step(EndRound(k));
      TimelyKept(t, e);
      es := EndsTooSoon(Next(t, e), k, i);
      Prepend(t, e, es);
      es := [e] + es;
    }
  }

  lemma {:induction false} UnpacedTooSoon(t: Timed) returns (es: seq<Event>)
    requires Timely(t) && !Paced(t)
    ensures EnabledRun(t, es) && !NextSpaced(t, es)
  {
    if i :| 0 <= i < |t.s.tasks| && InFlush(t.s.tasks[i]) && !Closing(t.s.tasks[i]) {
      es := FlushTooSoon(t, i);
    } else {
      var j :| 0 <= j < |t.s.tasks| && !AtRest(t, j);
      if k :| 0 <= k < |t.s.tasks| && InFlush(t.s.tasks[k]) {
        es := ClosesTooSoon(t, k, j);
      } else {
        es := StartsTooSoon(t, j);
      }
    }
  }

  /**
    The next query keeps the interval in every continuation exactly when the interval is
    over, the flush will pause since something is pending, or the flush has no query to
    come and no task can begin another one before the interval is over.
  */
  lemma {:induction false} NextSpacedIff(t: Timed)
    requires Timely(t)
    ensures (forall es :: EnabledRun(t, es) ==> NextSpaced(t, es)) <==> Paced(t)
  {
    if Paced(t) {
      forall es | EnabledRun(t, es)
        ensures NextSpaced(t, es)
      {
        PacedIsSpaced(t, es);
      }
    } else {
      var es := UnpacedTooSoon(t);
    }
  }

  // ---- A run that gets there ----

  lemma {:induction false} RunPrepend(t: Timed, e: Event, es: seq<Event>)
    requires Enabled(t, e) && EnabledRun(Next(t, e), es)
    ensures EnabledRun(t, [e] + es) && Run(t, [e] + es) == Run(Next(t, e), es)
  {
    assert ([e] + es)[1..] == es;
  }

  /** One call for one player, and the flush it starts, up to its query. */
  function FirstQuery(owner: Uuid, u: Uuid, now: nat): (es: seq<Event>) {
    [Step(Visible(owner, [Some(u)], now))] + ([Step(Schedule(0, true))] + ([Step(Fire(0))] + FlushToQuery()))
  }

  function FlushToQuery(): (es: seq<Event>) {
    [Step(Begin(0))] + ([Step(Look(0))] + ([Step(TakeBatch(0, true))] + []))
  }

  /** A task alone with one pending pair. */
  function Alone(owner: Uuid, u: Uuid, now: nat, flushing: bool, task: Task): (t: Timed) {
    Timed(CalledOnce(owner, u).(tasks := [task], flushing := flushing), now, 0, None, map[0 := now])
  }

  /** The query is under way, and nothing else is pending. */
  function Asking(u: Uuid, now: nat): (t: Timed) {
    Timed(PresenceSystem.System([], map[], true, false, [Querying([u], [])]), now, 0, Some(now), map[0 := now])
  }

  lemma {:induction false} FlushAsks(owner: Uuid, u: Uuid, now: nat)
    ensures EnabledRun(Alone(owner, u, now, false, AboutToFlush), FlushToQuery())
    ensures Run(Alone(owner, u, now, false, AboutToFlush), FlushToQuery()) == Asking(u, now)
  {
    var t := Alone(owner, u, now, true, LoopHead);
    var r := Alone(owner, u, now, true, InRound([Group(owner, [u])], false));
    OneGroup([u], owner);
    assert OneEach([u], owner) == [Waiting(u, [owner])];
    assert Next(t, Step(Look(0))) == r;
    RemovesOnly(u, owner);
    assert [Group(owner, [u])][1..] == [] && Batch([u]) == [u];
    assert PresenceSystem.Taken(r.s, 0, true) == Asking(u, now).s;
    assert Next(r, Step(TakeBatch(0, true))) == Asking(u, now);
    RunPrepend(r, Step(TakeBatch(0, true)), []);
    RunPrepend(t, Step(Look(0)), [Step(TakeBatch(0, true))] + []);
    assert Next(Alone(owner, u, now, false, AboutToFlush), Step(Begin(0))) == t;
    RunPrepend(Alone(owner, u, now, false, AboutToFlush), Step(Begin(0)),
               [Step(Look(0))] + ([Step(TakeBatch(0, true))] + []));
  }

  lemma {:induction false} RemovesOnly(u: Uuid, o: Uuid)
    ensures RemoveAll([Waiting(u, [o])], [u], o) == []
  {
    assert [u][..0] == [] && Without([o], o) == [];
    assert RemoveAll([Waiting(u, [o])], [], o) == [Waiting(u, [o])];
  }

  /** The call, and the timer it arms. */
  lemma {:induction false} CallArms(owner: Uuid, u: Uuid, now: nat, es: seq<Event>)
    requires owner != "" && now >= QUERY_INTERVAL && EnabledRun(Alone(owner, u, now, false, AboutToFlush), es)
    ensures var fs := [Step(Visible(owner, [Some(u)], now))] + ([Step(Schedule(0, true))] + ([Step(Fire(0))] + es));
      EnabledRun(Start(now), fs) && Run(Start(now), fs) == Run(Alone(owner, u, now, false, AboutToFlush), es)
  {
    var call := Step(Visible(owner, [Some(u)], now));
    var t := Timed(CalledOnce(owner, u), now, 0, None, map[]);
    FirstCall(owner, u, now);
    assert Next(Start(now), call) == t;
    TimerFires(owner, u, now, es);
    RunPrepend(Start(now), call, [Step(Schedule(0, true))] + ([Step(Fire(0))] + es));
  }

  lemma {:induction false} TimerFires(owner: Uuid, u: Uuid, now: nat, es: seq<Event>)
    requires now >= QUERY_INTERVAL && EnabledRun(Alone(owner, u, now, false, AboutToFlush), es)
    ensures var (t, fs) := (Timed(CalledOnce(owner, u), now, 0, None, map[]),
                            [Step(Schedule(0, true))] + ([Step(Fire(0))] + es));
      EnabledRun(t, fs) && Run(t, fs) == Run(Alone(owner, u, now, false, AboutToFlush), es)
  {
    var t := Timed(CalledOnce(owner, u), now, 0, None, map[]);
    var r := Timed(CalledOnce(owner, u).(tasks := [Sleeping], timer := true), now, 0, None, map[0 := now]);
    assert Next(t, Step(Schedule(0, true))) == r;
    assert Next(r, Step(Fire(0))) == Alone(owner, u, now, false, AboutToFlush);
    RunPrepend(r, Step(Fire(0)), es);
    RunPrepend(t, Step(Schedule(0, true)), [Step(Fire(0))] + es);
  }

  /** The first query leaves nothing pending, and the next one can follow it at once. */
  lemma {:induction false} QueriesTooSoon(owner: Uuid, u: Uuid, now: nat) returns (es: seq<Event>)
    requires owner != "" && now >= QUERY_INTERVAL
    ensures EnabledRun(Start(now), FirstQuery(owner, u, now))
    ensures Run(Start(now), FirstQuery(owner, u, now)) == Asking(u, now)
    ensures EnabledRun(Asking(u, now), es) && !NextSpaced(Asking(u, now), es)
  {
    FlushAsks(owner, u, now);
    CallArms(owner, u, now, FlushToQuery());
    TimelyOnRun(Start(now), FirstQuery(owner, u, now));
    NothingHolds(u, now);
    es := UnpacedTooSoon(Asking(u, now));
  }

  lemma {:induction false} NothingHolds(u: Uuid, now: nat)
    ensures !Paced(Asking(u, now))
  {
    assert !AtRest(Asking(u, now), 0);
  }
}
