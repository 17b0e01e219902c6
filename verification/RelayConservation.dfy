/**
  Conservation over every run of the relay: each enqueued command is in exactly
  one place, each call is settled at most once, and a command can still be handed
  over exactly while the launch is open or a poll is left to take it.
*/
module RelayConservation {
  import opened Wrappers
  import opened RelayModel
  import opened RelaySystem

  /** How often `c` occurs in `b`. */
  ghost function Times(b: Batch, c: Command): (r: nat) { multiset(b)[c] }

  ghost function Copies(bs: seq<Batch>, c: Command): (r: nat) {
    if bs == [] then 0 else Times(bs[0], c) + Copies(bs[1..], c)
  }

  ghost function Contents(slots: seq<Option<Batch>>): (r: seq<Batch>)
    ensures |r| == |slots| && forall i :: 0 <= i < |r| ==> r[i] == Content(slots[i])
  {
    seq(|slots|, i requires 0 <= i < |slots| => Content(slots[i]))
  }

  function Carried(ph: Phase): (r: Batch) { if ph.Taken? then ph.batch else [] }

  ghost function Outs(phases: seq<Phase>): (r: seq<Batch>)
    ensures |r| == |phases| && forall i :: 0 <= i < |r| ==> r[i] == Carried(phases[i])
  {
    seq(|phases|, i requires 0 <= i < |phases| => Carried(phases[i]))
  }

  /** Occurrences of `c` in slots and in polls that took their batch but have not returned. */
  ghost function InFlight(s: System, c: Command): (r: nat) {
    Copies(Contents(s.core.slots), c) + Copies(Outs(s.phases), c)
  }

  ghost predicate Conserved(s: System) {
    forall c :: Times(s.issued, c) ==
      Times(s.core.queue, c) + InFlight(s, c) + Times(s.handed, c) + Times(s.withdrawn, c)
  }

  /** Issued commands are distinct, and so are their ids. */
  ghost predicate DistinctIssued(s: System) {
    && (forall c :: c in s.issued ==> Times(s.issued, c) == 1)
    && (forall c, d :: c in s.issued && d in s.issued && c.id == d.id ==> c == d)
  }

  /** Every issued call is pending or settled, never both. */
  ghost predicate SettledOnce(s: System) {
    && s.core.inflight.Keys !! s.settled.Keys
    && forall id :: id in s.core.inflight || id in s.settled <==> exists c :: c in s.issued && c.id == id
  }

  ghost predicate Inv(s: System) {
    HandOver(s) && Conserved(s) && DistinctIssued(s) && SettledOnce(s)
  }

  // ---- Counting ----

  lemma {:induction false} CopiesAppend(bs: seq<Batch>, b: Batch, c: Command)
    ensures Copies(bs + [b], c) == Copies(bs, c) + Times(b, c)
  {
    if bs == [] {
      assert bs + [b] == [b];
    } else {
      CopiesAppend(bs[1..], b, c);
      assert (bs + [b])[1..] == bs[1..] + [b];
    }
  }

  lemma {:induction false} CopiesUpdate(bs: seq<Batch>, p: nat, b: Batch, c: Command)
    requires p < |bs|
    ensures Copies(bs[p := b], c) + Times(bs[p], c) == Copies(bs, c) + Times(b, c)
  {
    if p == 0 {
      assert bs[p := b][1..] == bs[1..];
    } else {
      CopiesUpdate(bs[1..], p - 1, b, c);
      assert bs[p := b][1..] == bs[1..][p - 1 := b];
    }
  }

  lemma {:induction false} CopiesAt(bs: seq<Batch>, p: nat, c: Command)
    requires p < |bs|
    ensures Copies(bs, c) >= Times(bs[p], c)
  {
    CopiesUpdate(bs, p, [], c);
  }

  lemma {:induction false} CopiesSome(bs: seq<Batch>, c: Command) returns (p: nat)
    requires Copies(bs, c) > 0
    ensures p < |bs| && c in bs[p]
  {
    if c in bs[0] {
      p := 0;
    } else {
      p := CopiesSome(bs[1..], c);
      p := p + 1;
    }
  }

  lemma {:induction false} SlotUpdate(slots: seq<Option<Batch>>, p: nat, o: Option<Batch>, c: Command)
    requires p < |slots|
    ensures Copies(Contents(slots[p := o]), c) + Times(Content(slots[p]), c)
      == Copies(Contents(slots), c) + Times(Content(o), c)
  {
    CopiesUpdate(Contents(slots), p, Content(o), c);
    assert Contents(slots[p := o]) == Contents(slots)[p := Content(o)];
  }

  lemma {:induction false} PhaseUpdate(phases: seq<Phase>, p: nat, ph: Phase, c: Command)
    requires p < |phases|
    ensures Copies(Outs(phases[p := ph]), c) + Times(Carried(phases[p]), c)
      == Copies(Outs(phases), c) + Times(Carried(ph), c)
  {
    CopiesUpdate(Outs(phases), p, Carried(ph), c);
    assert Outs(phases[p := ph]) == Outs(phases)[p := Carried(ph)];
  }

  /** Serving polls moves commands from the queue to slots and loses none. */
  lemma {:induction false} ReleaseConserves(k: Core, c: Command)
    requires k.WellFormed()
    ensures var r := ReleasePollers(k);
      Times(r.queue, c) + Copies(Contents(r.slots), c) == Times(k.queue, c) + Copies(Contents(k.slots), c)
    decreases |k.waiters|
  {
    if k.queue != [] && k.waiters != [] {
      var w := k.waiters[0];
      if k.slots[w].Some? {
        ReleaseConserves(k.(waiters := k.waiters[1..]), c);
      } else {
        SlotUpdate(k.slots, w, Some(k.queue), c);
      }
    }
  }

  lemma {:induction false} DropGuardConserves(k: Core, p: nat, c: Command)
    requires k.WellFormed() && p < |k.slots|
    ensures var r := DropGuard(k, p);
      Times(r.queue, c) + Copies(Contents(r.slots), c) == Times(k.queue, c) + Copies(Contents(k.slots), c)
  {
    SlotUpdate(k.slots, p, None, c);
    var k' := k.(waiters := Without(k.waiters, p), slots := k.slots[p := None]);
    if Content(k.slots[p]) != [] {
      ReleaseConserves(k'.(queue := Content(k.slots[p]) + k.queue), c);
    }
  }

  lemma {:induction false} RemoveSplits(q: Batch, id: string, c: Command)
    ensures Times(q, c) == Times(RemoveId(q, id), c) + Times(FirstWith(q, id), c)
  {
    if q != [] {
      assert q == [q[0]] + q[1..];
      if q[0].id != id {
        RemoveSplits(q[1..], id, c);
      }
    }
  }

  lemma {:induction false} WakeAllConserves(slots: seq<Option<Batch>>, ws: seq<nat>)
    requires forall i :: 0 <= i < |ws| ==> ws[i] < |slots|
    ensures Contents(WakeAll(slots, ws)) == Contents(slots)
  {
    forall p | 0 <= p < |slots|
      ensures Content(WakeAll(slots, ws)[p]) == Content(slots[p])
    {
      WakeAllAt(slots, ws, p);
    }
  }

  // ---- One step ----

  /** Copies of `c` anywhere, less those issued. */
  ghost function Balance(s: System, c: Command): (n: int)
    requires WellFormed(s)
  {
    Times(s.core.queue, c) + InFlight(s, c) + Times(s.handed, c) + Times(s.withdrawn, c) - Times(s.issued, c)
  }

  lemma {:induction false} CallConserves(s: System, cmd: Command, c: Command)
    requires WellFormed(s) && Enabled(s, Call(cmd))
    ensures Balance(Next(s, Call(cmd)), c) == Balance(s, c)
  {
    var k := s.core;
    if |k.queue| < MAX_QUEUE {
      ReleaseConserves(k.(inflight := k.inflight[cmd.id := cmd.tool], queue := k.queue + [cmd]), c);
    }
  }

  lemma {:induction false} EnterConserves(s: System, c: Command)
    requires WellFormed(s) && Enabled(s, PollEnter)
    ensures Balance(Next(s, PollEnter), c) == Balance(s, c)
  {
    CopiesAppend(Contents(s.core.slots), [], c);
    CopiesAppend(Outs(s.phases), [], c);
    assert Contents(s.core.slots + [None]) == Contents(s.core.slots) + [[]];
    assert Outs(Next(s, PollEnter).phases) == Outs(s.phases) + [[]];
  }

  lemma {:induction false} TakeConserves(s: System, p: nat, c: Command)
    requires WellFormed(s) && Enabled(s, PollTake(p))
    ensures Balance(Next(s, PollTake(p)), c) == Balance(s, c)
  {
    SlotUpdate(s.core.slots, p, None, c);
    PhaseUpdate(s.phases, p, Taken(Content(s.core.slots[p])), c);
  }

  lemma {:induction false} DropConserves(s: System, e: Event, c: Command)
    requires WellFormed(s) && Enabled(s, e) && (e.PollReturn? || e.HangUp?)
    ensures Balance(Next(s, e), c) == Balance(s, c)
  {
    DropGuardConserves(s.core, e.p, c);
    PhaseUpdate(s.phases, e.p, Finished, c);
  }

  lemma {:induction false} ExitConserves(s: System, c: Command)
    requires WellFormed(s) && Enabled(s, Exit)
    ensures Balance(Next(s, Exit), c) == Balance(s, c)
  {
    WakeAllConserves(s.core.slots, s.core.waiters);
  }

  /** A step moves `c` between places, adding one copy exactly when it enqueues it. */
  lemma {:induction false} StepConserves(s: System, e: Event, c: Command)
    requires WellFormed(s) && Enabled(s, e)
    ensures Balance(Next(s, e), c) == Balance(s, c)
  {
    match e
    case Call(cmd) => CallConserves(s, cmd, c);
    case PollEnter => EnterConserves(s, c);
    case PollTake(p) => TakeConserves(s, p, c);
    case PollReturn(p) => DropConserves(s, e, c);
    case HangUp(p) => DropConserves(s, e, c);
    case GiveUp(id) => RemoveSplits(s.core.queue, id, c);
    case Exit => ExitConserves(s, c);
    case Report(_) =>
    case AdmitCall =>
    case AdmitPoll =>
    case Stop =>
  }

  lemma {:induction false} ConservedKept(s: System, e: Event)
    requires WellFormed(s) && Conserved(s) && Enabled(s, e)
    ensures Conserved(Next(s, e))
  {
    forall c
      ensures var r := Next(s, e);
        Times(r.issued, c) == Times(r.core.queue, c) + InFlight(r, c) + Times(r.handed, c) + Times(r.withdrawn, c)
    {
      StepConserves(s, e, c);
    }
  }

  lemma {:induction false} DistinctKept(s: System, e: Event)
    requires WellFormed(s) && DistinctIssued(s) && Enabled(s, e)
    ensures DistinctIssued(Next(s, e))
  {
  }

  lemma {:induction false} SettledKept(s: System, e: Event)
    requires WellFormed(s) && SettledOnce(s) && Enabled(s, e)
    ensures SettledOnce(Next(s, e))
  {
  }

  lemma {:induction false} InvKept(s: System, e: Event)
    requires Inv(s) && Enabled(s, e)
    ensures Inv(Next(s, e))
  {
    HandOverKept(s, e);
    ConservedKept(s, e);
    DistinctKept(s, e);
    SettledKept(s, e);
  }

  lemma {:induction false} InvOnRun(s: System, es: seq<Event>)
    requires Inv(s) && EnabledRun(s, es)
    ensures Inv(Run(s, es))
    decreases |es|
  {
    if es != [] {
      InvKept(s, es[0]);
      InvOnRun(Next(s, es[0]), es[1..]);
    }
  }

  /** The invariant holds in every state any interleaving reaches. */
  lemma {:induction false} Reachable(es: seq<Event>)
    requires EnabledRun(INIT, es)
    ensures Inv(Run(INIT, es))
  {
    assert Inv(INIT);
    InvOnRun(INIT, es);
  }

  // ---- What the invariant means ----

  /** `c` is in exactly one place: queued, held by a poll, handed over, or withdrawn. */
  lemma {:induction false} OnePlace(es: seq<Event>, c: Command)
    requires EnabledRun(INIT, es)
    ensures var s := Run(INIT, es);
      var places := Times(s.core.queue, c) + InFlight(s, c) + Times(s.handed, c) + Times(s.withdrawn, c);
      places == if c in s.issued then 1 else 0
  {
    Reachable(es);
  }

  /** In every reachable state queued commands and parked polls exclude each other, and a parked poll's slot is free. */
  lemma {:induction false} NeverStarved(es: seq<Event>)
    requires EnabledRun(INIT, es)
    ensures var k := Run(INIT, es).core;
      && (k.queue == [] || k.waiters == [])
      && (forall i :: 0 <= i < |k.waiters| ==> k.slots[k.waiters[i]] == None)
  {
    Reachable(es);
  }

  /** The logs of `r` continue those of `s`, and what was settled keeps its answer. */
  ghost predicate Continues(s: System, r: System) {
    && s.handed <= r.handed && s.withdrawn <= r.withdrawn && s.issued <= r.issued
    && forall id :: id in s.settled ==> id in r.settled && r.settled[id] == s.settled[id]
  }

  lemma {:induction false} StepContinues(s: System, e: Event)
    requires WellFormed(s) && SettledOnce(s) && Enabled(s, e)
    ensures Continues(s, Next(s, e))
  {
  }

  /** A log only grows along a run, and a settled call keeps its answer. */
  lemma {:induction false} LogsGrow(s: System, es: seq<Event>)
    requires Inv(s) && EnabledRun(s, es)
    ensures Continues(s, Run(s, es))
    decreases |es|
  {
    if es != [] {
      InvKept(s, es[0]);
      StepContinues(s, es[0]);
      LogsGrow(Next(s, es[0]), es[1..]);
    }
  }

  lemma {:induction false} PrefixTimes(a: Batch, b: Batch, c: Command)
    requires a <= b
    ensures Times(a, c) <= Times(b, c)
  {
    assert b == a + b[|a|..];
  }

  /** A command withdrawn from the queue is never handed over, before or after. */
  lemma {:induction false} WithdrawnStaysBack(s: System, es: seq<Event>, c: Command)
    requires Inv(s) && EnabledRun(s, es) && c in s.withdrawn
    ensures c !in Run(s, es).handed
  {
    LogsGrow(s, es);
    InvOnRun(s, es);
    PrefixTimes(s.withdrawn, Run(s, es).withdrawn, c);
  }

  /** A poll that holds `c`, in its slot or already taken. */
  lemma {:induction false} Holder(s: System, c: Command) returns (p: nat)
    requires WellFormed(s) && InFlight(s, c) > 0
    ensures p < |s.phases| && (c in Content(s.core.slots[p]) || c in Carried(s.phases[p]))
  {
    if Copies(Contents(s.core.slots), c) > 0 {
      p := CopiesSome(Contents(s.core.slots), c);
    } else {
      p := CopiesSome(Outs(s.phases), c);
    }
  }

  lemma {:induction false} RunPrepend(s: System, e: Event, es: seq<Event>)
    requires WellFormed(s) && Enabled(s, e) && EnabledRun(Next(s, e), es)
    ensures EnabledRun(s, [e] + es) && Run(s, [e] + es) == Run(Next(s, e), es)
  {
  }

  lemma {:induction false} RunTwo(s: System, e: Event, f: Event)
    requires WellFormed(s) && Enabled(s, e) && Enabled(Next(s, e), f)
    ensures EnabledRun(s, [e, f]) && Run(s, [e, f]) == Next(Next(s, e), f)
  {
    RunPrepend(Next(s, e), f, []);
    RunPrepend(s, e, [f]);
    assert [e] + [f] == [e, f] && [f] + [] == [f];
  }

  lemma {:induction false} TwoThen(s: System, e: Event, f: Event, tail: seq<Event>)
    requires WellFormed(s) && Enabled(s, e) && Enabled(Next(s, e), f) && EnabledRun(Next(Next(s, e), f), tail)
    ensures EnabledRun(s, [e, f] + tail) && Run(s, [e, f] + tail) == Run(Next(Next(s, e), f), tail)
  {
    RunPrepend(Next(s, e), f, tail);
    RunPrepend(s, e, [f] + tail);
    assert [e] + ([f] + tail) == [e, f] + tail;
  }

  // ---- When a command can still be handed over ----

  /** Poll `p` waits and its slot is free. */
  predicate Unserved(s: System, p: nat)
    requires WellFormed(s)
  {
    p < |s.phases| && s.phases[p].Waiting? && s.core.slots[p] == None
  }

  /** Poll `p` will hand `c` over when it returns: it has taken it, or `c` waits in its slot to be taken. */
  predicate Bearer(s: System, c: Command, p: nat)
    requires WellFormed(s)
  {
    p < |s.phases| && (c in Carried(s.phases[p]) || (s.phases[p].Waiting? && c in Content(s.core.slots[p])))
  }

  /** Somebody is left to hand `c` over: a poll bearing it, a poll unserved or admitted, or any poll to come. */
  ghost predicate TakerLeft(s: System, c: Command)
    requires WellFormed(s)
  {
    s.stage.Open? || s.polls > 0 || (exists p :: Unserved(s, p)) || (exists p :: Bearer(s, c, p))
  }

  /** Nobody is left, and `c` has not been handed over. */
  ghost predicate Stranded(s: System, c: Command)
    requires WellFormed(s)
  {
    !TakerLeft(s, c) && c !in s.handed
  }

  // ---- Stranded stays stranded ----

  /** The polls of `r` are those of `s`, and none but an unwanted one got `c`. */
  lemma {:induction false} StillStranded(s: System, r: System, c: Command)
    requires WellFormed(s) && WellFormed(r) && Stranded(s, c) && !r.stage.Open? && r.polls == 0 && c !in r.handed
    requires |r.phases| == |s.phases|
    requires forall p :: 0 <= p < |r.phases| && r.phases[p].Waiting? ==>
      s.phases[p].Waiting? && (r.core.slots[p] == s.core.slots[p] || r.core.slots[p] == Some([]))
    requires forall p :: 0 <= p < |r.phases| && c in Carried(r.phases[p]) ==>
      c in Carried(s.phases[p]) || (s.phases[p].Waiting? && c in Content(s.core.slots[p]))
    ensures Stranded(r, c)
  {
    forall p
      ensures !Unserved(r, p) && !Bearer(r, c, p)
    {
      assert !Unserved(s, p) && !Bearer(s, c, p);
    }
  }

  /** With nobody unserved, serving the list gives the queue to a poll that has already taken its batch. */
  lemma {:induction false} ReleaseSparesWaiting(s: System, q: Batch)
    requires HandOver(s) && forall p :: !Unserved(s, p)
    ensures var k := ReleasePollers(s.core.(queue := q));
      forall p :: 0 <= p < |s.phases| && s.phases[p].Waiting? ==> k.slots[p] == s.core.slots[p]
  {
    var k := ReleasePollers(s.core.(queue := q));
    ServeOldest(s.core.(queue := q));
    forall p | 0 <= p < |s.phases| && s.phases[p].Waiting?
      ensures k.slots[p] == s.core.slots[p]
    {
      assert !Unserved(s, p);
    }
  }

  lemma {:induction false} CallKeepsStranded(s: System, cmd: Command, c: Command)
    requires Inv(s) && Enabled(s, Call(cmd)) && Stranded(s, c)
    ensures Stranded(Next(s, Call(cmd)), c)
  {
    var k := s.core;
    if |k.queue| < MAX_QUEUE {
      var t := s.(core := k.(inflight := k.inflight[cmd.id := cmd.tool]));
      assert forall p :: Unserved(t, p) == Unserved(s, p);
      ReleaseSparesWaiting(t, k.queue + [cmd]);
    }
    StillStranded(s, Next(s, Call(cmd)), c);
  }

  /** A poll that is done drops its guard: what it leaves goes to no waiting poll. */
  lemma {:induction false} DropSparesWaiting(s: System, p: nat)
    requires HandOver(s) && p < |s.phases| && forall q :: !Unserved(s, q)
    ensures forall q :: 0 <= q < |s.phases| && q != p && s.phases[q].Waiting? ==>
      DropGuard(s.core, p).slots[q] == s.core.slots[q]
  {
    var k := s.core.(waiters := Without(s.core.waiters, p), slots := s.core.slots[p := None]);
    var t := s.(core := k, phases := s.phases[p := Finished]);
    ForgetKeepsHandOver(s, p);
    assert forall q :: Unserved(t, q) ==> Unserved(s, q);
    ReleaseSparesWaiting(t, Content(s.core.slots[p]) + s.core.queue);
  }

  lemma {:induction false} ReturnKeepsStranded(s: System, p: nat, c: Command)
    requires Inv(s) && Enabled(s, PollReturn(p)) && Stranded(s, c)
    ensures Stranded(Next(s, PollReturn(p)), c)
  {
    assert !Bearer(s, c, p);
    DropSparesWaiting(s, p);
    StillStranded(s, Next(s, PollReturn(p)), c);
  }

  lemma {:induction false} HangUpKeepsStranded(s: System, p: nat, c: Command)
    requires Inv(s) && Enabled(s, HangUp(p)) && Stranded(s, c)
    ensures Stranded(Next(s, HangUp(p)), c)
  {
    DropSparesWaiting(s, p);
    StillStranded(s, Next(s, HangUp(p)), c);
  }

  lemma {:induction false} ExitKeepsStranded(s: System, c: Command)
    requires Inv(s) && Enabled(s, Exit) && Stranded(s, c)
    ensures Stranded(Next(s, Exit), c)
  {
    forall p | 0 <= p < |s.phases|
      ensures WakeAll(s.core.slots, s.core.waiters)[p] == s.core.slots[p]
        || WakeAll(s.core.slots, s.core.waiters)[p] == Some([])
    {
      WakeAllAt(s.core.slots, s.core.waiters, p);
    }
    StillStranded(s, Next(s, Exit), c);
  }

  lemma {:induction false} StrandedKept(s: System, e: Event, c: Command)
    requires Inv(s) && Enabled(s, e) && Stranded(s, c)
    ensures Stranded(Next(s, e), c)
  {
    match e
    case Call(cmd) => CallKeepsStranded(s, cmd, c);
    case PollTake(p) => StillStranded(s, Next(s, e), c);
    case PollReturn(p) => ReturnKeepsStranded(s, p, c);
    case HangUp(p) => HangUpKeepsStranded(s, p, c);
    case GiveUp(_) => StillStranded(s, Next(s, e), c);
    case Report(_) => StillStranded(s, Next(s, e), c);
    case Exit => ExitKeepsStranded(s, c);
    case AdmitCall =>
    case AdmitPoll =>
    case PollEnter =>
    case Stop =>
  }

  /** A command nobody is left for is never handed over. */
  lemma {:induction false} StrandedForGood(s: System, es: seq<Event>, c: Command)
    requires Inv(s) && EnabledRun(s, es) && Stranded(s, c)
    ensures Stranded(Run(s, es), c)
    decreases |es|
  {
    if es != [] {
      InvKept(s, es[0]);
      StrandedKept(s, es[0], c);
      StrandedForGood(Next(s, es[0]), es[1..], c);
    }
  }

  // ---- Otherwise it can be handed over ----

  lemma {:induction false} BearerDelivers(s: System, c: Command, p: nat) returns (es: seq<Event>)
    requires Inv(s) && Bearer(s, c, p)
    ensures EnabledRun(s, es) && c in Run(s, es).handed
  {
    if s.phases[p].Waiting? {
      es := [PollTake(p), PollReturn(p)];
      RunTwo(s, PollTake(p), PollReturn(p));
    } else {
      es := [PollReturn(p)];
      RunPrepend(s, PollReturn(p), []);
    }
  }

  /** A new poll takes the queue, admitted before or while the launch is open. */
  lemma {:induction false} QueueDelivers(s: System, c: Command) returns (es: seq<Event>)
    requires Inv(s) && c in s.core.queue && (s.stage.Open? || s.polls > 0)
    ensures EnabledRun(s, es) && c in Run(s, es).handed
  {
    if s.polls > 0 {
      es := [PollEnter];
      RunPrepend(s, PollEnter, []);
    } else {
      es := [AdmitPoll, PollEnter];
      RunTwo(s, AdmitPoll, PollEnter);
    }
  }

  lemma {:induction false} WithoutAbsent(ps: seq<nat>, p: nat)
    requires p !in ps
    ensures Without(ps, p) == ps
  {
    if ps != [] {
      WithoutAbsent(ps[1..], p);
    }
  }

  lemma {:induction false} LateDrop(k: Core, q: nat)
    requires k.WellFormed() && q < |k.slots| && q !in k.waiters && Content(k.slots[q]) != []
    ensures DropGuard(k, q) == ReleasePollers(k.(slots := k.slots[q := None], queue := Content(k.slots[q]) + k.queue))
  {
    WithoutAbsent(k.waiters, q);
  }

  /** Where a late batch goes when its poll returns: to the oldest listed poll, or back in the queue. */
  lemma {:induction false} LateReturn(s: System, q: nat)
    requires HandOver(s) && q < |s.phases| && s.phases[q].Taken? && Content(s.core.slots[q]) != []
    ensures var (k, r) := (s.core, Next(s, PollReturn(q)));
      && r.phases == s.phases[q := Finished] && r.stage == s.stage && r.polls == s.polls
      && (k.waiters == [] ==> r.core.waiters == [] && r.core.queue == Content(k.slots[q]) + k.queue)
      && (k.waiters != [] ==>
            && k.waiters[0] != q && r.core.waiters == k.waiters[1..]
            && r.core.slots == k.slots[q := None][k.waiters[0] := Some(Content(k.slots[q]))])
  {
    var k := s.core;
    assert q !in k.waiters;
    LateDrop(k, q);
    ServeOldest(k.(slots := k.slots[q := None], queue := Content(k.slots[q]) + k.queue));
    assert k.waiters != [] ==> k.queue == [] && Content(k.slots[q]) + [] == Content(k.slots[q]);
  }

  /** A batch that landed after its poll had taken goes on to the next poll, as long as one is left to take it. */
  lemma {:induction false} LateBatchDelivers(s: System, c: Command, q: nat) returns (es: seq<Event>)
    requires Inv(s) && q < |s.phases| && s.phases[q].Taken? && c in Content(s.core.slots[q])
    requires s.stage.Open? || s.polls > 0 || exists p :: Unserved(s, p)
    ensures EnabledRun(s, es) && c in Run(s, es).handed
    decreases |s.core.waiters|
  {
    var (k, r) := (s.core, Next(s, PollReturn(q)));
    InvKept(s, PollReturn(q));
    LateReturn(s, q);
    var fs;
    if k.waiters == [] {
      assert forall p :: !Unserved(s, p);
      fs := QueueDelivers(r, c);
    } else {
      fs := NextInLine(s, r, c, q);
    }
    RunPrepend(s, PollReturn(q), fs);
    es := [PollReturn(q)] + fs;
  }

  /** The oldest listed poll got the batch: it hands it over, or passes it on in turn. */
  lemma {:induction false} NextInLine(s: System, r: System, c: Command, q: nat) returns (fs: seq<Event>)
    requires Inv(s) && Inv(r) && s.core.waiters != [] && q < |s.phases| && c in Content(s.core.slots[q])
    requires s.stage.Open? || s.polls > 0 || exists p :: Unserved(s, p)
    requires r.phases == s.phases[q := Finished] && r.stage == s.stage && r.polls == s.polls
    requires r.core.waiters == s.core.waiters[1..] && s.core.waiters[0] != q && s.phases[q].Taken?
    requires r.core.slots == s.core.slots[q := None][s.core.waiters[0] := Some(Content(s.core.slots[q]))]
    ensures EnabledRun(r, fs) && c in Run(r, fs).handed
    decreases |s.core.waiters|, 0
  {
    var w := s.core.waiters[0];
    if r.phases[w].Waiting? {
      fs := BearerDelivers(r, c, w);
    } else {
      if exists p :: Unserved(s, p) {
        var p :| Unserved(s, p);
        assert Unserved(r, p);
      }
      fs := LateBatchDelivers(r, c, w);
    }
  }

  lemma {:induction false} CanBeDelivered(s: System, c: Command) returns (es: seq<Event>)
    requires Inv(s) && c in s.issued && c !in s.withdrawn && (c in s.handed || TakerLeft(s, c))
    ensures EnabledRun(s, es) && c in Run(s, es).handed
  {
    if c in s.handed {
      es := [];
    } else if exists p :: Bearer(s, c, p) {
      var p :| Bearer(s, c, p);
      es := BearerDelivers(s, c, p);
    } else if c in s.core.queue {
      assert forall p :: Unserved(s, p) ==> p in s.core.waiters;
      es := QueueDelivers(s, c);
    } else {
      assert Times(s.issued, c) == 1;
      var q := Holder(s, c);
      assert !Bearer(s, c, q);
      es := LateBatchDelivers(s, c, q);
    }
  }

  /**
    A command not withdrawn can still be handed over exactly when it has been already,
    the launch is open, a poll is admitted or waits unserved, or a poll bears it.
  */
  lemma {:induction false} DeliverableIff(s: System, c: Command)
    requires Inv(s) && c in s.issued && c !in s.withdrawn
    ensures (exists es :: EnabledRun(s, es) && c in Run(s, es).handed) <==> c in s.handed || TakerLeft(s, c)
  {
    if c in s.handed || TakerLeft(s, c) {
      var es := CanBeDelivered(s, c);
    } else {
      forall es | EnabledRun(s, es)
        ensures c !in Run(s, es).handed
      {
        StrandedForGood(s, es, c);
      }
    }
  }

  /** While the launch is open no command is stranded. */
  lemma {:induction false} OpenNeverStrands(es: seq<Event>, c: Command) returns (fs: seq<Event>)
    requires EnabledRun(INIT, es) && Run(INIT, es).stage.Open?
    requires c in Run(INIT, es).issued && c !in Run(INIT, es).withdrawn
    ensures EnabledRun(Run(INIT, es), fs) && c in Run(Run(INIT, es), fs).handed
  {
    Reachable(es);
    fs := CanBeDelivered(Run(INIT, es), c);
  }

  /** The state after a call that saw the launch running took the lock behind its release. */
  ghost function LateCalled(c: Command): (r: System) {
    System(Core([c], [], [], map[c.id := c.tool]), [], [c], [], [], map[], Released, 0, 0)
  }

  /** A call can race with the release: its command is queued for good, handed over in no continuation. */
  lemma {:induction false} LateCallIsStranded(c: Command, fs: seq<Event>)
    ensures EnabledRun(INIT, [AdmitCall, Stop] + [Exit, Call(c)])
    ensures Run(INIT, [AdmitCall, Stop] + [Exit, Call(c)]) == LateCalled(c)
    ensures EnabledRun(LateCalled(c), fs) ==> c !in Run(LateCalled(c), fs).handed
  {
    var t := INIT.(stage := Stopping, calls := 1);
    assert Next(Next(INIT, AdmitCall), Stop) == t;
    var u := t.(stage := Released);
    assert Next(t, Exit) == u;
    assert [] + [c] == [c];
    assert Next(u, Call(c)) == LateCalled(c);
    RunTwo(t, Exit, Call(c));
    TwoThen(INIT, AdmitCall, Stop, [Exit, Call(c)]);
    Reachable([AdmitCall, Stop] + [Exit, Call(c)]);
    if EnabledRun(LateCalled(c), fs) {
      StrandedForGood(LateCalled(c), fs, c);
    }
  }

  lemma {:induction false} FirstWithFinds(q: Batch, c: Command)
    requires c in q && forall d :: d in q && d.id == c.id ==> d == c
    ensures FirstWith(q, c.id) == [c]
  {
    if q[0].id != c.id {
      FirstWithFinds(q[1..], c);
    }
  }

  lemma {:induction false} GiveUpWithdraws(s: System, c: Command)
    requires Inv(s) && c in s.issued && c !in s.handed && InFlight(s, c) == 0
    ensures c in Next(s, GiveUp(c.id)).withdrawn
  {
    assert Times(s.issued, c) == 1;
    if c in s.core.queue {
      forall d | d in s.core.queue && d.id == c.id
        ensures d == c
      {
        assert Times(s.issued, d) > 0;
      }
      FirstWithFinds(s.core.queue, c);
    }
  }

  lemma {:induction false} GiveUpKeepsHeld(s: System, c: Command)
    requires Inv(s) && c in s.issued && c !in s.handed && InFlight(s, c) > 0
    ensures Inv(Next(s, GiveUp(c.id))) && c !in Next(s, GiveUp(c.id)).withdrawn
  {
    var r := Next(s, GiveUp(c.id));
    InvKept(s, GiveUp(c.id));
    assert InFlight(r, c) > 0;
    assert Times(r.issued, c) == 1;
  }

  lemma {:induction false} GiveUpLeavesHeld(s: System, c: Command) returns (es: seq<Event>)
    requires Inv(s) && c in s.issued && c !in s.handed && InFlight(s, c) > 0 && TakerLeft(s, c)
    ensures EnabledRun(Next(s, GiveUp(c.id)), es) && c in Run(Next(s, GiveUp(c.id)), es).handed
  {
    GiveUpKeepsHeld(s, c);
    SameTakers(s, c);
    es := CanBeDelivered(Next(s, GiveUp(c.id)), c);
  }

  lemma {:induction false} SameTakers(s: System, c: Command)
    requires WellFormed(s)
    ensures TakerLeft(Next(s, GiveUp(c.id)), c) <==> TakerLeft(s, c)
  {
    var r := Next(s, GiveUp(c.id));
    assert forall p :: Unserved(r, p) == Unserved(s, p) && Bearer(r, c, p) == Bearer(s, c, p);
  }

  /**
    Giving up keeps a command from being handed over later exactly when no poll holds
    it, or nobody is left to take it.
  */
  lemma {:induction false} GiveUpStopsIffNotHeld(s: System, c: Command)
    requires Inv(s) && c in s.issued && c !in s.handed
    ensures (forall es :: EnabledRun(Next(s, GiveUp(c.id)), es) ==> c !in Run(Next(s, GiveUp(c.id)), es).handed)
      <==> InFlight(s, c) == 0 || !TakerLeft(s, c)
  {
    var r := Next(s, GiveUp(c.id));
    InvKept(s, GiveUp(c.id));
    if InFlight(s, c) == 0 {
      GiveUpWithdraws(s, c);
      forall es | EnabledRun(r, es)
        ensures c !in Run(r, es).handed
      {
        WithdrawnStaysBack(r, es, c);
      }
    } else if TakerLeft(s, c) {
      var es := GiveUpLeavesHeld(s, c);
    } else {
      SameTakers(s, c);
      forall es | EnabledRun(r, es)
        ensures c !in Run(r, es).handed
      {
        StrandedForGood(r, es, c);
      }
    }
  }

  ghost function FirstParked(): (s: System) {
    System(Core([], [0], [None], map[]), [Waiting], [], [], [], map[], Open, 0, 0)
  }

  /** The parked poll was served with `c`. */
  ghost function Served(c: Command): (s: System) {
    FirstParked().(core := Core([], [], [Some([c])], map[c.id := c.tool]), issued := [c])
  }

  lemma {:induction false} CallServes(c: Command)
    ensures Next(Next(FirstParked(), AdmitCall), Call(c)) == Served(c)
  {
    var k := FirstParked().core;
    ServeOldest(k.(inflight := map[c.id := c.tool], queue := [c]));
    assert [] + [c] == [c] && [0][1..] == [] && [None][0 := Some([c])] == [Some([c])];
  }

  lemma {:induction false} ServeParked(c: Command)
    ensures EnabledRun(INIT, [AdmitPoll, PollEnter] + [AdmitCall, Call(c)])
    ensures Run(INIT, [AdmitPoll, PollEnter] + [AdmitCall, Call(c)]) == Served(c)
  {
    assert Next(Next(INIT, AdmitPoll), PollEnter) == FirstParked();
    CallServes(c);
    RunTwo(FirstParked(), AdmitCall, Call(c));
    TwoThen(INIT, AdmitPoll, PollEnter, [AdmitCall, Call(c)]);
  }

  /** A call gives up on a command that sits in a poll's slot: settled as abandoned, and handed over after that. */
  lemma {:induction false} LateExecution(c: Command)
    ensures var (es, fs) := ([AdmitPoll, PollEnter] + [AdmitCall, Call(c)], [PollTake(0), PollReturn(0)]);
      && EnabledRun(INIT, es)
      && var s := Next(Run(INIT, es), GiveUp(c.id));
      && c !in s.handed && s.settled == map[c.id := Abandoned]
      && EnabledRun(s, fs) && Run(s, fs).handed == [c] && Run(s, fs).settled == s.settled
  {
    ServeParked(c);
    var s := Next(Served(c), GiveUp(c.id));
    assert Next(s, PollTake(0)).phases == [Taken([c])];
    RunTwo(s, PollTake(0), PollReturn(0));
  }
}
