/**
  Order of hand-over: while at most one poll is live at a time, the commands
  handed over, held and queued are the issued ones that were not withdrawn, in
  the order they were issued. With two live polls the order can break.
*/
module RelayOrder {
  import opened Wrappers
  import opened RelayModel
  import opened RelaySystem
  import opened RelayConservation

  /** Every poll but the newest has finished. */
  ghost predicate OneLive(s: System) {
    forall p :: 0 <= p < |s.phases| - 1 ==> s.phases[p].Finished?
  }

  /** A poll enters only after the one before it finished. */
  ghost predicate OnePollAtATime(s: System, e: Event) {
    e.PollEnter? ==> forall p :: 0 <= p < |s.phases| ==> s.phases[p].Finished?
  }

  ghost predicate EnabledSerially(s: System, es: seq<Event>)
    requires WellFormed(s)
    decreases |es|
  {
    es == [] || (Enabled(s, es[0]) && OnePollAtATime(s, es[0]) && EnabledSerially(Next(s, es[0]), es[1..]))
  }

  /** What the newest poll took and what landed in its slot since. */
  ghost function InHand(s: System): (r: Batch)
    requires WellFormed(s)
  {
    var n := |s.phases|;
    if n == 0 then [] else Carried(s.phases[n - 1]) + Content(s.core.slots[n - 1])
  }

  ghost function Pipeline(s: System): (r: Batch)
    requires WellFormed(s)
  {
    s.handed + InHand(s) + s.core.queue
  }

  /** The commands of `q` that are not in `w`, in order. */
  ghost function Kept(q: Batch, w: Batch): (r: Batch) {
    if q == [] then [] else (if q[0] in w then [] else [q[0]]) + Kept(q[1..], w)
  }

  ghost predicate InOrder(s: System) {
    WellFormed(s) && OneLive(s) && Pipeline(s) == Kept(s.issued, s.withdrawn)
  }

  // ---- Filtering ----

  lemma {:induction false} KeptConcat(a: Batch, b: Batch, w: Batch)
    ensures Kept(a + b, w) == Kept(a, w) + Kept(b, w)
  {
    if a == [] {
      assert a + b == b;
    } else {
      var head := if a[0] in w then [] else [a[0]];
      KeptConcat(a[1..], b, w);
      assert (a + b)[0] == a[0] && (a + b)[1..] == a[1..] + b;
      assert head + (Kept(a[1..], w) + Kept(b, w)) == (head + Kept(a[1..], w)) + Kept(b, w);
    }
  }

  lemma {:induction false} KeptTwice(q: Batch, w: Batch, f: Batch)
    ensures Kept(Kept(q, w), f) == Kept(q, w + f)
  {
    if q != [] {
      KeptTwice(q[1..], w, f);
      KeptConcat(if q[0] in w then [] else [q[0]], Kept(q[1..], w), f);
    }
  }

  lemma {:induction false} KeptAll(q: Batch, w: Batch)
    requires forall c :: c in q ==> c !in w
    ensures Kept(q, w) == q
  {
    if q != [] {
      KeptAll(q[1..], w);
    }
  }

  lemma {:induction false} KeptNone(q: Batch, w: Batch)
    requires forall c :: c in q ==> c in w
    ensures Kept(q, w) == []
  {
    if q != [] {
      KeptNone(q[1..], w);
    }
  }

  lemma {:induction false} RemoveIsKept(q: Batch, id: string)
    requires forall c :: c in q ==> Times(q, c) == 1
    ensures RemoveId(q, id) == Kept(q, FirstWith(q, id))
  {
    if q != [] {
      assert q == [q[0]] + q[1..];
      forall c | c in q[1..]
        ensures Times(q[1..], c) == 1 && c != q[0]
      {
        assert Times(q, c) == Times([q[0]], c) + Times(q[1..], c);
      }
      if q[0].id == id {
        KeptAll(q[1..], [q[0]]);
      } else {
        RemoveIsKept(q[1..], id);
        RemoveSplits(q[1..], id, q[0]);
      }
    }
  }

  // ---- One step ----

  /** A queued command is queued once and is neither handed over nor held. */
  lemma {:induction false} QueuedOnly(s: System, c: Command)
    requires Inv(s) && c in s.core.queue
    ensures Times(s.core.queue, c) == 1 && c !in s.handed && c !in InHand(s)
  {
    assert Times(s.issued, c) == 1;
    var n := |s.phases|;
    if n > 0 {
      CopiesAt(Contents(s.core.slots), n - 1, c);
      CopiesAt(Outs(s.phases), n - 1, c);
    }
  }

  /** Removing queued commands from the pipeline is filtering them out. */
  lemma {:induction false} WithdrawKeepsOrder(s: System, f: Batch)
    requires Inv(s) && InOrder(s)
    requires forall c :: c in f ==> c in s.core.queue
    ensures s.handed + InHand(s) + Kept(s.core.queue, f) == Kept(s.issued, s.withdrawn + f)
  {
    KeptTwice(s.issued, s.withdrawn, f);
    KeptConcat(s.handed + InHand(s), s.core.queue, f);
    forall c | c in s.handed + InHand(s)
      ensures c !in f
    {
      if c in f {
        QueuedOnly(s, c);
      }
    }
    KeptAll(s.handed + InHand(s), f);
  }

  lemma {:induction false} ConstantNotDistinct(ws: seq<nat>)
    requires |ws| > 1 && forall i :: 0 <= i < |ws| ==> ws[i] == ws[0]
    ensures !Distinct(ws)
  {
    assert ws[0] == ws[1];
  }

  lemma {:induction false} WaitersAreNewest(s: System)
    requires HandOver(s) && OneLive(s)
    ensures s.core.waiters == [] || s.core.waiters == [|s.phases| - 1]
  {
    var ws := s.core.waiters;
    assert forall i :: 0 <= i < |ws| ==> ws[i] == |s.phases| - 1;
    if |ws| > 1 {
      ConstantNotDistinct(ws);
    }
  }

  lemma {:induction false} CallExtendsPipeline(s: System, cmd: Command)
    requires HandOver(s) && OneLive(s) && Enabled(s, Call(cmd)) && |s.core.queue| < MAX_QUEUE
    ensures Pipeline(Next(s, Call(cmd))) == Pipeline(s) + [cmd]
  {
    var r := Next(s, Call(cmd));
    WaitersAreNewest(s);
    if s.core.waiters == [] {
      assert r.core.queue == s.core.queue + [cmd] && r.core.slots == s.core.slots;
    } else {
      assert s.core.queue == [] && s.core.slots[|s.phases| - 1] == None;
      assert r.core.queue == [] && r.core.slots[|s.phases| - 1] == Some([] + [cmd]);
      assert InHand(r) == InHand(s) + [cmd];
    }
  }

  lemma {:induction false} FreshNotWithdrawn(s: System, cmd: Command)
    requires Inv(s) && Enabled(s, Call(cmd))
    ensures cmd !in s.withdrawn
  {
    assert Times(s.issued, cmd) == 0;
  }

  lemma {:induction false} KeptExtends(q: Batch, cmd: Command, w: Batch)
    requires cmd !in w
    ensures Kept(q + [cmd], w) == Kept(q, w) + [cmd]
  {
    KeptConcat(q, [cmd], w);
    assert Kept([cmd], w) == [cmd];
  }

  lemma {:induction false} CallKeepsOrder(s: System, cmd: Command)
    requires Inv(s) && InOrder(s) && Enabled(s, Call(cmd)) && |s.core.queue| < MAX_QUEUE
    ensures InOrder(Next(s, Call(cmd)))
  {
    CallExtendsPipeline(s, cmd);
    FreshNotWithdrawn(s, cmd);
    KeptExtends(s.issued, cmd, s.withdrawn);
    OrderAfter(Next(s, Call(cmd)));
  }

  lemma {:induction false} DropGuardKeepsOrder(s: System, p: nat)
    requires HandOver(s) && OneLive(s) && p == |s.phases| - 1
    ensures DropGuard(s.core, p).queue == Content(s.core.slots[p]) + s.core.queue
    ensures DropGuard(s.core, p).slots == s.core.slots[p := None]
  {
    WaitersAreNewest(s);
    assert Without(s.core.waiters, p) == [];
  }

  lemma {:induction false} FirstWithInQueue(q: Batch, id: string)
    ensures forall c :: c in FirstWith(q, id) ==> c in q
  {
    if q != [] {
      FirstWithInQueue(q[1..], id);
    }
  }

  lemma {:induction false} Regroup(a: Batch, b: Batch, c: Batch, d: Batch)
    ensures (a + b) + [] + (c + d) == a + (b + c) + d
  {
  }

  lemma {:induction false} EnterPipeline(s: System)
    requires WellFormed(s) && Enabled(s, PollEnter) && InHand(s) == []
    ensures Pipeline(Next(s, PollEnter)) == Pipeline(s)
  {
    var r := Next(s, PollEnter);
    assert r.core.slots[|s.phases|] == None;
    assert Carried(r.phases[|s.phases|]) == [];
    assert InHand(r) == [];
    assert r.handed + r.core.queue == s.handed + s.core.queue;
    Regroup(s.handed, [], [], s.core.queue);
    Regroup(r.handed, [], [], r.core.queue);
  }

  lemma {:induction false} SameOrder(s: System, r: System)
    requires InOrder(s) && WellFormed(r) && OneLive(r) && Pipeline(r) == Pipeline(s)
    requires r.issued == s.issued && r.withdrawn == s.withdrawn
    ensures InOrder(r)
  {
  }

  lemma {:induction false} NothingInHand(s: System)
    requires HandOver(s) && Enabled(s, PollEnter) && OnePollAtATime(s, PollEnter)
    ensures InHand(s) == [] && OneLive(Next(s, PollEnter))
  {
    var n := |s.phases|;
    assert n > 0 ==> s.phases[n - 1].Finished? && s.core.slots[n - 1] == None;
  }

  lemma {:induction false} EnterKeepsOrder(s: System)
    requires HandOver(s) && Enabled(s, PollEnter) && InOrder(s) && OnePollAtATime(s, PollEnter)
    ensures InOrder(Next(s, PollEnter))
  {
    NothingInHand(s);
    EnterPipeline(s);
    SameOrder(s, Next(s, PollEnter));
  }

  lemma {:induction false} TakeKeepsOrder(s: System, p: nat)
    requires HandOver(s) && InOrder(s) && Enabled(s, PollTake(p))
    ensures InOrder(Next(s, PollTake(p)))
  {
    assert p == |s.phases| - 1;
    assert InHand(Next(s, PollTake(p))) == InHand(s);
  }

  lemma {:induction false} ReturnPipeline(s: System, p: nat)
    requires WellFormed(s) && Enabled(s, PollReturn(p)) && p == |s.phases| - 1
    requires DropGuard(s.core, p).queue == Content(s.core.slots[p]) + s.core.queue
    requires DropGuard(s.core, p).slots == s.core.slots[p := None]
    ensures Pipeline(Next(s, PollReturn(p))) == Pipeline(s)
  {
    var r := Next(s, PollReturn(p));
    assert InHand(r) == [];
    Regroup(s.handed, s.phases[p].batch, Content(s.core.slots[p]), s.core.queue);
  }

  lemma {:induction false} ReturnKeepsOrder(s: System, p: nat)
    requires HandOver(s) && InOrder(s) && Enabled(s, PollReturn(p))
    ensures InOrder(Next(s, PollReturn(p)))
  {
    assert p == |s.phases| - 1;
    DropGuardKeepsOrder(s, p);
    ReturnPipeline(s, p);
  }

  lemma {:induction false} HangUpPipeline(s: System, p: nat)
    requires WellFormed(s) && Enabled(s, HangUp(p)) && p == |s.phases| - 1
    requires DropGuard(s.core, p).queue == Content(s.core.slots[p]) + s.core.queue
    requires DropGuard(s.core, p).slots == s.core.slots[p := None]
    ensures Pipeline(Next(s, HangUp(p))) == Pipeline(s)
  {
    var r := Next(s, HangUp(p));
    assert InHand(r) == [];
    assert s.handed + [] == s.handed;
    Regroup(s.handed, [], Content(s.core.slots[p]), s.core.queue);
  }

  lemma {:induction false} HangUpKeepsOrder(s: System, p: nat)
    requires HandOver(s) && InOrder(s) && Enabled(s, HangUp(p))
    ensures InOrder(Next(s, HangUp(p)))
  {
    assert p == |s.phases| - 1;
    DropGuardKeepsOrder(s, p);
    HangUpPipeline(s, p);
  }

  lemma {:induction false} GiveUpKeepsOrder(s: System, id: string)
    requires Inv(s) && InOrder(s)
    ensures InOrder(Next(s, GiveUp(id)))
  {
    var f := FirstWith(s.core.queue, id);
    FirstWithInQueue(s.core.queue, id);
    forall c | c in s.core.queue
      ensures Times(s.core.queue, c) == 1
    {
      QueuedOnly(s, c);
    }
    RemoveIsKept(s.core.queue, id);
    WithdrawKeepsOrder(s, f);
    assert InHand(Next(s, GiveUp(id))) == InHand(s);
  }

  lemma {:induction false} ExitKeepsHand(s: System)
    requires Inv(s) && Enabled(s, Exit)
    ensures InHand(Next(s, Exit)) == InHand(s)
  {
    var n := |s.phases|;
    WakeAllConserves(s.core.slots, s.core.waiters);
    assert Contents(Next(s, Exit).core.slots) == Contents(s.core.slots);
    if n > 0 {
      assert Content(Next(s, Exit).core.slots[n - 1]) == Contents(s.core.slots)[n - 1];
    }
  }

  lemma {:induction false} ExitPipeline(s: System)
    requires WellFormed(s) && Enabled(s, Exit) && InHand(Next(s, Exit)) == InHand(s)
    requires s.handed + InHand(s) + Kept(s.core.queue, s.core.queue) == Kept(s.issued, s.withdrawn + s.core.queue)
    ensures Pipeline(Next(s, Exit)) == Kept(s.issued, s.withdrawn + s.core.queue)
  {
    KeptNone(s.core.queue, s.core.queue);
  }

  lemma {:induction false} OrderAfter(r: System)
    requires WellFormed(r) && OneLive(r) && Pipeline(r) == Kept(r.issued, r.withdrawn)
    ensures InOrder(r)
  {
  }

  lemma {:induction false} ExitKeepsOrder(s: System)
    requires Inv(s) && Enabled(s, Exit) && InOrder(s)
    ensures InOrder(Next(s, Exit))
  {
    WithdrawKeepsOrder(s, s.core.queue);
    ExitKeepsHand(s);
    ExitPipeline(s);
    OrderAfter(Next(s, Exit));
  }

  lemma {:induction false} ReportKeepsOrder(s: System, id: string)
    requires InOrder(s)
    ensures InOrder(Next(s, Report(id)))
  {
    assert InHand(Next(s, Report(id))) == InHand(s);
  }

  /** The checks made without the lock touch no command. */
  lemma {:induction false} AsideKeepsOrder(s: System, e: Event)
    requires InOrder(s) && Enabled(s, e) && (e.AdmitCall? || e.AdmitPoll? || e.Stop?)
    ensures InOrder(Next(s, e))
  {
    assert InHand(Next(s, e)) == InHand(s);
  }

  lemma {:induction false} OfferKeepsOrder(s: System, cmd: Command)
    requires Inv(s) && InOrder(s) && Enabled(s, Call(cmd))
    ensures InOrder(Next(s, Call(cmd)))
  {
    if |s.core.queue| < MAX_QUEUE {
      CallKeepsOrder(s, cmd);
    }
  }

  lemma {:induction false} OrderKept(s: System, e: Event)
    requires Inv(s) && InOrder(s) && Enabled(s, e) && OnePollAtATime(s, e)
    ensures InOrder(Next(s, e))
  {
    match e
    case Call(cmd) => OfferKeepsOrder(s, cmd);
    case PollEnter => EnterKeepsOrder(s);
    case PollTake(p) => TakeKeepsOrder(s, p);
    case PollReturn(p) => ReturnKeepsOrder(s, p);
    case HangUp(p) => HangUpKeepsOrder(s, p);
    case GiveUp(id) => GiveUpKeepsOrder(s, id);
    case Report(id) => ReportKeepsOrder(s, id);
    case AdmitCall => AsideKeepsOrder(s, e);
    case AdmitPoll => AsideKeepsOrder(s, e);
    case Stop => AsideKeepsOrder(s, e);
    case Exit => ExitKeepsOrder(s);
  }

  lemma {:induction false} OrderOnRun(s: System, es: seq<Event>)
    requires Inv(s) && InOrder(s) && EnabledSerially(s, es)
    ensures EnabledRun(s, es) && InOrder(Run(s, es))
    decreases |es|
  {
    if es != [] {
      InvKept(s, es[0]);
      OrderKept(s, es[0]);
      OrderOnRun(Next(s, es[0]), es[1..]);
    }
  }

  /** With one poll at a time, hand-over is first in, first out across drops and put-backs. */
  lemma {:induction false} HandedInOrder(es: seq<Event>)
    requires EnabledSerially(INIT, es)
    ensures EnabledRun(INIT, es)
    ensures var s := Run(INIT, es);
      s.handed + InHand(s) + s.core.queue == Kept(s.issued, s.withdrawn)
  {
    assert Inv(INIT);
    OrderOnRun(INIT, es);
  }

  /** Two parked polls served with one command each, and nothing returned yet. */
  ghost function BothServed(a: Command, b: Command): (s: System) {
    System(Core([], [], [Some([a]), Some([b])], map[a.id := a.tool, b.id := b.tool]), [Waiting, Waiting],
           [a, b], [], [], map[], Open, 0, 0)
  }

  ghost function BothParked(): (s: System) {
    System(Core([], [0, 1], [None, None], map[]), [Waiting, Waiting], [], [], [], map[], Open, 0, 0)
  }

  lemma {:induction false} ParkBoth(tail: seq<Event>)
    requires EnabledRun(BothParked(), tail)
    ensures var es := [AdmitPoll, PollEnter] + ([AdmitPoll, PollEnter] + tail);
      EnabledRun(INIT, es) && Run(INIT, es) == Run(BothParked(), tail)
  {
    assert Next(Next(INIT, AdmitPoll), PollEnter) == FirstParked();
    assert Next(Next(FirstParked(), AdmitPoll), PollEnter) == BothParked();
    TwoThen(FirstParked(), AdmitPoll, PollEnter, tail);
    TwoThen(INIT, AdmitPoll, PollEnter, [AdmitPoll, PollEnter] + tail);
  }

  /** The older poll got `a`, the other one waits. */
  ghost function FirstServed(a: Command): (s: System) {
    System(Core([], [1], [Some([a]), None], map[a.id := a.tool]), [Waiting, Waiting], [a], [], [], map[], Open, 0, 0)
  }

  lemma {:induction false} ServeFirst(a: Command)
    ensures Next(Next(BothParked(), AdmitCall), Call(a)) == FirstServed(a)
  {
    var c := BothParked().core;
    ServeOldest(c.(inflight := map[a.id := a.tool], queue := [a]));
    assert [] + [a] == [a] && [0, 1][1..] == [1] && [None, None][0 := Some([a])] == [Some([a]), None];
  }

  lemma {:induction false} ServeSecond(a: Command, b: Command)
    requires a.id != b.id
    ensures Enabled(Next(FirstServed(a), AdmitCall), Call(b))
    ensures Next(Next(FirstServed(a), AdmitCall), Call(b)) == BothServed(a, b)
  {
    var c := FirstServed(a).core;
    ServeOldest(c.(inflight := c.inflight[b.id := b.tool], queue := [b]));
    assert [] + [b] == [b] && [1][1..] == [] && [a] + [b] == [a, b];
    assert [Some([a]), None][1 := Some([b])] == [Some([a]), Some([b])];
  }

  lemma {:induction false} ServeBoth(a: Command, b: Command, tail: seq<Event>)
    requires a.id != b.id && EnabledRun(BothServed(a, b), tail)
    ensures var es := [AdmitCall, Call(a)] + ([AdmitCall, Call(b)] + tail);
      EnabledRun(BothParked(), es) && Run(BothParked(), es) == Run(BothServed(a, b), tail)
  {
    ServeFirst(a);
    ServeSecond(a, b);
    TwoThen(FirstServed(a), AdmitCall, Call(b), tail);
    TwoThen(BothParked(), AdmitCall, Call(a), [AdmitCall, Call(b)] + tail);
  }

  /** Both polls after the second one has returned its command. */
  ghost function SecondReturned(a: Command, b: Command): (s: System) {
    var s := BothServed(a, b);
    s.(core := s.core.(slots := [Some([a]), None]), phases := [Waiting, Finished], handed := [b])
  }

  lemma {:induction false} SecondReturns(a: Command, b: Command, tail: seq<Event>)
    requires EnabledRun(SecondReturned(a, b), tail)
    ensures EnabledRun(BothServed(a, b), [PollTake(1), PollReturn(1)] + tail)
    ensures Run(BothServed(a, b), [PollTake(1), PollReturn(1)] + tail) == Run(SecondReturned(a, b), tail)
  {
    var s4 := BothServed(a, b);
    var s5 := s4.(core := s4.core.(slots := [Some([a]), None]), phases := [Waiting, Taken([b])]);
    assert Next(s4, PollTake(1)) == s5;
    assert Next(s5, PollReturn(1)) == SecondReturned(a, b);
    TwoThen(s4, PollTake(1), PollReturn(1), tail);
  }

  lemma {:induction false} FirstReturns(a: Command, b: Command)
    ensures var es := [PollTake(0), PollReturn(0)];
      EnabledRun(SecondReturned(a, b), es)
      && Run(SecondReturned(a, b), es).issued == [a, b] && Run(SecondReturned(a, b), es).handed == [b, a]
  {
    RunTwo(SecondReturned(a, b), PollTake(0), PollReturn(0));
  }

  /** Two live polls can return in the other order. */
  lemma {:induction false} TwoPollsCanSwap(a: Command, b: Command) returns (es: seq<Event>)
    requires a.id != b.id
    ensures EnabledRun(INIT, es) && Run(INIT, es).issued == [a, b] && Run(INIT, es).handed == [b, a]
  {
    es := [PollTake(0), PollReturn(0)];
    FirstReturns(a, b);
    SecondReturns(a, b, es);
    es := [PollTake(1), PollReturn(1)] + es;
    ServeBoth(a, b, es);
    es := [AdmitCall, Call(a)] + ([AdmitCall, Call(b)] + es);
    ParkBoth(es);
    es := [AdmitPoll, PollEnter] + ([AdmitPoll, PollEnter] + es);
  }
}
