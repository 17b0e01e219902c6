/**
  The receiving task and the event loop around the shared queue, in every
  interleaving of their steps.
*/
module EventPump {
  import opened EventQueue

  /** The receiving task: between events, between push and swap, or about to post. */
  datatype Receiver = Waiting | Pushed | Posting

  /** The event loop: idle, in a closure that has lowered the flag, or dispatching its batch. */
  datatype Loop = Idle | Lowered | Dispatching(batch: seq<EngineEvent>)

  /** `posted` counts the closures the event loop has yet to start. */
  datatype System = System(
    shared: Shared,
    posted: nat,
    receiver: Receiver,
    loop: Loop,
    received: seq<EngineEvent>,
    dispatched: seq<EngineEvent>)

  const INIT := System(Shared([], false), 0, Waiting, Idle, [], [])

  /** `Post` may be refused by the event loop; at `Take` the window may be gone. */
  datatype Event =
    | Receive(ev: EngineEvent)
    | Swap
    | Post(accepted: bool)
    | Start
    | Take(window: bool)
    | Dispatch
    | Return

  predicate Enabled(s: System, e: Event) {
    match e
    case Receive(_) => s.receiver.Waiting?
    case Swap => s.receiver.Pushed?
    case Post(_) => s.receiver.Posting?
    case Start => s.loop.Idle? && s.posted > 0
    case Take(_) => s.loop.Lowered?
    case Dispatch => s.loop.Dispatching? && s.loop.batch != []
    case Return => s.loop.Dispatching? && s.loop.batch == []
  }

  function Next(s: System, e: Event): (r: System)
    requires Enabled(s, e)
  {
    match e
    case Receive(ev) => s.(shared := WithEvent(s.shared, ev), received := s.received + [ev], receiver := Pushed)
    case Swap => s.(shared := Claimed(s.shared), receiver := if s.shared.scheduled then Waiting else Posting)
    case Post(accepted) => s.(posted := if accepted then s.posted + 1 else s.posted, receiver := Waiting)
    case Start => s.(shared := FlagDown(s.shared), posted := s.posted - 1, loop := Lowered)
    case Take(window) =>
      s.(shared := Emptied(s.shared), loop := if window then Dispatching(s.shared.events) else Idle)
    case Dispatch => s.(dispatched := s.dispatched + [s.loop.batch[0]], loop := Dispatching(s.loop.batch[1..]))
    case Return => s.(loop := Idle)
  }

  predicate EnabledRun(s: System, es: seq<Event>)
    decreases |es|
  {
    es == [] || (Enabled(s, es[0]) && EnabledRun(Next(s, es[0]), es[1..]))
  }

  function Run(s: System, es: seq<Event>): (r: System)
    requires EnabledRun(s, es)
    decreases |es|
  {
    if es == [] then s else Run(Next(s, es[0]), es[1..])
  }

  function InHand(s: System): (r: seq<EngineEvent>) { if s.loop.Dispatching? then s.loop.batch else [] }

  /** Everything received is dispatched, in hand or queued, in the order it came. */
  predicate InOrder(s: System) { s.received == s.dispatched + InHand(s) + s.shared.events }

  predicate WindowLives(es: seq<Event>) { forall k :: 0 <= k < |es| ==> es[k] != Take(false) }

  predicate PostsAccepted(es: seq<Event>) { forall k :: 0 <= k < |es| ==> es[k] != Post(false) }

  predicate Quiet(es: seq<Event>) { forall k :: 0 <= k < |es| ==> !es[k].Receive? }

  /** The flag stands for exactly one closure, posted or about to be. */
  predicate OneClosure(s: System) {
    s.posted + (if s.receiver.Posting? then 1 else 0) == if s.shared.scheduled then 1 else 0
  }

  /** Someone will still take what is queued. */
  predicate TakerComing(s: System) {
    s.posted > 0 || s.receiver.Pushed? || s.receiver.Posting? || s.loop.Lowered?
  }

  predicate Inv(s: System) { OneClosure(s) && (s.shared.events != [] ==> TakerComing(s)) }

  lemma {:induction false} InOrderKept(s: System, e: Event)
    requires InOrder(s) && Enabled(s, e) && e != Take(false)
    ensures InOrder(Next(s, e))
  {
  }

  lemma {:induction false} InOrderOnRun(s: System, es: seq<Event>)
    requires InOrder(s) && EnabledRun(s, es) && WindowLives(es)
    ensures InOrder(Run(s, es))
    decreases |es|
  {
    if es != [] {
      InOrderKept(s, es[0]);
      InOrderOnRun(Next(s, es[0]), es[1..]);
    }
  }

  /** In every interleaving, what is dispatched is what was received, in order and once, up to a point. */
  lemma {:induction false} DispatchedOnceInOrder(es: seq<Event>)
    requires EnabledRun(INIT, es) && WindowLives(es)
    ensures Run(INIT, es).dispatched <= Run(INIT, es).received
    ensures InOrder(Run(INIT, es))
  {
    InOrderOnRun(INIT, es);
  }

  lemma {:induction false} InvKept(s: System, e: Event)
    requires Inv(s) && Enabled(s, e) && e != Post(false)
    ensures Inv(Next(s, e))
  {
  }

  lemma {:induction false} InvOnRun(s: System, es: seq<Event>)
    requires Inv(s) && EnabledRun(s, es) && PostsAccepted(es)
    ensures Inv(Run(s, es))
    decreases |es|
  {
    if es != [] {
      InvKept(s, es[0]);
      InvOnRun(Next(s, es[0]), es[1..]);
    }
  }

  /** A non-empty queue always has a taker coming, and never two closures waiting. */
  lemma {:induction false} QueueIsServed(es: seq<Event>)
    requires EnabledRun(INIT, es) && PostsAccepted(es)
    ensures var s := Run(INIT, es);
      s.posted <= 1 && (s.shared.events != [] ==> TakerComing(s))
  {
    InvOnRun(INIT, es);
  }

  // ---- Everything is dispatched in the end ----

  function Measure(s: System): (r: nat) {
    |s.shared.events| + 3 * s.posted
    + (match s.receiver case Waiting => 0 case Pushed => 5 case Posting => 4)
    + (match s.loop case Idle => 0 case Lowered => 2 case Dispatching(b) => 1 + |b|)
  }

  predicate Settled(s: System) { s.receiver.Waiting? && s.loop.Idle? && s.posted == 0 }

  lemma {:induction false} QuietRunsEnd(s: System, es: seq<Event>)
    requires EnabledRun(s, es) && Quiet(es)
    ensures |es| + Measure(Run(s, es)) <= Measure(s)
    decreases |es|
  {
    if es != [] {
      assert Measure(Next(s, es[0])) < Measure(s);
      QuietRunsEnd(Next(s, es[0]), es[1..]);
    }
  }

  /** Some step other than a new event is possible until both sides are at rest. */
  lemma {:induction false} StepUntilSettled(s: System) returns (e: Event)
    requires !Settled(s)
    ensures Enabled(s, e) && !e.Receive? && e != Post(false) && e != Take(false)
  {
    e := match s.loop
      case Lowered => Take(true)
      case Dispatching(b) => if b == [] then Return else Dispatch
      case Idle =>
        match s.receiver
        case Pushed => Swap
        case Posting => Post(true)
        case Waiting => Start;
  }

  /** At rest, whatever the interleaving was, every received event has been dispatched, in order. */
  lemma {:induction false} AllDispatchedAtRest(es: seq<Event>)
    requires EnabledRun(INIT, es) && WindowLives(es) && PostsAccepted(es) && Settled(Run(INIT, es))
    ensures Run(INIT, es).dispatched == Run(INIT, es).received
  {
    InOrderOnRun(INIT, es);
    InvOnRun(INIT, es);
  }

  // ---- When the event loop refuses the closure ----

  /** What is queued has a taker coming. */
  predicate QueueTaken(s: System) { s.shared.events != [] ==> TakerComing(s) }

  /** The flag is up, but no closure stands for it. */
  predicate Stuck(s: System) { s.shared.scheduled && s.posted == 0 && !s.receiver.Posting? }

  lemma {:induction false} StuckForever(s: System, es: seq<Event>)
    requires Stuck(s) && EnabledRun(s, es)
    ensures Stuck(Run(s, es))
    decreases |es|
  {
    if es != [] {
      StuckForever(Next(s, es[0]), es[1..]);
    }
  }

  /** With the flag stuck and no closure about to take, an event received now is left in the queue. */
  lemma {:induction false} StuckLosesNext(s: System, ev: EngineEvent)
    requires Stuck(s) && s.receiver.Waiting? && !s.loop.Lowered?
    ensures EnabledRun(s, [Receive(ev), Swap]) && !QueueTaken(Run(s, [Receive(ev), Swap]))
  {
    var t := Next(s, Receive(ev));
    assert Next(t, Swap).shared.events == s.shared.events + [ev];
    assert [Receive(ev), Swap][1..] == [Swap] && [Swap][1..] == [];
    assert Run(t, [Swap]) == Run(Next(t, Swap), []);
  }

  /** After a refusal, the next event is left in the queue with nobody coming. */
  lemma {:induction false} RefusalLosesNext(s: System, ev: EngineEvent) returns (es: seq<Event>)
    requires Inv(s) && Enabled(s, Post(false))
    ensures EnabledRun(Next(s, Post(false)), es) && PostsAccepted(es) && !QueueTaken(Run(Next(s, Post(false)), es))
  {
    var r := Next(s, Post(false));
    if r.loop.Lowered? {
      StuckLosesNext(Next(r, Take(true)), ev);
      es := [Take(true)] + [Receive(ev), Swap];
      assert es[1..] == [Receive(ev), Swap];
    } else {
      StuckLosesNext(r, ev);
      es := [Receive(ev), Swap];
    }
  }

  /** Every later queue has a taker coming, in every continuation, exactly when the post is accepted. */
  lemma {:induction false} PostServesIff(s: System, accepted: bool)
    requires Inv(s) && Enabled(s, Post(accepted))
    ensures (forall es :: EnabledRun(Next(s, Post(accepted)), es) && PostsAccepted(es)
                ==> QueueTaken(Run(Next(s, Post(accepted)), es))) <==> accepted
  {
    var r := Next(s, Post(accepted));
    if accepted {
      InvKept(s, Post(true));
      forall es | EnabledRun(r, es) && PostsAccepted(es)
        ensures QueueTaken(Run(r, es))
      {
        InvOnRun(r, es);
      }
    } else {
      var es := RefusalLosesNext(s, "");
    }
  }

  /** The batch the event loop still has to dispatch: in hand, or taken by the closure under way. */
  function LastBatch(s: System, es: seq<Event>): (b: seq<EngineEvent>)
    requires EnabledRun(s, es)
    decreases |es|
  {
    if !s.loop.Lowered? then InHand(s)
    else if es == [] then []
    else if es[0].Take? then (if es[0].window then s.shared.events else [])
    else LastBatch(Next(s, es[0]), es[1..])
  }

  lemma {:induction false} OnlyLastBatch(s: System, es: seq<Event>)
    requires Stuck(s) && EnabledRun(s, es)
    ensures Run(s, es).dispatched <= s.dispatched + LastBatch(s, es)
    decreases |es|
  {
    if es != [] {
      var r := Next(s, es[0]);
      OnlyLastBatch(r, es[1..]);
      if es[0].Dispatch? {
        assert s.loop.batch == [s.loop.batch[0]] + s.loop.batch[1..];
        assert s.dispatched + s.loop.batch == r.dispatched + s.loop.batch[1..];
      }
    }
  }

  /**
    A refused closure ends the pump: the flag stays up for good, no closure is posted
    ever again, and all that is still dispatched is the batch in hand, or the one that a
    closure under way has yet to take.
  */
  lemma {:induction false} RefusalIsFinal(s: System, es: seq<Event>)
    requires Inv(s) && s.receiver.Posting? && EnabledRun(Next(s, Post(false)), es)
    ensures var (r, t) := (Next(s, Post(false)), Run(Next(s, Post(false)), es));
      t.shared.scheduled && t.posted == 0 && t.dispatched <= s.dispatched + LastBatch(r, es)
  {
    var r := Next(s, Post(false));
    StuckForever(r, es);
    OnlyLastBatch(r, es);
  }

  /** A refusal can meet the very first event: it is queued, its closure is refused, and nobody comes for it. */
  lemma {:induction false} FirstPostRefused(ev: EngineEvent)
    ensures var es := [Receive(ev), Swap];
      && EnabledRun(INIT, es) && Enabled(Run(INIT, es), Post(false))
      && !QueueTaken(Next(Run(INIT, es), Post(false)))
  {
    var s := Next(INIT, Receive(ev));
    assert [Receive(ev), Swap][1..] == [Swap] && [Swap][1..] == [];
    assert Run(s, [Swap]) == Run(Next(s, Swap), []);
    assert Next(s, Swap).shared.events == [ev];
  }
}
