/**
  The pump from the engine's event stream to the user interface: one side pushes to a
  shared queue and raises a flag, the other lowers the flag and empties the queue.
*/
module EventQueue {

  /** An engine event, its kind and payload carried as one text. */
  type EngineEvent = string

  /** What the two sides share: the queued events, and whether a closure is scheduled. */
  datatype Shared = Shared(events: seq<EngineEvent>, scheduled: bool)

  function WithEvent(s: Shared, ev: EngineEvent): (r: Shared) { s.(events := s.events + [ev]) }

  /** Raise the flag. Whoever finds it down posts a closure. */
  function Claimed(s: Shared): (r: Shared) { s.(scheduled := true) }

  function FlagDown(s: Shared): (r: Shared) { s.(scheduled := false) }

  /** Take every event. */
  function Emptied(s: Shared): (r: Shared) { s.(events := []) }

  class Queue {
    var events: seq<EngineEvent>
    var scheduled: bool

    ghost function View(): (s: Shared)
      reads this
    {
      Shared(events, scheduled)
    }

    constructor ()
      ensures View() == Shared([], false)
    {
      events, scheduled := [], false;
    }

    method Push(ev: EngineEvent)
      modifies this`events
      ensures View() == WithEvent(old(View()), ev)
    {
      events := events + [ev];
    }

    /** Raise the flag; true for the caller that must post a closure. */
    method Claim() returns (first: bool)
      modifies this`scheduled
      ensures View() == Claimed(old(View())) && first == !old(View()).scheduled
    {
      first := !scheduled;
      scheduled := true;
    }

    method Lower()
      modifies this`scheduled
      ensures View() == FlagDown(old(View()))
    {
      scheduled := false;
    }

    method TakeAll() returns (batch: seq<EngineEvent>)
      modifies this`events
      ensures View() == Emptied(old(View())) && batch == old(View()).events
    {
      batch := events;
      events := [];
    }
  }
}
