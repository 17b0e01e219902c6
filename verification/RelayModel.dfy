/**
  The command relay of one agent launch as values: the fields a launch guards
  with its lock, and one function for each block the lock makes atomic. The
  class in `AgentLaunch` refines these functions; `RelaySystem` interleaves them.
*/
module RelayModel {
  import opened Wrappers

  const MAX_QUEUE: nat := 100

  datatype Command = Command(id: string, tool: string, args: string, timeoutMs: nat)
  type Batch = seq<Command>

  /** `waiters` lists parked polls, oldest first; a poll is an index into `slots`. */
  datatype Core = Core(queue: Batch, waiters: seq<nat>, slots: seq<Option<Batch>>, inflight: map<string, string>) {
    predicate WellFormed() {
      forall i :: 0 <= i < |waiters| ==> waiters[i] < |slots|
    }
  }

  const EMPTY := Core([], [], [], map[])

  /** Hand the queue to the oldest parked poll whose slot is free; the polls that refuse it leave the list. */
  function ReleasePollers(c: Core): (r: Core)
    requires c.WellFormed()
    ensures r.WellFormed() && |r.slots| == |c.slots| && r.inflight == c.inflight
    decreases |c.waiters|
  {
    if c.queue == [] || c.waiters == [] then c
    else
      var w := c.waiters[0];
      if c.slots[w].Some? then ReleasePollers(c.(waiters := c.waiters[1..]))
      else c.(queue := [], waiters := c.waiters[1..], slots := c.slots[w := Some(c.queue)])
  }

  /** The locked block of a call: refuse at the limit, otherwise enqueue and serve a parked poll. */
  function Enqueue(c: Core, cmd: Command): (r: Core)
    requires c.WellFormed()
    ensures r.WellFormed() && |r.slots| == |c.slots|
  {
    if |c.queue| >= MAX_QUEUE then c
    else ReleasePollers(c.(inflight := c.inflight[cmd.id := cmd.tool], queue := c.queue + [cmd]))
  }

  /** A poll enters: it leaves with the queue at once, or parks with an empty slot. */
  function Enter(c: Core): (r: Core)
    requires c.WellFormed()
    ensures r.WellFormed()
  {
    if c.queue != [] then c.(queue := [], slots := c.slots + [None])
    else c.(waiters := c.waiters + [|c.slots|], slots := c.slots + [None])
  }

  /** What a poll finds in its slot when it wakes. */
  function Content(slot: Option<Batch>): (r: Batch) { slot.GetOr([]) }

  function TakeSlot(c: Core, p: nat): (r: Core)
    requires c.WellFormed() && p < |c.slots|
    ensures r.WellFormed()
  {
    c.(slots := c.slots[p := None])
  }

  function Without(ps: seq<nat>, p: nat): (r: seq<nat>)
    ensures forall q :: q in r <==> q in ps && q != p
    ensures forall i :: 0 <= i < |r| ==> r[i] in ps
  {
    if ps == [] then [] else (if ps[0] == p then [] else [ps[0]]) + Without(ps[1..], p)
  }

  /** Dropping a poll's guard: leave the list and put a batch still in the slot back in front. */
  function DropGuard(c: Core, p: nat): (r: Core)
    requires c.WellFormed() && p < |c.slots|
    ensures r.WellFormed() && |r.slots| == |c.slots|
  {
    var left := Content(c.slots[p]);
    var c' := c.(waiters := Without(c.waiters, p), slots := c.slots[p := None]);
    if left == [] then c' else ReleasePollers(c'.(queue := left + c.queue))
  }

  /** Remove the first command with this id. */
  function RemoveId(q: Batch, id: string): (r: Batch) {
    if q == [] then [] else if q[0].id == id then q[1..] else [q[0]] + RemoveId(q[1..], id)
  }

  function Abandon(c: Core, id: string): (r: Core)
    requires c.WellFormed()
    ensures r.WellFormed()
  {
    c.(inflight := c.inflight - {id}, queue := RemoveId(c.queue, id))
  }

  function Complete(c: Core, id: string): (r: Core)
    requires c.WellFormed()
    ensures r.WellFormed()
  {
    c.(inflight := c.inflight - {id})
  }

  /** Offer an empty reply to every listed poll. */
  function WakeAll(slots: seq<Option<Batch>>, ws: seq<nat>): (r: seq<Option<Batch>>)
    requires forall i :: 0 <= i < |ws| ==> ws[i] < |slots|
    ensures |r| == |slots|
    decreases |ws|
  {
    if ws == [] then slots
    else WakeAll(if slots[ws[0]].Some? then slots else slots[ws[0] := Some([])], ws[1..])
  }

  /** The launch is gone: no pending call, no queue, every parked poll woken with nothing. */
  function Close(c: Core): (r: Core)
    requires c.WellFormed()
    ensures r.WellFormed() && |r.slots| == |c.slots|
  {
    Core([], [], WakeAll(c.slots, c.waiters), map[])
  }
}
