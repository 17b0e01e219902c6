/**
  The relay's objects as the program keeps them: a waiter with its slot and the
  launch fields under one lock. Every method is proved equal to its function in
  `RelayModel` on the view of the whole launch.
*/
module AgentLaunch {
  import opened Wrappers
  import opened RelayModel

  /** A parked poll and the slot its batch is parked in. */
  class PollWaiter {
    ghost const id: nat
    var slot: Option<Batch>

    constructor (ghost id: nat)
      ensures this.id == id && slot == None
    {
      this.id := id;
      slot := None;
    }

    /** Park a batch, or return it untouched when one is already parked. */
    method Deliver(batch: Batch) returns (back: Option<Batch>)
      modifies this
      ensures old(slot).Some? ==> slot == old(slot) && back == Some(batch)
      ensures old(slot).None? ==> slot == Some(batch) && back == None
    {
      if slot.Some? {
        return Some(batch);
      }
      slot := Some(batch);
      back := None;
    }

    method Take() returns (batch: Batch)
      modifies this
      ensures slot == None && batch == Content(old(slot))
    {
      batch := slot.GetOr([]);
      slot := None;
    }
  }

  ghost function Ids(ws: seq<PollWaiter>): (r: seq<nat>)
    ensures |r| == |ws| && forall i :: 0 <= i < |ws| ==> r[i] == ws[i].id
  {
    seq(|ws|, i requires 0 <= i < |ws| => ws[i].id)
  }

  ghost function SlotsOf(ps: seq<PollWaiter>): (r: seq<Option<Batch>>)
    reads ps
    ensures |r| == |ps| && forall i :: 0 <= i < |ps| ==> r[i] == ps[i].slot
  {
    seq(|ps|, i requires 0 <= i < |ps| reads ps => ps[i].slot)
  }

  class LaunchInner {
    var queue: Batch
    var waiters: seq<PollWaiter>
    var inflight: map<string, string>
    /** Every waiter ever made for this launch, in order of their ids. */
    ghost var polls: seq<PollWaiter>

    ghost predicate Valid()
      reads this, polls
    {
      && (forall i :: 0 <= i < |polls| ==> polls[i].id == i)
      && (forall i :: 0 <= i < |waiters| ==> waiters[i].id < |polls| && polls[waiters[i].id] == waiters[i])
    }

    ghost function View(): (c: Core)
      requires Valid()
      reads this, polls
      ensures c.WellFormed()
    {
      Core(queue, Ids(waiters), SlotsOf(polls), inflight)
    }

    constructor ()
      ensures Valid() && View() == EMPTY
    {
      queue, waiters, inflight, polls := [], [], map[], [];
    }

    /** Push a batch back in front of the queue, last command first. */
    method PutBack(batch: Batch)
      requires Valid()
      modifies this`queue
      ensures Valid() && queue == batch + old(queue)
    {
      var i := |batch|;
      while i > 0
        invariant 0 <= i <= |batch|
        invariant queue == batch[i..] + old(queue)
      {
        i := i - 1;
        queue := [batch[i]] + queue;
      }
    }

    /** Take the oldest waiter off the list and offer it the queue; put the queue back if it refuses. */
    method OfferOldest() returns (taken: bool)
      requires Valid() && queue != [] && waiters != []
      modifies this`queue, this`waiters, polls
      ensures Valid()
      ensures var (c, w) := (old(View()), old(View()).waiters[0]);
        && taken == c.slots[w].None?
        && View() == if taken then c.(queue := [], waiters := c.waiters[1..], slots := c.slots[w := Some(c.queue)])
                     else c.(waiters := c.waiters[1..])
    {
      ghost var before := View();
      var waiter, batch := waiters[0], queue;
      waiters, queue := waiters[1..], [];
      var back := waiter.Deliver(batch);
      taken := back.None?;
      if back.Some? {
        PutBack(back.value);
        assert View() == before.(waiters := before.waiters[1..]);
      } else {
        assert View() == before.(queue := [], waiters := before.waiters[1..],
                                 slots := before.slots[waiter.id := Some(batch)]);
      }
    }

    method ReleasePollers()
      requires Valid()
      modifies this`queue, this`waiters, polls
      ensures Valid() && View() == RelayModel.ReleasePollers(old(View()))
    {
      ghost var goal := RelayModel.ReleasePollers(View());
      while queue != [] && waiters != []
        invariant Valid()
        invariant RelayModel.ReleasePollers(View()) == goal
        decreases |waiters|
      {
        var taken := OfferOldest();
        if taken {
          return;
        }
      }
    }

    /** The locked block of a call; `ok` is false exactly when the queue is full. */
    method Enqueue(cmd: Command) returns (ok: bool)
      requires Valid()
      modifies this`queue, this`waiters, this`inflight, polls
      ensures Valid() && View() == RelayModel.Enqueue(old(View()), cmd)
      ensures ok == (|old(queue)| < MAX_QUEUE)
    {
      if |queue| >= MAX_QUEUE {
        return false;
      }
      ghost var before := View();
      inflight := inflight[cmd.id := cmd.tool];
      queue := queue + [cmd];
      assert View() == before.(inflight := inflight, queue := queue);
      ReleasePollers();
      ok := true;
    }

    /** A poll enters: `batch` when commands were queued, otherwise it parks. */
    method Enter() returns (waiter: PollWaiter, batch: Option<Batch>)
      requires Valid()
      modifies this`queue, this`waiters, this`polls
      ensures Valid() && View() == RelayModel.Enter(old(View()))
      ensures polls == old(polls) + [waiter] && fresh(waiter)
      ensures batch == if old(queue) != [] then Some(old(queue)) else None
    {
      waiter := new PollWaiter(|polls|);
      polls := polls + [waiter];
      if queue != [] {
        batch := Some(queue);
        queue := [];
      } else {
        waiters := waiters + [waiter];
        batch := None;
      }
    }

    /** The poll's own take, outside the launch lock. */
    method TakeSlot(waiter: PollWaiter) returns (batch: Batch)
      requires Valid() && waiter.id < |polls| && polls[waiter.id] == waiter
      modifies waiter
      ensures Valid() && View() == RelayModel.TakeSlot(old(View()), waiter.id)
      ensures batch == Content(old(waiter.slot))
    {
      batch := waiter.Take();
    }

    static lemma {:induction false} WithoutStep(kept: seq<nat>, ids: seq<nat>, i: nat, p: nat)
      requires i < |ids|
      ensures kept + Without(ids[i..], p) == (if ids[i] == p then kept else kept + [ids[i]]) + Without(ids[i + 1..], p)
    {
    }

    /** The waiters that are not `waiter`, in order. */
    static method Others(ws: seq<PollWaiter>, waiter: PollWaiter) returns (kept: seq<PollWaiter>)
      requires forall i :: 0 <= i < |ws| && ws[i].id == waiter.id ==> ws[i] == waiter
      ensures Ids(kept) == Without(Ids(ws), waiter.id)
      ensures forall k :: 0 <= k < |kept| ==> kept[k] in ws
    {
      kept := [];
      ghost var ids := Ids(ws);
      ghost var goal := Without(ids, waiter.id);
      assert ids[0..] == ids && [] + goal == goal;
      for i := 0 to |ws|
        invariant forall k :: 0 <= k < |kept| ==> kept[k] in ws
        invariant Ids(kept) + Without(ids[i..], waiter.id) == goal
      {
        WithoutStep(Ids(kept), ids, i, waiter.id);
        if ws[i] != waiter {
          assert Ids(kept + [ws[i]]) == Ids(kept) + [ids[i]];
          kept := kept + [ws[i]];
        }
      }
      assert Ids(kept) + [] == Ids(kept);
    }

    method Forget(waiter: PollWaiter)
      requires Valid() && waiter.id < |polls| && polls[waiter.id] == waiter
      modifies this`waiters
      ensures Valid() && View() == old(View()).(waiters := Without(old(View()).waiters, waiter.id))
    {
      waiters := Others(waiters, waiter);
    }

    method DropGuard(waiter: PollWaiter)
      requires Valid() && waiter.id < |polls| && polls[waiter.id] == waiter
      modifies this`queue, this`waiters, polls
      ensures Valid() && View() == RelayModel.DropGuard(old(View()), waiter.id)
    {
      ghost var before := View();
      Forget(waiter);
      var left := waiter.Take();
      assert View() == before.(waiters := Without(before.waiters, waiter.id), slots := before.slots[waiter.id := None]);
      if left != [] {
        PutBack(left);
        assert View() == before.(waiters := Without(before.waiters, waiter.id),
                                 slots := before.slots[waiter.id := None],
                                 queue := left + before.queue);
        ReleasePollers();
      }
    }

    static lemma {:induction false} RemoveStep(q: Batch, pos: nat, id: string)
      requires pos < |q|
      ensures RemoveId(q[pos..], id) == if q[pos].id == id then q[pos + 1..] else [q[pos]] + RemoveId(q[pos + 1..], id)
      ensures q[..pos] + ([q[pos]] + RemoveId(q[pos + 1..], id)) == q[..pos + 1] + RemoveId(q[pos + 1..], id)
    {
    }

    method Abandon(id: string)
      requires Valid()
      modifies this`queue, this`inflight
      ensures Valid() && View() == RelayModel.Abandon(old(View()), id)
    {
      inflight := inflight - {id};
      var pos := 0;
      ghost var goal := RemoveId(queue, id);
      assert queue[0..] == queue && queue[..0] + goal == goal;
      while pos < |queue| && queue[pos].id != id
        invariant 0 <= pos <= |queue| && inflight == old(inflight) - {id}
        invariant queue[..pos] + RemoveId(queue[pos..], id) == goal
      {
        RemoveStep(queue, pos, id);
        pos := pos + 1;
      }
      if pos < |queue| {
        RemoveStep(queue, pos, id);
        queue := queue[..pos] + queue[pos + 1..];
      } else {
        assert queue[pos..] == [] && queue[..pos] + [] == queue;
      }
      assert queue == goal;
    }

    /** True exactly when somebody was still waiting for this result. */
    method Complete(id: string) returns (known: bool)
      requires Valid()
      modifies this`inflight
      ensures Valid() && View() == RelayModel.Complete(old(View()), id)
      ensures known == (id in old(inflight))
    {
      known := id in inflight;
      inflight := inflight - {id};
    }

    /** Offer a waiter an empty reply. */
    method Wake(waiter: PollWaiter)
      requires Valid() && waiter.id < |polls| && polls[waiter.id] == waiter
      modifies waiter
      ensures Valid()
      ensures var c := old(View());
        View() == c.(slots := if c.slots[waiter.id].Some? then c.slots else c.slots[waiter.id := Some([])])
    {
      ghost var slots := View().slots;
      var _ := waiter.Deliver([]);
      assert View().slots == if slots[waiter.id].Some? then slots else slots[waiter.id := Some([])];
    }

    method Close()
      requires Valid()
      modifies this`queue, this`waiters, this`inflight, polls
      ensures Valid() && View() == RelayModel.Close(old(View()))
    {
      ghost var before := View();
      inflight, queue := map[], [];
      var woken := waiters;
      waiters := [];
      var i := 0;
      while i < |woken|
        invariant 0 <= i <= |woken| && Valid()
        invariant waiters == [] && queue == [] && inflight == map[]
        invariant |View().slots| == |before.slots|
        invariant WakeAll(View().slots, before.waiters[i..]) == WakeAll(before.slots, before.waiters)
      {
        assert before.waiters[i..][1..] == before.waiters[i + 1..];
        Wake(woken[i]);
        i := i + 1;
      }
    }
  }
}
