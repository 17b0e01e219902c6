/**
  The single steps of a launch, said of what callers and polls see: when a call is taken,
  what a poll leaves with, and how each call is settled.
*/
module RelayLaws {
  import opened Wrappers
  import opened RelayModel
  import opened RelaySystem

  // ---- Calls ----

  /**
    A call is taken while fewer than a hundred commands are queued, and then it is pending;
    otherwise it leaves no trace.
  */
  lemma {:induction false} CallIsTakenIff(s: System, cmd: Command)
    requires WellFormed(s) && Enabled(s, Call(cmd))
    ensures var r := Next(s, Call(cmd));
      if |s.core.queue| < 100 then
        && r.issued == s.issued + [cmd] && r.core.inflight == s.core.inflight[cmd.id := cmd.tool]
        && r.handed == s.handed && r.withdrawn == s.withdrawn && r.settled == s.settled
      else r == s.(calls := s.calls - 1)
  {
  }

  /** With no poll to serve, a call comes behind what is queued. */
  lemma {:induction false} CallQueuesLast(s: System, cmd: Command)
    requires WellFormed(s) && Enabled(s, Call(cmd)) && |s.core.queue| < 100 && s.core.waiters == []
    ensures Next(s, Call(cmd)).core.queue == s.core.queue + [cmd]
  {
  }

  // ---- Polls ----

  /**
    A poll that enters leaves at once with everything queued, and parks, behind the others,
    exactly when that is nothing.
  */
  lemma {:induction false} EnterTakesAll(s: System)
    requires WellFormed(s) && Enabled(s, PollEnter)
    ensures var (r, p) := (Next(s, PollEnter), |s.phases|);
      && r.handed == s.handed + s.core.queue && r.core.queue == [] && |r.phases| == p + 1
      && r.phases[p] == (if s.core.queue == [] then Waiting else Finished)
      && r.core.waiters == s.core.waiters + (if s.core.queue == [] then [p] else [])
      && r.phases[..p] == s.phases && r.issued == s.issued && r.settled == s.settled
  {
  }

  /** A poll that wakes takes what its slot holds, and its slot is free again; nothing else changes. */
  lemma {:induction false} TakeEmptiesSlot(s: System, p: nat)
    requires WellFormed(s) && Enabled(s, PollTake(p))
    ensures var r := Next(s, PollTake(p));
      && r.phases == s.phases[p := Taken(if s.core.slots[p].Some? then s.core.slots[p].value else [])]
      && r.core.slots == s.core.slots[p := None] && r.core.queue == s.core.queue && r.core.waiters == s.core.waiters
      && r.handed == s.handed
  {
  }

  /** A poll that returns hands over just what it took. */
  lemma {:induction false} ReturnHandsOver(s: System, p: nat)
    requires WellFormed(s) && Enabled(s, PollReturn(p))
    ensures Next(s, PollReturn(p)).handed == s.handed + s.phases[p].batch
    ensures Next(s, PollReturn(p)).phases == s.phases[p := Finished]
  {
  }

  // ---- Giving up ----

  /** The place of the first command with this id. */
  predicate FirstAt(q: Batch, id: string, i: nat) {
    i < |q| && q[i].id == id && forall j :: 0 <= j < i ==> q[j].id != id
  }

  lemma {:induction false} RemovedAt(q: Batch, id: string, i: nat)
    requires FirstAt(q, id, i)
    ensures RemoveId(q, id) == q[..i] + q[i + 1..] && FirstWith(q, id) == [q[i]]
  {
    if i > 0 {
      RemovedAt(q[1..], id, i - 1);
      assert q[..i] == [q[0]] + q[1..][..i - 1] && q[1..][i..] == q[i + 1..];
    }
  }

  lemma {:induction false} NothingRemoved(q: Batch, id: string)
    requires forall i :: 0 <= i < |q| ==> q[i].id != id
    ensures RemoveId(q, id) == q && FirstWith(q, id) == []
  {
    if q != [] {
      NothingRemoved(q[1..], id);
    }
  }

  /** Giving up takes the first queued command with the id off the queue, and settles a pending call as abandoned. */
  lemma {:induction false} GiveUpTakesBack(s: System, id: string, i: nat)
    requires WellFormed(s) && i <= |s.core.queue|
    requires if i < |s.core.queue| then FirstAt(s.core.queue, id, i)
             else forall j :: 0 <= j < i ==> s.core.queue[j].id != id
    ensures var (q, r) := (s.core.queue, Next(s, GiveUp(id)));
      && (i < |q| ==> r.core.queue == q[..i] + q[i + 1..] && r.withdrawn == s.withdrawn + [q[i]])
      && (i == |q| ==> r.core.queue == q && r.withdrawn == s.withdrawn)
      && r.core.inflight == s.core.inflight - {id} && r.core.slots == s.core.slots && r.handed == s.handed
      && r.settled == (if id in s.core.inflight then s.settled[id := Abandoned] else s.settled)
  {
    if i < |s.core.queue| {
      RemovedAt(s.core.queue, id, i);
    } else {
      NothingRemoved(s.core.queue, id);
    }
  }

  // ---- Results and the end ----

  /**
    A result settles the call it is for, exactly while that is pending; the end of a launch
    settles every pending call.
  */
  lemma {:induction false} SettledAs(s: System, id: string, e: Event)
    requires WellFormed(s) && Enabled(s, e) && e in [Report(id), Exit]
    ensures var r := Next(s, e);
      && id !in r.core.inflight
      && (id in s.core.inflight ==> id in r.settled && r.settled[id] == if e.Report? then Reported else Gone)
      && (id !in s.core.inflight ==> (id in r.settled <==> id in s.settled)
                                     && (id in s.settled ==> r.settled[id] == s.settled[id]))
      && (e.Exit? ==> r.core.inflight == map[] && r.core.queue == [] && r.core.waiters == [])
  {
  }

  // ---- Tools of pending calls ----

  /** A pending call is known by the tool of the command issued with its id. */
  ghost predicate ToolsKnown(s: System) {
    forall id :: id in s.core.inflight ==>
      exists i :: 0 <= i < |s.issued| && s.issued[i].id == id && s.issued[i].tool == s.core.inflight[id]
  }

  lemma {:induction false} ToolsKept(s: System, e: Event)
    requires WellFormed(s) && ToolsKnown(s) && Enabled(s, e)
    ensures ToolsKnown(Next(s, e))
  {
    var r := Next(s, e);
    forall id | id in r.core.inflight
      ensures exists i :: 0 <= i < |r.issued| && r.issued[i].id == id && r.issued[i].tool == r.core.inflight[id]
    {
      if e.Call? && r.issued != s.issued && id == e.cmd.id {
        assert r.issued[|s.issued|] == e.cmd;
      } else {
        assert id in s.core.inflight && r.core.inflight[id] == s.core.inflight[id];
        var i :| 0 <= i < |s.issued| && s.issued[i].id == id && s.issued[i].tool == s.core.inflight[id];
        assert r.issued[i] == s.issued[i];
      }
    }
  }

  lemma {:induction false} ToolsOnRun(s: System, es: seq<Event>)
    requires WellFormed(s) && ToolsKnown(s) && EnabledRun(s, es)
    ensures ToolsKnown(Run(s, es))
    decreases |es|
  {
    if es != [] {
      ToolsKept(s, es[0]);
      ToolsOnRun(Next(s, es[0]), es[1..]);
    }
  }

  /** In every run a result for a pending call meets the tool that was called. */
  lemma {:induction false} PendingHasItsTool(es: seq<Event>, id: string) returns (i: nat)
    requires EnabledRun(INIT, es) && id in Run(INIT, es).core.inflight
    ensures var s := Run(INIT, es);
      i < |s.issued| && s.issued[i].id == id && s.issued[i].tool == s.core.inflight[id]
  {
    ToolsOnRun(INIT, es);
    var s := Run(INIT, es);
    i :| 0 <= i < |s.issued| && s.issued[i].id == id && s.issued[i].tool == s.core.inflight[id];
  }
}
