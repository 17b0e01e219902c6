/**
  Every interleaving of callers, polls and launch exit over one launch. A call or a
  poll first checks, without the lock, that the launch is running, and takes the lock
  later; a release clears that flag first and takes the lock later too. A poll parks,
  takes its slot outside the lock, and only then drops its guard and returns, so a
  batch can land between the two; a hang-up drops the guard without taking.
*/
module RelaySystem {
  import opened Wrappers
  import opened RelayModel

  datatype Phase = Waiting | Taken(batch: Batch) | Finished

  /** How a pending call was settled. */
  datatype Answer = Reported | Gone | Abandoned

  /** A release first clears the running flag, and clears the launch in a second step. */
  datatype Stage = Open | Stopping | Released

  /**
    `issued`, `handed` and `withdrawn` log the commands enqueued, the commands
    polls returned, and the commands removed while queued; `settled` logs the
    answer of each call. `calls` and `polls` count those that have seen the launch
    running and have not taken the lock yet.
  */
  datatype System = System(core: Core, phases: seq<Phase>, issued: Batch, handed: Batch, withdrawn: Batch,
                           settled: map<string, Answer>, stage: Stage, calls: nat, polls: nat)

  datatype Event =
    | AdmitCall
    | Call(cmd: Command)
    | AdmitPoll
    | PollEnter
    | PollTake(p: nat)
    | PollReturn(p: nat)
    | HangUp(p: nat)
    | GiveUp(id: string)
    | Report(id: string)
    | Stop
    | Exit

  const INIT := System(EMPTY, [], [], [], [], map[], Open, 0, 0)

  predicate WellFormed(s: System) {
    s.core.WellFormed() && |s.core.slots| == |s.phases|
  }

  /** A poll takes, returns and hangs up once. */
  predicate Possible(s: System, e: Event) {
    match e
    case AdmitCall => s.stage.Open?
    case AdmitPoll => s.stage.Open?
    case Stop => s.stage.Open?
    case Exit => s.stage.Stopping?
    case Call(_) => s.calls > 0
    case PollEnter => s.polls > 0
    case PollTake(p) => p < |s.phases| && s.phases[p].Waiting?
    case PollReturn(p) => p < |s.phases| && s.phases[p].Taken?
    case HangUp(p) => p < |s.phases| && s.phases[p].Waiting?
    case _ => true
  }

  /** A possible step whose command, if it brings one, has an id of its own. */
  ghost predicate Enabled(s: System, e: Event) {
    Possible(s, e) && (e.Call? ==> forall c :: c in s.issued ==> c.id != e.cmd.id)
  }

  /** The queued commands an `Abandon` removes. */
  function FirstWith(q: Batch, id: string): (r: Batch) {
    if q == [] then [] else if q[0].id == id then [q[0]] else FirstWith(q[1..], id)
  }

  ghost function Next(s: System, e: Event): (r: System)
    requires WellFormed(s) && Possible(s, e)
    ensures WellFormed(r)
  {
    var c := s.core;
    match e
    case Call(cmd) =>
      if |c.queue| >= MAX_QUEUE then s.(calls := s.calls - 1)
      else s.(core := Enqueue(c, cmd), issued := s.issued + [cmd], calls := s.calls - 1)
    case PollEnter =>
      s.(core := Enter(c), handed := s.handed + c.queue,
         phases := s.phases + [if c.queue == [] then Waiting else Finished], polls := s.polls - 1)
    case PollTake(p) =>
      s.(core := TakeSlot(c, p), phases := s.phases[p := Taken(Content(c.slots[p]))])
    case PollReturn(p) =>
      s.(core := DropGuard(c, p), handed := s.handed + s.phases[p].batch, phases := s.phases[p := Finished])
    case HangUp(p) =>
      s.(core := DropGuard(c, p), phases := s.phases[p := Finished])
    case GiveUp(id) =>
      s.(core := Abandon(c, id), withdrawn := s.withdrawn + FirstWith(c.queue, id),
         settled := if id in c.inflight then s.settled[id := Abandoned] else s.settled)
    case Report(id) =>
      s.(core := Complete(c, id),
         settled := if id in c.inflight then s.settled[id := Reported] else s.settled)
    case Exit =>
      s.(core := Close(c), withdrawn := s.withdrawn + c.queue,
         settled := s.settled + map id | id in c.inflight :: Gone, stage := Released)
    case AdmitCall => s.(calls := s.calls + 1)
    case AdmitPoll => s.(polls := s.polls + 1)
    case Stop => s.(stage := Stopping)
  }

  ghost predicate EnabledRun(s: System, es: seq<Event>)
    requires WellFormed(s)
    decreases |es|
  {
    es == [] || (Enabled(s, es[0]) && EnabledRun(Next(s, es[0]), es[1..]))
  }

  ghost function Run(s: System, es: seq<Event>): (r: System)
    requires WellFormed(s) && EnabledRun(s, es)
    ensures WellFormed(r)
    decreases |es|
  {
    if es == [] then s else Run(Next(s, es[0]), es[1..])
  }

  // ---- The hand-over invariant ----

  ghost predicate Distinct(ps: seq<nat>) {
    forall i, j :: 0 <= i < j < |ps| ==> ps[i] != ps[j]
  }

  /**
    A queue and a listed poll never coexist; a listed poll is unserved and
    unfinished; and a poll still waiting is either listed or already served, so
    no wake-up is lost.
  */
  ghost predicate HandOver(s: System) {
    && WellFormed(s)
    && (s.core.queue != [] ==> s.core.waiters == [])
    && Distinct(s.core.waiters)
    && (forall i :: 0 <= i < |s.core.waiters| ==>
          s.core.slots[s.core.waiters[i]] == None && !s.phases[s.core.waiters[i]].Finished?)
    && (forall p :: 0 <= p < |s.phases| && s.phases[p].Finished? ==> s.core.slots[p] == None)
    && (forall p :: 0 <= p < |s.phases| && s.phases[p].Waiting? && s.core.slots[p] == None ==> p in s.core.waiters)
  }

  /** The first place in the list whose poll has a free slot, the list's length when there is none. */
  function FirstFree(c: Core): (k: nat)
    requires c.WellFormed()
    ensures k <= |c.waiters| && (k < |c.waiters| ==> c.slots[c.waiters[k]] == None)
    ensures forall i :: 0 <= i < k ==> c.slots[c.waiters[i]].Some?
    decreases |c.waiters|
  {
    if c.waiters == [] || c.slots[c.waiters[0]] == None then 0
    else 1 + FirstFree(c.(waiters := c.waiters[1..]))
  }

  /** The whole queue goes to the first listed poll with a free slot; the polls up to it leave the list. */
  lemma {:induction false} ReleaseServesFirstFree(c: Core)
    requires c.WellFormed()
    ensures var k := FirstFree(c);
      ReleasePollers(c) ==
        if c.queue == [] then c
        else if k == |c.waiters| then c.(waiters := [])
        else c.(queue := [], waiters := c.waiters[k + 1..], slots := c.slots[c.waiters[k] := Some(c.queue)])
    decreases |c.waiters|
  {
    if c.queue != [] && c.waiters != [] && c.slots[c.waiters[0]].Some? {
      var d := c.(waiters := c.waiters[1..]);
      var k := FirstFree(d);
      ReleaseServesFirstFree(d);
      assert k < |d.waiters| ==> d.waiters[k + 1..] == c.waiters[k + 2..];
    }
  }

  /** With unserved polls in the list, the whole queue goes to exactly the oldest one. */
  lemma {:induction false} ServeOldest(c: Core)
    requires c.WellFormed()
    requires forall i :: 0 <= i < |c.waiters| ==> c.slots[c.waiters[i]] == None
    ensures ReleasePollers(c) ==
      if c.queue == [] || c.waiters == [] then c
      else c.(queue := [], waiters := c.waiters[1..], slots := c.slots[c.waiters[0] := Some(c.queue)])
  {
  }

  lemma {:induction false} WakeAllAt(slots: seq<Option<Batch>>, ws: seq<nat>, p: nat)
    requires forall i :: 0 <= i < |ws| ==> ws[i] < |slots|
    requires p < |slots|
    ensures WakeAll(slots, ws)[p] == if p in ws && slots[p] == None then Some([]) else slots[p]
    decreases |ws|
  {
    if ws != [] {
      WakeAllAt(if slots[ws[0]].Some? then slots else slots[ws[0] := Some([])], ws[1..], p);
    }
  }

  lemma {:induction false} WithoutDistinct(ps: seq<nat>, p: nat)
    requires Distinct(ps)
    ensures Distinct(Without(ps, p))
  {
    if ps != [] {
      WithoutDistinct(ps[1..], p);
      assert forall q :: q in ps[1..] ==> q != ps[0];
    }
  }

  /** Whatever the queue becomes, serving the parked polls restores the invariant. */
  lemma {:induction false} RequeueKeepsHandOver(s: System, q: Batch)
    requires HandOver(s)
    ensures HandOver(s.(core := ReleasePollers(s.core.(queue := q))))
  {
    ServeOldest(s.core.(queue := q));
  }

  lemma {:induction false} ForgetKeepsHandOver(s: System, p: nat)
    requires HandOver(s) && p < |s.phases|
    ensures HandOver(s.(core := s.core.(waiters := Without(s.core.waiters, p), slots := s.core.slots[p := None]),
                        phases := s.phases[p := Finished]))
  {
    var ws := Without(s.core.waiters, p);
    WithoutDistinct(s.core.waiters, p);
    assert forall i :: 0 <= i < |ws| ==> ws[i] in s.core.waiters && ws[i] != p;
    assert s.core.waiters == [] ==> ws == [];
  }

  lemma {:induction false} DropGuardKeepsHandOver(s: System, p: nat)
    requires HandOver(s) && p < |s.phases|
    ensures HandOver(s.(core := DropGuard(s.core, p), phases := s.phases[p := Finished]))
  {
    var c := s.core.(waiters := Without(s.core.waiters, p), slots := s.core.slots[p := None]);
    ForgetKeepsHandOver(s, p);
    RequeueKeepsHandOver(s.(core := c, phases := s.phases[p := Finished]), Content(s.core.slots[p]) + s.core.queue);
  }

  lemma {:induction false} EnterKeepsHandOver(s: System)
    requires HandOver(s) && Enabled(s, PollEnter)
    ensures HandOver(Next(s, PollEnter))
  {
    var s' := Next(s, PollEnter);
    assert forall w :: w in s.core.waiters ==> w in s'.core.waiters;
    assert |s.phases| in s'.core.waiters || s.core.queue != [];
  }

  lemma {:induction false} ExitKeepsHandOver(s: System)
    requires HandOver(s) && Enabled(s, Exit)
    ensures HandOver(Next(s, Exit))
  {
    var c := s.core;
    forall p | 0 <= p < |c.slots|
      ensures WakeAll(c.slots, c.waiters)[p] == if p in c.waiters && c.slots[p] == None then Some([]) else c.slots[p]
    {
      WakeAllAt(c.slots, c.waiters, p);
    }
  }

  lemma {:induction false} HandOverKept(s: System, e: Event)
    requires HandOver(s) && Enabled(s, e)
    ensures HandOver(Next(s, e))
  {
    var c := s.core;
    match e
    case Call(cmd) =>
      if |c.queue| < MAX_QUEUE {
        RequeueKeepsHandOver(s.(core := c.(inflight := c.inflight[cmd.id := cmd.tool])), c.queue + [cmd]);
      }
    case PollEnter => EnterKeepsHandOver(s);
    case PollTake(p) =>
    case PollReturn(p) => DropGuardKeepsHandOver(s, p);
    case HangUp(p) => DropGuardKeepsHandOver(s, p);
    case GiveUp(id) =>
    case Report(id) =>
    case Exit => ExitKeepsHandOver(s);
    case AdmitCall =>
    case AdmitPoll =>
    case Stop =>
  }
}
