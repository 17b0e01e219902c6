/**
  What the bridge's queue and cache hold, said of the records and calls they come from:
  which record a player is shown with and until when, and in which order players wait.
*/
module PresenceLaws {
  import opened Wrappers
  import opened PresenceModel
  import PresenceSystem

  // ---- What a query leaves in the cache ----

  /** Record `k` is the last one for `u`. */
  predicate LastRecord(players: seq<Player>, u: Uuid, k: nat) {
    k < |players| && players[k].uuid == u && forall j :: k < j < |players| ==> players[j].uuid != u
  }

  lemma {:induction false} SomeLastRecord(players: seq<Player>, u: Uuid) returns (k: nat)
    requires Listed(players, u)
    ensures LastRecord(players, u, k)
  {
    k := |players| - 1;
    if players[k].uuid != u {
      var i :| 0 <= i < |players| && players[i].uuid == u;
      assert players[..k][i].uuid == u;
      k := SomeLastRecord(players[..k], u);
    }
  }

  lemma {:induction false} AddedProfile(c: Cache, players: seq<Player>, now: int, u: Uuid, k: nat)
    requires LastRecord(players, u, k)
    ensures u in AddPlayers(c, players, now)
    ensures AddPlayers(c, players, now)[u] == Present(players[k].profile, now + 60_000)
  {
    if k < |players| - 1 {
      AddedProfile(c, players[..|players| - 1], now, u, k);
    }
  }

  /** After a query a listed player is cached with the profile of the last record for it. */
  lemma {:induction false} AnswerGivesProfile(c: Cache, us: seq<Uuid>, players: seq<Player>, now: int, later: int,
      u: Uuid, k: nat)
    requires LastRecord(players, u, k)
    ensures var r := Answered(c, us, Some(players), now, later);
      u in r && r[u] == Present(players[k].profile, now + 60_000)
  {
    assert Listed(players, u);
    AddedProfile(c, players, now, u, k);
    AbsentCached(AddPlayers(c, players, now), us, players, later, u);
  }

  /** A player asked for and not listed, as after an error, is cached as absent; nobody else is touched. */
  lemma {:induction false} AnswerGivesAbsence(c: Cache, us: seq<Uuid>, answer: Option<seq<Player>>, now: int,
      later: int, u: Uuid)
    requires answer.Some? ==> forall k :: 0 <= k < |answer.value| ==> answer.value[k].uuid != u
    ensures var r := Answered(c, us, answer, now, later);
      if u in us then Get(r, u) == Some(Absent(later + 60_000)) else Get(r, u) == Get(c, u)
  {
    AnswerCachesBatch(c, us, answer, now, later, u);
  }

  function Get(c: Cache, u: Uuid): (e: Option<CacheEntry>) { if u in c then Some(c[u]) else None }

  /**
    From a query to the next call: for a minute from the answer a player is shown exactly
    with the profile of the last record for it, and not at all when there is no record.
  */
  lemma {:induction false} ShownAsAnswered(c: Cache, us: seq<Uuid>, players: seq<Player>, now: int, later: int,
      asked: seq<Uuid>, t: int, pl: Player)
    requires pl.uuid in us && pl.uuid in asked
    ensures pl in Shown(Answered(c, us, Some(players), now, later), asked, t)
      <==> t < now + 60_000 && exists k: nat :: LastRecord(players, pl.uuid, k) && players[k].profile == pl.profile
  {
    var r := Answered(c, us, Some(players), now, later);
    ShownIff(r, asked, t, pl);
    if Listed(players, pl.uuid) {
      var k := SomeLastRecord(players, pl.uuid);
      AnswerGivesProfile(c, us, players, now, later, pl.uuid, k);
      assert forall j: nat :: LastRecord(players, pl.uuid, j) ==> j == k;
    } else {
      AnswerGivesAbsence(c, us, Some(players), now, later, pl.uuid);
      assert forall k: nat :: LastRecord(players, pl.uuid, k) ==> Listed(players, pl.uuid);
    }
  }

  /** A call forgets exactly the entries of asked players whose time is over. */
  lemma {:induction false} CallForgets(c: Cache, us: seq<Uuid>, now: int, u: Uuid)
    ensures Get(c - Stale(c, us, now), u) == if u in us && u in c && c[u].expires <= now then None else Get(c, u)
  {
  }

  /**
    A call has a flush scheduled exactly when it was made for an account and some asked player
    is not freshly cached.
  */
  lemma {:induction false} SchedulesIff(c: Cache, us: seq<Uuid>, owner: Uuid, now: int)
    ensures Queues(c, us, owner, now) <==> owner != "" && exists u :: u in us && (u !in c || c[u].expires <= now)
  {
    if u :| u in us && (u !in c || c[u].expires <= now) {
      var i :| 0 <= i < |us| && us[i] == u;
      assert !Fresh(c, us[i], now);
    }
  }

  // ---- Order of players shown and asked for ----

  /** Players are shown in the order they were asked for, each once. */
  lemma {:induction false} ShownInOrder(c: Cache, us: seq<Uuid>, now: int, i: nat, j: nat) returns (a: nat, b: nat)
    requires i < j < |Shown(c, us, now)|
    ensures a < b < |us| && us[a] == Shown(c, us, now)[i].uuid && us[b] == Shown(c, us, now)[j].uuid
  {
    var front := us[..|us| - 1];
    if j < |Shown(c, front, now)| {
      a, b := ShownInOrder(c, front, now, i, j);
    } else {
      a := ShownAsked(c, front, now, i);
      b := |us| - 1;
    }
  }

  lemma {:induction false} ShownAsked(c: Cache, us: seq<Uuid>, now: int, i: nat) returns (a: nat)
    requires i < |Shown(c, us, now)|
    ensures a < |us| && us[a] == Shown(c, us, now)[i].uuid
  {
    var front := us[..|us| - 1];
    if i < |Shown(c, front, now)| {
      a := ShownAsked(c, front, now, i);
    } else {
      a := |us| - 1;
    }
  }

  /** The first place of `u` among the ids sent. */
  predicate FirstAt(raw: seq<Option<Uuid>>, u: Uuid, a: nat) {
    a < |raw| && raw[a] == Some(u) && forall b :: 0 <= b < a ==> raw[b] != Some(u)
  }

  lemma {:induction false} AskedFirst(raw: seq<Option<Uuid>>, i: nat) returns (a: nat)
    requires i < |Asked(raw)|
    ensures FirstAt(raw, Asked(raw)[i], a)
  {
    var front := raw[..|raw| - 1];
    if i < |Asked(front)| {
      a := AskedFirst(front, i);
    } else {
      a := |raw| - 1;
      assert Some(Asked(raw)[i]) !in front;
    }
  }

  /** Ids are asked for in the order of their first places. */
  lemma {:induction false} AskedInOrder(raw: seq<Option<Uuid>>, i: nat, j: nat) returns (a: nat, b: nat)
    requires i < j < |Asked(raw)|
    ensures a < b && FirstAt(raw, Asked(raw)[i], a) && FirstAt(raw, Asked(raw)[j], b)
  {
    var front := raw[..|raw| - 1];
    if j < |Asked(front)| {
      a, b := AskedInOrder(front, i, j);
    } else {
      a := AskedFirst(front, i);
      b := AskedFirst(raw, j);
      assert Some(Asked(raw)[j]) !in front;
    }
  }

  /** A call looks at its first thousand ids. */
  lemma {:induction false} FirstThousand(raw: seq<Option<Uuid>>)
    ensures First(raw) <= raw && |First(raw)| == if |raw| < 1000 then |raw| else 1000
  {
  }

  // ---- Order of the queue ----

  /** A player who waits already keeps its place, and the account that asks comes behind the others. */
  lemma {:induction false} InsertAsker(p: seq<Waiting>, i: nat, o: Uuid)
    requires PresenceModel.WellFormed(p) && i < |p|
    ensures Insert(p, p[i].uuid, o) == p[i := p[i].(owners := p[i].owners + if o in p[i].owners then [] else [o])]
  {
    if i > 0 {
      TailWellFormed(p);
      InsertAsker(p[1..], i - 1, o);
      UpdateInTail(p, i, p[i].(owners := p[i].owners + if o in p[i].owners then [] else [o]));
    } else {
      InsertFirstAsker(p, o);
    }
  }

  lemma {:induction false} UpdateInTail(p: seq<Waiting>, i: nat, w: Waiting)
    requires 0 < i < |p|
    ensures p[i := w] == [p[0]] + p[1..][i - 1 := w]
  {
  }

  lemma {:induction false} InsertFirstAsker(p: seq<Waiting>, o: Uuid)
    requires p != []
    ensures Insert(p, p[0].uuid, o) == p[0 := p[0].(owners := p[0].owners + if o in p[0].owners then [] else [o])]
  {
    if o in p[0].owners {
      assert p[0].owners + [] == p[0].owners;
    }
  }

  /** A player who does not wait yet comes last. */
  lemma {:induction false} InsertPlayer(p: seq<Waiting>, u: Uuid, o: Uuid)
    requires forall i :: 0 <= i < |p| ==> p[i].uuid != u
    ensures Insert(p, u, o) == p + [Waiting(u, [o])]
  {
    InsertLast(p, u, o);
  }

  /** The asker at place `k` taken out; the others keep their order. */
  lemma {:induction false} WithoutAt(s: seq<Uuid>, k: nat)
    requires NoRepeat(s) && k < |s|
    ensures Without(s, s[k]) == s[..k] + s[k + 1..]
  {
    if k > 0 {
      WithoutAt(s[1..], k - 1);
      assert s[0] != s[k];
    }
  }

  /** Taking a pair out leaves the other players, and their askers, in their order. */
  lemma {:induction false} RemoveAt(p: seq<Waiting>, i: nat, k: nat)
    requires PresenceModel.WellFormed(p) && i < |p| && k < |p[i].owners|
    ensures var rest := p[i].owners[..k] + p[i].owners[k + 1..];
      Remove(p, p[i].uuid, p[i].owners[k])
        == p[..i] + (if rest == [] then [] else [Waiting(p[i].uuid, rest)]) + p[i + 1..]
  {
    if i > 0 {
      TailWellFormed(p);
      RemoveAt(p[1..], i - 1, k);
      assert p[1..][..i - 1] == p[1..i] && p[1..][i..] == p[i + 1..] && p[..i] == [p[0]] + p[1..i];
    } else {
      WithoutAt(p[0].owners, k);
    }
  }

  // ---- What a round asks ----

  /** The players `o` asked for, in the order of the queue. */
  function AskedBy(p: seq<Waiting>, o: Uuid): (r: seq<Uuid>) {
    if p == [] then []
    else
      var last := p[|p| - 1];
      AskedBy(p[..|p| - 1], o) + if o in last.owners then [last.uuid] else []
  }

  /** The group of `o` in `gs`, empty when there is none. */
  function UuidsOf(gs: seq<Group>, o: Uuid): (r: seq<Uuid>) {
    if gs == [] then [] else if gs[0].owner == o then gs[0].uuids else UuidsOf(gs[1..], o)
  }

  lemma {:induction false} UuidsAt(gs: seq<Group>, i: nat)
    requires Separate(gs) && i < |gs|
    ensures UuidsOf(gs, gs[i].owner) == gs[i].uuids
  {
    if i > 0 {
      UuidsAt(gs[1..], i - 1);
    }
  }

  lemma {:induction false} AddToUuids(gs: seq<Group>, o: Uuid, u: Uuid, q: Uuid)
    ensures UuidsOf(AddTo(gs, o, u), q) == UuidsOf(gs, q) + if q == o then [u] else []
  {
    if gs != [] && gs[0].owner != o {
      AddToUuids(gs[1..], o, u, q);
    }
  }

  lemma {:induction false} AddOwnersUuids(gs: seq<Group>, u: Uuid, owners: seq<Uuid>, q: Uuid)
    requires NoRepeat(owners)
    ensures UuidsOf(AddOwners(gs, u, owners), q) == UuidsOf(gs, q) + if q in owners then [u] else []
  {
    if owners != [] {
      var (front, o) := (owners[..|owners| - 1], owners[|owners| - 1]);
      AddOwnersUuids(gs, u, front, q);
      AddToUuids(AddOwners(gs, u, front), o, u, q);
      assert o !in front && owners == front + [o];
    }
  }

  lemma {:induction false} GroupsInOrder(p: seq<Waiting>, o: Uuid)
    requires PresenceModel.WellFormed(p)
    ensures UuidsOf(ByOwner(p), o) == AskedBy(p, o)
  {
    if p != [] {
      GroupsInOrder(p[..|p| - 1], o);
      AddOwnersUuids(ByOwner(p[..|p| - 1]), p[|p| - 1].uuid, p[|p| - 1].owners, o);
    }
  }

  /** A round takes for every account the first hundred players it asked for, in the order of the queue. */
  lemma {:induction false} RoundTakesFirst(p: seq<Waiting>, i: nat)
    requires PresenceModel.WellFormed(p) && i < |ByOwner(p)|
    ensures var all := AskedBy(p, ByOwner(p)[i].owner);
      ByOwner(p)[i].uuids == all && Batch(ByOwner(p)[i].uuids) == if |all| < 100 then all else all[..100]
  {
    GroupsHoldThePairs(p, "", "");
    UuidsAt(ByOwner(p), i);
    GroupsInOrder(p, ByOwner(p)[i].owner);
  }

  lemma {:induction false} AddToOwner(gs: seq<Group>, o: Uuid, u: Uuid, i: nat)
    requires i < |gs|
    ensures i < |AddTo(gs, o, u)| && AddTo(gs, o, u)[i].owner == gs[i].owner
  {
    if i > 0 && gs[0].owner != o {
      AddToOwner(gs[1..], o, u, i - 1);
    }
  }

  lemma {:induction false} AddOwnersOwner(gs: seq<Group>, u: Uuid, owners: seq<Uuid>, i: nat)
    requires i < |gs|
    ensures i < |AddOwners(gs, u, owners)| && AddOwners(gs, u, owners)[i].owner == gs[i].owner
  {
    if owners != [] {
      AddOwnersOwner(gs, u, owners[..|owners| - 1], i);
      AddToOwner(AddOwners(gs, u, owners[..|owners| - 1]), owners[|owners| - 1], u, i);
    }
  }

  /** Accounts are served in the order of their first waiting player: those that came later stand behind. */
  lemma {:induction false} LaterAccountsBehind(p: seq<Waiting>, n: nat, i: nat)
    requires n <= |p| && i < |ByOwner(p[..n])|
    ensures i < |ByOwner(p)| && ByOwner(p)[i].owner == ByOwner(p[..n])[i].owner
    decreases |p|
  {
    if n < |p| {
      var front := p[..|p| - 1];
      assert front[..n] == p[..n];
      LaterAccountsBehind(front, n, i);
      AddOwnersOwner(ByOwner(front), p[|p| - 1].uuid, p[|p| - 1].owners, i);
    } else {
      assert p[..n] == p;
    }
  }

  // ---- When a flush ends ----

  /** A flush ends exactly when it looks and nothing is pending, or when a round ends in which it made no query. */
  lemma {:induction false} FlushEndsIff(s: PresenceSystem.System, e: PresenceSystem.Event)
    requires PresenceSystem.Enabled(s, e) && !e.Visible? && PresenceSystem.InFlush(s.tasks[e.i])
    ensures var (task, after) := (s.tasks[e.i], PresenceSystem.Next(s, e).tasks[e.i]);
      && (after.Ending? <==> (e.Look? && s.pending == []) || (e.EndRound? && !task.didWork))
      && (after.LoopHead? <==> e.EndRound? && task.didWork)
      && (e.Look? && s.pending != [] ==> after == PresenceSystem.InRound(ByOwner(s.pending), false))
  {
  }

  /**
    In a round a query is made for an account with a session, one without loses its batch, and
    a query counts as work.
  */
  lemma {:induction false} RoundGoesOn(s: PresenceSystem.System, e: PresenceSystem.Event)
    requires PresenceSystem.Enabled(s, e) && (e.TakeBatch? || e.Check? || e.Wake?)
    ensures var (task, after) := (s.tasks[e.i], PresenceSystem.Next(s, e).tasks[e.i]);
      && (e.TakeBatch? && e.known ==>
            after == PresenceSystem.Querying(Batch(task.groups[0].uuids), task.groups[1..]))
      && (e.TakeBatch? && !e.known ==> after == PresenceSystem.InRound(task.groups[1..], task.didWork))
      && (!e.TakeBatch? && after.InRound? ==> after == PresenceSystem.InRound(task.groups, true))
      && (e.Check? ==> (after.Pausing? <==> s.pending != []))
  {
  }

  // ---- Timers ----

  /** At most one task sleeps, and only while the timer is armed. */
  predicate OneTimer(s: PresenceSystem.System) {
    && (forall i :: 0 <= i < |s.tasks| && s.tasks[i].Sleeping? ==> s.timer)
    && (forall i, j :: 0 <= i < j < |s.tasks| ==> !(s.tasks[i].Sleeping? && s.tasks[j].Sleeping?))
  }

  lemma {:induction false} OneTimerKept(s: PresenceSystem.System, e: PresenceSystem.Event)
    requires OneTimer(s) && PresenceSystem.Enabled(s, e)
    ensures OneTimer(PresenceSystem.Next(s, e))
  {
  }

  lemma {:induction false} OneTimerFrom(s: PresenceSystem.System, es: seq<PresenceSystem.Event>)
    requires OneTimer(s) && PresenceSystem.EnabledRun(s, es)
    ensures OneTimer(PresenceSystem.Run(s, es))
    decreases |es|
  {
    if es != [] {
      OneTimerKept(s, es[0]);
      OneTimerFrom(PresenceSystem.Next(s, es[0]), es[1..]);
    }
  }

  /** In no interleaving two timers are armed at once. */
  lemma {:induction false} NeverTwoTimers(es: seq<PresenceSystem.Event>)
    requires PresenceSystem.EnabledRun(PresenceSystem.INIT, es)
    ensures OneTimer(PresenceSystem.Run(PresenceSystem.INIT, es))
  {
    OneTimerFrom(PresenceSystem.INIT, es);
  }
}
