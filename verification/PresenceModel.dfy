/**
  The in-game bridge's presence queue: players the game can see are answered from a
  cache, and the others wait, with the accounts that asked, for a background query.
*/
module PresenceModel {
  import opened Wrappers

  const CACHE_TTL := 60000
  const NEGATIVE_TTL := 60000
  const QUERY_BATCH := 100
  const MAX_VISIBLE_INPUT := 1000

  type Uuid = string

  /** What a query knows of a player: the grant and loadout are carried as one text. */
  datatype Player = Player(uuid: Uuid, profile: string)

  datatype CacheEntry = Present(profile: string, expires: int) | Absent(expires: int)

  type Cache = map<Uuid, CacheEntry>

  /** A player waiting for a query and the accounts that asked, in order of arrival. */
  datatype Waiting = Waiting(uuid: Uuid, owners: seq<Uuid>)

  /** The players one account asked for, in the order of the queue. */
  datatype Group = Group(owner: Uuid, uuids: seq<Uuid>)

  // ---- The pending pairs ----

  predicate NoRepeat(s: seq<Uuid>) { forall i, j :: 0 <= i < j < |s| ==> s[i] != s[j] }

  predicate WellFormed(p: seq<Waiting>) {
    && (forall i :: 0 <= i < |p| ==> p[i].owners != [] && NoRepeat(p[i].owners))
    && (forall i, j :: 0 <= i < j < |p| ==> p[i].uuid != p[j].uuid)
  }

  predicate Has(p: seq<Waiting>, u: Uuid, o: Uuid) {
    exists i :: 0 <= i < |p| && p[i].uuid == u && o in p[i].owners
  }

  /** The number of pending pairs. */
  function Size(p: seq<Waiting>): (r: nat) { if p == [] then 0 else |p[0].owners| + Size(p[1..]) }

  function Insert(p: seq<Waiting>, u: Uuid, o: Uuid): (r: seq<Waiting>)
    ensures forall i :: 0 <= i < |r| ==> r[i].uuid == u || exists j :: 0 <= j < |p| && p[j].uuid == r[i].uuid
  {
    if p == [] then [Waiting(u, [o])]
    else if p[0].uuid != u then [p[0]] + Insert(p[1..], u, o)
    else if o in p[0].owners then p
    else [Waiting(u, p[0].owners + [o])] + p[1..]
  }

  function Without(s: seq<Uuid>, o: Uuid): (r: seq<Uuid>)
    ensures |r| == if o in s then |s| - 1 else |s|
    ensures forall i :: 0 <= i < |r| ==> r[i] in s
  {
    if s == [] then [] else if s[0] == o then s[1..] else [s[0]] + Without(s[1..], o)
  }

  /** Take one pair out; a player nobody asks for any more leaves the queue. */
  function Remove(p: seq<Waiting>, u: Uuid, o: Uuid): (r: seq<Waiting>)
    ensures forall i :: 0 <= i < |r| ==> exists j :: 0 <= j < |p| && p[j].uuid == r[i].uuid
  {
    if p == [] then []
    else if p[0].uuid != u then [p[0]] + Remove(p[1..], u, o)
    else if |Without(p[0].owners, o)| == 0 then p[1..]
    else [Waiting(u, Without(p[0].owners, o))] + p[1..]
  }

  function RemoveAll(p: seq<Waiting>, us: seq<Uuid>, o: Uuid): (r: seq<Waiting>) {
    if us == [] then p else Remove(RemoveAll(p, us[..|us| - 1], o), us[|us| - 1], o)
  }

  // ---- Grouping by owner ----

  function AddTo(gs: seq<Group>, o: Uuid, u: Uuid): (r: seq<Group>) {
    if gs == [] then [Group(o, [u])]
    else if gs[0].owner == o then [Group(o, gs[0].uuids + [u])] + gs[1..]
    else [gs[0]] + AddTo(gs[1..], o, u)
  }

  function AddOwners(gs: seq<Group>, u: Uuid, owners: seq<Uuid>): (r: seq<Group>) {
    if owners == [] then gs else AddTo(AddOwners(gs, u, owners[..|owners| - 1]), owners[|owners| - 1], u)
  }

  function ByOwner(p: seq<Waiting>): (r: seq<Group>) {
    if p == [] then [] else AddOwners(ByOwner(p[..|p| - 1]), p[|p| - 1].uuid, p[|p| - 1].owners)
  }

  function Batch(us: seq<Uuid>): (r: seq<Uuid>) { if |us| <= QUERY_BATCH then us else us[..QUERY_BATCH] }

  // ---- The cache ----

  predicate Fresh(c: Cache, u: Uuid, now: int) { u in c && c[u].expires > now }

  predicate Listed(players: seq<Player>, u: Uuid) { exists i :: 0 <= i < |players| && players[i].uuid == u }

  function AddPlayers(c: Cache, players: seq<Player>, now: int): (r: Cache) {
    if players == [] then c
    else
      var last := players[|players| - 1];
      AddPlayers(c, players[..|players| - 1], now)[last.uuid := Present(last.profile, now + CACHE_TTL)]
  }

  function AddAbsent(c: Cache, us: seq<Uuid>, players: seq<Player>, now: int): (r: Cache) {
    if us == [] then c
    else
      var (rest, u) := (AddAbsent(c, us[..|us| - 1], players, now), us[|us| - 1]);
      if Listed(players, u) then rest else rest[u := Absent(now + NEGATIVE_TTL)]
  }

  /**
    A query's answer: the players online, or none at all after an error. The clock is read
    twice, for those present and then for those absent.
  */
  function Answered(c: Cache, us: seq<Uuid>, answer: Option<seq<Player>>, now: int, later: int): (r: Cache) {
    match answer
    case Some(players) => AddAbsent(AddPlayers(c, players, now), us, players, later)
    case None => AddAbsent(c, us, [], later)
  }

  // ---- Answering the game ----

  function First(raw: seq<Option<Uuid>>): (r: seq<Option<Uuid>>) {
    if |raw| <= MAX_VISIBLE_INPUT then raw else raw[..MAX_VISIBLE_INPUT]
  }

  /** The uuids asked for: the well-formed ones, each once, in order. */
  function Asked(raw: seq<Option<Uuid>>): (r: seq<Uuid>)
    ensures NoRepeat(r)
    ensures forall u :: u in r <==> Some(u) in raw
  {
    if raw == [] then []
    else
      assert raw == raw[..|raw| - 1] + [raw[|raw| - 1]];
      match raw[|raw| - 1]
      case None => Asked(raw[..|raw| - 1])
      case Some(u) =>
        var rest := Asked(raw[..|raw| - 1]);
        if u in rest then rest else rest + [u]
  }

  function Shown(c: Cache, us: seq<Uuid>, now: int): (r: seq<Player>) {
    if us == [] then []
    else
      var (rest, u) := (Shown(c, us[..|us| - 1], now), us[|us| - 1]);
      if Fresh(c, u, now) && c[u].Present? then rest + [Player(u, c[u].profile)] else rest
  }

  function Queued(p: seq<Waiting>, c: Cache, us: seq<Uuid>, owner: Uuid, now: int): (r: seq<Waiting>) {
    if us == [] then p
    else
      var (rest, u) := (Queued(p, c, us[..|us| - 1], owner, now), us[|us| - 1]);
      if Fresh(c, u, now) || owner == "" then rest else Insert(rest, u, owner)
  }

  function Stale(c: Cache, us: seq<Uuid>, now: int): (r: set<Uuid>) {
    set u | u in us && u in c && !Fresh(c, u, now)
  }

  /** Whether the call queued anything. */
  predicate Queues(c: Cache, us: seq<Uuid>, owner: Uuid, now: int) {
    owner != "" && exists i :: 0 <= i < |us| && !Fresh(c, us[i], now)
  }

  // ---- What these mean ----

  lemma {:induction false} InsertHas(p: seq<Waiting>, u: Uuid, o: Uuid, v: Uuid, q: Uuid)
    requires WellFormed(p)
    ensures Has(Insert(p, u, o), v, q) <==> Has(p, v, q) || (v == u && q == o)
  {
    var r := Insert(p, u, o);
    if p == [] {
      assert r[0] == Waiting(u, [o]);
    } else {
      HasSplits(p, v, q);
      HasSplits(r, v, q);
      if p[0].uuid != u {
        InsertHas(p[1..], u, o, v, q);
        assert r[1..] == Insert(p[1..], u, o);
      } else if o !in p[0].owners {
        assert r[1..] == p[1..];
      }
    }
  }

  lemma {:induction false} HasSplits(p: seq<Waiting>, v: Uuid, q: Uuid)
    requires p != []
    ensures Has(p, v, q) <==> (p[0].uuid == v && q in p[0].owners) || Has(p[1..], v, q)
  {
  }

  lemma {:induction false} TailWellFormed(p: seq<Waiting>)
    requires WellFormed(p) && p != []
    ensures WellFormed(p[1..])
  {
  }

  lemma {:induction false} ConsWellFormed(w: Waiting, p: seq<Waiting>)
    requires WellFormed(p) && w.owners != [] && NoRepeat(w.owners)
    requires forall i :: 0 <= i < |p| ==> p[i].uuid != w.uuid
    ensures WellFormed([w] + p)
  {
  }

  lemma {:induction false} InsertWellFormed(p: seq<Waiting>, u: Uuid, o: Uuid)
    requires WellFormed(p)
    ensures WellFormed(Insert(p, u, o)) && Insert(p, u, o) != []
  {
    if p != [] {
      TailWellFormed(p);
      if p[0].uuid != u {
        InsertWellFormed(p[1..], u, o);
        ConsWellFormed(p[0], Insert(p[1..], u, o));
      } else if o !in p[0].owners {
        ConsWellFormed(Waiting(u, p[0].owners + [o]), p[1..]);
      }
    }
  }

  lemma {:induction false} WithoutHas(s: seq<Uuid>, o: Uuid, q: Uuid)
    requires NoRepeat(s)
    ensures NoRepeat(Without(s, o)) && (q in Without(s, o) <==> q in s && q != o)
  {
    if s != [] {
      WithoutHas(s[1..], o, q);
      if s[0] == o {
        assert s == [s[0]] + s[1..];
      } else {
        forall x | x in Without(s[1..], o)
          ensures x != s[0]
        {
          var i :| 0 <= i < |s[1..]| && s[1..][i] == x;
          assert s[i + 1] == x;
        }
      }
    }
  }

  lemma {:induction false} RemoveWellFormed(p: seq<Waiting>, u: Uuid, o: Uuid)
    requires WellFormed(p)
    ensures WellFormed(Remove(p, u, o))
  {
    if p != [] {
      TailWellFormed(p);
      if p[0].uuid != u {
        RemoveWellFormed(p[1..], u, o);
        ConsWellFormed(p[0], Remove(p[1..], u, o));
      } else {
        WithoutHas(p[0].owners, o, o);
        if |Without(p[0].owners, o)| > 0 {
          ConsWellFormed(Waiting(u, Without(p[0].owners, o)), p[1..]);
        }
      }
    }
  }

  lemma {:induction false} RemoveHas(p: seq<Waiting>, u: Uuid, o: Uuid, v: Uuid, q: Uuid)
    requires WellFormed(p)
    ensures Has(Remove(p, u, o), v, q) <==> Has(p, v, q) && !(v == u && q == o)
  {
    if p != [] {
      var r := Remove(p, u, o);
      TailWellFormed(p);
      HasSplits(p, v, q);
      if r != [] {
        HasSplits(r, v, q);
      }
      if p[0].uuid != u {
        RemoveHas(p[1..], u, o, v, q);
        assert r[1..] == Remove(p[1..], u, o);
      } else {
        WithoutHas(p[0].owners, o, q);
        if |Without(p[0].owners, o)| > 0 {
          assert r[1..] == p[1..];
        }
      }
    }
  }

  /** Removing a pair takes exactly that one off the count. */
  lemma {:induction false} RemoveSize(p: seq<Waiting>, u: Uuid, o: Uuid)
    requires WellFormed(p)
    ensures Size(Remove(p, u, o)) == Size(p) - (if Has(p, u, o) then 1 else 0)
  {
    if p != [] {
      var r := Remove(p, u, o);
      TailWellFormed(p);
      HasSplits(p, u, o);
      if p[0].uuid != u {
        RemoveSize(p[1..], u, o);
        assert r[1..] == Remove(p[1..], u, o);
      } else if |Without(p[0].owners, o)| > 0 {
        assert r[1..] == p[1..];
      }
    }
  }

  lemma {:induction false} RemoveAllHas(p: seq<Waiting>, us: seq<Uuid>, o: Uuid, v: Uuid, q: Uuid)
    requires WellFormed(p)
    ensures WellFormed(RemoveAll(p, us, o))
    ensures Has(RemoveAll(p, us, o), v, q) <==> Has(p, v, q) && !(v in us && q == o)
  {
    if us != [] {
      var (rest, u) := (us[..|us| - 1], us[|us| - 1]);
      assert us == rest + [u];
      RemoveAllHas(p, rest, o, v, q);
      RemoveWellFormed(RemoveAll(p, rest, o), u, o);
      RemoveHas(RemoveAll(p, rest, o), u, o, v, q);
    }
  }

  lemma {:induction false} RemoveAllSize(p: seq<Waiting>, us: seq<Uuid>, o: Uuid)
    requires WellFormed(p)
    ensures Size(RemoveAll(p, us, o)) <= Size(p)
    ensures us != [] && Has(p, us[0], o) ==> Size(RemoveAll(p, us, o)) < Size(p)
  {
    if us != [] {
      var (rest, u) := (us[..|us| - 1], us[|us| - 1]);
      RemoveAllHas(p, rest, o, u, o);
      RemoveAllSize(p, rest, o);
      RemoveSize(RemoveAll(p, rest, o), u, o);
      if rest == [] {
        assert us[0] == u;
      } else {
        assert us[0] == rest[0];
      }
    }
  }

  // ---- Groups ----

  predicate InGroups(gs: seq<Group>, u: Uuid, o: Uuid) {
    exists i :: 0 <= i < |gs| && gs[i].owner == o && u in gs[i].uuids
  }

  /** Groups have different owners and are not empty. */
  predicate Separate(gs: seq<Group>) {
    && (forall i :: 0 <= i < |gs| ==> gs[i].uuids != [])
    && (forall i, j :: 0 <= i < j < |gs| ==> gs[i].owner != gs[j].owner)
  }

  lemma {:induction false} InGroupsSplits(gs: seq<Group>, u: Uuid, o: Uuid)
    requires gs != []
    ensures InGroups(gs, u, o) <==> (gs[0].owner == o && u in gs[0].uuids) || InGroups(gs[1..], u, o)
  {
  }

  lemma {:induction false} AddToOwners(gs: seq<Group>, o: Uuid, u: Uuid, i: nat)
    requires i < |AddTo(gs, o, u)| && AddTo(gs, o, u)[i].owner != o
    ensures exists j :: 0 <= j < |gs| && gs[j].owner == AddTo(gs, o, u)[i].owner
  {
    var r := AddTo(gs, o, u);
    if gs != [] && gs[0].owner != o && i > 0 {
      assert r[i] == AddTo(gs[1..], o, u)[i - 1];
      AddToOwners(gs[1..], o, u, i - 1);
      var j :| 0 <= j < |gs[1..]| && gs[1..][j].owner == r[i].owner;
      assert gs[j + 1].owner == r[i].owner;
    } else if gs != [] && gs[0].owner == o {
      assert i > 0 && r[i] == gs[i];
    } else if gs != [] {
      assert gs[0].owner == r[i].owner;
    }
  }

  lemma {:induction false} AddToSeparate(gs: seq<Group>, o: Uuid, u: Uuid)
    requires Separate(gs)
    ensures Separate(AddTo(gs, o, u))
  {
    if gs != [] && gs[0].owner != o {
      var rest := AddTo(gs[1..], o, u);
      AddToSeparate(gs[1..], o, u);
      forall i | 0 <= i < |rest|
        ensures rest[i].owner != gs[0].owner
      {
        if rest[i].owner != o {
          AddToOwners(gs[1..], o, u, i);
          var j :| 0 <= j < |gs[1..]| && gs[1..][j].owner == rest[i].owner;
          assert gs[j + 1].owner == rest[i].owner;
        }
      }
    }
  }

  lemma {:induction false} AddToHas(gs: seq<Group>, o: Uuid, u: Uuid, v: Uuid, q: Uuid)
    ensures InGroups(AddTo(gs, o, u), v, q) <==> InGroups(gs, v, q) || (v == u && q == o)
  {
    var r := AddTo(gs, o, u);
    InGroupsSplits(r, v, q);
    if gs == [] {
      assert r[0] == Group(o, [u]) && r[1..] == [];
    } else {
      InGroupsSplits(gs, v, q);
      if gs[0].owner == o {
        assert r[1..] == gs[1..];
      } else {
        AddToHas(gs[1..], o, u, v, q);
        assert r[1..] == AddTo(gs[1..], o, u);
      }
    }
  }

  lemma {:induction false} AddOwnersHas(gs: seq<Group>, u: Uuid, owners: seq<Uuid>, v: Uuid, q: Uuid)
    requires Separate(gs)
    ensures Separate(AddOwners(gs, u, owners))
    ensures InGroups(AddOwners(gs, u, owners), v, q) <==> InGroups(gs, v, q) || (v == u && q in owners)
  {
    if owners != [] {
      var (rest, o) := (owners[..|owners| - 1], owners[|owners| - 1]);
      assert owners == rest + [o];
      AddOwnersHas(gs, u, rest, v, q);
      AddToSeparate(AddOwners(gs, u, rest), o, u);
      AddToHas(AddOwners(gs, u, rest), o, u, v, q);
    }
  }

  /** Grouping loses no pair and makes none up. */
  lemma {:induction false} GroupsHoldThePairs(p: seq<Waiting>, u: Uuid, o: Uuid)
    ensures Separate(ByOwner(p)) && (InGroups(ByOwner(p), u, o) <==> Has(p, u, o))
  {
    if p != [] {
      var (rest, w) := (p[..|p| - 1], p[|p| - 1]);
      GroupsHoldThePairs(rest, u, o);
      AddOwnersHas(ByOwner(rest), w.uuid, w.owners, u, o);
      assert Has(p, u, o) <==> Has(rest, u, o) || (w.uuid == u && o in w.owners) by {
        if Has(rest, u, o) {
          var i :| 0 <= i < |rest| && rest[i].uuid == u && o in rest[i].owners;
          assert p[i].uuid == u;
        }
      }
    }
  }

  /** Every pair of the group is pending. */
  predicate AllPending(p: seq<Waiting>, g: Group) {
    forall k :: 0 <= k < |g.uuids| ==> Has(p, g.uuids[k], g.owner)
  }

  lemma {:induction false} GroupsFit(p: seq<Waiting>)
    requires p != [] && WellFormed(p)
    ensures Separate(ByOwner(p)) && ByOwner(p) != []
    ensures forall i :: 0 <= i < |ByOwner(p)| ==> AllPending(p, ByOwner(p)[i])
  {
    var gs := ByOwner(p);
    assert Has(p, p[0].uuid, p[0].owners[0]);
    GroupsHoldThePairs(p, p[0].uuid, p[0].owners[0]);
    forall i, k | 0 <= i < |gs| && 0 <= k < |gs[i].uuids|
      ensures Has(p, gs[i].uuids[k], gs[i].owner)
    {
      GroupsHoldThePairs(p, gs[i].uuids[k], gs[i].owner);
      assert InGroups(gs, gs[i].uuids[k], gs[i].owner);
    }
  }

  // ---- A round without sessions ----

  /** The queue after a batch of every group has been taken off. */
  function Taken(p: seq<Waiting>, gs: seq<Group>): (r: seq<Waiting>) {
    if gs == [] then p
    else
      var last := gs[|gs| - 1];
      RemoveAll(Taken(p, gs[..|gs| - 1]), Batch(last.uuids), last.owner)
  }

  predicate InBatches(gs: seq<Group>, u: Uuid, o: Uuid) {
    exists i :: 0 <= i < |gs| && gs[i].owner == o && u in Batch(gs[i].uuids)
  }

  lemma {:induction false} InBatchesSplits(gs: seq<Group>, u: Uuid, o: Uuid)
    requires gs != []
    ensures var (front, last) := (gs[..|gs| - 1], gs[|gs| - 1]);
      InBatches(gs, u, o) <==> InBatches(front, u, o) || (last.owner == o && u in Batch(last.uuids))
  {
    var front := gs[..|gs| - 1];
    if InBatches(front, u, o) {
      var i :| 0 <= i < |front| && front[i].owner == o && u in Batch(front[i].uuids);
      assert gs[i].owner == o;
    }
  }

  lemma {:induction false} TakenHas(p: seq<Waiting>, gs: seq<Group>, u: Uuid, o: Uuid)
    requires WellFormed(p)
    ensures WellFormed(Taken(p, gs)) && (Has(Taken(p, gs), u, o) <==> Has(p, u, o) && !InBatches(gs, u, o))
  {
    if gs != [] {
      var (front, last) := (gs[..|gs| - 1], gs[|gs| - 1]);
      TakenHas(p, front, u, o);
      RemoveAllHas(Taken(p, front), Batch(last.uuids), last.owner, u, o);
      InBatchesSplits(gs, u, o);
    }
  }

  /** No group lists a player twice. */
  predicate Unrepeated(gs: seq<Group>) { forall i :: 0 <= i < |gs| ==> NoRepeat(gs[i].uuids) }

  lemma {:induction false} AddToUnrepeated(gs: seq<Group>, o: Uuid, u: Uuid)
    requires Unrepeated(gs) && !InGroups(gs, u, o)
    ensures Unrepeated(AddTo(gs, o, u))
  {
    if gs != [] {
      InGroupsSplits(gs, u, o);
      if gs[0].owner != o {
        AddToUnrepeated(gs[1..], o, u);
      }
    }
  }

  lemma {:induction false} AddOwnersUnrepeated(gs: seq<Group>, u: Uuid, owners: seq<Uuid>)
    requires Separate(gs) && Unrepeated(gs) && NoRepeat(owners) && forall o :: !InGroups(gs, u, o)
    ensures Unrepeated(AddOwners(gs, u, owners))
  {
    if owners != [] {
      var (front, o) := (owners[..|owners| - 1], owners[|owners| - 1]);
      AddOwnersUnrepeated(gs, u, front);
      AddOwnersHas(gs, u, front, u, o);
      AddToUnrepeated(AddOwners(gs, u, front), o, u);
    }
  }

  lemma {:induction false} GroupsUnrepeated(p: seq<Waiting>)
    requires WellFormed(p)
    ensures Unrepeated(ByOwner(p))
  {
    if p != [] {
      var (front, w) := (p[..|p| - 1], p[|p| - 1]);
      GroupsUnrepeated(front);
      GroupsHoldThePairs(front, "", "");
      forall o
        ensures !InGroups(ByOwner(front), w.uuid, o)
      {
        GroupsHoldThePairs(front, w.uuid, o);
      }
      AddOwnersUnrepeated(ByOwner(front), w.uuid, w.owners);
    }
  }

  predicate FitBatches(gs: seq<Group>) { forall i :: 0 <= i < |gs| ==> |gs[i].uuids| <= QUERY_BATCH }

  lemma {:induction false} PastTheBatch(us: seq<Uuid>)
    requires NoRepeat(us) && |us| > QUERY_BATCH
    ensures us[QUERY_BATCH] !in Batch(us)
  {
  }

  lemma {:induction false} OnlyItsGroup(gs: seq<Group>, i: nat, u: Uuid)
    requires Separate(gs) && i < |gs|
    ensures InBatches(gs, u, gs[i].owner) <==> u in Batch(gs[i].uuids)
  {
  }

  lemma {:induction false} LongGroupLeavesOne(p: seq<Waiting>, i: nat)
    requires WellFormed(p) && i < |ByOwner(p)| && |ByOwner(p)[i].uuids| > QUERY_BATCH
    ensures Taken(p, ByOwner(p)) != []
  {
    var gs := ByOwner(p);
    var (u, o) := (gs[i].uuids[QUERY_BATCH], gs[i].owner);
    GroupsHoldThePairs(p, u, o);
    assert InGroups(gs, u, o);
    GroupsUnrepeated(p);
    PastTheBatch(gs[i].uuids);
    OnlyItsGroup(gs, i, u);
    TakenHas(p, gs, u, o);
  }

  lemma {:induction false} ShortGroupsAreTaken(p: seq<Waiting>, u: Uuid, o: Uuid)
    requires WellFormed(p) && FitBatches(ByOwner(p))
    ensures !Has(Taken(p, ByOwner(p)), u, o)
  {
    var gs := ByOwner(p);
    TakenHas(p, gs, u, o);
    GroupsHoldThePairs(p, u, o);
    if InGroups(gs, u, o) {
      var i :| 0 <= i < |gs| && gs[i].owner == o && u in gs[i].uuids;
      assert u in Batch(gs[i].uuids);
    }
  }

  /** Without any session a round empties the queue exactly when no account asked for more than a batch. */
  lemma {:induction false} RoundEmptiesIff(p: seq<Waiting>)
    requires WellFormed(p)
    ensures Taken(p, ByOwner(p)) == [] <==> FitBatches(ByOwner(p))
  {
    var (gs, r) := (ByOwner(p), Taken(p, ByOwner(p)));
    if FitBatches(gs) {
      TakenHas(p, gs, "", "");
      assert r != [] ==> Has(r, r[0].uuid, r[0].owners[0]);
      forall u, o
        ensures !Has(r, u, o)
      {
        ShortGroupsAreTaken(p, u, o);
      }
    } else {
      var i :| 0 <= i < |gs| && |gs[i].uuids| > QUERY_BATCH;
      LongGroupLeavesOne(p, i);
    }
  }

  /** The queue after one account asked for `us`, with nothing pending or cached before. */
  function OneEach(us: seq<Uuid>, o: Uuid): (r: seq<Waiting>)
    ensures |r| == |us| && forall i :: 0 <= i < |r| ==> r[i] == Waiting(us[i], [o])
  {
    seq(|us|, i requires 0 <= i < |us| => Waiting(us[i], [o]))
  }

  lemma {:induction false} InsertLast(p: seq<Waiting>, u: Uuid, o: Uuid)
    requires forall i :: 0 <= i < |p| ==> p[i].uuid != u
    ensures Insert(p, u, o) == p + [Waiting(u, [o])]
  {
    if p != [] {
      InsertLast(p[1..], u, o);
    }
  }

  lemma {:induction false} OneCallQueues(us: seq<Uuid>, o: Uuid, now: int)
    requires NoRepeat(us) && o != ""
    ensures Queued([], map[], us, o, now) == OneEach(us, o)
  {
    if us != [] {
      var (front, u) := (us[..|us| - 1], us[|us| - 1]);
      OneCallQueues(front, o, now);
      InsertLast(OneEach(front, o), u, o);
      assert OneEach(us, o) == OneEach(front, o) + [Waiting(u, [o])];
    }
  }

  lemma {:induction false} OneGroup(us: seq<Uuid>, o: Uuid)
    ensures ByOwner(OneEach(us, o)) == if us == [] then [] else [Group(o, us)]
  {
    if us != [] {
      var (front, u) := (us[..|us| - 1], us[|us| - 1]);
      OneGroup(front, o);
      assert OneEach(us, o)[..|us| - 1] == OneEach(front, o);
      AddOwnersOne(ByOwner(OneEach(front, o)), u, o);
      assert front + [u] == us;
      assert [Group(o, front)][1..] == [];
    }
  }

  lemma {:induction false} AddOwnersOne(gs: seq<Group>, u: Uuid, o: Uuid)
    ensures AddOwners(gs, u, [o]) == AddTo(gs, o, u)
  {
    assert [o][..0] == [];
    assert AddOwners(gs, u, []) == gs;
  }

  /** What a game sends that sees the players `us`. */
  function Seen(us: seq<Uuid>): (r: seq<Option<Uuid>>)
    ensures |r| == |us| && forall i :: 0 <= i < |r| ==> r[i] == Some(us[i])
  {
    seq(|us|, i requires 0 <= i < |us| => Some(us[i]))
  }

  lemma {:induction false} AskedSeen(us: seq<Uuid>)
    requires NoRepeat(us)
    ensures Asked(Seen(us)) == us
  {
    if us != [] {
      AskedSeen(us[..|us| - 1]);
      assert Seen(us)[..|us| - 1] == Seen(us[..|us| - 1]);
      assert us[|us| - 1] !in us[..|us| - 1];
    }
  }

  /**
    An account without a session that asks for `us` at once, with nothing pending or
    cached, leaves pairs to a second flush exactly when that is more than a batch.
  */
  lemma {:induction false} OneCallLeavesIff(us: seq<Uuid>, o: Uuid, now: int)
    requires NoRepeat(us) && |us| <= MAX_VISIBLE_INPUT && o != ""
    ensures var p := Queued([], map[], Asked(First(Seen(us))), o, now);
      WellFormed(p) && (Taken(p, ByOwner(p)) == [] <==> |us| <= QUERY_BATCH)
  {
    var p := Queued([], map[], us, o, now);
    AskedSeen(us);
    OneCallQueues(us, o, now);
    OneGroup(us, o);
    QueuedHas([], map[], us, o, now, "", "");
    RoundEmptiesIff(p);
    assert us != [] ==> ByOwner(p)[0] == Group(o, us);
  }

  // ---- The cache after an answer ----

  lemma {:induction false} PlayersCached(c: Cache, players: seq<Player>, now: int, u: Uuid)
    ensures u in AddPlayers(c, players, now) <==> u in c || Listed(players, u)
    ensures Listed(players, u) ==> AddPlayers(c, players, now)[u].Present?
    ensures Listed(players, u) ==> AddPlayers(c, players, now)[u].expires == now + CACHE_TTL
    ensures !Listed(players, u) && u in c ==> AddPlayers(c, players, now)[u] == c[u]
  {
    if players != [] {
      var (rest, last) := (players[..|players| - 1], players[|players| - 1]);
      PlayersCached(c, rest, now, u);
      assert Listed(players, u) <==> Listed(rest, u) || last.uuid == u by {
        if Listed(rest, u) {
          var i :| 0 <= i < |rest| && rest[i].uuid == u;
          assert players[i].uuid == u;
        }
      }
    }
  }

  lemma {:induction false} AbsentCached(c: Cache, us: seq<Uuid>, players: seq<Player>, now: int, u: Uuid)
    ensures var r := AddAbsent(c, us, players, now);
      if u in us && !Listed(players, u) then u in r && r[u] == Absent(now + NEGATIVE_TTL)
      else (u in r <==> u in c) && (u in c ==> r[u] == c[u])
  {
    if us != [] {
      assert us == us[..|us| - 1] + [us[|us| - 1]];
      AbsentCached(c, us[..|us| - 1], players, now, u);
    }
  }

  predicate Online(answer: Option<seq<Player>>, u: Uuid) { answer.Some? && Listed(answer.value, u) }

  /**
    After a query every player of the batch is cached for a full TTL, as present
    exactly when the service listed them, and nobody else changes unless listed.
  */
  lemma {:induction false} AnswerCachesBatch(c: Cache, us: seq<Uuid>, answer: Option<seq<Player>>, now: int,
      later: int, u: Uuid)
    ensures var r := Answered(c, us, answer, now, later);
      if Online(answer, u) then u in r && r[u].Present? && r[u].expires == now + CACHE_TTL
      else if u in us then u in r && r[u] == Absent(later + NEGATIVE_TTL)
      else (u in r <==> u in c) && (u in c ==> r[u] == c[u])
  {
    match answer
    case None => AbsentCached(c, us, [], later, u);
    case Some(players) =>
      PlayersCached(c, players, now, u);
      AbsentCached(AddPlayers(c, players, now), us, players, later, u);
  }

  // ---- Rounds of a flush ----

  /**
    What a flush meets: whether the k-th look-up finds a session for an account, what the
    k-th query gets, none for an error, and what the clock shows when it is in, twice.
  */
  datatype World = World(session: (nat, Uuid) -> bool, answer: nat -> Option<seq<Player>>, clock: nat -> int,
                         later: nat -> int)

  /** The queries made for `gs`, whose sessions are looked up from the `looked`-th look-up on. */
  function Queries(gs: seq<Group>, w: World, looked: nat): (n: nat) {
    if gs == [] then 0
    else
      var k := |gs| - 1;
      Queries(gs[..k], w, looked) + if w.session(looked + k, gs[k].owner) then 1 else 0
  }

  /** The cache after a batch of every group with a session has been queried, from the `asked`-th query on. */
  function CacheAfter(c: Cache, gs: seq<Group>, w: World, looked: nat, asked: nat): (r: Cache) {
    if gs == [] then c
    else
      var k := |gs| - 1;
      var (rest, q) := (CacheAfter(c, gs[..k], w, looked, asked), asked + Queries(gs[..k], w, looked));
      if w.session(looked + k, gs[k].owner) then Answered(rest, Batch(gs[k].uuids), w.answer(q), w.clock(q), w.later(q))
      else rest
  }

  /** One of the first `looked` look-ups found no session for the account. */
  ghost predicate Refused(w: World, o: Uuid, looked: nat) {
    exists k: nat :: k < looked && !w.session(k, o)
  }

  /**
    Pairs only leave the queue, for a query which caches them, unless a look-up found
    no session for the account, and nothing leaves the cache.
  */
  ghost predicate Progress(p0: seq<Waiting>, c0: Cache, p: seq<Waiting>, c: Cache, w: World, looked: nat) {
    && (forall u, o :: Has(p, u, o) ==> Has(p0, u, o))
    && (forall u, o :: Has(p0, u, o) && !Has(p, u, o) && !Refused(w, o, looked) ==> u in c)
    && (forall u :: u in c0 ==> u in c)
  }

  /** Everything left belongs to accounts found without a session. */
  ghost predicate OnlyRefused(p: seq<Waiting>, w: World, looked: nat) {
    forall u, o :: Has(p, u, o) ==> Refused(w, o, looked)
  }

  lemma {:induction false} TakenStep(p: seq<Waiting>, gs: seq<Group>, i: nat)
    requires i < |gs|
    ensures Taken(p, gs[..i + 1]) == RemoveAll(Taken(p, gs[..i]), Batch(gs[i].uuids), gs[i].owner)
  {
    assert gs[..i + 1][..i] == gs[..i];
  }

  lemma {:induction false} QueriesStep(gs: seq<Group>, i: nat, w: World, looked: nat)
    requires i < |gs|
    ensures Queries(gs[..i + 1], w, looked)
      == Queries(gs[..i], w, looked) + if w.session(looked + i, gs[i].owner) then 1 else 0
  {
    assert gs[..i + 1][..i] == gs[..i];
  }

  lemma {:induction false} CacheStep(c: Cache, gs: seq<Group>, i: nat, w: World, looked: nat, asked: nat)
    requires i < |gs|
    ensures var (rest, q) := (CacheAfter(c, gs[..i], w, looked, asked), asked + Queries(gs[..i], w, looked));
      CacheAfter(c, gs[..i + 1], w, looked, asked)
      == if w.session(looked + i, gs[i].owner)
         then Answered(rest, Batch(gs[i].uuids), w.answer(q), w.clock(q), w.later(q))
         else rest
  {
    assert gs[..i + 1][..i] == gs[..i];
  }

  /** A player of a batch that was queried is cached, and nobody leaves the cache. */
  lemma {:induction false} RoundCaches(c: Cache, gs: seq<Group>, w: World, looked: nat, asked: nat, u: Uuid, o: Uuid)
    ensures u in c ==> u in CacheAfter(c, gs, w, looked, asked)
    ensures InBatches(gs, u, o) && !Refused(w, o, looked + |gs|) ==> u in CacheAfter(c, gs, w, looked, asked)
  {
    if gs != [] {
      var k := |gs| - 1;
      var q := asked + Queries(gs[..k], w, looked);
      RoundCaches(c, gs[..k], w, looked, asked, u, o);
      RefusedLater(w, o, looked + k, looked + |gs|);
      AnswerCachesBatch(CacheAfter(c, gs[..k], w, looked, asked), Batch(gs[k].uuids), w.answer(q), w.clock(q),
                        w.later(q), u);
      InBatchesSplits(gs, u, o);
      assert !Refused(w, o, looked + |gs|) && gs[k].owner == o ==> w.session(looked + k, gs[k].owner);
    }
  }

  lemma {:induction false} RefusedLater(w: World, o: Uuid, looked: nat, more: nat)
    requires looked <= more
    ensures Refused(w, o, looked) ==> Refused(w, o, more)
  {
    if Refused(w, o, looked) {
      var k: nat :| k < looked && !w.session(k, o);
    }
  }

  /** A round takes every group's first player off, so the queue gets shorter. */
  lemma {:induction false} TakenSize(p: seq<Waiting>, gs: seq<Group>)
    requires WellFormed(p)
    ensures WellFormed(Taken(p, gs)) && Size(Taken(p, gs)) <= Size(p)
    ensures gs != [] && gs[0].uuids != [] && Has(p, gs[0].uuids[0], gs[0].owner) ==> Size(Taken(p, gs)) < Size(p)
  {
    if gs != [] {
      var (front, last) := (gs[..|gs| - 1], gs[|gs| - 1]);
      TakenSize(p, front);
      RemoveAllHas(Taken(p, front), Batch(last.uuids), last.owner, "", "");
      RemoveAllSize(Taken(p, front), Batch(last.uuids), last.owner);
      if front == [] {
        assert last.uuids != [] ==> Batch(last.uuids)[0] == last.uuids[0];
      } else {
        assert front[0] == gs[0];
      }
    }
  }

  lemma {:induction false} RoundShortens(p: seq<Waiting>)
    requires WellFormed(p) && p != []
    ensures Size(Taken(p, ByOwner(p))) < Size(p)
  {
    GroupsFit(p);
    assert AllPending(p, ByOwner(p)[0]);
    TakenSize(p, ByOwner(p));
  }

  /** What a flush has achieved before a round, it has achieved after it. */
  lemma {:induction false} RoundProgresses(p0: seq<Waiting>, c0: Cache, p: seq<Waiting>, c: Cache, w: World,
      looked: nat, asked: nat)
    requires WellFormed(p) && p != [] && Progress(p0, c0, p, c, w, looked)
    ensures var gs := ByOwner(p);
      && Size(Taken(p, gs)) < Size(p)
      && Progress(p0, c0, Taken(p, gs), CacheAfter(c, gs, w, looked, asked), w, looked + |gs|)
  {
    var gs := ByOwner(p);
    RoundShortens(p);
    forall u, o | Has(Taken(p, gs), u, o)
      ensures Has(p0, u, o)
    {
      TakenHas(p, gs, u, o);
    }
    forall u, o | Has(p0, u, o) && !Has(Taken(p, gs), u, o) && !Refused(w, o, looked + |gs|)
      ensures u in CacheAfter(c, gs, w, looked, asked)
    {
      RefusedLater(w, o, looked, looked + |gs|);
      TakenHas(p, gs, u, o);
      RoundCaches(c, gs, w, looked, asked, u, o);
    }
    forall u | u in c0
      ensures u in CacheAfter(c, gs, w, looked, asked)
    {
      RoundCaches(c, gs, w, looked, asked, u, "");
    }
  }

  lemma {:induction false} NothingPending(p: seq<Waiting>, c: Cache, w: World, looked: nat)
    ensures Progress(p, c, p, c, w, looked) && (p == [] ==> OnlyRefused(p, w, looked))
  {
  }

  lemma {:induction false} NoQueries(gs: seq<Group>, w: World, looked: nat, i: nat)
    requires Queries(gs, w, looked) == 0 && i < |gs|
    ensures !w.session(looked + i, gs[i].owner)
  {
    if i < |gs| - 1 {
      NoQueries(gs[..|gs| - 1], w, looked, i);
    }
  }

  /** After a round without a query, every account still waiting was just found without a session. */
  lemma {:induction false} NoneKnown(p: seq<Waiting>, w: World, looked: nat)
    requires WellFormed(p) && Queries(ByOwner(p), w, looked) == 0
    ensures OnlyRefused(Taken(p, ByOwner(p)), w, looked + |ByOwner(p)|)
  {
    var gs := ByOwner(p);
    forall u, o | Has(Taken(p, gs), u, o)
      ensures Refused(w, o, looked + |gs|)
    {
      TakenHas(p, gs, u, o);
      GroupsHoldThePairs(p, u, o);
      var i :| 0 <= i < |gs| && gs[i].owner == o && u in gs[i].uuids;
      NoQueries(gs, w, looked, i);
    }
  }

  // ---- What a visible call queues and shows ----

  /**
    A pair is pending after the call exactly when it was before, or this account asked
    for a player not freshly cached.
  */
  lemma {:induction false} QueuedHas(p: seq<Waiting>, c: Cache, us: seq<Uuid>, owner: Uuid, now: int, v: Uuid, q: Uuid)
    requires WellFormed(p)
    ensures WellFormed(Queued(p, c, us, owner, now))
    ensures Has(Queued(p, c, us, owner, now), v, q)
      <==> Has(p, v, q) || (owner != "" && q == owner && v in us && !Fresh(c, v, now))
  {
    if us != [] {
      var (rest, u) := (us[..|us| - 1], us[|us| - 1]);
      assert us == rest + [u];
      QueuedHas(p, c, rest, owner, now, v, q);
      InsertWellFormed(Queued(p, c, rest, owner, now), u, owner);
      InsertHas(Queued(p, c, rest, owner, now), u, owner, v, q);
    }
  }

  /** A player is shown exactly when asked for and freshly cached as present. */
  lemma {:induction false} ShownIff(c: Cache, us: seq<Uuid>, now: int, pl: Player)
    ensures pl in Shown(c, us, now)
      <==> pl.uuid in us && Fresh(c, pl.uuid, now) && c[pl.uuid].Present? && c[pl.uuid].profile == pl.profile
  {
    if us != [] {
      assert us == us[..|us| - 1] + [us[|us| - 1]];
      ShownIff(c, us[..|us| - 1], now, pl);
    }
  }
}
