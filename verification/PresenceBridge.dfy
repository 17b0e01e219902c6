/** The bridge's queue and cache as the program changes them. */
module PresenceBridge {
  import opened Wrappers
  import opened PresenceModel

  class Bridge {
    var cache: Cache
    var pending: seq<Waiting>
    var flushing: bool
    var lastFlush: int

    ghost predicate Valid()
      reads this
    {
      PresenceModel.WellFormed(pending)
    }

    constructor ()
      ensures Valid() && pending == [] && cache == map[] && !flushing
    {
      cache, pending, flushing, lastFlush := map[], [], false, 0;
    }

    /** Answer from the cache; queue the rest for the account that asked. */
    method Visible(owner: Uuid, raw: seq<Option<Uuid>>, now: int) returns (players: seq<Player>, queued: bool)
      requires Valid()
      modifies this`cache, this`pending
      ensures Valid()
      ensures players == Shown(old(cache), Asked(First(raw)), now)
      ensures pending == Queued(old(pending), old(cache), Asked(First(raw)), owner, now)
      ensures cache == old(cache) - Stale(old(cache), Asked(First(raw)), now)
      ensures queued == Queues(old(cache), Asked(First(raw)), owner, now)
    {
      players, queued := [], false;
      var seen: set<Uuid> := {};
      var input := First(raw);
      ghost var (p0, c0, asked) := (pending, cache, []);
      NothingAsked(p0, c0, owner, now);
      for i := 0 to |input|
        invariant asked == Asked(input[..i]) && (forall u :: u in seen <==> u in asked)
        invariant Reached(p0, c0, asked, owner, now, pending, cache, players, queued)
      {
        AskedStep(input, i);
        if input[i].Some? && input[i].value !in seen {
          seen := seen + {input[i].value};
          players, queued := Next(owner, input[i].value, now, players, queued, p0, c0, asked);
          asked := asked + [input[i].value];
        }
      }
      assert input[..|input|] == input;
      QueuedWellFormed(p0, c0, asked, owner, now);
    }

    /** Answer for the next player of a visible call. */
    method Next(owner: Uuid, u: Uuid, now: int, players: seq<Player>, queued: bool,
                ghost p0: seq<Waiting>, ghost c0: Cache, ghost asked: seq<Uuid>)
        returns (shown: seq<Player>, late: bool)
      requires Reached(p0, c0, asked, owner, now, pending, cache, players, queued) && u !in asked
      modifies this`cache, this`pending
      ensures Reached(p0, c0, asked + [u], owner, now, pending, cache, shown, late)
    {
      Extends(p0, c0, asked, u, owner, now, pending, cache, players, queued);
      shown, late := One(owner, u, now);
      shown, late := players + shown, queued || late;
    }

    static lemma {:induction false} NothingAsked(p: seq<Waiting>, c: Cache, owner: Uuid, now: int)
      ensures Reached(p, c, [], owner, now, p, c, [], false) && Asked([]) == []
    {
    }

    static lemma {:induction false} QueuedWellFormed(p: seq<Waiting>, c: Cache, us: seq<Uuid>, owner: Uuid, now: int)
      requires PresenceModel.WellFormed(p)
      ensures PresenceModel.WellFormed(Queued(p, c, us, owner, now))
    {
      QueuedHas(p, c, us, owner, now, "", "");
    }

    static lemma {:induction false} AskedStep(input: seq<Option<Uuid>>, i: nat)
      requires i < |input|
      ensures Asked(input[..i + 1]) ==
        if input[i].Some? && input[i].value !in Asked(input[..i]) then Asked(input[..i]) + [input[i].value]
        else Asked(input[..i])
    {
      assert input[..i + 1][..i] == input[..i];
    }

    /** The state a visible call has reached when it has looked at `asked`. */
    static ghost predicate Reached(p0: seq<Waiting>, c0: Cache, asked: seq<Uuid>, owner: Uuid, now: int,
                                   p: seq<Waiting>, c: Cache, players: seq<Player>, queued: bool)
    {
      && players == Shown(c0, asked, now)
      && p == Queued(p0, c0, asked, owner, now)
      && c == c0 - Stale(c0, asked, now)
      && queued == Queues(c0, asked, owner, now)
    }

    /** Answer for one player. */
    method One(owner: Uuid, u: Uuid, now: int) returns (players: seq<Player>, queued: bool)
      modifies this`cache, this`pending
      ensures players ==
        if Fresh(old(cache), u, now) && old(cache)[u].Present? then [Player(u, old(cache)[u].profile)] else []
      ensures queued == (!Fresh(old(cache), u, now) && owner != "")
      ensures pending == if queued then Insert(old(pending), u, owner) else old(pending)
      ensures cache == if Fresh(old(cache), u, now) then old(cache) else old(cache) - {u}
    {
      players, queued := [], false;
      if u in cache {
        if cache[u].expires > now {
          match cache[u]
          case Present(profile, _) => return [Player(u, profile)], false;
          case Absent(_) => return [], false;
        }
        cache := cache - {u};
      }
      if owner != "" {
        pending := Insert(pending, u, owner);
        queued := true;
      }
    }

    static lemma {:induction false} Extends(p0: seq<Waiting>, c0: Cache, asked: seq<Uuid>, u: Uuid, owner: Uuid,
                                            now: int,
                                            p: seq<Waiting>, c: Cache, players: seq<Player>, queued: bool)
      requires Reached(p0, c0, asked, owner, now, p, c, players, queued) && u !in asked
      ensures Reached(p0, c0, asked + [u], owner, now,
                      if !Fresh(c, u, now) && owner != "" then Insert(p, u, owner) else p,
                      if Fresh(c, u, now) then c else c - {u},
                      players + if Fresh(c, u, now) && c[u].Present? then [Player(u, c[u].profile)] else [],
                      queued || (!Fresh(c, u, now) && owner != ""))
    {
    }

    /** Take a batch of one owner's players off the queue. */
    method TakeBatch(owner: Uuid, batch: seq<Uuid>)
      requires Valid()
      modifies this`pending
      ensures Valid() && pending == RemoveAll(old(pending), batch, owner)
    {
      var i := 0;
      while i < |batch|
        invariant 0 <= i <= |batch|
        invariant pending == RemoveAll(old(pending), batch[..i], owner)
      {
        assert batch[..i + 1][..i] == batch[..i];
        pending := Remove(pending, batch[i], owner);
        i := i + 1;
      }
      assert batch[..i] == batch;
      RemoveAllHas(old(pending), batch, owner, "", "");
    }

    static lemma {:induction false} PlayersStep(c: Cache, players: seq<Player>, i: nat, now: int)
      requires i < |players|
      ensures AddPlayers(c, players[..i + 1], now)
        == AddPlayers(c, players[..i], now)[players[i].uuid := Present(players[i].profile, now + CACHE_TTL)]
    {
      assert players[..i + 1][..i] == players[..i];
    }

    static lemma {:induction false} AbsentStep(c: Cache, batch: seq<Uuid>, players: seq<Player>, i: nat, now: int)
      requires i < |batch|
      ensures var rest := AddAbsent(c, batch[..i], players, now);
        AddAbsent(c, batch[..i + 1], players, now)
        == if Listed(players, batch[i]) then rest else rest[batch[i] := Absent(now + NEGATIVE_TTL)]
    {
      assert batch[..i + 1][..i] == batch[..i];
    }

    /** Cache the answer to a query of `batch`. */
    method QueryOnce(batch: seq<Uuid>, answer: Option<seq<Player>>, now: int, later: int)
      modifies this`cache
      ensures cache == Answered(old(cache), batch, answer, now, later)
    {
      var players := answer.GetOr([]);
      var seen: set<Uuid> := {};
      var i := 0;
      while i < |players|
        invariant 0 <= i <= |players|
        invariant cache == AddPlayers(old(cache), players[..i], now)
        invariant seen == set k | 0 <= k < i :: players[k].uuid
      {
        PlayersStep(old(cache), players, i, now);
        seen := seen + {players[i].uuid};
        cache := cache[players[i].uuid := Present(players[i].profile, now + CACHE_TTL)];
        i := i + 1;
      }
      assert players[..i] == players;
      assert forall u :: u in seen <==> Listed(players, u);
      ghost var listed := cache;
      i := 0;
      while i < |batch|
        invariant 0 <= i <= |batch|
        invariant cache == AddAbsent(listed, batch[..i], players, later)
      {
        AbsentStep(listed, batch, players, i, later);
        if batch[i] !in seen {
          cache := cache[batch[i] := Absent(later + NEGATIVE_TTL)];
        }
        i := i + 1;
      }
      assert batch[..i] == batch;
    }

    /** One round: take a batch of every account off the queue, and query those with a session. */
    method Round(groups: seq<Group>, w: World, looked: nat, asked: nat) returns (didWork: bool, next: nat)
      requires Valid()
      modifies this`cache, this`pending
      ensures Valid() && pending == Taken(old(pending), groups)
      ensures cache == CacheAfter(old(cache), groups, w, looked, asked)
      ensures next == asked + Queries(groups, w, looked) && (didWork <==> Queries(groups, w, looked) > 0)
    {
      didWork, next := false, asked;
      ghost var (p, c) := (pending, cache);
      for i := 0 to |groups|
        invariant Valid() && pending == Taken(p, groups[..i])
        invariant cache == CacheAfter(c, groups[..i], w, looked, asked)
        invariant next == asked + Queries(groups[..i], w, looked) && (didWork <==> Queries(groups[..i], w, looked) > 0)
      {
        TakenStep(p, groups, i);
        QueriesStep(groups, i, w, looked);
        CacheStep(c, groups, i, w, looked, asked);
        var known := w.session(looked + i, groups[i].owner);
        var worked := OneBatch(groups[i], known, w.answer(next), w.clock(next), w.later(next));
        if worked {
          didWork, next := true, next + 1;
        }
      }
      assert groups[..|groups|] == groups;
    }

    /** Take one owner's batch and query it, when the owner has a session. */
    method OneBatch(g: Group, hasSession: bool, answer: Option<seq<Player>>, now: int, later: int)
        returns (worked: bool)
      requires Valid()
      modifies this`cache, this`pending
      ensures Valid() && pending == RemoveAll(old(pending), Batch(g.uuids), g.owner)
      ensures worked == hasSession
      ensures cache == if hasSession then Answered(old(cache), Batch(g.uuids), answer, now, later) else old(cache)
    {
      var batch := Batch(g.uuids);
      TakeBatch(g.owner, batch);
      if !hasSession {
        return false;
      }
      QueryOnce(batch, answer, now, later);
      worked := true;
    }

    /**
      Drain the queue when nothing new arrives. It ends, and what is left then, like what
      left without a query, belongs to accounts found without a session.
    */
    method Flush(w: World, end: int) returns (again: bool, looked: nat)
      requires Valid()
      modifies this
      ensures Valid()
      ensures old(flushing) ==> !again && pending == old(pending) && cache == old(cache) && flushing
      ensures !old(flushing) ==> !flushing && lastFlush == end && (again <==> pending != [])
      ensures !old(flushing) ==> Progress(old(pending), old(cache), pending, cache, w, looked)
      ensures !old(flushing) ==> OnlyRefused(pending, w, looked)
    {
      looked := 0;
      if flushing {
        again := false;
        return;
      }
      flushing := true;
      looked := Drain(w);
      flushing, lastFlush, again := false, end, pending != [];
    }

    /** The rounds of a flush, until the queue is empty or a round finds no session. */
    method Drain(w: World) returns (looked: nat)
      requires Valid()
      modifies this`cache, this`pending
      ensures Valid() && OnlyRefused(pending, w, looked)
      ensures Progress(old(pending), old(cache), pending, cache, w, looked)
    {
      looked := 0;
      var asked, didWork := 0, true;
      ghost var (p0, c0) := (pending, cache);
      NothingPending(p0, c0, w, 0);
      while didWork && pending != []
        invariant Valid() && Progress(p0, c0, pending, cache, w, looked)
        invariant didWork || OnlyRefused(pending, w, looked)
        decreases Size(pending)
      {
        ghost var (p, c) := (pending, cache);
        var groups := ByOwner(pending);
        RoundProgresses(p0, c0, p, c, w, looked, asked);
        didWork, asked := Round(groups, w, looked, asked);
        if !didWork {
          NoneKnown(p, w, looked);
        }
        looked := looked + |groups|;
      }
      NothingPending(pending, cache, w, looked);
    }
  }
}
