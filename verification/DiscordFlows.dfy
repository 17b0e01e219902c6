/** Every interleaving of minting, callbacks, exchanges, claims and expiry. */
module DiscordFlows {
  import opened Wrappers
  import opened DiscordAuthModel

  /** An exchange a callback started: which account it links, and how far it is. */
  datatype Phase =
    | Exchanging
    | Failed
    | Identified(user: User)
    | Stored(user: User, sid: string)
    | AttachedSession(user: User, sid: string)
    | AttachedLink(user: User)

  datatype Exchange = Exchange(state: string, link: Option<string>, phase: Phase)

  /** A claim that took a state's outcome: done, or about to look up the session. */
  datatype Taking = LookingUp(state: string, sid: string) | Told(state: string, claim: Claim)

  datatype System = System(
    now: int,
    states: States,
    sessions: Sessions,
    minted: map<string, Option<string>>,
    sids: set<string>,
    exchanges: seq<Exchange>,
    takings: seq<Taking>)

  const INIT := System(0, map[], map[], map[], {}, [], [])

  datatype Event =
    | Tick(ms: nat)
    | Mint(state: string, link: Option<string>)
    | Sweep
    | Callback(state: string)
    | ExchangeErr(k: nat)
    | ExchangeOk(k: nat, user: User)
    | StoreSession(k: nat, sid: string)
    | Attach(k: nat)
    | Take(state: string)
    | LookUp(j: nat)
    | DropSession(sid: string)

  predicate At(s: System, k: nat) { k < |s.exchanges| }

  /** State and session ids are random: a new one was never used before. */
  predicate Enabled(s: System, e: Event) {
    match e
    case Tick(_) => true
    case Mint(state, _) => state != "" && state !in s.minted
    case Sweep => true
    case Callback(_) => true
    case ExchangeErr(k) => At(s, k) && s.exchanges[k].phase.Exchanging?
    case ExchangeOk(k, _) => At(s, k) && s.exchanges[k].phase.Exchanging?
    case StoreSession(k, sid) =>
      At(s, k) && s.exchanges[k].phase.Identified? && s.exchanges[k].link.None? && sid !in s.sids
    case Attach(k) =>
      At(s, k) && (s.exchanges[k].phase.Stored? || (s.exchanges[k].phase.Identified? && s.exchanges[k].link.Some?))
    case Take(_) => true
    case LookUp(j) => j < |s.takings| && s.takings[j].LookingUp?
    case DropSession(_) => true
  }

  function Moved(s: System, k: nat, ph: Phase): (r: System)
    requires At(s, k)
  {
    s.(exchanges := s.exchanges[k := s.exchanges[k].(phase := ph)])
  }

  function Called(s: System, state: string): (r: System) {
    if !Admits(s.states, state, s.now) then s
    else s.(states := InFlight(s.states, state),
            exchanges := s.exchanges + [Exchange(state, LinkOf(s.states[state]), Exchanging)])
  }

  function Attached(s: System, k: nat): (r: System)
    requires Enabled(s, Attach(k))
  {
    var x := s.exchanges[k];
    match x.phase
    case Stored(user, sid) =>
      Moved(s, k, AttachedSession(user, sid)).(states := WithOutcome(s.states, x.state, SessionEntry(s.now, sid)))
    case Identified(user) =>
      Moved(s, k, AttachedLink(user)).(states := WithOutcome(s.states, x.state, LinkEntry(s.now, x.link.value, user)))
    case _ => s
  }

  /** What a claim of `state` takes with it, after its sweep. */
  function Taken(s: System, state: string): (r: System) {
    if !HasOutcome(s.states, state) then s
    else
      var e := s.states[state];
      s.(states := AfterTake(s.states, state),
         takings := s.takings + [match e.sessionId
                                 case Some(sid) => LookingUp(state, sid)
                                 case None => Told(state, LinkOk(e.linkUuid, e.user))])
  }

  function Next(s: System, e: Event): (r: System)
    requires Enabled(s, e)
  {
    match e
    case Tick(ms) => s.(now := s.now + ms)
    case Mint(state, link) =>
      s.(states := WithMint(s.states, state, link, s.now), minted := s.minted[state := link])
    case Sweep => s.(states := Swept(s.states, s.now))
    case Callback(state) => Called(s, state)
    case ExchangeErr(k) => Moved(s, k, Failed).(states := WithoutState(s.states, s.exchanges[k].state))
    case ExchangeOk(k, user) => Moved(s, k, Identified(user))
    case StoreSession(k, sid) =>
      var user := s.exchanges[k].phase.user;
      Moved(s, k, Stored(user, sid)).(sessions := WithSession(s.sessions, sid, user, s.now), sids := s.sids + {sid})
    case Attach(k) => Attached(s, k)
    case Take(state) => Taken(s, state)
    case LookUp(j) =>
      var t := s.takings[j];
      s.(takings := s.takings[j := Told(t.state, LookedUp(s.sessions, t.sid))])
    case DropSession(sid) => s.(sessions := WithoutSession(s.sessions, sid))
  }

  predicate EnabledRun(s: System, es: seq<Event>)
    decreases |es|
  {
    es == [] || (Enabled(s, es[0]) && EnabledRun(Next(s, es[0]), es[1..]))
  }

  function Run(s: System, es: seq<Event>): (r: System)
    requires EnabledRun(s, es)
    decreases |es|
  {
    if es == [] then s else Run(Next(s, es[0]), es[1..])
  }

  // ---- Invariant ----

  predicate Finished(ph: Phase) { ph.AttachedSession? || ph.AttachedLink? }

  /** The account a state was minted for, in the form an exchange uses. */
  function LinkFor(s: System, state: string): (r: Option<string>)
    requires state in s.minted
  {
    match s.minted[state]
    case None => None
    case Some(u) => Flat(u)
  }

  /** The entry of a state agrees with the exchange run for it. */
  predicate EntryFits(s: System, x: Exchange) {
    x.state in s.states ==>
      var e := s.states[x.state];
      match x.phase
      case Failed => false
      case AttachedSession(_, sid) => e.sessionId == Some(sid)
      case AttachedLink(user) => e.sessionId == None && e.linked && e.linkUuid == x.link && e.user == Some(user)
      case _ => e.processing && !e.Used()
  }

  /** The session of an exchange, while it lives, holds the exchange's user. */
  predicate SessionFits(s: System, x: Exchange) {
    (x.phase.Stored? || x.phase.AttachedSession?) ==>
      && x.link.None?
      && x.phase.sid in s.sids
      && (x.phase.sid in s.sessions ==> s.sessions[x.phase.sid].user == x.phase.user)
  }

  predicate Exchanges(s: System) {
    && (forall k :: 0 <= k < |s.exchanges| ==> s.exchanges[k].state in s.minted)
    && (forall k :: 0 <= k < |s.exchanges| ==> s.exchanges[k].link == LinkFor(s, s.exchanges[k].state))
    && (forall k :: 0 <= k < |s.exchanges| ==> EntryFits(s, s.exchanges[k]))
    && (forall k :: 0 <= k < |s.exchanges| ==> SessionFits(s, s.exchanges[k]))
    && (forall k :: 0 <= k < |s.exchanges| && s.exchanges[k].phase.AttachedLink? ==> s.exchanges[k].link.Some?)
    && (forall j, k :: 0 <= j < k < |s.exchanges| ==> s.exchanges[j].state != s.exchanges[k].state)
  }

  predicate Started(s: System, state: string) { exists k :: 0 <= k < |s.exchanges| && s.exchanges[k].state == state }

  /** A state in the table was minted, and nobody has run an exchange for it unless it says so. */
  predicate Entries(s: System) {
    && (forall x :: x in s.states ==> x in s.minted)
    && (forall x :: x in s.states && !Started(s, x) ==> s.states[x] == Minted(s.states[x].createdAt, s.minted[x]))
    && (forall x :: x in s.states && s.states[x].sessionId.Some? ==> s.states[x].sessionId.value in s.sids)
    && (forall d :: d in s.sessions ==> d in s.sids)
  }

  /** What a claim was told comes from the exchange of its own state. */
  predicate TakingFits(x: Exchange, t: Taking) {
    && x.state == t.state && Finished(x.phase)
    && match t
       case LookingUp(_, sid) => x.phase.AttachedSession? && sid == x.phase.sid
       case Told(_, claim) =>
         match claim
         case SessionOk(sid, user) => x.phase == AttachedSession(user, sid)
         case LinkOk(uuid, user) => x.phase.AttachedLink? && uuid == x.link && user == Some(x.phase.user)
         case Invalid => x.phase.AttachedSession?
         case Pending => false
  }

  predicate FromExchange(s: System, t: Taking) {
    exists k :: 0 <= k < |s.exchanges| && TakingFits(s.exchanges[k], t)
  }

  predicate Takings(s: System) {
    && (forall j :: 0 <= j < |s.takings| ==> s.takings[j].state !in s.states && FromExchange(s, s.takings[j]))
    && (forall j, k :: 0 <= j < k < |s.takings| ==> s.takings[j].state != s.takings[k].state)
  }

  predicate Inv(s: System) { Exchanges(s) && Entries(s) && Takings(s) }

  // ---- One step keeps the invariant ----

  lemma {:induction false} SameTakings(s: System, r: System)
    requires Takings(s) && r.takings == s.takings
    requires forall x :: x in r.states && x !in s.states ==> x !in s.minted || !Claimed(s, x)
    requires |s.exchanges| <= |r.exchanges|
    requires forall j, k :: 0 <= j < |s.takings| && 0 <= k < |s.exchanges| ==>
      TakingFits(s.exchanges[k], s.takings[j]) ==> TakingFits(r.exchanges[k], s.takings[j])
    requires Entries(s) && Exchanges(s)
    ensures Takings(r)
  {
  }

  predicate Claimed(s: System, x: string) { exists j :: 0 <= j < |s.takings| && s.takings[j].state == x }

  lemma {:induction false} MintKeeps(s: System, state: string, link: Option<string>)
    requires Inv(s) && Enabled(s, Mint(state, link))
    ensures Inv(Next(s, Mint(state, link)))
  {
  }

  lemma {:induction false} SweepKeeps(s: System)
    requires Inv(s)
    ensures Inv(Next(s, Sweep))
  {
  }

  lemma {:induction false} DropSessionKeeps(s: System, sid: string)
    requires Inv(s)
    ensures Inv(Next(s, DropSession(sid)))
  {
  }

  /** A state whose exchange was started is never admitted again. */
  lemma {:induction false} StartedNotAdmitted(s: System, state: string)
    requires Inv(s) && Started(s, state)
    ensures !Admits(s.states, state, s.now)
  {
  }

  /** Sessions known before are as they were, if still there. */
  predicate SessionsGrow(s: System, r: System) {
    && s.sids <= r.sids
    && (forall d :: d in r.sessions && d in s.sids ==> d in s.sessions && r.sessions[d] == s.sessions[d])
  }

  lemma {:induction false} StartedStays(s: System, r: System)
    requires |s.exchanges| <= |r.exchanges|
    requires forall k :: 0 <= k < |s.exchanges| ==> r.exchanges[k].state == s.exchanges[k].state
    ensures forall x :: Started(s, x) ==> Started(r, x)
  {
  }

  /** Another state's exchange is not touched by a change to one entry. */
  lemma {:induction false} OthersFit(s: System, r: System, x: Exchange, state: string)
    requires EntryFits(s, x) && SessionFits(s, x) && x.state != state
    requires r.states - {state} == s.states - {state} && SessionsGrow(s, r)
    ensures EntryFits(r, x) && SessionFits(r, x)
  {
    assert x.state in r.states <==> x.state in r.states - {state};
    assert x.state in s.states <==> x.state in s.states - {state};
    if x.state in s.states {
      assert r.states[x.state] == (r.states - {state})[x.state] == s.states[x.state];
    }
  }

  lemma {:induction false} CallbackExchanges(s: System, state: string)
    requires Inv(s) && Admits(s.states, state, s.now)
    ensures Exchanges(Called(s, state))
  {
  }

  lemma {:induction false} CallbackEntries(s: System, state: string)
    requires Inv(s) && Admits(s.states, state, s.now)
    ensures Entries(Called(s, state))
  {
    var (r, n) := (Called(s, state), |s.exchanges|);
    assert r.exchanges[n].state == state && Started(r, state);
    StartedStays(s, r);
  }

  lemma {:induction false} CallbackKeeps(s: System, state: string)
    requires Inv(s)
    ensures Inv(Called(s, state))
  {
    if Admits(s.states, state, s.now) {
      CallbackExchanges(s, state);
      CallbackEntries(s, state);
      SameTakings(s, Called(s, state));
    }
  }

  // ---- Steps of one exchange ----

  /** `r` is `s` after a step of exchange `k` to phase `ph`, which touched only its own state's entry. */
  predicate StepOf(s: System, r: System, k: nat, ph: Phase)
    requires At(s, k)
  {
    && r.exchanges == s.exchanges[k := s.exchanges[k].(phase := ph)]
    && r.minted == s.minted && r.takings == s.takings
    && r.states - {s.exchanges[k].state} == s.states - {s.exchanges[k].state}
    && SessionsGrow(s, r)
  }

  lemma {:induction false} StepExchanges(s: System, r: System, k: nat, ph: Phase)
    requires Inv(s) && At(s, k) && StepOf(s, r, k, ph)
    requires EntryFits(r, r.exchanges[k]) && SessionFits(r, r.exchanges[k])
    requires ph.AttachedLink? ==> s.exchanges[k].link.Some?
    ensures Exchanges(r)
  {
    forall j | 0 <= j < |r.exchanges|
      ensures EntryFits(r, r.exchanges[j]) && SessionFits(r, r.exchanges[j])
    {
      if j != k {
        OthersFit(s, r, s.exchanges[j], s.exchanges[k].state);
      }
    }
  }

  lemma {:induction false} StepEntries(s: System, r: System, k: nat, ph: Phase)
    requires Inv(s) && At(s, k) && StepOf(s, r, k, ph)
    requires var x := s.exchanges[k].state;
      x in r.states && r.states[x].sessionId.Some? ==> r.states[x].sessionId.value in r.sids
    requires forall d :: d in r.sessions ==> d in r.sids
    ensures Entries(r)
  {
    var state := s.exchanges[k].state;
    StartedStays(s, r);
    assert Started(s, state);
    forall x | x in r.states && x != state
      ensures x in s.states && r.states[x] == s.states[x]
    {
      assert x in r.states - {state};
      assert (r.states - {state})[x] == (s.states - {state})[x];
    }
  }

  lemma {:induction false} StepTakings(s: System, r: System, k: nat, ph: Phase)
    requires Inv(s) && At(s, k) && StepOf(s, r, k, ph) && !Finished(s.exchanges[k].phase)
    ensures Takings(r)
  {
    var state := s.exchanges[k].state;
    forall j | 0 <= j < |s.takings|
      ensures r.takings[j].state !in r.states && FromExchange(r, r.takings[j])
    {
      assert FromExchange(s, s.takings[j]);
      var i :| 0 <= i < |s.exchanges| && TakingFits(s.exchanges[i], s.takings[j]);
      assert i != k && s.exchanges[i].state != state;
      assert TakingFits(r.exchanges[i], r.takings[j]);
      assert s.takings[j].state !in s.states - {state};
    }
  }

  lemma {:induction false} StepKeeps(s: System, r: System, k: nat, ph: Phase)
    requires Inv(s) && At(s, k) && StepOf(s, r, k, ph) && !Finished(s.exchanges[k].phase)
    requires EntryFits(r, r.exchanges[k]) && SessionFits(r, r.exchanges[k])
    requires ph.AttachedLink? ==> s.exchanges[k].link.Some?
    requires var x := s.exchanges[k].state;
      x in r.states && r.states[x].sessionId.Some? ==> r.states[x].sessionId.value in r.sids
    requires forall d :: d in r.sessions ==> d in r.sids
    ensures Inv(r)
  {
    StepExchanges(s, r, k, ph);
    StepEntries(s, r, k, ph);
    StepTakings(s, r, k, ph);
  }

  lemma {:induction false} ErrKeeps(s: System, k: nat)
    requires Inv(s) && Enabled(s, ExchangeErr(k))
    ensures Inv(Next(s, ExchangeErr(k)))
  {
    StepKeeps(s, Next(s, ExchangeErr(k)), k, Failed);
  }

  lemma {:induction false} OkKeeps(s: System, k: nat, user: User)
    requires Inv(s) && Enabled(s, ExchangeOk(k, user))
    ensures Inv(Next(s, ExchangeOk(k, user)))
  {
    assert EntryFits(s, s.exchanges[k]);
    StepKeeps(s, Next(s, ExchangeOk(k, user)), k, Identified(user));
  }

  lemma {:induction false} StoreKeeps(s: System, k: nat, sid: string)
    requires Inv(s) && Enabled(s, StoreSession(k, sid))
    ensures Inv(Next(s, StoreSession(k, sid)))
  {
    assert EntryFits(s, s.exchanges[k]);
    StepKeeps(s, Next(s, StoreSession(k, sid)), k, Stored(s.exchanges[k].phase.user, sid));
  }

  lemma {:induction false} AttachKeeps(s: System, k: nat)
    requires Inv(s) && Enabled(s, Attach(k))
    ensures Inv(Next(s, Attach(k)))
  {
    var (x, r) := (s.exchanges[k], Next(s, Attach(k)));
    assert EntryFits(s, x) && SessionFits(s, x);
    assert r.states - {x.state} == s.states - {x.state};
    if x.phase.Stored? {
      StepKeeps(s, r, k, AttachedSession(x.phase.user, x.phase.sid));
    } else {
      StepKeeps(s, r, k, AttachedLink(x.phase.user));
    }
  }

  // ---- Claims ----

  lemma {:induction false} TakeTakings(s: System, state: string)
    requires Inv(s) && state in s.states && s.states[state].Used() && state != ""
    ensures Takings(Taken(s, state))
  {
  }

  lemma {:induction false} TakeKeeps(s: System, state: string)
    requires Inv(s)
    ensures Inv(Taken(s, state))
  {
    var r := Taken(s, state);
    if r != s {
      TakeTakings(s, state);
      StartedStays(s, r);
      forall k | 0 <= k < |s.exchanges|
        ensures EntryFits(r, r.exchanges[k]) && SessionFits(r, r.exchanges[k])
      {
        assert EntryFits(s, s.exchanges[k]) && SessionFits(s, s.exchanges[k]);
      }
    }
  }

  lemma {:induction false} LookUpKeeps(s: System, j: nat)
    requires Inv(s) && Enabled(s, LookUp(j))
    ensures Inv(Next(s, LookUp(j)))
  {
  }

  lemma {:induction false} TickKeeps(s: System, ms: nat)
    requires Inv(s)
    ensures Inv(Next(s, Tick(ms)))
  {
  }

  lemma {:induction false} InvKept(s: System, e: Event)
    requires Inv(s) && Enabled(s, e)
    ensures Inv(Next(s, e))
  {
    match e
    case Tick(ms) => TickKeeps(s, ms);
    case Mint(state, link) => MintKeeps(s, state, link);
    case Sweep => SweepKeeps(s);
    case Callback(state) => CallbackKeeps(s, state);
    case ExchangeErr(k) => ErrKeeps(s, k);
    case ExchangeOk(k, user) => OkKeeps(s, k, user);
    case StoreSession(k, sid) => StoreKeeps(s, k, sid);
    case Attach(k) => AttachKeeps(s, k);
    case Take(state) => TakeKeeps(s, state);
    case LookUp(j) => LookUpKeeps(s, j);
    case DropSession(sid) => DropSessionKeeps(s, sid);
  }

  lemma {:induction false} InvOnRun(s: System, es: seq<Event>)
    requires Inv(s) && EnabledRun(s, es)
    ensures Inv(Run(s, es))
    decreases |es|
  {
    if es != [] {
      InvKept(s, es[0]);
      InvOnRun(Next(s, es[0]), es[1..]);
    }
  }

  // ---- Over every run ----

  /** Whatever redirects arrive, a minted state starts at most one code exchange. */
  lemma {:induction false} OneExchangePerState(es: seq<Event>, j: nat, k: nat)
    requires EnabledRun(INIT, es)
    requires At(Run(INIT, es), j) && At(Run(INIT, es), k)
    requires Run(INIT, es).exchanges[j].state == Run(INIT, es).exchanges[k].state
    ensures j == k
  {
    InvOnRun(INIT, es);
  }

  predicate ToldOk(t: Taking) { t.Told? && (t.claim.SessionOk? || t.claim.LinkOk?) }

  /** A minted state is claimed with `ok` at most once. */
  lemma {:induction false} OneOkClaimPerState(es: seq<Event>, i: nat, j: nat)
    requires EnabledRun(INIT, es)
    requires i < |Run(INIT, es).takings| && j < |Run(INIT, es).takings|
    requires Run(INIT, es).takings[i].state == Run(INIT, es).takings[j].state
    ensures i == j
  {
    InvOnRun(INIT, es);
  }

  /** The user an exchange produced. */
  function UserOf(ph: Phase): (r: Option<User>) {
    match ph
    case Exchanging => None
    case Failed => None
    case Identified(user) => Some(user)
    case Stored(user, _) => Some(user)
    case AttachedSession(user, _) => Some(user)
    case AttachedLink(user) => Some(user)
  }

  /**
    A claim told `ok` reports the user of its own state's exchange, as a link to the
    account the state was minted for exactly when it was minted for a well-formed one.
  */
  lemma {:induction false} OkReportsOwnUser(es: seq<Event>, j: nat) returns (k: nat)
    requires EnabledRun(INIT, es) && j < |Run(INIT, es).takings| && ToldOk(Run(INIT, es).takings[j])
    ensures var (s, t) := (Run(INIT, es), Run(INIT, es).takings[j]);
      && At(s, k) && s.exchanges[k].state == t.state && t.state in s.minted
      && (if LinkFor(s, t.state).Some? then t.claim == LinkOk(LinkFor(s, t.state), UserOf(s.exchanges[k].phase))
          else t.claim.SessionOk? && Some(t.claim.user) == UserOf(s.exchanges[k].phase))
  {
    InvOnRun(INIT, es);
    var s := Run(INIT, es);
    assert FromExchange(s, s.takings[j]);
    k :| 0 <= k < |s.exchanges| && TakingFits(s.exchanges[k], s.takings[j]);
    assert SessionFits(s, s.exchanges[k]);
  }

  // ---- The steps of one handler ----

  /** An exchange that fails in one go leaves the tables as the end of its callback does. */
  lemma {:induction false} FailureConcludes(s: System, k: nat, sid: string, later: int)
    requires Enabled(s, ExchangeErr(k))
    ensures var (r, x) := (Next(s, ExchangeErr(k)), s.exchanges[k]);
      && r.states == StatesAfter(s.states, x.state, x.link, None, sid, later)
      && r.sessions == SessionsAfter(s.sessions, x.link, None, sid, s.now)
  {
  }

  lemma {:induction false} Prepend(s: System, e: Event, es: seq<Event>)
    requires Enabled(s, e) && EnabledRun(Next(s, e), es)
    ensures EnabledRun(s, [e] + es) && Run(s, [e] + es) == Run(Next(s, e), es)
  {
    assert ([e] + es)[1..] == es;
  }

  /** The steps of an exchange that succeeds, with nothing in between but `ms` before the last one. */
  function SuccessSteps(x: Exchange, k: nat, user: User, sid: string, ms: nat): (es: seq<Event>) {
    var last := [Tick(ms)] + ([Attach(k)] + []);
    if x.link.Some? then [ExchangeOk(k, user)] + last else [ExchangeOk(k, user)] + ([StoreSession(k, sid)] + last)
  }

  lemma {:induction false} AttachesLater(s: System, k: nat, ms: nat)
    requires Enabled(s, Attach(k))
    ensures var es := [Tick(ms)] + ([Attach(k)] + []);
      EnabledRun(s, es) && Run(s, es) == Attached(s.(now := s.now + ms), k)
  {
    Prepend(s.(now := s.now + ms), Attach(k), []);
    Prepend(s, Tick(ms), [Attach(k)] + []);
  }

  lemma {:induction false} LinkConcludes(s: System, k: nat, user: User, sid: string, ms: nat)
    requires Enabled(s, ExchangeOk(k, user)) && s.exchanges[k].link.Some?
    ensures var (x, es) := (s.exchanges[k], SuccessSteps(s.exchanges[k], k, user, sid, ms));
      && EnabledRun(s, es)
      && Run(s, es).states == WithOutcome(s.states, x.state, LinkEntry(s.now + ms, x.link.value, user))
      && Run(s, es).sessions == s.sessions
  {
    var t := Next(s, ExchangeOk(k, user));
    AttachesLater(t, k, ms);
    Prepend(s, ExchangeOk(k, user), [Tick(ms)] + ([Attach(k)] + []));
  }

  lemma {:induction false} SessionConcludes(s: System, k: nat, user: User, sid: string, ms: nat)
    requires Enabled(s, ExchangeOk(k, user)) && s.exchanges[k].link.None? && sid !in s.sids
    ensures var (x, es) := (s.exchanges[k], SuccessSteps(s.exchanges[k], k, user, sid, ms));
      && EnabledRun(s, es)
      && Run(s, es).states == WithOutcome(s.states, x.state, SessionEntry(s.now + ms, sid))
      && Run(s, es).sessions == WithSession(s.sessions, sid, user, s.now)
  {
    var t := Next(s, ExchangeOk(k, user));
    var u := Next(t, StoreSession(k, sid));
    AttachesLater(u, k, ms);
    Prepend(t, StoreSession(k, sid), [Tick(ms)] + ([Attach(k)] + []));
    Prepend(s, ExchangeOk(k, user), [StoreSession(k, sid)] + ([Tick(ms)] + ([Attach(k)] + [])));
  }

  /** The steps of a successful exchange, uninterrupted, leave the tables as the end of its callback does. */
  lemma {:induction false} SuccessConcludes(s: System, k: nat, user: User, sid: string, ms: nat)
    requires Enabled(s, ExchangeOk(k, user)) && sid !in s.sids
    ensures var (x, es) := (s.exchanges[k], SuccessSteps(s.exchanges[k], k, user, sid, ms));
      && EnabledRun(s, es)
      && Run(s, es).states == StatesAfter(s.states, x.state, x.link, Some(user), sid, s.now + ms)
      && Run(s, es).sessions == SessionsAfter(s.sessions, x.link, Some(user), sid, s.now)
  {
    if s.exchanges[k].link.Some? {
      LinkConcludes(s, k, user, sid, ms);
    } else {
      SessionConcludes(s, k, user, sid, ms);
    }
  }

  // ---- A claim while the exchange runs ----

  /** The exchange is under way: nothing is attached to its state yet. */
  predicate MidFlight(ph: Phase) { ph.Exchanging? || ph.Identified? || ph.Stored? }

  /**
    Until the exchange's outcome is attached, a claim is told to wait exactly while the
    state is known and not expired.
  */
  lemma {:induction false} PendingIffNotExpired(s: System, k: nat)
    requires Inv(s) && At(s, k) && MidFlight(s.exchanges[k].phase) && s.exchanges[k].state != ""
    ensures var state := s.exchanges[k].state;
      && (ClaimAnswer(Swept(s.states, s.now), s.sessions, state) == Pending
          <==> state in s.states && s.now - s.states[state].createdAt <= STATE_TTL)
      && (ClaimAnswer(Swept(s.states, s.now), s.sessions, state) != Pending
          ==> ClaimAnswer(Swept(s.states, s.now), s.sessions, state) == Invalid)
  {
    assert EntryFits(s, s.exchanges[k]);
  }

  /** With its state gone, a claim in the middle of an exchange is told `invalid`, and can be told `ok` later. */
  lemma {:induction false} InvalidThenOk(s: System, k: nat, user: User, sid: string, ms: nat)
    requires Inv(s) && At(s, k) && s.exchanges[k].phase.Exchanging? && s.exchanges[k].link.None?
    requires s.exchanges[k].state !in s.states && s.exchanges[k].state != "" && sid !in s.sids
    ensures var (state, es) := (s.exchanges[k].state, SuccessSteps(s.exchanges[k], k, user, sid, ms));
      && ClaimAnswer(s.states, s.sessions, state) == Invalid
      && EnabledRun(s, es)
      && ClaimAnswer(Run(s, es).states, Run(s, es).sessions, state) == SessionOk(sid, user)
  {
    SuccessConcludes(s, k, user, sid, ms);
  }

  /** The state that a slow exchange reaches when its state expires and is swept. */
  function Overtaken(state: string): (s: System) {
    System(STATE_TTL + 1, map[], map[], map[state := None], {}, [Exchange(state, None, Exchanging)], [])
  }

  /** A state is minted, its exchange starts, the state expires, and any sweep removes it. */
  function OvertakingRun(state: string): (es: seq<Event>) {
    [Mint(state, None)] + ([Callback(state)] + ([Tick(STATE_TTL + 1)] + ([Sweep] + [])))
  }

  lemma {:induction false} OvertakenIsReached(state: string)
    requires state != ""
    ensures EnabledRun(INIT, OvertakingRun(state)) && Run(INIT, OvertakingRun(state)) == Overtaken(state)
    ensures Inv(Overtaken(state))
  {
    var s1 := System(0, map[state := Minted(0, None)], map[], map[state := None], {}, [], []);
    var busy := InFlight(s1.states, state);
    var s2 := s1.(states := busy, exchanges := [Exchange(state, None, Exchanging)]);
    var s3 := s2.(now := STATE_TTL + 1);
    assert Next(INIT, Mint(state, None)) == s1;
    assert Next(s1, Callback(state)) == s2;
    assert Next(s2, Tick(STATE_TTL + 1)) == s3;
    assert Swept(busy, STATE_TTL + 1) == map[];
    assert Next(s3, Sweep) == Overtaken(state);
    Prepend(s3, Sweep, []);
    Prepend(s2, Tick(STATE_TTL + 1), [Sweep] + []);
    Prepend(s1, Callback(state), [Tick(STATE_TTL + 1)] + ([Sweep] + []));
    Prepend(INIT, Mint(state, None), [Callback(state)] + ([Tick(STATE_TTL + 1)] + ([Sweep] + [])));
    InvOnRun(INIT, OvertakingRun(state));
  }

  /** So a claim in the middle of an exchange can be told `invalid`, and later `ok`. */
  lemma {:induction false} ToldInvalidThenOk(state: string, user: User, sid: string, ms: nat)
    requires state != ""
    ensures var s := Overtaken(state);
      && ClaimAnswer(s.states, s.sessions, state) == Invalid
      && EnabledRun(s, SuccessSteps(s.exchanges[0], 0, user, sid, ms))
      && var r := Run(s, SuccessSteps(s.exchanges[0], 0, user, sid, ms));
         ClaimAnswer(r.states, r.sessions, state) == SessionOk(sid, user)
  {
    OvertakenIsReached(state);
    InvalidThenOk(Overtaken(state), 0, user, sid, ms);
  }
}
