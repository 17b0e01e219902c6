/**
  Discord sign-in: the table of OAuth states and the table of launcher sessions, and
  what each handler does to them under its lock.
*/
module DiscordAuthModel {
  import opened Wrappers

  const STATE_TTL := 15 * 60 * 1000
  const SESSION_TTL := 30 * 24 * 60 * 60 * 1000

  /** The Discord account an exchange produced, its record carried as one text. */
  type User = string

  datatype OAuthState = OAuthState(
    createdAt: int,
    linkUuid: Option<string>,
    sessionId: Option<string>,
    linked: bool,
    user: Option<User>,
    processing: bool)
  {
    /** The state has served: its outcome waits to be claimed. */
    predicate Used() { sessionId.Some? || linked }
  }

  datatype Session = Session(user: User, createdAt: int)

  type States = map<string, OAuthState>
  type Sessions = map<string, Session>

  datatype CallbackError = OAuthFailed | MissingCode | InvalidState

  datatype Claim =
    | Pending
    | Invalid
    | SessionOk(sessionId: string, user: User)
    | LinkOk(uuid: Option<string>, linkedUser: Option<User>)

  // ---- Account ids ----

  function Lower(c: char): (r: char) { if 'A' <= c <= 'Z' then c - 'A' + 'a' else c }

  predicate HexDigit(c: char) { '0' <= c <= '9' || 'a' <= c <= 'f' || 'A' <= c <= 'F' }

  function Stripped(s: string): (r: string) {
    if s == "" then "" else if s[0] == '-' then Stripped(s[1..]) else [Lower(s[0])] + Stripped(s[1..])
  }

  /** An account id without dashes and in lower case, none when it is not 32 hex digits. */
  function Flat(s: string): (r: Option<string>) {
    var t := Stripped(s);
    if |t| == 32 && forall i :: 0 <= i < |t| ==> HexDigit(t[i]) then Some(t) else None
  }

  // ---- Account ids, by their characters ----

  /** The characters that are not dashes. */
  function Undashed(s: string): (r: string) {
    if s == "" then "" else (if s[0] == '-' then "" else [s[0]]) + Undashed(s[1..])
  }

  /** A hexadecimal digit `c`, whose lower-case form is `d`. */
  predicate HexAs(c: char, d: char) {
    (('0' <= c <= '9' || 'a' <= c <= 'f') && d == c) || ('A' <= c <= 'F' && d == c - 'A' + 'a')
  }

  /** Without its dashes the id is 32 hexadecimal digits, in lower case `flat`. */
  predicate FlatAs(id: string, flat: string) {
    |Undashed(id)| == 32 == |flat| && forall k :: 0 <= k < 32 ==> HexAs(Undashed(id)[k], flat[k])
  }

  lemma {:induction false} StrippedIsLower(s: string)
    ensures |Stripped(s)| == |Undashed(s)|
    ensures forall k :: 0 <= k < |Stripped(s)| ==> Stripped(s)[k] == Lower(Undashed(s)[k])
  {
    if s != "" {
      StrippedIsLower(s[1..]);
    }
  }

  /**
    An account id has a flat form exactly when it is 32 hexadecimal digits besides its dashes,
    and then just these in lower case.
  */
  lemma {:induction false} FlatIff(id: string, flat: string)
    ensures Flat(id) == Some(flat) <==> FlatAs(id, flat)
  {
    var (t, u) := (Stripped(id), Undashed(id));
    StrippedIsLower(id);
    if |u| == 32 == |flat| {
      forall k | 0 <= k < 32
        ensures HexAs(u[k], flat[k]) <==> HexDigit(t[k]) && t[k] == flat[k]
      {
      }
      if FlatAs(id, flat) {
        assert t == flat;
      }
    }
  }

  lemma {:induction false} UndashedOnly(s: string)
    requires forall k :: 0 <= k < |s| ==> s[k] != '-'
    ensures Undashed(s) == s
  {
    if s != "" {
      UndashedOnly(s[1..]);
    }
  }

  /** A flat id is its own flat form. */
  lemma {:induction false} FlatStays(id: string, flat: string)
    requires FlatAs(id, flat)
    ensures FlatAs(flat, flat)
  {
    forall k | 0 <= k < 32
      ensures flat[k] != '-' && HexAs(flat[k], flat[k])
    {
      assert HexAs(Undashed(id)[k], flat[k]);
    }
    UndashedOnly(flat);
  }

  // ---- The handlers' effects ----

  function Swept(m: States, now: int): (r: States)
    ensures forall s :: s in r <==> s in m && now - m[s].createdAt <= STATE_TTL
    ensures forall s :: s in r ==> r[s] == m[s]
  {
    map s | s in m && now - m[s].createdAt <= STATE_TTL :: m[s]
  }

  function Minted(now: int, link: Option<string>): (r: OAuthState) {
    OAuthState(now, link, None, false, None, false)
  }

  function LinkEntry(now: int, uuid: string, user: User): (r: OAuthState) {
    OAuthState(now, Some(uuid), None, true, Some(user), false)
  }

  function SessionEntry(now: int, sid: string): (r: OAuthState) {
    OAuthState(now, None, Some(sid), false, None, false)
  }

  /** A callback may run its exchange only for a state neither used, in flight nor expired. */
  predicate Admits(m: States, state: string, now: int) {
    state in m && !m[state].processing && !m[state].Used() && now - m[state].createdAt <= STATE_TTL
  }

  function LinkOf(e: OAuthState): (r: Option<string>) {
    match e.linkUuid
    case None => None
    case Some(u) => Flat(u)
  }

  function WithMint(m: States, state: string, link: Option<string>, now: int): (r: States) {
    m[state := Minted(now, link)]
  }

  /** The state's exchange runs: no other callback is admitted for it. */
  function InFlight(m: States, state: string): (r: States)
    requires state in m
  {
    m[state := m[state].(processing := true)]
  }

  function WithoutState(m: States, state: string): (r: States) { m - {state} }

  /** The outcome replaces whatever the table holds for the state, or nothing. */
  function WithOutcome(m: States, state: string, entry: OAuthState): (r: States) { m[state := entry] }

  function WithSession(ss: Sessions, sid: string, user: User, now: int): (r: Sessions) {
    ss[sid := Session(user, now)]
  }

  function WithoutSession(ss: Sessions, sid: string): (r: Sessions) { ss - {sid} }

  // ---- Claims ----

  predicate HasOutcome(m: States, state: string) { state != "" && state in m && m[state].Used() }

  /** The claim that takes an outcome leaves nothing for the next one. */
  function AfterTake(m: States, state: string): (r: States) {
    if HasOutcome(m, state) then WithoutState(m, state) else m
  }

  function LookedUp(ss: Sessions, sid: string): (r: Claim) {
    if sid in ss then SessionOk(sid, ss[sid].user) else Invalid
  }

  /** What a claim is told, after its sweep. */
  function ClaimAnswer(m: States, ss: Sessions, state: string): (r: Claim) {
    if state == "" || state !in m then Invalid
    else if !m[state].Used() then Pending
    else
      match m[state].sessionId
      case Some(sid) => LookedUp(ss, sid)
      case None => LinkOk(m[state].linkUuid, m[state].user)
  }

  /** Whom a session id belongs to, nobody once its time is over. */
  function SessionUserOf(ss: Sessions, sid: Option<string>, now: int): (r: Option<User>) {
    if sid.Some? && sid.value != "" && sid.value in ss && now - ss[sid.value].createdAt <= SESSION_TTL
    then Some(ss[sid.value].user) else None
  }

  /** After a log-out the session id belongs to nobody, neither to a claim, and all others are as before. */
  lemma {:induction false} LoggedOut(ss: Sessions, sid: string, x: Option<string>, now: int)
    ensures SessionUserOf(WithoutSession(ss, sid), x, now) == if x == Some(sid) then None else SessionUserOf(ss, x, now)
    ensures x.Some? ==> LookedUp(WithoutSession(ss, sid), x.value) == if x == Some(sid) then Invalid
                        else LookedUp(ss, x.value)
  {
    var r := WithoutSession(ss, sid);
    assert forall d :: d in r <==> d in ss && d != sid;
    assert forall d :: d in r ==> r[d] == ss[d];
  }

  // ---- The end of a callback ----

  /** The states once the exchange for `state` has answered, `None` being a failure. */
  function StatesAfter(m: States, state: string, link: Option<string>, answer: Option<User>, sid: string,
      attached: int):
      (r: States)
  {
    match answer
    case None => WithoutState(m, state)
    case Some(user) =>
      match link
      case Some(uuid) => WithOutcome(m, state, LinkEntry(attached, uuid, user))
      case None => WithOutcome(m, state, SessionEntry(attached, sid))
  }

  function SessionsAfter(ss: Sessions, link: Option<string>, answer: Option<User>, sid: string, stored: int):
      (r: Sessions)
  {
    if answer.Some? && link.None? then WithSession(ss, sid, answer.value, stored) else ss
  }
}
