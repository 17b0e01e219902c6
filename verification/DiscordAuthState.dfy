/** The tables of states and sessions as the program changes them. */
module DiscordAuthState {
  import opened Wrappers
  import opened DiscordAuthModel

  class DiscordAuth {
    var states: States
    var sessions: Sessions

    constructor ()
      ensures states == map[] && sessions == map[]
    {
      states, sessions := map[], map[];
    }

    method Sweep(now: int)
      modifies this`states
      ensures states == Swept(old(states), now)
    {
      states := map s | s in states && now - states[s].createdAt <= STATE_TTL :: states[s];
    }

    /** Register a fresh state, after a sweep. */
    method Start(state: string, link: Option<string>, now: int)
      modifies this`states
      ensures states == WithMint(Swept(old(states), now), state, link, now)
    {
      Sweep(now);
      states := states[state := OAuthState(now, link, None, false, None, false)];
    }

    /** Validate the redirect and claim the state for one exchange; the answer is the account to link. */
    method Begin(error: bool, code: bool, state: Option<string>, now: int)
        returns (r: Result<Option<string>, CallbackError>)
      modifies this`states
      ensures error ==> r == Err(OAuthFailed)
      ensures !error && !code ==> r == Err(MissingCode)
      ensures !error && code && !(state.Some? && Admits(old(states), state.value, now)) ==> r == Err(InvalidState)
      ensures r.Err? ==> states == old(states)
      ensures r.Ok? ==> state.Some? && Admits(old(states), state.value, now)
      ensures r.Ok? ==> states == InFlight(old(states), state.value)
      ensures r.Ok? ==> r.value == LinkOf(old(states)[state.value])
      ensures r.Ok? ==> var id := old(states)[state.value].linkUuid;
        forall flat :: r.value == Some(flat) <==> id.Some? && FlatAs(id.value, flat)
    {
      if error {
        return Err(OAuthFailed);
      }
      if !code {
        return Err(MissingCode);
      }
      if state.None? || state.value !in states {
        return Err(InvalidState);
      }
      var e := states[state.value];
      if e.processing || e.sessionId.Some? || e.linked {
        return Err(InvalidState);
      }
      if now - e.createdAt > STATE_TTL {
        return Err(InvalidState);
      }
      states := states[state.value := e.(processing := true)];
      r := Ok(match e.linkUuid case None => None case Some(u) => Flat(u));
      forall flat | e.linkUuid.Some?
        ensures Flat(e.linkUuid.value) == Some(flat) <==> FlatAs(e.linkUuid.value, flat)
      {
        FlatIff(e.linkUuid.value, flat);
      }
    }

    /**
      The exchange has answered: a failure drops the state, a link is attached to it, and
      a plain sign-in stores its session first and attaches that, under the other lock.
    */
    method Conclude(state: string, link: Option<string>, answer: Option<User>, sid: string, stored: int, attached: int)
      modifies this
      ensures states == StatesAfter(old(states), state, link, answer, sid, attached)
      ensures sessions == SessionsAfter(old(sessions), link, answer, sid, stored)
    {
      if answer.None? {
        states := states - {state};
        return;
      }
      var user := answer.value;
      if link.Some? {
        states := states[state := OAuthState(attached, link, None, true, Some(user), false)];
        return;
      }
      sessions := sessions[sid := Session(user, stored)];
      states := states[state := OAuthState(attached, None, Some(sid), false, None, false)];
    }

    /** Claim the outcome of a state: sweep, take it out of the table, and look up its session. */
    method ClaimUser(state: string, now: int) returns (answer: Claim)
      modifies this`states
      ensures states == AfterTake(Swept(old(states), now), state)
      ensures answer == ClaimAnswer(Swept(old(states), now), sessions, state)
    {
      Sweep(now);
      var lookup;
      answer, lookup := TakeClaim(state);
      if lookup.Some? {
        answer := if lookup.value in sessions then SessionOk(lookup.value, sessions[lookup.value].user) else Invalid;
      }
    }

    /** The claim's part under the states lock. A session outcome names the session to look up. */
    method TakeClaim(state: string) returns (answer: Claim, lookup: Option<string>)
      modifies this`states
      ensures states == AfterTake(old(states), state)
      ensures lookup == if HasOutcome(old(states), state) then old(states)[state].sessionId else None
      ensures lookup == None ==> answer == ClaimAnswer(old(states), sessions, state)
    {
      answer, lookup := Invalid, None;
      if state == "" || state !in states {
        return;
      }
      var e := states[state];
      if e.sessionId.Some? {
        states := states - {state};
        lookup := e.sessionId;
      } else if e.linked {
        states := states - {state};
        answer := LinkOk(e.linkUuid, e.user);
      } else {
        answer := Pending;
      }
    }

    /** The user of a live session; an expired one is removed. */
    method SessionUser(sid: Option<string>, now: int) returns (user: Option<User>)
      modifies this`sessions
      ensures user == SessionUserOf(old(sessions), sid, now)
      ensures sessions == if user.None? && sid.Some? && sid.value != "" then WithoutSession(old(sessions), sid.value)
                          else old(sessions)
    {
      if sid.None? || sid.value == "" || sid.value !in sessions {
        return None;
      }
      var s := sessions[sid.value];
      if now - s.createdAt > SESSION_TTL {
        sessions := sessions - {sid.value};
        return None;
      }
      user := Some(s.user);
    }

    /** Log out. */
    method Destroy(sid: Option<string>)
      modifies this`sessions
      ensures forall now: int :: SessionUserOf(sessions, sid, now) == None
      ensures sessions == if sid.Some? && sid.value != "" then WithoutSession(old(sessions), sid.value)
                          else old(sessions)
    {
      if sid.Some? && sid.value != "" {
        sessions := sessions - {sid.value};
      }
    }
  }
}
