/**
  Sign-in, said of the ids and moments themselves: which account a state links, and how
  long states, outcomes and sessions last.
*/
module DiscordLaws {
  import opened Wrappers
  import opened DiscordAuthModel
  import opened DiscordFlows

  // ---- Times ----

  /** A state that was just minted admits a redirect, and keeps its claims waiting, for fifteen minutes. */
  lemma {:induction false} MintedLasts(m: States, ss: Sessions, state: string, link: Option<string>, at: int, now: int)
    requires state != ""
    ensures var n := WithMint(m, state, link, at);
      && (Admits(n, state, now) <==> now - at <= 900_000)
      && ClaimAnswer(Swept(n, now), ss, state) == if now - at <= 900_000 then Pending else Invalid
  {
  }

  /** An outcome can be claimed for fifteen minutes from its attachment. */
  lemma {:induction false} OutcomeLasts(m: States, ss: Sessions, state: string, uuid: string, user: User, sid: string,
      at: int, now: int)
    requires state != ""
    ensures var link := WithOutcome(m, state, LinkEntry(at, uuid, user));
      ClaimAnswer(Swept(link, now), ss, state) ==
        if now - at <= 900_000 then LinkOk(Some(uuid), Some(user)) else Invalid
    ensures var session := WithOutcome(m, state, SessionEntry(at, sid));
      ClaimAnswer(Swept(session, now), ss, state) ==
        if now - at <= 900_000 && sid in ss then SessionOk(sid, ss[sid].user) else Invalid
  {
  }

  /** A session answers its user for thirty days, and nobody after. */
  lemma {:induction false} SessionLasts(ss: Sessions, sid: string, user: User, at: int, now: int)
    requires sid != ""
    ensures SessionUserOf(WithSession(ss, sid, user, at), Some(sid), now)
      == if now - at <= 30 * 24 * 3600 * 1000 then Some(user) else None
  {
  }

  /**
    In every reachable state a redirect is admitted exactly for a known state, not expired,
    whose exchange was not started.
  */
  lemma {:induction false} AdmittedIff(es: seq<Event>, state: string)
    requires EnabledRun(INIT, es)
    ensures var s := Run(INIT, es);
      Admits(s.states, state, s.now)
      <==> state in s.states && s.now - s.states[state].createdAt <= 900_000 && !Started(s, state)
  {
    InvOnRun(INIT, es);
  }

  // ---- Claims in their two steps ----

  /** Taking an outcome, and looking its session up when there is one, tells what the claim answers. */
  lemma {:induction false} TakeTells(s: System, state: string)
    requires HasOutcome(s.states, state)
    ensures var (r, j) := (Next(s, Take(state)), |s.takings|);
      && j < |r.takings| && r.takings[..j] == s.takings && state !in r.states
      && (if s.states[state].sessionId.Some?
          then Enabled(r, LookUp(j))
               && Next(r, LookUp(j)).takings[j] == Told(state, ClaimAnswer(s.states, s.sessions, state))
          else r.takings[j] == Told(state, ClaimAnswer(s.states, s.sessions, state)))
  {
  }

  // ---- Which account is linked ----

  /**
    A claim told `ok` reports the user of its own state's exchange: as a link to the flat
    form of the account id the state was minted with when that id has one, and as a
    session when it has none or the state was minted for no account.
  */
  lemma {:induction false} OkLinksMintedAccount(es: seq<Event>, j: nat) returns (k: nat)
    requires EnabledRun(INIT, es) && j < |Run(INIT, es).takings| && ToldOk(Run(INIT, es).takings[j])
    ensures var (s, t) := (Run(INIT, es), Run(INIT, es).takings[j]);
      && At(s, k) && s.exchanges[k].state == t.state && t.state in s.minted
      && var (id, user) := (s.minted[t.state], UserOf(s.exchanges[k].phase));
      && (t.claim.LinkOk? <==> id.Some? && exists flat :: FlatAs(id.value, flat))
      && (t.claim.LinkOk? ==> t.claim.uuid.Some? && FlatAs(id.value, t.claim.uuid.value) && t.claim.linkedUser == user)
      && (t.claim.SessionOk? ==> Some(t.claim.user) == user)
  {
    k := OkReportsOwnUser(es, j);
    var s := Run(INIT, es);
    var id := s.minted[s.takings[j].state];
    if id.Some? {
      if flat :| FlatAs(id.value, flat) {
        FlatIff(id.value, flat);
      }
      if Flat(id.value).Some? {
        FlatIff(id.value, Flat(id.value).value);
      }
    }
  }
}
