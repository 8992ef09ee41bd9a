/** How long and for whom an invitation is good, read off the invitation and the clock. */
module InvitationLife {
  import opened Wrappers
  import opened Invitations

  // ----- Accepting ----------------------------------------------------------------------

  /** The invitation under the token can still be taken up at time `now`. */
  predicate Open(invitations: Invites, token: string, now: int) {
    && token in invitations && invitations[token].acceptedAt.None? && now <= invitations[token].expiresAt
  }

  predicate CallsWork(c: AcceptCalls) {
    c.findOk && c.addOk && c.markOk
  }

  /** An accept succeeds if and only if the token is stored, not accepted and not past its expiry, the
      user is not yet a member, and the three calls work; the member then has the invitation's
      organisation and role. */
  lemma {:induction false} AcceptsExactly(s: State, token: string, userId: string, c: AcceptCalls)
    requires Keyed(s.invitations)
    ensures AcceptResult(s, token, userId, c).Success? <==>
            && Open(s.invitations, token, c.checkedAt) && CallsWork(c)
            && (s.invitations[token].orgId, userId) !in s.members
    ensures AcceptResult(s, token, userId, c).Success? ==>
              var inv, t := s.invitations[token], Accepted(s, token, userId, c);
              && AcceptResult(s, token, userId, c).value == Member(inv.orgId, userId, inv.role, c.joinedAt)
              && t.members == s.members[(inv.orgId, userId) := Member(inv.orgId, userId, inv.role, c.joinedAt)]
              && t.invitations == s.invitations[token := inv.(acceptedAt := Some(c.markedAt))]
              && t.events == s.events + [MemberJoined(inv.orgId, userId, inv.role, c.joinedAt)]
  {
    if token in s.invitations {
      MarkOnlyMarks(s.invitations, s.invitations[token], c.markedAt);
    }
    hide WithMark, Keyed;
  }

  /** Past its expiry an invitation admits nobody, whatever else works: the store stays as it is, and
      the answer is that it has expired, unless it was accepted before or cannot be read. */
  lemma {:induction false} ExpiredAdmitsNobody(s: State, token: string, userId: string, c: AcceptCalls)
    requires token in s.invitations && c.checkedAt > s.invitations[token].expiresAt
    ensures Accepted(s, token, userId, c) == s && AcceptResult(s, token, userId, c).Failure?
    ensures c.findOk && s.invitations[token].acceptedAt.None? ==>
              AcceptResult(s, token, userId, c) == Failure(InviteExpired)
  {
  }

  /** The other refusals: an unknown token, and one already taken up. */
  lemma {:induction false} RefusalsExactly(s: State, token: string, userId: string, c: AcceptCalls)
    ensures AcceptResult(s, token, userId, c) == Failure(InviteNotFound) <==> c.findOk && token !in s.invitations
    ensures AcceptResult(s, token, userId, c) == Failure(InviteExpired) <==>
            && c.findOk && token in s.invitations && s.invitations[token].acceptedAt.None?
            && c.checkedAt > s.invitations[token].expiresAt
    ensures c.findOk && token in s.invitations && s.invitations[token].acceptedAt.Some? ==>
              AcceptResult(s, token, userId, c) == Failure(AlreadyExists) && Accepted(s, token, userId, c) == s
  {
  }

  /** In the interleaved system a lookup gets through if and only if the token is open when it is
      made, and then holds the invitation as it stands; otherwise it changes nothing. */
  lemma {:induction false} LookupAdmitsExactly(w: World, p: nat, token: string, userId: string, now: int)
    requires p !in w.running
    ensures var t := Apply(w, Lookup(p, token, userId, now));
            if Open(w.state.invitations, token, now)
            then t == w.(running := w.running[p := Adding(w.state.invitations[token], userId)])
            else t == w
  {
  }

  // ----- Expiry over runs ---------------------------------------------------------------

  /** No lookup of the token in the run gets through after its expiry. */
  ghost predicate EveryLookupInTime(w: World, steps: seq<Step>, token: string)
    requires Legal(w, steps)
    decreases |steps|
  {
    steps != [] ==>
      && (steps[0].Lookup? && steps[0].token == token && Apply(w, steps[0]) != w ==>
            token in w.state.invitations && steps[0].now <= w.state.invitations[token].expiresAt)
      && EveryLookupInTime(Apply(w, steps[0]), steps[1..], token)
  }

  /** So it is in every interleaving. */
  lemma {:induction false} LookupsAreInTime(w: World, steps: seq<Step>, token: string)
    requires Legal(w, steps)
    ensures EveryLookupInTime(w, steps, token)
    decreases |steps|
  {
    if steps != [] {
      if steps[0].Lookup? && steps[0].token == token {
        LookupAdmitsExactly(w, steps[0].p, token, steps[0].userId, steps[0].now);
      }
      hide Apply;
      LookupsAreInTime(Apply(w, steps[0]), steps[1..], token);
    }
  }

  // ----- Inviting -----------------------------------------------------------------------

  predicate KnownRole(role: string) {
    role in {"owner", "admin", "member"}
  }

  /** The invitations that can be made: an address, a known role, a generated token, an insert that
      works, and an id and a token not in use. */
  predicate MayInvite(s: State, email: string, role: string, c: InviteCalls) {
    && email != "" && KnownRole(role) && c.token.Some? && c.createOk
    && c.token.value !in s.invitations && forall t :: t in s.invitations ==> s.invitations[t].id != c.id
  }

  /** An invite succeeds exactly then. What is stored is for the given organisation, address and role,
      not accepted, and good for seven days; nothing else changes but the announcement. */
  lemma {:induction false} InvitesExactly(s: State, orgId: string, email: string, role: string, c: InviteCalls)
    ensures InviteError(s, orgId, email, role, c).None? <==> MayInvite(s, email, role, c)
    ensures var t := Invited(s, orgId, email, role, c);
            if MayInvite(s, email, role, c) then
              && t.invitations == s.invitations[c.token.value :=
                   Invitation(c.id, orgId, email, role, c.token.value, c.now + 7 * 24 * 3600 * 1_000_000_000, None, c.now)]
              && t.members == s.members && t.trail == s.trail
              && t.events == s.events + [MemberInvited(orgId, email, role, c.now)]
            else t == s
  {
  }

  /** From the invite on: a new invitation, whatever else its store holds, admits a user who is not a
      member, with its role, at every time up to seven days after it was made and at none after. */
  lemma {:induction false} InviteAdmitsForSevenDays(
      s: State, orgId: string, email: string, role: string, c: InviteCalls, userId: string, a: AcceptCalls)
    requires Keyed(s.invitations) && MayInvite(s, email, role, c)
    requires (orgId, userId) !in s.members && CallsWork(a)
    ensures var t := Invited(s, orgId, email, role, c);
            && (AcceptResult(t, c.token.value, userId, a).Success? <==>
                a.checkedAt <= c.now + 7 * 24 * 3600 * 1_000_000_000)
            && (AcceptResult(t, c.token.value, userId, a).Success? ==>
                AcceptResult(t, c.token.value, userId, a).value == Member(orgId, userId, role, a.joinedAt))
  {
    InvitesExactly(s, orgId, email, role, c);
    var t := Invited(s, orgId, email, role, c);
    assert Keyed(t.invitations);
    hide AcceptResult, Invited, Keyed;
    AcceptsExactly(t, c.token.value, userId, a);
  }
}
