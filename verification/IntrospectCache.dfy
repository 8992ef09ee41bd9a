/** The token-introspection cache of the bearer middleware: entries live thirty seconds and are
    deleted lazily, when a lookup finds them expired. */
module IntrospectCache {
  import opened Constants
  import opened Wrappers

  const TTL := 30 * SECOND

  datatype Claims = Claims(subject: string, appId: string, scopes: seq<string>)

  datatype Entry = Entry(claims: Claims, expiresAt: int)

  type Entries = map<string, Entry>

  // ----- Specification: the cache -------------------------------------------------------

  predicate Expired(e: Entry, now: int) {
    now > e.expiresAt
  }

  function Found(entries: Entries, token: string, now: int): Option<Claims> {
    if token !in entries || Expired(entries[token], now) then None else Some(entries[token].claims)
  }

  function Looked(entries: Entries, token: string, now: int): Entries {
    if Found(entries, token, now).None? then entries - {token} else entries
  }

  function Stored(entries: Entries, token: string, claims: Claims, now: int, ttl: int): Entries {
    entries[token := Entry(claims, now + ttl)]
  }

  // ----- Specification: the middleware --------------------------------------------------

  /** What the introspection endpoint says; any error is `Failed`. */
  datatype Reply = Failed | Answered(active: bool, claims: Claims)

  function Introspected(reply: Reply): Option<Claims> {
    if reply.Answered? && reply.active then Some(reply.claims) else None
  }

  const SCHEME := "Bearer "

  /** The token of an `Authorization` header, empty if there is none. */
  function Bearer(header: string): string {
    if |SCHEME| <= |header| && header[..|SCHEME|] == SCHEME then header[|SCHEME|..] else ""
  }

  datatype AuthCalls = AuthCalls(lookedAt: int, reply: Reply, storedAt: int)

  /** The claims the request goes on with; `None` is the 401 answer. */
  function Admits(entries: Entries, header: string, c: AuthCalls): Option<Claims> {
    if Bearer(header) == "" then None
    else
      var hit := Found(entries, Bearer(header), c.lookedAt);
      if hit.Some? then hit else Introspected(c.reply)
  }

  function Served(entries: Entries, header: string, c: AuthCalls): Entries {
    var token := Bearer(header);
    if token == "" then entries
    else
      var looked := Looked(entries, token, c.lookedAt);
      if Found(entries, token, c.lookedAt).Some? || Introspected(c.reply).None? then looked
      else Stored(looked, token, Introspected(c.reply).value, c.storedAt, TTL)
  }

  // ----- The cache and the middleware ---------------------------------------------------

  class Cache {
    var entries: Entries

    constructor ()
      ensures entries == map[]
    {
      entries := map[];
    }

    method Get(token: string, now: int) returns (r: Option<Claims>)
      modifies this
      ensures entries == Looked(old(entries), token, now)
      ensures r == Found(old(entries), token, now)
    {
      if token !in entries || now > entries[token].expiresAt {
        entries := entries - {token};
        return None;
      }
      return Some(entries[token].claims);
    }

    method Set(token: string, claims: Claims, now: int, ttl: int)
      modifies this
      ensures entries == Stored(old(entries), token, claims, now, ttl)
    {
      entries := entries[token := Entry(claims, now + ttl)];
    }

    method BearerAuth(header: string, c: AuthCalls) returns (r: Option<Claims>)
      modifies this
      ensures entries == Served(old(entries), header, c)
      ensures r == Admits(old(entries), header, c)
    {
      var token := Bearer(header);
      if token == "" {
        return None;
      }
      r := Get(token, c.lookedAt);
      if r.None? {
        if c.reply.Failed? || !c.reply.active {
          return None;
        }
        Set(token, c.reply.claims, c.storedAt, TTL);
        r := Some(c.reply.claims);
      }
    }
  }

  // ----- Lazy deletion against a log that never deletes ---------------------------------

  /** The cache's calls in the order its lock lets them in. */
  datatype Op = Get(token: string, now: int) | Set(token: string, claims: Claims, now: int, ttl: int)

  function After(h: seq<Op>): Entries {
    if h == [] then map[]
    else
      match h[|h| - 1]
      case Get(token, now) => Looked(After(h[..|h| - 1]), token, now)
      case Set(token, claims, now, ttl) => Stored(After(h[..|h| - 1]), token, claims, now, ttl)
  }

  predicate Sets(op: Op, token: string) {
    op.Set? && op.token == token
  }

  ghost predicate LatestSet(h: seq<Op>, token: string, i: nat) {
    i < |h| && Sets(h[i], token) && forall j :: i < j < |h| ==> !Sets(h[j], token)
  }

  function Expiry(op: Op): int
    requires op.Set?
  {
    op.now + op.ttl
  }

  /** A lookup since the latest set, at a time past its expiry. */
  ghost predicate EvictedSince(h: seq<Op>, token: string, i: nat)
    requires LatestSet(h, token, i)
  {
    exists j :: i < j < |h| && h[j].token == token && h[j].now > Expiry(h[i])
  }

  predicate Clocked(h: seq<Op>) {
    forall i, j :: 0 <= i < j < |h| ==> h[i].now <= h[j].now
  }

  lemma {:induction false} NeverSet(h: seq<Op>, token: string)
    requires forall i :: 0 <= i < |h| ==> !Sets(h[i], token)
    ensures token !in After(h)
  {
    if h != [] {
      NeverSet(h[..|h| - 1], token);
    }
  }

  lemma {:induction false} EvictedByLast(h: seq<Op>, token: string, i: nat)
    requires LatestSet(h, token, i) && i < |h| - 1 && LatestSet(h[..|h| - 1], token, i)
    ensures EvictedSince(h, token, i) <==>
            || EvictedSince(h[..|h| - 1], token, i)
            || (h[|h| - 1].token == token && h[|h| - 1].now > Expiry(h[i]))
  {
    var before := h[..|h| - 1];
    if EvictedSince(before, token, i) {
      var j :| i < j < |before| && before[j].token == token && before[j].now > Expiry(before[i]);
      assert h[j].token == token && h[j].now > Expiry(h[i]);
    }
    if EvictedSince(h, token, i) {
      var j :| i < j < |h| && h[j].token == token && h[j].now > Expiry(h[i]);
      if j < |h| - 1 {
        assert before[j] == h[j];
      }
    }
  }

  /** For every history, clock and time to live: the cache holds exactly the latest set of the token,
      and only until a lookup comes past its expiry. */
  lemma {:induction false} HoldsLatestSet(h: seq<Op>, token: string, i: nat)
    requires LatestSet(h, token, i)
    ensures token in After(h) <==> !EvictedSince(h, token, i)
    ensures token in After(h) ==> After(h)[token] == Entry(h[i].claims, Expiry(h[i]))
  {
    if i < |h| - 1 {
      assert LatestSet(h[..|h| - 1], token, i);
      HoldsLatestSet(h[..|h| - 1], token, i);
      EvictedByLast(h, token, i);
      hide EvictedSince;
    }
  }

  /** A lookup answers like a log that never deletes, and hits exactly when the latest set of the
      token is at most its time to live ago, in every history on a clock that never goes back. */
  lemma {:induction false} AnswersLikeALog(h: seq<Op>, token: string, now: int)
    requires Clocked(h + [Get(token, now)])
    ensures Found(After(h), token, now).Some? <==> exists i: nat :: LatestSet(h, token, i) && now - h[i].now <= h[i].ttl
    ensures forall i: nat :: LatestSet(h, token, i) && now - h[i].now <= h[i].ttl ==>
              Found(After(h), token, now) == Some(h[i].claims)
  {
    assert forall j :: 0 <= j < |h| ==> h[j].now <= now by {
      forall j | 0 <= j < |h| ensures h[j].now <= now {
        assert (h + [Get(token, now)])[j] == h[j] && (h + [Get(token, now)])[|h|].now == now;
      }
    }
    forall i: nat | LatestSet(h, token, i)
      ensures Found(After(h), token, now) == if now - h[i].now <= h[i].ttl then Some(h[i].claims) else None
    {
      HoldsLatestSet(h, token, i);
    }
    if forall i: nat :: !LatestSet(h, token, i) {
      NoLatestSet(h, token);
      NeverSet(h, token);
    }
  }

  lemma {:induction false} NoLatestSet(h: seq<Op>, token: string)
    requires forall i: nat :: !LatestSet(h, token, i)
    ensures forall i :: 0 <= i < |h| ==> !Sets(h[i], token)
  {
    if h != [] {
      var before := h[..|h| - 1];
      assert !LatestSet(h, token, |h| - 1);
      forall i: nat ensures !LatestSet(before, token, i) {
        if LatestSet(before, token, i) {
          assert LatestSet(h, token, i);
        }
      }
      NoLatestSet(before, token);
    }
  }

  /** On any clock at all, exactly when lazy deletion shows: the latest set is still live now, but an
      earlier lookup ran ahead of the clock and threw it away. */
  lemma {:induction false} DeletionShowsExactly(h: seq<Op>, token: string, now: int, i: nat)
    requires LatestSet(h, token, i)
    ensures var inLog := if now - h[i].now <= h[i].ttl then Some(h[i].claims) else None;
            Found(After(h), token, now) != inLog <==> EvictedSince(h, token, i) && now <= Expiry(h[i])
  {
    HoldsLatestSet(h, token, i);
  }

  /** The clock must not go back: a lookup ahead of its time loses an entry that is still live. */
  lemma {:induction false} ClockGoingBackLosesAHit(token: string, claims: Claims)
    ensures var h := [Set(token, claims, 0, TTL), Get(token, TTL + 1)];
            LatestSet(h, token, 0) && Found(After(h), token, TTL) == None
  {
    var h := [Set(token, claims, 0, TTL), Get(token, TTL + 1)];
    assert h[1].token == token && h[1].now > Expiry(h[0]);
    HoldsLatestSet(h, token, 0);
  }

  // ----- Overlapping requests -----------------------------------------------------------

  /** A request past its miss: waiting for the endpoint, or holding the active answer it got. */
  datatype Waiting = Asking(token: string) | Storing(token: string, claims: Claims)

  /** The trail records, in order, every answer as it came, every store and every request let through. */
  datatype Event =
    | Answer(token: string, reply: Reply, at: int)
    | Store(token: string, claims: Claims, at: int)
    | Admitted(token: string, claims: Claims, at: int)

  datatype World = World(entries: Entries, pending: map<nat, Waiting>, trail: seq<Event>)

  const START := World(map[], map[], [])

  /** A request arrives and looks its token up; the endpoint answers it; it stores the answer and is
      let through. The clock of each step is its own. */
  datatype Step =
    | Arrive(p: nat, header: string, now: int)
    | Hear(p: nat, reply: Reply, now: int)
    | Keep(p: nat, now: int)

  predicate Enabled(w: World, step: Step) {
    match step
    case Arrive(p, _, _) => p !in w.pending
    case Hear(p, _, _) => p in w.pending && w.pending[p].Asking?
    case Keep(p, _) => p in w.pending && w.pending[p].Storing?
  }

  function Apply(w: World, step: Step): World
    requires Enabled(w, step)
  {
    match step
    case Arrive(p, header, now) =>
      var token := Bearer(header);
      if token == "" then w
      else
        var hit := Found(w.entries, token, now);
        var looked := w.(entries := Looked(w.entries, token, now));
        if hit.Some? then looked.(trail := w.trail + [Admitted(token, hit.value, now)])
        else looked.(pending := w.pending[p := Asking(token)])
    case Hear(p, reply, now) =>
      var token := w.pending[p].token;
      var claims := Introspected(reply);
      var heard := w.(trail := w.trail + [Answer(token, reply, now)]);
      if claims.None? then heard.(pending := w.pending - {p})
      else heard.(pending := w.pending[p := Storing(token, claims.value)])
    case Keep(p, now) =>
      var (token, claims) := (w.pending[p].token, w.pending[p].claims);
      World(Stored(w.entries, token, claims, now, TTL), w.pending - {p},
            w.trail + [Store(token, claims, now), Admitted(token, claims, now)])
  }

  ghost predicate Legal(w: World, steps: seq<Step>)
    decreases |steps|
  {
    steps == [] || (Enabled(w, steps[0]) && Legal(Apply(w, steps[0]), steps[1..]))
  }

  ghost function Run(w: World, steps: seq<Step>): World
    requires Legal(w, steps)
    decreases |steps|
  {
    if steps == [] then w else Run(Apply(w, steps[0]), steps[1..])
  }

  lemma {:induction false} RunOf(w: World, step: Step, rest: seq<Step>)
    requires Enabled(w, step) && Legal(Apply(w, step), rest)
    ensures Legal(w, [step] + rest) && Run(w, [step] + rest) == Run(Apply(w, step), rest)
  {
    assert ([step] + rest)[1..] == rest;
  }

  /** The steps of a lone request: it ends with a hit, a refusal or its store. */
  function RequestSteps(w: World, header: string, c: AuthCalls, heardAt: int): seq<Step> {
    var arrive, hear, keep := Arrive(0, header, c.lookedAt), Hear(0, c.reply, heardAt), Keep(0, c.storedAt);
    if Bearer(header) == "" || Found(w.entries, Bearer(header), c.lookedAt).Some? then [arrive] + []
    else if Introspected(c.reply).None? then [arrive] + ([hear] + [])
    else [arrive] + ([hear] + ([keep] + []))
  }

  /** A request on its own is its arrival and, on a miss, its answer and its store: the entries end as
      the middleware leaves them, and it is let through exactly when, and with the claims that, the
      middleware says. */
  lemma {:induction false} RequestIsItsSteps(w: World, header: string, c: AuthCalls, heardAt: int)
    requires w.pending == map[]
    ensures var steps := RequestSteps(w, header, c, heardAt);
            && Legal(w, steps)
            && Run(w, steps).entries == Served(w.entries, header, c) && Run(w, steps).pending == map[]
            && match Admits(w.entries, header, c)
               case None => forall e :: e in Run(w, steps).trail && e.Admitted? ==> e in w.trail
               case Some(claims) =>
                 var trail := Run(w, steps).trail;
                 |trail| > |w.trail| && trail[|trail| - 1].Admitted? && trail[|trail| - 1].claims == claims
                 && trail[|trail| - 1].token == Bearer(header)
  {
    var arrive, hear, keep := Arrive(0, header, c.lookedAt), Hear(0, c.reply, heardAt), Keep(0, c.storedAt);
    var w1 := Apply(w, arrive);
    if Bearer(header) == "" || Found(w.entries, Bearer(header), c.lookedAt).Some? {
      RunOf(w, arrive, []);
    } else {
      var w2 := Apply(w1, hear);
      if Introspected(c.reply).None? {
        RunOf(w1, hear, []);
        RunOf(w, arrive, [hear] + []);
      } else {
        RunOf(w2, keep, []);
        RunOf(w1, hear, [keep] + []);
        RunOf(w, arrive, [hear] + ([keep] + []));
      }
    }
  }

  predicate Active(reply: Reply, claims: Claims) {
    reply.Answered? && reply.active && reply.claims == claims
  }

  /** Among the first `k` entries the endpoint answered that this token is active, with these claims. */
  ghost predicate Heard(trail: seq<Event>, k: nat, token: string, claims: Claims)
    requires k <= |trail|
  {
    exists i :: 0 <= i < k && trail[i].Answer? && trail[i].token == token && Active(trail[i].reply, claims)
  }

  /** Among the first `k` entries there is such an answer and, after it, a store of it at most thirty
      seconds before `at`. */
  ghost predicate Backed(trail: seq<Event>, k: nat, token: string, claims: Claims, at: int)
    requires k <= |trail|
  {
    exists j :: 0 <= j < k && trail[j].Store? && trail[j].token == token && trail[j].claims == claims
                && at <= trail[j].at + 30 * 1_000_000_000 && Heard(trail, j, token, claims)
  }

  ghost predicate EntriesBacked(entries: Entries, trail: seq<Event>) {
    forall t :: t in entries ==> Backed(trail, |trail|, t, entries[t].claims, entries[t].expiresAt)
  }

  ghost predicate PendingHeard(pending: map<nat, Waiting>, trail: seq<Event>) {
    forall p :: p in pending && pending[p].Storing? ==> Heard(trail, |trail|, pending[p].token, pending[p].claims)
  }

  ghost predicate AdmissionsBacked(trail: seq<Event>) {
    forall k :: 0 <= k < |trail| && trail[k].Admitted? ==> Backed(trail, k, trail[k].token, trail[k].claims, trail[k].at)
  }

  ghost predicate Inv(w: World) {
    EntriesBacked(w.entries, w.trail) && PendingHeard(w.pending, w.trail) && AdmissionsBacked(w.trail)
  }

  lemma {:induction false} HeardStays(trail: seq<Event>, more: seq<Event>, k: nat, token: string, claims: Claims)
    requires k <= |trail| && Heard(trail, k, token, claims)
    ensures Heard(trail + more, k, token, claims) && Heard(trail + more, |trail + more|, token, claims)
  {
    var i :| 0 <= i < k && trail[i].Answer? && trail[i].token == token && Active(trail[i].reply, claims);
    assert (trail + more)[i] == trail[i];
  }

  lemma {:induction false} BackedStays(
      trail: seq<Event>, more: seq<Event>, k: nat, token: string, claims: Claims, at: int)
    requires k <= |trail| && Backed(trail, k, token, claims, at)
    ensures Backed(trail + more, k, token, claims, at)
    ensures Backed(trail + more, |trail + more|, token, claims, at)
  {
    var j :| 0 <= j < k && trail[j].Store? && trail[j].token == token && trail[j].claims == claims
             && at <= trail[j].at + 30 * 1_000_000_000 && Heard(trail, j, token, claims);
    HeardStays(trail, more, j, token, claims);
    assert (trail + more)[j] == trail[j];
  }

  lemma {:induction false} BackedEarlier(
      trail: seq<Event>, k: nat, token: string, claims: Claims, at: int, earlier: int)
    requires k <= |trail| && Backed(trail, k, token, claims, at) && earlier <= at
    ensures Backed(trail, k, token, claims, earlier)
  {
  }

  lemma {:induction false} TrailGrows(w: World, more: seq<Event>)
    requires Inv(w)
    ensures EntriesBacked(w.entries, w.trail + more) && PendingHeard(w.pending, w.trail + more)
    ensures forall k :: 0 <= k < |w.trail| && w.trail[k].Admitted? ==>
              Backed(w.trail + more, k, w.trail[k].token, w.trail[k].claims, w.trail[k].at)
  {
    forall t | t in w.entries
      ensures Backed(w.trail + more, |w.trail + more|, t, w.entries[t].claims, w.entries[t].expiresAt)
    {
      BackedStays(w.trail, more, |w.trail|, t, w.entries[t].claims, w.entries[t].expiresAt);
    }
    forall p | p in w.pending && w.pending[p].Storing?
      ensures Heard(w.trail + more, |w.trail + more|, w.pending[p].token, w.pending[p].claims)
    {
      HeardStays(w.trail, more, |w.trail|, w.pending[p].token, w.pending[p].claims);
    }
    forall k | 0 <= k < |w.trail| && w.trail[k].Admitted?
      ensures Backed(w.trail + more, k, w.trail[k].token, w.trail[k].claims, w.trail[k].at)
    {
      BackedStays(w.trail, more, k, w.trail[k].token, w.trail[k].claims, w.trail[k].at);
    }
  }

  lemma {:induction false} HitKeepsInv(w: World, token: string, now: int)
    requires Inv(w) && token in w.entries && now <= w.entries[token].expiresAt
    ensures Inv(w.(trail := w.trail + [Admitted(token, w.entries[token].claims, now)]))
  {
    hide Backed, Heard;
    var claims := w.entries[token].claims;
    var more := [Admitted(token, claims, now)];
    TrailGrows(w, more);
    BackedEarlier(w.trail, |w.trail|, token, claims, w.entries[token].expiresAt, now);
    BackedStays(w.trail, more, |w.trail|, token, claims, now);
    assert AdmissionsBacked(w.trail + more);
  }

  lemma {:induction false} ArriveKeepsInv(w: World, p: nat, header: string, now: int)
    requires Inv(w) && Enabled(w, Arrive(p, header, now))
    ensures Inv(Apply(w, Arrive(p, header, now)))
  {
    hide Backed, Heard, Bearer;
    var token := Bearer(header);
    if token != "" && Found(w.entries, token, now).Some? {
      HitKeepsInv(w, token, now);
      hide Inv;
    }
  }

  lemma {:induction false} HearKeepsInv(w: World, p: nat, reply: Reply, now: int)
    requires Inv(w) && Enabled(w, Hear(p, reply, now))
    ensures Inv(Apply(w, Hear(p, reply, now)))
  {
    var token := w.pending[p].token;
    var more := [Answer(token, reply, now)];
    TrailGrows(w, more);
    assert (w.trail + more)[|w.trail|] == more[0];
    if Introspected(reply).Some? {
      assert Heard(w.trail + more, |w.trail + more|, token, reply.claims);
    }
    hide Backed, Heard;
    assert AdmissionsBacked(w.trail + more);
  }

  lemma {:induction false} KeepKeepsInv(w: World, p: nat, now: int)
    requires Inv(w) && Enabled(w, Keep(p, now))
    ensures Inv(Apply(w, Keep(p, now)))
  {
    var token, claims := w.pending[p].token, w.pending[p].claims;
    var more := [Store(token, claims, now), Admitted(token, claims, now)];
    TrailGrows(w, more);
    HeardStays(w.trail, more, |w.trail|, token, claims);
    assert (w.trail + more)[|w.trail|] == more[0];
    assert Backed(w.trail + more, |w.trail| + 1, token, claims, now);
    assert Backed(w.trail + more, |w.trail + more|, token, claims, now + TTL);
    hide Backed, Heard;
    assert AdmissionsBacked(w.trail + more);
    assert EntriesBacked(Stored(w.entries, token, claims, now, TTL), w.trail + more);
  }

  lemma {:induction false} RunKeepsInv(w: World, steps: seq<Step>)
    requires Inv(w) && Legal(w, steps)
    ensures Inv(Run(w, steps))
    decreases |steps|
  {
    hide Inv;
    if steps != [] {
      match steps[0] {
        case Arrive(p, header, now) => ArriveKeepsInv(w, p, header, now);
        case Hear(p, reply, now) => HearKeepsInv(w, p, reply, now);
        case Keep(p, now) => KeepKeepsInv(w, p, now);
      }
      RunKeepsInv(Apply(w, steps[0]), steps[1..]);
    }
  }

  /** Whatever requests overlap, call by call, and whatever the clocks do: a request is let through
      only with claims that the endpoint had answered for that very token and that were stored, after
      that answer, at most thirty seconds before. Failed and inactive answers let nobody through. */
  lemma {:induction false} AdmittedOnlyWhenVouched(steps: seq<Step>)
    requires Legal(START, steps)
    ensures AdmissionsBacked(Run(START, steps).trail)
  {
    RunKeepsInv(START, steps);
  }

  /** The thirty seconds run from the store, not from the answer: for any delay between the two, a
      hit thirty seconds after the store lets a second request through on the old answer. */
  lemma {:induction false} HitOutlivesItsAnswer(token: string, claims: Claims, delay: nat) returns (steps: seq<Step>)
    requires token != ""
    ensures Legal(START, steps)
    ensures Run(START, steps).trail == [Answer(token, Answered(true, claims), 0), Store(token, claims, delay),
                                        Admitted(token, claims, delay),
                                        Admitted(token, claims, delay + 30 * 1_000_000_000)]
  {
    var header := SCHEME + token;
    assert Bearer(header) == token;
    var reply := Answered(true, claims);
    var w1 := Apply(START, Arrive(0, header, 0));
    var w2 := Apply(w1, Hear(0, reply, 0));
    var w3 := Apply(w2, Keep(0, delay));
    var again := Arrive(1, header, delay + TTL);
    RunOf(w3, again, []);
    RunOf(w2, Keep(0, delay), [again] + []);
    RunOf(w1, Hear(0, reply, 0), [Keep(0, delay)] + ([again] + []));
    RunOf(START, Arrive(0, header, 0), [Hear(0, reply, 0)] + ([Keep(0, delay)] + ([again] + [])));
    steps := [Arrive(0, header, 0)] + ([Hear(0, reply, 0)] + ([Keep(0, delay)] + ([again] + [])));
  }

  /** A lookup of the token at that time finds nothing live. */
  predicate Misses(entries: Entries, token: string, now: int) {
    token in entries ==> now > entries[token].expiresAt
  }

  /** A failed or inactive answer changes no entry, so it never makes a later hit. */
  lemma {:induction false} FailureStoresNothing(entries: Entries, header: string, c: AuthCalls, token: string, now: int)
    requires c.reply.Failed? || !c.reply.active
    ensures Found(Served(entries, header, c), token, now).Some? ==>
              Found(entries, token, now) == Found(Served(entries, header, c), token, now)
    ensures header == "Bearer " + token && Misses(entries, token, c.lookedAt) ==>
              Admits(entries, header, c) == None && (token != "" ==> token !in Served(entries, header, c))
  {
    if header == "Bearer " + token {
      assert header[..7] == "Bearer " && header[7..] == token;
    }
  }

  /** Who is let through, exactly: a request with a non-empty bearer token that has a live entry, or
      whose introspection answers that it is active, and then with the claims of that entry or answer. */
  lemma {:induction false} AdmitsExactly(entries: Entries, token: string, c: AuthCalls)
    ensures var r := Admits(entries, "Bearer " + token, c);
            && (r.Some? <==>
                token != "" && (Misses(entries, token, c.lookedAt) ==> c.reply.Answered? && c.reply.active))
            && (r.Some? ==>
                r.value == if Misses(entries, token, c.lookedAt) then c.reply.claims else entries[token].claims)
    ensures var t := Served(entries, "Bearer " + token, c);
            token != "" && Misses(entries, token, c.lookedAt) && c.reply.Answered? && c.reply.active ==>
              t == entries[token := Entry(c.reply.claims, c.storedAt + 30 * 1_000_000_000)]
  {
    assert ("Bearer " + token)[..7] == "Bearer " && ("Bearer " + token)[7..] == token;
  }

  /** Any other header is refused without touching the cache. */
  lemma {:induction false} OtherHeadersAreRefused(entries: Entries, header: string, c: AuthCalls)
    requires |header| < 7 || header[..7] != "Bearer "
    ensures Admits(entries, header, c) == None && Served(entries, header, c) == entries
  {
  }
}
