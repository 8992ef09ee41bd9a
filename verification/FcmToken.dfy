/** The FCM access-token cache: a token is reused while more than five minutes of it are left, and
    fetched anew otherwise. How stale an answer can be, and how often a fetch can happen. */
module FcmToken {
  import opened Constants
  import opened Wrappers

  const LEAD := 300 * SECOND
  const TWO_TO_63 := 0x8000_0000_0000_0000

  /** The longest whole-second duration a signed 64-bit count of nanoseconds can hold. */
  const MAX_SECONDS := 9_223_372_036

  datatype CachedToken = CachedToken(value: string, expiresAt: int)

  type Cache = Option<CachedToken>

  /** How the exchange with the token endpoint ends; any error is `Failed`. */
  datatype Reply = Failed | Granted(value: string, expiresIn: int)

  /** One call of `Token`: the clock when it checks the cache, the clock when a fetch would start, and
      the reply a fetch would get. */
  datatype Call = Call(checkedAt: int, startedAt: int, reply: Reply)

  // ----- Specification ------------------------------------------------------------------

  function Wrap64(x: int): int {
    (x + TWO_TO_63) % (2 * TWO_TO_63) - TWO_TO_63
  }

  /** Seconds are multiplied out in 64-bit arithmetic. */
  function Lifetime(expiresIn: int): int {
    Wrap64(expiresIn * SECOND)
  }

  predicate Usable(cache: Cache, now: int) {
    cache.Some? && cache.value.expiresAt - now > LEAD
  }

  predicate Grants(reply: Reply) {
    reply.Granted? && reply.value != ""
  }

  predicate Fetches(cache: Cache, c: Call) {
    !Usable(cache, c.checkedAt) && Grants(c.reply)
  }

  function Next(cache: Cache, c: Call): Cache {
    if Fetches(cache, c) then Some(CachedToken(c.reply.value, c.startedAt + Lifetime(c.reply.expiresIn))) else cache
  }

  function Answer(cache: Cache, c: Call): Option<string> {
    if Usable(cache, c.checkedAt) then Some(cache.value.value)
    else if Grants(c.reply) then Some(c.reply.value)
    else None
  }

  // ----- The token source ---------------------------------------------------------------

  class TokenSource {
    var cache: Cache

    constructor ()
      ensures cache == None
    {
      cache := None;
    }

    method Token(c: Call) returns (r: Option<string>)
      modifies this
      ensures cache == Next(old(cache), c)
      ensures r == Answer(old(cache), c)
    {
      if cache.Some? && cache.value.expiresAt - c.checkedAt > LEAD {
        return Some(cache.value.value);
      }
      var fetched := FetchToken(c.startedAt, c.reply);
      if fetched.None? {
        return None;
      }
      cache := fetched;
      return Some(fetched.value.value);
    }

    static method FetchToken(now: int, reply: Reply) returns (r: Option<CachedToken>)
      ensures r == if Grants(reply) then Some(CachedToken(reply.value, now + Lifetime(reply.expiresIn))) else None
    {
      if reply.Failed? {
        return None;
      }
      if reply.value == "" {
        return None;
      }
      return Some(CachedToken(reply.value, now + Wrap64(reply.expiresIn * SECOND)));
    }
  }

  // ----- Runs ---------------------------------------------------------------------------

  /** The clock never goes back within a call or from one call to the next. */
  predicate Clocked(calls: seq<Call>) {
    && (forall i :: 0 <= i < |calls| ==> calls[i].checkedAt <= calls[i].startedAt)
    && (forall i, j :: 0 <= i < j < |calls| ==> calls[i].startedAt <= calls[j].checkedAt)
  }

  function After(cache: Cache, calls: seq<Call>): Cache {
    if calls == [] then cache else Next(After(cache, calls[..|calls| - 1]), calls[|calls| - 1])
  }

  /** When the successful fetches of a run start. */
  function Starts(cache: Cache, calls: seq<Call>): seq<int> {
    if calls == [] then []
    else
      var before := calls[..|calls| - 1];
      var last := calls[|calls| - 1];
      if Fetches(After(cache, before), last) then Starts(cache, before) + [last.startedAt] else Starts(cache, before)
  }

  // ----- Freshness ----------------------------------------------------------------------

  /** The cache holds what the latest successful fetch of the run brought. */
  ghost predicate HeldSince(cache: Cache, calls: seq<Call>, i: nat) {
    && i < |calls| && Fetches(After(None, calls[..i]), calls[i])
    && cache == Some(CachedToken(calls[i].reply.value, calls[i].startedAt + Lifetime(calls[i].reply.expiresIn)))
    && forall j :: i < j < |calls| ==> !Fetches(After(None, calls[..j]), calls[j])
  }

  lemma {:induction false} CacheIsLatestFetch(calls: seq<Call>) returns (i: nat)
    requires After(None, calls).Some?
    ensures HeldSince(After(None, calls), calls, i)
  {
    var before := calls[..|calls| - 1];
    if Fetches(After(None, before), calls[|calls| - 1]) {
      i := |calls| - 1;
    } else {
      i := CacheIsLatestFetch(before);
      assert calls[..i] == before[..i];
      forall j | i < j < |calls| ensures !Fetches(After(None, calls[..j]), calls[j]) {
        if j < |calls| - 1 {
          assert calls[..j] == before[..j];
        }
      }
    }
  }

  /** Every token returned was granted to some call of the run: this one, or the latest one that
      fetched, and then more than five minutes of it are left. */
  lemma {:induction false} ReturnedTokensAreFresh(calls: seq<Call>, c: Call)
    requires Answer(After(None, calls), c).Some?
    ensures var token := Answer(After(None, calls), c).value;
            || (Fetches(After(None, calls), c) && token == c.reply.value)
            || exists i: nat :: HeldSince(After(None, calls), calls, i) && token == calls[i].reply.value
                        && calls[i].startedAt + Lifetime(calls[i].reply.expiresIn) - c.checkedAt > 300 * 1_000_000_000
  {
    if Usable(After(None, calls), c.checkedAt) {
      var i := CacheIsLatestFetch(calls);
    }
  }

  /** What a call does, exactly: with more than five minutes of the cached token left it returns that
      and fetches nothing; otherwise it returns and caches the token fetched, if there is one and it
      is not empty, and fails without touching the cache if not. */
  lemma {:induction false} CallExactly(cache: Cache, c: Call)
    ensures if cache.Some? && cache.value.expiresAt - c.checkedAt > 300 * 1_000_000_000 then
              Answer(cache, c) == Some(cache.value.value) && Next(cache, c) == cache
            else if c.reply.Granted? && c.reply.value != "" then
              && Answer(cache, c) == Some(c.reply.value) && Next(cache, c).Some?
              && Next(cache, c).value.value == c.reply.value
              && (-MAX_SECONDS <= c.reply.expiresIn <= MAX_SECONDS ==>
                  Next(cache, c).value.expiresAt == c.startedAt + c.reply.expiresIn * 1_000_000_000)
            else
              Answer(cache, c) == None && Next(cache, c) == cache
  {
    if c.reply.Granted? {
      LifetimeExactly(c.reply.expiresIn);
    }
    hide Lifetime;
  }

  /** A failed fetch leaves the cache as it was, so the next call tries again if it comes no
      earlier; and no call changes the cache but a successful fetch. */
  lemma {:induction false} FailedFetchIsRetried(cache: Cache, failed: Call, next: Call)
    requires Answer(cache, failed).None? && failed.checkedAt <= next.checkedAt
    ensures Next(cache, failed) == cache
    ensures Fetches(Next(cache, failed), next) <==> Grants(next.reply)
  {
  }

  // ----- How often a fetch happens ------------------------------------------------------

  /** Lifetimes survive the 64-bit multiplication exactly up to the longest duration. */
  lemma {:induction false} LifetimeExactly(expiresIn: int)
    ensures Lifetime(expiresIn) == expiresIn * SECOND <==> -MAX_SECONDS <= expiresIn <= MAX_SECONDS
  {
    var x := expiresIn * SECOND;
    if -TWO_TO_63 <= x < TWO_TO_63 {
      assert (x + TWO_TO_63) % (2 * TWO_TO_63) == x + TWO_TO_63;
    }
  }

  /** Every fetch of the run that succeeds brings a token that lives at least `l` seconds, once its
      grant has been multiplied out. */
  predicate GrantsAtLeast(calls: seq<Call>, l: int) {
    forall i :: 0 <= i < |calls| && Grants(calls[i].reply) ==> Lifetime(calls[i].reply.expiresIn) >= l * SECOND
  }

  function Spacing(l: int): int {
    (l - 300) * SECOND
  }

  ghost predicate Spaced(starts: seq<int>, g: int) {
    forall i, j :: 0 <= i < j < |starts| ==> starts[j] - starts[i] >= (j - i) * g
  }

  lemma {:induction false} SpacedSnoc(starts: seq<int>, x: int, g: int)
    requires Spaced(starts, g) && (starts != [] ==> x - starts[|starts| - 1] >= g)
    ensures Spaced(starts + [x], g)
  {
    var all := starts + [x];
    forall i, j | 0 <= i < j < |all| ensures all[j] - all[i] >= (j - i) * g {
      if j == |starts| && i < j - 1 {
        assert starts[j - 1] - starts[i] >= (j - 1 - i) * g;
        assert (j - i) * g == (j - 1 - i) * g + g;
      }
    }
  }

  /** Successful fetches start at least `l` seconds less the lead apart. */
  lemma {:induction false} FetchesAreSpaced(cache: Cache, calls: seq<Call>, l: int)
    requires Clocked(calls) && GrantsAtLeast(calls, l) && l > 300
    ensures Spaced(Starts(cache, calls), Spacing(l))
    ensures var starts := Starts(cache, calls);
            starts != [] ==>
              && starts[|starts| - 1] <= calls[|calls| - 1].startedAt
              && After(cache, calls).Some?
              && After(cache, calls).value.expiresAt >= starts[|starts| - 1] + l * SECOND
  {
    if calls != [] {
      var before, last := calls[..|calls| - 1], calls[|calls| - 1];
      FetchesAreSpaced(cache, before, l);
      if Fetches(After(cache, before), last) {
        SpacedSnoc(Starts(cache, before), last.startedAt, Spacing(l));
      }
    }
  }

  function InWindow(starts: seq<int>, from: int, to: int): nat {
    if starts == [] then 0
    else InWindow(starts[..|starts| - 1], from, to) + if from <= starts[|starts| - 1] <= to then 1 else 0
  }

  lemma {:induction false} WindowIsARange(starts: seq<int>, from: int, to: int) returns (i: nat, j: nat)
    requires InWindow(starts, from, to) > 0
    ensures i <= j < |starts| && from <= starts[i] && starts[j] <= to
    ensures InWindow(starts, from, to) <= j - i + 1
  {
    var before, last := starts[..|starts| - 1], starts[|starts| - 1];
    if from <= last <= to && InWindow(before, from, to) == 0 {
      i, j := |starts| - 1, |starts| - 1;
    } else {
      i, j := WindowIsARange(before, from, to);
      if from <= last <= to {
        j := |starts| - 1;
      }
    }
  }

  lemma {:induction false} SpacedPair(starts: seq<int>, g: int, i: nat, j: nat, n: nat)
    requires Spaced(starts, g) && g > 0 && i <= j < |starts| && n <= j - i
    ensures n * g <= starts[j] - starts[i]
  {
    assert n * g <= (j - i) * g;
  }

  lemma {:induction false} WindowBound(starts: seq<int>, g: int, from: int, to: int)
    requires Spaced(starts, g) && g > 0 && InWindow(starts, from, to) > 0
    ensures (InWindow(starts, from, to) - 1) * g <= to - from
  {
    var i, j := WindowIsARange(starts, from, to);
    hide Spaced, InWindow;
    SpacedPair(starts, g, i, j, InWindow(starts, from, to) - 1);
  }

  lemma {:induction false} QuotientBound(n: int, d: int, t: int)
    requires d > 0 && n * d <= t
    ensures n <= t / d
  {
    assert n * d < (t / d + 1) * d;
  }

  lemma {:induction false} SecondsBound(n: int, d: int, t: int)
    requires d > 0 && n * (d * SECOND) <= t * SECOND
    ensures n <= t / d
  {
    assert n * (d * SECOND) == (n * d) * SECOND;
    QuotientBound(n, d, t);
  }

  /** The refresh bound: on a clock that never goes back, if every token fetched lives at least `l`
      seconds, no more than t / (l - 300) + 1 successful fetches start in any `t` seconds, whatever the
      cache held before, however many calls are made, and whichever of them fail. */
  lemma {:induction false} RefreshBound(cache: Cache, calls: seq<Call>, l: int, from: int, t: nat)
    requires Clocked(calls) && GrantsAtLeast(calls, l) && l > 300
    ensures InWindow(Starts(cache, calls), from, from + t * SECOND) <= t / (l - 300) + 1
  {
    var count := InWindow(Starts(cache, calls), from, from + t * SECOND);
    FetchesAreSpaced(cache, calls, l);
    hide Starts, InWindow, Spaced, Clocked, GrantsAtLeast;
    if count > 0 {
      WindowBound(Starts(cache, calls), Spacing(l), from, from + t * SECOND);
      SecondsBound(count - 1, l - 300, t);
    } else {
      assert t / (l - 300) >= 0;
    }
  }

  /** Calls that come exactly when the last grant falls due. */
  function DueCalls(l: int, n: nat): seq<Call> {
    if n == 0 then [] else DueCalls(l, n - 1) + [Call(DueAt(l, n - 1), DueAt(l, n - 1), Granted("token", l))]
  }

  function DueAt(l: int, k: nat): int {
    if k == 0 then 0 else DueAt(l, k - 1) + Spacing(l)
  }

  /** The calls are `Spacing(l)` apart. */
  lemma {:induction false} DueCallsAre(l: int, n: nat)
    requires 300 < l <= MAX_SECONDS
    ensures |DueCalls(l, n)| == n
    ensures forall k :: 0 <= k < n ==> DueCalls(l, n)[k] == Call(k * Spacing(l), k * Spacing(l), Granted("token", l))
    ensures DueAt(l, n) == n * Spacing(l)
  {
    if n > 0 {
      DueCallsAre(l, n - 1);
      assert n * Spacing(l) == (n - 1) * Spacing(l) + Spacing(l);
    }
  }

  lemma {:induction false} MultiplesGrow(i: nat, j: nat, g: nat)
    requires i <= j
    ensures i * g <= j * g
  {
    assert j * g - i * g == (j - i) * g;
  }

  lemma {:induction false} DueCallsAreClocked(l: int, n: nat)
    requires 300 < l <= MAX_SECONDS
    ensures Clocked(DueCalls(l, n)) && GrantsAtLeast(DueCalls(l, n), l)
  {
    DueCallsAre(l, n);
    LifetimeExactly(l);
    var g: nat := Spacing(l);
    var calls := DueCalls(l, n);
    hide DueCalls, DueAt, Spacing, Lifetime;
    forall i, j | 0 <= i < j < n ensures calls[i].startedAt <= calls[j].checkedAt {
      MultiplesGrow(i, j, g);
    }
  }

  lemma {:induction false} DueCallsFetch(l: int, n: nat)
    requires 300 < l <= MAX_SECONDS
    ensures |DueCalls(l, n)| == |Starts(None, DueCalls(l, n))| == n
    ensures forall k :: 0 <= k < n ==> Starts(None, DueCalls(l, n))[k] == DueCalls(l, n)[k].startedAt
    ensures n > 0 ==> After(None, DueCalls(l, n)) == Some(CachedToken("token", DueAt(l, n - 1) + l * SECOND))
  {
    if n > 0 {
      DueCallsFetch(l, n - 1);
      LifetimeExactly(l);
      assert DueCalls(l, n)[..n - 1] == DueCalls(l, n - 1);
      hide Lifetime;
      assert n > 1 ==> DueAt(l, n - 1) == DueAt(l, n - 2) + Spacing(l);
    }
  }

  lemma {:induction false} AllInWindow(starts: seq<int>, from: int, to: int)
    requires forall k :: 0 <= k < |starts| ==> from <= starts[k] <= to
    ensures InWindow(starts, from, to) == |starts|
  {
    if starts != [] {
      AllInWindow(starts[..|starts| - 1], from, to);
    }
  }

  /** The bound is reached for every such grant: calls made just as the last grant falls due start
      `n` + 1 fetches in `n` times (l - 300) seconds. */
  lemma {:induction false} BoundIsReached(l: int, n: nat)
    requires 300 < l <= MAX_SECONDS
    ensures Clocked(DueCalls(l, n + 1)) && GrantsAtLeast(DueCalls(l, n + 1), l)
    ensures InWindow(Starts(None, DueCalls(l, n + 1)), 0, n * Spacing(l)) == n + 1
  {
    DueCallsAre(l, n + 1);
    DueCallsAreClocked(l, n + 1);
    DueCallsFetch(l, n + 1);
    var g: nat := Spacing(l);
    var starts := Starts(None, DueCalls(l, n + 1));
    hide DueCalls, DueAt, Starts, Spacing, InWindow, Clocked, GrantsAtLeast;
    forall k | 0 <= k <= n ensures 0 <= starts[k] <= n * g {
      MultiplesGrow(0, k, g);
      MultiplesGrow(k, n, g);
    }
    AllInWindow(starts, 0, n * g);
  }

  /** A grant of five minutes or less, or one so long that it wraps to that, is never reused: every
      call of such a run that can fetch does. */
  lemma {:induction false} ShortGrantsAreNeverReused(calls: seq<Call>, k: nat)
    requires Clocked(calls) && k < |calls|
    requires forall i :: 0 <= i < |calls| && Grants(calls[i].reply) ==> Lifetime(calls[i].reply.expiresIn) <= LEAD
    ensures Fetches(After(None, calls[..k]), calls[k]) <==> Grants(calls[k].reply)
  {
    if After(None, calls[..k]).Some? {
      var i := CacheIsLatestFetch(calls[..k]);
      assert Grants(calls[i].reply) && calls[i].startedAt <= calls[k].checkedAt;
    }
  }
}
