/** The admin-authorization cache of the `useAdmin` hook: per-wallet session
    state, a durable registry cache entry with a timestamp, a sticky
    "proven admin" flag, a guard against overlapping reloads, and a registry
    read retried a bounded number of times.

    `reload` is asynchronous with one suspension point (the awaited registry
    read). It is modelled as two halves: BeginReload runs everything up to that
    await, FinishReload applies its result. Another reload that starts between
    the two meets the in-flight guard. Time is a natural-number clock in
    milliseconds; network results are oracles. */
module AdminCache {
  import opened JsCore

  /** Cached registry data counts as fresh for five minutes. */
  const CacheTtlMs: int := 5 * 60 * 1000

  /** Back-off delays before each retry: three retries after the first attempt. */
  const RetryDelaysMs: seq<nat> := [500, 1500, 3000]

  const RetryFailedMessage: string := "RPC failed after retries"

  /** The durable cache entry: a registry copy and when it was stored. */
  datatype CacheEntry = CacheEntry(superAdmin: string, admins: seq<string>, updatedAt: int)

  /** What one registry read produced: the registry account does not exist, it
      was read, or the read failed (an error or its per-attempt timeout). */
  datatype Attempt = RegistryAbsent | RegistryRead(superAdmin: string, admins: seq<string>) | AttemptFailed

  /** What the retried read hands back to `reload`. */
  datatype FetchResult = NotInitialized | Fetched(superAdmin: string, admins: seq<string>) | RetriesExhausted

  /** The localStorage key of the cache entry, bound to endpoint and registry address. */
  function CacheKey(endpoint: string, registry: Option<string>): (k: string)
    ensures StartsWith(k, "sib-admin-registry:")
    ensures EndsWith(k, ":v1")
  {
    var ep := if endpoint == "" then "unknown" else endpoint;
    var pda := if registry.Some? then registry.value else "no-pda";
    "sib-admin-registry:" + ep + ":" + pda + ":v1"
  }

  /** A principal is an admin when it is the super-admin or is listed; the
      empty principal (no wallet) never is. */
  function ComputeIsAdmin(super58: string, list58: seq<string>, who: string): (r: bool)
    ensures who == "" ==> !r
    ensures who != "" && who == super58 ==> r
    ensures r ==> who != "" && (who == super58 || exists i :: 0 <= i < |list58| && list58[i] == who)
    ensures who != "" && (exists i :: 0 <= i < |list58| && list58[i] == who) ==> r
  {
    if who == "" then false else who == super58 || who in list58
  }

  /** The cache is fresh if it exists and is at most five minutes old. */
  predicate CacheIsFresh(c: Option<CacheEntry>, now: int)
  {
    c.Some? && now - c.value.updatedAt <= CacheTtlMs
  }

  lemma FreshnessWindow(c: CacheEntry, now: int)
    ensures CacheIsFresh(Some(c), now) <==> now - c.updatedAt <= 300000
    ensures !CacheIsFresh(None, now)
  {
  }

  // -----------------------------------------------------------------------
  // fetchWithRetry

  /** The outcome of attempt `i`; attempts the oracle does not list fail. */
  function AttemptAt(attempts: seq<Attempt>, i: nat): Attempt
  {
    if i < |attempts| then attempts[i] else AttemptFailed
  }

  function Completed(a: Attempt): FetchResult
    requires !a.AttemptFailed?
  {
    if a.RegistryAbsent? then NotInitialized else Fetched(a.superAdmin, a.admins)
  }

  /** The first completed attempt among the first `budget`, from attempt `i` on. */
  function FirstCompleted(attempts: seq<Attempt>, i: nat, budget: nat): FetchResult
    decreases budget
  {
    if budget == 0 then RetriesExhausted
    else if !AttemptAt(attempts, i).AttemptFailed? then Completed(AttemptAt(attempts, i))
    else FirstCompleted(attempts, i + 1, budget - 1)
  }

  /** What fetchWithRetry yields: the first of 1 + 3 attempts that completed. */
  function RetryResult(attempts: seq<Attempt>): FetchResult
  {
    FirstCompleted(attempts, 0, 1 + |RetryDelaysMs|)
  }

  /** One attempt, then up to three retries after the listed delays. Returns
      the first completed attempt's result, how many attempts were made and
      which delays were slept. */
  method FetchWithRetry(attempts: seq<Attempt>) returns (r: FetchResult, made: nat, slept: seq<nat>)
    ensures 1 <= made <= 1 + |RetryDelaysMs|
    ensures slept == RetryDelaysMs[..made - 1]
    ensures forall i :: 0 <= i < made - 1 ==> AttemptAt(attempts, i).AttemptFailed?
    ensures r.RetriesExhausted? <==> AttemptAt(attempts, made - 1).AttemptFailed?
    ensures r.RetriesExhausted? ==> made == 1 + |RetryDelaysMs|
    ensures !r.RetriesExhausted? ==> r == Completed(AttemptAt(attempts, made - 1))
    ensures r == RetryResult(attempts)
  {
    made, slept := 1, [];
    var first := AttemptAt(attempts, 0);
    if !first.AttemptFailed? {
      r := Completed(first);
      return;
    }
    var i := 0;
    while i < |RetryDelaysMs|
      invariant 0 <= i <= |RetryDelaysMs|
      invariant made == i + 1
      invariant slept == RetryDelaysMs[..i]
      invariant forall j :: 0 <= j < made ==> AttemptAt(attempts, j).AttemptFailed?
      invariant RetryResult(attempts) == FirstCompleted(attempts, made, 1 + |RetryDelaysMs| - made)
    {
      slept := slept + [RetryDelaysMs[i]];
      made := made + 1;
      var a := AttemptAt(attempts, i + 1);
      if !a.AttemptFailed? {
        r := Completed(a);
        return;
      }
      i := i + 1;
    }
    r := RetriesExhausted;
  }

  lemma {:induction false} FirstCompletedWindow(a: seq<Attempt>, b: seq<Attempt>, i: nat, budget: nat)
    requires forall k :: i <= k < i + budget ==> AttemptAt(a, k) == AttemptAt(b, k)
    ensures FirstCompleted(a, i, budget) == FirstCompleted(b, i, budget)
    ensures FirstCompleted(a, i, budget).RetriesExhausted? <==>
      forall k :: i <= k < i + budget ==> AttemptAt(a, k).AttemptFailed?
    decreases budget
  {
    if budget > 0 {
      FirstCompletedWindow(a, b, i + 1, budget - 1);
    }
  }

  /** The retried read looks at the first 1 + 3 attempts and no further:
      two oracles that agree on those give the same result, and the read is
      exhausted exactly when all of them failed. */
  lemma RetryLooksAtFirstAttemptsOnly(a: seq<Attempt>, b: seq<Attempt>)
    requires forall k :: 0 <= k < 1 + |RetryDelaysMs| ==> AttemptAt(a, k) == AttemptAt(b, k)
    ensures RetryResult(a) == RetryResult(b)
    ensures RetryResult(a).RetriesExhausted? <==> forall k :: 0 <= k < 1 + |RetryDelaysMs| ==> AttemptAt(a, k).AttemptFailed?
  {
    FirstCompletedWindow(a, b, 0, 1 + |RetryDelaysMs|);
  }

  // -----------------------------------------------------------------------
  // The hook's state and its transitions

  /** Everything `reload` reads or writes: the hook's state variables, its
      refs and the durable cache entry. `initialized` is tri-state (None for
      the hook's `null`). */
  datatype AdminState = AdminState(
    loading: bool,
    initialized: Option<bool>,
    isAdmin: bool,
    superAdmin: string,
    admins: seq<string>,
    error: string,
    lastWallet: string,
    sticky: bool,
    inFlight: bool,
    cache: Option<CacheEntry>)

  /** Where the synchronous part of reload left off. */
  datatype Phase = Skipped | Settled | AwaitingFetch

  datatype Began = Began(state: AdminState, phase: Phase)

  /** The state a freshly mounted hook starts in, over whatever cache entry a
      previous session stored. */
  function Initial(stored: Option<CacheEntry>): AdminState
  {
    AdminState(true, None, false, "", [], "", "", false, false, stored)
  }

  /** The wallet-change effect: a new principal is no longer sticky. */
  function WalletStep(s: AdminState, me: string): (r: AdminState)
    ensures r.lastWallet == me
    ensures s.lastWallet != me ==> !r.sticky
    ensures r.(lastWallet := s.lastWallet, sticky := s.sticky) == s
    ensures s.lastWallet == me ==> r == s
  {
    if s.lastWallet != me then s.(lastWallet := me, sticky := false) else s
  }

  /** The part of reload before its await: the sticky and in-flight guards,
      the cache hit and the offline check. */
  function BeginStep(s: AdminState, me: string, now: int, online: bool): (b: Began)
    ensures (s.sticky && s.lastWallet == me) || s.inFlight ==> b.phase == Skipped && b.state == s
    ensures b.phase == Skipped ==> b.state == s
    ensures b.phase != Skipped ==> b.state.error == "" && b.state.lastWallet == s.lastWallet
    // the cache is only read here; a cache hit never lowers isAdmin
    ensures b.state.cache == s.cache
    ensures b.state.isAdmin ==
      (s.isAdmin || (b.phase != Skipped && s.cache.Some?
                     && ComputeIsAdmin(s.cache.value.superAdmin, s.cache.value.admins, me)))
    ensures b.state.sticky ==
      (s.sticky || (b.phase != Skipped && s.cache.Some?
                    && ComputeIsAdmin(s.cache.value.superAdmin, s.cache.value.admins, me)))
    ensures b.phase != Skipped && s.cache.Some? ==>
      b.state.initialized == Some(true) && b.state.superAdmin == s.cache.value.superAdmin
      && b.state.admins == s.cache.value.admins
    ensures b.phase != Skipped && s.cache.None? ==>
      b.state.(loading := s.loading, error := s.error, inFlight := s.inFlight) == s
    // a fresh cache, or being offline, settles without a network read
    ensures b.phase == AwaitingFetch <==>
      !(s.sticky && s.lastWallet == me) && !s.inFlight && !CacheIsFresh(s.cache, now) && online
    ensures b.phase == AwaitingFetch ==> b.state.inFlight && b.state.loading
    ensures b.phase == Settled ==> !b.state.inFlight && !b.state.loading
  {
    if (s.sticky && s.lastWallet == me) || s.inFlight then Began(s, Skipped)
    else
      var s2 := ApplyCache(s.(inFlight := true, loading := true, error := ""), me);
      if CacheIsFresh(s.cache, now) || !online then Began(s2.(loading := false, inFlight := false), Settled)
      else Began(s2, AwaitingFetch)
  }

  /** The cache hit: the stored registry is shown, and a listed principal
      becomes admin and sticky. */
  function ApplyCache(s: AdminState, me: string): AdminState
  {
    if s.cache.Some? then
      var c := s.cache.value;
      var cachedIsAdmin := ComputeIsAdmin(c.superAdmin, c.admins, me);
      s.(initialized := Some(true), superAdmin := c.superAdmin, admins := c.admins,
         isAdmin := s.isAdmin || cachedIsAdmin, sticky := s.sticky || cachedIsAdmin)
    else s
  }

  /** The part of reload after its await, given what the retried read
      yielded. `seen` is the `initialized` value the running reload closure
      was created with: its error path puts `initialized` back to null when
      that value was null, undoing a cache hit of the same reload. */
  function FinishStep(s: AdminState, me: string, now: int, res: FetchResult, seen: Option<bool>): (r: AdminState)
    ensures !r.inFlight && !r.loading
    ensures r.lastWallet == s.lastWallet
    // exhausted retries set the error and, for a closure that saw null, reset initialized
    ensures res.RetriesExhausted? ==>
      r.initialized == (if seen.None? then None else s.initialized)
      && r.(initialized := s.initialized) == s.(error := RetryFailedMessage, loading := false, inFlight := false)
    // an absent registry clears the registry view; it demotes only a non-sticky session
    ensures res.NotInitialized? ==>
      r.initialized == Some(false) && r.superAdmin == "" && r.admins == []
      && r.isAdmin == (s.sticky && s.isAdmin) && r.sticky == s.sticky && r.cache == s.cache
      && r.error == s.error
    // only a successful read sets isAdmin exactly, and refreshes the cache
    ensures res.Fetched? ==>
      r.initialized == Some(true) && r.superAdmin == res.superAdmin && r.admins == res.admins
      && r.isAdmin == ComputeIsAdmin(res.superAdmin, res.admins, me)
      && r.cache == Some(CacheEntry(res.superAdmin, res.admins, now))
      && r.sticky == (s.sticky || r.isAdmin)
      && r.error == s.error
  {
    match res
    case RetriesExhausted =>
      s.(error := RetryFailedMessage, loading := false, inFlight := false,
         initialized := if seen.None? then None else s.initialized)
    case NotInitialized =>
      s.(initialized := Some(false), isAdmin := if s.sticky then s.isAdmin else false,
         superAdmin := "", admins := [], loading := false, inFlight := false)
    case Fetched(super58, list58) =>
      var nowIsAdmin := ComputeIsAdmin(super58, list58, me);
      s.(initialized := Some(true), superAdmin := super58, admins := list58,
         cache := Some(CacheEntry(super58, list58, now)),
         isAdmin := nowIsAdmin,
         sticky := s.sticky || nowIsAdmin, loading := false, inFlight := false)
  }

  /** A whole reload that no other reload interleaves with, run by the
      closure of the current render (which saw the current `initialized`):
      `now` is the clock read for the freshness test, `later` the clock read
      again after the await for the new cache entry. */
  function ReloadStep(s: AdminState, me: string, now: int, later: int, online: bool, res: FetchResult): AdminState
  {
    var b := BeginStep(s, me, now, online);
    if b.phase == AwaitingFetch then FinishStep(b.state, me, later, res, s.initialized) else b.state
  }

  // -----------------------------------------------------------------------
  // Properties of the policy

  /** A reload that meets another in flight is coalesced into it: nothing changes. */
  lemma CoalescedWhileInFlight(s: AdminState, me: string, now: int, online: bool)
    requires s.inFlight
    ensures BeginStep(s, me, now, online) == Began(s, Skipped)
  {
  }

  /** Every exit of a reload that started leaves the in-flight guard down. */
  lemma EveryExitClearsInFlight(s: AdminState, me: string, now: int, later: int, online: bool, res: FetchResult)
    requires !(s.sticky && s.lastWallet == me) && !s.inFlight
    ensures !ReloadStep(s, me, now, later, online, res).inFlight
    ensures !ReloadStep(s, me, now, later, online, res).loading
  {
  }

  /** No reload whose read failed (or that never read) lowers isAdmin; an
      absent registry lowers it only for a session that is not sticky. */
  lemma FailedReloadNeverDemotes(s: AdminState, me: string, now: int, later: int, online: bool, res: FetchResult)
    requires res.RetriesExhausted? || (res.NotInitialized? && (s.sticky || (s.cache.Some?
             && ComputeIsAdmin(s.cache.value.superAdmin, s.cache.value.admins, me))))
    requires s.isAdmin
    ensures ReloadStep(s, me, now, later, online, res).isAdmin
  {
  }

  /** A reload whose read fails while the registry state is still unknown
      ends with it unknown again, even when the same reload showed a stale
      cache entry (which set it to true); the cached registry stays on show. */
  lemma ExhaustedReloadLeavesRegistryUnknown(s: AdminState, me: string, now: int, later: int)
    requires !(s.sticky && s.lastWallet == me) && !s.inFlight && !CacheIsFresh(s.cache, now)
    requires s.initialized.None?
    ensures var r := ReloadStep(s, me, now, later, true, RetriesExhausted);
            r.initialized.None? && r.error == RetryFailedMessage && !r.loading && !r.inFlight
            && (s.cache.Some? ==> r.superAdmin == s.cache.value.superAdmin && r.admins == s.cache.value.admins)
  {
  }

  /** Right after a successful read, a reload by the same wallet within the
      freshness window makes no network read and gives the same verdict. */
  lemma FreshCacheGivesSameVerdict(s: AdminState, me: string, t: int, t': int, super58: string, list58: seq<string>)
    requires t <= t' <= t + CacheTtlMs
    ensures var s1 := FinishStep(s, me, t, Fetched(super58, list58), s.initialized);
            var b := BeginStep(s1, me, t', true);
            b.phase != AwaitingFetch && b.state.isAdmin == s1.isAdmin
  {
  }

  /** Events a session sees: the wallet-change effect, and reloads that each
      run to completion with the given online status and read result. */
  datatype Event = WalletSeen(wallet: string) | ReloadRun(wallet: string, now: int, later: int, online: bool, res: FetchResult)

  function Apply(s: AdminState, e: Event): AdminState
  {
    match e
    case WalletSeen(w) => WalletStep(s, w)
    case ReloadRun(w, now, later, online, res) => ReloadStep(s, w, now, later, online, res)
  }

  function Run(s: AdminState, events: seq<Event>): AdminState
    decreases |events|
  {
    if events == [] then s else Run(Apply(s, events[0]), events[1..])
  }

  /** Transport failures never demote: across any sequence of reloads whose
      reads all failed, an admin session stays admin. */
  lemma {:induction false} TransportFailuresNeverDemote(s: AdminState, events: seq<Event>)
    requires s.isAdmin
    requires forall k :: 0 <= k < |events| ==> events[k].ReloadRun? && events[k].res.RetriesExhausted?
    ensures Run(s, events).isAdmin
    decreases |events|
  {
    if events != [] {
      var e := events[0];
      FailedReloadNeverDemotes(s, e.wallet, e.now, e.later, e.online, e.res);
      TransportFailuresNeverDemote(Apply(s, e), events[1..]);
    }
  }

  /** Once sticky for the current wallet, reloads by that wallet change
      nothing at all, whatever the registry says, until the wallet changes. */
  lemma {:induction false} StickySessionIsFrozen(s: AdminState, events: seq<Event>)
    requires s.sticky
    requires forall k :: 0 <= k < |events| ==> events[k].ReloadRun? && events[k].wallet == s.lastWallet
    ensures Run(s, events) == s
    decreases |events|
  {
    if events != [] {
      assert Apply(s, events[0]) == s;
      StickySessionIsFrozen(s, events[1..]);
    }
  }

  /** The success path keeps stickiness it had (set by a stale cache hit)
      while setting isAdmin from the fetched registry, so a session can end up
      sticky while not admin; later reloads for that wallet are then skipped. */
  lemma StickyOutlivesDemotion()
    ensures var me := "W";
            var s := Initial(Some(CacheEntry("S", ["W"], 0))).(loading := false);
            var s1 := Apply(s, WalletSeen(me));
            var after := Apply(s1, ReloadRun(me, CacheTtlMs + 1, CacheTtlMs + 1, true, Fetched("S", [])));
            after.sticky && !after.isAdmin
            && Apply(after, ReloadRun(me, CacheTtlMs + 2, CacheTtlMs + 2, true, Fetched("S", [me]))) == after
  {
  }

  // -----------------------------------------------------------------------
  // The hook as an object

  class AdminSession {
    var loading: bool
    var initialized: Option<bool>
    var isAdmin: bool
    var superAdmin: string
    var admins: seq<string>
    var error: string
    /** lastWalletRef, stickyAdminRef, inFlightRef */
    var lastWallet: string
    var sticky: bool
    var inFlight: bool
    /** The durable localStorage entry under this session's CacheKey. */
    var cache: Option<CacheEntry>

    function State(): AdminState
      reads this
    {
      AdminState(loading, initialized, isAdmin, superAdmin, admins, error, lastWallet, sticky, inFlight, cache)
    }

    constructor (stored: Option<CacheEntry>)
      ensures State() == Initial(stored)
    {
      loading, initialized, isAdmin, superAdmin, admins, error := true, None, false, "", [], "";
      lastWallet, sticky, inFlight := "", false, false;
      cache := stored;
    }

    /** The effect that runs when the wallet's base58 key changes. */
    method OnWalletChange(me: string)
      modifies this
      ensures State() == WalletStep(old(State()), me)
    {
      if lastWallet != me {
        lastWallet := me;
        sticky := false;
      }
    }

    /** reload up to its await. When the phase is AwaitingFetch the caller
        performs the retried read and hands its result to FinishReload. */
    method BeginReload(me: string, now: int, online: bool) returns (phase: Phase)
      modifies this
      ensures Began(State(), phase) == BeginStep(old(State()), me, now, online)
    {
      if sticky && lastWallet == me {
        return Skipped;
      }
      if inFlight {
        return Skipped;
      }
      inFlight := true;
      loading := true;
      error := "";
      ghost var s1 := State();
      if cache.Some? {
        var cached := cache.value;
        initialized := Some(true);
        superAdmin := cached.superAdmin;
        admins := cached.admins;
        var cachedIsAdmin := ComputeIsAdmin(cached.superAdmin, cached.admins, me);
        isAdmin := isAdmin || cachedIsAdmin;
        if cachedIsAdmin {
          sticky := true;
        }
        assert State() == ApplyCache(s1, me);
        if CacheIsFresh(cache, now) {
          loading := false;
          inFlight := false;
          return Settled;
        }
      }
      assert State() == ApplyCache(s1, me);
      if !online {
        loading := false;
        inFlight := false;
        return Settled;
      }
      phase := AwaitingFetch;
    }

    /** reload after its await: the absent, success and failure paths.
        `seen` is the `initialized` value the reload closure captured. */
    method FinishReload(me: string, now: int, res: FetchResult, seen: Option<bool>)
      modifies this
      ensures State() == FinishStep(old(State()), me, now, res, seen)
    {
      match res {
        case RetriesExhausted =>
          error := RetryFailedMessage;
          if seen.None? {
            initialized := None;
          }
        case NotInitialized =>
          initialized := Some(false);
          if !sticky {
            isAdmin := false;
          }
          superAdmin := "";
          admins := [];
        case Fetched(super58, list58) =>
          initialized := Some(true);
          superAdmin := super58;
          admins := list58;
          cache := Some(CacheEntry(super58, list58, now));
          var nowIsAdmin := ComputeIsAdmin(super58, list58, me);
          isAdmin := if isAdmin then (if nowIsAdmin then true else false) else nowIsAdmin;
          if nowIsAdmin {
            sticky := true;
          }
      }
      loading := false;
      inFlight := false;
    }

    /** A reload that runs to completion, reading the registry from the
        oracle; the clock reads `now` before the await and `later` after it. */
    method Reload(me: string, now: int, later: int, online: bool, attempts: seq<Attempt>)
      modifies this
      ensures State() == ReloadStep(old(State()), me, now, later, online, RetryResult(attempts))
    {
      var seen := initialized;
      var phase := BeginReload(me, now, online);
      if phase == AwaitingFetch {
        var res, _, _ := FetchWithRetry(attempts);
        FinishReload(me, later, res, seen);
      }
    }
  }
}
