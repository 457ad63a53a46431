/** The navigation bar's admin visibility: it persists "1" under a per-wallet
    key whenever the hook reports admin, and shows the Admin link when the
    hook says admin or that flag is set. */
module TopNav {
  import opened JsCore
  import opened LocalStore
  import SessionGuard
  import AdminCache

  /** `lsKey`: empty when no wallet is connected. */
  function LsKey(walletKey: string): (k: string)
    ensures k == "" <==> walletKey == ""
    ensures walletKey != "" ==> k == SessionGuard.IsAdminKey(walletKey)
  {
    if walletKey != "" then "sib:isAdmin:" + walletKey else ""
  }

  /** The effect on `[lsKey, isAdmin]`. */
  method PersistAdminFlag(storage: LocalStorage, walletKey: string, isAdmin: bool)
    requires storage.Valid()
    modifies storage
    ensures storage.Valid()
    ensures storage.values ==
      if walletKey != "" && isAdmin then old(storage.values)[LsKey(walletKey) := "1"] else old(storage.values)
  {
    var lsKey := LsKey(walletKey);
    if lsKey != "" && isAdmin {
      storage.SetItem(lsKey, "1");
    }
  }

  /** `cachedAdmin` as it is computed: the stored flag for this wallet is
      exactly "1". */
  function CachedAdmin(values: map<string, string>, walletKey: string): (r: bool)
    ensures r <==> walletKey != "" && LsKey(walletKey) in values && values[LsKey(walletKey)] == "1"
  {
    var lsKey := LsKey(walletKey);
    if lsKey == "" then false else lsKey in values && values[lsKey] == "1"
  }

  /** What the bar shows about admin access. */
  datatype NavView = NavView(showAdmin: bool, checking: bool)

  function View(loading: bool, isAdmin: bool, cachedAdmin: bool): (v: NavView)
    ensures v.showAdmin <==> isAdmin || cachedAdmin
    ensures v.checking <==> loading && !isAdmin && !cachedAdmin
    ensures !(v.showAdmin && v.checking)
  {
    var showAdmin := isAdmin || cachedAdmin;
    NavView(showAdmin, loading && !showAdmin)
  }

  /** What the component keeps between renders: whether it is mounted, the
      wallet of the last render, the memoised flag (recomputed only when the
      wallet key changes) and the `isAdmin` the flag effect last ran with. */
  datatype NavState = NavState(mounted: bool, walletKey: string, cachedAdmin: bool, lastIsAdmin: bool)

  const Unmounted: NavState := NavState(false, "", false, false)

  /** The memo is computed on mount and whenever the wallet key changes. */
  predicate MemoRecomputed(n: NavState, walletKey: string)
  {
    !n.mounted || n.walletKey != walletKey
  }

  /** The effect on `[lsKey, isAdmin]` runs on mount and when either changed. */
  predicate EffectRuns(n: NavState, walletKey: string, isAdmin: bool)
  {
    !n.mounted || n.walletKey != walletKey || n.lastIsAdmin != isAdmin
  }

  datatype Rendered = Rendered(state: NavState, values: map<string, string>, view: NavView)

  /** One render with the hook's `loading` and `isAdmin`: the memo is read
      from storage during the render, the flag effect runs after it. */
  function RenderStep(n: NavState, values: map<string, string>, walletKey: string, loading: bool, isAdmin: bool): (r: Rendered)
    ensures r.state.mounted && r.state.walletKey == walletKey && r.state.lastIsAdmin == isAdmin
    ensures r.state.cachedAdmin == (if MemoRecomputed(n, walletKey) then CachedAdmin(values, walletKey) else n.cachedAdmin)
    ensures r.view == View(loading, isAdmin, r.state.cachedAdmin)
    ensures r.values == (if EffectRuns(n, walletKey, isAdmin) && walletKey != "" && isAdmin
                         then values[LsKey(walletKey) := "1"] else values)
  {
    var memo := if MemoRecomputed(n, walletKey) then CachedAdmin(values, walletKey) else n.cachedAdmin;
    var values' := if EffectRuns(n, walletKey, isAdmin) && LsKey(walletKey) != "" && isAdmin
                   then values[LsKey(walletKey) := "1"] else values;
    Rendered(NavState(true, walletKey, memo, isAdmin), values', View(loading, isAdmin, memo))
  }

  /** The hook's values at one render. */
  datatype Frame = Frame(loading: bool, isAdmin: bool)

  /** The views of successive renders for one wallet. */
  function Views(n: NavState, values: map<string, string>, walletKey: string, frames: seq<Frame>): (vs: seq<NavView>)
    ensures |vs| == |frames|
    decreases |frames|
  {
    if frames == [] then []
    else
      var r := RenderStep(n, values, walletKey, frames[0].loading, frames[0].isAdmin);
      [r.view] + Views(r.state, r.values, walletKey, frames[1..])
  }

  lemma {:induction false} MemoHoldsWithinWallet(n: NavState, values: map<string, string>, walletKey: string, frames: seq<Frame>)
    requires n.mounted && n.walletKey == walletKey && n.cachedAdmin
    ensures forall k :: 0 <= k < |frames| ==> Views(n, values, walletKey, frames)[k].showAdmin
    decreases |frames|
  {
    if frames != [] {
      var r := RenderStep(n, values, walletKey, frames[0].loading, frames[0].isAdmin);
      MemoHoldsWithinWallet(r.state, r.values, walletKey, frames[1..]);
      var vs := Views(n, values, walletKey, frames);
      assert vs == [r.view] + Views(r.state, r.values, walletKey, frames[1..]);
      forall k | 0 <= k < |frames| ensures vs[k].showAdmin {
        if k > 0 {
          assert vs[k] == Views(r.state, r.values, walletKey, frames[1..])[k - 1];
        }
      }
    }
  }

  /** A flag found in storage when the memo is computed (on mount, or on a
      switch to this wallet) shows the Admin link on every render for that
      wallet, while loading or whatever the hook says, until it remounts or
      the wallet changes. */
  lemma FlagReadOnMountShowsLink(n: NavState, values: map<string, string>, walletKey: string, frames: seq<Frame>)
    requires MemoRecomputed(n, walletKey) && CachedAdmin(values, walletKey)
    ensures forall k :: 0 <= k < |frames| ==> Views(n, values, walletKey, frames)[k].showAdmin
  {
    if frames != [] {
      var r := RenderStep(n, values, walletKey, frames[0].loading, frames[0].isAdmin);
      MemoHoldsWithinWallet(r.state, r.values, walletKey, frames[1..]);
      var vs := Views(n, values, walletKey, frames);
      forall k | 0 <= k < |frames| ensures vs[k].showAdmin {
        if k > 0 {
          assert vs[k] == Views(r.state, r.values, walletKey, frames[1..])[k - 1];
        }
      }
    }
  }

  /** The memo is not re-read within a mount: a flag the effect writes while
      mounted does not keep the link up once the hook turns to not admin. */
  lemma FlagWrittenWhileMountedIsNotReread(values: map<string, string>, walletKey: string, l1: bool, l2: bool)
    requires walletKey != "" && !CachedAdmin(values, walletKey)
    ensures var r1 := RenderStep(Unmounted, values, walletKey, l1, true);
            CachedAdmin(r1.values, walletKey)
            && r1.view.showAdmin
            && !RenderStep(r1.state, r1.values, walletKey, l2, false).view.showAdmin
  {
  }

  /** The navigation bar as a component instance over the browser's storage. */
  class Nav {
    var mounted: bool
    var walletKey: string
    var cachedAdmin: bool
    var lastIsAdmin: bool

    function State(): NavState
      reads this
    {
      NavState(mounted, walletKey, cachedAdmin, lastIsAdmin)
    }

    constructor ()
      ensures State() == Unmounted
    {
      mounted, walletKey, cachedAdmin, lastIsAdmin := false, "", false, false;
    }

    /** One render and its flag effect. */
    method Render(storage: LocalStorage, wallet: string, loading: bool, isAdmin: bool) returns (view: NavView)
      requires storage.Valid()
      modifies this, storage
      ensures storage.Valid()
      ensures var r := RenderStep(old(State()), old(storage.values), wallet, loading, isAdmin);
              State() == r.state && storage.values == r.values && view == r.view
    {
      if !mounted || walletKey != wallet {
        cachedAdmin := CachedAdmin(storage.values, wallet);
      }
      view := View(loading, isAdmin, cachedAdmin);
      if !mounted || walletKey != wallet || lastIsAdmin != isAdmin {
        PersistAdminFlag(storage, wallet, isAdmin);
      }
      mounted, walletKey, lastIsAdmin := true, wallet, isAdmin;
    }
  }

  /** The session guard's clearing removes every wallet's flag, but not the
      admin hook's registry cache, whose key has a different prefix. */
  lemma ClearingDropsFlagKeepsRegistryCache(values: map<string, string>, walletKey: string, endpoint: string, registry: Option<string>)
    requires walletKey != ""
    ensures LsKey(walletKey) !in SessionGuard.AppCacheCleared(values)
    ensures AdminCache.CacheKey(endpoint, registry) in values ==>
      AdminCache.CacheKey(endpoint, registry) in SessionGuard.AppCacheCleared(values)
  {
    var k := AdminCache.CacheKey(endpoint, registry);
    assert k[3] == '-';
    assert !StartsWith(k, SessionGuard.AppPrefix);
  }
}
