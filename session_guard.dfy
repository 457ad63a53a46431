/** WalletSessionGuard: on a disconnect, an account switch or an adapter
    switch, it clears the application's own localStorage keys (those under
    the "sib:" prefix) and schedules one page reload. */
module SessionGuard {
  import opened JsCore
  import opened LocalStore

  const AppPrefix: string := "sib:"

  /** The per-wallet admin flag key that the navigation bar writes. */
  function IsAdminKey(pubkey58: string): (k: string)
    ensures StartsWith(k, AppPrefix)
  {
    AppPrefix + "isAdmin:" + pubkey58
  }

  /** The storage left after clearing: every key outside the app prefix, with its value. */
  function AppCacheCleared(m: map<string, string>): (r: map<string, string>)
    ensures forall k :: k in r <==> k in m && !StartsWith(k, AppPrefix)
    ensures forall k :: k in r ==> r[k] == m[k]
  {
    map k | k in m && !StartsWith(k, AppPrefix) :: m[k]
  }

  /** Clearing twice is clearing once. */
  lemma ClearIsIdempotent(m: map<string, string>)
    ensures AppCacheCleared(AppCacheCleared(m)) == AppCacheCleared(m)
  {
  }

  /** The collecting loop: every stored key under the prefix. */
  method CollectAppKeys(storage: LocalStorage) returns (toDelete: seq<string>)
    ensures forall k :: k in toDelete <==> k in storage.keys && StartsWith(k, AppPrefix)
  {
    toDelete := [];
    var i := 0;
    while i < storage.Length()
      invariant 0 <= i <= |storage.keys|
      invariant forall k :: k in toDelete <==> k in storage.keys[..i] && StartsWith(k, AppPrefix)
    {
      var k := storage.keys[i];
      if k != "" && StartsWith(k, AppPrefix) {
        toDelete := toDelete + [k];
      }
      i := i + 1;
      assert storage.keys[..i] == storage.keys[..i - 1] + [k];
    }
    assert storage.keys[..i] == storage.keys;
  }

  /** `toDelete.forEach((k) => localStorage.removeItem(k))` */
  method RemoveAll(storage: LocalStorage, toDelete: seq<string>)
    requires storage.Valid()
    modifies storage
    ensures storage.Valid()
    ensures storage.values == old(storage.values) - (set k | k in toDelete)
  {
    var j := 0;
    ghost var removed: set<string> := {};
    while j < |toDelete|
      invariant 0 <= j <= |toDelete|
      invariant storage.Valid()
      invariant removed == set k | k in toDelete[..j]
      invariant storage.values == old(storage.values) - removed
    {
      storage.RemoveItem(toDelete[j]);
      assert toDelete[..j + 1] == toDelete[..j] + [toDelete[j]];
      removed := removed + {toDelete[j]};
      j := j + 1;
    }
    assert toDelete[..j] == toDelete;
  }

  /** `clearAppCache(pubkey58)`: remove the wallet's own flag, then collect
      every key under the prefix and remove those. */
  method ClearAppCache(storage: LocalStorage, pubkey58: string)
    requires storage.Valid()
    modifies storage
    ensures storage.Valid()
    ensures storage.values == AppCacheCleared(old(storage.values))
    ensures forall k :: k in storage.keys <==> k in old(storage.keys) && !StartsWith(k, AppPrefix)
  {
    ghost var v0 := storage.values;
    if pubkey58 != "" {
      storage.RemoveItem(IsAdminKey(pubkey58));
    }
    ghost var v1 := storage.values;
    var toDelete := CollectAppKeys(storage);
    ghost var d := set k | k in toDelete;
    assert forall k :: k in d <==> k in v1 && StartsWith(k, AppPrefix);
    RemoveAll(storage, toDelete);
    PrefixedRemovalsClear(v0, v1, d);
  }

  /** Dropping some prefixed keys and then every remaining prefixed key is clearing. */
  lemma PrefixedRemovalsClear(v0: map<string, string>, v1: map<string, string>, d: set<string>)
    requires forall k :: k in v1 ==> k in v0 && v1[k] == v0[k]
    requires forall k :: k in v0 && k !in v1 ==> StartsWith(k, AppPrefix)
    requires forall k :: k in d <==> k in v1 && StartsWith(k, AppPrefix)
    ensures v1 - d == AppCacheCleared(v0)
  {
  }

  /** Whether the state effect resets the session for this transition:
      a disconnect, an account switch, or an adapter switch (both sides known). */
  predicate ShouldReset(wasConnected: bool, prevPubkey: string, prevAdapter: string,
                        connected: bool, pubkey58: string, adapterName: string)
  {
    (wasConnected && !connected)
    || (connected && wasConnected && prevPubkey != "" && pubkey58 != "" && prevPubkey != pubkey58)
    || (connected && wasConnected && prevAdapter != "" && adapterName != "" && prevAdapter != adapterName)
  }

  /** A first connection, or a connection that stays on the same account and
      adapter, never resets; a disconnect always does. */
  lemma ResetCases(prevPubkey: string, prevAdapter: string, connected: bool, pubkey58: string, adapterName: string)
    ensures !ShouldReset(false, prevPubkey, prevAdapter, connected, pubkey58, adapterName)
    ensures !ShouldReset(true, pubkey58, adapterName, true, pubkey58, adapterName)
    ensures ShouldReset(true, prevPubkey, prevAdapter, false, pubkey58, adapterName)
    ensures prevPubkey != "" && pubkey58 != "" && prevPubkey != pubkey58 ==>
      ShouldReset(true, prevPubkey, prevAdapter, true, pubkey58, adapterName)
  {
  }

  /** Connected to a known account before and after: the guard resets iff
      the account or the (known) adapter changed. */
  lemma ResetIffSwitched(prevPubkey: string, prevAdapter: string, pubkey58: string, adapterName: string)
    requires prevPubkey != "" && pubkey58 != ""
    ensures ShouldReset(true, prevPubkey, prevAdapter, true, pubkey58, adapterName) <==>
      prevPubkey != pubkey58 || (prevAdapter != "" && adapterName != "" && prevAdapter != adapterName)
  {
  }

  class Guard {
    /** lastConnectedRef, lastPubkeyRef, lastAdapterRef */
    var lastConnected: bool
    var lastPubkey: string
    var lastAdapter: string
    /** reloadingRef: once set, one page reload has been scheduled. */
    var reloading: bool
    /** How many `window.location.reload` timeouts have been scheduled. */
    var scheduledReloads: nat

    /** The ref guards the timer: one reload is pending exactly when the ref
        is set, and never more than one. */
    predicate Valid()
      reads this
    {
      scheduledReloads == (if reloading then 1 else 0)
    }

    constructor ()
      ensures Valid()
      ensures !lastConnected && lastPubkey == "" && lastAdapter == "" && !reloading && scheduledReloads == 0
    {
      lastConnected, lastPubkey, lastAdapter, reloading, scheduledReloads := false, "", "", false, 0;
    }

    /** `reloadOnce`: schedules the reload only when none is pending. */
    method ReloadOnce()
      requires Valid()
      modifies this
      ensures Valid()
      ensures reloading && scheduledReloads == 1
      ensures scheduledReloads == (if old(reloading) then old(scheduledReloads) else old(scheduledReloads) + 1)
      ensures lastConnected == old(lastConnected) && lastPubkey == old(lastPubkey) && lastAdapter == old(lastAdapter)
    {
      if reloading {
        return;
      }
      reloading := true;
      scheduledReloads := scheduledReloads + 1;
    }

    /** The adapter's "disconnect" listener. */
    method OnDisconnect(storage: LocalStorage, pubkey58: string)
      requires storage.Valid() && Valid()
      modifies this, storage
      ensures storage.Valid() && Valid()
      ensures storage.values == AppCacheCleared(old(storage.values))
      ensures reloading && scheduledReloads == 1
      ensures lastConnected == old(lastConnected) && lastPubkey == old(lastPubkey) && lastAdapter == old(lastAdapter)
    {
      ClearAppCache(storage, if lastPubkey != "" then lastPubkey else pubkey58);
      ReloadOnce();
    }

    /** The effect on `[connected, pubkey58, adapterName]`: the three reset
        cases, then the refs take the new values. */
    method OnStateChange(storage: LocalStorage, connected: bool, pubkey58: string, adapterName: string)
      requires storage.Valid() && Valid()
      modifies this, storage
      ensures storage.Valid() && Valid()
      ensures lastConnected == connected && lastPubkey == pubkey58 && lastAdapter == adapterName
      ensures var reset := ShouldReset(old(lastConnected), old(lastPubkey), old(lastAdapter), connected, pubkey58, adapterName);
              storage.values == (if reset then AppCacheCleared(old(storage.values)) else old(storage.values))
              && reloading == (old(reloading) || reset)
    {
      var wasConnected := lastConnected;
      var prevPubkey := lastPubkey;
      var prevAdapter := lastAdapter;
      ghost var v0 := storage.values;

      if wasConnected && !connected {
        ClearAppCache(storage, prevPubkey);
        ReloadOnce();
      }
      if connected && wasConnected && prevPubkey != "" && pubkey58 != "" && prevPubkey != pubkey58 {
        ClearAppCache(storage, prevPubkey);
        ReloadOnce();
      }
      if connected && wasConnected && prevAdapter != "" && adapterName != "" && prevAdapter != adapterName {
        ClearIsIdempotent(v0);
        ClearAppCache(storage, if prevPubkey != "" then prevPubkey else pubkey58);
        ReloadOnce();
      }

      lastConnected := connected;
      lastPubkey := pubkey58;
      lastAdapter := adapterName;
    }
  }
}
