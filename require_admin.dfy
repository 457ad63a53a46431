/** The admin route gate: what it renders as a function of the wallet's
    connection and the admin hook's state. */
module RequireAdmin {
  import opened JsCore
  import AdminCache

  datatype GateView =
    | ConnectPrompt        // "Please connect a wallet…"
    | CheckingPermission   // "Checking admin permission…"
    | RegistryMissing      // "Admin registry is not initialized…"
    | RedirectToVerify     // <Navigate to="/verify" replace />
    | Children             // the admin page

  const RedirectPath: string := "/verify"

  function Gate(connected: bool, loading: bool, initialized: Option<bool>, isAdmin: bool): (v: GateView)
    ensures v == Children <==> connected && !loading && initialized != Some(false) && isAdmin
    ensures v == ConnectPrompt <==> !connected
    ensures v == CheckingPermission <==> connected && loading
    ensures v == RegistryMissing <==> connected && !loading && initialized == Some(false)
    ensures v == RedirectToVerify <==> connected && !loading && initialized != Some(false) && !isAdmin
  {
    if !connected then ConnectPrompt
    else if loading then CheckingPermission
    else if initialized == Some(false) then RegistryMissing
    else if !isAdmin then RedirectToVerify
    else Children
  }

  /** The gate applied to the hook's state. */
  function GateFor(connected: bool, s: AdminCache.AdminState): GateView
  {
    Gate(connected, s.loading, s.initialized, s.isAdmin)
  }

  /** A completed reload whose successful read does not list the wallet
      sends it to the verify page, even if the session held admin before
      (from a stale cache entry, say). */
  lemma UnlistedWalletIsRedirected(s: AdminCache.AdminState, me: string, now: int, later: int, super58: string, list58: seq<string>)
    requires !s.inFlight
    requires !s.sticky || s.lastWallet != me
    requires !AdminCache.CacheIsFresh(s.cache, now)
    requires me != super58 && me !in list58
    ensures GateFor(true, AdminCache.ReloadStep(s, me, now, later, true, AdminCache.Fetched(super58, list58))) == RedirectToVerify
  {
  }

  /** The super-admin is let through after any completed reload that read
      the registry, whatever the session held before. */
  lemma SuperAdminIsAdmitted(s: AdminCache.AdminState, me: string, now: int, later: int, admins: seq<string>)
    requires !s.inFlight && me != ""
    requires !s.sticky || s.lastWallet != me
    requires !AdminCache.CacheIsFresh(s.cache, now)
    ensures GateFor(true, AdminCache.ReloadStep(s, me, now, later, true, AdminCache.Fetched(me, admins))) == Children
  {
  }

  /** While the hook is loading nothing but the wait notice renders, whatever
      the cached verdict. */
  lemma LoadingHidesVerdict(initialized: Option<bool>, isAdmin: bool)
    ensures Gate(true, true, initialized, isAdmin) == CheckingPermission
  {
  }
}
