/** The RPC endpoint choice of the client: a configured URL when it looks
    like one, a list of fallbacks probed in order, and a memoised connection. */
module Rpc {
  import opened JsCore

  const Https: string := "https://"

  const HeliusDevnet: string := Https + "devnet.helius-rpc.com/?api-key=89fe1bc8-7c91-47f6-8d41-ec55c34c19be"

  const DevnetCandidates: seq<string> :=
    [HeliusDevnet, Https + "api.devnet.solana.com", Https + "rpc-devnet.aws.metaplex.com"]

  const NoEndpointMessage: string := "No devnet RPC endpoint is responding"

  datatype Result<T> = Ok(value: T) | Err(message: string)

  /** `/^https?:\/\//i`: the text starts with "http://" or "https://", in any case. */
  predicate IsHttpUrl(s: string)
  {
    (|s| >= 7 && Lower(s[..7]) == "http://") || (|s| >= 8 && Lower(s[..8]) == "https://")
  }

  lemma HttpsPrefixIsHttpUrl(rest: string)
    ensures IsHttpUrl(Https + rest)
  {
    assert (Https + rest)[..8] == Https;
    LowerKeepsLowercase(Https);
  }

  /** `getRpcEndpoint()`: the trimmed configured URL when it is http(s), else
      the built-in endpoint. An unset variable reads as "". */
  function GetRpcEndpoint(configured: string): (e: string)
    ensures IsHttpUrl(Trim(configured)) ==> e == Trim(configured)
    ensures !IsHttpUrl(Trim(configured)) ==> e == HeliusDevnet
    ensures IsHttpUrl(e)
  {
    var envUrl := Trim(configured);
    HttpsPrefixIsHttpUrl(HeliusDevnet[8..]);
    assert HeliusDevnet == Https + HeliusDevnet[8..];
    if IsHttpUrl(envUrl) then envUrl else HeliusDevnet
  }

  /** The probe result of the `i`-th probe made; unlisted probes fail. */
  function ProbeAt(probes: seq<bool>, i: nat): bool
  {
    i < |probes| && probes[i]
  }

  /** The first entry of `list` from index `i` on whose probe answered. */
  function FirstWorkingFrom(list: seq<string>, probes: seq<bool>, i: nat): Result<string>
    decreases |list| - i
  {
    if i >= |list| then Err(NoEndpointMessage)
    else if ProbeAt(probes, i) then Ok(list[i])
    else FirstWorkingFrom(list, probes, i + 1)
  }

  /** The reference choice picks an entry whose probe answered with every
      probe before it from `i` failed, and fails iff every probe from `i` fails. */
  lemma {:induction false} FirstWorkingFromIsFirst(list: seq<string>, probes: seq<bool>, i: nat)
    requires i <= |list|
    ensures var r := FirstWorkingFrom(list, probes, i);
            (r.Err? <==> forall j :: i <= j < |list| ==> !ProbeAt(probes, j))
            && (r.Err? ==> r.message == NoEndpointMessage)
            && (r.Ok? ==> exists k :: i <= k < |list| && r.value == list[k] && ProbeAt(probes, k)
                                      && forall j :: i <= j < k ==> !ProbeAt(probes, j))
    decreases |list| - i
  {
    if i < |list| && !ProbeAt(probes, i) {
      FirstWorkingFromIsFirst(list, probes, i + 1);
      var r := FirstWorkingFrom(list, probes, i);
      if r.Ok? {
        var k :| i + 1 <= k < |list| && r.value == list[k] && ProbeAt(probes, k)
                 && forall j :: i + 1 <= j < k ==> !ProbeAt(probes, j);
        assert forall j :: i <= j < k ==> !ProbeAt(probes, j);
      }
    }
  }

  /** `chooseWorkingEndpoint(list)`: the first entry, in order, whose probe
      answered; throws when none did. `probes[i]` is the outcome of probing
      `list[i]`. */
  method ChooseWorkingEndpoint(list: seq<string>, probes: seq<bool>) returns (r: Result<string>, probed: nat)
    ensures probed <= |list|
    ensures r.Ok? ==> probed >= 1 && r.value == list[probed - 1] && ProbeAt(probes, probed - 1)
    ensures forall i :: 0 <= i < probed - 1 ==> !ProbeAt(probes, i)
    ensures r.Err? <==> forall i :: 0 <= i < |list| ==> !ProbeAt(probes, i)
    ensures r.Err? ==> r.message == NoEndpointMessage && probed == |list|
    ensures r == FirstWorkingFrom(list, probes, 0)
  {
    probed := 0;
    while probed < |list|
      invariant probed <= |list|
      invariant forall i :: 0 <= i < probed ==> !ProbeAt(probes, i)
      invariant FirstWorkingFrom(list, probes, 0) == FirstWorkingFrom(list, probes, probed)
    {
      var url := list[probed];
      probed := probed + 1;
      if ProbeAt(probes, probed - 1) {
        return Ok(url), probed;
      }
    }
    r := Err(NoEndpointMessage);
  }

  /** The module-level connection cache: `_endpoint` and `_conn` (a
      connection is identified by its endpoint). */
  class Connections {
    var endpoint: Option<string>
    var conn: Option<string>

    constructor ()
      ensures endpoint.None? && conn.None?
    {
      endpoint, conn := None, None;
    }

    /** `makeConnection(force)`: the cached connection unless forced; else
        the configured endpoint if its probe answers, else the first working
        fallback; when none answers it throws and nothing is cached. */
    method MakeConnection(force: bool, configured: string, primaryUp: bool, probes: seq<bool>)
      returns (r: Result<string>)
      modifies this
      ensures old(conn).Some? && !force ==> r == Ok(old(conn).value) && conn == old(conn) && endpoint == old(endpoint)
      ensures (old(conn).None? || force) && primaryUp ==>
        r == Ok(GetRpcEndpoint(configured)) && endpoint == Some(GetRpcEndpoint(configured)) && conn == endpoint
      ensures (old(conn).None? || force) && !primaryUp ==> r == FirstWorkingFrom(DevnetCandidates, probes, 0)
      ensures (old(conn).None? || force) && !primaryUp && r.Ok? ==>
        r.value in DevnetCandidates && endpoint == Some(r.value) && conn == endpoint
      ensures r.Err? ==> r.message == NoEndpointMessage && conn == old(conn) && endpoint == old(endpoint)
    {
      if conn.Some? && !force {
        return Ok(conn.value);
      }
      var first := GetRpcEndpoint(configured);
      if primaryUp {
        endpoint := Some(first);
      } else {
        var chosen, _ := ChooseWorkingEndpoint(DevnetCandidates, probes);
        if chosen.Err? {
          return Err(chosen.message);
        }
        endpoint := Some(chosen.value);
      }
      conn := endpoint;
      r := Ok(endpoint.value);
    }

    /** `getChosenEndpoint()`: the probed endpoint if any, else the simple one. */
    function GetChosenEndpoint(configured: string): (e: string)
      reads this
      ensures endpoint.Some? && endpoint.value != "" ==> e == endpoint.value
      ensures endpoint.None? ==> e == GetRpcEndpoint(configured)
    {
      if endpoint.Some? && endpoint.value != "" then endpoint.value else GetRpcEndpoint(configured)
    }
  }

  /** Whatever has been chosen, the endpoint reported is an http(s) URL. */
  lemma ChosenEndpointIsHttp(c: Connections, configured: string)
    requires c.endpoint.None? || c.endpoint.value in DevnetCandidates || c.endpoint.value == GetRpcEndpoint(configured)
    ensures IsHttpUrl(c.GetChosenEndpoint(configured))
  {
    forall u | u in DevnetCandidates
      ensures IsHttpUrl(u)
    {
      HttpsPrefixIsHttpUrl(u[8..]);
      assert u == Https + u[8..];
    }
  }
}
