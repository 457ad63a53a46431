/** The serverless upload function: pins the raw request body with the
    pinning service and, best effort, records the content id against the
    certificate address given in `x-pda`. */
module PinataUpload {
  import opened JsCore
  import opened MetaStore
  import opened LocalServer
  import IpfsGateway

  const MissingJwtMessage: string := "Missing PINATA_JWT env var"
  const EmptyBodyMessage: string := "Empty body (0 bytes)"
  const NotJsonMessage: string := "Unexpected Pinata response (not JSON)"

  /** A request header as Node hands it over: absent, one value, or several. */
  datatype Header = Absent | Single(value: string) | Repeated(values: seq<string>)

  /** What the pinning call did: a non-ok reply with its status and text, an
      ok reply whose text is not JSON, an ok JSON reply with its `IpfsHash`,
      or the call threw. */
  datatype PinOutcome = PinNotOk(status: nat, text: string) | PinNotJson(text: string) | PinOk(ipfsHash: string) | PinThrew(message: string)

  /** `upload-${Date.now()}.bin` */
  function DefaultName(now: nat): (n: string)
    ensures StartsWith(n, "upload-") && EndsWith(n, ".bin") && |n| > 11
    ensures n[7..|n| - 4] == NatToString(now)
  {
    var n := "upload-" + NatToString(now) + ".bin";
    assert n[..7] == "upload-";
    assert n[|n| - 4..] == ".bin";
    n
  }

  /** The default name carries the upload time in decimal digits without
      a leading zero, so two different times give two different names. */
  lemma DefaultNameShowsTime(now: nat, later: nat)
    ensures var n := DefaultName(now);
            IsDigits(n[7..|n| - 4]) && DecimalValue(n[7..|n| - 4]) == now
            && (n[7] == '0' ==> |n| == 12)
    ensures now != later ==> DefaultName(now) != DefaultName(later)
  {
    NatToStringIsDecimal(now);
    if now != later && DefaultName(now) == DefaultName(later) {
      var n := DefaultName(now);
      assert NatToString(now) == n[7..|n| - 4] == NatToString(later);
      NatToStringInjective(now, later);
    }
  }

  /** The name the file is pinned under, before URI decoding. */
  function RawFileName(header: Header, now: nat): string
  {
    if header.Single? && header.value != "" then header.value else DefaultName(now)
  }

  /** `pda && typeof pda === "string"` */
  predicate RecordsAddress(h: Header)
  {
    h.Single? && h.value != ""
  }

  /** One invocation. `jwt` is the configured token ("" when unset),
      `gatewayConfig` the configured gateway ("" when unset), `db` the
      outcome of the best-effort database write. */
  method Handle(store: CertStore, httpMethod: string, jwt: string, stream: seq<seq<byte>>,
                fileNameHeader: Header, pdaHeader: Header, decode: string -> Option<string>,
                pin: PinOutcome, gatewayConfig: string, db: DbOutcome, now: nat)
    returns (reply: Reply, pinned: Option<Pinned>)
    requires store.Valid()
    modifies store
    ensures store.Valid()
    ensures httpMethod == "OPTIONS" ==> reply == Reply(200, None)
    ensures httpMethod != "OPTIONS" && httpMethod != "POST" ==> reply == ErrorReply(405, "Method Not Allowed")
    ensures httpMethod == "POST" && jwt == "" ==> reply == ErrorReply(500, MissingJwtMessage)
    ensures httpMethod == "POST" && jwt != "" && Concat(stream) == [] ==> reply == ErrorReply(400, EmptyBodyMessage)
    ensures pinned.Some? <==>
      httpMethod == "POST" && jwt != "" && Concat(stream) != [] && decode(RawFileName(fileNameHeader, now)).Some?
    ensures pinned.Some? ==>
      pinned.value == Pinned(decode(RawFileName(fileNameHeader, now)).value, Concat(stream))
    ensures httpMethod == "POST" && jwt != "" && Concat(stream) != [] && decode(RawFileName(fileNameHeader, now)).None? ==>
      reply == ErrorReply(500, "URI malformed")
    ensures pinned.Some? && pin.PinThrew? ==> reply == ErrorReply(500, pin.message)
    ensures pinned.Some? && pin.PinNotOk? ==>
      reply == Reply(500, Some(map["error" := VStr("Pinata error"), "status" := VNat(pin.status), "body" := VStr(pin.text)]))
    ensures pinned.Some? && pin.PinNotJson? ==>
      reply == Reply(500, Some(map["error" := VStr(NotJsonMessage), "body" := VStr(pin.text)]))
    ensures reply.status == 200 && reply.body.Some? <==> pinned.Some? && pin.PinOk?
    ensures pinned.Some? && pin.PinOk? ==>
      reply == Reply(200, Some(map[
        "cid" := VStr(pin.ipfsHash),
        "ipfsUri" := VStr("ipfs://" + pin.ipfsHash),
        "gatewayUrl" := VStr(IpfsGateway.Gateway(gatewayConfig) + pin.ipfsHash)]))
    // a database write happens only after a successful pin, for a single non-empty x-pda
    ensures pinned.Some? && pin.PinOk? && RecordsAddress(pdaHeader) && db.DbOk? ==>
      store.docs == old(store.docs)[pdaHeader.value :=
        Upserted(old(store.FindOne(pdaHeader.value)), pdaHeader.value,
                 map["cid" := VStr(pin.ipfsHash), "filename" := VStr(pinned.value.fileName), "updatedAt" := VDate(now)], now)]
    ensures !(pinned.Some? && pin.PinOk? && RecordsAddress(pdaHeader) && db.DbOk?) ==> store.docs == old(store.docs)
  {
    pinned := None;
    if httpMethod == "OPTIONS" {
      return Reply(200, None), None;
    }
    if httpMethod != "POST" {
      return ErrorReply(405, "Method Not Allowed"), None;
    }
    if jwt == "" {
      return ErrorReply(500, MissingJwtMessage), None;
    }
    var buf := ReadBody(stream);
    if |buf| == 0 {
      return ErrorReply(400, EmptyBodyMessage), None;
    }
    var decoded := decode(RawFileName(fileNameHeader, now));
    if decoded.None? {
      return ErrorReply(500, "URI malformed"), None;
    }
    var fileName := decoded.value;
    pinned := Some(Pinned(fileName, buf));
    match pin {
      case PinThrew(m) =>
        reply := ErrorReply(500, m);
      case PinNotOk(status, text) =>
        reply := Reply(500, Some(map["error" := VStr("Pinata error"), "status" := VNat(status), "body" := VStr(text)]));
      case PinNotJson(text) =>
        reply := Reply(500, Some(map["error" := VStr(NotJsonMessage), "body" := VStr(text)]));
      case PinOk(cid) =>
        var gwBase := IpfsGateway.Gateway(gatewayConfig);
        if RecordsAddress(pdaHeader) && db.DbOk? {
          store.Upsert(pdaHeader.value,
            map["cid" := VStr(cid), "filename" := VStr(fileName), "updatedAt" := VDate(now)], now);
        }
        reply := Reply(200, Some(map[
          "cid" := VStr(cid),
          "ipfsUri" := VStr("ipfs://" + cid),
          "gatewayUrl" := VStr(gwBase + cid)]));
    }
  }

  /** The gateway link of a pinned file is the normalised gateway base (one
      trailing slash, whatever the configuration had) followed by the
      content id, and the client's conversion of the `ipfs://` URI yields
      the same link under the same configuration. */
  lemma GatewayUrlAgreesWithClient(gatewayConfig: string, cid: string)
    ensures var g := IpfsGateway.Gateway(gatewayConfig);
            EndsWith(g, "/") && (|g| == 1 || g[|g| - 2] != '/')
            && IpfsGateway.ToGatewayUrl(g, "ipfs://" + cid) == g + cid
  {
    IpfsGateway.GatewayLinkOfCid(gatewayConfig, cid);
  }
}
