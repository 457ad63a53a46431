/** The IPFS gateway helpers of the client: the gateway base, turning an
    `ipfs://` URI into a gateway link, and the upload call's reply handling. */
module IpfsGateway {
  import opened JsCore

  const DefaultGateway: string := "https://gateway.pinata.cloud/ipfs/"
  const DefaultUploadEndpoint: string := "/api/pinata-upload"
  const IpfsScheme: string := "ipfs://"

  /** `GATEWAY`: the configured gateway (or the default when unset or empty),
      with its trailing slashes replaced by exactly one. */
  function Gateway(configured: string): (g: string)
    ensures EndsWith(g, "/") && (|g| == 1 || g[|g| - 2] != '/')
    ensures configured == "" ==> g == DefaultGateway
    ensures configured != "" ==> g == StripTrailingSlashes(configured) + "/"
  {
    var base := if configured != "" then configured else DefaultGateway;
    assert StripTrailingSlashes(DefaultGateway) == "https://gateway.pinata.cloud/ipfs";
    WithOneTrailingSlash(base)
  }

  /** `toGatewayUrl(uri)` against the gateway base `gateway`. */
  function ToGatewayUrl(gateway: string, uri: string): (u: string)
    ensures uri == "" ==> u == ""
    ensures StartsWith(uri, IpfsScheme) ==> u == gateway + uri[|IpfsScheme|..]
    ensures !StartsWith(uri, IpfsScheme) ==> u == uri
  {
    if uri == "" then ""
    else if StartsWith(uri, IpfsScheme) then gateway + uri[|IpfsScheme|..]
    else uri
  }

  /** The link for a content id stored as `ipfs://cid` is the gateway base
      followed by that content id. */
  lemma GatewayLinkOfCid(configured: string, cid: string)
    ensures ToGatewayUrl(Gateway(configured), IpfsScheme + cid) == Gateway(configured) + cid
  {
    assert StartsWith(IpfsScheme + cid, IpfsScheme);
    assert (IpfsScheme + cid)[|IpfsScheme|..] == cid;
  }

  /** With an http(s) gateway, a gateway link is already a plain URL:
      converting it again keeps it. */
  lemma ConversionIsIdempotent(gateway: string, uri: string)
    requires StartsWith(gateway, "http")
    ensures ToGatewayUrl(gateway, ToGatewayUrl(gateway, uri)) == ToGatewayUrl(gateway, uri)
  {
    var u := ToGatewayUrl(gateway, uri);
    if StartsWith(uri, IpfsScheme) {
      assert u[0] == 'h';
    }
  }

  lemma DefaultGatewayIsHttp()
    ensures StartsWith(Gateway(""), "http")
  {
  }

  /** What the upload route answers with on success. */
  datatype Uploaded = Uploaded(cid: string, ipfsUri: string, gatewayUrl: string)

  /** The reply to the upload POST: non-ok replies carry their text. */
  datatype UploadReply = UploadOk(json: Uploaded) | UploadNotOk(text: string)

  datatype UploadResult = UploadDone(value: Uploaded) | UploadThrew(message: string)

  /** The endpoint the upload is posted to. */
  function UploadEndpoint(configured: string): (e: string)
    ensures configured != "" ==> e == configured
    ensures configured == "" ==> e == DefaultUploadEndpoint
  {
    if configured != "" then configured else DefaultUploadEndpoint
  }

  /** `uploadFileToIpfsViaVercel`: a non-ok reply throws with its text,
      an ok reply resolves with its JSON. */
  function UploadViaVercel(reply: UploadReply): (r: UploadResult)
    ensures r.UploadThrew? <==> reply.UploadNotOk?
    ensures reply.UploadNotOk? ==> r.message == reply.text
    ensures reply.UploadOk? ==> r.value == reply.json
  {
    match reply
    case UploadOk(j) => UploadDone(j)
    case UploadNotOk(t) => UploadThrew(t)
  }
}
