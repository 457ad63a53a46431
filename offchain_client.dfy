/** The client side of the metadata store: joining the API base with a route
    path, and posting a certificate's metadata record. */
module OffchainClient {
  import opened JsCore

  datatype Result<T> = Ok(value: T) | Err(message: string)

  // -----------------------------------------------------------------------
  // joinUrl

  /** The path with surrounding whitespace trimmed and a leading slash. */
  function RoutePath(path: string): (pp: string)
    ensures StartsWith(pp, "/")
    ensures StartsWith(Trim(path), "/") ==> pp == Trim(path)
    ensures !StartsWith(Trim(path), "/") ==> pp == "/" + Trim(path)
  {
    var p := Trim(path);
    if StartsWith(p, "/") then p else "/" + p
  }

  /** `joinUrl(base, path)`: the base without trailing slashes, then the
      route path; an empty base gives the route path alone. */
  function JoinUrl(base: string, path: string): (r: string)
    ensures EndsWith(r, RoutePath(path))
    ensures r == StripTrailingSlashes(base) + RoutePath(path)
    ensures StripTrailingSlashes(base) == "" ==> r == RoutePath(path)
    ensures |r| >= 1 && r[|StripTrailingSlashes(base)|] == '/'
  {
    var b := StripTrailingSlashes(base);
    var pp := RoutePath(path);
    if b != "" then b + pp else pp
  }

  /** Adding trailing slashes to the base changes nothing. */
  lemma {:induction false} SlashesOnBaseDoNotMatter(base: string, n: nat, path: string)
    ensures JoinUrl(base + seq(n, _ => '/'), path) == JoinUrl(base, path)
  {
    StripAppendedSlashes(base, n);
  }

  lemma {:induction false} StripAppendedSlashes(s: string, n: nat)
    ensures StripTrailingSlashes(s + seq(n, _ => '/')) == StripTrailingSlashes(s)
    decreases n
  {
    if n > 0 {
      var t := s + seq(n, _ => '/');
      assert t[..|t| - 1] == s + seq(n - 1, _ => '/');
      StripAppendedSlashes(s, n - 1);
    } else {
      assert s + seq(0, _ => '/') == s;
    }
  }

  const SavePath: string := "/api/certs/save"

  // -----------------------------------------------------------------------
  // saveCertMetaToApi

  /** The record posted to the save route; optional fields may be left out. */
  datatype MetaPayload = MetaPayload(
    pda: string,
    nomorIjazah: string,
    cid: string,
    filename: Option<string>,
    sha256: Option<string>,
    operator: Option<string>,
    note: Option<string>)

  /** How a response text reads as JSON: it does not parse, it parses to a
      JSON string `value`, or it parses to another value that re-serialises
      to `serialized`. */
  datatype Parsed = NotJson | JsonString(value: string) | JsonValue(serialized: string)

  /** The body of the reply: reading it failed, or its text and how that
      text parses. */
  datatype ReadBody = Unreadable | Text(text: string, parsed: Parsed)

  /** The reply to the POST: status, status text and body. */
  datatype Reply = Reply(ok: bool, status: nat, statusText: string, body: ReadBody)

  /** How the `fetch` of the POST settles: with a reply, or rejected (a
      network error, a blocked cross-origin request) with the message of
      the error it rejects with. */
  datatype PostOutcome = Answered(reply: Reply) | PostRejected(message: string)

  /** The value the call resolves with: a parsed JSON value other than a
      string, or a string (the raw text, or a parsed JSON string). */
  datatype Body = JsonBody(serialized: string) | RawText(text: string)

  datatype PostRequest = PostRequest(url: string, contentType: string, payload: MetaPayload)

  const MissingFieldsMessage: string := "saveCertMetaToApi: pda, nomor_ijazah, cid are required"

  predicate HasRequiredFields(p: MetaPayload)
  {
    p.pda != "" && p.nomorIjazah != "" && p.cid != ""
  }

  function BodyText(b: Body): string
  {
    match b
    case JsonBody(s) => s
    case RawText(t) => t
  }

  const FailurePrefix: string := "Save metadata failed: "

  /** The text of the error for a non-ok reply: the prefix, the status in
      decimal, a space, the status text, a dash and the body as text (a
      string as it is, any other JSON value serialised). */
  function FailureMessage(reply: Reply, body: Body): (m: string)
    ensures StartsWith(m, FailurePrefix) && EndsWith(m, BodyText(body))
  {
    FailurePrefix + NatToString(reply.status) + " " + reply.statusText + " — " + BodyText(body)
  }

  /** The whole message can be read back: after the prefix come the
      status's decimal digits (no leading zero), a space, the status text,
      " — " and the body as text. */
  lemma FailureMessageShowsReply(reply: Reply, body: Body)
    ensures var m := FailureMessage(reply, body);
            exists j :: |FailurePrefix| < j < |m|
                        && IsDigits(m[|FailurePrefix|..j])
                        && (m[|FailurePrefix|] == '0' ==> j == |FailurePrefix| + 1)
                        && DecimalValue(m[|FailurePrefix|..j]) == reply.status
                        && m == FailurePrefix + m[|FailurePrefix|..j] + " " + reply.statusText + " — " + BodyText(body)
  {
    var m := FailureMessage(reply, body);
    var d := NatToString(reply.status);
    NatToStringIsDecimal(reply.status);
    var pd := FailurePrefix + d;
    var j := |pd|;
    assert m[..j] == pd;
    assert m[|FailurePrefix|..j] == pd[|FailurePrefix|..] == d;
  }

  /** What the body reads as: the text, replaced by what it parses to when
      it parses; a failed read, like an empty text, leaves "". */
  function ResponseBody(reply: Reply): (b: Body)
    ensures reply.body.Unreadable? ==> b == RawText("")
    ensures reply.body.Text? && reply.body.text == "" ==> b == RawText("")
    ensures reply.body.Text? && reply.body.text != "" ==>
      match reply.body.parsed
      case NotJson => b == RawText(reply.body.text)
      case JsonString(v) => b == RawText(v)
      case JsonValue(j) => b == JsonBody(j)
  {
    match reply.body
    case Unreadable => RawText("")
    case Text(t, p) =>
      if t == "" then RawText("")
      else match p
        case NotJson => RawText(t)
        case JsonString(v) => RawText(v)
        case JsonValue(j) => JsonBody(j)
  }

  /** The message `saveCertMetaToApi` throws with, if it throws: missing
      required fields first, then the rejection of the request, then a
      non-ok reply. */
  function SaveError(payload: MetaPayload, post: PostOutcome): (e: Option<string>)
    ensures e.None? <==> HasRequiredFields(payload) && post.Answered? && post.reply.ok
    ensures !HasRequiredFields(payload) ==> e == Some(MissingFieldsMessage)
    ensures HasRequiredFields(payload) && post.PostRejected? ==> e == Some(post.message)
    ensures e.Some? && HasRequiredFields(payload) && post.Answered? ==>
      e.value == FailureMessage(post.reply, ResponseBody(post.reply))
  {
    if !HasRequiredFields(payload) then Some(MissingFieldsMessage)
    else match post
      case PostRejected(m) => Some(m)
      case Answered(reply) => if !reply.ok then Some(FailureMessage(reply, ResponseBody(reply))) else None
  }

  /** `saveCertMetaToApi(payload)`: validates the three required fields
      before any request, posts the payload as JSON, and either throws with
      the status and body or resolves with the body. */
  method SaveCertMetaToApi(apiBase: string, payload: MetaPayload, post: PostOutcome)
    returns (sent: Option<PostRequest>, r: Result<Body>)
    ensures sent.None? <==> !HasRequiredFields(payload)
    ensures sent.None? ==> r == Err(MissingFieldsMessage)
    ensures sent.Some? ==> sent.value == PostRequest(JoinUrl(apiBase, SavePath), "application/json", payload)
    ensures sent.Some? && post.PostRejected? ==> r == Err(post.message)
    ensures sent.Some? ==> (r.Ok? <==> post.Answered? && post.reply.ok)
    ensures sent.Some? && r.Ok? ==> r.value == ResponseBody(post.reply)
    ensures r.Err? <==> SaveError(payload, post).Some?
    ensures r.Err? ==> r.message == SaveError(payload, post).value
  {
    if !HasRequiredFields(payload) {
      return None, Err(MissingFieldsMessage);
    }
    var url := JoinUrl(apiBase, SavePath);
    sent := Some(PostRequest(url, "application/json", payload));
    if post.PostRejected? {
      return sent, Err(post.message);
    }
    var reply := post.reply;
    var txt := if reply.body.Text? then reply.body.text else "";
    var body: Body := RawText(txt);
    if txt != "" {
      match reply.body.parsed
      case NotJson =>
      case JsonString(v) => body := RawText(v);
      case JsonValue(j) => body := JsonBody(j);
    }
    if !reply.ok {
      return sent, Err(FailureMessage(reply, body));
    }
    r := Ok(body);
  }
}
