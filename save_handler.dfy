/** The serverless save function: the CORS origin rule, the method checks,
    required-field validation before any database access, and the upsert of
    the normalised document. */
module SaveHandler {
  import opened JsCore
  import opened MetaStore
  import opened LocalServer

  const Localhost: string := "http://localhost"
  const MissingRequiredMessage: string := "Missing required fields: pda, nomor_ijazah, cid"
  const DbNotConfigured: string := "Database not configured: "

  /** `CORS_ORIGIN`: the configured value (an unset variable reads as "") or
      "auto", trimmed. */
  function CorsConfig(configured: string): (c: string)
    ensures configured == "" ==> c == "auto"
    ensures configured != "" ==> c == Trim(configured)
  {
    Trim(if configured != "" then configured else "auto")
  }

  /** The `Access-Control-Allow-Origin` value `setCors` writes. */
  function AllowOrigin(config: string, origin: Option<string>): (r: string)
    ensures config == "*" ==> r == "*"
    ensures config == "auto" ==>
      (r == (if origin.Some? && StartsWith(origin.value, Localhost) then origin.value else "*"))
    ensures config != "*" && config != "auto" ==> r == config
  {
    if config == "*" then "*"
    else if config == "auto" then
      (if origin.Some? && origin.value != "" && StartsWith(origin.value, Localhost) then origin.value else "*")
    else config
  }

  /** `req.body` as the platform hands it over: raw text with the outcome of
      parsing it as an object (the empty text reads as "{}"), an already
      parsed object, or nothing. */
  datatype IncomingBody = TextBody(text: string, parsed: JsonBody) | ObjectBody(fields: Fields) | NoBody

  /** The request object the handler destructures, or the error it throws. */
  function BodyFields(b: IncomingBody): (r: JsonBody)
    ensures b.TextBody? && b.text == "" ==> r == JsonObject(map[])
    ensures b.NoBody? ==> r == JsonObject(map[])
    ensures b.ObjectBody? ==> r == JsonObject(b.fields)
    ensures b.TextBody? && b.text != "" ==> r == b.parsed
  {
    match b
    case TextBody(t, p) => if t == "" then JsonObject(map[]) else p
    case ObjectBody(f) => JsonObject(f)
    case NoBody => JsonObject(map[])
  }

  /** The reply and the origin header of one invocation. `connect` is the
      outcome of `getDb`, `write` that of the `updateOne` call. */
  method Handle(store: CertStore, corsConfig: string, origin: Option<string>, httpMethod: string,
                body: IncomingBody, connect: DbOutcome, write: DbOutcome, now: int)
    returns (allowOrigin: string, reply: Reply)
    requires store.Valid()
    modifies store
    ensures store.Valid()
    ensures allowOrigin == AllowOrigin(CorsConfig(corsConfig), origin)
    ensures httpMethod == "OPTIONS" ==> reply == Reply(204, None)
    ensures httpMethod != "OPTIONS" && httpMethod != "POST" ==> reply == FailReply(405, "Method not allowed")
    ensures httpMethod == "POST" && BodyFields(body).BodyError? ==> reply == FailReply(500, BodyFields(body).message)
    ensures httpMethod == "POST" && BodyFields(body).JsonObject? && !HasRequired(BodyFields(body).fields) ==>
      reply == FailReply(400, MissingRequiredMessage)
    ensures httpMethod == "POST" && BodyFields(body).JsonObject? && HasRequired(BodyFields(body).fields) && connect.DbFailed? ==>
      reply == FailReply(500, DbNotConfigured + connect.message)
    ensures httpMethod == "POST" && BodyFields(body).JsonObject? && HasRequired(BodyFields(body).fields)
            && connect.DbOk? && write.DbFailed? ==>
      reply == FailReply(500, write.message)
    ensures reply.status == 200 <==>
      httpMethod == "POST" && BodyFields(body).JsonObject? && HasRequired(BodyFields(body).fields) && connect.DbOk? && write.DbOk?
    ensures reply.status == 200 ==>
      var f := BodyFields(body).fields;
      var pda := JsString(Field(f, "pda"));
      reply == Reply(200, Some(map["ok" := VBool(true), "ipfsUri" := VStr("ipfs://" + JsString(Field(f, "cid")))]))
      && store.docs == old(store.docs)[pda := Upserted(old(store.FindOne(pda)), pda, BuildDoc(f, now), now)]
    ensures reply.status != 200 ==> store.docs == old(store.docs)
  {
    allowOrigin := AllowOrigin(CorsConfig(corsConfig), origin);
    if httpMethod == "OPTIONS" {
      return allowOrigin, Reply(204, None);
    }
    if httpMethod != "POST" {
      return allowOrigin, FailReply(405, "Method not allowed");
    }
    var parsed := BodyFields(body);
    if parsed.BodyError? {
      return allowOrigin, FailReply(500, parsed.message);
    }
    var f := parsed.fields;
    if !HasRequired(f) {
      return allowOrigin, FailReply(400, MissingRequiredMessage);
    }
    if connect.DbFailed? {
      return allowOrigin, FailReply(500, DbNotConfigured + connect.message);
    }
    var doc := BuildDoc(f, now);
    if write.DbFailed? {
      return allowOrigin, FailReply(500, write.message);
    }
    store.Upsert(JsString(Field(f, "pda")), doc, now);
    reply := Reply(200, Some(map["ok" := VBool(true), "ipfsUri" := VStr("ipfs://" + JsString(Field(f, "cid")))]));
  }
}
