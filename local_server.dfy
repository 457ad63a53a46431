/** The local development API server: one request handler dispatching on
    method and path to the upload route, the metadata save route and the
    lookup by certificate address, over the `certs` collection. */
module LocalServer {
  import opened JsCore
  import opened MetaStore

  const PinataGateway: string := "https://gateway.pinata.cloud/ipfs/"
  const DefaultFileName: string := "upload.bin"
  const UploadPath: string := "/api/pinata-upload"
  const SavePath: string := "/api/certs/save"
  const CertsPrefix: string := "/api/certs/"

  /** A request as the handler reads it: method, URL path, the body as the
      chunks the stream delivers, the
      `x-file-name` and `x-pda` headers, and how the body parses as a JSON
      object (or the message of the error parsing or destructuring it threw). */
  datatype Request = Request(
    httpMethod: string,
    pathname: string,
    chunks: seq<seq<byte>>,
    fileNameHeader: Option<string>,
    pdaHeader: Option<string>,
    json: JsonBody)

  datatype JsonBody = BodyError(message: string) | JsonObject(fields: Fields)

  /** What the pinning service did: answered with a content id, answered
      not-ok with a text, or the call (or reading its JSON) threw. */
  datatype PinataReply = PinataOk(ipfsHash: string) | PinataNotOk(text: string) | PinataThrew(message: string)

  /** Whether the database connection and operation succeeded. */
  datatype DbOutcome = DbOk | DbFailed(message: string)

  /** A status code and, unless the reply has no body, its JSON object. */
  datatype Reply = Reply(status: nat, body: Option<Doc>)

  /** The file handed to the pinning service. */
  datatype Pinned = Pinned(fileName: string, bytes: seq<byte>)

  datatype Route = Preflight | UploadRoute | SaveRoute | LookupRoute | NoRoute

  /** The dispatch order of the handler. */
  function RouteOf(httpMethod: string, pathname: string): (r: Route)
    ensures r == Preflight <==> httpMethod == "OPTIONS"
    ensures r == UploadRoute <==> httpMethod == "POST" && pathname == UploadPath
    ensures r == SaveRoute <==> httpMethod == "POST" && pathname == SavePath
    ensures r == LookupRoute <==> httpMethod == "GET" && StartsWith(pathname, CertsPrefix)
  {
    if httpMethod == "OPTIONS" then Preflight
    else if pathname == UploadPath && httpMethod == "POST" then UploadRoute
    else if pathname == SavePath && httpMethod == "POST" then SaveRoute
    else if httpMethod == "GET" && StartsWith(pathname, CertsPrefix) then LookupRoute
    else NoRoute
  }

  /** `pathname.split("/").pop()`: the text after the last slash. */
  function LastSegment(p: string): (r: string)
    ensures '/' !in r
    ensures EndsWith(p, r)
    ensures |r| == |p| || p[|p| - |r| - 1] == '/'
  {
    if p == [] || p[|p| - 1] == '/' then []
    else LastSegment(p[..|p| - 1]) + [p[|p| - 1]]
  }

  lemma LookupPathFindsAddress(pda: string)
    requires pda != [] && '/' !in pda
    ensures LastSegment(CertsPrefix + pda) == pda
    ensures RouteOf("GET", CertsPrefix + pda) == LookupRoute
  {
    LastSegmentOfSuffix(CertsPrefix, pda);
    assert (CertsPrefix + pda)[..|CertsPrefix|] == CertsPrefix;
  }

  lemma {:induction false} LastSegmentOfSuffix(prefix: string, s: string)
    requires prefix != [] && prefix[|prefix| - 1] == '/' && '/' !in s
    ensures LastSegment(prefix + s) == s
    decreases |s|
  {
    if s == [] {
      assert prefix + s == prefix;
    } else {
      var t := prefix + s;
      assert t[..|t| - 1] == prefix + s[..|s| - 1];
      assert t[|t| - 1] == s[|s| - 1];
      LastSegmentOfSuffix(prefix, s[..|s| - 1]);
      assert s == s[..|s| - 1] + [s[|s| - 1]];
    }
  }

  /** `Buffer.concat(chunks)` */
  function Concat(chunks: seq<seq<byte>>): (b: seq<byte>)
    ensures |b| == 0 <==> forall i :: 0 <= i < |chunks| ==> chunks[i] == []
    ensures chunks != [] ==> |b| >= |chunks[0]| && b[..|chunks[0]|] == chunks[0]
  {
    if chunks == [] then [] else chunks[0] + Concat(chunks[1..])
  }

  lemma {:induction false} ConcatAppend(chunks: seq<seq<byte>>, c: seq<byte>)
    ensures Concat(chunks + [c]) == Concat(chunks) + c
    decreases |chunks|
  {
    if chunks == [] {
      assert [] + [c] == [c];
    } else {
      assert (chunks + [c])[1..] == chunks[1..] + [c];
      ConcatAppend(chunks[1..], c);
    }
  }

  /** The body-reading loop: every chunk the stream yields is pushed, then
      the chunks are joined. */
  method ReadBody(stream: seq<seq<byte>>) returns (buf: seq<byte>)
    ensures buf == Concat(stream)
  {
    var pushed: seq<seq<byte>> := [];
    buf := [];
    var i := 0;
    while i < |stream|
      invariant 0 <= i <= |stream|
      invariant pushed == stream[..i]
      invariant buf == Concat(pushed)
    {
      ConcatAppend(pushed, stream[i]);
      pushed := pushed + [stream[i]];
      buf := buf + stream[i];
      i := i + 1;
    }
    assert stream[..i] == stream;
  }

  function ErrorReply(status: nat, message: string): Reply
  {
    Reply(status, Some(map["error" := VStr(message)]))
  }

  function FailReply(status: nat, message: string): Reply
  {
    Reply(status, Some(map["ok" := VBool(false), "error" := VStr(message)]))
  }

  /** The content id of a stored document, when it has a non-empty one. */
  function CidOf(d: Doc): Option<string>
  {
    if "cid" in d && d["cid"].VStr? && d["cid"].s != "" then Some(d["cid"].s) else None
  }

  /** The lookup reply: `ok`, the stored document, and the two links, which
      are null without a content id. */
  function LookupBody(d: Doc): (b: Doc)
    ensures b.Keys == d.Keys + {"ok", "ipfsUri", "gatewayUrl"}
    ensures "ok" !in d ==> b["ok"] == VBool(true)
    ensures CidOf(d).None? ==> b["ipfsUri"] == VNull && b["gatewayUrl"] == VNull
    ensures CidOf(d).Some? ==>
      b["ipfsUri"] == VStr("ipfs://" + CidOf(d).value) && b["gatewayUrl"] == VStr(PinataGateway + CidOf(d).value)
    ensures forall k :: k in d && k != "ipfsUri" && k != "gatewayUrl" ==> b[k] == d[k]
  {
    var links := match CidOf(d)
      case Some(c) => map["ipfsUri" := VStr("ipfs://" + c), "gatewayUrl" := VStr(PinataGateway + c)]
      case None => map["ipfsUri" := VNull, "gatewayUrl" := VNull];
    (map["ok" := VBool(true)] + d) + links
  }

  /** What a request leaves behind: the reply, the collection, and whether
      the route reached the database client. */
  datatype Outcome = Outcome(reply: Reply, docs: map<string, Doc>, usedDb: bool)

  /** `findOne({ pda })` on a collection. */
  function StoredDoc(docs: map<string, Doc>, pda: string): (r: Option<Doc>)
    ensures r.Some? <==> pda in docs
    ensures r.Some? ==> r.value == docs[pda]
  {
    if pda in docs then Some(docs[pda]) else None
  }

  /** `req.headers["x-file-name"] || "upload.bin"` */
  function RawFileName(req: Request): string
  {
    if req.fileNameHeader.Some? && req.fileNameHeader.value != "" then req.fileNameHeader.value else DefaultFileName
  }

  /** The `$set` of the upload route. */
  function UploadRecord(cid: string, fileName: string, now: int): Doc
  {
    map["cid" := VStr(cid), "filename" := VStr(fileName), "updatedAt" := VDate(now)]
  }

  /** The three identifiers the upload route answers with. */
  function PinnedBody(cid: string): Doc
  {
    map["cid" := VStr(cid), "ipfsUri" := VStr("ipfs://" + cid), "gatewayUrl" := VStr(PinataGateway + cid)]
  }

  /** The reply of a successful save. */
  function SavedBody(f: Fields): Doc
  {
    map["ok" := VBool(true), "ipfsUri" := VStr("ipfs://" + JsString(Field(f, "cid")))]
  }

  /** The file the upload route hands to the pinning service, if it gets that far. */
  function UploadPinned(req: Request, decode: string -> Option<string>): (p: Option<Pinned>)
    ensures p.Some? <==> |Concat(req.chunks)| > 0 && decode(RawFileName(req)).Some?
    ensures p.Some? ==> p.value == Pinned(decode(RawFileName(req)).value, Concat(req.chunks))
  {
    if |Concat(req.chunks)| == 0 then None
    else match decode(RawFileName(req))
      case None => None
      case Some(name) => Some(Pinned(name, Concat(req.chunks)))
  }

  /** The upload route on a collection: reject an empty body, pin the file,
      record its content id against `x-pda` when that header is present (a
      failed database write is ignored), and answer with the three
      identifiers. */
  function UploadOutcome(docs: map<string, Doc>, req: Request, decode: string -> Option<string>,
                         pinata: PinataReply, db: DbOutcome, now: int): (o: Outcome)
    ensures |Concat(req.chunks)| == 0 ==> o.reply == ErrorReply(400, "Empty body")
    ensures |Concat(req.chunks)| > 0 && decode(RawFileName(req)).None? ==> o.reply == ErrorReply(500, "URI malformed")
    ensures UploadPinned(req, decode).Some? && pinata.PinataThrew? ==> o.reply == ErrorReply(500, pinata.message)
    ensures UploadPinned(req, decode).Some? && pinata.PinataNotOk? ==>
      o.reply == Reply(500, Some(map["error" := VStr("Pinata Upload Failed"), "details" := VStr(pinata.text)]))
    ensures o.reply.status == 200 <==> UploadPinned(req, decode).Some? && pinata.PinataOk?
    ensures o.reply.status == 200 ==> o.reply.body == Some(PinnedBody(pinata.ipfsHash))
    // the collection changes only after a successful pin, for a present x-pda, when the write succeeded
    ensures o.reply.status == 200 && req.pdaHeader.Some? && req.pdaHeader.value != "" && db.DbOk? ==>
      var pda := req.pdaHeader.value;
      o.docs == docs[pda := Upserted(StoredDoc(docs, pda), pda,
                                     UploadRecord(pinata.ipfsHash, UploadPinned(req, decode).value.fileName, now), now)]
    ensures !(o.reply.status == 200 && req.pdaHeader.Some? && req.pdaHeader.value != "" && db.DbOk?) ==> o.docs == docs
    ensures o.usedDb <==> o.reply.status == 200 && req.pdaHeader.Some? && req.pdaHeader.value != ""
  {
    match UploadPinned(req, decode)
    case None =>
      Outcome(if |Concat(req.chunks)| == 0 then ErrorReply(400, "Empty body") else ErrorReply(500, "URI malformed"), docs, false)
    case Some(file) =>
      match pinata
      case PinataThrew(m) => Outcome(ErrorReply(500, m), docs, false)
      case PinataNotOk(t) => Outcome(Reply(500, Some(map["error" := VStr("Pinata Upload Failed"), "details" := VStr(t)])), docs, false)
      case PinataOk(cid) =>
        var hasPda := req.pdaHeader.Some? && req.pdaHeader.value != "";
        var pda := if hasPda then req.pdaHeader.value else "";
        var docs' := if hasPda && db.DbOk?
                     then docs[pda := Upserted(StoredDoc(docs, pda), pda, UploadRecord(cid, file.fileName, now), now)]
                     else docs;
        Outcome(Reply(200, Some(PinnedBody(cid))), docs', hasPda)
  }

  /** The save route on a collection: reject an empty body, an unparsable
      body or a record missing one of the three required fields, then upsert
      the normalised document; a database failure fails the request. */
  function SaveOutcome(docs: map<string, Doc>, req: Request, db: DbOutcome, now: int): (o: Outcome)
    ensures |Concat(req.chunks)| == 0 ==> o.reply == FailReply(400, "Empty body")
    ensures |Concat(req.chunks)| > 0 && req.json.BodyError? ==> o.reply == FailReply(500, req.json.message)
    ensures |Concat(req.chunks)| > 0 && req.json.JsonObject? && !HasRequired(req.json.fields) ==>
      o.reply == FailReply(400, "Missing required fields")
    ensures |Concat(req.chunks)| > 0 && req.json.JsonObject? && HasRequired(req.json.fields) && db.DbFailed? ==>
      o.reply == FailReply(500, db.message)
    ensures o.reply.status == 200 <==> |Concat(req.chunks)| > 0 && req.json.JsonObject? && HasRequired(req.json.fields) && db.DbOk?
    ensures o.reply.status == 200 ==>
      var f := req.json.fields;
      var pda := JsString(Field(f, "pda"));
      o.reply == Reply(200, Some(SavedBody(f)))
      && o.docs == docs[pda := Upserted(StoredDoc(docs, pda), pda, BuildDoc(f, now), now)]
    ensures o.reply.status != 200 ==> o.docs == docs
    ensures o.usedDb <==> |Concat(req.chunks)| > 0 && req.json.JsonObject? && HasRequired(req.json.fields)
  {
    if |Concat(req.chunks)| == 0 then Outcome(FailReply(400, "Empty body"), docs, false)
    else match req.json
      case BodyError(m) => Outcome(FailReply(500, m), docs, false)
      case JsonObject(f) =>
        if !HasRequired(f) then Outcome(FailReply(400, "Missing required fields"), docs, false)
        else if db.DbFailed? then Outcome(FailReply(500, db.message), docs, true)
        else
          var pda := JsString(Field(f, "pda"));
          Outcome(Reply(200, Some(SavedBody(f))), docs[pda := Upserted(StoredDoc(docs, pda), pda, BuildDoc(f, now), now)], true)
  }

  /** The lookup route on a collection: the address is the last path
      segment; the collection never changes. */
  function LookupOutcome(docs: map<string, Doc>, req: Request, db: DbOutcome): (o: Outcome)
    ensures o.docs == docs
    ensures LastSegment(req.pathname) == "" ==> o.reply == FailReply(400, "Missing PDA") && !o.usedDb
    ensures LastSegment(req.pathname) != "" ==> o.usedDb
    ensures LastSegment(req.pathname) != "" && db.DbFailed? ==> o.reply == FailReply(500, db.message)
    ensures LastSegment(req.pathname) != "" && db.DbOk? && LastSegment(req.pathname) !in docs ==>
      o.reply == FailReply(404, "Not found")
    ensures o.reply.status == 200 <==> LastSegment(req.pathname) in docs && LastSegment(req.pathname) != "" && db.DbOk?
    ensures o.reply.status == 200 ==> o.reply.body == Some(LookupBody(docs[LastSegment(req.pathname)]))
  {
    var pda := LastSegment(req.pathname);
    if pda == "" then Outcome(FailReply(400, "Missing PDA"), docs, false)
    else if db.DbFailed? then Outcome(FailReply(500, db.message), docs, true)
    else match StoredDoc(docs, pda)
      case None => Outcome(FailReply(404, "Not found"), docs, true)
      case Some(d) => Outcome(Reply(200, Some(LookupBody(d))), docs, true)
  }

  /** The whole handler: preflight, the three routes, and 404 for
      everything else. */
  function HandleOutcome(docs: map<string, Doc>, req: Request, decode: string -> Option<string>,
                         pinata: PinataReply, db: DbOutcome, now: int): (o: Outcome)
    ensures RouteOf(req.httpMethod, req.pathname) == Preflight ==> o == Outcome(Reply(204, None), docs, false)
    ensures RouteOf(req.httpMethod, req.pathname) == NoRoute ==> o == Outcome(Reply(404, None), docs, false)
    ensures RouteOf(req.httpMethod, req.pathname) == UploadRoute ==> o == UploadOutcome(docs, req, decode, pinata, db, now)
    ensures RouteOf(req.httpMethod, req.pathname) == SaveRoute ==> o == SaveOutcome(docs, req, db, now)
    ensures RouteOf(req.httpMethod, req.pathname) == LookupRoute ==> o == LookupOutcome(docs, req, db)
  {
    match RouteOf(req.httpMethod, req.pathname)
    case Preflight => Outcome(Reply(204, None), docs, false)
    case UploadRoute => UploadOutcome(docs, req, decode, pinata, db, now)
    case SaveRoute => SaveOutcome(docs, req, db, now)
    case LookupRoute => LookupOutcome(docs, req, db)
    case NoRoute => Outcome(Reply(404, None), docs, false)
  }

  /** Only the two POST routes can change the collection. */
  lemma OnlyPostsWrite(docs: map<string, Doc>, req: Request, decode: string -> Option<string>,
                       pinata: PinataReply, db: DbOutcome, now: int)
    ensures HandleOutcome(docs, req, decode, pinata, db, now).docs != docs ==>
      req.httpMethod == "POST" && (req.pathname == UploadPath || req.pathname == SavePath)
  {
  }

  class Server {
    /** The `certs` collection. */
    const store: CertStore
    /** `dbClient` has been created (by the first route that needed the database). */
    var clientCreated: bool

    constructor (s: CertStore)
      ensures store == s && !clientCreated
    {
      store := s;
      clientCreated := false;
    }

    /** `getDb()`: creates the client on first use. */
    method GetDb()
      modifies this
      ensures clientCreated
    {
      if !clientCreated {
        clientCreated := true;
      }
    }

    /** The upload route. */
    method HandleUpload(req: Request, decode: string -> Option<string>, pinata: PinataReply, db: DbOutcome, now: int)
      returns (reply: Reply, pinned: Option<Pinned>)
      requires store.Valid()
      modifies this, store
      ensures store.Valid()
      ensures var o := UploadOutcome(old(store.docs), req, decode, pinata, db, now);
              reply == o.reply && store.docs == o.docs && clientCreated == (old(clientCreated) || o.usedDb)
      ensures pinned == UploadPinned(req, decode)
    {
      pinned := None;
      var buffer := ReadBody(req.chunks);
      if |buffer| == 0 {
        return ErrorReply(400, "Empty body"), None;
      }
      var rawName := if req.fileNameHeader.Some? && req.fileNameHeader.value != "" then req.fileNameHeader.value else DefaultFileName;
      var decoded := decode(rawName);
      if decoded.None? {
        return ErrorReply(500, "URI malformed"), None;
      }
      var fileName := decoded.value;
      pinned := Some(Pinned(fileName, buffer));
      match pinata {
        case PinataThrew(m) =>
          return ErrorReply(500, m), pinned;
        case PinataNotOk(t) =>
          return Reply(500, Some(map["error" := VStr("Pinata Upload Failed"), "details" := VStr(t)])), pinned;
        case PinataOk(cid) =>
          if req.pdaHeader.Some? && req.pdaHeader.value != "" {
            GetDb();
            if db.DbOk? {
              store.Upsert(req.pdaHeader.value,
                map["cid" := VStr(cid), "filename" := VStr(fileName), "updatedAt" := VDate(now)], now);
            }
          }
          reply := Reply(200, Some(map[
            "cid" := VStr(cid),
            "ipfsUri" := VStr("ipfs://" + cid),
            "gatewayUrl" := VStr(PinataGateway + cid)]));
      }
    }

    /** The save route. */
    method HandleSave(req: Request, db: DbOutcome, now: int) returns (reply: Reply)
      requires store.Valid()
      modifies this, store
      ensures store.Valid()
      ensures var o := SaveOutcome(old(store.docs), req, db, now);
              reply == o.reply && store.docs == o.docs && clientCreated == (old(clientCreated) || o.usedDb)
    {
      var bodyBytes := ReadBody(req.chunks);
      if |bodyBytes| == 0 {
        return FailReply(400, "Empty body");
      }
      if req.json.BodyError? {
        return FailReply(500, req.json.message);
      }
      var f := req.json.fields;
      if !HasRequired(f) {
        return FailReply(400, "Missing required fields");
      }
      GetDb();
      if db.DbFailed? {
        return FailReply(500, db.message);
      }
      var doc := BuildDoc(f, now);
      store.Upsert(JsString(Field(f, "pda")), doc, now);
      reply := Reply(200, Some(map["ok" := VBool(true), "ipfsUri" := VStr("ipfs://" + JsString(Field(f, "cid")))]));
    }

    /** The lookup route. */
    method HandleLookup(req: Request, db: DbOutcome) returns (reply: Reply)
      modifies this
      ensures var o := LookupOutcome(store.docs, req, db);
              reply == o.reply && clientCreated == (old(clientCreated) || o.usedDb)
    {
      var pda := LastSegment(req.pathname);
      if pda == "" {
        return FailReply(400, "Missing PDA");
      }
      GetDb();
      if db.DbFailed? {
        return FailReply(500, db.message);
      }
      var found := store.FindOne(pda);
      match found {
        case None => reply := FailReply(404, "Not found");
        case Some(d) => reply := Reply(200, Some(LookupBody(d)));
      }
    }

    /** The whole handler, dispatching to the route methods. */
    method Handle(req: Request, decode: string -> Option<string>, pinata: PinataReply, db: DbOutcome, now: int)
      returns (reply: Reply)
      requires store.Valid()
      modifies this, store
      ensures store.Valid()
      ensures var o := HandleOutcome(old(store.docs), req, decode, pinata, db, now);
              reply == o.reply && store.docs == o.docs && clientCreated == (old(clientCreated) || o.usedDb)
    {
      var route := RouteOf(req.httpMethod, req.pathname);
      match route {
        case Preflight => reply := Reply(204, None);
        case UploadRoute =>
          var pinned;
          reply, pinned := HandleUpload(req, decode, pinata, db, now);
        case SaveRoute => reply := HandleSave(req, db, now);
        case LookupRoute => reply := HandleLookup(req, db);
        case NoRoute => reply := Reply(404, None);
      }
    }
  }

  /** The save request of a record through the handler stores the upserted document. */
  lemma SaveRequestStores(docs: map<string, Doc>, chunks: seq<seq<byte>>, f: Fields,
                          decode: string -> Option<string>, pinata: PinataReply, now: int)
    requires |Concat(chunks)| > 0 && HasRequired(f)
    ensures var pda := JsString(Field(f, "pda"));
            var saved := HandleOutcome(docs, Request("POST", SavePath, chunks, None, None, JsonObject(f)), decode, pinata, DbOk, now);
            saved.reply.status == 200
            && saved.docs == docs[pda := Upserted(StoredDoc(docs, pda), pda, BuildDoc(f, now), now)]
  {
    var saveReq := Request("POST", SavePath, chunks, None, None, JsonObject(f));
    assert RouteOf(saveReq.httpMethod, saveReq.pathname) == SaveRoute;
  }

  /** A lookup request for a slash-free stored address through the handler
      answers 200 with that document's lookup body. */
  lemma LookupRequestFinds(docs: map<string, Doc>, pda: string,
                           decode: string -> Option<string>, pinata: PinataReply, now: int)
    requires pda != [] && '/' !in pda && pda in docs
    ensures var looked := HandleOutcome(docs, Request("GET", CertsPrefix + pda, [], None, None, JsonObject(map[])), decode, pinata, DbOk, now);
            looked.reply == Reply(200, Some(LookupBody(docs[pda])))
  {
    LookupPathFindsAddress(pda);
  }

  /** A lookup body shows the record saved from `f`: every field the save
      wrote, the links from its content id, and the rest of the document
      stored before (`prev`). */
  predicate ShowsSaved(b: Doc, f: Fields, now: int, prev: Option<Doc>)
  {
    var doc := BuildDoc(f, now);
    (forall k :: k in doc ==> k in b && b[k] == doc[k])
    && "ipfsUri" in b && b["ipfsUri"] == VStr("ipfs://" + JsString(Field(f, "cid")))
    && "gatewayUrl" in b && b["gatewayUrl"] == VStr(PinataGateway + JsString(Field(f, "cid")))
    && (prev.Some? ==> forall k :: k in prev.value && k !in doc && k != "ipfsUri" && k != "gatewayUrl" ==> k in b && b[k] == prev.value[k])
  }

  /** The lookup body of a document just saved shows the saved record. */
  lemma SavedDocLooksUp(prev: Option<Doc>, pda: string, f: Fields, now: int)
    requires Field(f, "cid").Str? && Field(f, "cid").s != ""
    ensures ShowsSaved(LookupBody(Upserted(prev, pda, BuildDoc(f, now), now)), f, now, prev)
  {
    var doc := BuildDoc(f, now);
    var d := Upserted(prev, pda, doc, now);
    assert d["cid"] == doc["cid"];
    assert CidOf(d) == Some(Field(f, "cid").s);
  }

  /** A save of a record followed by a lookup of its (slash-free) address
      through the handler answers 200 with the saved record. */
  lemma SaveThenLookup(docs: map<string, Doc>, chunks: seq<seq<byte>>, f: Fields,
                       decode: string -> Option<string>, pinata: PinataReply, now: int)
    requires |Concat(chunks)| > 0 && HasRequired(f) && Field(f, "cid").Str?
    requires JsString(Field(f, "pda")) != "" && '/' !in JsString(Field(f, "pda"))
    ensures var pda := JsString(Field(f, "pda"));
            var saved := HandleOutcome(docs, Request("POST", SavePath, chunks, None, None, JsonObject(f)), decode, pinata, DbOk, now);
            var looked := HandleOutcome(saved.docs, Request("GET", CertsPrefix + pda, [], None, None, JsonObject(map[])), decode, pinata, DbOk, now);
            saved.reply.status == 200
            && looked.reply.status == 200 && looked.reply.body.Some?
            && ShowsSaved(looked.reply.body.value, f, now, StoredDoc(docs, pda))
  {
    var pda := JsString(Field(f, "pda"));
    var d := Upserted(StoredDoc(docs, pda), pda, BuildDoc(f, now), now);
    SaveRequestStores(docs, chunks, f, decode, pinata, now);
    var saved := HandleOutcome(docs, Request("POST", SavePath, chunks, None, None, JsonObject(f)), decode, pinata, DbOk, now);
    assert saved.docs == docs[pda := d];
    LookupRequestFinds(docs[pda := d], pda, decode, pinata, now);
    SavedDocLooksUp(StoredDoc(docs, pda), pda, f, now);
  }
}
