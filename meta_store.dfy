/** The off-chain metadata store shared by the three HTTP handlers: the
    `certs` collection of documents keyed by the certificate address (`pda`),
    the normalised document the save routes build, and the upsert that sets
    `createdAt` only when it inserts. */
module MetaStore {
  import opened JsCore

  /** A field value of a stored document or of a JSON reply. */
  datatype Value = VStr(s: string) | VNull | VBool(b: bool) | VNat(n: nat) | VDate(t: int)

  type Doc = map<string, Value>

  /** A decoded JSON request object: field name to value; a missing field is `undefined`. */
  type Fields = map<string, JsVal>

  function Field(f: Fields, name: string): (v: JsVal)
    ensures name !in f ==> v == Undefined
  {
    if name in f then f[name] else Undefined
  }

  /** `v ? String(v) : null` */
  function StringOrNull(v: JsVal): (r: Value)
    ensures Truthy(v) <==> r.VStr?
    ensures Truthy(v) ==> r == VStr(JsString(v))
  {
    if Truthy(v) then VStr(JsString(v)) else VNull
  }

  /** An optional field is stored as its string form when truthy, else as null. */
  predicate OptionalStored(d: Doc, f: Fields, k: string)
  {
    k in d && (d[k] == VNull <==> !Truthy(Field(f, k))) && (Truthy(Field(f, k)) ==> d[k] == VStr(JsString(Field(f, k))))
  }

  /** `!pda || !nomor_ijazah || !cid` is false. */
  predicate HasRequired(f: Fields)
  {
    Truthy(Field(f, "pda")) && Truthy(Field(f, "nomor_ijazah")) && Truthy(Field(f, "cid"))
  }

  /** The document both save routes write: the required fields as strings,
      each optional field as a string or null, and the update time. */
  function BuildDoc(f: Fields, now: int): (d: Doc)
    ensures d.Keys == {"pda", "nomor_ijazah", "cid", "filename", "sha256", "operator", "note", "updatedAt"}
    ensures d["pda"] == VStr(JsString(Field(f, "pda")))
    ensures d["nomor_ijazah"] == VStr(JsString(Field(f, "nomor_ijazah")))
    ensures d["cid"] == VStr(JsString(Field(f, "cid")))
    ensures OptionalStored(d, f, "filename") && OptionalStored(d, f, "sha256")
    ensures OptionalStored(d, f, "operator") && OptionalStored(d, f, "note")
    ensures d["updatedAt"] == VDate(now)
    ensures "createdAt" !in d
  {
    map[
      "pda" := VStr(JsString(Field(f, "pda"))),
      "nomor_ijazah" := VStr(JsString(Field(f, "nomor_ijazah"))),
      "cid" := VStr(JsString(Field(f, "cid"))),
      "filename" := StringOrNull(Field(f, "filename")),
      "sha256" := StringOrNull(Field(f, "sha256")),
      "operator" := StringOrNull(Field(f, "operator")),
      "note" := StringOrNull(Field(f, "note")),
      "updatedAt" := VDate(now)]
  }

  /** The document an upsert on `pda` leaves: the `$set` fields over the old
      document, or, on insert, the key field, the `$set` fields and `createdAt`. */
  function Upserted(existing: Option<Doc>, pda: string, update: Doc, now: int): (d: Doc)
    requires "createdAt" !in update
    ensures forall k :: k in update ==> k in d && d[k] == update[k]
    ensures existing.Some? ==> forall k :: k in existing.value && k !in update ==> k in d && d[k] == existing.value[k]
    ensures existing.Some? ==> d.Keys == existing.value.Keys + update.Keys
    ensures existing.None? ==> d.Keys == update.Keys + {"pda", "createdAt"} && d["createdAt"] == VDate(now)
    ensures existing.None? && "pda" !in update ==> d["pda"] == VStr(pda)
  {
    match existing
    case Some(prev) => prev + update
    case None => map["pda" := VStr(pda), "createdAt" := VDate(now)] + update
  }

  /** The `certs` collection, one document per address. */
  class CertStore {
    var docs: map<string, Doc>

    /** Every stored document carries its own key as a string `pda` and a creation time. */
    ghost predicate Valid()
      reads this
    {
      forall p :: p in docs ==> "pda" in docs[p] && docs[p]["pda"] == VStr(p) && "createdAt" in docs[p]
    }

    constructor ()
      ensures Valid() && docs == map[]
    {
      docs := map[];
    }

    /** `findOne({ pda })` */
    function FindOne(pda: string): (r: Option<Doc>)
      reads this
      ensures r.Some? <==> pda in docs
      ensures r.Some? ==> r.value == docs[pda]
    {
      if pda in docs then Some(docs[pda]) else None
    }

    /** `updateOne({ pda }, { $set: update, $setOnInsert: { createdAt: now } }, { upsert: true })` */
    method Upsert(pda: string, update: Doc, now: int)
      requires Valid()
      requires "createdAt" !in update
      requires "pda" in update ==> update["pda"] == VStr(pda)
      modifies this
      ensures Valid()
      ensures docs == old(docs)[pda := Upserted(old(FindOne(pda)), pda, update, now)]
    {
      var existing := FindOne(pda);
      docs := docs[pda := Upserted(existing, pda, update, now)];
    }
  }

  /** A document's creation time never changes once it is inserted: any
      later upsert of the same address keeps it. */
  lemma {:induction false} CreatedAtIsStable(d: Doc, pda: string, sets: seq<Doc>, times: seq<int>)
    requires "createdAt" in d
    requires |times| == |sets|
    requires forall i :: 0 <= i < |sets| ==> "createdAt" !in sets[i]
    ensures "createdAt" in UpsertAll(d, pda, sets, times)
    ensures UpsertAll(d, pda, sets, times)["createdAt"] == d["createdAt"]
    decreases |sets|
  {
    if sets != [] {
      var d1 := Upserted(Some(d), pda, sets[0], times[0]);
      CreatedAtIsStable(d1, pda, sets[1..], times[1..]);
    }
  }

  /** A sequence of upserts against one existing document. */
  function UpsertAll(d: Doc, pda: string, sets: seq<Doc>, times: seq<int>): Doc
    requires |times| == |sets|
    requires forall i :: 0 <= i < |sets| ==> "createdAt" !in sets[i]
    decreases |sets|
  {
    if sets == [] then d else UpsertAll(Upserted(Some(d), pda, sets[0], times[0]), pda, sets[1..], times[1..])
  }

  /** Saving the same record twice leaves the same document as saving it
      once, except for the refreshed update time. */
  lemma SaveTwiceIsSaveOnce(existing: Option<Doc>, f: Fields, pda: string, t1: int, t2: int)
    ensures var once := Upserted(existing, pda, BuildDoc(f, t1), t1);
            var twice := Upserted(Some(once), pda, BuildDoc(f, t2), t2);
            twice == once["updatedAt" := VDate(t2)]
  {
    var once := Upserted(existing, pda, BuildDoc(f, t1), t1);
    var twice := Upserted(Some(once), pda, BuildDoc(f, t2), t2);
    assert twice.Keys == once.Keys;
  }
}
