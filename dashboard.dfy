/** The certificate dashboard: key shortening, the timestamp text, the
    normalisation of ledger accounts, the metadata lookup and merge, the
    sort by certificate number, and the edit flow that replaces a
    certificate's attachment. */
module Dashboard {
  import opened JsCore
  import opened CertForm
  import opened CertSaga
  import IpfsGateway
  import OffchainClient
  import LocalServer

  // ---------------------------------------------------------------------
  // short and ts

  /** `short(s, head, tail)`: "" for an empty key, otherwise the first
      `head` characters, an ellipsis and the last `tail` characters. As in
      JavaScript, `slice(-0)` is the whole text. */
  function Short(s: string, head: nat, tail: nat): (r: string)
    ensures s == "" ==> r == ""
    ensures s != "" ==>
      r == s[..(if head < |s| then head else |s|)] + "…"
           + s[(if tail == 0 || tail >= |s| then 0 else |s| - tail)..]
  {
    if s == "" then "" else Slice(s, 0, head) + "…" + Slice(s, -(tail as int), |s|)
  }

  /** With the default lengths a long key keeps its first and last four characters. */
  lemma ShortKeepsBothEnds(s: string)
    requires |s| > 8
    ensures var r := Short(s, 4, 4);
            |r| == 9 && r[..4] == s[..4] && r[4] == '…' && r[5..] == s[|s| - 4..]
  {
  }

  /** The timestamp as the account holds it: missing (undefined or null),
      a number of seconds, or a value that does not read as a number. */
  datatype Unix = Missing | Seconds(n: int) | NotNumeric

  /** The text `ts` shows: a dash, or the local rendering of an instant
      (given in milliseconds). */
  datatype TsText = Dash | LocalTime(millis: int)

  /** The largest distance from the epoch a JavaScript date can hold. */
  const MaxDateMillis: int := 8_640_000_000_000_000

  function Ts(unix: Unix): (t: TsText)
    ensures t == Dash <==>
      unix.Missing? || unix.NotNumeric? || unix == Seconds(0)
      || (unix.Seconds? && (unix.n * 1000 > MaxDateMillis || unix.n * 1000 < -MaxDateMillis))
    ensures t.LocalTime? ==> t.millis == unix.n * 1000
  {
    match unix
    case Missing => Dash
    case NotNumeric => Dash
    case Seconds(n) =>
      if n == 0 then Dash
      else if n * 1000 > MaxDateMillis || n * 1000 < -MaxDateMillis then Dash
      else LocalTime(n * 1000)
  }

  // ---------------------------------------------------------------------
  // normalizeCert

  /** A number field of the account: missing, or a value. */
  datatype Num = NoNum | NumOf(value: int)

  /** A certificate account as decoded, with both the camelCase and the
      snake_case spelling of the fields that have two. */
  datatype RawCert = RawCert(
    management: JsVal,
    operatorPubkey: JsVal,
    operatorPubkeySnake: JsVal,
    operatorName: JsVal,
    operatorNameSnake: JsVal,
    programStudi: JsVal,
    programStudiSnake: JsVal,
    universitas: JsVal,
    kodeBatch: JsVal,
    kodeBatchSnake: JsVal,
    waktuMasuk: Num,
    waktuMasukSnake: Num,
    nim: JsVal,
    nama: JsVal,
    nomorIjazah: JsVal,
    nomorIjazahSnake: JsVal)

  /** A dashboard row: the account address and its normalised fields, with
      the content id and file link the metadata store may add. */
  datatype CertRow = CertRow(
    pubkey: string,
    management: JsVal,
    operatorPubkey: JsVal,
    operatorName: JsVal,
    programStudi: JsVal,
    universitas: JsVal,
    kodeBatch: JsVal,
    waktuMasuk: int,
    nim: JsVal,
    nama: JsVal,
    nomorIjazah: JsVal,
    fileUri: JsVal,
    cid: JsVal)

  /** `{ pubkey, ...normalizeCert(a) }` */
  function NormalizeCert(pubkey: string, a: RawCert): (r: CertRow)
    ensures r.pubkey == pubkey
    // a key object is shown as its base-58 text
    ensures a.management.Key? && a.management.base58 != "" ==> r.management == Str(a.management.base58)
    ensures !a.management.Key? ==> r.management == a.management
    ensures a.operatorPubkey.Key? && a.operatorPubkey.base58 != "" ==> r.operatorPubkey == Str(a.operatorPubkey.base58)
    ensures !a.operatorPubkey.Key? && a.operatorPubkeySnake.Key? && a.operatorPubkeySnake.base58 != "" ==>
      r.operatorPubkey == Str(a.operatorPubkeySnake.base58)
    ensures !a.operatorPubkey.Key? && !a.operatorPubkeySnake.Key? ==>
      r.operatorPubkey == (if Truthy(a.operatorPubkeySnake) then a.operatorPubkeySnake else a.operatorPubkey)
    // the camelCase spelling wins when it holds a value
    ensures r.operatorName == (if Truthy(a.operatorName) then a.operatorName else a.operatorNameSnake)
    ensures r.programStudi == (if Truthy(a.programStudi) then a.programStudi else a.programStudiSnake)
    ensures r.kodeBatch == (if Truthy(a.kodeBatch) then a.kodeBatch else a.kodeBatchSnake)
    ensures r.nomorIjazah == (if Truthy(a.nomorIjazah) then a.nomorIjazah else a.nomorIjazahSnake)
    ensures r.waktuMasuk == (if a.waktuMasuk.NumOf? then a.waktuMasuk.value
                             else if a.waktuMasukSnake.NumOf? then a.waktuMasukSnake.value else 0)
    ensures r.universitas == a.universitas && r.nim == a.nim && r.nama == a.nama
    // the ledger no longer carries a file: the link is empty until merged
    ensures r.fileUri == Str("") && r.cid == Undefined
  {
    CertRow(
      pubkey,
      Or(CallToBase58(a.management), a.management),
      Or(Or(Or(CallToBase58(a.operatorPubkey), CallToBase58(a.operatorPubkeySnake)), a.operatorPubkeySnake), a.operatorPubkey),
      Or(a.operatorName, a.operatorNameSnake),
      Or(a.programStudi, a.programStudiSnake),
      a.universitas,
      Or(a.kodeBatch, a.kodeBatchSnake),
      if a.waktuMasuk.NumOf? then a.waktuMasuk.value else if a.waktuMasukSnake.NumOf? then a.waktuMasukSnake.value else 0,
      a.nim,
      a.nama,
      Or(a.nomorIjazah, a.nomorIjazahSnake),
      Str(""),
      Undefined)
  }

  /** With plain-text keys the snake_case operator key wins over the
      camelCase one, unlike every other field with two spellings. */
  lemma SnakeOperatorKeyWinsAsText(a: RawCert, camel: string, snake: string)
    requires snake != "" && a.operatorPubkey == Str(camel) && a.operatorPubkeySnake == Str(snake)
    ensures NormalizeCert("", a).operatorPubkey == Str(snake)
  {
  }

  // ---------------------------------------------------------------------
  // fetchOffchain and the merge

  /** The stored metadata fields the dashboard uses. */
  datatype Meta = Meta(cid: JsVal, gatewayUrl: JsVal, operator: JsVal)

  /** The lookup's outcome: the request or the JSON parse threw, a non-ok
      reply, or a JSON body with its `ok` flag and fields. */
  datatype FetchReply = FetchThrew | ReplyNotOk | ReplyJson(okFlag: bool, meta: Meta)

  const CertsRoute: string := "/api/certs/"

  /** The lookup URL for an account address: the base without its trailing
      slashes, then the certs route and the address. */
  function LookupUrl(apiBase: string, pda: string): (u: string)
    ensures var b := StripTrailingSlashes(apiBase);
            |u| == |b| + |CertsRoute| + |pda|
            && u[..|b|] == b
            && u[|b|..] == CertsRoute + pda
  {
    var b := StripTrailingSlashes(apiBase);
    var u := b + CertsRoute + pda;
    assert u[..|b|] == b;
    assert u[|b|..] == CertsRoute + pda;
    u
  }

  /** The path of the lookup URL for a slash-free address is routed by the
      metadata server to its lookup, which reads back that address. */
  lemma LookupUrlReachesServerLookup(apiBase: string, pda: string)
    requires pda != "" && '/' !in pda
    ensures var path := LookupUrl(apiBase, pda)[|StripTrailingSlashes(apiBase)|..];
            LocalServer.RouteOf("GET", path) == LocalServer.LookupRoute
            && LocalServer.LastSegment(path) == pda
  {
    LocalServer.LookupPathFindsAddress(pda);
  }

  /** `fetchOffchain(pda)`, with a thrown request folded into `None` as the
      caller's `catch` does. */
  function FetchOffchain(reply: FetchReply): (m: Option<Meta>)
    ensures m.Some? <==> reply.ReplyJson? && reply.okFlag
    ensures m.Some? ==> m.value == reply.meta
  {
    match reply
    case ReplyJson(okFlag, meta) => if okFlag then Some(meta) else None
    case _ => None
  }

  /** A found record replaces the content id and file link, and the
      operator name when it has one. */
  function MergeMeta(r: CertRow, m: Option<Meta>): (out: CertRow)
    ensures m.None? ==> out == r
    ensures m.Some? ==>
      out == r.(cid := m.value.cid, fileUri := m.value.gatewayUrl,
                operatorName := if Truthy(m.value.operator) then m.value.operator else r.operatorName)
  {
    match m
    case None => r
    case Some(meta) => r.(cid := meta.cid, fileUri := meta.gatewayUrl, operatorName := Or(meta.operator, r.operatorName))
  }

  /** Each row merged with its own lookup. */
  function MergeAll(rows: seq<CertRow>, apiBase: string, fetch: string -> FetchReply): (out: seq<CertRow>)
    ensures |out| == |rows|
    ensures forall i :: 0 <= i < |rows| ==>
      out[i] == MergeMeta(rows[i], FetchOffchain(fetch(LookupUrl(apiBase, rows[i].pubkey))))
  {
    if rows == [] then []
    else [MergeMeta(rows[0], FetchOffchain(fetch(LookupUrl(apiBase, rows[0].pubkey))))] + MergeAll(rows[1..], apiBase, fetch)
  }

  /** The merge never changes which account a row shows or its ledger fields. */
  lemma MergeKeepsLedgerFields(rows: seq<CertRow>, apiBase: string, fetch: string -> FetchReply, i: nat)
    requires i < |rows|
    ensures var out := MergeAll(rows, apiBase, fetch)[i];
            out.pubkey == rows[i].pubkey && out.nomorIjazah == rows[i].nomorIjazah
            && out.nama == rows[i].nama && out.nim == rows[i].nim && out.waktuMasuk == rows[i].waktuMasuk
  {
  }

  // ---------------------------------------------------------------------
  // The sort by certificate number

  /** `a.nomorIjazah || ""` */
  function SortKey(r: CertRow): string
  {
    if Truthy(r.nomorIjazah) then JsString(r.nomorIjazah) else ""
  }

  predicate SortedByNomor(s: seq<CertRow>)
  {
    forall i, j :: 0 <= i < j < |s| ==> LexLe(SortKey(s[i]), SortKey(s[j]))
  }

  /** Inserts a row before the first row whose key is not smaller. */
  function Insert(x: CertRow, s: seq<CertRow>): (r: seq<CertRow>)
    ensures |r| == |s| + 1
    ensures multiset(r) == multiset(s) + multiset{x}
  {
    if s == [] then [x]
    else if LexLe(SortKey(x), SortKey(s[0])) then [x] + s
    else
      assert s == [s[0]] + s[1..];
      [s[0]] + Insert(x, s[1..])
  }

  /** `base.sort((a, b) => key(a).localeCompare(key(b)))`, as an insertion sort. */
  function SortByNomor(s: seq<CertRow>): (r: seq<CertRow>)
    ensures |r| == |s|
    ensures multiset(r) == multiset(s)
  {
    if s == [] then []
    else
      assert s == [s[0]] + s[1..];
      Insert(s[0], SortByNomor(s[1..]))
  }

  /** A row no greater than any row of a sorted sequence can go in front of it. */
  lemma ConsSorted(y: CertRow, t: seq<CertRow>)
    requires SortedByNomor(t)
    requires forall k :: 0 <= k < |t| ==> LexLe(SortKey(y), SortKey(t[k]))
    ensures SortedByNomor([y] + t)
  {
    var r := [y] + t;
    forall i, j | 0 <= i < j < |r|
      ensures LexLe(SortKey(r[i]), SortKey(r[j]))
    {
      assert r[j] == t[j - 1];
      if i > 0 {
        assert r[i] == t[i - 1];
      }
    }
  }

  /** The tail of a sorted sequence is sorted, and its head is no greater than any of it. */
  lemma SortedTail(s: seq<CertRow>)
    requires s != [] && SortedByNomor(s)
    ensures SortedByNomor(s[1..])
    ensures forall k :: 0 <= k < |s| - 1 ==> LexLe(SortKey(s[0]), SortKey(s[1..][k]))
  {
    forall i, j | 0 <= i < j < |s[1..]|
      ensures LexLe(SortKey(s[1..][i]), SortKey(s[1..][j]))
    {
      assert s[1..][i] == s[i + 1] && s[1..][j] == s[j + 1];
    }
    forall k | 0 <= k < |s| - 1
      ensures LexLe(SortKey(s[0]), SortKey(s[1..][k]))
    {
      assert s[1..][k] == s[k + 1];
    }
  }

  /** Every row of an insertion is the inserted row or a row of the sequence. */
  lemma {:induction false} InsertElements(x: CertRow, s: seq<CertRow>)
    ensures forall k :: 0 <= k < |Insert(x, s)| ==> Insert(x, s)[k] == x || Insert(x, s)[k] in s
  {
    if s != [] && !LexLe(SortKey(x), SortKey(s[0])) {
      InsertElements(x, s[1..]);
      var r := Insert(x, s);
      var t := Insert(x, s[1..]);
      assert r == [s[0]] + t;
      forall k | 0 <= k < |r|
        ensures r[k] == x || r[k] in s
      {
        if k > 0 {
          assert r[k] == t[k - 1];
        }
      }
    }
  }

  lemma {:induction false} InsertKeepsOrder(x: CertRow, s: seq<CertRow>)
    requires SortedByNomor(s)
    ensures SortedByNomor(Insert(x, s))
  {
    if s == [] {
    } else if LexLe(SortKey(x), SortKey(s[0])) {
      forall k | 0 <= k < |s|
        ensures LexLe(SortKey(x), SortKey(s[k]))
      {
        if k > 0 {
          LexLeTransitive(SortKey(x), SortKey(s[0]), SortKey(s[k]));
        }
      }
      ConsSorted(x, s);
      assert Insert(x, s) == [x] + s;
    } else {
      SortedTail(s);
      InsertKeepsOrder(x, s[1..]);
      InsertElements(x, s[1..]);
      LexLeTotal(SortKey(x), SortKey(s[0]));
      var t := Insert(x, s[1..]);
      forall k | 0 <= k < |t|
        ensures LexLe(SortKey(s[0]), SortKey(t[k]))
      {
        if t[k] != x {
          var m :| 0 <= m < |s[1..]| && s[1..][m] == t[k];
        }
      }
      ConsSorted(s[0], t);
      assert Insert(x, s) == [s[0]] + t;
    }
  }

  /** The rows come out in ascending order of certificate number, a
      missing number counting as "", and the sort keeps every row. */
  lemma {:induction false} SortIsOrderedPermutation(s: seq<CertRow>)
    ensures SortedByNomor(SortByNomor(s))
    ensures multiset(SortByNomor(s)) == multiset(s)
  {
    if s != [] {
      SortIsOrderedPermutation(s[1..]);
      InsertKeepsOrder(s[0], SortByNomor(s[1..]));
    }
  }

  // ---------------------------------------------------------------------
  // The edit flow

  const UpdateNote: string := "Updated via Dashboard"
  const UpdateOk: string := "Update successful!"
  const UpdateFailedPrefix: string := "Update failed: "

  /** A failure alert never reads as the success alert. */
  lemma FailedIsNotOk(m: string)
    ensures UpdateFailedPrefix + m != UpdateOk
  {
    assert (UpdateFailedPrefix + m)[7] == 'f';
    assert UpdateOk[7] == 's';
  }

  /** A row value as text for the metadata record; a falsy value reads as
      "" so that the required-field check refuses it. */
  function TextOf(v: JsVal): (t: string)
    ensures Truthy(v) ==> t == JsString(v)
    ensures !Truthy(v) ==> t == ""
  {
    if Truthy(v) then JsString(v) else ""
  }

  /** The record `handleSaveEdit` saves for a row, given the content id and file name to keep. */
  function EditPayload(target: CertRow, cid: string, filename: Option<string>, wallet: string): OffchainClient.MetaPayload
  {
    OffchainClient.MetaPayload(target.pubkey, TextOf(target.nomorIjazah), cid, filename, None, Some(wallet), Some(UpdateNote))
  }

  datatype EditRun = EditRun(calls: seq<Call>, alert: string)

  /** The edit flow as a whole: the upload of a newly chosen file, the
      metadata save, and the alert shown. */
  function SaveEdit(target: CertRow, editFile: Option<File>, upload: IpfsGateway.UploadResult,
                    saveReply: OffchainClient.PostOutcome, wallet: string): EditRun
  {
    if editFile.Some? && upload.UploadThrew? then
      EditRun([Upload(editFile.value.name, editFile.value.content)], UpdateFailedPrefix + upload.message)
    else
      var ups := if editFile.Some? then [Upload(editFile.value.name, editFile.value.content)] else [];
      var cid := if editFile.Some? then upload.value.cid else TextOf(target.cid);
      var filename := if editFile.Some? then Some(editFile.value.name) else None;
      var p := EditPayload(target, cid, filename, wallet);
      var sent := if OffchainClient.HasRequiredFields(p) then [SaveMeta(p)] else [];
      match OffchainClient.SaveError(p, saveReply)
      case Some(e) => EditRun(ups + sent, UpdateFailedPrefix + e)
      case None => EditRun(ups + sent, UpdateOk)
  }

  /** Without a new file the stored content id is kept and nothing is
      uploaded; with one, the upload comes before the save, which carries
      the new content id and file name. Every save carries the fixed note. */
  lemma EditKeepsCidUnlessNewFile(target: CertRow, editFile: Option<File>, upload: IpfsGateway.UploadResult,
                                  saveReply: OffchainClient.PostOutcome, wallet: string)
    ensures var run := SaveEdit(target, editFile, upload, saveReply, wallet);
            (editFile.None? ==>
               !Uploads(run.calls)
               && forall i :: 0 <= i < |run.calls| ==> run.calls[i].SaveMeta? && run.calls[i].payload.cid == TextOf(target.cid))
            && (editFile.Some? ==>
               run.calls[0] == Upload(editFile.value.name, editFile.value.content)
               && forall i :: 1 <= i < |run.calls| ==>
                    (run.calls[i].SaveMeta? && upload.UploadDone? && run.calls[i].payload.cid == upload.value.cid
                     && run.calls[i].payload.filename == Some(editFile.value.name)))
            && (forall i :: 0 <= i < |run.calls| && run.calls[i].SaveMeta? ==> run.calls[i].payload.note == Some(UpdateNote))
  {
  }

  /** A save request that is rejected before any reply alerts "Update
      failed: " with the rejection's message. */
  lemma RejectedEditSaveAlertsItsMessage(target: CertRow, editFile: Option<File>, upload: IpfsGateway.UploadResult,
                                         m: string, wallet: string)
    requires editFile.Some? ==> upload.UploadDone?
    requires OffchainClient.HasRequiredFields(
               EditPayload(target, if editFile.Some? then upload.value.cid else TextOf(target.cid),
                           if editFile.Some? then Some(editFile.value.name) else None, wallet))
    ensures SaveEdit(target, editFile, upload, OffchainClient.PostRejected(m), wallet).alert == UpdateFailedPrefix + m
  {
  }

  /** The edit succeeds exactly when the upload (if any) and the save both do. */
  lemma EditSucceedsIffSaved(target: CertRow, editFile: Option<File>, upload: IpfsGateway.UploadResult,
                             saveReply: OffchainClient.PostOutcome, wallet: string)
    ensures var run := SaveEdit(target, editFile, upload, saveReply, wallet);
            run.alert == UpdateOk <==>
              (editFile.Some? ==> upload.UploadDone?)
              && OffchainClient.SaveError(EditPayload(target, if editFile.Some? then upload.value.cid else TextOf(target.cid),
                                                      if editFile.Some? then Some(editFile.value.name) else None, wallet),
                                          saveReply).None?
  {
    var run := SaveEdit(target, editFile, upload, saveReply, wallet);
    if editFile.Some? && upload.UploadThrew? {
      FailedIsNotOk(upload.message);
    } else {
      var cid := if editFile.Some? then upload.value.cid else TextOf(target.cid);
      var p := EditPayload(target, cid, if editFile.Some? then Some(editFile.value.name) else None, wallet);
      if OffchainClient.SaveError(p, saveReply).Some? {
        FailedIsNotOk(OffchainClient.SaveError(p, saveReply).value);
      }
    }
  }

  // ---------------------------------------------------------------------
  // The page

  /** The account listing's outcome: the decoded accounts with their addresses, or a thrown error. */
  datatype Accounts = Listed(accounts: seq<(string, RawCert)>) | ListThrew(err: Thrown)

  /** The account filter `load` asks for: owned by the wallet (its key at
      offset 8) or none. */
  datatype Memcmp = Memcmp(offset: nat, bytes: string)

  function AccountFilter(onlyMine: bool, wallet: string): (f: Option<Memcmp>)
    ensures f.Some? <==> onlyMine
    ensures f.Some? ==> f.value == Memcmp(8, wallet)
  {
    if onlyMine then Some(Memcmp(8, wallet)) else None
  }

  /** The normalised rows, in listing order. */
  function Normalized(accounts: seq<(string, RawCert)>): (rs: seq<CertRow>)
    ensures |rs| == |accounts|
    ensures forall i :: 0 <= i < |accounts| ==> rs[i] == NormalizeCert(accounts[i].0, accounts[i].1)
  {
    if accounts == [] then [] else [NormalizeCert(accounts[0].0, accounts[0].1)] + Normalized(accounts[1..])
  }

  /** The rows `load` shows for a listing. */
  function LoadedRows(accounts: seq<(string, RawCert)>, apiBase: string, fetch: string -> FetchReply): seq<CertRow>
  {
    MergeAll(SortByNomor(Normalized(accounts)), apiBase, fetch)
  }

  /** The rows shown are a permutation of the listed accounts, each
      normalised and merged with its own lookup, in ascending order of
      certificate number. */
  lemma LoadedRowsAreSortedAccounts(accounts: seq<(string, RawCert)>, apiBase: string, fetch: string -> FetchReply)
    ensures var rows := LoadedRows(accounts, apiBase, fetch);
            |rows| == |accounts|
            && multiset(rows) == multiset(MergeAll(Normalized(accounts), apiBase, fetch))
            && forall i, j :: 0 <= i < j < |rows| ==> LexLe(SortKey(rows[i]), SortKey(rows[j]))
  {
    MergedSortIsSorted(Normalized(accounts), apiBase, fetch);
    SortIsOrderedPermutation(Normalized(accounts));
    MergePreservesPermutation(SortByNomor(Normalized(accounts)), Normalized(accounts), apiBase, fetch);
  }

  lemma MergeAllConcat(a: seq<CertRow>, b: seq<CertRow>, apiBase: string, fetch: string -> FetchReply)
    ensures MergeAll(a + b, apiBase, fetch) == MergeAll(a, apiBase, fetch) + MergeAll(b, apiBase, fetch)
  {
    var l := MergeAll(a + b, apiBase, fetch);
    var r := MergeAll(a, apiBase, fetch) + MergeAll(b, apiBase, fetch);
    assert |l| == |r|;
    forall i | 0 <= i < |l|
      ensures l[i] == r[i]
    {
      if i >= |a| {
        assert (a + b)[i] == b[i - |a|];
      }
    }
  }

  /** Each row's merge depends on the row alone, so merging two
      permutations of the same rows gives permutations of each other. */
  lemma {:induction false} MergePreservesPermutation(s1: seq<CertRow>, s2: seq<CertRow>, apiBase: string, fetch: string -> FetchReply)
    requires multiset(s1) == multiset(s2)
    ensures multiset(MergeAll(s1, apiBase, fetch)) == multiset(MergeAll(s2, apiBase, fetch))
    decreases |s1|
  {
    if s1 != [] {
      var x := s1[0];
      assert x in multiset(s2);
      var k :| 0 <= k < |s2| && s2[k] == x;
      var rest := s2[..k] + s2[k + 1..];
      RemoveAtMultiset(s2, k);
      assert s1 == [x] + s1[1..];
      assert multiset(s1[1..]) == multiset(rest);
      MergePreservesPermutation(s1[1..], rest, apiBase, fetch);
      MergeMatchedHeads(s1, s2, k, apiBase, fetch);
    }
  }

  /** One step of the permutation proof: when the tail of s1 and s2
      without its k-th row merge to the same multiset, and that row is
      the head of s1, so do s1 and s2. */
  lemma MergeMatchedHeads(s1: seq<CertRow>, s2: seq<CertRow>, k: nat, apiBase: string, fetch: string -> FetchReply)
    requires s1 != [] && k < |s2| && s2[k] == s1[0]
    requires multiset(MergeAll(s1[1..], apiBase, fetch)) == multiset(MergeAll(s2[..k] + s2[k + 1..], apiBase, fetch))
    ensures multiset(MergeAll(s1, apiBase, fetch)) == multiset(MergeAll(s2, apiBase, fetch))
  {
    MergeAllRemoveAt(s2, k, apiBase, fetch);
    var y := MergeAll(s2, apiBase, fetch)[k];
    assert MergeAll(s1, apiBase, fetch) == [y] + MergeAll(s1[1..], apiBase, fetch);
    ConsPermutation(MergeAll(s1, apiBase, fetch), MergeAll(s1[1..], apiBase, fetch),
                    MergeAll(s2[..k] + s2[k + 1..], apiBase, fetch), MergeAll(s2, apiBase, fetch), y);
  }

  /** A row put in front of one of two permutations keeps them permutations. */
  lemma ConsPermutation(a: seq<CertRow>, ta: seq<CertRow>, tb: seq<CertRow>, b: seq<CertRow>, y: CertRow)
    requires a == [y] + ta && multiset(ta) == multiset(tb)
    requires multiset(b) == multiset(tb) + multiset{y}
    ensures multiset(a) == multiset(b)
  {
  }

  /** Taking out the element at k takes one copy of it out of the multiset. */
  lemma RemoveAtMultiset(s: seq<CertRow>, k: nat)
    requires k < |s|
    ensures multiset(s[..k] + s[k + 1..]) == multiset(s) - multiset{s[k]}
  {
    assert s == s[..k] + [s[k]] + s[k + 1..];
  }

  /** Merging commutes with taking out the row at k. */
  lemma MergeAllRemoveAt(s: seq<CertRow>, k: nat, apiBase: string, fetch: string -> FetchReply)
    requires k < |s|
    ensures multiset(MergeAll(s, apiBase, fetch))
            == multiset(MergeAll(s[..k] + s[k + 1..], apiBase, fetch)) + multiset{MergeAll(s, apiBase, fetch)[k]}
  {
    assert s == s[..k] + [s[k]] + s[k + 1..];
    MergeAllConcat(s[..k] + [s[k]], s[k + 1..], apiBase, fetch);
    MergeAllConcat(s[..k], [s[k]], apiBase, fetch);
    MergeAllConcat(s[..k], s[k + 1..], apiBase, fetch);
  }

  /** Merging the sorted rows with their lookups keeps them sorted. */
  lemma MergedSortIsSorted(s: seq<CertRow>, apiBase: string, fetch: string -> FetchReply)
    ensures |MergeAll(SortByNomor(s), apiBase, fetch)| == |s|
    ensures SortedByNomor(MergeAll(SortByNomor(s), apiBase, fetch))
  {
    var sorted := SortByNomor(s);
    SortIsOrderedPermutation(s);
    MergeKeepsKeys(sorted, apiBase, fetch);
    SameKeysSorted(sorted, MergeAll(sorted, apiBase, fetch));
  }

  lemma MergeKeepsKeys(rows: seq<CertRow>, apiBase: string, fetch: string -> FetchReply)
    ensures forall i :: 0 <= i < |rows| ==> SortKey(MergeAll(rows, apiBase, fetch)[i]) == SortKey(rows[i])
  {
    var out := MergeAll(rows, apiBase, fetch);
    forall i | 0 <= i < |rows|
      ensures SortKey(out[i]) == SortKey(rows[i])
    {
      assert out[i].nomorIjazah == rows[i].nomorIjazah;
    }
  }

  /** Rows with the same keys, position by position, are sorted alike. */
  lemma SameKeysSorted(a: seq<CertRow>, b: seq<CertRow>)
    requires |a| == |b| && SortedByNomor(a)
    requires forall i :: 0 <= i < |a| ==> SortKey(a[i]) == SortKey(b[i])
    ensures SortedByNomor(b)
  {
  }

  /** The error text of a failed load: the message, else the text form. */
  function LoadError(t: Thrown): string
  {
    if t.message != "" then t.message else t.asText
  }

  /** The body of `handleSaveEdit` for a chosen row: the upload of a new
      file, then the metadata save; it returns the calls and the alert. */
  method RunEdit(target: CertRow, editFile: Option<File>, upload: IpfsGateway.UploadResult,
                 saveBase: string, saveReply: OffchainClient.PostOutcome, wallet: string)
    returns (calls: seq<Call>, alert: string)
    ensures EditRun(calls, alert) == SaveEdit(target, editFile, upload, saveReply, wallet)
  {
    calls := [];
    var finalCid := TextOf(target.cid);
    var finalFilename: Option<string> := None;
    if editFile.Some? {
      calls := calls + [Upload(editFile.value.name, editFile.value.content)];
      if upload.UploadThrew? {
        return calls, UpdateFailedPrefix + upload.message;
      }
      finalCid, finalFilename := upload.value.cid, Some(editFile.value.name);
    }
    var payload := EditPayload(target, finalCid, finalFilename, wallet);
    ghost var ups := calls;
    assert ups == if editFile.Some? then [Upload(editFile.value.name, editFile.value.content)] else [];
    var sent, saved := OffchainClient.SaveCertMetaToApi(saveBase, payload, saveReply);
    if sent.Some? {
      calls := calls + [SaveMeta(payload)];
    }
    assert calls == ups + if OffchainClient.HasRequiredFields(payload) then [SaveMeta(payload)] else [];
    if saved.Err? {
      return calls, UpdateFailedPrefix + saved.message;
    }
    alert := UpdateOk;
  }

  class Page {
    var onlyMine: bool
    var rows: seq<CertRow>
    var busy: bool
    var err: string
    var editModalOpen: bool
    var editTarget: Option<CertRow>
    var editFile: Option<File>
    var isSaving: bool

    constructor ()
      ensures onlyMine && rows == [] && !busy && err == ""
      ensures !editModalOpen && editTarget.None? && editFile.None? && !isSaving
    {
      onlyMine, rows, busy, err := true, [], false, "";
      editModalOpen, editTarget, editFile, isSaving := false, None, None, false;
    }

    /** `load()`: the filter asked for, then either the merged and sorted
        rows or the error text; the rows are kept when the listing fails. */
    method Load(wallet: string, listing: Accounts, apiBase: string, fetch: string -> FetchReply)
      returns (filter: Option<Memcmp>)
      modifies this`rows, this`err, this`busy
      ensures filter == AccountFilter(onlyMine, wallet)
      ensures !busy
      ensures listing.Listed? ==> rows == LoadedRows(listing.accounts, apiBase, fetch) && err == ""
      ensures listing.ListThrew? ==> rows == old(rows) && err == LoadError(listing.err)
    {
      err, busy := "", true;
      filter := AccountFilter(onlyMine, wallet);
      match listing {
        case ListThrew(e) =>
          err := LoadError(e);
        case Listed(accs) =>
          var base := Normalized(accs);
          base := SortByNomor(base);
          rows := MergeAll(base, apiBase, fetch);
      }
      busy := false;
    }

    /** `openEditModal(row)` */
    method OpenEditModal(row: CertRow)
      modifies this`editTarget, this`editFile, this`editModalOpen
      ensures editTarget == Some(row) && editFile.None? && editModalOpen
    {
      editTarget, editFile, editModalOpen := Some(row), None, true;
    }

    /** `handleSaveEdit()`: without a target nothing happens; otherwise the
        calls are those of the edit flow, the alert is its outcome, and the
        dialog closes (and a reload follows) only on success. */
    method HandleSaveEdit(upload: IpfsGateway.UploadResult, saveBase: string, saveReply: OffchainClient.PostOutcome, wallet: string)
      returns (calls: seq<Call>, alert: Option<string>, reload: bool)
      modifies this`isSaving, this`editModalOpen
      ensures editTarget.None? ==> calls == [] && alert.None? && !reload && editModalOpen == old(editModalOpen)
      ensures editTarget.Some? ==>
        var run := SaveEdit(editTarget.value, editFile, upload, saveReply, wallet);
        calls == run.calls && alert == Some(run.alert) && !isSaving
        && (reload <==> run.alert == UpdateOk)
        && (editModalOpen == (old(editModalOpen) && run.alert != UpdateOk))
      ensures editTarget.None? ==> isSaving == old(isSaving)
    {
      calls, alert, reload := [], None, false;
      if editTarget.None? {
        return;
      }
      isSaving := true;
      var text;
      calls, text := RunEdit(editTarget.value, editFile, upload, saveBase, saveReply, wallet);
      alert := Some(text);
      if text == UpdateOk {
        editModalOpen, reload := false, true;
      }
      isSaving := false;
    }
  }
}
