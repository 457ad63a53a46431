/** The current certificate page: the form wizard, the PDF attachment with
    its shortened digest, the spreadsheet import, and the submit flow that
    writes the certificate to the ledger first (with no file pointer) and
    only then uploads the file and saves its metadata off-chain. */
module AddCertificate {
  import opened JsCore
  import opened CertForm
  import opened CertSaga
  import IpfsGateway
  import OffchainClient

  /** `sha256FileHex`: the hex digest cut to its first 16 digits. */
  function ShortHex(d: Digest): (h: string)
    ensures |h| == 16 && h == HexOf(d)[..16]
  {
    ShortHashIsHexOfFirstBytes(d);
    Slice(HexOf(d), 0, 16)
  }

  /** The metadata record saved for an uploaded attachment. */
  function MetaFor(cert: string, f: Form, file: File, hashHex: string, wallet: string, u: IpfsGateway.Uploaded): OffchainClient.MetaPayload
  {
    OffchainClient.MetaPayload(cert, f.nomorIjazah, u.cid, Some(file.name), Some(hashHex), Some(wallet), None)
  }

  /** The submit flow as a whole: the calls made and the outcome. */
  function AddSaga(ctx: Context, f: Form, file: Option<File>, hashHex: string, derive: seq<string> -> string,
                   ledger: LedgerOutcome, upload: IpfsGateway.UploadResult, saveReply: OffchainClient.PostOutcome): SagaRun
  {
    if PreconditionError(ctx).Some? then SagaRun([], Failed(PreconditionError(ctx).value))
    else if file.Some? && !IsPdfFile(file) then SagaRun([], Failed(ErrorText(ErrorObject("Attachment must be a PDF."))))
    else if file.Some? && Size(file.value) > MaxPdfBytes then SagaRun([], Failed(ErrorText(ErrorObject("Attachment exceeds 2 MB."))))
    else if CertAddress(derive, f.nomorIjazah).None? then SagaRun([], Failed(ErrorText(SeedTooLong)))
    else
      var cert := CertAddress(derive, f.nomorIjazah).value;
      var write := AddCertificate(cert, ctx.adminPda.value, ctx.wallet.value, ArgsOf(f, "", ZeroDigest()));
      if ledger.Rejected? then SagaRun([write], Failed(ErrorText(ledger.err)))
      else if !(file.Some? && Size(file.value) > 0) then SagaRun([write], Succeeded(cert, "", ""))
      else
        UploadAndSave(write, cert, f, file.value, hashHex, ctx.wallet.value, upload, saveReply)
  }

  /** After a confirmed ledger write: the upload of a chosen non-empty file,
      then the metadata save. */
  function UploadAndSave(write: Call, cert: string, f: Form, file: File, hashHex: string, wallet: string,
                         upload: IpfsGateway.UploadResult, saveReply: OffchainClient.PostOutcome): SagaRun
  {
    var up := Upload(file.name, file.content);
    match upload
    case UploadThrew(m) => SagaRun([write, up], Failed(ErrorText(ErrorObject(m))))
    case UploadDone(u) =>
      var meta := MetaFor(cert, f, file, hashHex, wallet, u);
      var sent := if OffchainClient.HasRequiredFields(meta) then [SaveMeta(meta)] else [];
      match OffchainClient.SaveError(meta, saveReply)
      case Some(e) => SagaRun([write, up] + sent, Failed(ErrorText(ErrorObject(e))))
      case None => SagaRun([write, up] + sent, Succeeded(cert, u.ipfsUri, u.gatewayUrl))
  }

  /** A save whose request is rejected before any reply (a network error)
      fails the flow with the rejection's message, after the ledger write,
      the upload and the attempted save. */
  lemma RejectedSaveShowsItsMessage(write: Call, cert: string, f: Form, file: File, hashHex: string, wallet: string,
                                    u: IpfsGateway.Uploaded, m: string)
    requires OffchainClient.HasRequiredFields(MetaFor(cert, f, file, hashHex, wallet, u))
    ensures UploadAndSave(write, cert, f, file, hashHex, wallet, IpfsGateway.UploadDone(u), OffchainClient.PostRejected(m))
            == SagaRun([write, Upload(file.name, file.content), SaveMeta(MetaFor(cert, f, file, hashHex, wallet, u))],
                       Failed(ErrorText(ErrorObject(m))))
  {
  }

  /** A failed admin check, a bad attachment or a certificate number too
      long to derive an address from stops the flow before any call. */
  lemma ChecksPrecedeEveryCall(ctx: Context, f: Form, file: Option<File>, hashHex: string, derive: seq<string> -> string,
                               ledger: LedgerOutcome, upload: IpfsGateway.UploadResult, saveReply: OffchainClient.PostOutcome)
    ensures var run := AddSaga(ctx, f, file, hashHex, derive, ledger, upload, saveReply);
            (run.calls == [] <==> PreconditionError(ctx).Some? || (file.Some? && CheckPick(file) != PickAccepted)
                                   || CertAddress(derive, f.nomorIjazah).None?)
            && (run.calls == [] ==> run.result.Failed?)
            && (PreconditionError(ctx).Some? ==> run.result == Failed(PreconditionError(ctx).value))
            && ((PreconditionError(ctx).None? && (file.None? || CheckPick(file) == PickAccepted)
                 && CertAddress(derive, f.nomorIjazah).None?) ==> run.result == Failed(SeedTooLong.message))
  {
  }

  /** The ledger write comes first and never carries a file pointer: its
      URI is "" and its hash 32 zero bytes. */
  lemma LedgerWriteCarriesNoFile(ctx: Context, f: Form, file: Option<File>, hashHex: string, derive: seq<string> -> string,
                                 ledger: LedgerOutcome, upload: IpfsGateway.UploadResult, saveReply: OffchainClient.PostOutcome)
    ensures var run := AddSaga(ctx, f, file, hashHex, derive, ledger, upload, saveReply);
            (run.calls != [] ==> run.calls[0] == AddCertificate(CertAddress(derive, f.nomorIjazah).value, ctx.adminPda.value,
                                                                 ctx.wallet.value, ArgsOf(f, "", ZeroDigest())))
            && forall i :: 0 < i < |run.calls| ==> !run.calls[i].AddCertificate?
  {
  }

  /** Nothing is uploaded unless the ledger write was confirmed and a
      non-empty file was chosen; metadata is saved only after an upload. */
  lemma NoUploadUnlessConfirmed(ctx: Context, f: Form, file: Option<File>, hashHex: string, derive: seq<string> -> string,
                                ledger: LedgerOutcome, upload: IpfsGateway.UploadResult, saveReply: OffchainClient.PostOutcome)
    ensures var run := AddSaga(ctx, f, file, hashHex, derive, ledger, upload, saveReply);
            (Uploads(run.calls) ==> ledger.Confirmed? && file.Some? && Size(file.value) > 0
                                    && run.calls[1] == Upload(file.value.name, file.value.content))
            && (Uploads(run.calls) <==> |run.calls| >= 2)
            && (|run.calls| == 3 ==> upload.UploadDone? && run.calls[2].SaveMeta?)
  {
    var run := AddSaga(ctx, f, file, hashHex, derive, ledger, upload, saveReply);
    if Uploads(run.calls) {
      var i :| 0 <= i < |run.calls| && run.calls[i].Upload?;
    }
    if |run.calls| >= 2 {
      assert run.calls[1].Upload?;
    }
  }

  /** The success state is reached exactly when every awaited call
      succeeded; the address shown is the one derived from the number. */
  lemma SuccessIffEveryCallSucceeded(ctx: Context, f: Form, file: Option<File>, hashHex: string, derive: seq<string> -> string,
                                     ledger: LedgerOutcome, upload: IpfsGateway.UploadResult, saveReply: OffchainClient.PostOutcome)
    ensures var run := AddSaga(ctx, f, file, hashHex, derive, ledger, upload, saveReply);
            var attached := file.Some? && Size(file.value) > 0;
            (run.result.Succeeded? <==>
              PreconditionError(ctx).None? && (file.None? || CheckPick(file) == PickAccepted)
              && CertAddress(derive, f.nomorIjazah).Some? && ledger.Confirmed?
              && (attached ==>
                    (upload.UploadDone?
                     && OffchainClient.SaveError(MetaFor(CertAddress(derive, f.nomorIjazah).value, f, file.value, hashHex,
                                                         ctx.wallet.value, upload.value), saveReply).None?)))
            && (run.result.Succeeded? ==> Some(run.result.pda) == CertAddress(derive, f.nomorIjazah))
            && (run.result.Failed? ==> run.result.message != "")
  {
  }

  /** The body of the submit handler: the admin checks, the attachment
      re-check, the ledger write, then the upload and the metadata save,
      each awaited in turn; it returns the calls made and the outcome. */
  method Submit(ctx: Context, form: Form, file: Option<File>, fileHashHex: string, derive: seq<string> -> string,
                ledger: LedgerOutcome, upload: IpfsGateway.UploadResult, apiBase: string, saveReply: OffchainClient.PostOutcome)
    returns (calls: seq<Call>, result: SagaResult)
    ensures SagaRun(calls, result) == AddSaga(ctx, form, file, fileHashHex, derive, ledger, upload, saveReply)
  {
    calls := [];
    var pre := PreconditionError(ctx);
    if pre.Some? {
      return [], Failed(pre.value);
    }
    if file.Some? {
      if !IsPdfFile(file) {
        return [], Failed(ErrorText(ErrorObject("Attachment must be a PDF.")));
      }
      if Size(file.value) > MaxPdfBytes {
        return [], Failed(ErrorText(ErrorObject("Attachment exceeds 2 MB.")));
      }
    }
    var certPda := CertAddress(derive, form.nomorIjazah);
    if certPda.None? {
      return [], Failed(ErrorText(SeedTooLong));
    }
    var cert := certPda.value;
    calls := calls + [AddCertificate(cert, ctx.adminPda.value, ctx.wallet.value, ArgsOf(form, "", ZeroDigest()))];
    if ledger.Rejected? {
      return calls, Failed(ErrorText(ledger.err));
    }
    if !(file.Some? && Size(file.value) > 0) {
      return calls, Succeeded(cert, "", "");
    }
    calls, result := UploadThenSave(calls[0], cert, form, file.value, fileHashHex, ctx.wallet.value, upload, apiBase, saveReply);
  }

  /** The upload and the metadata save, awaited in turn. */
  method UploadThenSave(write: Call, cert: string, form: Form, file: File, fileHashHex: string, wallet: string,
                        upload: IpfsGateway.UploadResult, apiBase: string, saveReply: OffchainClient.PostOutcome)
    returns (calls: seq<Call>, result: SagaResult)
    ensures SagaRun(calls, result) == UploadAndSave(write, cert, form, file, fileHashHex, wallet, upload, saveReply)
  {
    calls := [write, Upload(file.name, file.content)];
    if upload.UploadThrew? {
      return calls, Failed(ErrorText(ErrorObject(upload.message)));
    }
    var up := upload.value;
    var meta := MetaFor(cert, form, file, fileHashHex, wallet, up);
    var sent, saved := OffchainClient.SaveCertMetaToApi(apiBase, meta, saveReply);
    if sent.Some? {
      calls := calls + [SaveMeta(sent.value.payload)];
    }
    if saved.Err? {
      return calls, Failed(ErrorText(ErrorObject(saved.message)));
    }
    result := Succeeded(cert, up.ipfsUri, up.gatewayUrl);
  }

  /** The page's state. */
  class Page {
    var step: nat
    var form: Form
    var file: Option<File>
    var fileHashHex: string
    var pda: Option<string>
    var fileUriSaved: string
    var fileUrlGateway: string
    var isSubmitting: bool
    var error: string
    var successMsg: string
    var excelRows: seq<Row>
    var selectedRowIndex: int

    ghost predicate Valid()
      reads this
    {
      step <= 2 && -1 <= selectedRowIndex < |excelRows|
    }

    constructor ()
      ensures Valid()
      ensures step == 0 && form == EmptyForm && file.None? && fileHashHex == "" && pda.None?
      ensures fileUriSaved == "" && fileUrlGateway == "" && !isSubmitting && error == "" && successMsg == ""
      ensures excelRows == [] && selectedRowIndex == -1
    {
      step, form, file, fileHashHex, pda := 0, EmptyForm, None, "", None;
      fileUriSaved, fileUrlGateway, isSubmitting, error, successMsg := "", "", false, "", "";
      excelRows, selectedRowIndex := [], -1;
    }

    /** `onPickFile(f)`: keeps a PDF of at most 2 MiB with its short digest;
        anything else clears the file and digest (with an error unless
        nothing was picked). */
    method OnPickFile(f: Option<File>, sha256: seq<byte> -> Digest)
      requires Valid()
      modifies this
      ensures Valid()
      ensures CheckPick(f) == PickAccepted ==>
        file == f && fileHashHex == ShortHex(sha256(f.value.content)) && error == ""
      ensures CheckPick(f) != PickAccepted ==> file.None? && fileHashHex == ""
      ensures CheckPick(f).PickRejected? ==> error == CheckPick(f).message
      ensures CheckPick(f).NothingPicked? ==> error == old(error)
      ensures step == old(step) && form == old(form) && pda == old(pda) && excelRows == old(excelRows)
      ensures selectedRowIndex == old(selectedRowIndex) && successMsg == old(successMsg)
      ensures fileUriSaved == old(fileUriSaved) && fileUrlGateway == old(fileUrlGateway) && isSubmitting == old(isSubmitting)
    {
      var outcome := CheckPick(f);
      match outcome {
        case NothingPicked =>
          file, fileHashHex := None, "";
        case PickRejected(m) =>
          error, file, fileHashHex := m, None, "";
        case PickAccepted =>
          error, file := "", f;
          fileHashHex := ShortHex(sha256(f.value.content));
      }
    }

    /** `goNext()` */
    method GoNext()
      requires Valid()
      modifies this`step, this`error
      ensures Valid()
      ensures (step, error) == CertForm.GoNext(old(step), form)
    {
      var next := CertForm.GoNext(step, form);
      step, error := next.0, next.1;
    }

    /** `goBack()` */
    method GoBack()
      requires Valid()
      modifies this`step, this`error
      ensures Valid()
      ensures step == CertForm.GoBack(old(step)) && error == ""
    {
      step, error := CertForm.GoBack(step), "";
    }

    /** `handleSubmit()`: the calls it makes are those of the flow, and the
        page shows the flow's outcome; the form and file are kept. */
    method HandleSubmit(ctx: Context, derive: seq<string> -> string, ledger: LedgerOutcome,
                        upload: IpfsGateway.UploadResult, apiBase: string, saveReply: OffchainClient.PostOutcome)
      returns (calls: seq<Call>)
      requires Valid()
      modifies this`error, this`successMsg, this`isSubmitting, this`pda, this`fileUriSaved, this`fileUrlGateway, this`step
      ensures Valid()
      ensures var run := AddSaga(ctx, form, file, fileHashHex, derive, ledger, upload, saveReply);
              calls == run.calls && !isSubmitting
              && (run.result.Succeeded? ==>
                    pda == Some(run.result.pda) && step == 2 && error == "" && successMsg == SuccessMessage
                    && (run.result.ipfsUri != "" ==> fileUriSaved == run.result.ipfsUri && fileUrlGateway == run.result.gatewayUrl)
                    && (run.result.ipfsUri == "" ==> fileUriSaved == old(fileUriSaved) && fileUrlGateway == old(fileUrlGateway)))
              && (run.result.Failed? ==>
                    error == run.result.message && successMsg == "" && step == old(step) && pda == old(pda)
                    && fileUriSaved == old(fileUriSaved) && fileUrlGateway == old(fileUrlGateway))
    {
      error, successMsg, isSubmitting := "", "", true;
      var result;
      calls, result := Submit(ctx, form, file, fileHashHex, derive, ledger, upload, apiBase, saveReply);
      ShowResult(result);
    }

    /** The end of `handleSubmit`: the outcome of the flow on the page; a
        success without an attachment keeps the earlier file links. */
    method ShowResult(result: SagaResult)
      requires Valid()
      modifies this`error, this`successMsg, this`isSubmitting, this`pda, this`fileUriSaved, this`fileUrlGateway, this`step
      ensures Valid() && !isSubmitting
      ensures result.Succeeded? ==>
                pda == Some(result.pda) && step == 2 && error == "" && successMsg == SuccessMessage
                && (result.ipfsUri != "" ==> fileUriSaved == result.ipfsUri && fileUrlGateway == result.gatewayUrl)
                && (result.ipfsUri == "" ==> fileUriSaved == old(fileUriSaved) && fileUrlGateway == old(fileUrlGateway))
      ensures result.Failed? ==>
                error == result.message && successMsg == "" && step == old(step) && pda == old(pda)
                && fileUriSaved == old(fileUriSaved) && fileUrlGateway == old(fileUrlGateway)
    {
      error, successMsg := "", "";
      match result {
        case Failed(m) =>
          error := m;
        case Succeeded(cert, ipfsUri, gatewayUrl) =>
          pda, successMsg := Some(cert), SuccessMessage;
          if ipfsUri != "" {
            fileUriSaved, fileUrlGateway := ipfsUri, gatewayUrl;
          }
          step := 2;
      }
      isSubmitting := false;
    }

    /** `resetAll()`: the form, file and results back to their initial
        values; the imported rows stay. */
    method ResetAll()
      requires Valid()
      modifies this
      ensures Valid()
      ensures step == 0 && form == EmptyForm && file.None? && fileHashHex == "" && pda.None?
      ensures fileUriSaved == "" && fileUrlGateway == "" && error == "" && successMsg == ""
      ensures excelRows == old(excelRows) && selectedRowIndex == old(selectedRowIndex) && isSubmitting == old(isSubmitting)
    {
      form, file, fileHashHex, pda := EmptyForm, None, "", None;
      fileUriSaved, fileUrlGateway, error, successMsg, step := "", "", "", "", 0;
    }

    /** The spreadsheet import: a sheet with fewer than two rows is refused
        and changes nothing; otherwise its rows replace the imported ones and
        the selection is cleared. */
    method ImportExcel(sheet: seq<seq<JsVal>>) returns (refused: bool)
      requires Valid()
      modifies this
      ensures Valid()
      ensures refused <==> |sheet| < 2
      ensures refused ==> excelRows == old(excelRows) && selectedRowIndex == old(selectedRowIndex)
      ensures !refused ==> |excelRows| == |sheet| - 1 && selectedRowIndex == -1
      ensures !refused ==> forall i :: 0 <= i < |excelRows| ==>
        excelRows[i] == RowObjectOf(Headers(sheet[0]), sheet[i + 1], |sheet[0]|)
      ensures form == old(form) && file == old(file) && step == old(step) && pda == old(pda)
    {
      var rows := ImportSheet(sheet);
      if rows.None? {
        return true;
      }
      excelRows, selectedRowIndex := rows.value, -1;
      refused := false;
    }

    /** Clicking a row (or its button) selects it and fills every field
        from it. */
    method UseRow(idx: nat)
      requires Valid() && idx < |excelRows|
      modifies this`selectedRowIndex, this`form
      ensures Valid()
      ensures selectedRowIndex == idx
      ensures form == RowToForm(excelRows[idx], NomorColumns)
    {
      selectedRowIndex := idx;
      form := RowToForm(excelRows[idx], NomorColumns);
    }
  }
}
