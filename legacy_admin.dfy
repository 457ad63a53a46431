/** The older certificate page: the same form wizard, but the submit flow
    hashes and uploads the attachment first and then writes the ledger
    record with the real file pointer and digest. */
module LegacyAdmin {
  import opened JsCore
  import opened CertForm
  import opened CertSaga
  import IpfsGateway

  /** `sha256FileHex`: the whole digest as lowercase hex, not shortened. */
  function FullHex(d: Digest): (h: string)
    ensures |h| == 64
    ensures forall k :: 0 <= k < |h| ==> h[k] in HexDigits
    ensures FromHex(h).Some? && FromHex(h).value == d
  {
    HexOfIsLowercaseHex(d);
    HexRoundTrip(d);
    HexOf(d)
  }

  /** A non-empty attachment is hashed and uploaded; a missing or empty one is not. */
  predicate Attached(file: Option<File>)
  {
    file.Some? && Size(file.value) > 0
  }

  /** The submit flow as a whole. `toGateway` is the client's conversion of
      an `ipfs://` URI into a gateway link. */
  function LegacySaga(ctx: Context, f: Form, file: Option<File>, sha256: seq<byte> -> Digest,
                      derive: seq<string> -> string, upload: IpfsGateway.UploadResult,
                      ledger: LedgerOutcome, toGateway: string -> string): SagaRun
  {
    if PreconditionError(ctx).Some? then SagaRun([], Failed(MessageOrDefault(ErrorObject(PreconditionError(ctx).value))))
    else if Attached(file) && upload.UploadThrew? then
      SagaRun([Upload(file.value.name, file.value.content)], Failed(MessageOrDefault(ErrorObject(upload.message))))
    else
      var ups := if Attached(file) then [Upload(file.value.name, file.value.content)] else [];
      var uri := if Attached(file) then upload.value.ipfsUri else "";
      var gw := if Attached(file) then upload.value.gatewayUrl else "";
      var hash: seq<byte> := if Attached(file) then sha256(file.value.content) else ZeroDigest();
      match CertAddress(derive, f.nomorIjazah)
      case None => SagaRun(ups, Failed(MessageOrDefault(SeedTooLong)))
      case Some(cert) =>
        var write := AddCertificate(cert, ctx.adminPda.value, ctx.wallet.value, ArgsOf(f, uri, hash));
        match ledger
        case Rejected(err) => SagaRun(ups + [write], Failed(MessageOrDefault(err)))
        case Confirmed => SagaRun(ups + [write], Succeeded(cert, uri, if gw != "" then gw else toGateway(uri)))
  }

  /** A failed admin check stops the flow before any call, with its
      message; otherwise only a number too long for an address seed, with no
      attachment to upload first, leaves the flow without a call. */
  lemma LegacyChecksPrecedeEveryCall(ctx: Context, f: Form, file: Option<File>, sha256: seq<byte> -> Digest,
                                     derive: seq<string> -> string, upload: IpfsGateway.UploadResult,
                                     ledger: LedgerOutcome, toGateway: string -> string)
    ensures var run := LegacySaga(ctx, f, file, sha256, derive, upload, ledger, toGateway);
            (run.calls == [] <==> PreconditionError(ctx).Some? || (!Attached(file) && CertAddress(derive, f.nomorIjazah).None?))
            && (PreconditionError(ctx).Some? ==> run.result == Failed(PreconditionError(ctx).value))
  {
  }

  /** Without a non-empty attachment the ledger write is the only call and
      carries URI "" and 32 zero bytes. */
  lemma NoAttachmentWritesEmptyPointer(ctx: Context, f: Form, file: Option<File>, sha256: seq<byte> -> Digest,
                                       derive: seq<string> -> string, upload: IpfsGateway.UploadResult,
                                       ledger: LedgerOutcome, toGateway: string -> string)
    requires PreconditionError(ctx).None? && !Attached(file)
    ensures var run := LegacySaga(ctx, f, file, sha256, derive, upload, ledger, toGateway);
            (CertAddress(derive, f.nomorIjazah).None? ==> run.calls == [] && run.result == Failed(SeedTooLong.message))
            && (CertAddress(derive, f.nomorIjazah).Some? ==>
                  run.calls == [AddCertificate(CertAddress(derive, f.nomorIjazah).value, ctx.adminPda.value, ctx.wallet.value,
                                               ArgsOf(f, "", ZeroDigest()))])
  {
  }

  /** With a non-empty attachment the upload comes first, and the ledger
      write that follows carries the uploaded URI and the file's digest. A
      failed upload ends the flow before the ledger. */
  lemma UploadPrecedesLedgerWrite(ctx: Context, f: Form, file: Option<File>, sha256: seq<byte> -> Digest,
                                  derive: seq<string> -> string, upload: IpfsGateway.UploadResult,
                                  ledger: LedgerOutcome, toGateway: string -> string)
    requires PreconditionError(ctx).None? && Attached(file)
    ensures var run := LegacySaga(ctx, f, file, sha256, derive, upload, ledger, toGateway);
            run.calls[0] == Upload(file.value.name, file.value.content)
            && (upload.UploadThrew? ==> |run.calls| == 1 && run.result == Failed(MessageOrDefault(ErrorObject(upload.message))))
            && (upload.UploadDone? && CertAddress(derive, f.nomorIjazah).Some? ==>
                  run.calls == [Upload(file.value.name, file.value.content),
                                AddCertificate(CertAddress(derive, f.nomorIjazah).value, ctx.adminPda.value, ctx.wallet.value,
                                               ArgsOf(f, upload.value.ipfsUri, sha256(file.value.content)))])
  {
  }

  /** The point where this flow differs from the newer one: the file is
      already uploaded when the ledger rejects the write, so the bytes stay
      pinned for a certificate that does not exist. */
  lemma UploadSurvivesRejectedWrite(ctx: Context, f: Form, file: Option<File>, sha256: seq<byte> -> Digest,
                                    derive: seq<string> -> string, u: IpfsGateway.Uploaded, err: Thrown,
                                    toGateway: string -> string)
    requires PreconditionError(ctx).None? && Attached(file)
    ensures var run := LegacySaga(ctx, f, file, sha256, derive, IpfsGateway.UploadDone(u), Rejected(err), toGateway);
            Uploads(run.calls) && run.result.Failed?
  {
    var run := LegacySaga(ctx, f, file, sha256, derive, IpfsGateway.UploadDone(u), Rejected(err), toGateway);
    assert run.calls[0].Upload?;
  }

  /** A certificate number too long for an address seed is only found out
      after the upload: the file stays pinned and nothing reaches the ledger. */
  lemma LongNumberLeavesUploadBehind(ctx: Context, f: Form, file: Option<File>, sha256: seq<byte> -> Digest,
                                     derive: seq<string> -> string, u: IpfsGateway.Uploaded, ledger: LedgerOutcome,
                                     toGateway: string -> string)
    requires PreconditionError(ctx).None? && Attached(file)
    requires Utf8Length(f.nomorIjazah) > MaxSeedLength
    ensures var run := LegacySaga(ctx, f, file, sha256, derive, IpfsGateway.UploadDone(u), ledger, toGateway);
            run.calls == [Upload(file.value.name, file.value.content)]
            && run.result == Failed(SeedTooLong.message)
  {
  }

  /** Success exactly when the checks pass, any upload succeeded and the
      ledger confirmed; the links shown are the uploaded URI and the
      returned gateway link, or the converted URI when none came back. */
  lemma LegacySuccessIffEveryCallSucceeded(ctx: Context, f: Form, file: Option<File>, sha256: seq<byte> -> Digest,
                                           derive: seq<string> -> string, upload: IpfsGateway.UploadResult,
                                           ledger: LedgerOutcome, toGateway: string -> string)
    ensures var run := LegacySaga(ctx, f, file, sha256, derive, upload, ledger, toGateway);
            (run.result.Succeeded? <==>
              PreconditionError(ctx).None? && (Attached(file) ==> upload.UploadDone?)
              && CertAddress(derive, f.nomorIjazah).Some? && ledger.Confirmed?)
            && (run.result.Succeeded? ==>
                  Some(run.result.pda) == CertAddress(derive, f.nomorIjazah)
                  && run.result.ipfsUri == (if Attached(file) then upload.value.ipfsUri else "")
                  && (Attached(file) && upload.value.gatewayUrl != "" ==> run.result.gatewayUrl == upload.value.gatewayUrl)
                  && (!Attached(file) ==> run.result.gatewayUrl == toGateway("")))
            && (run.result.Failed? ==> run.result.message != "")
  {
  }

  /** The column lists of the two row handlers of this page. */
  const RowClickNomorColumns: seq<string> := ["Nomor Ijasah", "nomor ijasah"]
  const RowButtonNomorColumns: seq<string> := ["Nomor Ijazah", "nomor ijazah", "nomor ijasah"]

  /** Clicking a row and pressing its button disagree on a spreadsheet whose
      certificate-number column is spelled "Nomor Ijazah": the click leaves
      the number empty, the button fills it. */
  lemma RowHandlersDisagree(nomor: string)
    requires Trim(nomor) != ""
    ensures var row: Row := map["Nomor Ijazah" := Str(nomor)];
            RowToForm(row, RowClickNomorColumns).nomorIjazah == ""
            && RowToForm(row, RowButtonNomorColumns).nomorIjazah == Trim(nomor)
  {
    var row: Row := map["Nomor Ijazah" := Str(nomor)];
    assert "Nomor Ijasah" !in row && "nomor ijasah" !in row;
    assert RowClickNomorColumns[1..] == ["nomor ijasah"] && RowClickNomorColumns[1..][1..] == [];
    assert CoalesceAll(row, ["nomor ijasah"]) == Str("");
    assert CoalesceAll(row, RowClickNomorColumns) == Str("");
    assert CoalesceAll(row, RowButtonNomorColumns) == Str(nomor);
  }

  /** The body of `handleSubmit`: the checks, then the hash and upload of a
      non-empty attachment, then the ledger write; it returns the calls made
      and the outcome. */
  method Submit(ctx: Context, form: Form, file: Option<File>, sha256: seq<byte> -> Digest,
                derive: seq<string> -> string, upload: IpfsGateway.UploadResult,
                ledger: LedgerOutcome, toGateway: string -> string)
    returns (calls: seq<Call>, result: SagaResult)
    ensures SagaRun(calls, result) == LegacySaga(ctx, form, file, sha256, derive, upload, ledger, toGateway)
  {
    var pre := PreconditionError(ctx);
    if pre.Some? {
      return [], Failed(MessageOrDefault(ErrorObject(pre.value)));
    }
    calls := [];
    var fileHashBytes: seq<byte> := ZeroDigest();
    var ipfsUri, gatewayUrl := "", "";
    if file.Some? && Size(file.value) > 0 {
      fileHashBytes := sha256(file.value.content);
      calls := calls + [Upload(file.value.name, file.value.content)];
      if upload.UploadThrew? {
        return calls, Failed(MessageOrDefault(ErrorObject(upload.message)));
      }
      ipfsUri, gatewayUrl := upload.value.ipfsUri, upload.value.gatewayUrl;
    }
    var certPda := CertAddress(derive, form.nomorIjazah);
    if certPda.None? {
      return calls, Failed(MessageOrDefault(SeedTooLong));
    }
    var cert := certPda.value;
    calls := calls + [AddCertificate(cert, ctx.adminPda.value, ctx.wallet.value, ArgsOf(form, ipfsUri, fileHashBytes))];
    if ledger.Rejected? {
      return calls, Failed(MessageOrDefault(ledger.err));
    }
    result := Succeeded(cert, ipfsUri, if gatewayUrl != "" then gatewayUrl else toGateway(ipfsUri));
  }

  /** The page's state. */
  class Page {
    var step: nat
    var form: Form
    var file: Option<File>
    var filePreview: string
    var fileHashHex: string
    var pda: Option<string>
    var fileUriSaved: string
    var fileUrlGateway: string
    var isSubmitting: bool
    var error: string
    var successMsg: string
    var excelRows: seq<Row>
    var selectedRowIndex: int

    ghost predicate Valid()
      reads this
    {
      step <= 2 && -1 <= selectedRowIndex < |excelRows|
    }

    constructor ()
      ensures Valid()
      ensures step == 0 && form == EmptyForm && file.None? && filePreview == "" && fileHashHex == "" && pda.None?
      ensures fileUriSaved == "" && fileUrlGateway == "" && !isSubmitting && error == "" && successMsg == ""
      ensures excelRows == [] && selectedRowIndex == -1
    {
      step, form, file, filePreview, fileHashHex, pda := 0, EmptyForm, None, "", "", None;
      fileUriSaved, fileUrlGateway, isSubmitting, error, successMsg := "", "", false, "", "";
      excelRows, selectedRowIndex := [], -1;
    }

    /** `onPickFile(f)`: any file is kept, with its full digest and, for an
        image, its data URL as the preview. Nothing picked clears all three. */
    method OnPickFile(f: Option<File>, sha256: seq<byte> -> Digest, dataUrl: string)
      requires Valid()
      modifies this`file, this`filePreview, this`fileHashHex
      ensures Valid()
      ensures f.None? ==> file.None? && filePreview == "" && fileHashHex == ""
      ensures f.Some? ==>
        file == f && fileHashHex == FullHex(sha256(f.value.content))
        && filePreview == (if IsImage(f.value.mime) then dataUrl else "")
    {
      if f.None? {
        file, filePreview, fileHashHex := None, "", "";
        return;
      }
      file := f;
      if IsImage(f.value.mime) {
        filePreview := dataUrl;
      } else {
        filePreview := "";
      }
      fileHashHex := FullHex(sha256(f.value.content));
    }

    /** `goNext()` */
    method GoNext()
      requires Valid()
      modifies this`step, this`error
      ensures Valid()
      ensures (step, error) == CertForm.GoNext(old(step), form)
    {
      var next := CertForm.GoNext(step, form);
      step, error := next.0, next.1;
    }

    /** `goBack()` */
    method GoBack()
      requires Valid()
      modifies this`step, this`error
      ensures Valid()
      ensures step == CertForm.GoBack(old(step)) && error == ""
    {
      step, error := CertForm.GoBack(step), "";
    }

    /** `handleSubmit()`: the calls made are those of the flow and the page
        shows its outcome; on success every result field is replaced. */
    method HandleSubmit(ctx: Context, sha256: seq<byte> -> Digest, derive: seq<string> -> string,
                        upload: IpfsGateway.UploadResult, ledger: LedgerOutcome, toGateway: string -> string)
      returns (calls: seq<Call>)
      requires Valid()
      modifies this`error, this`successMsg, this`isSubmitting, this`pda, this`fileUriSaved, this`fileUrlGateway, this`step
      ensures Valid()
      ensures var run := LegacySaga(ctx, form, file, sha256, derive, upload, ledger, toGateway);
              calls == run.calls && !isSubmitting
              && (run.result.Succeeded? ==>
                    pda == Some(run.result.pda) && step == 2 && error == "" && successMsg == SuccessMessage
                    && fileUriSaved == run.result.ipfsUri && fileUrlGateway == run.result.gatewayUrl)
              && (run.result.Failed? ==>
                    error == run.result.message && successMsg == "" && step == old(step) && pda == old(pda)
                    && fileUriSaved == old(fileUriSaved) && fileUrlGateway == old(fileUrlGateway))
    {
      error, successMsg, isSubmitting := "", "", true;
      var result;
      calls, result := Submit(ctx, form, file, sha256, derive, upload, ledger, toGateway);
      ShowResult(result);
    }

    /** The end of `handleSubmit`: the outcome of the flow on the page. */
    method ShowResult(result: SagaResult)
      requires Valid()
      modifies this`error, this`successMsg, this`isSubmitting, this`pda, this`fileUriSaved, this`fileUrlGateway, this`step
      ensures Valid() && !isSubmitting
      ensures result.Succeeded? ==>
                pda == Some(result.pda) && step == 2 && error == "" && successMsg == SuccessMessage
                && fileUriSaved == result.ipfsUri && fileUrlGateway == result.gatewayUrl
      ensures result.Failed? ==>
                error == result.message && successMsg == "" && step == old(step) && pda == old(pda)
                && fileUriSaved == old(fileUriSaved) && fileUrlGateway == old(fileUrlGateway)
    {
      error, successMsg := "", "";
      match result {
        case Failed(m) =>
          error := m;
        case Succeeded(cert, ipfsUri, gatewayUrl) =>
          pda, fileUriSaved, fileUrlGateway := Some(cert), ipfsUri, gatewayUrl;
          successMsg, step := SuccessMessage, 2;
      }
      isSubmitting := false;
    }

    /** `resetAll()`: every form, file and result field back to its initial
        value and the step to 0; the imported rows stay. */
    method ResetAll()
      requires Valid()
      modifies this`form, this`file, this`filePreview, this`fileHashHex, this`pda, this`fileUriSaved,
               this`fileUrlGateway, this`error, this`successMsg, this`step
      ensures Valid()
      ensures step == 0 && form == EmptyForm && file.None? && filePreview == "" && fileHashHex == "" && pda.None?
      ensures fileUriSaved == "" && fileUrlGateway == "" && error == "" && successMsg == ""
    {
      form, file, filePreview, fileHashHex, pda := EmptyForm, None, "", "", None;
      fileUriSaved, fileUrlGateway, error, successMsg, step := "", "", "", "", 0;
    }

    /** `handleExcelImport`: a sheet with fewer than two rows is refused;
        otherwise its rows replace the imported ones and the selection is
        cleared. */
    method ImportExcel(sheet: seq<seq<JsVal>>) returns (refused: bool)
      requires Valid()
      modifies this`excelRows, this`selectedRowIndex
      ensures Valid()
      ensures refused <==> |sheet| < 2
      ensures refused ==> excelRows == old(excelRows) && selectedRowIndex == old(selectedRowIndex)
      ensures !refused ==> |excelRows| == |sheet| - 1 && selectedRowIndex == -1
      ensures !refused ==> forall i :: 0 <= i < |excelRows| ==>
        excelRows[i] == RowObjectOf(Headers(sheet[0]), sheet[i + 1], |sheet[0]|)
    {
      var rows := ImportSheet(sheet);
      if rows.None? {
        return true;
      }
      excelRows, selectedRowIndex := rows.value, -1;
      refused := false;
    }

    /** Clicking a row: selects it and fills the form, the certificate
        number from the "Nomor Ijasah" spellings only. */
    method ClickRow(idx: nat)
      requires Valid() && idx < |excelRows|
      modifies this`selectedRowIndex, this`form
      ensures Valid()
      ensures selectedRowIndex == idx
      ensures form == RowToForm(excelRows[idx], RowClickNomorColumns)
    {
      selectedRowIndex := idx;
      form := RowToForm(excelRows[idx], RowClickNomorColumns);
    }

    /** The row's "Use This Row" button: the same, but the certificate
        number is also read from the "Nomor Ijazah" spellings. */
    method UseRowButton(idx: nat)
      requires Valid() && idx < |excelRows|
      modifies this`selectedRowIndex, this`form
      ensures Valid()
      ensures selectedRowIndex == idx
      ensures form == RowToForm(excelRows[idx], RowButtonNomorColumns)
    {
      selectedRowIndex := idx;
      form := RowToForm(excelRows[idx], RowButtonNomorColumns);
    }
  }
}
