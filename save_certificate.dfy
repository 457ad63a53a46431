/** The library flow `saveCertificateWithFile`: hash and upload a given
    file, write the ledger record with its URI and digest, and return the
    certificate address with the URI. */
module SaveCertificate {
  import opened JsCore
  import opened CertForm
  import opened CertSaga
  import IpfsGateway

  /** The promise resolves to `{ pda, fileUri }` or rejects with a thrown value. */
  datatype SaveOutcome = Returned(pda: string, fileUri: string) | Threw(err: Thrown)

  datatype SaveRun = SaveRun(calls: seq<Call>, outcome: SaveOutcome)

  /** The flow as a whole. Any given file counts, even an empty one. */
  function SaveWithFile(wallet: string, adminPda: string, f: Form, file: Option<File>,
                        sha256: seq<byte> -> Digest, derive: seq<string> -> string,
                        upload: IpfsGateway.UploadResult, ledger: LedgerOutcome): SaveRun
  {
    var ups := if file.Some? then [Upload(file.value.name, file.value.content)] else [];
    if file.Some? && upload.UploadThrew? then SaveRun(ups, Threw(ErrorObject(upload.message)))
    else
      var uri := if file.Some? then upload.value.ipfsUri else "";
      var hash: seq<byte> := if file.Some? then sha256(file.value.content) else ZeroDigest();
      match CertAddress(derive, f.nomorIjazah)
      case None => SaveRun(ups, Threw(SeedTooLong))
      case Some(cert) =>
        var write := AddCertificate(cert, adminPda, wallet, ArgsOf(f, uri, hash));
        match ledger
        case Rejected(err) => SaveRun(ups + [write], Threw(err))
        case Confirmed => SaveRun(ups + [write], Returned(cert, uri))
  }

  /** `saveCertificateWithFile` */
  method SaveCertificateWithFile(wallet: string, adminPda: string, fields: Form, file: Option<File>,
                                 sha256: seq<byte> -> Digest, derive: seq<string> -> string,
                                 upload: IpfsGateway.UploadResult, ledger: LedgerOutcome)
    returns (calls: seq<Call>, outcome: SaveOutcome)
    ensures SaveRun(calls, outcome) == SaveWithFile(wallet, adminPda, fields, file, sha256, derive, upload, ledger)
  {
    calls := [];
    var fileUri := "";
    var fileHash: seq<byte> := ZeroDigest();
    if file.Some? {
      fileHash := sha256(file.value.content);
      calls := calls + [Upload(file.value.name, file.value.content)];
      if upload.UploadThrew? {
        return calls, Threw(ErrorObject(upload.message));
      }
      fileUri := upload.value.ipfsUri;
    }
    var derived := CertAddress(derive, fields.nomorIjazah);
    if derived.None? {
      return calls, Threw(SeedTooLong);
    }
    var certPda := derived.value;
    calls := calls + [AddCertificate(certPda, adminPda, wallet, ArgsOf(fields, fileUri, fileHash))];
    if ledger.Rejected? {
      return calls, Threw(ledger.err);
    }
    outcome := Returned(certPda, fileUri);
  }

  /** Without a file the ledger write is the only call, with URI "" and 32
      zero bytes, and the returned URI is "". */
  lemma NoFileNoPointer(wallet: string, adminPda: string, f: Form, sha256: seq<byte> -> Digest,
                        derive: seq<string> -> string, upload: IpfsGateway.UploadResult, ledger: LedgerOutcome)
    ensures var run := SaveWithFile(wallet, adminPda, f, None, sha256, derive, upload, ledger);
            (CertAddress(derive, f.nomorIjazah).None? ==> run.calls == [] && run.outcome == Threw(SeedTooLong))
            && (CertAddress(derive, f.nomorIjazah).Some? ==>
                  run.calls == [AddCertificate(CertAddress(derive, f.nomorIjazah).value, adminPda, wallet, ArgsOf(f, "", ZeroDigest()))]
                  && (ledger.Confirmed? ==> run.outcome == Returned(CertAddress(derive, f.nomorIjazah).value, "")))
  {
  }

  /** With a file, the upload is the first call; a thrown upload ends the
      flow there, and otherwise the ledger write follows carrying the
      uploaded URI and the file's digest. An empty file is uploaded too. */
  lemma FileUploadedBeforeLedger(wallet: string, adminPda: string, f: Form, file: File, sha256: seq<byte> -> Digest,
                                 derive: seq<string> -> string, upload: IpfsGateway.UploadResult, ledger: LedgerOutcome)
    ensures var run := SaveWithFile(wallet, adminPda, f, Some(file), sha256, derive, upload, ledger);
            run.calls[0] == Upload(file.name, file.content)
            && (upload.UploadThrew? ==> run.calls == [Upload(file.name, file.content)] && run.outcome.Threw?)
            && (upload.UploadDone? && CertAddress(derive, f.nomorIjazah).None? ==>
                  run.calls == [Upload(file.name, file.content)] && run.outcome == Threw(SeedTooLong))
            && (upload.UploadDone? && CertAddress(derive, f.nomorIjazah).Some? ==>
                  run.calls == [Upload(file.name, file.content),
                                AddCertificate(CertAddress(derive, f.nomorIjazah).value, adminPda, wallet,
                                               ArgsOf(f, upload.value.ipfsUri, sha256(file.content)))])
  {
  }

  /** The returned value repeats the ledger write: the same certificate
      address, derived from "cert" and the number alone, and the same URI. */
  lemma ReturnedUriIsLedgerUri(wallet: string, adminPda: string, f: Form, file: Option<File>,
                               sha256: seq<byte> -> Digest, derive: seq<string> -> string,
                               upload: IpfsGateway.UploadResult, ledger: LedgerOutcome)
    ensures var run := SaveWithFile(wallet, adminPda, f, file, sha256, derive, upload, ledger);
            (run.outcome.Returned? <==>
               ledger.Confirmed? && (file.Some? ==> upload.UploadDone?) && CertAddress(derive, f.nomorIjazah).Some?)
            && (run.outcome.Returned? ==>
                  var last := run.calls[|run.calls| - 1];
                  last.AddCertificate?
                  && Some(last.certificate) == Some(run.outcome.pda) == CertAddress(derive, f.nomorIjazah)
                  && last.args.fileUri == run.outcome.fileUri)
  {
  }

  /** Like the older page, this flow can leave a pinned file behind: after
      a rejected ledger write, or when the number is too long for an
      address seed and nothing is written at all. */
  lemma UploadSurvivesRejectedWrite(wallet: string, adminPda: string, f: Form, file: File, sha256: seq<byte> -> Digest,
                                    derive: seq<string> -> string, u: IpfsGateway.Uploaded, err: Thrown)
    ensures var run := SaveWithFile(wallet, adminPda, f, Some(file), sha256, derive, IpfsGateway.UploadDone(u), Rejected(err));
            Uploads(run.calls) && !run.outcome.Returned?
            && run.outcome == (if CertAddress(derive, f.nomorIjazah).Some? then Threw(err) else Threw(SeedTooLong))
  {
    var run := SaveWithFile(wallet, adminPda, f, Some(file), sha256, derive, IpfsGateway.UploadDone(u), Rejected(err));
    assert run.calls[0].Upload?;
  }
}
