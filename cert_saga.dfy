/** What the certificate-creation flows share: the arguments of the ledger's
    `addCertificate` instruction, the external calls a flow makes (its
    trace), the ordered admin preconditions, and how a thrown error becomes
    the text the page shows. */
module CertSaga {
  import opened JsCore
  import opened CertForm
  import OffchainClient

  /** The instruction arguments, in the order the program takes them. */
  datatype LedgerArgs = LedgerArgs(
    programStudi: string,
    universitas: string,
    kodeBatch: string,
    nim: string,
    nama: string,
    nomorIjazah: string,
    operatorName: string,
    fileUri: string,
    fileHash: seq<byte>)

  function ArgsOf(f: Form, uri: string, hash: seq<byte>): LedgerArgs
  {
    LedgerArgs(f.programStudi, f.universitas, f.kodeBatch, f.nim, f.nama, f.nomorIjazah, f.operatorName, uri, hash)
  }

  /** An external effect: bytes sent to the pinning upload, the ledger write
      (certificate account, registry account, operator, arguments), or the
      metadata record posted to the save route. */
  datatype Call =
    | Upload(fileName: string, content: seq<byte>)
    | AddCertificate(certificate: string, adminRegistry: string, operator: string, args: LedgerArgs)
    | SaveMeta(payload: OffchainClient.MetaPayload)

  predicate Uploads(calls: seq<Call>)
  {
    exists i :: 0 <= i < |calls| && calls[i].Upload?
  }

  /** A thrown value: its `message` ("" when it has none) and what its
      `toString()` gives. */
  datatype Thrown = Thrown(message: string, asText: string)

  /** `new Error(message)` */
  function ErrorObject(message: string): Thrown
  {
    Thrown(message, if message == "" then "Error" else "Error: " + message)
  }

  datatype LedgerOutcome = Confirmed | Rejected(err: Thrown)

  /** What the page knows when the user submits. */
  datatype Context = Context(
    programReady: bool,
    wallet: Option<string>,
    initialized: Option<bool>,
    isAdmin: bool,
    adminPda: Option<string>)

  /** The admin checks, in order; the message of the first that fails. */
  function PreconditionError(c: Context): (e: Option<string>)
    ensures e.None? <==> c.programReady && c.wallet.Some? && c.initialized != Some(false) && c.isAdmin && c.adminPda.Some?
    ensures !c.programReady ==> e == Some("Program not ready")
    ensures c.programReady && c.wallet.None? ==> e == Some("Connect a wallet")
    ensures c.programReady && c.wallet.Some? && c.initialized == Some(false) ==> e == Some("Admin registry not initialized")
    ensures e.Some? ==> e.value != ""
  {
    if !c.programReady then Some("Program not ready")
    else if c.wallet.None? then Some("Connect a wallet")
    else if c.initialized == Some(false) then Some("Admin registry not initialized")
    else if !c.isAdmin then Some("Not authorized (wallet is not admin)")
    else if c.adminPda.None? then Some("Admin PDA not available")
    else None
  }

  /** An unset registry flag (still loading) does not block a submit. */
  lemma UnknownRegistryDoesNotBlock(wallet: string, admin: string)
    ensures PreconditionError(Context(true, Some(wallet), None, true, Some(admin))).None?
  {
  }

  datatype SagaResult = Succeeded(pda: string, ipfsUri: string, gatewayUrl: string) | Failed(message: string)

  /** The calls a flow made, in order, and how it ended. */
  datatype SagaRun = SagaRun(calls: seq<Call>, result: SagaResult)

  const CertSeed: string := "cert"

  /** A program-address seed holds at most 32 bytes. */
  const MaxSeedLength: nat := 32

  /** What `findProgramAddressSync` throws for a longer seed. */
  const SeedTooLong: Thrown := Thrown("Max seed length exceeded", "TypeError: Max seed length exceeded")

  /** The certificate account: the program address of the seeds "cert" and
      the UTF-8 bytes of the certificate number, or None when the number's
      seed is too long and the derivation throws. `derive` is the address
      derivation itself. */
  function CertAddress(derive: seq<string> -> string, nomorIjazah: string): (a: Option<string>)
    ensures a.None? <==> Utf8Length(nomorIjazah) > MaxSeedLength
    ensures a.Some? ==> a.value == derive([CertSeed, nomorIjazah])
  {
    if Utf8Length(nomorIjazah) > MaxSeedLength then None else Some(derive([CertSeed, nomorIjazah]))
  }

  /** An ASCII number of at most 32 characters always has an address; a
      number of more than 32 characters never has one. */
  lemma CertAddressBySize(derive: seq<string> -> string, nomorIjazah: string)
    ensures (forall k :: 0 <= k < |nomorIjazah| ==> nomorIjazah[k] as int < 0x80) && |nomorIjazah| <= MaxSeedLength
            ==> CertAddress(derive, nomorIjazah).Some?
    ensures |nomorIjazah| > MaxSeedLength ==> CertAddress(derive, nomorIjazah).None?
  {
    Utf8LengthOfAscii(nomorIjazah);
  }

  const SuccessMessage: string := "Certificate saved to Solana " + ['\U{1F389}']
  const DefaultFailure: string := "Failed to save the certificate."
  const OpaqueObject: string := "[object Object]"
  const OpaqueObjectMessage: string := "Unexpected error (check console)"

  /** The new page's error text: the message, else the `toString()` text,
      with the opaque object text replaced, falling back to a fixed text.
      It is never empty. */
  function ErrorText(t: Thrown): (m: string)
    ensures m != ""
    ensures t.message != "" && t.message != OpaqueObject ==> m == t.message
    ensures t.message == "" && t.asText != "" && t.asText != OpaqueObject ==> m == t.asText
    ensures m == OpaqueObjectMessage || m == DefaultFailure || m == t.message || m == t.asText
  {
    var m1 := if t.message == "" then t.asText else t.message;
    var m2 := if m1 == OpaqueObject then OpaqueObjectMessage else m1;
    if m2 == "" then DefaultFailure else m2
  }

  /** The older page's error text: the message or the fixed text. */
  function MessageOrDefault(t: Thrown): (m: string)
    ensures m != ""
    ensures t.message != "" ==> m == t.message
  {
    if t.message != "" then t.message else DefaultFailure
  }

  /** An error thrown with a message shows that message on both pages,
      unless it is the opaque object text. */
  lemma PagesAgreeOnPlainErrors(message: string)
    requires message != "" && message != OpaqueObject
    ensures ErrorText(ErrorObject(message)) == MessageOrDefault(ErrorObject(message)) == message
  {
  }
}
