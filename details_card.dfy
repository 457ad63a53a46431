/** The details card of a verified certificate: the issue time, the hex
    text of the stored digest, key text, the field fallbacks and when the
    attachment and its digest are shown. */
module DetailsCard {
  import opened JsCore

  // ---------------------------------------------------------------------
  // toHex

  /** What `toHex` may be handed: a byte array, a plain array of numbers,
      an object with a `data` array of numbers (a serialised buffer), or
      anything else. */
  datatype ByteSource = U8(bytes: seq<byte>) | PlainArray(items: seq<int>) | DataObject(data: seq<int>) | NotBytes

  /** `Uint8Array.from` stores each number modulo 256. */
  function Wrap(n: int): (b: byte)
    ensures 0 <= n < 256 ==> b as int == n
    ensures (b as int - n) % 256 == 0
  {
    (n % 256) as byte
  }

  function WrapAll(xs: seq<int>): (bs: seq<byte>)
    ensures |bs| == |xs|
    ensures forall i :: 0 <= i < |xs| ==> bs[i] == Wrap(xs[i])
  {
    if xs == [] then [] else [Wrap(xs[0])] + WrapAll(xs[1..])
  }

  /** The bytes `toHex` encodes. */
  function BytesOf(src: ByteSource): (bs: seq<byte>)
    ensures src.U8? ==> bs == src.bytes
    ensures src.PlainArray? ==> bs == WrapAll(src.items)
    ensures src.DataObject? ==> bs == WrapAll(src.data)
    ensures src.NotBytes? ==> bs == []
  {
    match src
    case U8(b) => b
    case PlainArray(xs) => WrapAll(xs)
    case DataObject(xs) => WrapAll(xs)
    case NotBytes => []
  }

  function ToHex(src: ByteSource): string
  {
    HexOf(BytesOf(src))
  }

  /** Two lowercase hex digits per byte, read back to the (wrapped) bytes;
      a value that is not bytes gives "". */
  lemma ToHexIsTwoDigitsPerByte(src: ByteSource)
    ensures |ToHex(src)| == 2 * |BytesOf(src)|
    ensures forall k :: 0 <= k < |ToHex(src)| ==> ToHex(src)[k] in HexDigits
    ensures FromHex(ToHex(src)) == Some(BytesOf(src))
    ensures src.NotBytes? ==> ToHex(src) == ""
  {
    HexOfIsLowercaseHex(BytesOf(src));
    HexRoundTrip(BytesOf(src));
  }

  /** The three array shapes of the same byte values give the same text. */
  lemma ArrayShapesAgree(xs: seq<int>)
    requires forall i :: 0 <= i < |xs| ==> 0 <= xs[i] < 256
    ensures ToHex(PlainArray(xs)) == ToHex(DataObject(xs)) == ToHex(U8(WrapAll(xs)))
    ensures forall i :: 0 <= i < |xs| ==> WrapAll(xs)[i] as int == xs[i]
  {
  }

  /** Two numbers wrap to the same byte iff they are congruent modulo 256. */
  lemma WrapIsCongruence(n: int, m: int)
    ensures Wrap(n) == Wrap(m) <==> (n - m) % 256 == 0
  {
    assert n == 256 * (n / 256) + n % 256;
    assert m == 256 * (m / 256) + m % 256;
    if Wrap(n) == Wrap(m) {
      assert n % 256 == m % 256;
      assert n - m == 256 * (n / 256 - m / 256);
    }
  }

  /** Two plain arrays of numbers show the same hex text iff they have the
      same length and agree position by position modulo 256. */
  lemma SameHexIffCongruent(xs: seq<int>, ys: seq<int>)
    ensures ToHex(PlainArray(xs)) == ToHex(PlainArray(ys)) <==>
      |xs| == |ys| && forall i :: 0 <= i < |xs| ==> (xs[i] - ys[i]) % 256 == 0
  {
    HexRoundTrip(WrapAll(xs));
    HexRoundTrip(WrapAll(ys));
    if |xs| == |ys| {
      forall i | 0 <= i < |xs|
        ensures WrapAll(xs)[i] == WrapAll(ys)[i] <==> (xs[i] - ys[i]) % 256 == 0
      {
        WrapIsCongruence(xs[i], ys[i]);
      }
      if forall i :: 0 <= i < |xs| ==> (xs[i] - ys[i]) % 256 == 0 {
        assert WrapAll(xs) == WrapAll(ys);
      }
    }
  }

  // ---------------------------------------------------------------------
  // toBase58 and the field fallbacks

  /** `toBase58(k)`: "" for a falsy value, a string as it is, a key as its text. */
  function ToBase58(k: JsVal): (t: string)
    ensures !Truthy(k) ==> t == ""
    ensures k.Str? ==> t == k.s
    ensures k.Key? ==> t == k.base58
  {
    if !Truthy(k) then "" else if k.Str? then k.s else if k.Key? then k.base58 else ""
  }

  /** The issue time: a big number (with `toNumber`), a plain number, or missing. */
  datatype Issued = BigNumber(n: int) | PlainNumber(n: int) | NoIssued

  function IssuedSeconds(w: Issued): (s: int)
    ensures w.NoIssued? ==> s == 0
    ensures !w.NoIssued? ==> s == w.n
  {
    match w
    case BigNumber(n) => n
    case PlainNumber(n) => n
    case NoIssued => 0
  }

  /** The issue text: "-" for zero seconds, "Invalid Date" beyond the range
      of a date, otherwise the local rendering of the instant (in ms). */
  datatype IssuedText = NotIssued | InvalidDate | IssuedAt(millis: int)

  const MaxDateMillis: int := 8_640_000_000_000_000

  function IssuedStr(w: Issued): (t: IssuedText)
    ensures t == NotIssued <==> IssuedSeconds(w) == 0
    ensures t.IssuedAt? ==> t.millis == IssuedSeconds(w) * 1000 && -MaxDateMillis <= t.millis <= MaxDateMillis
  {
    var s := IssuedSeconds(w);
    if s == 0 then NotIssued
    else if s * 1000 > MaxDateMillis || s * 1000 < -MaxDateMillis then InvalidDate
    else IssuedAt(s * 1000)
  }

  /** The fields the card reads; absent ones are undefined. */
  datatype CardData = CardData(
    nama: JsVal,
    nim: JsVal,
    programStudi: JsVal,
    programStudiSnake: JsVal,
    universitas: JsVal,
    kodeBatch: JsVal,
    kodeBatchSnake: JsVal,
    nomorIjazah: JsVal,
    nomorIjazahSnake: JsVal,
    operatorName: JsVal,
    operatorNameSnake: JsVal,
    operatorPubkey: JsVal,
    operator: JsVal,
    waktuMasuk: Issued,
    fileUri: JsVal,
    fileHash: ByteSource)

  /** `data?.x` for a missing `data`: every field undefined. */
  const NoData: CardData := CardData(Undefined, Undefined, Undefined, Undefined, Undefined, Undefined, Undefined,
                                      Undefined, Undefined, Undefined, Undefined, Undefined, Undefined,
                                      NoIssued, Undefined, NotBytes)

  function Fields(data: Option<CardData>): CardData
  {
    if data.Some? then data.value else NoData
  }

  /** `a ?? b ?? fallback` over the two spellings of a field. */
  function EitherSpelling(a: JsVal, b: JsVal, fallback: string): (v: JsVal)
    ensures Coalesce(a, Undefined) != Undefined ==> v == a
    ensures (a.Undefined? || a.Null?) && !b.Undefined? && !b.Null? ==> v == b
    ensures (a.Undefined? || a.Null?) && (b.Undefined? || b.Null?) ==> v == Str(fallback)
  {
    Coalesce(Coalesce(a, b), Str(fallback))
  }

  /** What the card shows. */
  datatype View = View(
    issued: IssuedText,
    nama: JsVal,
    nim: JsVal,
    programStudi: JsVal,
    universitas: JsVal,
    kodeBatch: JsVal,
    nomorIjazah: JsVal,
    operatorName: JsVal,
    operatorPub: string,
    attachment: Option<JsVal>,
    hashText: Option<string>,
    explorer: Option<string>)

  const Dash: JsVal := Str("—")
  const ExplorerPrefix: string := "https://explorer.solana.com/address/"
  const ExplorerSuffix: string := "?cluster=devnet"

  function CardView(addr: string, data: Option<CardData>): (v: View)
    ensures v.issued == IssuedStr(Fields(data).waktuMasuk)
    // `||` falls back on any falsy value, `??` only on null and undefined
    ensures v.nama == (if Truthy(Fields(data).nama) then Fields(data).nama else Dash)
    ensures v.nim == (if Truthy(Fields(data).nim) then Fields(data).nim else Dash)
    ensures v.universitas == (if Truthy(Fields(data).universitas) then Fields(data).universitas else Dash)
    ensures v.programStudi == EitherSpelling(Fields(data).programStudi, Fields(data).programStudiSnake, "—")
    ensures v.kodeBatch == EitherSpelling(Fields(data).kodeBatch, Fields(data).kodeBatchSnake, "—")
    ensures v.nomorIjazah == EitherSpelling(Fields(data).nomorIjazah, Fields(data).nomorIjazahSnake, "—")
    ensures v.operatorName == EitherSpelling(Fields(data).operatorName, Fields(data).operatorNameSnake, "-")
    ensures v.operatorPub == (if ToBase58(Fields(data).operatorPubkey) != "" then ToBase58(Fields(data).operatorPubkey)
                              else ToBase58(Fields(data).operator))
    // the link and badge appear exactly for a truthy file URI
    ensures v.attachment.Some? <==> Truthy(Fields(data).fileUri)
    ensures v.attachment.Some? ==> v.attachment.value == Fields(data).fileUri
    // the digest only for a non-empty plain array, and only beside the link
    ensures v.hashText.Some? <==>
      Truthy(Fields(data).fileUri) && Fields(data).fileHash.PlainArray? && |Fields(data).fileHash.items| > 0
    ensures v.hashText.Some? ==> v.hashText.value == ToHex(Fields(data).fileHash)
    ensures v.explorer.Some? <==> addr != ""
    ensures v.explorer.Some? ==> v.explorer.value == ExplorerPrefix + addr + ExplorerSuffix
  {
    var d := Fields(data);
    var pub := ToBase58(d.operatorPubkey);
    View(
      IssuedStr(d.waktuMasuk),
      Or(d.nama, Dash),
      Or(d.nim, Dash),
      EitherSpelling(d.programStudi, d.programStudiSnake, "—"),
      Or(d.universitas, Dash),
      EitherSpelling(d.kodeBatch, d.kodeBatchSnake, "—"),
      EitherSpelling(d.nomorIjazah, d.nomorIjazahSnake, "—"),
      EitherSpelling(d.operatorName, d.operatorNameSnake, "-"),
      if pub != "" then pub else ToBase58(d.operator),
      if Truthy(d.fileUri) then Some(d.fileUri) else None,
      if Truthy(d.fileUri) && d.fileHash.PlainArray? && |d.fileHash.items| > 0 then Some(ToHex(d.fileHash)) else None,
      if addr != "" then Some(ExplorerPrefix + addr + ExplorerSuffix) else None)
  }

  /** A digest held as a byte array is never shown: only plain arrays pass
      the array check. */
  lemma ByteArrayDigestIsHidden(addr: string, d: CardData, bytes: seq<byte>)
    ensures CardView(addr, Some(d.(fileHash := U8(bytes)))).hashText.None?
  {
  }

  /** `??` keeps an empty operator name where `||` would fall back: the
      card shows "" and not "-". */
  lemma EmptyOperatorNameIsKept(addr: string, d: CardData)
    requires d.operatorName == Str("")
    ensures CardView(addr, Some(d)).operatorName == Str("")
  {
  }

  /** Without data the card shows the fallbacks and no attachment. */
  lemma MissingDataShowsFallbacks(addr: string)
    ensures var v := CardView(addr, None);
            v.issued == NotIssued && v.operatorName == Str("-") && v.operatorPub == ""
            && v.nama == Dash && v.nim == Dash && v.universitas == Dash
            && v.programStudi == Dash && v.kodeBatch == Dash && v.nomorIjazah == Dash
            && v.attachment.None? && v.hashText.None? && (v.explorer.Some? <==> addr != "")
  {
  }
}
