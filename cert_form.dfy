/** The certificate form shared by both certificate pages: its seven fields,
    step-0 validation, the three-step counter, the PDF check, the hex digest
    text, and the spreadsheet import that fills the form from a row. */
module CertForm {
  import opened JsCore

  datatype Form = Form(
    nama: string,
    nim: string,
    programStudi: string,
    universitas: string,
    kodeBatch: string,
    nomorIjazah: string,
    operatorName: string)

  const EmptyForm: Form := Form("", "", "", "", "", "", "")

  /** A file the user picked: name, MIME type and contents. */
  datatype File = File(name: string, mime: string, content: seq<byte>)

  function Size(f: File): nat
  {
    |f.content|
  }

  // ---------------------------------------------------------------------
  // Step-0 validation

  /** The required fields in the order they are checked, and their labels. */
  function Values(f: Form): (vs: seq<string>)
    ensures |vs| == 7
  {
    [f.nama, f.nim, f.programStudi, f.universitas, f.kodeBatch, f.nomorIjazah, f.operatorName]
  }

  const Labels: seq<string> := ["Nama", "NIM", "Program Studi", "Universitas", "Kode Batch", "Nomor Ijazah", "Nama Operator"]

  function RequiredMessage(fieldLabel: string): (m: string)
    ensures m != ""
  {
    "Field \"" + fieldLabel + "\" is required."
  }

  /** Which of the values are blank, in order. */
  function BlankFlags(vs: seq<string>): (bs: seq<bool>)
    ensures |bs| == |vs| && forall j :: 0 <= j < |vs| ==> bs[j] == Blank(vs[j])
  {
    if vs == [] then [] else [Blank(vs[0])] + BlankFlags(vs[1..])
  }

  /** The first set flag at or after `i`: the loop's early return. */
  function FirstSet(bs: seq<bool>, i: nat): (r: Option<nat>)
    requires i <= |bs|
    ensures r.None? <==> forall j :: i <= j < |bs| ==> !bs[j]
    ensures r.Some? ==> i <= r.value < |bs| && bs[r.value]
    ensures r.Some? ==> forall j :: i <= j < r.value ==> !bs[j]
    decreases |bs| - i
  {
    if i == |bs| then None
    else if bs[i] then Some(i)
    else FirstSet(bs, i + 1)
  }

  /** The position of the first blank field, if any. */
  function FirstBlankField(f: Form): (r: Option<nat>)
    ensures r.None? <==> forall j :: 0 <= j < 7 ==> !Blank(Values(f)[j])
    ensures r.Some? ==> r.value < 7 && Blank(Values(f)[r.value])
    ensures r.Some? ==> forall k :: 0 <= k < r.value ==> !Blank(Values(f)[k])
  {
    FirstSet(BlankFlags(Values(f)), 0)
  }

  /** `validateStep0()`: "" when every field is non-blank after trimming,
      otherwise the message naming the first blank field. */
  function ValidateStep0(f: Form): (msg: string)
    ensures msg == "" <==> forall j :: 0 <= j < 7 ==> !Blank(Values(f)[j])
    ensures msg != "" ==> FirstBlankField(f).Some? && msg == RequiredMessage(Labels[FirstBlankField(f).value])
  {
    match FirstBlankField(f)
    case None => ""
    case Some(j) => RequiredMessage(Labels[j])
  }

  /** The empty form fails validation on its first field. */
  lemma EmptyFormNamesNama()
    ensures ValidateStep0(EmptyForm) == RequiredMessage("Nama")
  {
    assert Blank(Values(EmptyForm)[0]);
  }

  // ---------------------------------------------------------------------
  // The step counter

  /** `goNext()`: the new step and error text. From step 0 an invalid form
      keeps the step and shows the validation message. */
  function GoNext(step: nat, f: Form): (r: (nat, string))
    requires step <= 2
    ensures r.0 <= 2
    ensures step == 0 && ValidateStep0(f) != "" ==> r == (0, ValidateStep0(f))
    ensures !(step == 0 && ValidateStep0(f) != "") ==> r.1 == "" && r.0 == (if step == 2 then 2 else step + 1)
  {
    if step == 0 && ValidateStep0(f) != "" then (step, ValidateStep0(f))
    else (if step + 1 < 2 then step + 1 else 2, "")
  }

  /** `goBack()`: one step back, never below 0; the error is cleared. */
  function GoBack(step: nat): (s: nat)
    requires step <= 2
    ensures s <= step && (step > 0 ==> s == step - 1) && (step == 0 ==> s == 0)
  {
    if step == 0 then 0 else step - 1
  }

  /** Step 1 is reached only through a valid form. */
  lemma StepOneNeedsValidForm(f: Form)
    ensures GoNext(0, f).0 == 1 <==> ValidateStep0(f) == ""
  {
  }

  // ---------------------------------------------------------------------
  // Attachments

  const MaxPdfBytes: nat := 2 * 1024 * 1024

  /** `isPdfFile(f)` */
  predicate IsPdfFile(f: Option<File>)
  {
    f.Some? && (Lower(f.value.mime) == "application/pdf" || EndsWith(Lower(f.value.name), ".pdf"))
  }

  lemma {:induction false} LowerIdempotent(s: string)
    ensures Lower(Lower(s)) == Lower(s)
  {
    assert forall i :: 0 <= i < |s| ==> LowerChar(LowerChar(s[i])) == LowerChar(s[i]);
  }

  /** The PDF check ignores the case of the name and of the MIME type. */
  lemma PdfCheckIgnoresCase(f: File)
    ensures IsPdfFile(Some(f)) == IsPdfFile(Some(File(Lower(f.name), Lower(f.mime), f.content)))
  {
    LowerIdempotent(f.name);
    LowerIdempotent(f.mime);
  }

  /** The outcome of picking a file: nothing picked, rejected with a
      message, or accepted. */
  datatype PickOutcome = NothingPicked | PickRejected(message: string) | PickAccepted

  /** The checks `onPickFile` applies before keeping a file. */
  function CheckPick(f: Option<File>): (r: PickOutcome)
    ensures r.PickAccepted? <==> IsPdfFile(f) && Size(f.value) <= MaxPdfBytes
    ensures r.NothingPicked? <==> f.None?
  {
    if f.None? then NothingPicked
    else if !IsPdfFile(f) then PickRejected("Only PDF files are allowed.")
    else if Size(f.value) > MaxPdfBytes then PickRejected("File too large. Max 2 MB.")
    else PickAccepted
  }

  /** `/^image\//.test(type)` */
  predicate IsImage(mime: string)
  {
    StartsWith(mime, "image/")
  }

  // ---------------------------------------------------------------------
  // Digest text

  lemma {:induction false} HexOfAppend(a: seq<byte>, b: seq<byte>)
    ensures HexOf(a + b) == HexOf(a) + HexOf(b)
    decreases |a|
  {
    if a == [] {
      assert a + b == b;
    } else {
      assert (a + b)[1..] == a[1..] + b;
      HexOfAppend(a[1..], b);
    }
  }

  /** The shortened digest text (`slice(0, 16)` of the full hex) is the hex
      of the digest's first 8 bytes, a prefix of the full 64-digit text. */
  lemma ShortHashIsHexOfFirstBytes(d: Digest)
    ensures |HexOf(d)| == 64
    ensures Slice(HexOf(d), 0, 16) == HexOf(d[..8]) == HexOf(d)[..16]
  {
    HexOfAppend(d[..8], d[8..]);
    assert d == d[..8] + d[8..];
  }

  // ---------------------------------------------------------------------
  // Spreadsheet import

  /** A worksheet row object: header text to cell value. */
  type Row = map<string, JsVal>

  /** `h?.toString().trim() || ""` */
  function HeaderText(h: JsVal): (t: string)
    ensures h.Str? ==> t == Trim(h.s)
    ensures h.Undefined? || h.Null? ==> t == ""
  {
    match h
    case Str(s) => Trim(s)
    case Key(b) => Trim(b)
    case _ => ""
  }

  /** `row[i] !== undefined ? row[i] : ""` */
  function CellAt(cells: seq<JsVal>, i: nat): (v: JsVal)
    ensures v != Undefined
  {
    if i < |cells| && cells[i] != Undefined then cells[i] else Str("")
  }

  /** The object after the first `n` headers were assigned; a later
      duplicate header overwrites an earlier one. */
  function RowObjectOf(headers: seq<string>, cells: seq<JsVal>, n: nat): Row
    requires n <= |headers|
  {
    if n == 0 then map[] else RowObjectOf(headers, cells, n - 1)[headers[n - 1] := CellAt(cells, n - 1)]
  }

  /** Each header is a key, holding the cell under its last occurrence. */
  lemma {:induction false} RowObjectLookup(headers: seq<string>, cells: seq<JsVal>, n: nat, i: nat)
    requires i < n <= |headers|
    requires forall j :: i < j < n ==> headers[j] != headers[i]
    ensures headers[i] in RowObjectOf(headers, cells, n)
    ensures RowObjectOf(headers, cells, n)[headers[i]] == CellAt(cells, i)
  {
    if i < n - 1 {
      RowObjectLookup(headers, cells, n - 1, i);
    }
  }

  lemma {:induction false} RowObjectKeys(headers: seq<string>, cells: seq<JsVal>, n: nat)
    requires n <= |headers|
    ensures RowObjectOf(headers, cells, n).Keys == set j | 0 <= j < n :: headers[j]
  {
    if n > 0 {
      RowObjectKeys(headers, cells, n - 1);
    }
  }

  /** `headers.forEach((header, i) => { obj[header] = … })` */
  method RowObject(headers: seq<string>, cells: seq<JsVal>) returns (obj: Row)
    ensures obj == RowObjectOf(headers, cells, |headers|)
  {
    obj := map[];
    var i := 0;
    while i < |headers|
      invariant 0 <= i <= |headers|
      invariant obj == RowObjectOf(headers, cells, i)
    {
      obj := obj[headers[i] := CellAt(cells, i)];
      i := i + 1;
    }
  }

  /** The trimmed header row. */
  function Headers(first: seq<JsVal>): (hs: seq<string>)
    ensures |hs| == |first|
    ensures forall i :: 0 <= i < |first| ==> hs[i] == HeaderText(first[i])
  {
    if first == [] then [] else [HeaderText(first[0])] + Headers(first[1..])
  }

  /** A parsed sheet (rows of cells) into row objects: rejected with fewer
      than two rows, otherwise one object per data row. */
  method ImportSheet(sheet: seq<seq<JsVal>>) returns (rows: Option<seq<Row>>)
    ensures rows.None? <==> |sheet| < 2
    ensures rows.Some? ==> |rows.value| == |sheet| - 1
    ensures rows.Some? ==> forall i :: 0 <= i < |rows.value| ==>
      rows.value[i] == RowObjectOf(Headers(sheet[0]), sheet[i + 1], |sheet[0]|)
  {
    if |sheet| < 2 {
      return None;
    }
    var headers := Headers(sheet[0]);
    var out: seq<Row> := [];
    var r := 1;
    while r < |sheet|
      invariant 1 <= r <= |sheet|
      invariant |out| == r - 1
      invariant forall i :: 0 <= i < |out| ==> out[i] == RowObjectOf(headers, sheet[i + 1], |sheet[0]|)
    {
      var obj := RowObject(headers, sheet[r]);
      out := out + [obj];
      r := r + 1;
    }
    rows := Some(out);
  }

  // ---------------------------------------------------------------------
  // Row to form

  /** `row[c]`: undefined for a missing column. */
  function Lookup(row: Row, c: string): JsVal
  {
    if c in row then row[c] else Undefined
  }

  /** `row[c1] ?? row[c2] ?? … ?? ""` */
  function CoalesceAll(row: Row, candidates: seq<string>): JsVal
  {
    if candidates == [] then Str("") else Coalesce(Lookup(row, candidates[0]), CoalesceAll(row, candidates[1..]))
  }

  predicate Present(v: JsVal)
  {
    !v.Undefined? && !v.Null?
  }

  /** The chain yields the first column that holds a value (neither missing
      nor null), and "" when none does. */
  lemma {:induction false} CoalesceAllFindsFirst(row: Row, candidates: seq<string>)
    ensures (forall k :: 0 <= k < |candidates| ==> !Present(Lookup(row, candidates[k]))) ==>
      CoalesceAll(row, candidates) == Str("")
    ensures forall j :: 0 <= j < |candidates| ==>
      (Present(Lookup(row, candidates[j])) && (forall k :: 0 <= k < j ==> !Present(Lookup(row, candidates[k])))) ==>
      CoalesceAll(row, candidates) == Lookup(row, candidates[j])
  {
    if candidates != [] {
      CoalesceAllFindsFirst(row, candidates[1..]);
      assert forall k :: 1 <= k < |candidates| ==> candidates[k] == candidates[1..][k - 1];
    }
  }

  /** `String(…).trim()` of the chain. */
  function Pick(row: Row, candidates: seq<string>): string
  {
    Trim(JsString(CoalesceAll(row, candidates)))
  }

  const NamaColumns: seq<string> := ["Nama", "nama"]
  const NimColumns: seq<string> := ["Nim", "nim"]
  const ProgramStudiColumns: seq<string> := ["Program Studi", "program studi"]
  const UniversitasColumns: seq<string> := ["Universitas", "universitas"]
  const KodeBatchColumns: seq<string> := ["Kode Batch", "kode batch"]
  const OperatorColumns: seq<string> := ["Petugas Operator", "petugas operator"]

  /** The column names each form field is read from. The certificate
      number's list differs between the pages and handlers. */
  function RowToForm(row: Row, nomorColumns: seq<string>): Form
  {
    Form(
      Pick(row, NamaColumns),
      Pick(row, NimColumns),
      Pick(row, ProgramStudiColumns),
      Pick(row, UniversitasColumns),
      Pick(row, KodeBatchColumns),
      Pick(row, nomorColumns),
      Pick(row, OperatorColumns))
  }

  /** The certificate-number columns of the new page, for both the row click
      and the "Use This Row" button. */
  const NomorColumns: seq<string> := ["Nomor Ijazah", "nomor ijazah", "Nomor Ijasah", "nomor ijasah"]
}
