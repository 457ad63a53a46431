/** Shared helpers: the small pieces of JavaScript value, string and byte
    semantics that the application code relies on. Strings are sequences of
    characters; JavaScript's UTF-16 code units are not modelled separately. */
module JsCore {

  datatype Option<T> = None | Some(value: T)

  /** One element of a Uint8Array. */
  type byte = x: int | 0 <= x < 256

  /** A 32-byte digest (the size of a SHA-256 output). */
  type Digest = d: seq<byte> | |d| == 32 witness seq(32, _ => 0)

  /** The all-zero digest, `new Uint8Array(32)`. */
  function ZeroDigest(): (d: Digest)
    ensures forall i :: 0 <= i < 32 ==> d[i] == 0
  {
    seq(32, _ => 0)
  }

  /** A loosely typed JavaScript value as the client code meets it in decoded
      ledger accounts and JSON: `undefined`, `null`, a string, or a ledger
      public-key object, identified by its base58 encoding. */
  datatype JsVal = Undefined | Null | Str(s: string) | Key(base58: string)

  /** JavaScript truthiness of such a value. */
  predicate Truthy(v: JsVal)
  {
    match v
    case Str(s) => s != ""
    case Key(_) => true
    case _ => false
  }

  /** `String(v)` */
  function JsString(v: JsVal): string
  {
    match v
    case Str(s) => s
    case Key(b) => b
    case Null => "null"
    case Undefined => "undefined"
  }

  /** `a || b` */
  function Or(a: JsVal, b: JsVal): JsVal
  {
    if Truthy(a) then a else b
  }

  /** `a ?? b` */
  function Coalesce(a: JsVal, b: JsVal): JsVal
  {
    if a.Undefined? || a.Null? then b else a
  }

  /** `v?.toBase58?.()`: only a key object has the method. */
  function CallToBase58(v: JsVal): JsVal
  {
    if v.Key? then Str(v.base58) else Undefined
  }

  // ---------------------------------------------------------------------
  // Whitespace and trimming (String.prototype.trim)

  /** The WhiteSpace and LineTerminator code points that `trim` removes. */
  predicate IsJsSpace(c: char)
  {
    c == '\t' || c == '\n' || c == '\U{B}' || c == '\U{C}' || c == '\r' || c == ' '
    || c == '\U{A0}' || c == '\U{1680}' || ('\U{2000}' <= c <= '\U{200A}')
    || c == '\U{2028}' || c == '\U{2029}' || c == '\U{202F}' || c == '\U{205F}'
    || c == '\U{3000}' || c == '\U{FEFF}'
  }

  function TrimEnd(s: string): string
  {
    if s == [] || !IsJsSpace(s[|s| - 1]) then s else TrimEnd(s[..|s| - 1])
  }

  lemma {:induction false} TrimEndIsPrefix(s: string)
    ensures var r := TrimEnd(s);
            |r| <= |s| && r == s[..|r|]
            && (forall i :: |r| <= i < |s| ==> IsJsSpace(s[i]))
            && (r == [] || !IsJsSpace(r[|r| - 1]))
  {
    if s != [] && IsJsSpace(s[|s| - 1]) {
      var t := s[..|s| - 1];
      TrimEndIsPrefix(t);
      var r := TrimEnd(t);
      assert TrimEnd(s) == r;
      assert t[..|r|] == s[..|r|];
      forall i | |r| <= i < |s|
        ensures IsJsSpace(s[i])
      {
        if i < |s| - 1 {
          assert s[i] == t[i];
        }
      }
    }
  }

  function TrimStart(s: string): string
  {
    if s == [] || !IsJsSpace(s[0]) then s else TrimStart(s[1..])
  }

  lemma {:induction false} TrimStartIsSuffix(s: string)
    ensures var r := TrimStart(s);
            |r| <= |s| && r == s[|s| - |r|..]
            && (forall i :: 0 <= i < |s| - |r| ==> IsJsSpace(s[i]))
            && (r == [] || !IsJsSpace(r[0]))
  {
    if s != [] && IsJsSpace(s[0]) {
      var t := s[1..];
      TrimStartIsSuffix(t);
      var r := TrimStart(t);
      assert TrimStart(s) == r;
      assert t[|t| - |r|..] == s[|s| - |r|..];
      forall i | 0 <= i < |s| - |r|
        ensures IsJsSpace(s[i])
      {
        if i > 0 {
          assert s[i] == t[i - 1];
        }
      }
    }
  }

  /** `s.trim()`: the longest infix with no whitespace at either end. */
  function Trim(s: string): (r: string)
    ensures r == [] || (!IsJsSpace(r[0]) && !IsJsSpace(r[|r| - 1]))
    ensures r == [] <==> forall i :: 0 <= i < |s| ==> IsJsSpace(s[i])
  {
    var e := TrimEnd(s);
    TrimEndIsPrefix(s);
    TrimStartIsSuffix(e);
    var t := TrimStart(e);
    assert t != [] ==> t[|t| - 1] == e[|e| - 1];
    t
  }

  /** `trim` removes exactly the whitespace at both ends: the result is the
      infix left once a whitespace-only prefix and suffix are dropped, and
      (by Trim's own contract) it neither starts nor ends with whitespace. */
  lemma TrimRemovesOuterSpace(s: string)
    ensures exists i, j :: 0 <= i <= j <= |s| && Trim(s) == s[i..j]
                          && (forall k :: 0 <= k < i ==> IsJsSpace(s[k]))
                          && (forall k :: j <= k < |s| ==> IsJsSpace(s[k]))
  {
    var e := TrimEnd(s);
    TrimEndIsPrefix(s);
    TrimStartIsSuffix(e);
    var t := TrimStart(e);
    var i, j := |e| - |t|, |e|;
    assert Trim(s) == t;
    assert t == s[i..j];
    assert forall k :: 0 <= k < i ==> s[k] == e[k];
  }

  /** Trimming twice is trimming once. */
  lemma TrimIsIdempotent(s: string)
    ensures Trim(Trim(s)) == Trim(s)
  {
    var t := Trim(s);
    assert TrimEnd(t) == t;
    assert TrimStart(t) == t;
  }

  /** `!String(x).trim()`: the value is empty or whitespace only. */
  predicate Blank(s: string)
  {
    Trim(s) == ""
  }

  // ---------------------------------------------------------------------
  // Prefixes, suffixes, case, substrings

  predicate StartsWith(s: string, p: string)
  {
    |p| <= |s| && s[..|p|] == p
  }

  predicate EndsWith(s: string, p: string)
  {
    |p| <= |s| && s[|s| - |p|..] == p
  }

  /** A string contains `sub` somewhere (a regular expression without anchors). */
  predicate Contains(s: string, sub: string)
    decreases |s|
  {
    StartsWith(s, sub) || (s != [] && Contains(s[1..], sub))
  }

  function LowerChar(c: char): char
  {
    if 'A' <= c <= 'Z' then (c as int + 32) as char else c
  }

  /** `s.toLowerCase()`, restricted to the ASCII letters. */
  function Lower(s: string): (r: string)
    ensures |r| == |s|
    ensures forall i :: 0 <= i < |s| ==> r[i] == LowerChar(s[i])
  {
    seq(|s|, i requires 0 <= i < |s| => LowerChar(s[i]))
  }

  /** Text with no upper-case ASCII letter is its own lower-case form. */
  lemma LowerKeepsLowercase(s: string)
    requires forall i :: 0 <= i < |s| ==> !('A' <= s[i] <= 'Z')
    ensures Lower(s) == s
  {
  }

  /** `s.replace(/\/+$/, "")`: drops every trailing slash. */
  function StripTrailingSlashes(s: string): (r: string)
    ensures |r| <= |s| && r == s[..|r|]
    ensures forall i :: |r| <= i < |s| ==> s[i] == '/'
    ensures r == [] || r[|r| - 1] != '/'
  {
    if s == [] || s[|s| - 1] != '/' then s else StripTrailingSlashes(s[..|s| - 1])
  }

  /** `s.replace(/\/+$/, "") + "/"`: a base URL ending in exactly one slash. */
  function WithOneTrailingSlash(s: string): (r: string)
    ensures |r| >= 1 && r[|r| - 1] == '/'
    ensures |r| == 1 || r[|r| - 2] != '/'
    ensures r[..|r| - 1] == StripTrailingSlashes(s)
  {
    StripTrailingSlashes(s) + "/"
  }

  /** An index argument of `slice`, resolved against the length. */
  function SliceIndex(i: int, len: nat): (k: nat)
    ensures k <= len
  {
    if i < 0 then (if len + i < 0 then 0 else len + i) else if i > len then len else i
  }

  /** `s.slice(start, end)` with JavaScript's treatment of negative and
      out-of-range indices. */
  function Slice(s: string, start: int, end: int): string
  {
    var a := SliceIndex(start, |s|);
    var b := SliceIndex(end, |s|);
    if a < b then s[a..b] else ""
  }

  // ---------------------------------------------------------------------
  // Hex and decimal text

  const HexDigits: string := "0123456789abcdef"

  /** `b.toString(16).padStart(2, "0")` */
  function HexByte(b: byte): (r: string)
    ensures |r| == 2
  {
    [HexDigits[b / 16], HexDigits[b % 16]]
  }

  /** `Array.from(bytes).map(b => b.toString(16).padStart(2, "0")).join("")` */
  function HexOf(bs: seq<byte>): (r: string)
    ensures |r| == 2 * |bs|
  {
    if bs == [] then "" else HexByte(bs[0]) + HexOf(bs[1..])
  }

  function HexValue(c: char): Option<nat>
  {
    if '0' <= c <= '9' then Some(c as int - '0' as int)
    else if 'a' <= c <= 'f' then Some(c as int - 'a' as int + 10)
    else None
  }

  /** Reads lowercase hex text back into bytes; the inverse of HexOf. */
  function FromHex(s: string): Option<seq<byte>>
    decreases |s|
  {
    if s == [] then Some([])
    else if |s| == 1 then None
    else match (HexValue(s[0]), HexValue(s[1]), FromHex(s[2..]))
      case (Some(h), Some(l), Some(rest)) =>
        if h < 16 && l < 16 then Some([(h * 16 + l) as byte] + rest) else None
      case _ => None
  }

  lemma HexByteDecodes(b: byte)
    ensures HexValue(HexByte(b)[0]) == Some(b / 16)
    ensures HexValue(HexByte(b)[1]) == Some(b % 16)
  {
    assert forall k :: 0 <= k < 16 ==> HexValue(HexDigits[k]) == Some(k);
  }

  /** Hex encoding loses nothing: decoding it gives the bytes back. */
  lemma {:induction false} HexRoundTrip(bs: seq<byte>)
    ensures FromHex(HexOf(bs)) == Some(bs)
  {
    if bs != [] {
      var s := HexOf(bs);
      HexByteDecodes(bs[0]);
      assert s[..2] == HexByte(bs[0]);
      assert s[2..] == HexOf(bs[1..]);
      HexRoundTrip(bs[1..]);
      assert bs == [bs[0]] + bs[1..];
    }
  }

  /** Position `2i` of the hex text holds the two digits of byte `i`. */
  lemma {:induction false} HexOfAt(bs: seq<byte>, i: nat)
    requires i < |bs|
    ensures HexOf(bs)[2 * i .. 2 * i + 2] == HexByte(bs[i])
  {
    if i > 0 {
      HexOfAt(bs[1..], i - 1);
      assert HexOf(bs) == HexByte(bs[0]) + HexOf(bs[1..]);
    }
  }

  /** Every character of hex text is a lowercase hex digit. */
  lemma {:induction false} HexOfIsLowercaseHex(bs: seq<byte>)
    ensures forall k :: 0 <= k < |HexOf(bs)| ==> HexOf(bs)[k] in HexDigits
  {
    if bs != [] {
      HexOfIsLowercaseHex(bs[1..]);
      var h := HexByte(bs[0]);
      assert h[0] in HexDigits && h[1] in HexDigits;
      assert HexOf(bs) == h + HexOf(bs[1..]);
    }
  }

  function DigitChar(d: nat): char
    requires d < 10
  {
    "0123456789"[d]
  }

  /** Decimal text of a natural number, as template literals print it. */
  function NatToString(n: nat): (r: string)
    ensures |r| >= 1
    decreases n
  {
    if n < 10 then [DigitChar(n)] else NatToString(n / 10) + [DigitChar(n % 10)]
  }

  predicate IsDigits(s: string)
  {
    forall k :: 0 <= k < |s| ==> '0' <= s[k] <= '9'
  }

  /** The number a string of decimal digits denotes. */
  function DecimalValue(s: string): nat
    requires IsDigits(s)
    decreases |s|
  {
    if s == [] then 0 else DecimalValue(s[..|s| - 1]) * 10 + (s[|s| - 1] as int - '0' as int)
  }

  lemma DigitCharValue(d: nat)
    requires d < 10
    ensures '0' <= DigitChar(d) <= '9' && DigitChar(d) as int - '0' as int == d
  {
    assert forall k :: 0 <= k < 10 ==> "0123456789"[k] as int == '0' as int + k;
  }

  /** The text is the number's decimal digits, with no leading zero, and it
      reads back to the number; so distinct numbers print differently. */
  lemma {:induction false} NatToStringIsDecimal(n: nat)
    ensures IsDigits(NatToString(n))
    ensures DecimalValue(NatToString(n)) == n
    ensures NatToString(n)[0] == '0' ==> n == 0
    decreases n
  {
    if n < 10 {
      DigitCharValue(n);
      assert NatToString(n)[..0] == [];
    } else {
      NatToStringIsDecimal(n / 10);
      DigitCharValue(n % 10);
      var r := NatToString(n);
      assert r[..|r| - 1] == NatToString(n / 10);
    }
  }

  lemma NatToStringInjective(m: nat, n: nat)
    requires NatToString(m) == NatToString(n)
    ensures m == n
  {
    NatToStringIsDecimal(m);
    NatToStringIsDecimal(n);
  }

  // ---------------------------------------------------------------------
  // UTF-8 length (Buffer.from(s, "utf8").length)

  /** The number of UTF-8 bytes of one code point. */
  function Utf8Width(c: char): nat
  {
    if c as int < 0x80 then 1 else if c as int < 0x800 then 2 else if c as int < 0x10000 then 3 else 4
  }

  function Utf8Length(s: string): (n: nat)
    ensures |s| <= n <= 4 * |s|
  {
    if s == [] then 0 else Utf8Width(s[0]) + Utf8Length(s[1..])
  }

  /** ASCII text takes one byte per character; anything else takes more. */
  lemma {:induction false} Utf8LengthOfAscii(s: string)
    ensures Utf8Length(s) == |s| <==> forall k :: 0 <= k < |s| ==> s[k] as int < 0x80
  {
    if s != [] {
      Utf8LengthOfAscii(s[1..]);
      assert forall k :: 1 <= k < |s| ==> s[k] == s[1..][k - 1];
    }
  }

  // ---------------------------------------------------------------------
  // A total order on strings

  /** Lexicographic order by code point: the model's stand-in for the
      locale collation of `localeCompare`. */
  predicate LexLe(a: string, b: string)
    decreases |a|
  {
    a == [] || (b != [] && (a[0] < b[0] || (a[0] == b[0] && LexLe(a[1..], b[1..]))))
  }

  lemma {:induction false} LexLeTotal(a: string, b: string)
    ensures LexLe(a, b) || LexLe(b, a)
    decreases |a|
  {
    if a != [] && b != [] && a[0] == b[0] {
      LexLeTotal(a[1..], b[1..]);
    }
  }

  lemma {:induction false} LexLeTransitive(a: string, b: string, c: string)
    requires LexLe(a, b) && LexLe(b, c)
    ensures LexLe(a, c)
    decreases |a|
  {
    if a != [] && b != [] && c != [] && a[0] == b[0] && b[0] == c[0] {
      LexLeTransitive(a[1..], b[1..], c[1..]);
    }
  }
}
