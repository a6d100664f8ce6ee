/** Byte encodings: consensus form of outputs (BIP 144, Specification section: 8-byte little-endian
    value, CompactSize script length, script), fixed-width integers, and base16 text. */
module Encoding {
  import opened Basics
  import opened Bitcoin

  function Pow256(n: nat): (p: nat)
    ensures p > 0
  {
    if n == 0 then 1 else 256 * Pow256(n - 1)
  }

  lemma {:induction false} Pow256Values()
    ensures Pow256(1) == 0x100 && Pow256(2) == 0x1_0000
    ensures Pow256(4) == 0x1_0000_0000 && Pow256(8) == 0x1_0000_0000_0000_0000
  {
    assert Pow256(3) == 256 * Pow256(2);
    assert Pow256(5) == 256 * Pow256(4);
    assert Pow256(6) == 256 * Pow256(5);
    assert Pow256(7) == 256 * Pow256(6);
  }

  // ----- Fixed-width integers -----

  function LittleEndian(v: nat, n: nat): (b: seq<Byte>)
    ensures |b| == n
  {
    if n == 0 then [] else [v % 256] + LittleEndian(v / 256, n - 1)
  }

  function FromLittleEndian(b: seq<Byte>): nat {
    if b == [] then 0 else b[0] + 256 * FromLittleEndian(b[1..])
  }

  lemma {:induction false} LittleEndianRoundTrip(v: nat, n: nat)
    requires v < Pow256(n)
    ensures FromLittleEndian(LittleEndian(v, n)) == v
  {
    if n == 0 {
    } else {
      assert v / 256 < Pow256(n - 1);
      LittleEndianRoundTrip(v / 256, n - 1);
      assert LittleEndian(v, n)[1..] == LittleEndian(v / 256, n - 1);
    }
  }

  function BigEndian(v: nat, n: nat): (b: seq<Byte>)
    ensures |b| == n
  {
    if n == 0 then [] else BigEndian(v / 256, n - 1) + [v % 256]
  }

  function FromBigEndian(b: seq<Byte>): nat {
    if b == [] then 0 else 256 * FromBigEndian(b[..|b| - 1]) + b[|b| - 1]
  }

  lemma {:induction false} BigEndianRoundTrip(v: nat, n: nat)
    requires v < Pow256(n)
    ensures FromBigEndian(BigEndian(v, n)) == v
  {
    if n == 0 {
    } else {
      assert v / 256 < Pow256(n - 1);
      BigEndianRoundTrip(v / 256, n - 1);
      assert BigEndian(v, n)[..n - 1] == BigEndian(v / 256, n - 1);
    }
  }

  // ----- CompactSize -----

  function CompactSize(v: U64): seq<Byte> {
    if v < 0xFD then [v]
    else if v <= 0xFFFF then [0xFD] + LittleEndian(v, 2)
    else if v <= 0xFFFF_FFFF then [0xFE] + LittleEndian(v, 4)
    else [0xFF] + LittleEndian(v, 8)
  }

  /** A value read from the front of a buffer, and what follows it. */
  datatype Read<+T> = Read(value: T, rest: seq<Byte>)

  function ReadLittleEndian(b: seq<Byte>, n: nat): (r: Option<Read<nat>>)
    ensures r.Some? ==> |r.value.rest| + n == |b|
  {
    if |b| < n then None else Some(Read(FromLittleEndian(b[..n]), b[n..]))
  }

  function ReadCompactSize(b: seq<Byte>): (r: Option<Read<nat>>)
    ensures r.Some? ==> |r.value.rest| < |b|
  {
    if b == [] then None
    else if b[0] < 0xFD then Some(Read(b[0], b[1..]))
    else ReadLittleEndian(b[1..], if b[0] == 0xFD then 2 else if b[0] == 0xFE then 4 else 8)
  }

  lemma {:induction false} ReadLittleEndianRoundTrip(v: nat, n: nat, rest: seq<Byte>)
    requires v < Pow256(n)
    ensures ReadLittleEndian(LittleEndian(v, n) + rest, n) == Some(Read(v as nat, rest))
  {
    LittleEndianRoundTrip(v, n);
    var b := LittleEndian(v, n) + rest;
    assert b[..n] == LittleEndian(v, n) && b[n..] == rest;
  }

  lemma {:induction false} ReadAfterTag(tag: Byte, v: nat, n: nat, rest: seq<Byte>)
    requires tag >= 0xFD && n == (if tag == 0xFD then 2 else if tag == 0xFE then 4 else 8)
    requires v < Pow256(n)
    ensures ReadCompactSize([tag] + LittleEndian(v, n) + rest) == Some(Read(v, rest))
  {
    assert ([tag] + LittleEndian(v, n) + rest)[1..] == LittleEndian(v, n) + rest;
    ReadLittleEndianRoundTrip(v, n, rest);
  }

  lemma {:induction false} CompactSizeRoundTrip(v: U64, rest: seq<Byte>)
    ensures ReadCompactSize(CompactSize(v) + rest) == Some(Read(v as nat, rest))
  {
    Pow256Values();
    if v < 0xFD {
      assert ([v] + rest)[1..] == rest;
    } else if v <= 0xFFFF {
      ReadAfterTag(0xFD, v, 2, rest);
    } else if v <= 0xFFFF_FFFF {
      ReadAfterTag(0xFE, v, 4, rest);
    } else {
      ReadAfterTag(0xFF, v, 8, rest);
    }
  }

  // ----- Transaction outputs -----

  function EncodeTxOut(o: TxOut): (b: seq<Byte>)
    ensures |b| > 0
  {
    LittleEndian(o.value, 8) + (CompactSize(|o.scriptPubkey|) + o.scriptPubkey)
  }

  /** The uncounted concatenation hashed into an outputs commitment. */
  function EncodeOutputs(outputs: seq<TxOut>): seq<Byte> {
    if outputs == [] then [] else EncodeTxOut(outputs[0]) + EncodeOutputs(outputs[1..])
  }

  function ReadTxOut(b: seq<Byte>): (r: Option<Read<TxOut>>)
    ensures r.Some? ==> |r.value.rest| < |b|
  {
    match ReadLittleEndian(b, 8)
    case None => None
    case Some(value) =>
      match ReadCompactSize(value.rest)
      case None => None
      case Some(len) =>
        if len.value > |len.rest| || len.value > U64_MAX || value.value > U64_MAX then None
        else Some(Read(TxOut(value.value, len.rest[..len.value]), len.rest[len.value..]))
  }

  function DecodeOutputs(b: seq<Byte>): Option<seq<TxOut>>
    decreases |b|
  {
    if b == [] then Some([])
    else
      match ReadTxOut(b)
      case None => None
      case Some(first) =>
        match DecodeOutputs(first.rest)
        case None => None
        case Some(others) => Some([first.value] + others)
  }

  lemma {:induction false} TxOutRoundTrip(o: TxOut, rest: seq<Byte>)
    ensures ReadTxOut(EncodeTxOut(o) + rest) == Some(Read(o, rest))
  {
    Pow256Values();
    var size, script := CompactSize(|o.scriptPubkey|), o.scriptPubkey;
    var tail := script + rest;
    assert EncodeTxOut(o) + rest == LittleEndian(o.value, 8) + (size + tail);
    ReadLittleEndianRoundTrip(o.value, 8, size + tail);
    CompactSizeRoundTrip(|script|, tail);
    assert tail[..|script|] == script && tail[|script|..] == rest;
  }

  /** Decoding the uncounted concatenation gives the outputs back. */
  lemma {:induction false} OutputsRoundTrip(outputs: seq<TxOut>)
    ensures DecodeOutputs(EncodeOutputs(outputs)) == Some(outputs)
  {
    if outputs == [] {
    } else {
      TxOutRoundTrip(outputs[0], EncodeOutputs(outputs[1..]));
      OutputsRoundTrip(outputs[1..]);
      assert outputs == [outputs[0]] + outputs[1..];
    }
  }

  lemma {:induction false} EncodeOutputsInjective(a: seq<TxOut>, b: seq<TxOut>)
    requires EncodeOutputs(a) == EncodeOutputs(b)
    ensures a == b
  {
    OutputsRoundTrip(a);
    OutputsRoundTrip(b);
  }

  // ----- Base16 text -----

  const HEX_DIGITS: string := "0123456789abcdef"

  function HexValue(c: char): (v: Option<nat>)
    ensures v.Some? ==> v.value < 16
  {
    if '0' <= c <= '9' then Some(c as int - '0' as int)
    else if 'a' <= c <= 'f' then Some(c as int - 'a' as int + 10)
    else if 'A' <= c <= 'F' then Some(c as int - 'A' as int + 10)
    else None
  }

  function HexEncode(b: seq<Byte>): string {
    if b == [] then ""
    else [HEX_DIGITS[b[0] / 16], HEX_DIGITS[b[0] % 16]] + HexEncode(b[1..])
  }

  /** Either case is accepted; an odd length or any other character is an error. */
  function HexDecode(s: string): (r: PolicyResult<seq<Byte>>)
    ensures r.Ok? ==> |s| == 2 * |r.value|
  {
    if s == "" then Ok([])
    else if |s| == 1 then Err(Internal)
    else
      match (HexValue(s[0]), HexValue(s[1]))
      case (Some(high), Some(low)) =>
        var others :- HexDecode(s[2..]);
        Ok([16 * high + low] + others)
      case _ => Err(Internal)
  }

  lemma {:induction false} HexDigitRoundTrip(v: nat)
    requires v < 16
    ensures HexValue(HEX_DIGITS[v]) == Some(v)
  {
  }

  lemma {:induction false} HexByteRoundTrip(v: Byte, rest: string)
    requires HexDecode(rest).Ok?
    ensures HexDecode([HEX_DIGITS[v / 16], HEX_DIGITS[v % 16]] + rest) == Ok([v] + HexDecode(rest).value)
  {
    HexDigitRoundTrip(v / 16);
    HexDigitRoundTrip(v % 16);
    assert ([HEX_DIGITS[v / 16], HEX_DIGITS[v % 16]] + rest)[2..] == rest;
  }

  lemma {:induction false} HexRoundTrip(b: seq<Byte>)
    ensures HexDecode(HexEncode(b)) == Ok(b)
  {
    if b == [] {
    } else {
      HexRoundTrip(b[1..]);
      HexByteRoundTrip(b[0], HexEncode(b[1..]));
      assert b == [b[0]] + b[1..];
    }
  }

  // ----- What base16 text says -----

  predicate ReadsDigit(c: char, v: nat)
    requires v < 16
  {
    c == "0123456789abcdef"[v] || c == "0123456789ABCDEF"[v]
  }

  /** Two digits a byte, the high one first. */
  predicate ReadsHex(text: string, bytes: seq<Byte>) {
    && |text| == 2 * |bytes|
    && forall i :: 0 <= i < |bytes| ==>
         ReadsDigit(text[2 * i], bytes[i] / 16) && ReadsDigit(text[2 * i + 1], bytes[i] % 16)
  }

  predicate IsHexDigit(c: char) {
    '0' <= c <= '9' || 'a' <= c <= 'f' || 'A' <= c <= 'F'
  }

  predicate IsHex(text: string) {
    |text| % 2 == 0 && forall i :: 0 <= i < |text| ==> IsHexDigit(text[i])
  }

  lemma {:induction false} HexValueMeans(c: char, v: nat)
    requires v < 16
    ensures HexValue(c) == Some(v) <==> ReadsDigit(c, v)
    ensures HexValue(c).Some? <==> IsHexDigit(c)
  {
  }

  lemma {:induction false} ReadsHexOneMore(text: string, b: Byte, bytes: seq<Byte>)
    requires |text| >= 2
    ensures ReadsHex(text, [b] + bytes) <==>
            ReadsDigit(text[0], b / 16) && ReadsDigit(text[1], b % 16) && ReadsHex(text[2..], bytes)
  {
    var all, rest := [b] + bytes, text[2..];
    assert forall i :: 0 <= i < |bytes| ==> all[i + 1] == bytes[i];
    assert forall i :: 0 <= i < |rest| ==> rest[i] == text[i + 2];
    if ReadsHex(text, all) {
      assert all[0] == b;
      forall i | 0 <= i < |bytes|
        ensures ReadsDigit(rest[2 * i], bytes[i] / 16) && ReadsDigit(rest[2 * i + 1], bytes[i] % 16)
      {
        assert all[i + 1] == bytes[i];
        assert ReadsDigit(text[2 * (i + 1)], all[i + 1] / 16) && ReadsDigit(text[2 * (i + 1) + 1], all[i + 1] % 16);
      }
    }
    if ReadsDigit(text[0], b / 16) && ReadsDigit(text[1], b % 16) && ReadsHex(rest, bytes) {
      forall i | 0 <= i < |all|
        ensures ReadsDigit(text[2 * i], all[i] / 16) && ReadsDigit(text[2 * i + 1], all[i] % 16)
      {
        if i > 0 {
          assert ReadsDigit(rest[2 * (i - 1)], bytes[i - 1] / 16);
          assert ReadsDigit(rest[2 * (i - 1) + 1], bytes[i - 1] % 16);
        }
      }
    }
  }

  lemma {:induction false} HexDecodeOneMore(text: string, b: Byte, bytes: seq<Byte>)
    requires |text| >= 2
    ensures HexDecode(text) == Ok([b] + bytes) <==>
            ReadsDigit(text[0], b / 16) && ReadsDigit(text[1], b % 16) && HexDecode(text[2..]) == Ok(bytes)
  {
    HexValueMeans(text[0], b / 16);
    HexValueMeans(text[1], b % 16);
    var others := HexDecode(text[2..]);
    if HexValue(text[0]).Some? && HexValue(text[1]).Some? && others.Ok? {
      var first: Byte := 16 * HexValue(text[0]).value + HexValue(text[1]).value;
      assert HexDecode(text) == Ok([first] + others.value);
      SameNibbles(HexValue(text[0]).value, HexValue(text[1]).value, b);
      SameHeadSameTail(first, others.value, b, bytes);
    }
  }

  lemma {:induction false} SameNibbles(high: nat, low: nat, b: Byte)
    requires high < 16 && low < 16
    ensures 16 * high + low == b <==> high == b / 16 && low == b % 16
  {
  }

  lemma {:induction false} SameHeadSameTail(a: Byte, s: seq<Byte>, b: Byte, t: seq<Byte>)
    ensures [a] + s == [b] + t <==> a == b && s == t
  {
    if [a] + s == [b] + t {
      assert ([a] + s)[0] == ([b] + t)[0];
      assert ([a] + s)[1..] == s && ([b] + t)[1..] == t;
    }
  }

  lemma {:induction false} DecodesHex(text: string)
    ensures HexDecode(text).Ok? <==> IsHex(text)
    ensures HexDecode(text).Err? ==> HexDecode(text) == Err(Internal)
    decreases |text|
  {
    if |text| < 2 {
    } else {
      var rest := text[2..];
      DecodesHex(rest);
      HexValueMeans(text[0], 0);
      HexValueMeans(text[1], 0);
      assert forall i :: 0 <= i < |rest| ==> rest[i] == text[i + 2];
      if IsHexDigit(text[0]) && IsHexDigit(text[1]) && IsHex(rest) {
        assert forall i :: 2 <= i < |text| ==> text[i] == rest[i - 2];
      }
    }
  }

  /** Decoding gives exactly the bytes the text says. */
  lemma {:induction false} HexDecodeIsExact(text: string, bytes: seq<Byte>)
    ensures HexDecode(text) == Ok(bytes) <==> ReadsHex(text, bytes)
    decreases |text|
  {
    if |text| < 2 || bytes == [] {
    } else {
      HexDecodeIsExact(text[2..], bytes[1..]);
      assert bytes == [bytes[0]] + bytes[1..];
      HexDecodeOneMore(text, bytes[0], bytes[1..]);
      ReadsHexOneMore(text, bytes[0], bytes[1..]);
    }
  }

  /** Encoding is in lower case. */
  lemma {:induction false} HexEncodeIsLower(bytes: seq<Byte>, i: nat)
    ensures |HexEncode(bytes)| == 2 * |bytes|
    ensures i < |bytes| ==>
              && HexEncode(bytes)[2 * i] == "0123456789abcdef"[bytes[i] / 16]
              && HexEncode(bytes)[2 * i + 1] == "0123456789abcdef"[bytes[i] % 16]
  {
    if bytes == [] {
    } else {
      HexEncodeIsLower(bytes[1..], if i == 0 then 0 else i - 1);
    }
  }
}
