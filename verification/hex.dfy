/**
 * Go's `encoding/hex`, as used by the deposit-address generator (bitcoin.go) and by the
 * key vault (wallet_service.go): lower-case encoding, and decoding that accepts either case.
 */
module Hex {
  import opened Wrappers

  /** An octet, as Go's `byte`. */
  newtype Byte = x: int | 0 <= x < 256

  const LowerDigits: string := "0123456789abcdef"

  predicate IsHexChar(c: char) {
    ('0' <= c <= '9') || ('a' <= c <= 'f') || ('A' <= c <= 'F')
  }

  predicate IsLowerHexChar(c: char) {
    ('0' <= c <= '9') || ('a' <= c <= 'f')
  }

  /** The value of one hex digit, either case. */
  function DigitValue(c: char): (v: nat)
    requires IsHexChar(c)
    ensures v < 16
  {
    if '0' <= c <= '9' then c as int - '0' as int
    else if 'a' <= c <= 'f' then c as int - 'a' as int + 10
    else c as int - 'A' as int + 10
  }

  lemma DigitValueOfLowerDigit(d: nat)
    requires d < 16
    ensures IsLowerHexChar(LowerDigits[d]) && DigitValue(LowerDigits[d]) == d
  {
  }

  function EncodeByte(b: Byte): string {
    [LowerDigits[(b as int) / 16], LowerDigits[(b as int) % 16]]
  }

  /** `hex.EncodeToString`: two lower-case digits per byte, high nibble first. */
  function Encode(bytes: seq<Byte>): (s: string)
    ensures |s| == 2 * |bytes|
    ensures forall i :: 0 <= i < |s| ==> IsLowerHexChar(s[i])
  {
    if bytes == [] then ""
    else
      DigitValueOfLowerDigit((bytes[0] as int) / 16);
      DigitValueOfLowerDigit((bytes[0] as int) % 16);
      EncodeByte(bytes[0]) + Encode(bytes[1..])
  }

  /** The two errors of `hex.DecodeString`: `ErrLength` and `InvalidByteError`. */
  datatype HexError = OddLength | InvalidByte(b: Byte)

  const UpperDigits: string := "0123456789ABCDEF"

  /**
   * The byte Go reports for a character that is not a hex digit: the first byte of its UTF-8
   * encoding (the character itself when it is ASCII).
   */
  function LeadByte(c: char): Byte {
    var n := c as int;
    if n < 0x80 then n as Byte
    else if n < 0x800 then (0xC0 + n / 0x40) as Byte
    else if n < 0x1_0000 then (0xE0 + n / 0x1000) as Byte
    else (0xF0 + n / 0x4_0000) as Byte
  }

  /** `strconv.IsPrint` on the Latin-1 range. */
  predicate IsPrintByte(b: Byte) {
    (0x20 <= b <= 0x7E) || (0xA1 <= b && b != 0xAD)
  }

  /** The error texts; an invalid byte is shown as Go's `%#U` shows a rune. */
  function ErrorText(e: HexError): string {
    match e
    case OddLength => "encoding/hex: odd length hex string"
    case InvalidByte(b) =>
      "encoding/hex: invalid byte: U+00" + [UpperDigits[(b as int) / 16], UpperDigits[(b as int) % 16]]
      + (if IsPrintByte(b) then " '" + [(b as int) as char] + "'" else "")
  }

  /**
   * `hex.DecodeString`: digits are read in pairs, the first character that is not a hex digit
   * is the error, and a lone last digit is `ErrLength`.
   */
  function Decode(s: string): (r: Result<seq<Byte>, HexError>)
    ensures r.Ok? ==> |s| == 2 * |r.value|
  {
    if |s| == 0 then Ok([])
    else if !IsHexChar(s[0]) then Err(InvalidByte(LeadByte(s[0])))
    else if |s| == 1 then Err(OddLength)
    else if !IsHexChar(s[1]) then Err(InvalidByte(LeadByte(s[1])))
    else
      match Decode(s[2..])
      case Err(e) => Err(e)
      case Ok(rest) => Ok([(DigitValue(s[0]) * 16 + DigitValue(s[1])) as Byte] + rest)
  }

  /** Decoding succeeds exactly on even-length strings of hex digits, and only such a string of odd length fails on its length. */
  lemma {:induction false} DecodeSucceeds(s: string)
    ensures Decode(s).Ok? <==> |s| % 2 == 0 && forall i :: 0 <= i < |s| ==> IsHexChar(s[i])
    ensures Decode(s) == Err(OddLength) <==> |s| % 2 == 1 && forall i :: 0 <= i < |s| ==> IsHexChar(s[i])
  {
    if |s| >= 2 && IsHexChar(s[0]) && IsHexChar(s[1]) {
      var t := s[2..];
      assert forall i :: 2 <= i < |s| ==> s[i] == t[i - 2];
      DecodeSucceeds(t);
      assert Decode(s).Ok? == Decode(t).Ok?;
      assert (Decode(s) == Err(OddLength)) == (Decode(t) == Err(OddLength));
      if forall i :: 0 <= i < |t| ==> IsHexChar(t[i]) {
        assert forall i :: 0 <= i < |s| ==> IsHexChar(s[i]);
      }
    }
  }

  /** Any other decoding error names the first character that is not a hex digit. */
  lemma {:induction false} DecodeReportsFirstBadDigit(s: string)
    ensures Decode(s).Err? && Decode(s).error.InvalidByte? ==>
              exists k :: 0 <= k < |s| && !IsHexChar(s[k]) && Decode(s).error.b == LeadByte(s[k])
                          && forall j :: 0 <= j < k ==> IsHexChar(s[j])
  {
    if |s| >= 2 && IsHexChar(s[0]) && IsHexChar(s[1]) {
      var t := s[2..];
      DecodeReportsFirstBadDigit(t);
      if Decode(t).Err? && Decode(t).error.InvalidByte? {
        var k :| 0 <= k < |t| && !IsHexChar(t[k]) && Decode(t).error.b == LeadByte(t[k])
                 && forall j :: 0 <= j < k ==> IsHexChar(t[j]);
        assert s[k + 2] == t[k];
        assert forall j :: 2 <= j < k + 2 ==> s[j] == t[j - 2];
      }
    }
  }

  /** A decoding error names an odd length only when the string has no other fault; otherwise the first bad character. */
  lemma InvalidDigitReported()
    ensures Decode("0g") == Err(InvalidByte(0x67)) && Decode("abc") == Err(OddLength)
    ensures Decode("ab?") == Err(InvalidByte(0x3F))
  {
    assert "ab?"[2..] == "?";
    assert "abc"[2..] == "c";
  }

  /** Decoding undoes encoding for every byte string. */
  lemma {:induction false} DecodeEncode(bytes: seq<Byte>)
    ensures Decode(Encode(bytes)) == Ok(bytes)
  {
    if bytes != [] {
      var b := bytes[0];
      var s := Encode(bytes);
      DigitValueOfLowerDigit((b as int) / 16);
      DigitValueOfLowerDigit((b as int) % 16);
      assert s == EncodeByte(b) + Encode(bytes[1..]);
      assert s[2..] == Encode(bytes[1..]);
      DecodeEncode(bytes[1..]);
      NibblesRebuildByte(b);
      assert [b] + bytes[1..] == bytes;
    }
  }

  /** Every lower-case hex string of even length is the encoding of what it decodes to. */
  lemma {:induction false} EncodeDecode(s: string)
    requires |s| % 2 == 0
    requires forall i :: 0 <= i < |s| ==> IsLowerHexChar(s[i])
    ensures Decode(s).Ok? && Encode(Decode(s).value) == s
  {
    if |s| > 0 {
      EncodeDecode(s[2..]);
      var hi, lo := DigitValue(s[0]), DigitValue(s[1]);
      var b := (hi * 16 + lo) as Byte;
      var rest := Decode(s[2..]).value;
      assert Decode(s) == Ok([b] + rest);
      ByteSplitsIntoNibbles(hi, lo);
      LowerDigitsInverse(s[0]);
      LowerDigitsInverse(s[1]);
      assert EncodeByte(b) == [LowerDigits[hi], LowerDigits[lo]];
      assert EncodeByte(b) == s[..2];
      assert ([b] + rest)[1..] == rest;
      assert Encode([b] + rest) == EncodeByte(b) + Encode(rest);
      assert s == s[..2] + s[2..];
    }
  }

  lemma NibblesRebuildByte(b: Byte)
    ensures ((b as int) / 16 * 16 + (b as int) % 16) as Byte == b
  {
    var n := b as int;
    assert n / 16 * 16 + n % 16 == n;
  }

  lemma ByteSplitsIntoNibbles(hi: nat, lo: nat)
    requires hi < 16 && lo < 16
    ensures ((hi * 16 + lo) as Byte as int) / 16 == hi
    ensures ((hi * 16 + lo) as Byte as int) % 16 == lo
  {
  }

  lemma LowerDigitsInverse(c: char)
    requires IsLowerHexChar(c)
    ensures LowerDigits[DigitValue(c)] == c
  {
  }
}
