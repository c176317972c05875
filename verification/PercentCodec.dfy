/** Percent encoding (`crates/resin-core/src/encoding.rs`, and the form-urlencoded serializer behind
  * `URLSearchParams`) and the reader's decoder (`percent_decode` in `src-tauri/src/headless_main.rs`). */
module PercentCodec {
  import opened Utf8

  /** The strict set (query values and path segments), the JavaScript `encodeURIComponent` set, and the
    * application/x-www-form-urlencoded set. */
  datatype EncodeSet = PathSegment | UriComponent | Form

  const PERCENT: Byte := 0x25
  const SPACE: Byte := 0x20
  const PLUS: Byte := 0x2B

  predicate Alphanumeric(b: Byte) { 0x30 <= b <= 0x39 || 0x41 <= b <= 0x5A || 0x61 <= b <= 0x7A }

  /** Bytes left as they are. */
  predicate Literal(es: EncodeSet, b: Byte) {
    || Alphanumeric(b)
    || match es
       case PathSegment => b in {0x2D, 0x5F}                                                  // - _
       case UriComponent => b in {0x2D, 0x5F, 0x2E, 0x21, 0x7E, 0x2A, 0x27, 0x28, 0x29}       // - _ . ! ~ * ' ( )
       case Form => b in {0x2A, 0x2D, 0x2E, 0x5F}                                             // * - . _
  }

  /** Upper-case hexadecimal digit. */
  function HexDigit(n: nat): Byte
    requires n < 16
  {
    if n < 10 then 0x30 + n else 0x41 + n - 10
  }

  /** `to_digit(16)`: either case; -1 for any other byte. */
  function HexValue(b: Byte): (n: int)
    ensures -1 <= n < 16
  {
    if 0x30 <= b <= 0x39 then b - 0x30
    else if 0x41 <= b <= 0x46 then b - 0x41 + 10
    else if 0x61 <= b <= 0x66 then b - 0x61 + 10
    else -1
  }

  function EncodeByte(es: EncodeSet, b: Byte): Bytes {
    if Literal(es, b) then [b]
    else if es == Form && b == SPACE then [PLUS]
    else [PERCENT, HexDigit(b / 16), HexDigit(b % 16)]
  }

  function Encode(es: EncodeSet, s: Bytes): Bytes {
    if s == [] then [] else EncodeByte(es, s[0]) + Encode(es, s[1..])
  }

  predicate EscapeAt(s: Bytes, i: nat) {
    i + 2 < |s| && s[i] == PERCENT && HexValue(s[i + 1]) >= 0 && HexValue(s[i + 2]) >= 0
  }

  /** What decoding makes of the bytes, before the conversion to a string: an escape becomes its byte, and
    * everything else, a stray or truncated % included, stays. */
  function DecodeBytes(s: Bytes): Bytes {
    if s == [] then []
    else if EscapeAt(s, 0) then [HexValue(s[1]) * 16 + HexValue(s[2])] + DecodeBytes(s[3..])
    else [s[0]] + DecodeBytes(s[1..])
  }

  function Decode(s: Bytes): Bytes { FromUtf8Lossy(DecodeBytes(s)) }

  /** One turn of the decoding loop at position i. */
  lemma DecodeStep(s: Bytes, i: nat)
    requires i < |s|
    ensures EscapeAt(s, i) ==>
              DecodeBytes(s[i..]) == [HexValue(s[i + 1]) * 16 + HexValue(s[i + 2])] + DecodeBytes(s[i + 3..])
    ensures !EscapeAt(s, i) ==> DecodeBytes(s[i..]) == [s[i]] + DecodeBytes(s[i + 1..])
  {
    var tail := s[i..];
    assert EscapeAt(tail, 0) <==> EscapeAt(s, i);
    assert tail[1..] == s[i + 1..];
    if EscapeAt(s, i) {
      assert tail[3..] == s[i + 3..];
    }
  }

  lemma Regroup(a: Bytes, b: Byte, c: Bytes)
    ensures a + ([b] + c) == (a + [b]) + c
  {}

  /** `percent_decode`. */
  method PercentDecode(s: Bytes) returns (r: Bytes)
    ensures r == Decode(s) && Valid(r)
  {
    var out: Bytes, i := [], 0;
    assert s[0..] == s;
    while i < |s|
      invariant 0 <= i <= |s|
      invariant out + DecodeBytes(s[i..]) == DecodeBytes(s)
    {
      DecodeStep(s, i);
      ghost var done := out;
      if s[i] == PERCENT && i + 2 < |s| {
        var h, l := HexValue(s[i + 1]), HexValue(s[i + 2]);
        if h >= 0 && l >= 0 {
          out := out + [h * 16 + l];
          Regroup(done, h * 16 + l, DecodeBytes(s[i + 3..]));
          i := i + 3;
          continue;
        }
      }
      out := out + [s[i]];
      Regroup(done, s[i], DecodeBytes(s[i + 1..]));
      i := i + 1;
    }
    assert s[i..] == [] && out + DecodeBytes([]) == out;
    LossyKeepsValid(out);
    r := FromUtf8Lossy(out);
  }

  /** What the reader gets back for s: itself, except that the form serializer's + for a space is not undone. */
  function ReadBack(es: EncodeSet, s: Bytes): Bytes {
    if es == Form then Swap(s, SPACE, PLUS) else s
  }

  lemma DecodeOneByte(es: EncodeSet, b: Byte, rest: Bytes)
    ensures DecodeBytes(EncodeByte(es, b) + rest) == ReadBack(es, [b]) + DecodeBytes(rest)
  {
    var e := EncodeByte(es, b);
    if |e| == 1 {
      assert (e + rest)[1..] == rest;
    } else {
      assert (e + rest)[3..] == rest;
      HexRoundTrip(b);
    }
  }

  lemma HexRoundTrip(b: Byte)
    ensures HexValue(HexDigit(b / 16)) * 16 + HexValue(HexDigit(b % 16)) == b
  {
    assert 0 <= b / 16 < 16;
  }

  predicate IsHexDigit(b: Byte) {
    '0' as int <= b <= '9' as int || 'A' as int <= b <= 'F' as int || 'a' as int <= b <= 'f' as int
  }

  /** A hexadecimal digit in either case. */
  function EitherCase(n: nat, lower: bool): Byte
    requires n < 16
  {
    if n < 10 then '0' as int + n else if lower then 'a' as int + n - 10 else 'A' as int + n - 10
  }

  /** An escape decodes to its byte whatever the case of its two digits. */
  lemma EscapeDecodes(b: Byte, lowerHigh: bool, lowerLow: bool, rest: Bytes)
    ensures DecodeBytes([PERCENT, EitherCase(b / 16, lowerHigh), EitherCase(b % 16, lowerLow)] + rest) ==
            [b] + DecodeBytes(rest)
  {
    var s := [PERCENT, EitherCase(b / 16, lowerHigh), EitherCase(b % 16, lowerLow)] + rest;
    assert s[3..] == rest;
    assert 0 <= b / 16 < 16;
  }

  /** Text without a % followed by two hexadecimal digits decodes to itself. */
  lemma {:induction false} NothingToDecode(s: Bytes)
    requires forall i :: 0 <= i < |s| - 2 && s[i] == PERCENT ==> !IsHexDigit(s[i + 1]) || !IsHexDigit(s[i + 2])
    ensures DecodeBytes(s) == s
  {
    if s != [] {
      NothingToDecode(s[1..]);
    }
  }

  lemma {:induction false} DecodeEncodeBytes(es: EncodeSet, s: Bytes)
    ensures DecodeBytes(Encode(es, s)) == ReadBack(es, s)
  {
    if s != [] {
      DecodeOneByte(es, s[0], Encode(es, s[1..]));
      DecodeEncodeBytes(es, s[1..]);
      assert ReadBack(es, s) == ReadBack(es, [s[0]]) + ReadBack(es, s[1..]);
    }
  }

  /** Decoding inverts both encoders on every UTF-8 string, and recovers a form-encoded one up to its spaces. */
  lemma DecodeEncode(es: EncodeSet, s: Bytes)
    requires Valid(s)
    ensures Decode(Encode(es, s)) == ReadBack(es, s)
    ensures es != Form ==> Decode(Encode(es, s)) == s
    ensures es == Form ==> (Decode(Encode(es, s)) == s <==> SPACE !in s)
  {
    DecodeEncodeBytes(es, s);
    if es == Form {
      SwapKeepsValid(s, SPACE, PLUS);
    }
    LossyKeepsValid(ReadBack(es, s));
    if SPACE in s {
      var i :| 0 <= i < |s| && s[i] == SPACE;
      assert Swap(s, SPACE, PLUS)[i] != s[i];
    } else {
      assert Swap(s, SPACE, PLUS) == s;
    }
  }

  /** Hence both encoders are injective. */
  lemma EncodeInjective(es: EncodeSet, a: Bytes, b: Bytes)
    requires es != Form && Encode(es, a) == Encode(es, b)
    ensures a == b
  {
    DecodeEncodeBytes(es, a);
    DecodeEncodeBytes(es, b);
  }

  /** The punctuation each encoder leaves alone. */
  function Unescaped(es: EncodeSet): string {
    match es
    case PathSegment => "-_"
    case UriComponent => "-_.!~*'()"
    case Form => "*-._"
  }

  predicate LeftAlone(es: EncodeSet, b: Byte) {
    || '0' as int <= b <= '9' as int || 'A' as int <= b <= 'Z' as int || 'a' as int <= b <= 'z' as int
    || exists i :: 0 <= i < |Unescaped(es)| && Unescaped(es)[i] as int == b
  }

  lemma LiteralIsLeftAlone(es: EncodeSet, b: Byte)
    ensures Literal(es, b) <==> LeftAlone(es, b)
  {
    match es
    case PathSegment => SpellOut(Unescaped(es), [0x2D, 0x5F], b);
    case UriComponent => SpellOut(Unescaped(es), [0x2D, 0x5F, 0x2E, 0x21, 0x7E, 0x2A, 0x27, 0x28, 0x29], b);
    case Form => SpellOut(Unescaped(es), [0x2A, 0x2D, 0x2E, 0x5F], b);
  }

  lemma SpellOut(text: string, bytes: Bytes, b: Byte)
    requires |text| == |bytes| && forall i :: 0 <= i < |text| ==> text[i] as int == bytes[i]
    ensures (exists i :: 0 <= i < |text| && text[i] as int == b) <==> b in bytes
  {}

  /** An encoder changes a text exactly when some byte of it is not one it leaves alone. */
  lemma {:induction false} EncodeChangesExactly(es: EncodeSet, s: Bytes)
    ensures Encode(es, s) == s <==> forall i :: 0 <= i < |s| ==> LeftAlone(es, s[i])
    ensures |Encode(es, s)| >= |s|
  {
    if s != [] {
      EncodeChangesExactly(es, s[1..]);
      LiteralIsLeftAlone(es, s[0]);
      if LeftAlone(es, s[0]) {
        assert Encode(es, s)[1..] == Encode(es, s[1..]);
        assert forall i :: 0 < i < |s| ==> s[i] == s[1..][i - 1];
      }
    }
  }

  /** Encoded text consists of literal bytes, % and (form only) +; in particular no & = ? # or space. */
  lemma {:induction false} EncodedBytes(es: EncodeSet, s: Bytes, c: Byte)
    requires c in Encode(es, s)
    ensures Literal(es, c) || c == PERCENT || (es == Form && c == PLUS)
  {
    var e := EncodeByte(es, s[0]);
    if c !in e {
      EncodedBytes(es, s[1..], c);
    }
  }
}
