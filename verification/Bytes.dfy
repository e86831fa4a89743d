/** Byte strings: ASCII and UTF-8 encodings, hexadecimal text, big-endian numbers, and a reader that takes a
    byte string apart piece by piece. */
module Bytes {
  import opened Text

  type Byte = b: nat | b < 256

  type CodePoint = c: nat | c <= 0x10FFFF

  // ---------- ASCII ----------

  /** The bytes of ASCII text. Only ASCII text is encoded this way. */
  function Ascii(text: string): (bytes: seq<Byte>)
    ensures |bytes| == |text|
  {
    seq(|text|, i requires 0 <= i < |text| => if text[i] as nat < 128 then text[i] as nat else 0)
  }

  function FromAscii(bytes: seq<Byte>): string {
    seq(|bytes|, i requires 0 <= i < |bytes| => bytes[i] as char)
  }

  predicate IsAscii(text: string) {
    forall i | 0 <= i < |text| :: text[i] as nat < 128
  }

  lemma AsciiRoundTrip(text: string)
    requires IsAscii(text)
    ensures FromAscii(Ascii(text)) == text
  {
  }

  // ---------- UTF-8 ----------

  predicate Surrogate(c: CodePoint) {
    0xD800 <= c <= 0xDFFF
  }

  function EncodePoint(c: CodePoint): (bytes: seq<Byte>)
    ensures 1 <= |bytes| <= 4
  {
    if c < 0x80 then [c]
    else if c < 0x800 then [0xC0 + c / 64, 0x80 + c % 64]
    else if c < 0x10000 then [0xE0 + c / 4096, 0x80 + c / 64 % 64, 0x80 + c % 64]
    else [0xF0 + c / 262144, 0x80 + c / 4096 % 64, 0x80 + c / 64 % 64, 0x80 + c % 64]
  }

  /** `text.encode("utf-8")`, which fails on surrogates. */
  function Utf8(text: seq<CodePoint>): (bytes: Option<seq<Byte>>)
  {
    if text == [] then Some([])
    else if Surrogate(text[0]) then None
    else match Utf8(text[1..]) case Some(rest) => Some(EncodePoint(text[0]) + rest) case None => None
  }

  lemma {:induction false} Encodable(text: seq<CodePoint>)
    ensures Utf8(text).Some? <==> forall i | 0 <= i < |text| :: !Surrogate(text[i])
  {
    if text != [] {
      Encodable(text[1..]);
      assert forall i | 1 <= i < |text| :: text[i] == text[1..][i - 1];
      assert forall i | 0 <= i < |text| - 1 :: text[1..][i] == text[i + 1];
    }
  }

  function Continued(lead: nat, bytes: seq<Byte>): Option<CodePoint> {
    var c := Continue(lead, bytes);
    if c <= 0x10FFFF then Some(c) else None
  }

  function Continue(lead: nat, bytes: seq<Byte>): nat
    decreases |bytes|
  {
    if bytes == [] then lead
    else Continue(lead * 64 + bytes[0] % 64, bytes[1..])
  }

  /** The first code point of a byte string and the number of bytes it takes. */
  function DecodePoint(bytes: seq<Byte>): Option<(CodePoint, nat)> {
    if bytes == [] then None
    else if bytes[0] < 0x80 then Some((bytes[0], 1))
    else
      var n := if bytes[0] < 0xE0 then 2 else if bytes[0] < 0xF0 then 3 else 4;
      var lead := if n == 2 then bytes[0] % 32 else if n == 3 then bytes[0] % 16 else bytes[0] % 8;
      if |bytes| < n then None
      else match Continued(lead, bytes[1..n]) case Some(c) => Some((c, n)) case None => None
  }

  function DecodeUtf8(bytes: seq<Byte>): Option<seq<CodePoint>>
    decreases |bytes|
  {
    if bytes == [] then Some([])
    else
      match DecodePoint(bytes)
      case None => None
      case Some((c, n)) =>
        if n == 0 || n > |bytes| then None
        else match DecodeUtf8(bytes[n..]) case Some(rest) => Some([c] + rest) case None => None
  }

  lemma Low6(high: nat, low: nat)
    requires low < 64
    ensures high * 64 + (0x80 + low) % 64 == high * 64 + low
  {
  }

  lemma SplitBase64(c: nat)
    ensures c / 64 * 64 + c % 64 == c
    ensures c / 4096 * 64 + c / 64 % 64 == c / 64
    ensures c / 262144 * 64 + c / 4096 % 64 == c / 4096
  {
  }

  lemma ContinueOne(c: CodePoint)
    ensures Continue(c / 64, [0x80 + c % 64]) == c
  {
    SplitBase64(c);
    Low6(c / 64, c % 64);
    assert [0x80 + c % 64][1..] == [];
  }

  lemma ContinueTwo(c: CodePoint)
    ensures Continue(c / 4096, [0x80 + c / 64 % 64, 0x80 + c % 64]) == c
  {
    SplitBase64(c);
    Low6(c / 4096, c / 64 % 64);
    ContinueOne(c);
    assert [0x80 + c / 64 % 64, 0x80 + c % 64][1..] == [0x80 + c % 64];
  }

  lemma ContinueThree(c: CodePoint)
    ensures Continue(c / 262144, [0x80 + c / 4096 % 64, 0x80 + c / 64 % 64, 0x80 + c % 64]) == c
  {
    SplitBase64(c);
    Low6(c / 262144, c / 4096 % 64);
    ContinueTwo(c);
    assert [0x80 + c / 4096 % 64, 0x80 + c / 64 % 64, 0x80 + c % 64][1..] == [0x80 + c / 64 % 64, 0x80 + c % 64];
  }

  lemma DecodeEncoded(c: CodePoint, rest: seq<Byte>)
    ensures DecodePoint(EncodePoint(c) + rest) == Some((c, |EncodePoint(c)|))
  {
    hide Continue;
    var bytes := EncodePoint(c) + rest;
    var n := |EncodePoint(c)|;
    assert bytes[1..n] == EncodePoint(c)[1..];
    if n == 2 {
      assert bytes[1..2] == [0x80 + c % 64];
      ContinueOne(c);
    } else if n == 3 {
      assert bytes[1..3] == [0x80 + c / 64 % 64, 0x80 + c % 64];
      ContinueTwo(c);
    } else if n == 4 {
      assert bytes[1..4] == [0x80 + c / 4096 % 64, 0x80 + c / 64 % 64, 0x80 + c % 64];
      ContinueThree(c);
    }
  }

  /** UTF-8 loses nothing. */
  lemma {:induction false} Utf8RoundTrip(text: seq<CodePoint>)
    requires Utf8(text).Some?
    ensures DecodeUtf8(Utf8(text).value) == Some(text)
  {
    hide EncodePoint, DecodePoint;
    if text != [] {
      var rest := Utf8(text[1..]).value;
      Utf8RoundTrip(text[1..]);
      DecodeEncoded(text[0], rest);
      assert (EncodePoint(text[0]) + rest)[|EncodePoint(text[0])|..] == rest;
      assert [text[0]] + text[1..] == text;
    }
  }

  lemma Utf8Injective(a: seq<CodePoint>, b: seq<CodePoint>)
    requires Utf8(a).Some? && Utf8(a) == Utf8(b)
    ensures a == b
  {
    Utf8RoundTrip(a);
    Utf8RoundTrip(b);
  }

  // ---------- hexadecimal ----------

  /** `bytes.hex()`. */
  function Hex(bytes: seq<Byte>): (text: string)
    ensures |text| == 2 * |bytes|
  {
    if bytes == [] then "" else [Digit(bytes[0] / 16), Digit(bytes[0] % 16)] + Hex(bytes[1..])
  }

  /** `bytes.fromhex(text)` on text without spaces. */
  function FromHex(text: string): Option<seq<Byte>> {
    if text == "" then Some([])
    else if |text| == 1 then None
    else
      match (DigitValue(text[0]), DigitValue(text[1]), FromHex(text[2..]))
      case (Some(high), Some(low), Some(rest)) => if high < 16 && low < 16 then Some([16 * high + low] + rest) else None
      case _ => None
  }

  lemma {:induction false} HexRoundTrip(bytes: seq<Byte>)
    ensures FromHex(Hex(bytes)) == Some(bytes)
  {
    if bytes != [] {
      var text := Hex(bytes);
      assert text[2..] == Hex(bytes[1..]);
      HexRoundTrip(bytes[1..]);
      DigitRoundTrip(bytes[0] / 16);
      DigitRoundTrip(bytes[0] % 16);
      assert 16 * (bytes[0] / 16) + bytes[0] % 16 == bytes[0];
      assert [bytes[0]] + bytes[1..] == bytes;
    }
  }

  lemma HexInjective(a: seq<Byte>, b: seq<Byte>)
    requires Hex(a) == Hex(b)
    ensures a == b
  {
    HexRoundTrip(a);
    HexRoundTrip(b);
  }

  /** `_validate_digest`: sixty-four lower-case hexadecimal characters. */
  predicate IsDigestText(text: string) {
    |text| == 64 && IsDigitText(text)
  }

  lemma {:induction false} HexIsDigits(bytes: seq<Byte>)
    ensures IsDigitText(Hex(bytes))
  {
    if bytes != [] {
      HexIsDigits(bytes[1..]);
      DigitRoundTrip(bytes[0] / 16);
      DigitRoundTrip(bytes[0] % 16);
      assert forall i | 2 <= i < |Hex(bytes)| :: Hex(bytes)[i] == Hex(bytes[1..])[i - 2];
    }
  }

  lemma DigitBelow(c: char)
    ensures DigitValue(c).Some? ==> DigitValue(c).value < 16 && Digit(DigitValue(c).value) == c
  {
  }

  /** Digest text is the text of some bytes. */
  lemma {:induction false} DigitsAreHex(text: string)
    requires IsDigitText(text) && |text| % 2 == 0
    ensures FromHex(text).Some? && Hex(FromHex(text).value) == text
    ensures 2 * |FromHex(text).value| == |text|
  {
    if text != "" {
      DigitsAreHex(text[2..]);
      DigitBelow(text[0]);
      DigitBelow(text[1]);
      var h, l := DigitValue(text[0]).value, DigitValue(text[1]).value;
      assert (16 * h + l) / 16 == h && (16 * h + l) % 16 == l;
      assert FromHex(text).value[1..] == FromHex(text[2..]).value;
      assert text == [text[0], text[1]] + text[2..];
    }
  }

  // ---------- numbers ----------

  function Pow256(n: nat): nat {
    if n == 0 then 1 else 256 * Pow256(n - 1)
  }

  /** `int.from_bytes(bytes, "big")`. */
  function Number(bytes: seq<Byte>): nat {
    if bytes == [] then 0 else Number(bytes[..|bytes| - 1]) * 256 + bytes[|bytes| - 1]
  }

  lemma {:induction false} NumberBelow(bytes: seq<Byte>)
    ensures Number(bytes) < Pow256(|bytes|)
  {
    if bytes != [] { NumberBelow(bytes[..|bytes| - 1]); }
  }

  lemma {:induction false} Pow256Add(m: nat, n: nat)
    ensures Pow256(m + n) == Pow256(m) * Pow256(n)
  {
    if m > 0 {
      Pow256Add(m - 1, n);
      MulAssociates(256, Pow256(m - 1), Pow256(n));
    }
  }

  const SPACE: nat := 0x1_0000000000000000_0000000000000000_0000000000000000_0000000000000000  // 2^256

  /** A SHA-256 output. */
  type Digest = d: seq<Byte> | |d| == 32 witness seq(32, i => 0)

  lemma SpaceIsPower()
    ensures Pow256(32) == SPACE
  {
    assert Pow256(1) == 256 * Pow256(0) == 256;
    Pow256Add(1, 1);
    Pow256Add(2, 2);
    Pow256Add(4, 4);
    Pow256Add(8, 8);
    Pow256Add(16, 16);
  }

  /** `counter.to_bytes(width, "big")`, which raises OverflowError when the number does not fit. */
  function ToBytes(n: nat, width: nat): Option<seq<Byte>> {
    if width == 0 then (if n == 0 then Some([]) else None)
    else match ToBytes(n / 256, width - 1) case Some(high) => Some(high + [n % 256]) case None => None
  }

  lemma {:induction false} ToBytesReads(n: nat, width: nat)
    ensures ToBytes(n, width).Some? <==> n < Pow256(width)
    ensures ToBytes(n, width).Some? ==> |ToBytes(n, width).value| == width && Number(ToBytes(n, width).value) == n
  {
    if width > 0 {
      ToBytesReads(n / 256, width - 1);
      if ToBytes(n, width).Some? {
        var bytes := ToBytes(n, width).value;
        assert bytes[..|bytes| - 1] == ToBytes(n / 256, width - 1).value;
      }
    }
  }

  lemma {:induction false} NumberInjective(a: seq<Byte>, b: seq<Byte>)
    requires |a| == |b| && Number(a) == Number(b)
    ensures a == b
  {
    if a != [] {
      var n := |a| - 1;
      NumberInjective(a[..n], b[..n]);
      assert a == a[..n] + [a[n]] && b == b[..n] + [b[n]];
    }
  }

  /** The digest that is read as the number `n`. */
  function DigestOf(n: nat): (d: Digest)
    requires n < SPACE
    ensures Number(d) == n
  {
    SpaceIsPower();
    ToBytesReads(n, 32);
    ToBytes(n, 32).value
  }

  /** Digests and the numbers below 2^256 correspond one to one. */
  lemma DigestRoundTrip(d: Digest)
    ensures Number(d) < SPACE && DigestOf(Number(d)) == d
  {
    SpaceIsPower();
    NumberBelow(d);
    NumberInjective(DigestOf(Number(d)), d);
  }

  /** The digests that are read as one of the numbers. */
  ghost function DigestsOf(numbers: set<nat>): set<Digest> {
    set n | n in numbers && n < SPACE :: DigestOf(n)
  }

  lemma DigestsRead(numbers: set<nat>, d: Digest)
    ensures d in DigestsOf(numbers) <==> Number(d) in numbers
  {
    hide DigestOf, Number;
    DigestRoundTrip(d);
  }

  lemma {:induction false} DigestsCounted(numbers: set<nat>)
    requires forall n | n in numbers :: n < SPACE
    ensures |DigestsOf(numbers)| == |numbers|
    decreases |numbers|
  {
    hide DigestOf, Number;
    if numbers == {} {
      assert DigestsOf(numbers) == {};
    } else {
      var n :| n in numbers;
      var rest := numbers - {n};
      DigestsCounted(rest);
      DigestsRead(rest, DigestOf(n));
      forall d ensures d in DigestsOf(numbers) <==> d in DigestsOf(rest) + {DigestOf(n)} {
        DigestsRead(numbers, d);
        DigestsRead(rest, d);
        DigestRoundTrip(d);
      }
      assert DigestsOf(numbers) == DigestsOf(rest) + {DigestOf(n)};
    }
  }

  // ---------- taking a byte string apart ----------

  /** A piece read from the front, and what follows it. */
  datatype Piece<T> = Piece(value: T, rest: seq<Byte>)

  function Expect(prefix: seq<Byte>, input: seq<Byte>): Option<seq<Byte>> {
    if |prefix| <= |input| && input[..|prefix|] == prefix then Some(input[|prefix|..]) else None
  }

  lemma ExpectRead(prefix: seq<Byte>, rest: seq<Byte>)
    ensures Expect(prefix, prefix + rest) == Some(rest)
  {
  }

  /** Everything up to the first `stop`, which is dropped. */
  function UpTo(stop: Byte, input: seq<Byte>): Option<Piece<seq<Byte>>> {
    if input == [] then None
    else if input[0] == stop then Some(Piece([], input[1..]))
    else
      match UpTo(stop, input[1..])
      case Some(piece) => Some(Piece([input[0]] + piece.value, piece.rest))
      case None => None
  }

  lemma {:induction false} UpToRead(stop: Byte, field: seq<Byte>, rest: seq<Byte>)
    requires stop !in field
    ensures UpTo(stop, field + [stop] + rest) == Some(Piece(field, rest))
  {
    var input := field + [stop] + rest;
    if field == [] {
      assert input[1..] == rest;
    } else {
      assert input[1..] == field[1..] + [stop] + rest;
      UpToRead(stop, field[1..], rest);
      assert [field[0]] + field[1..] == field;
    }
  }

  /** A decimal number up to `stop`. */
  function ReadNumber(stop: Byte, input: seq<Byte>): Option<Piece<nat>> {
    match UpTo(stop, input)
    case Some(piece) =>
      (match ParseDigits(FromAscii(piece.value), 10) case Some(n) => Some(Piece(n, piece.rest)) case None => None)
    case None => None
  }

  lemma DigitTextIsAscii(text: string)
    requires IsDigitText(text)
    ensures IsAscii(text) && 10 !in Ascii(text) && 58 !in Ascii(text)
  {
  }

  lemma NumberRead(n: nat, stop: Byte, rest: seq<Byte>)
    requires stop == 10 || stop == 58
    ensures ReadNumber(stop, Ascii(Decimal(n)) + [stop] + rest) == Some(Piece(n, rest))
  {
    hide Digits;
    PrintedIsDigits(n, 10, 1);
    DigitTextIsAscii(Decimal(n));
    UpToRead(stop, Ascii(Decimal(n)), rest);
    AsciiRoundTrip(Decimal(n));
    ParsePrinted(n, 10, 1);
  }

  /** A field of the form `length:bytes`. */
  function Sized(bytes: seq<Byte>): seq<Byte> {
    Ascii(Decimal(|bytes|)) + [58] + bytes
  }

  function ReadSized(input: seq<Byte>): Option<Piece<seq<Byte>>> {
    match ReadNumber(58, input)
    case Some(size) => if size.value <= |size.rest| then Some(Piece(size.rest[..size.value], size.rest[size.value..])) else None
    case None => None
  }

  /** The length says where the field ends, whatever bytes it holds. */
  lemma SizedRead(bytes: seq<Byte>, rest: seq<Byte>)
    ensures ReadSized(Sized(bytes) + rest) == Some(Piece(bytes, rest))
  {
    hide ReadNumber;
    NumberRead(|bytes|, 58, bytes + rest);
    assert Sized(bytes) + rest == Ascii(Decimal(|bytes|)) + [58] + (bytes + rest);
    assert (bytes + rest)[..|bytes|] == bytes && (bytes + rest)[|bytes|..] == rest;
  }
}
