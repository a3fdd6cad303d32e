/**
  The frame codec: `Iso8583Encoder` (no header, a zero-padded decimal header in
  US-ASCII, or j8583's binary header), `StringLengthFieldBasedFrameDecoder`
  (which reads the decimal header back), and `Iso8583Decoder` (which hands one
  whole frame to j8583's parser).

  Netty's `LengthFieldBasedFrameDecoder`, which calls the header reader and cuts
  frames, is not part of this code base. `ExtractFrame` states, as an assumption,
  how its `decode` uses the parameters it is given; everything proved about whole
  frames rests on that statement.
*/
module Codec {
  import opened Wrappers
  import opened Text
  import opened Message

  const INT_MAX: int := 0x7FFF_FFFF
  const INT_MIN: int := -0x8000_0000

  predicate IsInt(x: int) {
    INT_MIN <= x <= INT_MAX
  }

  /** A Java `int` result: `x` wrapped into the 32-bit two's-complement range. */
  function Int32(x: int): (r: int)
    ensures IsInt(r)
    ensures IsInt(x) ==> r == x
    ensures (r - x) % 0x1_0000_0000 == 0
  {
    (x - INT_MIN) % 0x1_0000_0000 + INT_MIN
  }

  // ---------------------------------------------------------------------------
  // Encoder

  /**
    What `String.format("%0-Nd", …)` throws: `IllegalFormatWidthException` when the
    width text `N` does not parse as an `int` (`Integer.MIN_VALUE` is reported then),
    and otherwise `IllegalFormatFlagsException` for the left-justify and zero-pad flags
    together, which `Formatter` lists as "-0".
  */
  datatype EncodeError = IllegalFormatWidth(width: int) | IllegalFormatFlags(flags: string)

  /** The header the string branch writes: `String.format("%0" + width + "d", size)`. */
  function StringHeader(size: nat, width: nat): string {
    ZeroPadded(size, 10, width)
  }

  /**
    `Iso8583Encoder.encode`: the bytes written for `m` with a header of
    `lengthHeaderLength` bytes, in decimal text when `asString`. A negative header
    length in string mode makes a format string with both `0` and `-` flags, which
    `String.format` rejects; for `Int.MIN_VALUE` the width that follows the flags
    overflows an `int` first.
  */
  function Encode(j: J8583, m: IsoMessage, lengthHeaderLength: int, asString: bool): (r: Result<seq<Byte>, EncodeError>)
    ensures lengthHeaderLength == 0 ==> r == Success(j.writeData(m))
    ensures lengthHeaderLength != 0 && !asString ==> r == Success(j.writeToBuffer(m, lengthHeaderLength))
    ensures r.Failure? <==> lengthHeaderLength < 0 && asString
    ensures r.Failure? && -lengthHeaderLength <= INT_MAX ==> r.error == IllegalFormatFlags("-0")
    ensures r.Failure? && -lengthHeaderLength > INT_MAX ==> r.error == IllegalFormatWidth(INT_MIN)
    ensures lengthHeaderLength > 0 && asString ==> r.Success? && StringFramed(r.value, j.writeData(m), lengthHeaderLength)
  {
    if lengthHeaderLength == 0 then
      Success(j.writeData(m))
    else if asString then
      if lengthHeaderLength < -INT_MAX then Failure(IllegalFormatWidth(INT_MIN))
      else if lengthHeaderLength < 0 then Failure(IllegalFormatFlags("-0"))
      else
        var body := j.writeData(m);
        HeaderBytes(lengthHeaderLength, body);
        Success(AsciiEncode(StringHeader(|body|, lengthHeaderLength)) + body)
    else
      Success(j.writeToBuffer(m, lengthHeaderLength))
  }

  /**
    `w` is `body` behind a decimal header: ASCII digits only, reading back as the body
    size, and exactly `width` bytes long iff the size has at most `width` digits.
  */
  predicate StringFramed(w: seq<Byte>, body: seq<Byte>, width: nat) {
    var k := |w| - |body|;
    && 0 <= k
    && w[k..] == body
    && (k == width <==> |body| < Pow(10, width))
    && (forall i :: 0 <= i < k ==> '0' as int <= w[i] <= '9' as int)
    && AllDigits(AsciiDecode(w[..k]))
    && DigitsValue(AsciiDecode(w[..k])) == |body|
  }

  /** What the string branch writes is the body behind its decimal header. */
  lemma HeaderBytes(width: nat, body: seq<Byte>)
    requires 1 <= width
    ensures StringFramed(AsciiEncode(StringHeader(|body|, width)) + body, body, width)
  {
    var s := StringHeader(|body|, width);
    var h := AsciiEncode(s);
    var w := h + body;
    ZeroPaddedWidth(|body|, width);
    ZeroPaddedValue(|body|, width);
    DigitsAreAscii(s);
    AsciiRoundTrip(s);
    assert |w| - |body| == |h|;
    assert w[..|h|] == h;
    assert w[|h|..] == body;
  }

  // ---------------------------------------------------------------------------
  // Reading the string header

  /** The exceptions frame decoding can end in. */
  datatype FrameError =
    | NegativeArraySize
    | IndexOutOfBounds
    | NumberFormat(cause: NumberFormatException)
    | CorruptedFrame
    | TooLongFrame

  predicate IsAsciiDigit(b: Byte) {
    '0' as int <= b <= '9' as int
  }

  predicate IsAsciiSign(b: Byte) {
    b == '+' as int || b == '-' as int
  }

  /**
    `StringLengthFieldBasedFrameDecoder.getUnadjustedFrameLength`: the `length` bytes at
    absolute position `offset` of the buffer, read as US-ASCII text and parsed by
    `String.toLong()`.
  */
  function GetUnadjustedFrameLength(buf: seq<Byte>, offset: int, length: int): (r: Result<int, FrameError>)
    ensures r == Failure(NegativeArraySize) <==> length < 0
    ensures r == Failure(IndexOutOfBounds) <==> 0 <= length && (offset < 0 || offset + length > |buf|)
    ensures r.Success? ==>
      && 0 <= offset && 0 < length && offset + length <= |buf|
      && LONG_MIN <= r.value <= LONG_MAX
      && forall i :: offset <= i < offset + length ==> IsAsciiDigit(buf[i]) || (i == offset && IsAsciiSign(buf[i]))
    ensures 0 <= length && 0 <= offset && offset + length <= |buf| && r.Failure? ==>
      r.error == NumberFormat(NumberFormatException(AsciiDecode(buf[offset..offset + length])))
  {
    if length < 0 then Failure(NegativeArraySize)
    else if offset < 0 || offset + length > |buf| then Failure(IndexOutOfBounds)
    else
      var text := AsciiDecode(buf[offset..offset + length]);
      match ParseLong(text)
      case Success(v) =>
        ParsedHeaderIsNumeral(buf, offset, length);
        Success(v)
      case Failure(e) => Failure(NumberFormat(e))
  }

  /** Whatever the offset, a header read successfully gives the signed value of the window's digits. */
  lemma FrameLengthDenotes(buf: seq<Byte>, offset: int, length: int)
    requires GetUnadjustedFrameLength(buf, offset, length).Success?
    ensures 0 <= offset && 0 <= length && offset + length <= |buf|
    ensures Denotes(AsciiDecode(buf[offset..offset + length]), GetUnadjustedFrameLength(buf, offset, length).value)
  {
  }

  /** A header `String.toLong()` accepts consists of ASCII digits, with an optional leading sign. */
  lemma ParsedHeaderIsNumeral(buf: seq<Byte>, offset: int, length: int)
    requires 0 <= offset && 0 <= length && offset + length <= |buf|
    requires ParseLong(AsciiDecode(buf[offset..offset + length])).Success?
    ensures forall i :: offset <= i < offset + length ==> IsAsciiDigit(buf[i]) || (i == offset && IsAsciiSign(buf[i]))
  {
    var header := buf[offset..offset + length];
    var text := AsciiDecode(header);
    forall i | offset <= i < offset + length
      ensures IsAsciiDigit(buf[i]) || (i == offset && IsAsciiSign(buf[i]))
    {
      assert header[i - offset] == buf[i];
      assert IsDigit(text[i - offset]) || (i == offset && IsSign(text[i - offset]));
    }
  }

  /** A header of decimal digits at the front of the buffer reads as the value of those digits. */
  lemma DigitHeaderReads(digits: string, rest: seq<Byte>)
    requires 0 < |digits| && AllDigits(digits) && DigitsValue(digits) <= LONG_MAX
    ensures var h := AsciiEncode(digits);
      GetUnadjustedFrameLength(h + rest, 0, |h|) == Success(DigitsValue(digits))
  {
    var h := AsciiEncode(digits);
    assert (h + rest)[0..|digits|] == h;
    DigitHeaderReadsAt(h + rest, 0, digits);
  }

  /**
    A window of decimal digits at any absolute offset reads as the value of those
    digits; the bytes around it play no part.
  */
  lemma DigitHeaderReadsAt(buf: seq<Byte>, offset: nat, digits: string)
    requires 0 < |digits| && AllDigits(digits) && DigitsValue(digits) <= LONG_MAX
    requires offset + |digits| <= |buf| && buf[offset..offset + |digits|] == AsciiEncode(digits)
    ensures GetUnadjustedFrameLength(buf, offset, |digits|) == Success(DigitsValue(digits))
  {
    DigitsAreAscii(digits);
    AsciiRoundTrip(digits);
  }

  /** A window of digits whose value exceeds the 64-bit range is rejected at any offset. */
  lemma OverflowHeaderRejected(buf: seq<Byte>, offset: nat, digits: string)
    requires 0 < |digits| && AllDigits(digits) && LONG_MAX < DigitsValue(digits)
    requires offset + |digits| <= |buf| && buf[offset..offset + |digits|] == AsciiEncode(digits)
    ensures GetUnadjustedFrameLength(buf, offset, |digits|) == Failure(NumberFormat(NumberFormatException(digits)))
  {
    DigitsAreAscii(digits);
    AsciiRoundTrip(digits);
    assert AsciiDecode(buf[offset..offset + |digits|]) == digits;
    ParseLongOverflow(digits, DigitsValue(digits));
  }

  /** A decimal header written by the encoder reads back as the number it was written from. */
  lemma HeaderRoundTrip(size: nat, width: nat, rest: seq<Byte>)
    requires 1 <= width && size <= LONG_MAX
    ensures var h := AsciiEncode(StringHeader(size, width));
      GetUnadjustedFrameLength(h + rest, 0, |h|) == Success(size)
  {
    ZeroPaddedValue(size, width);
    DigitHeaderReads(StringHeader(size, width), rest);
  }

  /** Zero padding in front of a decimal header never changes the length it announces. */
  lemma LeadingZerosIgnored(k: nat, digits: string, rest: seq<Byte>)
    requires 0 < |digits| && AllDigits(digits) && DigitsValue(digits) <= LONG_MAX
    ensures var h1, h2 := AsciiEncode(Zeros(k) + digits), AsciiEncode(digits);
      GetUnadjustedFrameLength(h1 + rest, 0, |h1|) == GetUnadjustedFrameLength(h2 + rest, 0, |h2|)
      == Success(DigitsValue(digits))
  {
    LeadingZerosValue(k, digits);
    DigitHeaderReads(Zeros(k) + digits, rest);
    DigitHeaderReads(digits, rest);
  }

  /** A header byte that is neither a digit nor a leading sign makes the header unreadable. */
  lemma NonNumericHeaderRejected(buf: seq<Byte>, offset: int, length: int, i: int)
    requires 0 <= offset && 0 <= length && offset + length <= |buf|
    requires offset <= i < offset + length && !IsAsciiDigit(buf[i]) && !(i == offset && IsAsciiSign(buf[i]))
    ensures GetUnadjustedFrameLength(buf, offset, length)
         == Failure(NumberFormat(NumberFormatException(AsciiDecode(buf[offset..offset + length]))))
  {
  }

  // ---------------------------------------------------------------------------
  // Cutting frames (assumption about Netty's LengthFieldBasedFrameDecoder)

  /** The five constructor arguments of a length-field frame decoder. */
  datatype FrameDecoder = FrameDecoder(
    maxFrameLength: int,
    lengthFieldOffset: int,
    lengthFieldLength: int,
    lengthAdjustment: int,
    initialBytesToStrip: int)

  /**
    What the constructor of Netty's decoder accepts; it throws otherwise. Netty
    computes `maxFrameLength - lengthFieldLength` in `int` arithmetic, so that
    difference wraps. The last conjunct is the same check without wrapping; for
    arguments that are all Java `int`s it follows from the others
    (`NettyChecksSuffice`), and it is what cutting frames relies on.
  */
  predicate ValidFrameDecoder(d: FrameDecoder) {
    && 0 < d.maxFrameLength
    && 0 <= d.lengthFieldOffset
    && 0 <= d.initialBytesToStrip
    && d.lengthFieldOffset <= Int32(d.maxFrameLength - d.lengthFieldLength)
    && d.lengthFieldOffset <= d.maxFrameLength - d.lengthFieldLength
  }

  /** Netty's own checks, with its wrapping subtraction. */
  predicate NettyAccepts(d: FrameDecoder) {
    && 0 < d.maxFrameLength
    && 0 <= d.lengthFieldOffset
    && 0 <= d.initialBytesToStrip
    && d.lengthFieldOffset <= Int32(d.maxFrameLength - d.lengthFieldLength)
  }

  /** For `int` arguments, the unwrapped check adds nothing to Netty's: the subtraction can only wrap to a negative value. */
  lemma NettyChecksSuffice(d: FrameDecoder)
    requires IsInt(d.maxFrameLength) && IsInt(d.lengthFieldOffset) && IsInt(d.lengthFieldLength)
    ensures ValidFrameDecoder(d) <==> NettyAccepts(d)
  {
    var x := d.maxFrameLength - d.lengthFieldLength;
    if x > INT_MAX {
      WrapsNegative(x);
    }
  }

  /** A difference of two `int`s above the `int` range wraps to a negative value. */
  lemma WrapsNegative(x: int)
    requires INT_MAX < x <= INT_MAX - INT_MIN
    ensures Int32(x) == x - 0x1_0000_0000 < 0
  {
    assert 0 <= x - 0x1_0000_0000 - INT_MIN < 0x1_0000_0000;
  }

  /** A length field of `Int.MIN_VALUE` makes the subtraction wrap, and Netty rejects the decoder. */
  lemma MinLengthFieldRejected(maxFrameLength: int)
    requires 0 < maxFrameLength <= INT_MAX
    ensures !ValidFrameDecoder(FrameDecoder(maxFrameLength, 0, INT_MIN, 0, 0))
  {
    WrapsNegative(maxFrameLength - INT_MIN);
  }

  datatype Extracted = NeedMore | Frame(frame: seq<Byte>, rest: seq<Byte>) | Failed(error: FrameError)

  /**
    ASSUMPTION, not code of this repository: one step of Netty's
    `LengthFieldBasedFrameDecoder.decode` on the readable bytes `buf`, with the string
    header reader. The announced length plus the adjustment plus the header's end
    offset is the frame length; the frame, minus the stripped prefix, is cut off and
    the remainder stays buffered. The discarding of an over-long frame's bytes is not
    modelled: the step just fails.
  */
  function ExtractFrame(d: FrameDecoder, buf: seq<Byte>): (r: Extracted)
    requires ValidFrameDecoder(d)
    ensures r.Frame? ==>
      && d.initialBytesToStrip + |r.frame| <= d.maxFrameLength
      && d.initialBytesToStrip <= |buf|
      && buf == buf[..d.initialBytesToStrip] + r.frame + r.rest
    ensures r == NeedMore ==> |buf| < d.maxFrameLength
  {
    var endOffset := d.lengthFieldOffset + d.lengthFieldLength;
    if |buf| < endOffset then NeedMore
    else
      match GetUnadjustedFrameLength(buf, d.lengthFieldOffset, d.lengthFieldLength)
      case Failure(e) => Failed(e)
      case Success(n) =>
        if n < 0 then Failed(CorruptedFrame)
        else
          var frameLength := n + d.lengthAdjustment + endOffset;
          if frameLength < endOffset then Failed(CorruptedFrame)
          else if frameLength > d.maxFrameLength then Failed(TooLongFrame)
          else if |buf| < frameLength then NeedMore
          else if d.initialBytesToStrip > frameLength then Failed(CorruptedFrame)
          else
            var strip := d.initialBytesToStrip;
            SplitThree(buf, strip, frameLength);
            Frame(buf[strip..frameLength], buf[frameLength..])
  }

  lemma SplitThree<T>(s: seq<T>, a: int, b: int)
    requires 0 <= a <= b <= |s|
    ensures s == s[..a] + s[a..b] + s[b..]
  {
  }

  /**
    Encoding with a string header of `N` digits and cutting with offset 0, adjustment 0
    and `N` bytes stripped gives the body back, and leaves whatever followed buffered.
  */
  lemma StringFramingRoundTrip(j: J8583, m: IsoMessage, n: int, maxFrameLength: int, rest: seq<Byte>)
    requires 1 <= n && maxFrameLength <= INT_MAX
    requires |j.writeData(m)| < Pow(10, n) && n + |j.writeData(m)| <= maxFrameLength
    ensures Encode(j, m, n, true).Success?
    ensures ExtractFrame(FrameDecoder(maxFrameLength, 0, n, 0, n), Encode(j, m, n, true).value + rest)
         == Frame(j.writeData(m), rest)
  {
    var body := j.writeData(m);
    var h := AsciiEncode(StringHeader(|body|, n));
    EncodeStringBranch(j, m, n);
    HeaderFraming(|body|, n, maxFrameLength, body, rest);
    assert h + body + rest == Encode(j, m, n, true).value + rest;
  }

  /** The string branch writes the header's ASCII bytes, then the body. */
  lemma EncodeStringBranch(j: J8583, m: IsoMessage, n: int)
    requires 1 <= n
    ensures Encode(j, m, n, true)
         == Success(AsciiEncode(StringHeader(|j.writeData(m)|, n)) + j.writeData(m))
  {
  }

  /** The decoder a string header of `n` digits at offset 0 asks for is accepted. */
  lemma StringDecoderValid(maxFrameLength: int, n: int, adjust: int)
    requires 1 <= n <= maxFrameLength <= INT_MAX
    ensures ValidFrameDecoder(FrameDecoder(maxFrameLength, 0, n, adjust, n))
  {
    assert IsInt(maxFrameLength - n);
  }

  /** A body behind its own decimal header is cut back out, and what follows stays buffered. */
  lemma HeaderFraming(size: nat, n: int, maxFrameLength: int, body: seq<Byte>, rest: seq<Byte>)
    requires 1 <= n && maxFrameLength <= INT_MAX
    requires size == |body| && size < Pow(10, n) && n + size <= maxFrameLength
    ensures ExtractFrame(FrameDecoder(maxFrameLength, 0, n, 0, n), AsciiEncode(StringHeader(size, n)) + body + rest)
         == Frame(body, rest)
  {
    var h := AsciiEncode(StringHeader(size, n));
    ZeroPaddedWidth(size, n);
    assert |h| == n;
    var buf := h + body + rest;
    assert buf == h + (body + rest);
    HeaderRoundTrip(size, n, body + rest);
    StringDecoderValid(maxFrameLength, n, 0);
    ExtractKnownLength(FrameDecoder(maxFrameLength, 0, n, 0, n), buf, size);
    assert buf[n..n + size] == body;
    assert buf[n + size..] == rest;
  }

  /** Once the header has been read as `size`, the frame is cut where `size` says. */
  lemma ExtractKnownLength(d: FrameDecoder, buf: seq<Byte>, size: nat)
    requires ValidFrameDecoder(d)
    requires GetUnadjustedFrameLength(buf, d.lengthFieldOffset, d.lengthFieldLength) == Success(size)
    requires var end := d.lengthFieldOffset + d.lengthFieldLength + size + d.lengthAdjustment;
      && d.lengthFieldOffset + d.lengthFieldLength <= end <= d.maxFrameLength
      && end <= |buf| && d.initialBytesToStrip <= end
    ensures var end := d.lengthFieldOffset + d.lengthFieldLength + size + d.lengthAdjustment;
      ExtractFrame(d, buf) == Frame(buf[d.initialBytesToStrip..end], buf[end..])
  {
  }

  /** The test vector: the body "MESSAGE" with a four-digit string header. */
  lemma MessageTestVector(j: J8583, m: IsoMessage)
    requires j.writeData(m) == AsciiEncode("MESSAGE")
    ensures Encode(j, m, 4, true) == Success(AsciiEncode("0007MESSAGE"))
    ensures GetUnadjustedFrameLength(AsciiEncode("0007MESSAGE"), 0, 4) == Success(7)
  {
    TestVectorHeader();
    TestVectorText();
    EncodeStringBranch(j, m, 4);
  }

  /** The header of a seven-byte body is "0007", and header and body make up the test vector. */
  lemma TestVectorText()
    ensures StringHeader(|AsciiEncode("MESSAGE")|, 4) == "0007"
    ensures AsciiEncode("0007") + AsciiEncode("MESSAGE") == AsciiEncode("0007MESSAGE")
  {
    assert |AsciiEncode("MESSAGE")| == 7;
    assert Numeral(7, 10) == [DigitChar(7)] == "7";
    assert Zeros(3) == "000";
    assert "0007" + "MESSAGE" == "0007MESSAGE";
    AsciiEncodeAppend("0007", "MESSAGE");
  }

  /**
    The encoder never applies the length adjustment: a decoder configured with
    adjustment -1 cuts "0007MESSAGE" one byte short and leaves the last byte behind.
  */
  lemma AdjustmentBreaksRoundTrip()
    ensures ExtractFrame(FrameDecoder(8192, 0, 4, -1, 4), AsciiEncode("0007MESSAGE"))
         == Frame(AsciiEncode("MESSAG"), AsciiEncode("E"))
  {
    var buf := AsciiEncode("0007MESSAGE");
    TestVectorBytes();
    TestVectorHeader();
    StringDecoderValid(8192, 4, -1);
    ExtractKnownLength(FrameDecoder(8192, 0, 4, -1, 4), buf, 7);
  }

  /** The test vector's bytes: the header, six body bytes, and the last one. */
  lemma TestVectorBytes()
    ensures var buf := AsciiEncode("0007MESSAGE");
      |buf| == 11 && buf[4..10] == AsciiEncode("MESSAG") && buf[10..] == AsciiEncode("E")
  {
    assert "0007MESSAGE" == ("0007" + "MESSAG") + "E";
    AsciiEncodeAppend("0007" + "MESSAG", "E");
    AsciiEncodeAppend("0007", "MESSAG");
  }

  /** The test vector's header reads as 7. */
  lemma TestVectorHeader()
    ensures GetUnadjustedFrameLength(AsciiEncode("0007MESSAGE"), 0, 4) == Success(7)
  {
    assert Numeral(7, 10) == [DigitChar(7)] == "7";
    assert Zeros(3) == "000";
    assert StringHeader(7, 4) == "0007";
    assert "0007" + "MESSAGE" == "0007MESSAGE";
    AsciiEncodeAppend("0007", "MESSAGE");
    HeaderRoundTrip(7, 4, AsciiEncode("MESSAGE"));
  }

  // ---------------------------------------------------------------------------
  // Decoder

  /** One call of `MessageFactory.parseMessage(bytes, isoHeaderLength)`. */
  datatype ParseCall = ParseCall(bytes: seq<Byte>, isoHeaderLength: int)

  /**
    The effect of one `Iso8583Decoder.decode` call: how many bytes it read, the
    parser calls it made, and what it appended to `out` or the exception it threw.
  */
  datatype Decoded = Decoded(consumed: nat, calls: seq<ParseCall>, out: Result<seq<IsoMessage>, ParseException>)

  /** `Iso8583Decoder.decode` on one frame: the whole frame goes to the parser, with no ISO header. */
  function Decode(j: J8583, frame: seq<Byte>): (r: Decoded)
    ensures |frame| == 0 <==> r.calls == []
    ensures |frame| == 0 ==> r.consumed == 0 && r.out == Success([])
    ensures |frame| > 0 ==> r.consumed == |frame| && r.calls == [ParseCall(frame, 0)]
    ensures r.out.Success? ==> |r.out.value| <= 1
    ensures |frame| > 0 ==> (r.out.Success? <==> j.parseMessage(frame, 0).Success?)
    ensures |frame| > 0 && r.out.Success? ==> r.out.value == [j.parseMessage(frame, 0).value]
    ensures r.out.Failure? ==> j.parseMessage(frame, 0) == Failure(r.out.error)
  {
    if |frame| == 0 then Decoded(0, [], Success([]))
    else
      var calls := [ParseCall(frame, 0)];
      match j.parseMessage(frame, 0)
      case Success(m) => Decoded(|frame|, calls, Success([m]))
      case Failure(e) => Decoded(|frame|, calls, Failure(e))
  }

  /**
    End to end over a string-header channel: when j8583's parser reads back what its
    writer wrote, a message goes out and comes back as itself; a message whose body is
    empty comes back as nothing at all.
  */
  lemma MessageRoundTrip(j: J8583, m: IsoMessage, n: int, maxFrameLength: int, rest: seq<Byte>)
    requires 1 <= n && maxFrameLength <= INT_MAX
    requires |j.writeData(m)| < Pow(10, n) && n + |j.writeData(m)| <= maxFrameLength
    requires j.parseMessage(j.writeData(m), 0) == Success(m)
    ensures Encode(j, m, n, true).Success?
    ensures var x := ExtractFrame(FrameDecoder(maxFrameLength, 0, n, 0, n), Encode(j, m, n, true).value + rest);
      && x.Frame? && x.rest == rest
      && Decode(j, x.frame).out == if |j.writeData(m)| == 0 then Success([]) else Success([m])
  {
    StringFramingRoundTrip(j, m, n, maxFrameLength, rest);
  }
}
