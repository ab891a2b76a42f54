/**
 * The pure parts of `openvino-tensor-converter`: the NHWC to NCHW byte transposition,
 * the `HxWxCxprec` dimension parser, the byte-size computations and the final format
 * dispatch of `convert`.
 */
module TensorConverter {
  import opened Wrappers
  import opened Strings
  import opened Decimal

  newtype byte = x: int | 0 <= x < 256

  const I32_MODULUS: int := 0x1_0000_0000

  /** `x as usize` for an `i32` on a 64-bit target: the two's-complement bits reread as unsigned. */
  function Usize(x: int): nat {
    x % USIZE_MODULUS
  }

  /** The `i32` that two's-complement wrap-around leaves of an exact result. */
  function WrapI32(x: int): (r: int)
    ensures I32_MIN <= r <= I32_MAX
    ensures (r - x) % I32_MODULUS == 0
  {
    (x + 0x8000_0000) % I32_MODULUS - 0x8000_0000
  }

  /** `ConversionError`: the message of a failed conversion. */
  datatype ConversionError = ConversionError(message: string)

  /** `From<ParseIntError> for ConversionError`. */
  function FromParseIntError(k: IntErrorKind): (e: ConversionError)
    ensures StartsWith(e.message, "parsing error: ")
  {
    ConversionError("parsing error: " + IntErrorMessage(k))
  }

  // ---------------------------------------------------------------------------
  // Precision
  // ---------------------------------------------------------------------------

  /** `Precision`: the pixel type. */
  datatype Precision = U8 | FP32 {
    /** `Precision::bytes` */
    function Bytes(): (n: nat)
      ensures n > 0
    {
      match this
      case U8 => 1
      case FP32 => 4
    }
  }

  /** The lower-case spelling `from_str` matches. */
  function PrecisionName(p: Precision): string {
    match p
    case U8 => "u8"
    case FP32 => "fp32"
  }

  /** The bit width a precision's name ends with is eight times its byte count. */
  lemma BytesOfBitWidth(p: Precision)
    ensures var name := PrecisionName(p);
            exists k :: 0 < k < |name| && (forall i :: 0 <= i < k ==> !IsDigit(name[i]))
                        && name[k..] == FormatInt(8 * p.Bytes())
  {
    var name := PrecisionName(p);
    if p == U8 {
      assert FormatInt(8) == "8";
      assert name[1..] == FormatInt(8 * p.Bytes());
    } else {
      assert FormatInt(32) == Digits(3) + [DigitChar(2)] == "32";
      assert name[2..] == FormatInt(8 * p.Bytes());
    }
  }

  /** `Precision::from_str`: `u8` or `fp32` in any ASCII case, anything else refused with the input quoted. */
  function ParsePrecision(s: string): (r: Result<Precision, ConversionError>)
    ensures r.Ok? <==> ToAsciiLowercase(s) == "u8" || ToAsciiLowercase(s) == "fp32"
    ensures r.Ok? ==> ToAsciiLowercase(s) == PrecisionName(r.value)
    ensures r.Err? ==> r.error == ConversionError("unrecognized precision: " + s)
  {
    var lower := ToAsciiLowercase(s);
    if lower == "u8" then Ok(U8)
    else if lower == "fp32" then Ok(FP32)
    else Err(ConversionError("unrecognized precision: " + s))
  }

  /** Case is irrelevant: spellings that agree up to ASCII case parse alike. */
  lemma ParsePrecisionCaseInsensitive(s: string, t: string)
    requires ToAsciiLowercase(s) == ToAsciiLowercase(t)
    ensures ParsePrecision(s).Ok? == ParsePrecision(t).Ok?
    ensures ParsePrecision(s).Ok? ==> ParsePrecision(s).value == ParsePrecision(t).value
  {
  }

  /** Every precision is recognised under its own name. */
  lemma ParsePrecisionName(p: Precision)
    ensures ParsePrecision(PrecisionName(p)) == Ok(p)
  {
    assert forall i :: 0 <= i < |PrecisionName(p)| ==> !IsAsciiUpper(PrecisionName(p)[i]);
  }

  // ---------------------------------------------------------------------------
  // Dimensions
  // ---------------------------------------------------------------------------

  /** `Dimensions`: height, width and channel count as `i32`, and the precision. */
  datatype Dimensions = Dimensions(height: i32, width: i32, channels: i32, precision: Precision)

  const PARTS_ERROR: string := "Not enough parts in dimension string; " + "should be [height]x[width]x[channels]x[precision]"

  /** `i32::from_str` with its error turned into a `ConversionError`. */
  function ParseField(s: string): (r: Result<i32, ConversionError>)
    ensures r.Ok? <==> ParseI32(s).Ok?
    ensures r.Ok? ==> r.value as int == ParseI32(s).value
  {
    match ParseI32(s)
    case Ok(n) => Ok(n as i32)
    case Err(k) => Err(FromParseIntError(k))
  }

  /**
   * `Dimensions::from_str`: trim, split at every `'x'`, demand exactly four parts, then
   * parse three integers and a precision, stopping at the first error.
   */
  function ParseDimensions(s: string): (r: Result<Dimensions, ConversionError>)
    ensures |Split(Trim(s), 'x')| != 4 ==> r == Err(ConversionError(PARTS_ERROR))
    ensures var parts := Split(Trim(s), 'x');
            (|parts| == 4 && ParseI32(parts[0]).Ok? && ParseI32(parts[1]).Ok? && ParseI32(parts[2]).Ok?
             && ParsePrecision(parts[3]).Ok?) ==> r.Ok?
    ensures var parts := Split(Trim(s), 'x');
            |parts| == 4 && ParseI32(parts[0]).Err? ==> r == Err(FromParseIntError(ParseI32(parts[0]).error))
    ensures var parts := Split(Trim(s), 'x');
            |parts| == 4 && ParseI32(parts[0]).Ok? && ParseI32(parts[1]).Err?
            ==> r == Err(FromParseIntError(ParseI32(parts[1]).error))
    ensures var parts := Split(Trim(s), 'x');
            |parts| == 4 && ParseI32(parts[0]).Ok? && ParseI32(parts[1]).Ok? && ParseI32(parts[2]).Err?
            ==> r == Err(FromParseIntError(ParseI32(parts[2]).error))
    ensures var parts := Split(Trim(s), 'x');
            (|parts| == 4 && ParseI32(parts[0]).Ok? && ParseI32(parts[1]).Ok? && ParseI32(parts[2]).Ok?
             && ParsePrecision(parts[3]).Err?) ==> r == Err(ParsePrecision(parts[3]).error)
    ensures r.Ok? ==> var parts := Split(Trim(s), 'x');
                      && |parts| == 4
                      && ParseI32(parts[0]) == Ok(r.value.height as int)
                      && ParseI32(parts[1]) == Ok(r.value.width as int)
                      && ParseI32(parts[2]) == Ok(r.value.channels as int)
                      && ParsePrecision(parts[3]) == Ok(r.value.precision)
  {
    var parts := Split(Trim(s), 'x');
    if |parts| != 4 then Err(ConversionError(PARTS_ERROR))
    else match ParseField(parts[0])
      case Err(e) => Err(e)
      case Ok(height) =>
        match ParseField(parts[1])
        case Err(e) => Err(e)
        case Ok(width) =>
          match ParseField(parts[2])
          case Err(e) => Err(e)
          case Ok(channels) =>
            match ParsePrecision(parts[3])
            case Err(e) => Err(e)
            case Ok(precision) => Ok(Dimensions(height, width, channels, precision))
  }

  /** The part-count error appears exactly when the trimmed string does not hold three `'x'`. */
  lemma PartsErrorExactly(s: string)
    ensures ParseDimensions(s) == Err(ConversionError(PARTS_ERROR)) <==> Occurrences(Trim(s), 'x') != 3
  {
    SplitJoin(Trim(s), 'x');
    var parts := Split(Trim(s), 'x');
    if |parts| == 4 {
      NoPartsErrorOtherwise(parts);
    }
  }

  lemma NoPartsErrorOtherwise(parts: seq<string>)
    requires |parts| == 4
    ensures ParseField(parts[0]).Err? ==> ParseField(parts[0]).error != ConversionError(PARTS_ERROR)
    ensures ParseField(parts[1]).Err? ==> ParseField(parts[1]).error != ConversionError(PARTS_ERROR)
    ensures ParseField(parts[2]).Err? ==> ParseField(parts[2]).error != ConversionError(PARTS_ERROR)
    ensures ParsePrecision(parts[3]).Err? ==> ParsePrecision(parts[3]).error != ConversionError(PARTS_ERROR)
  {
    assert PARTS_ERROR[0] == 'N';
    assert "parsing error: "[0] == 'p';
    assert "unrecognized precision: "[0] == 'u';
    forall i | 0 <= i < 3 && ParseField(parts[i]).Err?
      ensures ParseField(parts[i]).error != ConversionError(PARTS_ERROR)
    {
      assert ParseField(parts[i]).error.message[0] == 'p';
    }
    if ParsePrecision(parts[3]).Err? {
      assert ParsePrecision(parts[3]).error.message[0] == 'u';
    }
  }

  /** `"{h}x{w}x{c}x{precision}"`, the spelling `from_str` reads back. */
  function FormatDimensions(d: Dimensions): string {
    FormatInt(d.height as int) + "x" + FormatInt(d.width as int) + "x" + FormatInt(d.channels as int) + "x" + PrecisionName(d.precision)
  }

  /** Parsing the canonical spelling of dimensions gives them back. */
  lemma ParseFormatDimensions(d: Dimensions)
    ensures ParseDimensions(FormatDimensions(d)) == Ok(d)
  {
    var a, b, c, p := FormatInt(d.height as int), FormatInt(d.width as int), FormatInt(d.channels as int), PrecisionName(d.precision);
    var s := FormatDimensions(d);
    NoXInFormatInt(d.height as int);
    NoXInFormatInt(d.width as int);
    NoXInFormatInt(d.channels as int);
    assert s == JoinWith([a, b, c, p], 'x') by {
      assert JoinWith([p], 'x') == p;
      assert JoinWith([c, p], 'x') == c + "x" + p;
      assert JoinWith([b, c, p], 'x') == b + "x" + (c + "x" + p);
      assert JoinWith([a, b, c, p], 'x') == a + "x" + (b + "x" + (c + "x" + p));
    }
    forall part | part in [a, b, c, p] ensures 'x' !in part {
    }
    SplitOfJoin([a, b, c, p], 'x');
    TrimFormatted(d, s);
    FormatParseRoundTrip(d.height as int);
    FormatParseRoundTrip(d.width as int);
    FormatParseRoundTrip(d.channels as int);
    ParsePrecisionName(d.precision);
  }

  lemma NoXInFormatInt(n: int)
    ensures 'x' !in FormatInt(n)
  {
    var f := FormatInt(n);
    if 'x' in f {
      var i :| 0 <= i < |f| && f[i] == 'x';
      FormatIntChars(n, i);
    }
  }

  /** Every character of a formatted integer is a digit or a leading minus sign. */
  lemma FormatIntChars(n: int, i: nat)
    requires i < |FormatInt(n)|
    ensures IsDigit(FormatInt(n)[i]) || (i == 0 && FormatInt(n)[i] == '-')
  {
  }

  lemma TrimFormatted(d: Dimensions, s: string)
    requires s == FormatDimensions(d)
    ensures Trim(s) == s
  {
    var a := FormatInt(d.height as int);
    assert s[0] == a[0];
    FormatIntChars(d.height as int, 0);
    assert !IsWhitespace(s[0]);
    var p := PrecisionName(d.precision);
    assert s[|s| - 1] == p[|p| - 1];
    assert !IsWhitespace(s[|s| - 1]);
    TrimUntouched(s);
  }

  /** The values of the parser's own test: `100x20x3xfp32`. */
  lemma ParseDimensionsExample(s: string)
    requires s == "100x20x3xfp32"
    ensures ParseDimensions(s) == Ok(Dimensions(100, 20, 3, FP32))
  {
    ExampleSpelling(s);
    ParseFormatDimensions(Dimensions(100, 20, 3, FP32));
  }

  lemma ExampleSpelling(s: string)
    requires s == "100x20x3xfp32"
    ensures s == FormatDimensions(Dimensions(100, 20, 3, FP32))
  {
    assert FormatInt(100) == Digits(10) + [DigitChar(0)] == "100" by {
      assert Digits(10) == Digits(1) + [DigitChar(0)] == "10";
    }
    assert FormatInt(20) == Digits(2) + [DigitChar(0)] == "20";
    assert FormatInt(3) == "3";
    assert FormatDimensions(Dimensions(100, 20, 3, FP32)) == "100" + "x" + "20" + "x" + "3" + "x" + "fp32";
  }

  // ---------------------------------------------------------------------------
  // `Dimensions::bytes`
  // ---------------------------------------------------------------------------

  const ITEMS_PANIC: string := "overflow in number of items: TryFromIntError(())"

  /**
   * `Dimensions::bytes` as compiled in a release build: the `i32` product wraps, a
   * negative result fails the `usize` conversion, and the count is scaled by the precision.
   */
  function BytesAsWritten(d: Dimensions): (r: Outcome<nat>)
    ensures r.Done? <==> WrapI32(d.height as int * d.width as int * d.channels as int) >= 0
    ensures r.Done? ==> r.value == WrapI32(d.height as int * d.width as int * d.channels as int) * d.precision.Bytes()
  {
    var items := WrapI32(WrapI32(d.height as int * d.width as int) * d.channels as int);
    WrapTwice(d.height as int * d.width as int, d.channels as int);
    if items < 0 then Panic(ITEMS_PANIC) else Done(items * d.precision.Bytes())
  }

  lemma WrapTwice(x: int, y: int)
    ensures WrapI32(WrapI32(x) * y) == WrapI32(x * y)
  {
    var w := WrapI32(x);
    var k := (w - x) / I32_MODULUS;
    assert w == x + k * I32_MODULUS;
    assert w * y == x * y + (k * y) * I32_MODULUS;
    WrapShift(x * y, k * y);
  }

  lemma WrapShift(x: int, k: int)
    ensures WrapI32(x + k * I32_MODULUS) == WrapI32(x)
  {
    var a := x + 0x8000_0000;
    assert (a + k * I32_MODULUS) % I32_MODULUS == a % I32_MODULUS;
  }

  /** The i32 product wraps: a 65536 x 65536 single-channel image is reported as zero bytes. */
  lemma BytesAsWrittenWraps()
    ensures BytesAsWritten(Dimensions(65536, 65536, 1, U8)) == Done(0)
  {
    assert 65536 * 65536 * 1 == I32_MODULUS;
    WrapShift(0, 1);
  }

  /**
   * The documented `Dimensions::bytes`: the exact byte count `H*W*C*bytes`, panicking when
   * that count is negative or does not fit a `usize`.
   */
  function Bytes(d: Dimensions): (r: Outcome<nat>)
    ensures r.Done? <==> 0 <= d.height as int * d.width as int * d.channels as int * d.precision.Bytes() < USIZE_MODULUS
    ensures r.Done? ==> r.value == d.height as int * d.width as int * d.channels as int * d.precision.Bytes()
  {
    var items := d.height as int * d.width as int * d.channels as int;
    if items < 0 || items * d.precision.Bytes() >= USIZE_MODULUS then Panic(ITEMS_PANIC)
    else Done(items * d.precision.Bytes())
  }

  /** A single one-channel pixel occupies exactly its precision's byte count, as written and corrected. */
  lemma OnePixelBytes(p: Precision)
    ensures BytesAsWritten(Dimensions(1, 1, 1, p)) == Done(p.Bytes())
    ensures Bytes(Dimensions(1, 1, 1, p)) == Done(p.Bytes())
  {
    assert WrapI32(1) == 1;
  }

  /** The corrected count neither wraps nor under-reports: the 65536 x 65536 image has 2^32 bytes. */
  lemma BytesExact()
    ensures Bytes(Dimensions(65536, 65536, 1, U8)) == Done(I32_MODULUS)
  {
    assert 65536 * 65536 * 1 * 1 == I32_MODULUS;
  }

  /** Where the exact product fits an `i32`, the as-written count agrees with the corrected one. */
  lemma BytesAgreeWithoutOverflow(d: Dimensions)
    requires 0 <= d.height as int * d.width as int * d.channels as int <= I32_MAX
    ensures BytesAsWritten(d) == Bytes(d)
  {
    var items := d.height as int * d.width as int * d.channels as int;
    assert WrapI32(items) == items by {
      assert (items + 0x8000_0000) % I32_MODULUS == items + 0x8000_0000;
    }
  }

  // ---------------------------------------------------------------------------
  // NHWC to NCHW
  // ---------------------------------------------------------------------------

  /** `a * m + r`: one more mixed-radix digit `r` of radix `m` below `a`. */
  function Mix(a: nat, m: nat, r: nat): nat {
    a * m + r
  }

  lemma MixDecode(a: nat, m: nat, r: nat)
    requires r < m
    ensures Mix(a, m, r) / m == a && Mix(a, m, r) % m == r
  {
    DivUnique(a, r, Mix(a, m, r) / m, Mix(a, m, r) % m, m);
  }

  lemma MixSplit(x: nat, m: nat)
    requires m > 0
    ensures x / m >= 0 && x % m < m && x == Mix(x / m, m, x % m)
  {
  }

  lemma MixBound(a: nat, n: nat, m: nat, r: nat)
    requires a < n && r < m
    ensures Mix(a, m, r) < n * m
  {
    assert a * m <= (n - 1) * m;
  }

  lemma MixBelow(a: nat, m: nat, r: nat, n: nat)
    requires Mix(a, m, r) < n * m
    ensures a < n
  {
    if a >= n {
      MulAtLeast(a - n + 1, m);
    }
  }

  lemma MixCarry(a: nat, m: nat)
    ensures Mix(a, m, m) == Mix(a + 1, m, 0)
  {
  }

  /**
   * An image of `height x width x channels` pixels of `bytes` bytes each. In NHWC order
   * pixel `(h, w, c)` byte `b` is at `Src(h, w, c, b)`; in NCHW order at `Dst(h, w, c, b)`.
   */
  datatype Shape = Shape(height: nat, width: nat, channels: nat, bytes: nat) {
    function Size(): nat {
      height * width * channels * bytes
    }

    predicate InRange(h: nat, w: nat, c: nat, b: nat) {
      h < height && w < width && c < channels && b < bytes
    }

    function Src(h: nat, w: nat, c: nat, b: nat): nat {
      Mix(Mix(Mix(h, width, w), channels, c), bytes, b)
    }

    function Dst(h: nat, w: nat, c: nat, b: nat): nat {
      Mix(Mix(Mix(c, height, h), width, w), bytes, b)
    }

    /** The NHWC position of the byte that belongs at NCHW position `j`. */
    function SrcOf(j: nat): nat {
      if bytes == 0 || width == 0 || height == 0 then 0
      else
        MixSplit(j, bytes);
        var b, rest := j % bytes, j / bytes;
        MixSplit(rest, width);
        var w, rest' := rest % width, rest / width;
        MixSplit(rest', height);
        var h, c := rest' % height, rest' / height;
        Src(h, w, c, b)
    }
  }

  /** The NHWC and NCHW index expressions of `nhwc_to_nchw` are the two mixed-radix positions. */
  lemma SourceIndices(s: Shape, h: nat, w: nat, c: nat, b: nat)
    ensures (h * s.width * s.channels + w * s.channels + c) * s.bytes + b == s.Src(h, w, c, b)
    ensures (c * s.height * s.width + h * s.width + w) * s.bytes + b == s.Dst(h, w, c, b)
  {
    assert Mix(h, s.width, w) * s.channels == h * s.width * s.channels + w * s.channels;
    assert Mix(c, s.height, h) * s.width == c * s.height * s.width + h * s.width;
  }

  lemma SrcBound(s: Shape, h: nat, w: nat, c: nat, b: nat)
    requires s.InRange(h, w, c, b)
    ensures s.Src(h, w, c, b) < s.Size()
  {
    MixBound(h, s.height, s.width, w);
    MixBound(Mix(h, s.width, w), s.height * s.width, s.channels, c);
    MixBound(Mix(Mix(h, s.width, w), s.channels, c), s.height * s.width * s.channels, s.bytes, b);
  }

  lemma DstBound(s: Shape, h: nat, w: nat, c: nat, b: nat)
    requires s.InRange(h, w, c, b)
    ensures s.Dst(h, w, c, b) < s.Size()
  {
    MixBound(c, s.channels, s.height, h);
    MixBound(Mix(c, s.height, h), s.channels * s.height, s.width, w);
    MixBound(Mix(Mix(c, s.height, h), s.width, w), s.channels * s.height * s.width, s.bytes, b);
    assert s.channels * s.height * s.width * s.bytes == s.Size();
  }

  /** Decoding the NCHW position of a byte recovers where it came from. */
  lemma SrcOfDst(s: Shape, h: nat, w: nat, c: nat, b: nat)
    requires s.InRange(h, w, c, b)
    ensures s.SrcOf(s.Dst(h, w, c, b)) == s.Src(h, w, c, b)
  {
    MixDecode(Mix(Mix(c, s.height, h), s.width, w), s.bytes, b);
    MixDecode(Mix(c, s.height, h), s.width, w);
    MixDecode(c, s.height, h);
  }

  /** Every NCHW position below the size is the position of exactly one in-range byte. */
  lemma DecodeDst(s: Shape, j: nat) returns (h: nat, w: nat, c: nat, b: nat)
    requires j < s.Size()
    ensures s.InRange(h, w, c, b) && j == s.Dst(h, w, c, b) && s.SrcOf(j) == s.Src(h, w, c, b)
  {
    assert s.bytes > 0 && s.width > 0 && s.height > 0;
    MixSplit(j, s.bytes);
    var rest := j / s.bytes;
    b := j % s.bytes;
    MixSplit(rest, s.width);
    var rest' := rest / s.width;
    w := rest % s.width;
    MixSplit(rest', s.height);
    h := rest' % s.height;
    c := rest' / s.height;
    assert s.Size() == (s.channels * s.height * s.width) * s.bytes;
    MixBelow(rest, s.bytes, b, s.channels * s.height * s.width);
    assert s.channels * s.height * s.width == (s.channels * s.height) * s.width;
    MixBelow(rest', s.width, w, s.channels * s.height);
    MixBelow(c, s.height, h, s.channels);
  }

  lemma SrcOfBound(s: Shape, j: nat)
    requires j < s.Size()
    ensures s.SrcOf(j) < s.Size()
  {
    var h, w, c, b := DecodeDst(s, j);
    SrcBound(s, h, w, c, b);
  }

  /** Two in-range bytes with the same NHWC position are the same byte. */
  lemma SrcInjective(s: Shape, h: nat, w: nat, c: nat, b: nat, h': nat, w': nat, c': nat, b': nat)
    requires s.InRange(h, w, c, b) && s.InRange(h', w', c', b')
    requires s.Src(h, w, c, b) == s.Src(h', w', c', b')
    ensures h == h' && w == w' && c == c' && b == b'
  {
    MixDecode(Mix(Mix(h, s.width, w), s.channels, c), s.bytes, b);
    MixDecode(Mix(Mix(h', s.width, w'), s.channels, c'), s.bytes, b');
    MixDecode(Mix(h, s.width, w), s.channels, c);
    MixDecode(Mix(h', s.width, w'), s.channels, c');
    MixDecode(h, s.width, w);
    MixDecode(h', s.width, w');
  }

  /** The output position that receives NHWC byte `Src(h, w, c, b)` is `Dst(h, w, c, b)`, and no other. */
  lemma SrcOfUnique(s: Shape, j: nat, h: nat, w: nat, c: nat, b: nat)
    requires j < s.Size() && s.InRange(h, w, c, b) && s.SrcOf(j) == s.Src(h, w, c, b)
    ensures j == s.Dst(h, w, c, b)
  {
    var h', w', c', b' := DecodeDst(s, j);
    SrcInjective(s, h, w, c, b, h', w', c', b');
  }

  /** `nhwc_to_nchw` on values: output position `j` holds input byte `SrcOf(j)`. */
  function Transposed(data: seq<byte>, s: Shape): (r: seq<byte>)
    requires |data| == s.Size()
    ensures |r| == |data|
  {
    seq(|data|, j requires 0 <= j < |data| =>
      SrcOfBound(s, j); data[s.SrcOf(j)])
  }

  /**
   * The transposition law: byte `b` of pixel `(h, w, c)` moves from its NHWC to its
   * NCHW position (`SourceIndices` equates these with the index expressions of the source).
   */
  lemma TransposedMoves(data: seq<byte>, s: Shape, h: nat, w: nat, c: nat, b: nat)
    requires |data| == s.Size() && s.InRange(h, w, c, b)
    ensures s.Dst(h, w, c, b) < |data| && s.Src(h, w, c, b) < |data|
    ensures Transposed(data, s)[s.Dst(h, w, c, b)] == data[s.Src(h, w, c, b)]
  {
    DstBound(s, h, w, c, b);
    SrcBound(s, h, w, c, b);
    SrcOfDst(s, h, w, c, b);
  }

  /** The transposition only reorders: it is a permutation of its input. */
  lemma TransposedPermutes(data: seq<byte>, s: Shape)
    requires |data| == s.Size()
    ensures multiset(Transposed(data, s)) == multiset(data)
  {
    var n := |data|;
    var p := seq(n, j requires 0 <= j < n => s.SrcOf(j));
    forall j | 0 <= j < n ensures p[j] < n && Transposed(data, s)[j] == data[p[j]] {
      var h, w, c, b := DecodeDst(s, j);
      SrcBound(s, h, w, c, b);
    }
    forall i, j | 0 <= i < j < n ensures p[i] != p[j] {
      var h, w, c, b := DecodeDst(s, i);
      if p[i] == p[j] {
        SrcOfUnique(s, j, h, w, c, b);
      }
    }
    PermutedMultiset(Transposed(data, s), data, p);
  }

  /** Reading `b` through an index list without repeats that covers all of `b` gives the same multiset. */
  lemma {:induction false} PermutedMultiset<T>(a: seq<T>, b: seq<T>, p: seq<nat>)
    requires |a| == |b| == |p|
    requires forall i :: 0 <= i < |p| ==> p[i] < |b| && a[i] == b[p[i]]
    requires forall i, j :: 0 <= i < j < |p| ==> p[i] != p[j]
    ensures multiset(a) == multiset(b)
    decreases |a|
  {
    var n := |a|;
    if n > 0 {
      var k := p[n - 1];
      var b' := b[..k] + b[k + 1..];
      var p' := seq(n - 1, i requires 0 <= i < n - 1 => if p[i] < k then p[i] else p[i] - 1);
      forall i | 0 <= i < n - 1 ensures p'[i] < |b'| && a[..n - 1][i] == b'[p'[i]] {
        assert p[i] != p[n - 1];
      }
      forall i, j | 0 <= i < j < n - 1 ensures p'[i] != p'[j] {
        assert p[i] != p[j] && p[i] != k && p[j] != k;
      }
      PermutedMultiset(a[..n - 1], b', p');
      assert a == a[..n - 1] + [b[k]];
      assert b == b[..k] + [b[k]] + b[k + 1..];
    }
  }

  /** Every output position whose NHWC source lies below `p` already holds its byte. */
  predicate Filled(out: seq<byte>, data: seq<byte>, s: Shape, p: nat) {
    |out| == |data| &&
    forall j :: 0 <= j < |data| && s.SrcOf(j) < p && s.SrcOf(j) < |data| ==> out[j] == data[s.SrcOf(j)]
  }

  /** Copying the byte at NHWC position `Src(h, w, c, b)` fills one more position. */
  lemma FillStep(out: seq<byte>, data: seq<byte>, s: Shape, h: nat, w: nat, c: nat, b: nat)
    requires |data| == s.Size() && s.InRange(h, w, c, b) && Filled(out, data, s, s.Src(h, w, c, b))
    ensures s.Dst(h, w, c, b) < |out| && s.Src(h, w, c, b) < |data|
    ensures Filled(out[s.Dst(h, w, c, b) := data[s.Src(h, w, c, b)]], data, s, s.Src(h, w, c, b + 1))
  {
    SrcBound(s, h, w, c, b);
    DstBound(s, h, w, c, b);
    SrcOfDst(s, h, w, c, b);
    forall j | 0 <= j < |data| && s.SrcOf(j) == s.Src(h, w, c, b) ensures j == s.Dst(h, w, c, b) {
      SrcOfUnique(s, j, h, w, c, b);
    }
  }

  /** Once every position is filled, the output is the transposition. */
  lemma FilledAll(out: seq<byte>, data: seq<byte>, s: Shape)
    requires |data| == s.Size() && Filled(out, data, s, s.Src(s.height, 0, 0, 0))
    ensures out == Transposed(data, s)
  {
    forall j | 0 <= j < |data| ensures out[j] == Transposed(data, s)[j] {
      SrcOfBound(s, j);
    }
  }

  const ASSERT_PANIC: string := "assertion `left == right` failed"
  const BOUNDS_PANIC: string := "index out of bounds"

  /** The shape `nhwc_to_nchw` works with: each `i32` dimension cast to `usize`. */
  function ShapeOf(d: Dimensions): Shape {
    Shape(Usize(d.height as int), Usize(d.width as int), Usize(d.channels as int), d.precision.Bytes())
  }

  /**
   * What `nhwc_to_nchw` yields: the `assert_eq!` of the length against the (wrapping)
   * `usize` product fails; a length that only matches after wrap-around runs an index
   * past the end; otherwise the transposed bytes.
   */
  function NhwcToNchwResult(data: seq<byte>, d: Dimensions): Outcome<seq<byte>> {
    var s := ShapeOf(d);
    if |data| != s.Size() % USIZE_MODULUS then Panic(ASSERT_PANIC)
    else if |data| != s.Size() then Panic(BOUNDS_PANIC)
    else Done(Transposed(data, s))
  }

  /** The innermost loop of `nhwc_to_nchw`: copy the bytes of pixel `(h, w, c)`. */
  method CopyPixel(nchw: array<byte>, data: seq<byte>, ghost s: Shape, h: nat, w: nat, c: nat, bytes: nat, nhwcIndex: nat, nchwIndex: nat)
    requires |data| == s.Size() && bytes == s.bytes && h < s.height && w < s.width && c < s.channels
    requires nhwcIndex == s.Src(h, w, c, 0) && nchwIndex == s.Dst(h, w, c, 0)
    requires Filled(nchw[..], data, s, s.Src(h, w, c, 0))
    modifies nchw
    ensures Filled(nchw[..], data, s, s.Src(h, w, c, s.bytes))
  {
    for b := 0 to bytes
      invariant Filled(nchw[..], data, s, s.Src(h, w, c, b))
    {
      FillStep(nchw[..], data, s, h, w, c, b);
      nchw[nchwIndex + b] := data[nhwcIndex + b];
    }
  }

  /** `nhwc_to_nchw`: copy every byte of every pixel from its NHWC to its NCHW position. */
  method NhwcToNchw(data: seq<byte>, d: Dimensions) returns (r: Outcome<seq<byte>>)
    ensures r == NhwcToNchwResult(data, d)
  {
    var height, width, channels := Usize(d.height as int), Usize(d.width as int), Usize(d.channels as int);
    var bytes := d.precision.Bytes();
    ghost var s := Shape(height, width, channels, bytes);
    if |data| != (height * width * channels * bytes) % USIZE_MODULUS {
      return Panic(ASSERT_PANIC);
    }
    if |data| != height * width * channels * bytes {
      return Panic(BOUNDS_PANIC);
    }
    var nchw := new byte[|data|](_ => 0);
    for h := 0 to height
      invariant Filled(nchw[..], data, s, s.Src(h, 0, 0, 0))
    {
      for w := 0 to width
        invariant Filled(nchw[..], data, s, s.Src(h, w, 0, 0))
      {
        for c := 0 to channels
          invariant Filled(nchw[..], data, s, s.Src(h, w, c, 0))
        {
          var nhwcIndex := (h * width * channels + w * channels + c) * bytes;
          var nchwIndex := (c * height * width + h * width + w) * bytes;
          SourceIndices(s, h, w, c, 0);
          CopyPixel(nchw, data, s, h, w, c, bytes, nhwcIndex, nchwIndex);
          MixCarry(Mix(Mix(h, width, w), channels, c), bytes);
        }
        MixCarry(Mix(h, width, w), channels);
      }
      MixCarry(h, width);
    }
    FilledAll(nchw[..], data, s);
    return Done(nchw[..]);
  }

  // ---------------------------------------------------------------------------
  // Format dispatch
  // ---------------------------------------------------------------------------

  const FORMAT_ERROR: string := "Invalid format specified."

  /**
   * The end of `convert`: `"nchw"` transposes the NHWC bytes, `"nhwc"` returns them as
   * they are, and any other format is an error.
   */
  method ConvertLayout(format: string, nhwcData: seq<byte>, d: Dimensions) returns (r: Outcome<Result<seq<byte>, ConversionError>>)
    ensures format == "nchw" ==> match NhwcToNchwResult(nhwcData, d)
      case Panic(m) => r == Panic(m)
      case Done(out) => r == Done(Ok(out))
    ensures format == "nhwc" ==> r == Done(Ok(nhwcData))
    ensures format != "nchw" && format != "nhwc" ==> r == Done(Err(ConversionError(FORMAT_ERROR)))
    ensures r.Done? && r.value.Ok? ==> |r.value.value| == |nhwcData|
  {
    if format == "nchw" {
      var out := NhwcToNchw(nhwcData, d);
      match out
      case Panic(m) =>
        return Panic(m);
      case Done(bytes) =>
        return Done(Ok(bytes));
    } else if format == "nhwc" {
      return Done(Ok(nhwcData));
    } else {
      return Done(Err(ConversionError(FORMAT_ERROR)));
    }
  }
}
