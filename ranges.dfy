/**
 * Byte ranges for partial content (src/range.rs): parsing a single-range
 * `Range: bytes=...` header against a file size, and the header set of a 206
 * response with its inclusive-end `Content-Range`.
 *
 * Numbers are Rust `u64`s; the two places where the source can leave that
 * range (`end_inclusive + 1` and `range.end - 1`) wrap modulo 2^64, as a
 * release build does.
 */
module Ranges {
  import opened Wrappers
  import opened Text

  /** `Range<u64>`: the bytes `start..end`, `end` exclusive. */
  datatype ByteRange = ByteRange(start: nat, end: nat)

  /** `u64::min`. */
  function Min(a: nat, b: nat): (r: nat)
    ensures r <= a && r <= b
    ensures r == a || r == b
  {
    if a <= b then a else b
  }

  /** `u64` addition and subtraction in a release build: modulo 2^64. */
  function WrapAdd(a: nat, b: nat): (r: nat)
    ensures r <= U64_MAX
    ensures a + b <= U64_MAX ==> r == a + b
    ensures a + b == U64_MODULUS ==> r == 0
  {
    (a + b) % U64_MODULUS
  }

  function WrapSub(a: nat, b: nat): (r: nat)
    ensures r <= U64_MAX
    ensures b <= a <= U64_MAX ==> r == a - b
  {
    (a - b) % U64_MODULUS
  }

  /**
   * `parse_range_header`. Every range it returns lies inside the file, and it is
   * empty only for a suffix request on an empty file.
   */
  function ParseRangeHeader(header: string, size: nat): (r: Option<ByteRange>)
    requires size <= U64_MAX
    ensures r.Some? ==> r.value.start <= r.value.end <= size
    ensures r.Some? && r.value.start == r.value.end ==> r.value == ByteRange(0, 0) && size == 0
  {
    var h := Trim(header);
    if !StartsWith(h, "bytes=") then None
    else
      var parts := Split(h[6..], '-');
      if |parts| != 2 then None else ParseBounds(parts[0], parts[1], size)
  }

  /** The two sides of the dash in `bytes=first-second`. */
  function ParseBounds(first: string, second: string, size: nat): (r: Option<ByteRange>)
    requires size <= U64_MAX
    ensures r.Some? ==> r.value.start <= r.value.end <= size
    ensures r.Some? && r.value.start == r.value.end ==> r.value == ByteRange(0, 0) && size == 0
  {
    if |first| == 0 then
      match ParseU64(second)
      case None => None
      case Some(n) =>
        if n == 0 || n >= size then Some(ByteRange(0, size))
        else Some(ByteRange(size - n, size))
    else
      match ParseU64(first)
      case None => None
      case Some(start) =>
        var end :=
          if |second| == 0 then Some(size)
          else match ParseU64(second)
            case None => None
            case Some(e) => Some(Min(WrapAdd(e, 1), size));
        if end.None? || start >= size || start >= end.value then None
        else Some(ByteRange(start, end.value))
  }

  // The request forms, each stated on the header text that produces it

  /** The header `bytes={spec}`, once trimmed, is still that text. */
  lemma BytesHeader(spec: string)
    requires |spec| == 0 || !IsWhitespace(spec[|spec| - 1])
    ensures Trim("bytes=" + spec) == "bytes=" + spec
    ensures StartsWith("bytes=" + spec, "bytes=") && ("bytes=" + spec)[6..] == spec
  {
    TrimUnchanged("bytes=" + spec);
  }

  /** The two halves of `a-b` when neither contains a dash. */
  lemma DashPieces(a: string, b: string)
    requires '-' !in a && '-' !in b
    ensures Split(a + "-" + b, '-') == [a, b]
  {
    assert a + "-" + b == a + ['-'] + b;
    SplitAround(a, '-', b);
    SplitWithoutSeparator(a, '-');
    SplitWithoutSeparator(b, '-');
  }

  /** A header `bytes=a-b` with a dash-free `a` and `b` is judged on `a` and `b` alone. */
  lemma HeaderBounds(a: string, b: string, size: nat)
    requires size <= U64_MAX
    requires '-' !in a && '-' !in b
    requires |b| == 0 || !IsWhitespace(b[|b| - 1])
    ensures ParseRangeHeader("bytes=" + a + "-" + b, size) == ParseBounds(a, b, size)
  {
    var spec := a + "-" + b;
    assert "bytes=" + a + "-" + b == "bytes=" + spec;
    BytesHeader(spec);
    DashPieces(a, b);
  }

  /** After trimming, only the `bytes` unit is understood. */
  lemma OtherUnitIsNone(header: string, size: nat)
    requires size <= U64_MAX
    requires !StartsWith(Trim(header), "bytes=")
    ensures ParseRangeHeader(header, size) == None
  {
  }

  /** A header with two or more dashes, a multi-range request among them, is refused. */
  lemma SeveralDashesIsNone(a: string, b: string, c: string, size: nat)
    requires size <= U64_MAX
    requires |c| == 0 || !IsWhitespace(c[|c| - 1])
    ensures ParseRangeHeader("bytes=" + a + "-" + b + "-" + c, size) == None
  {
    var spec := a + "-" + b + "-" + c;
    assert "bytes=" + a + "-" + b + "-" + c == "bytes=" + spec;
    BytesHeader(spec);
    assert spec == a + ['-'] + (b + ['-'] + c);
    SplitAround(a, '-', b + ['-'] + c);
    SplitAround(b, '-', c);
  }

  /**
   * An explicit `S-E` is `[S, min(E + 1, size))`, refused when `S` is not inside
   * the file or lies after `E`. At `E = 2^64 - 1` the `+ 1` wraps to 0 and the
   * request is refused whatever `S` is.
   */
  lemma ExplicitRange(s: nat, e: nat, size: nat)
    requires s <= U64_MAX && e <= U64_MAX && size <= U64_MAX
    ensures ParseRangeHeader("bytes=" + Decimal(s) + "-" + Decimal(e), size) ==
      if s < size && s <= e && e < U64_MAX then Some(ByteRange(s, Min(e + 1, size))) else None
  {
    DecimalHasNo(s, '-');
    DecimalHasNo(e, '-');
    HeaderBounds(Decimal(s), Decimal(e), size);
    ParseDecimal(s);
    ParseDecimal(e);
    ExplicitBounds(Decimal(s), Decimal(e), s, e, size);
  }

  lemma ExplicitBounds(first: string, second: string, s: nat, e: nat, size: nat)
    requires s <= U64_MAX && e <= U64_MAX && size <= U64_MAX
    requires |first| > 0 && |second| > 0
    requires ParseU64(first) == Some(s) && ParseU64(second) == Some(e)
    ensures ParseBounds(first, second, size) ==
      if s < size && s <= e && e < U64_MAX then Some(ByteRange(s, Min(e + 1, size))) else None
  {
  }

  /** An open-ended `S-` is `[S, size)`, refused when `S` is not inside the file. */
  lemma OpenEndedRange(s: nat, size: nat)
    requires s <= U64_MAX && size <= U64_MAX
    ensures ParseRangeHeader("bytes=" + Decimal(s) + "-", size) ==
      if s < size then Some(ByteRange(s, size)) else None
  {
    DecimalHasNo(s, '-');
    HeaderBounds(Decimal(s), "", size);
    assert "bytes=" + Decimal(s) + "-" + "" == "bytes=" + Decimal(s) + "-";
    ParseDecimal(s);
  }

  /**
   * A suffix `-N` is the last `N` bytes. `N = 0` and `N >= size` both give the
   * whole file; section 14.1.2 of RFC 9110 calls a zero suffix unsatisfiable, the
   * source serves the whole file instead.
   */
  lemma SuffixRange(n: nat, size: nat)
    requires n <= U64_MAX && size <= U64_MAX
    ensures ParseRangeHeader("bytes=-" + Decimal(n), size) ==
      if n == 0 || n >= size then Some(ByteRange(0, size)) else Some(ByteRange(size - n, size))
  {
    DecimalHasNo(n, '-');
    HeaderBounds("", Decimal(n), size);
    assert "bytes=" + "" + "-" + Decimal(n) == "bytes=-" + Decimal(n);
    ParseDecimal(n);
  }

  /** A lone dash names no bytes at all. */
  lemma BareDashIsNone(size: nat)
    requires size <= U64_MAX
    ensures ParseRangeHeader("bytes=-", size) == None
  {
    HeaderBounds("", "", size);
    assert "bytes=" + "" + "-" + "" == "bytes=-";
  }

  /** A start that is not a number refuses the request, whatever follows the dash. */
  lemma NonNumericStartIsNone(a: string, b: string, size: nat)
    requires size <= U64_MAX
    requires |a| > 0 && !IsDigit(a[0]) && a[0] != '+'
    requires '-' !in a && '-' !in b
    requires |b| == 0 || !IsWhitespace(b[|b| - 1])
    ensures ParseRangeHeader("bytes=" + a + "-" + b, size) == None
  {
    HeaderBounds(a, b, size);
  }

  /** A number followed by a dash and a non-number refuses the request. */
  lemma NonNumericEndIsNone(s: nat, b: string, size: nat)
    requires s <= U64_MAX && size <= U64_MAX
    requires |b| > 0 && !IsDigit(b[0]) && b[0] != '+'
    requires '-' !in b && !IsWhitespace(b[|b| - 1])
    ensures ParseRangeHeader("bytes=" + Decimal(s) + "-" + b, size) == None
  {
    DecimalHasNo(s, '-');
    HeaderBounds(Decimal(s), b, size);
    ParseDecimal(s);
  }

  // Response headers

  /** The header map of a 206 response, one field per header the source inserts. */
  datatype RangeHeaders = RangeHeaders(
    status: nat,
    contentType: string,
    contentLength: string,
    contentRange: string,
    acceptRanges: string)

  /**
   * `create_range_headers`: the only header value that can fail to parse is the
   * caller's content type, so the result is an error exactly then.
   */
  function CreateRangeHeaders(range: ByteRange, size: nat, contentType: string): (r: Result<RangeHeaders, ()>)
    requires range.start <= U64_MAX && range.end <= U64_MAX && size <= U64_MAX
    ensures r.Ok? <==> ValidHeaderValue(contentType)
    ensures r.Ok? ==> r.value.status == 206 && r.value.contentType == contentType && r.value.acceptRanges == "bytes"
  {
    var length := Decimal(WrapSub(range.end, range.start));
    var contentRange := "bytes " + Decimal(range.start) + "-" + Decimal(WrapSub(range.end, 1)) + "/" + Decimal(size);
    DecimalIsHeaderValue(WrapSub(range.end, range.start));
    ContentRangeIsHeaderValue(range.start, WrapSub(range.end, 1), size);
    if !ValidHeaderValue(contentType) then Err(())
    else if !ValidHeaderValue(length) then Err(())
    else if !ValidHeaderValue(contentRange) then Err(())
    else Ok(RangeHeaders(206, contentType, length, contentRange, "bytes"))
  }

  lemma DecimalIsHeaderValue(n: nat)
    ensures ValidHeaderValue(Decimal(n))
  {
  }

  lemma ContentRangeIsHeaderValue(a: nat, b: nat, c: nat)
    ensures ValidHeaderValue("bytes " + Decimal(a) + "-" + Decimal(b) + "/" + Decimal(c))
  {
    DecimalIsHeaderValue(a);
    DecimalIsHeaderValue(b);
    DecimalIsHeaderValue(c);
  }

  /** `Content-Range: bytes {first}-{last}/{size}`, read back into its three numbers. */
  function ParseContentRange(value: string): (r: Option<(nat, nat, nat)>)
    ensures r.Some? ==> r.value.0 <= U64_MAX && r.value.1 <= U64_MAX && r.value.2 <= U64_MAX
  {
    if !StartsWith(value, "bytes ") then None
    else
      var halves := Split(value[6..], '/');
      if |halves| != 2 then None else ParseSpan(halves[0], halves[1])
  }

  /** The `{first}-{last}` and `{size}` halves of a Content-Range. */
  function ParseSpan(bounds: string, total: string): (r: Option<(nat, nat, nat)>)
    ensures r.Some? ==> r.value.0 <= U64_MAX && r.value.1 <= U64_MAX && r.value.2 <= U64_MAX
  {
    var ends := Split(bounds, '-');
    if |ends| != 2 then None
    else
      match (ParseU64(ends[0]), ParseU64(ends[1]), ParseU64(total))
      case (Some(first), Some(last), Some(size)) => Some((first, last, size))
      case _ => None
  }

  lemma ContentRangeHalves(bounds: string, total: string)
    requires '/' !in bounds && '/' !in total
    ensures ParseContentRange("bytes " + bounds + "/" + total) == ParseSpan(bounds, total)
  {
    var value := "bytes " + bounds + "/" + total;
    assert StartsWith(value, "bytes ") && value[6..] == bounds + ['/'] + total;
    SplitAround(bounds, '/', total);
    SplitWithoutSeparator(bounds, '/');
    SplitWithoutSeparator(total, '/');
  }

  lemma SpanParses(a: nat, b: nat, c: nat)
    requires a <= U64_MAX && b <= U64_MAX && c <= U64_MAX
    ensures ParseSpan(Decimal(a) + "-" + Decimal(b), Decimal(c)) == Some((a, b, c))
  {
    DecimalHasNo(a, '-');
    DecimalHasNo(b, '-');
    DashPieces(Decimal(a), Decimal(b));
    ParseDecimal(a);
    ParseDecimal(b);
    ParseDecimal(c);
  }

  /** Printing the three numbers of a Content-Range and reading them back. */
  lemma ContentRangeParses(a: nat, b: nat, c: nat)
    requires a <= U64_MAX && b <= U64_MAX && c <= U64_MAX
    ensures ParseContentRange("bytes " + Decimal(a) + "-" + Decimal(b) + "/" + Decimal(c)) == Some((a, b, c))
  {
    var bounds := Decimal(a) + "-" + Decimal(b);
    assert "bytes " + Decimal(a) + "-" + Decimal(b) + "/" + Decimal(c) == "bytes " + bounds + "/" + Decimal(c);
    assert '/' !in bounds by {
      DecimalHasNo(a, '/');
      DecimalHasNo(b, '/');
    }
    DecimalHasNo(c, '/');
    ContentRangeHalves(bounds, Decimal(c));
    SpanParses(a, b, c);
  }

  /** The Content-Length of a range response reads back as the range's length. */
  lemma ContentLengthIsRangeLength(range: ByteRange, size: nat, contentType: string)
    requires range.start <= range.end <= U64_MAX && size <= U64_MAX
    requires ValidHeaderValue(contentType)
    ensures ParseU64(CreateRangeHeaders(range, size, contentType).value.contentLength) ==
      Some(range.end - range.start)
  {
    ParseDecimal(range.end - range.start);
  }

  /**
   * The Content-Range of a non-empty range reads back as its first byte, its
   * last byte (inclusive, so one before `end`) and the file size.
   */
  lemma ContentRangeRoundTrip(range: ByteRange, size: nat, contentType: string)
    requires range.start < range.end <= U64_MAX && size <= U64_MAX
    requires ValidHeaderValue(contentType)
    ensures ParseContentRange(CreateRangeHeaders(range, size, contentType).value.contentRange) ==
      Some((range.start, range.end - 1, size))
  {
    ContentRangeField(range, size, contentType);
    ContentRangeParses(range.start, range.end - 1, size);
  }

  lemma ContentRangeField(range: ByteRange, size: nat, contentType: string)
    requires range.start < range.end <= U64_MAX && size <= U64_MAX
    requires ValidHeaderValue(contentType)
    ensures CreateRangeHeaders(range, size, contentType).value.contentRange ==
      "bytes " + Decimal(range.start) + "-" + Decimal(range.end - 1) + "/" + Decimal(size)
  {
    assert WrapSub(range.end, 1) == range.end - 1;
  }

  /**
   * On the empty range of an empty file the inclusive end `0 - 1` wraps, and the
   * response claims bytes `0-18446744073709551615`.
   */
  lemma EmptyRangeEndWraps(contentType: string)
    requires ValidHeaderValue(contentType)
    ensures ParseContentRange(CreateRangeHeaders(ByteRange(0, 0), 0, contentType).value.contentRange) ==
      Some((0, U64_MAX, 0))
  {
    assert WrapSub(0, 1) == U64_MAX;
    ContentRangeParses(0, U64_MAX, 0);
  }

  /** Every range the parser accepts on a non-empty file yields a well-formed 206 response for it. */
  lemma ParsedRangeResponds(header: string, size: nat, contentType: string, range: ByteRange)
    requires 0 < size <= U64_MAX
    requires ParseRangeHeader(header, size) == Some(range)
    requires ValidHeaderValue(contentType)
    ensures var headers := CreateRangeHeaders(range, size, contentType);
      headers.Ok? &&
      ParseU64(headers.value.contentLength) == Some(range.end - range.start) &&
      ParseContentRange(headers.value.contentRange) == Some((range.start, range.end - 1, size))
  {
    RangeResponds(range, size, contentType);
  }

  lemma RangeResponds(range: ByteRange, size: nat, contentType: string)
    requires range.start < range.end <= size <= U64_MAX
    requires ValidHeaderValue(contentType)
    ensures var headers := CreateRangeHeaders(range, size, contentType);
      headers.Ok? &&
      ParseU64(headers.value.contentLength) == Some(range.end - range.start) &&
      ParseContentRange(headers.value.contentRange) == Some((range.start, range.end - 1, size))
  {
    ContentLengthIsRangeLength(range, size, contentType);
    ContentRangeRoundTrip(range, size, contentType);
  }
}
