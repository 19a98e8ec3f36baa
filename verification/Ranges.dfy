/**
 Byte ranges of cached blobs: the Range request header, `open_blob`, the response headers, and the
 resume check that reads a Content-Range back.
 */
module Ranges {
  import opened Wrappers
  import opened Text

  type Bytes = seq<bv8>

  // `end` is inclusive, as in the header.
  datatype BlobByteRange = BlobByteRange(start: nat, end: Option<nat>)

  function ParseRangeHeader(value: string): Option<BlobByteRange> {
    var stripped := StripPrefix(Trim(value), "bytes=");
    if stripped.None? then None
    else
      var dash := Find(stripped.value, '-');
      if dash.None? then None
      else
        var first, last := stripped.value[..dash.value], stripped.value[dash.value + 1..];
        var start := ParseU64(first);
        if first == "" || start.None? then None
        else if last == "" then Some(BlobByteRange(start.value, None))
        else
          var end := ParseU64(last);
          if end.None? then None else Some(BlobByteRange(start.value, end))
  }

  // A cached blob reply for reading: the range it answers, if one was asked for, and the bytes sent.
  datatype CachedBlob = CachedBlob(size: nat, range: Option<(nat, nat)>, body: Bytes)

  function OpenBlob(blob: Option<Bytes>, range: Option<BlobByteRange>): Option<CachedBlob> {
    if blob.None? then None
    else
      var size := |blob.value|;
      if size == 0 then None
      else if range.None? then Some(CachedBlob(size, None, blob.value[0..size]))
      else if range.value.start >= size then None
      else
        var asked := if range.value.end.Some? then range.value.end.value else size - 1;
        var end := if asked < size - 1 then asked else size - 1;
        if end < range.value.start then None
        else Some(CachedBlob(size, Some((range.value.start, end)), blob.value[range.value.start..end + 1]))
  }

  datatype HitResponse = HitResponse(status: nat, contentLength: string, contentRange: Option<string>, body: Bytes)

  function PrintContentRange(start: nat, end: nat, size: nat): string {
    "bytes " + Decimal(start) + "-" + Decimal(end) + "/" + Decimal(size)
  }

  function Respond(cached: CachedBlob): HitResponse
    requires cached.range.Some? ==> cached.range.value.0 <= cached.range.value.1
    requires cached.size > 0
  {
    var start := if cached.range.Some? then cached.range.value.0 else 0;
    var end := if cached.range.Some? then cached.range.value.1 else cached.size - 1;
    var remaining := end - start + 1;
    if cached.range.Some? then
      HitResponse(206, Decimal(remaining),
                  Some(PrintContentRange(start, end, cached.size)), cached.body)
    else
      HitResponse(200, Decimal(remaining), None, cached.body)
  }

  // The start offset the resume check reads from a Content-Range header; a missing header reads as "".
  function ResumeStart(contentRange: Option<string>): Option<nat> {
    var stripped := StripPrefix(if contentRange.Some? then contentRange.value else "", "bytes ");
    if stripped.None? then None
    else
      var dash := Find(stripped.value, '-');
      ParseU64(if dash.Some? then stripped.value[..dash.value] else stripped.value)
  }

  // The Range header of a client, and of the resume request (which leaves the end out).
  function PrintRange(start: nat, end: Option<nat>): string {
    "bytes=" + Decimal(start) + "-" + (if end.Some? then Decimal(end.value) else "")
  }

  // What RFC 9110, sections 14.1.2 and 14.2, ask of a byte range: the bytes it denotes, if satisfiable.
  function Denoted(blob: Bytes, start: nat, end: Option<nat>): Option<Bytes> {
    if start >= |blob| || (end.Some? && end.value < start) then None
    else Some(blob[start..if end.Some? && end.value < |blob| then end.value + 1 else |blob|])
  }

  lemma TrimmedRange(start: nat, end: Option<nat>)
    ensures Trim(PrintRange(start, end)) == PrintRange(start, end)
  {
    var s := PrintRange(start, end);
    assert s[0] == 'b';
    if end.Some? {
      DecimalIsDigits(end.value);
      assert s[|s| - 1] == Decimal(end.value)[|Decimal(end.value)| - 1];
    } else {
      assert s[|s| - 1] == '-';
    }
  }

  /** A printed range is parsed back. */
  lemma ParseOfPrintedRange(start: nat, end: Option<nat>)
    requires start <= U64_MAX && (end.Some? ==> end.value <= U64_MAX)
    ensures ParseRangeHeader(PrintRange(start, end)) == Some(BlobByteRange(start, end))
  {
    TrimmedRange(start, end);
    var tail := if end.Some? then Decimal(end.value) else "";
    NumberIsParsed(start);
    if end.Some? {
      NumberIsParsed(end.value);
    }
    SpelledIsRead(PrintRange(start, end), Decimal(start), tail);
  }

  lemma NumberIsParsed(n: nat)
    requires n <= U64_MAX
    ensures ParseU64(Decimal(n)) == Some(n) && Decimal(n) != "" && '-' !in Decimal(n)
  {
    DecimalIsDigits(n);
    ParseOfDecimal(n);
  }

  // The header, white space aside, asks for one range from a first to a last position, or from a first on.
  predicate Spells(value: string, first: string, last: string) {
    '-' !in first && first != "" && Trim(value) == "bytes=" + first + "-" + last
  }

  // The positions it spells, if they are 64-bit numbers.
  function Spelled(first: string, last: string): Option<BlobByteRange> {
    if ParseU64(first).None? || (last != "" && ParseU64(last).None?) then None
    else Some(BlobByteRange(ParseU64(first).value, if last == "" then None else ParseU64(last)))
  }

  lemma SpelledIsRead(value: string, first: string, last: string)
    requires Spells(value, first, last)
    ensures ParseRangeHeader(value) == Spelled(first, last)
  {
    Glued("bytes=", first, "-", last);
    StripAddedPrefix("bytes=", first + "-" + last);
    FindInJoin(first, '-', last);
    assert first + "-" + last == first + ['-'] + last;
  }

  lemma DashSplits(s: string, dash: nat)
    requires dash < |s| && s[dash] == '-'
    ensures s == s[..dash] + "-" + s[dash + 1..]
  {
  }

  lemma ReadIsSpelled(value: string) returns (first: string, last: string)
    requires ParseRangeHeader(value).Some?
    ensures Spells(value, first, last)
  {
    var rest := StripPrefix(Trim(value), "bytes=").value;
    var dash := Find(rest, '-').value;
    first, last := rest[..dash], rest[dash + 1..];
    StrippedPrefix(Trim(value), "bytes=");
    DashSplits(rest, dash);
    Glued("bytes=", first, "-", last);
  }

  /** A header is read exactly if it spells one range of 64-bit positions; so a suffix range, several ranges and other
      units are passed over, and the whole blob is sent. */
  lemma RangeIsReadIff(value: string, r: BlobByteRange)
    ensures ParseRangeHeader(value) == Some(r) <==> exists first, last :: Spells(value, first, last) && Spelled(first, last) == Some(r)
  {
    if ParseRangeHeader(value) == Some(r) {
      var first, last := ReadIsSpelled(value);
      SpelledIsRead(value, first, last);
    }
    if first, last :| Spells(value, first, last) && Spelled(first, last) == Some(r) {
      SpelledIsRead(value, first, last);
    }
  }

  lemma SuffixRangeIsPassedOver(n: nat)
    ensures ParseRangeHeader("bytes=-" + Decimal(n)).None?
  {
    var value := "bytes=-" + Decimal(n);
    DecimalIsDigits(n);
    assert value[0] == 'b' && value[|value| - 1] == Decimal(n)[|Decimal(n)| - 1];
    assert Trim(value) == value;
    if ParseRangeHeader(value).Some? {
      var first, last := ReadIsSpelled(value);
    }
  }

  lemma OpenIsDenoted(blob: Bytes, start: nat, end: Option<nat>)
    ensures var cached := OpenBlob(Some(blob), Some(BlobByteRange(start, end)));
      && (cached.Some? <==> Denoted(blob, start, end).Some?)
      && (cached.Some? ==>
            && cached.value.range.Some? && cached.value.size == |blob|
            && cached.value.range.value.0 == start <= cached.value.range.value.1 < |blob|
            && Some(cached.value.body) == Denoted(blob, start, end)
            && |cached.value.body| == cached.value.range.value.1 - start + 1)
  {
  }

  lemma PrintedContentRange(start: nat, end: nat, size: nat)
    ensures PrintContentRange(start, end, size) == "bytes " + (Decimal(start) + "-" + (Decimal(end) + "/" + Decimal(size)))
  {
    var a, b, c := Decimal(start), Decimal(end), Decimal(size);
    Regroup("bytes " + a + "-" + b, "/", c);
    Regroup("bytes " + a + "-", b, "/" + c);
    Regroup(b, "/", c);
    Glued("bytes ", a, "-", b + ("/" + c));
  }

  /** The resume check reads back the start of a printed Content-Range. */
  lemma ResumeStartOfPrinted(start: nat, end: nat, size: nat)
    requires start <= U64_MAX
    ensures ResumeStart(Some(PrintContentRange(start, end, size))) == Some(start)
  {
    ParseOfDecimal(start);
    DecimalIsDigits(start);
    var tail := Decimal(end) + "/" + Decimal(size);
    PrintedContentRange(start, end, size);
    StripAddedPrefix("bytes ", Decimal(start) + "-" + tail);
    assert Decimal(start) + "-" + tail == Decimal(start) + ['-'] + tail;
    FindInJoin(Decimal(start), '-', tail);
  }

  /** A range request for a cached blob is answered exactly when it is satisfiable, with the bytes it
      denotes, their length, and a Content-Range the resume check reads back to the same start. */
  lemma RangeResponseIsExactSlice(blob: Bytes, start: nat, end: Option<nat>)
    requires |blob| <= U64_MAX && start <= U64_MAX && (end.Some? ==> end.value <= U64_MAX)
    ensures var cached := OpenBlob(Some(blob), ParseRangeHeader(PrintRange(start, end)));
      && (cached.Some? <==> Denoted(blob, start, end).Some?)
      && (cached.Some? ==>
            && cached.value.range.Some? && cached.value.range.value.0 <= cached.value.range.value.1 < |blob|
            && cached.value.size > 0
            && var r := Respond(cached.value);
               && r.status == 206
               && Some(r.body) == Denoted(blob, start, end)
               && ParseU64(r.contentLength) == Some(|r.body|)
               && r.contentRange == Some("bytes " + Decimal(start) + "-" + Decimal(start + |r.body| - 1) + "/" + Decimal(|blob|))
               && ResumeStart(r.contentRange) == Some(start))
  {
    ParseOfPrintedRange(start, end);
    OpenIsDenoted(blob, start, end);
    var cached := OpenBlob(Some(blob), Some(BlobByteRange(start, end)));
    if cached.Some? {
      ParseOfDecimal(|cached.value.body|);
      ResumeStartOfPrinted(start, cached.value.range.value.1, |blob|);
    }
  }

  /** A request without a usable range gets the whole blob; an empty or missing blob is never a hit. */
  lemma WholeBlobResponse(blob: Option<Bytes>, header: string)
    requires blob.Some? ==> |blob.value| <= U64_MAX
    requires ParseRangeHeader(header).None?
    ensures var reply := OpenBlob(blob, ParseRangeHeader(header));
      && (reply.Some? <==> blob.Some? && blob.value != [])
      && (reply.Some? ==>
            && reply.value.range.None? && reply.value.size > 0
            && var r := Respond(reply.value);
               r.status == 200 && r.body == blob.value && r.contentRange.None? && ParseU64(r.contentLength) == Some(|blob.value|))
  {
    if blob.Some? && blob.value != [] {
      ParseOfDecimal(|blob.value|);
      assert blob.value[0..|blob.value|] == blob.value;
    }
  }

  // What a client reads that asks for the bytes from `start` up to, and without, `stop`.
  function FetchRange(blob: Bytes, start: nat, stop: nat): Option<Bytes> {
    if stop == 0 then None
    else
      var cached := OpenBlob(Some(blob), ParseRangeHeader(PrintRange(start, Some(stop - 1))));
      if cached.Some? then Some(cached.value.body) else None
  }

  // What a client that asks for the ranges between consecutive cuts puts together.
  function Assemble(fetch: (nat, nat) -> Option<Bytes>, cuts: seq<nat>): Option<Bytes> {
    if |cuts| < 2 then Some([])
    else
      var rest := Assemble(fetch, cuts[..|cuts| - 1]);
      var last := fetch(cuts[|cuts| - 2], cuts[|cuts| - 1]);
      if rest.None? || last.None? then None else Some(rest.value + last.value)
  }

  lemma {:induction false} AssembledSlices(fetch: (nat, nat) -> Option<Bytes>, blob: Bytes, cuts: seq<nat>)
    requires forall a: nat, b: nat | a < b <= |blob| :: fetch(a, b) == Some(blob[a..b])
    requires |cuts| >= 1 && cuts[|cuts| - 1] <= |blob|
    requires forall i, j | 0 <= i < j < |cuts| :: cuts[i] < cuts[j]
    ensures cuts[0] <= cuts[|cuts| - 1]
    ensures Assemble(fetch, cuts) == Some(blob[cuts[0]..cuts[|cuts| - 1]])
  {
    var n := |cuts| - 1;
    if n >= 1 {
      AssembledSlices(fetch, blob, cuts[..n]);
      assert blob[cuts[0]..cuts[n - 1]] + blob[cuts[n - 1]..cuts[n]] == blob[cuts[0]..cuts[n]];
    } else {
      assert blob[cuts[0]..cuts[0]] == [];
    }
  }

  lemma FetchRangeIsSlice(blob: Bytes, start: nat, stop: nat)
    requires start < stop <= |blob| <= U64_MAX
    ensures FetchRange(blob, start, stop) == Some(blob[start..stop])
  {
    ParseOfPrintedRange(start, Some(stop - 1));
    OpenIsDenoted(blob, start, Some(stop - 1));
  }

  /** Consecutive ranges covering a stretch of the blob concatenate to it. */
  lemma ConsecutiveRangesConcatenate(blob: Bytes, cuts: seq<nat>)
    requires |blob| <= U64_MAX
    requires |cuts| >= 1 && cuts[|cuts| - 1] <= |blob|
    requires forall i, j | 0 <= i < j < |cuts| :: cuts[i] < cuts[j]
    ensures cuts[0] <= cuts[|cuts| - 1]
    ensures Assemble((a: nat, b: nat) => FetchRange(blob, a, b), cuts) == Some(blob[cuts[0]..cuts[|cuts| - 1]])
  {
    forall a: nat, b: nat | a < b <= |blob| ensures FetchRange(blob, a, b) == Some(blob[a..b]) {
      FetchRangeIsSlice(blob, a, b);
    }
    AssembledSlices((a: nat, b: nat) => FetchRange(blob, a, b), blob, cuts);
  }
}
