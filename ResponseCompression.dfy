/** The ResponseCompression gatherer: picks the network responses that were sent
    uncompressed although their content is text, and estimates the size each
    would have had under gzip. The response-body fetch and zlib's gzip are
    parameters (oracles) of the model. */
module ResponseCompression {

  import opened Wrappers
  import opened Strings

  /** The protocol's resource types. */
  datatype ResourceType =
    | Document | Stylesheet | Image | Media | Font | Script | TextTrack | XHR | Fetch
    | Prefetch | EventSource | WebSocket | Manifest | SignedExchange | Ping
    | CSPViolationReport | Preflight | Other

  const ChromeExtensionProtocol: string := "chrome-extension:"

  /** Header names that report a response's content encoding. */
  const CompressionHeaders: seq<string> :=
    ["content-encoding", "x-original-content-encoding", "x-content-encoding-over-network"]

  /** Encodings that count as already compressed. */
  const CompressionTypes: seq<string> := ["gzip", "br", "deflate"]

  /** MIME-type prefixes of binary content. */
  const BinaryMimeTypes: seq<string> := ["image", "audio", "video"]

  /** Resource types whose content is text. */
  const TextResourceTypes: seq<ResourceType> := [Document, Script, Stylesheet, XHR, Fetch, EventSource]

  datatype Header = Header(name: string, value: string)

  /** The fields of a reconstructed network request that the gatherer reads.
      A missing `resourceType`, `transferSize` or `resourceSize` is `None`;
      a missing MIME type is the empty string. */
  datatype NetworkRecord = NetworkRecord(
    requestId: string,
    url: string,
    resourceType: Option<ResourceType>,
    mimeType: string,
    statusCode: int,
    responseHeaders: seq<Header>,
    transferSize: Option<int>,
    resourceSize: Option<int>,
    finished: bool,
    isOutOfProcessIframe: bool)

  /** One entry of the ResponseCompression artifact; `gzipSize == None` is `undefined`. */
  datatype ResponseSummary = ResponseSummary(
    requestId: string,
    url: string,
    mimeType: string,
    transferSize: int,
    resourceSize: int,
    gzipSize: Option<int>)

  /** JavaScript truthiness of an optional size: present and not zero. */
  predicate SizeTruthy(size: Option<int>) {
    size.Some? && size.value != 0
  }

  /** `record.resourceType || Other`. */
  function EffectiveResourceType(record: NetworkRecord): ResourceType {
    match record.resourceType
    case Some(t) => t
    case None => Other
  }

  /** A non-empty MIME type that starts with one of the binary prefixes. */
  predicate IsBinaryResource(record: NetworkRecord) {
    record.mimeType != "" && exists t :: t in BinaryMimeTypes && t <= record.mimeType
  }

  predicate IsTextResource(record: NetworkRecord) {
    !IsBinaryResource(record) && EffectiveResourceType(record) in TextResourceTypes
  }

  predicate IsChromeExtensionResource(record: NetworkRecord) {
    ChromeExtensionProtocol <= record.url
  }

  /** A header that declares a recognised compression: its lower-cased name is a
      compression header and its value is, case-sensitively, a compression type. */
  predicate IsCompressionHeader(header: Header) {
    ToLower(header.name) in CompressionHeaders && header.value in CompressionTypes
  }

  /** `headers.find(...)`: the first header that declares a recognised compression. */
  function FindCompressionHeader(headers: seq<Header>): (found: Option<Header>)
    ensures found.None? <==> forall i :: 0 <= i < |headers| ==> !IsCompressionHeader(headers[i])
    ensures found.Some? ==> exists i :: 0 <= i < |headers| && headers[i] == found.value
                              && IsCompressionHeader(headers[i])
                              && forall j :: 0 <= j < i ==> !IsCompressionHeader(headers[j])
  {
    if |headers| == 0 then None
    else if IsCompressionHeader(headers[0]) then Some(headers[0])
    else
      var found := FindCompressionHeader(headers[1..]);
      assert forall i :: 1 <= i < |headers| ==> headers[i] == headers[1..][i - 1];
      if found.Some? then
        ghost var i :| 0 <= i < |headers[1..]| && headers[1..][i] == found.value
                      && IsCompressionHeader(headers[1..][i])
                      && forall j :: 0 <= j < i ==> !IsCompressionHeader(headers[1..][j]);
        assert headers[i + 1] == found.value;
        found
      else found
  }

  predicate IsContentEncoded(record: NetworkRecord) {
    FindCompressionHeader(record.responseHeaders).Some?
  }

  /** The record survives every check of the filter, in the order the filter makes them. */
  predicate IsUnoptimized(record: NetworkRecord) {
    && !record.isOutOfProcessIframe
    && IsTextResource(record)
    && SizeTruthy(record.resourceSize)
    && record.finished
    && !IsChromeExtensionResource(record)
    && SizeTruthy(record.transferSize)
    && record.statusCode != 304
    && !IsContentEncoded(record)
  }

  /** The entry pushed for a surviving record, with a zero gzip estimate. */
  function Summarize(record: NetworkRecord): ResponseSummary
    requires SizeTruthy(record.transferSize) && SizeTruthy(record.resourceSize)
  {
    ResponseSummary(record.requestId, record.url, record.mimeType,
                    record.transferSize.value, record.resourceSize.value, Some(0))
  }

  /** The entries the filter produces for `records`, defined on the list's last element. */
  function UnoptimizedResponses(records: seq<NetworkRecord>): seq<ResponseSummary> {
    if |records| == 0 then []
    else
      var last := records[|records| - 1];
      UnoptimizedResponses(records[..|records| - 1])
        + (if IsUnoptimized(last) then [Summarize(last)] else [])
  }

  /** The positions of the records that survive the filter. */
  function SelectedIndices(records: seq<NetworkRecord>): seq<nat> {
    if |records| == 0 then []
    else
      SelectedIndices(records[..|records| - 1])
        + (if IsUnoptimized(records[|records| - 1]) then [|records| - 1] else [])
  }

  /** `filterUnoptimizedResponses`: walks the records in order and pushes a summary
      for each one that passes all checks. */
  method FilterUnoptimizedResponses(networkRecords: seq<NetworkRecord>)
    returns (unoptimizedResponses: seq<ResponseSummary>)
    ensures unoptimizedResponses == UnoptimizedResponses(networkRecords)
  {
    unoptimizedResponses := [];
    for i := 0 to |networkRecords|
      invariant unoptimizedResponses == UnoptimizedResponses(networkRecords[..i])
    {
      assert networkRecords[..i + 1][..i] == networkRecords[..i];
      var record := networkRecords[i];
      if record.isOutOfProcessIframe {
        continue;
      }
      var isTextResource := IsTextResource(record);
      var isChromeExtensionResource := IsChromeExtensionResource(record);
      if !isTextResource || !SizeTruthy(record.resourceSize) || !record.finished
         || isChromeExtensionResource || !SizeTruthy(record.transferSize) || record.statusCode == 304
      {
        continue;
      }
      var isContentEncoded := FindCompressionHeader(record.responseHeaders);
      if isContentEncoded.None? {
        unoptimizedResponses := unoptimizedResponses + [Summarize(record)];
      }
    }
    assert networkRecords[..|networkRecords|] == networkRecords;
  }

  /** Each entry of the filter's output is the summary of the record at the
      matching selected position, and that record passes every check. */
  lemma {:induction false} EntriesSummarizeSelectedRecords(records: seq<NetworkRecord>)
    ensures |UnoptimizedResponses(records)| == |SelectedIndices(records)|
    ensures forall k :: 0 <= k < |SelectedIndices(records)| ==>
              var i := SelectedIndices(records)[k];
              i < |records| && IsUnoptimized(records[i])
              && UnoptimizedResponses(records)[k] == Summarize(records[i])
  {
    if |records| > 0 {
      var init := records[..|records| - 1];
      EntriesSummarizeSelectedRecords(init);
      forall k | 0 <= k < |SelectedIndices(init)|
        ensures records[SelectedIndices(init)[k]] == init[SelectedIndices(init)[k]]
      {
      }
    }
  }

  /** The selected positions are strictly increasing: the output keeps the input's
      order and mentions each record at most once. */
  lemma {:induction false} SelectedIndicesIncrease(records: seq<NetworkRecord>)
    ensures forall k :: 0 <= k < |SelectedIndices(records)| ==> SelectedIndices(records)[k] < |records|
    ensures forall k, l :: 0 <= k < l < |SelectedIndices(records)| ==>
              SelectedIndices(records)[k] < SelectedIndices(records)[l]
  {
    if |records| > 0 {
      SelectedIndicesIncrease(records[..|records| - 1]);
    }
  }

  /** A position is selected exactly when its record passes every check:
      no eligible record is missed and no ineligible one is kept. */
  lemma {:induction false} SelectedIndicesComplete(records: seq<NetworkRecord>)
    ensures forall i :: i in SelectedIndices(records) <==> 0 <= i < |records| && IsUnoptimized(records[i])
  {
    if |records| > 0 {
      var init := records[..|records| - 1];
      SelectedIndicesComplete(init);
      forall i | 0 <= i < |init|
        ensures records[i] == init[i]
      {
      }
    }
  }

  /** Each output entry copies `requestId`, `url`, `mimeType`, `transferSize` and
      `resourceSize` from a distinct eligible record, in input order, with a zero
      gzip estimate; every eligible record has such an entry. */
  lemma OutputCharacterisation(records: seq<NetworkRecord>)
    ensures |UnoptimizedResponses(records)| == |SelectedIndices(records)|
    ensures forall k :: 0 <= k < |SelectedIndices(records)| ==>
              var i := SelectedIndices(records)[k];
              var entry := UnoptimizedResponses(records)[k];
              && 0 <= i < |records|
              && entry.requestId == records[i].requestId
              && entry.url == records[i].url
              && entry.mimeType == records[i].mimeType
              && records[i].transferSize == Some(entry.transferSize)
              && records[i].resourceSize == Some(entry.resourceSize)
              && entry.gzipSize == Some(0)
    ensures forall k, l :: 0 <= k < l < |SelectedIndices(records)| ==>
              SelectedIndices(records)[k] < SelectedIndices(records)[l]
    ensures forall i :: 0 <= i < |records| && IsUnoptimized(records[i]) ==>
              exists k :: 0 <= k < |SelectedIndices(records)| && SelectedIndices(records)[k] == i
  {
    EntriesSummarizeSelectedRecords(records);
    SelectedIndicesComplete(records);
    SelectedIndicesIncrease(records);
    forall i | 0 <= i < |records| && IsUnoptimized(records[i])
      ensures exists k :: 0 <= k < |SelectedIndices(records)| && SelectedIndices(records)[k] == i
    {
      var k :| 0 <= k < |SelectedIndices(records)| && SelectedIndices(records)[k] == i;
    }
  }

  /** Each condition the filter tests on its own excludes a record. */
  lemma ExclusionReasons(record: NetworkRecord)
    ensures record.isOutOfProcessIframe ==> !IsUnoptimized(record)
    ensures IsBinaryResource(record) ==> !IsUnoptimized(record)
    ensures EffectiveResourceType(record) !in TextResourceTypes ==> !IsUnoptimized(record)
    ensures record.resourceType.None? ==> !IsUnoptimized(record)
    ensures record.resourceSize in {None, Some(0)} ==> !IsUnoptimized(record)
    ensures record.transferSize in {None, Some(0)} ==> !IsUnoptimized(record)
    ensures !record.finished ==> !IsUnoptimized(record)
    ensures ChromeExtensionProtocol <= record.url ==> !IsUnoptimized(record)
    ensures record.statusCode == 304 ==> !IsUnoptimized(record)
    ensures (exists i :: 0 <= i < |record.responseHeaders| && IsCompressionHeader(record.responseHeaders[i]))
              ==> !IsUnoptimized(record)
  {
  }

  /** Header names match case-insensitively, values only exactly. */
  lemma CompressionHeaderMatching()
    ensures IsCompressionHeader(Header("Content-Encoding", "gzip"))
    ensures IsCompressionHeader(Header("X-Original-Content-Encoding", "br"))
    ensures !IsCompressionHeader(Header("content-encoding", "GZIP"))
    ensures !IsCompressionHeader(Header("content-encoding", "gzip, br"))
    ensures !IsCompressionHeader(Header("transfer-encoding", "gzip"))
  {
    assert ToLower("Content-Encoding") == "content-encoding";
    assert ToLower("X-Original-Content-Encoding") == "x-original-content-encoding";
  }

  // ---------------------------------------------------------------------------
  // The gzip-size annotation of getCompressibleRecords.

  /** What fetching a response body from the cache yields: a rejection, or a body
      that may be `null`. */
  datatype BodyFetch = FetchRejected | BodyFetched(content: Option<string>)

  /** The gzip estimate for one entry: `undefined` when the fetch or gzip fails,
      the entry's current estimate when there is no (or an empty) body, else the
      length of gzip's output. */
  function ProbedGzipSize(current: Option<int>, fetched: BodyFetch, gzip: string -> Option<seq<bv8>>): Option<int> {
    match fetched
    case FetchRejected => None
    case BodyFetched(content) =>
      if content.None? || content.value == "" then current
      else
        match gzip(content.value)
        case None => None
        case Some(bytes) => Some(|bytes|)
  }

  /** The entries with each one's gzip estimate written in. */
  function Annotated(entries: seq<ResponseSummary>, fetchBody: string -> BodyFetch,
                     gzip: string -> Option<seq<bv8>>): seq<ResponseSummary>
  {
    seq(|entries|, i requires 0 <= i < |entries| =>
      entries[i].(gzipSize := ProbedGzipSize(entries[i].gzipSize, fetchBody(entries[i].requestId), gzip)))
  }

  /** Writes each entry's gzip estimate over its `gzipSize`, one entry at a time. */
  method AnnotateGzipSizes(entries: seq<ResponseSummary>, fetchBody: string -> BodyFetch,
                           gzip: string -> Option<seq<bv8>>)
    returns (annotated: seq<ResponseSummary>)
    ensures annotated == Annotated(entries, fetchBody, gzip)
  {
    annotated := entries;
    for i := 0 to |entries|
      invariant |annotated| == |entries|
      invariant forall j :: 0 <= j < i ==>
                  annotated[j] == entries[j].(gzipSize := ProbedGzipSize(entries[j].gzipSize, fetchBody(entries[j].requestId), gzip))
      invariant forall j :: i <= j < |entries| ==> annotated[j] == entries[j]
    {
      var record := annotated[i];
      var size := ProbedGzipSize(record.gzipSize, fetchBody(record.requestId), gzip);
      annotated := annotated[i := record.(gzipSize := size)];
    }
  }

  /** `getCompressibleRecords`: filter, then annotate every surviving entry. */
  method GetCompressibleRecords(networkRecords: seq<NetworkRecord>, fetchBody: string -> BodyFetch,
                                gzip: string -> Option<seq<bv8>>)
    returns (records: seq<ResponseSummary>)
    ensures records == Annotated(UnoptimizedResponses(networkRecords), fetchBody, gzip)
  {
    var textRecords := FilterUnoptimizedResponses(networkRecords);
    records := AnnotateGzipSizes(textRecords, fetchBody, gzip);
  }

  /** Annotation keeps the length, the order and every field but `gzipSize`, which
      takes one of the three outcomes (without a body the entry is left as it was). */
  lemma AnnotationOutcomes(entries: seq<ResponseSummary>, fetchBody: string -> BodyFetch,
                           gzip: string -> Option<seq<bv8>>)
    ensures |Annotated(entries, fetchBody, gzip)| == |entries|
    ensures forall i :: 0 <= i < |entries| ==>
              var a := Annotated(entries, fetchBody, gzip)[i];
              var fetched := fetchBody(entries[i].requestId);
              && a.(gzipSize := entries[i].gzipSize) == entries[i]
              && (fetched.FetchRejected? ==> a.gzipSize.None?)
              && ((fetched.BodyFetched? && (fetched.content.None? || fetched.content.value == ""))
                    ==> a.gzipSize == entries[i].gzipSize)
              && (fetched.BodyFetched? && fetched.content.Some? && fetched.content.value != "" ==>
                    match gzip(fetched.content.value)
                    case None => a.gzipSize.None?
                    case Some(bytes) => a.gzipSize == Some(|bytes|))
  {
  }

  /** A failure (or any other outcome) for one request never changes the entry of
      another request. */
  lemma FailureIsolated(entries: seq<ResponseSummary>, fetchBody: string -> BodyFetch,
                        fetchBody': string -> BodyFetch, gzip: string -> Option<seq<bv8>>,
                        failing: string)
    requires forall id :: id != failing ==> fetchBody(id) == fetchBody'(id)
    ensures forall i :: 0 <= i < |entries| && entries[i].requestId != failing ==>
              Annotated(entries, fetchBody, gzip)[i] == Annotated(entries, fetchBody', gzip)[i]
  {
  }

  /** On the gatherer's own output the three outcomes are 0 without a body, gzip's
      byte length on success and `undefined` on any failure, for every entry. */
  lemma CompressibleRecordOutcomes(networkRecords: seq<NetworkRecord>, fetchBody: string -> BodyFetch,
                                   gzip: string -> Option<seq<bv8>>)
    ensures var entries := UnoptimizedResponses(networkRecords);
            var out := Annotated(entries, fetchBody, gzip);
            && |out| == |entries|
            && forall i :: 0 <= i < |out| ==>
                 var fetched := fetchBody(entries[i].requestId);
                 && out[i].(gzipSize := Some(0)) == entries[i]
                 && (fetched.FetchRejected? ==> out[i].gzipSize.None?)
                 && ((fetched.BodyFetched? && (fetched.content.None? || fetched.content.value == ""))
                       ==> out[i].gzipSize == Some(0))
                 && (fetched.BodyFetched? && fetched.content.Some? && fetched.content.value != "" ==>
                       out[i].gzipSize == (if gzip(fetched.content.value).Some?
                                           then Some(|gzip(fetched.content.value).value|) else None))
  {
    OutputCharacterisation(networkRecords);
  }

  /** Three records: a gzip-encoded script and a 304 image are skipped; the
      uncompressed stylesheet of 1000 bytes is reported with gzip's 300 bytes. */
  lemma ThreeRecordScenario(fetchBody: string -> BodyFetch, gzip: string -> Option<seq<bv8>>)
    requires fetchBody("css") == BodyFetched(Some("body { color: red }"))
    requires gzip("body { color: red }") == Some(seq(300, _ => 0 as bv8))
    ensures Annotated(UnoptimizedResponses(ScenarioRecords()), fetchBody, gzip)
            == [ResponseSummary("css", "https://example.com/app.css", "text/css", 1000, 1000, Some(300))]
  {
    var rs := ScenarioRecords();
    assert ToLower("Content-Encoding") == "content-encoding";
    assert IsCompressionHeader(rs[0].responseHeaders[0]);
    assert !IsUnoptimized(rs[0]);
    assert "text/css"[0] == 't' && "image"[0] == 'i' && "audio"[0] == 'a' && "video"[0] == 'v';
    assert !IsBinaryResource(rs[1]);
    assert "https://example.com/app.css"[0] == 'h' && ChromeExtensionProtocol[0] == 'c';
    assert !IsChromeExtensionResource(rs[1]);
    assert !IsContentEncoded(rs[1]);
    assert IsUnoptimized(rs[1]);
    assert !IsUnoptimized(rs[2]);
    assert rs[..1][..0] == [];
    assert rs[..2][..1] == rs[..1];
    assert rs[..3 - 1] == rs[..2];
    assert UnoptimizedResponses(rs[..1]) == [];
    assert UnoptimizedResponses(rs[..2]) == [Summarize(rs[1])];
  }

  /** A gzip-encoded script, an uncompressed 1000-byte stylesheet and a 304 image. */
  function ScenarioRecords(): seq<NetworkRecord> {
    [NetworkRecord("js", "https://example.com/app.js", Some(Script), "application/javascript", 200,
                   [Header("Content-Encoding", "gzip")], Some(400), Some(1200), true, false),
     NetworkRecord("css", "https://example.com/app.css", Some(Stylesheet), "text/css", 200,
                   [], Some(1000), Some(1000), true, false),
     NetworkRecord("img", "https://example.com/logo.png", Some(Image), "image/png", 304,
                   [], Some(100), Some(5000), true, false)]
  }
}
