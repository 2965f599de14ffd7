# Lighthouse gatherers: response compression and source maps

This project models two of Lighthouse's artifact gatherers in Dafny and proves
properties of the model.

**ResponseCompression** (`core/gather/gatherers/dobetterweb/response-compression.js`)
finds the network responses whose content is text but that were sent without
gzip, brotli or deflate. For each one it estimates the gzip-compressed size of
the cached body. The filter is a method with a loop that pushes one summary per
surviving record, as the source's `forEach` does. It is proved equal to a
recursive specification function. Lemmas then show the following about that
function:
- the output is an order-preserving selection of the input;
- exactly the records that pass every check are selected;
- each entry copies its record's fields and starts with a zero estimate.

The annotation step is a second loop. It overwrites each entry's `gzipSize`
with one of three outcomes:
- 0 when the cache has no body;
- the length of gzip's output when compression succeeds;
- `undefined` (`None`) when the fetch or gzip fails.

**SourceMaps** (`core/gather/gatherers/source-maps.js`) is a class. Its field
`scriptParsedEvents` holds the buffered `Debugger.scriptParsed` events.
`OnScriptParsed` appends an event only when it names a source map. Each
buffered event becomes exactly one result. A data URI is decoded in process.
Any other reference is resolved against the script's URL and then fetched with
a 1500 ms timeout. The map must have a numeric `version`, a `sources` array and
a string `mappings`. Sections without a truthy `map` are dropped. Every
failure becomes the result's `errorMessage`. For a reference that does not
resolve, that is the literal `Could not resolve map url: ` followed by the
reference. For every other failure it is the thrown error's `toString()`.

Foreign calls are parameters of the model (oracles):
- the cached-body fetch and zlib's `gzip`;
- `new URL(url, base)` (the WHATWG URL parser);
- the driver's `fetchResource`;
- the JSON parse inside `SDK.SourceMap.parseSourceMap`;
- base64 decoding through `Buffer.from`.

JavaScript's truthiness, property reads on parsed JSON (a read on `null`
throws), and the error objects the `catch` blocks see are modelled in
`JsValues.dfy`.

The model follows the code:
- The filter tests sizes for JavaScript truthiness (`!resourceSize`), not for
  `> 0`, so a negative size passes.
- A response header excludes a record only when its value is exactly `gzip`,
  `br` or `deflate`. Its name is matched case-insensitively.

## Model

| member | source | states |
|---|---|---|
| ResponseCompression.FindCompressionHeader | core/gather/gatherers/dobetterweb/response-compression.js:73-76 | `find` returns a header iff some header has a lower-cased compression header name and an exact compression value; the one returned is the first such header |
| ResponseCompression.FilterUnoptimizedResponses | core/gather/gatherers/dobetterweb/response-compression.js:53-91 | the loop that pushes one summary per surviving record computes exactly the specification `UnoptimizedResponses` of the input |
| ResponseCompression.EntriesSummarizeSelectedRecords | core/gather/gatherers/dobetterweb/response-compression.js:57-88 | the k-th output entry is the summary of the record at the k-th selected position, and that record passes every check |
| ResponseCompression.SelectedIndicesIncrease | core/gather/gatherers/dobetterweb/response-compression.js:57-90 | selected positions are in range and strictly increasing: input order is kept and no record yields two entries |
| ResponseCompression.SelectedIndicesComplete | core/gather/gatherers/dobetterweb/response-compression.js:58-87 | a position is selected iff its record passes every check (completeness and soundness of the filter) |
| ResponseCompression.OutputCharacterisation | core/gather/gatherers/dobetterweb/response-compression.js:79-86 | each entry copies requestId, url, mimeType, transferSize and resourceSize from a distinct record and has gzipSize 0; every eligible record has an entry |
| ResponseCompression.ExclusionReasons | core/gather/gatherers/dobetterweb/response-compression.js:58-76 | out-of-process iframes, binary MIME types, non-text or missing resource types, missing or zero sizes, unfinished requests, chrome-extension URLs, status 304 and recognised compression headers each exclude a record |
| ResponseCompression.CompressionHeaderMatching | core/gather/gatherers/dobetterweb/response-compression.js:25-30 | `Content-Encoding: gzip` is recognised; the values `GZIP` and `gzip, br` and the name `transfer-encoding` are not |
| ResponseCompression.AnnotateGzipSizes | core/gather/gatherers/dobetterweb/response-compression.js:102-131 | the loop rewrites every entry's gzipSize, in order, to the probed size of its own body |
| ResponseCompression.ProbedGzipSize | core/gather/gatherers/dobetterweb/response-compression.js:103-130 | no ensures of its own: the gzip estimate for one entry; AnnotationOutcomes states what it is for a rejected fetch, a missing or empty body, a gzip failure and a gzip success |
| ResponseCompression.GetCompressibleRecords | core/gather/gatherers/dobetterweb/response-compression.js:98-131 | the result is the filtered list with each entry's gzip estimate written in |
| ResponseCompression.AnnotationOutcomes | core/gather/gatherers/dobetterweb/response-compression.js:103-130 | length and every field but gzipSize are kept; without a body the entry is returned as it was, otherwise gzipSize is the gzip byte length on success and undefined on a fetch or gzip failure |
| ResponseCompression.CompressibleRecordOutcomes | core/gather/gatherers/dobetterweb/response-compression.js:100-131 | on the gatherer's result, each entry is its filtered entry with gzipSize 0 without a body, the gzip byte length on success and undefined on a fetch or gzip failure |
| ResponseCompression.FailureIsolated | core/gather/gatherers/dobetterweb/response-compression.js:121-130 | changing the fetch outcome for one request id changes no entry of another request id |
| ResponseCompression.ThreeRecordScenario | core/gather/gatherers/dobetterweb/response-compression.js:98-131 | a gzip-encoded script, an uncompressed 1000-byte stylesheet and a 304 image give one entry, the stylesheet's, with gzipSize 300 |
| Strings.SplitJoin | core/gather/gatherers/source-maps.js:44 | `split(',')` pieces contain no comma and joining them with commas gives back the string |
| Strings.SecondPiece | core/gather/gatherers/source-maps.js:44 | `split(',')[1]` exists iff the string has a comma, and it holds no comma |
| Strings.SecondPieceBetweenSeparators | core/gather/gatherers/source-maps.js:44 | `split(',')[1]` is the text after the first comma up to the next comma or the end |
| JsValues.GetProperty | core/gather/gatherers/source-maps.js:104-109 | a property read throws exactly on `null`; a defined result is the object's own property, and an object's own property is always the result when present |
| JsValues.JsError.ToString | core/gather/gatherers/source-maps.js:122 | the error text starts with the error's name |
| JsValues.ErrorText | core/gather/gatherers/source-maps.js:122 | for a non-empty message, `toString()` of an Error, TypeError or SyntaxError is the name, `: ` and the message |
| SourceMaps.ParseSourceMap | core/gather/gatherers/source-maps.js:36 | parsing succeeds iff the JSON parser accepts the text, with the parser's value; a parse failure is a SyntaxError carrying the parser's message |
| SourceMaps.FetchSourceMap | core/gather/gatherers/source-maps.js:31-37 | a fetch rejection propagates; when the fetch answers, the result is the `Failed fetching source map (<status>)` error iff the content is null |
| SourceMaps.ParseSourceMapFromDataUrl | core/gather/gatherers/source-maps.js:43-46 | the `Buffer.from(undefined)` TypeError results iff the URL has no comma; any other failure is a SyntaxError from parsing the payload |
| SourceMaps.DataUrlPayload | core/gather/gatherers/source-maps.js:43-46 | the decoded payload is the comma-free text between the first and second comma; with no comma the Buffer.from TypeError results |
| SourceMaps.FilterSections | core/gather/gatherers/source-maps.js:108-110 | filtering fails iff some section is null; otherwise it keeps exactly the sections with a truthy `map`, every copy of each, as a subsequence in original order |
| SourceMaps.FilterSectionsIdempotent | core/gather/gatherers/source-maps.js:108-110 | filtering the kept sections again changes nothing |
| SourceMaps.ValidateMap | core/gather/gatherers/source-maps.js:104-110 | validation succeeds iff the map is an object with numeric version, array sources, string mappings and filterable sections; the result is the input unchanged when sections is falsy, and otherwise the input with sections replaced by the filtered sections, which all have a truthy map |
| SourceMaps.ValidationErrors | core/gather/gatherers/source-maps.js:104-106 | a null map, a missing numeric version, a missing sources list and a missing string mappings each give their own error, and the three messages differ |
| SourceMaps.ValidateMapIdempotent | core/gather/gatherers/source-maps.js:104-110 | validating an accepted map again accepts it unchanged |
| SourceMaps.LoadMap | core/gather/gatherers/source-maps.js:100-110 | loading and validating succeeds iff loading succeeds and the loaded map passes validation, the map is then valid, and a loading failure is passed on unchanged |
| SourceMaps.RetrieveMap | core/gather/gatherers/source-maps.js:75-125 | each event gives one result with its scriptId and url, exactly one of map and errorMessage, a valid map when there is one, and no sourceMapUrl for a data URI |
| SourceMaps.DataUriNeedsNoNetwork | core/gather/gatherers/source-maps.js:82-101 | the result for a data URI does not depend on URL resolution or on the fetcher |
| SourceMaps.UnresolvableReference | core/gather/gatherers/source-maps.js:88-94 | a reference that does not resolve gives `Could not resolve map url: <sourceMapURL>` with no map and no sourceMapUrl |
| SourceMaps.ResolvedReference | core/gather/gatherers/source-maps.js:84-101 | a resolved reference is reported as sourceMapUrl and fetched; a rejection or a null content becomes the error message |
| SourceMaps.DataUriResult | core/gather/gatherers/source-maps.js:99-123 | a data URI whose payload parses gets exactly the outcome of validating the parsed map |
| SourceMaps.DataUriWithoutComma | core/gather/gatherers/source-maps.js:43-46 | a data URI with no comma gives the `Buffer.from(undefined)` TypeError's text as errorMessage, with no map and no sourceMapUrl |
| SourceMaps.DataUriParseFailure | core/gather/gatherers/source-maps.js:43-46 | a data URI whose payload is not JSON gives the SyntaxError's text as errorMessage, no map and no sourceMapUrl |
| SourceMaps.FetchedResult | core/gather/gatherers/source-maps.js:84-123 | a resolved reference whose fetch returns content that parses gets exactly the outcome of validating the parsed map: the map, or the validation error's text, reported under the resolved URL |
| SourceMaps.FetchedParseFailure | core/gather/gatherers/source-maps.js:31-37 | a fetched map whose content is not JSON gives the SyntaxError's text as errorMessage and no map, reported under the resolved URL |
| SourceMaps.DataUriMissingMappings | core/gather/gatherers/source-maps.js:104-106 | a data-URI map without a string mappings gives the "Map has no mappings field" error text and no map |
| SourceMaps.Gatherer.constructor | core/gather/gatherers/source-maps.js:19-24 | the event buffer starts empty |
| SourceMaps.Gatherer.OnScriptParsed | core/gather/gatherers/source-maps.js:51-55 | the event is appended iff its sourceMapURL is non-empty; otherwise the buffer is unchanged; every buffered event names a map |
| SourceMaps.Gatherer.GetArtifact | core/gather/gatherers/source-maps.js:149-153 | one result per buffered event, in buffer order, each with that event's scriptId and url, exactly one of map and errorMessage, a valid map when present, and exactly the per-event outcome `RetrieveMap` gives |

## Left out

- Protocol plumbing is not modelled: `startSensitiveInstrumentation` and `stopSensitiveInstrumentation` (`session.on`/`off`, `Debugger.enable`/`disable`). Events reach `OnScriptParsed` directly.
- ResponseCompression's `getArtifact` is not modelled. It only asks `NetworkRecords.request` for the records, and network-record reconstruction is not part of this model.
- Sentry reporting is left out. It is a fire-and-forget side effect that does not affect any result.
- `Promise.all` fan-out is modelled as a sequential pass over the list. Only order and per-entry independence are kept.
- ResponseCompression.AnnotateGzipSizes: the source overwrites `gzipSize` on shared entry objects. The model replaces entries in a local sequence. The entries are fresh objects that no one else holds, so aliasing is not captured.
- ResponseCompression.IsCompressionHeader: `toLowerCase` is modelled for ASCII letters only. Non-ASCII case mappings (for example the Kelvin sign) are not modelled.
- Numbers are integers. NaN and fractional sizes, statuses and versions are not modelled.
- A missing `mimeType` is the empty string and a missing header list is the empty list, which is what `|| []` gives.
- SourceMaps.ValidateMap: re-assigning `map.sections` in place is modelled as a new object value. The parsed map is fresh and unshared, so aliasing is not captured.
- SourceMaps.RetrieveMap: requires a non-empty `sourceMapURL`. The source throws `precondition failed` otherwise, and only buffered events, which always have one, reach it.
- JsValues.GetProperty: a read resolves own properties and the listed `Object.prototype` and `Array.prototype` methods only. Other inherited properties (such as `length`) are never read by the gatherer.
- Error texts follow V8's and Node's wording for the TypeErrors. `err.toString()` of a Node coded error is `TypeError [CODE]: message`.
- `_resolveUrl`, `fetchResource`, the JSON parse and base64 decoding are oracles. `_resolveUrl` is the `resolveUrl` field of `Collaborators`.
