/** The SourceMaps gatherer: buffers the parsed-script events that name a source
    map, then turns each into exactly one result holding either the validated map
    or an error message. URL resolution, resource fetching, JSON parsing and
    base64 decoding are parameters (oracles) of the model. */
module SourceMaps {

  import opened Wrappers
  import opened Strings
  import opened JsValues

  /** The timeout, in milliseconds, passed with every source-map fetch. */
  const FetchTimeoutMs: nat := 1500

  const DataUriPrefix: string := "data:"

  const NoVersionMessage: string := "Map has no numeric `version` field"
  const NoSourcesMessage: string := "Map has no `sources` list"
  const NoMappingsMessage: string := "Map has no `mappings` field"

  /** What V8 reports when `map.sections` is truthy but not an array. */
  const SectionsNotFilterableMessage: string := "map.sections.filter is not a function"

  /** What Node reports when `Buffer.from` is given `undefined`. */
  const BufferFromUndefined: JsError :=
    CodedTypeError("ERR_INVALID_ARG_TYPE",
      "The first argument must be of type string or an instance of Buffer, ArrayBuffer, "
      + "or Array or an Array-like Object. Received undefined")

  /** A `Debugger.scriptParsed` event; an absent `sourceMapURL` is the empty string. */
  datatype ScriptParsedEvent = ScriptParsedEvent(scriptId: string, url: string, sourceMapURL: string)

  /** The answer of a resource fetch; `content == None` is `null`. */
  datatype FetchResponse = FetchResponse(status: int, content: Option<string>)

  /** The foreign calls the gatherer makes, as oracles:
      `resolveUrl(url, base)` is `new URL(url, base).href` (`None` when it throws);
      `fetchResource(url, timeout)` is the driver's fetcher (a failure is a rejection);
      `parseJson(text)` is the JSON parse behind `parseSourceMap` (a failure carries
      the SyntaxError's message); `decodeBase64(s)` is `Buffer.from(s, 'base64').toString()`. */
  datatype Collaborators = Collaborators(
    resolveUrl: (string, string) -> Option<string>,
    fetchResource: (string, nat) -> Result<FetchResponse, JsError>,
    parseJson: string -> Result<Json, string>,
    decodeBase64: string -> string)

  /** One entry of the SourceMaps artifact. */
  datatype SourceMapResult = SourceMapResult(
    scriptId: string,
    scriptUrl: string,
    sourceMapUrl: Option<string>,
    sourceMap: Option<Json>,  // the artifact's `map` field
    errorMessage: Option<string>)

  /** Exactly one of `map` and `errorMessage` is set. */
  predicate HasExactlyOneOutcome(r: SourceMapResult) {
    r.sourceMap.Some? != r.errorMessage.Some?
  }

  /** `xs` is `ys` with some elements left out, the rest in their order. */
  ghost predicate IsSubsequence(xs: seq<Json>, ys: seq<Json>)
    decreases |ys|
  {
    if xs == [] then true
    else if ys == [] then false
    else if xs[0] == ys[0] then IsSubsequence(xs[1..], ys[1..])
    else IsSubsequence(xs, ys[1..])
  }

  /** `SDK.SourceMap.parseSourceMap`: a parse failure throws a SyntaxError. */
  function ParseSourceMap(c: Collaborators, content: string): (r: Result<Json, JsError>)
    ensures r.Success? <==> c.parseJson(content).Success?
    ensures r.Success? ==> r.value == c.parseJson(content).value
    ensures r.Failure? ==> r.error == SyntaxError(c.parseJson(content).error)
  {
    match c.parseJson(content)
    case Success(v) => Success(v)
    case Failure(message) => Failure(SyntaxError(message))
  }

  /** The message of the error thrown when a fetched map has no content. */
  function FetchFailedMessage(status: int): string {
    "Failed fetching source map (" + IntToString(status) + ")"
  }

  /** `fetchSourceMap`: fetch with the fixed timeout; `null` content is an error
      naming the status; otherwise parse the content. */
  function FetchSourceMap(c: Collaborators, sourceMapUrl: string): (r: Result<Json, JsError>)
    ensures c.fetchResource(sourceMapUrl, FetchTimeoutMs).Failure? ==>
              r == Failure(c.fetchResource(sourceMapUrl, FetchTimeoutMs).error)
    ensures c.fetchResource(sourceMapUrl, FetchTimeoutMs).Success? ==>
              var response := c.fetchResource(sourceMapUrl, FetchTimeoutMs).value;
              (r == Failure(Error(FetchFailedMessage(response.status))) <==> response.content.None?)
  {
    var response :- c.fetchResource(sourceMapUrl, FetchTimeoutMs);
    if response.content.None? then Failure(Error(FetchFailedMessage(response.status)))
    else ParseSourceMap(c, response.content.value)
  }

  /** `parseSourceMapFromDataUrl`: decode the text after the first comma (up to
      any second comma) and parse it. With no comma, `Buffer.from(undefined)` throws. */
  function ParseSourceMapFromDataUrl(c: Collaborators, sourceMapURL: string): (r: Result<Json, JsError>)
    ensures r == Failure(BufferFromUndefined) <==> ',' !in sourceMapURL
    ensures r.Failure? && ',' in sourceMapURL ==> r.error.SyntaxError?
  {
    match SecondPiece(sourceMapURL, ',')
    case None => Failure(BufferFromUndefined)
    case Some(payload) => ParseSourceMap(c, c.decodeBase64(payload))
  }

  /** The payload handed to the decoder lies between the first comma and the next
      comma or the end; without a comma the decoder is never reached. */
  lemma DataUrlPayload(c: Collaborators, sourceMapURL: string)
    ensures ',' !in sourceMapURL ==> ParseSourceMapFromDataUrl(c, sourceMapURL) == Failure(BufferFromUndefined)
    ensures ',' in sourceMapURL ==>
              var rest := sourceMapURL[IndexOf(sourceMapURL, ',') + 1..];
              var payload := rest[..IndexOf(rest, ',')];
              && ',' !in payload
              && ParseSourceMapFromDataUrl(c, sourceMapURL) == ParseSourceMap(c, c.decodeBase64(payload))
  {
    if ',' in sourceMapURL {
      SecondPieceBetweenSeparators(sourceMapURL, ',');
    }
  }

  /** `section.map` is truthy (reading it off `null` throws instead). */
  predicate HasTruthyMap(section: Json) {
    var p := GetProperty(section, "map");
    p.Success? && PropertyTruthy(p.value)
  }

  /** `sections.filter(section => section.map)`. */
  function FilterSections(sections: seq<Json>): (r: Result<seq<Json>, JsError>)
    ensures r.Failure? <==> JNull in sections
    ensures r.Failure? ==> r.error == NullPropertyRead("map")
    ensures r.Success? ==> forall s :: s in r.value <==> s in sections && HasTruthyMap(s)
    ensures r.Success? ==> forall s :: multiset(r.value)[s] == if HasTruthyMap(s) then multiset(sections)[s] else 0
    ensures r.Success? ==> IsSubsequence(r.value, sections)
  {
    if |sections| == 0 then Success([])
    else
      var first :- GetProperty(sections[0], "map");
      var rest :- FilterSections(sections[1..]);
      assert sections == [sections[0]] + sections[1..];
      if PropertyTruthy(first) then
        assert ([sections[0]] + rest)[1..] == rest;
        Success([sections[0]] + rest)
      else
        assert rest != [] ==> rest[0] in rest && rest[0] != sections[0];
        Success(rest)
  }

  /** Filtering the sections a second time keeps them all. */
  lemma {:induction false} FilterSectionsIdempotent(sections: seq<Json>)
    requires FilterSections(sections).Success?
    ensures FilterSections(FilterSections(sections).value) == FilterSections(sections)
  {
    if |sections| > 0 {
      FilterSectionsIdempotent(sections[1..]);
      var rest := FilterSections(sections[1..]).value;
      if HasTruthyMap(sections[0]) {
        assert ([sections[0]] + rest)[1..] == rest;
      }
    }
  }

  /** The raw map passes every check: an object with a numeric `version`, a
      `sources` array, a string `mappings`, and, when `sections` is truthy, an
      array of sections none of which is `null`. */
  predicate Acceptable(m: Json) {
    && m.JObject?
    && "version" in m.props && m.props["version"].JNumber?
    && "sources" in m.props && m.props["sources"].JArray?
    && "mappings" in m.props && m.props["mappings"].JString?
    && ("sections" in m.props && Truthy(m.props["sections"]) ==>
          m.props["sections"].JArray? && JNull !in m.props["sections"].items)
  }

  /** An accepted map: acceptable, and every remaining section has a truthy `map`. */
  predicate IsValidSourceMap(m: Json) {
    && Acceptable(m)
    && ("sections" in m.props && Truthy(m.props["sections"]) ==>
          forall s :: s in m.props["sections"].items ==> HasTruthyMap(s))
  }

  /** The validation and section filtering of `_retrieveMapFromScriptParsedEvent`. */
  function ValidateMap(raw: Json): (r: Result<Json, JsError>)
    ensures r.Success? <==> Acceptable(raw)
    ensures r.Success? ==> IsValidSourceMap(r.value)
    ensures r.Success? ==> r.value.props.Keys == raw.props.Keys
    ensures r.Success? ==> forall k :: k in raw.props && k != "sections" ==> r.value.props[k] == raw.props[k]
    ensures r.Success? && "sections" in raw.props && Truthy(raw.props["sections"]) ==>
              && raw.props["sections"].JArray? && r.value.props["sections"].JArray?
              && IsSubsequence(r.value.props["sections"].items, raw.props["sections"].items)
              && FilterSections(raw.props["sections"].items).Success?
              && r.value.props["sections"] == JArray(FilterSections(raw.props["sections"].items).value)
    ensures r.Success? && !("sections" in raw.props && Truthy(raw.props["sections"])) ==> r.value == raw
  {
    var version :- GetProperty(raw, "version");
    if !(version.Defined? && version.value.JNumber?) then Failure(Error(NoVersionMessage))
    else
      // Only an object has a numeric property, so the later reads cannot throw.
      var sources := GetProperty(raw, "sources").value;
      if !(sources.Defined? && sources.value.JArray?) then Failure(Error(NoSourcesMessage))
      else
        var mappings := GetProperty(raw, "mappings").value;
        if !(mappings.Defined? && mappings.value.JString?) then Failure(Error(NoMappingsMessage))
        else
          var sections := GetProperty(raw, "sections").value;
          if !PropertyTruthy(sections) then Success(raw)
          else if !(sections.Defined? && sections.value.JArray?) then Failure(TypeError(SectionsNotFilterableMessage))
          else
            var kept :- FilterSections(sections.value.items);
            Success(JObject(raw.props["sections" := JArray(kept)]))
  }

  /** Each way a map can fail validation yields its own error. */
  lemma ValidationErrors(raw: Json)
    ensures raw.JNull? ==> ValidateMap(raw) == Failure(NullPropertyRead("version"))
    ensures !raw.JNull? && !(raw.JObject? && "version" in raw.props && raw.props["version"].JNumber?) ==>
              ValidateMap(raw) == Failure(Error(NoVersionMessage))
    ensures raw.JObject? && "version" in raw.props && raw.props["version"].JNumber?
            && !("sources" in raw.props && raw.props["sources"].JArray?) ==>
              ValidateMap(raw) == Failure(Error(NoSourcesMessage))
    ensures raw.JObject? && "version" in raw.props && raw.props["version"].JNumber?
            && "sources" in raw.props && raw.props["sources"].JArray?
            && !("mappings" in raw.props && raw.props["mappings"].JString?) ==>
              ValidateMap(raw) == Failure(Error(NoMappingsMessage))
    ensures NoVersionMessage != NoSourcesMessage && NoSourcesMessage != NoMappingsMessage
            && NoVersionMessage != NoMappingsMessage
  {
  }

  /** Validating an accepted map again accepts it unchanged. */
  lemma {:induction false} ValidateMapIdempotent(raw: Json)
    requires ValidateMap(raw).Success?
    ensures ValidateMap(ValidateMap(raw).value) == ValidateMap(raw)
  {
    var m := ValidateMap(raw).value;
    if "sections" in raw.props && Truthy(raw.props["sections"]) {
      var items := raw.props["sections"].items;
      FilterSectionsIdempotent(items);
      assert m.props["sections"] == JArray(FilterSections(items).value);
      assert m.props["sections" := m.props["sections"]] == m.props;
    }
  }

  /** The map, or the error, that loading a resolved reference gives: a data URI
      is decoded in place, any other reference is fetched. */
  function Loaded(c: Collaborators, isDataUri: bool, rawSourceMapUrl: string): Result<Json, JsError> {
    if isDataUri then ParseSourceMapFromDataUrl(c, rawSourceMapUrl)
    else FetchSourceMap(c, rawSourceMapUrl)
  }

  /** The map, or the error, that loading and validating a resolved reference gives. */
  function LoadMap(c: Collaborators, isDataUri: bool, rawSourceMapUrl: string): (r: Result<Json, JsError>)
    ensures r.Success? <==> Loaded(c, isDataUri, rawSourceMapUrl).Success?
                            && Acceptable(Loaded(c, isDataUri, rawSourceMapUrl).value)
    ensures r.Success? ==> IsValidSourceMap(r.value)
    ensures Loaded(c, isDataUri, rawSourceMapUrl).Failure? ==> r == Failure(Loaded(c, isDataUri, rawSourceMapUrl).error)
  {
    match Loaded(c, isDataUri, rawSourceMapUrl)
    case Success(m) => ValidateMap(m)
    case Failure(err) => Failure(err)
  }

  /** `_retrieveMapFromScriptParsedEvent`: a data URI is decoded in place, any other
      reference is resolved against the script's URL and fetched; every failure
      becomes an `errorMessage` on the script's result. */
  function RetrieveMap(c: Collaborators, event: ScriptParsedEvent): (r: SourceMapResult)
    requires event.sourceMapURL != ""
    ensures r.scriptId == event.scriptId && r.scriptUrl == event.url
    ensures HasExactlyOneOutcome(r)
    ensures r.sourceMap.Some? ==> IsValidSourceMap(r.sourceMap.value)
    ensures DataUriPrefix <= event.sourceMapURL ==> r.sourceMapUrl.None?
  {
    var isDataUri := DataUriPrefix <= event.sourceMapURL;
    var rawSourceMapUrl := if isDataUri then Some(event.sourceMapURL)
                           else c.resolveUrl(event.sourceMapURL, event.url);
    if rawSourceMapUrl.None? || rawSourceMapUrl.value == "" then
      SourceMapResult(event.scriptId, event.url, None, None,
                      Some("Could not resolve map url: " + event.sourceMapURL))
    else
      var sourceMapUrl := if isDataUri then None else rawSourceMapUrl;
      match LoadMap(c, isDataUri, rawSourceMapUrl.value)
      case Success(m) => SourceMapResult(event.scriptId, event.url, sourceMapUrl, Some(m), None)
      case Failure(err) => SourceMapResult(event.scriptId, event.url, sourceMapUrl, None, Some(err.ToString()))
  }

  /** A data-URI reference is decoded in process: the result does not depend on
      URL resolution or on the fetcher. */
  lemma DataUriNeedsNoNetwork(c: Collaborators, c': Collaborators, event: ScriptParsedEvent)
    requires event.sourceMapURL != "" && DataUriPrefix <= event.sourceMapURL
    requires forall s :: c.parseJson(s) == c'.parseJson(s)
    requires forall s :: c.decodeBase64(s) == c'.decodeBase64(s)
    ensures RetrieveMap(c, event) == RetrieveMap(c', event)
  {
  }

  /** A reference that is not a data URI and fails to resolve gives only the
      resolution error, with no map and no `sourceMapUrl`. */
  lemma UnresolvableReference(c: Collaborators, event: ScriptParsedEvent)
    requires event.sourceMapURL != "" && !(DataUriPrefix <= event.sourceMapURL)
    requires c.resolveUrl(event.sourceMapURL, event.url) in {None, Some("")}
    ensures RetrieveMap(c, event)
            == SourceMapResult(event.scriptId, event.url, None, None,
                               Some("Could not resolve map url: " + event.sourceMapURL))
  {
  }

  /** A reference that resolves is reported by its resolved URL, and that URL is
      what gets fetched: a fetch with `null` content reports the status. */
  lemma ResolvedReference(c: Collaborators, event: ScriptParsedEvent, resolved: string)
    requires event.sourceMapURL != "" && !(DataUriPrefix <= event.sourceMapURL)
    requires c.resolveUrl(event.sourceMapURL, event.url) == Some(resolved) && resolved != ""
    ensures RetrieveMap(c, event).sourceMapUrl == Some(resolved)
    ensures c.fetchResource(resolved, FetchTimeoutMs).Failure? ==>
              RetrieveMap(c, event).errorMessage == Some(c.fetchResource(resolved, FetchTimeoutMs).error.ToString())
    ensures c.fetchResource(resolved, FetchTimeoutMs).Success?
            && c.fetchResource(resolved, FetchTimeoutMs).value.content.None? ==>
              RetrieveMap(c, event).errorMessage
              == Some("Error: " + FetchFailedMessage(c.fetchResource(resolved, FetchTimeoutMs).value.status))
  {
    var response := c.fetchResource(resolved, FetchTimeoutMs);
    if response.Failure? {
      assert LoadMap(c, false, resolved) == Failure(response.error);
    } else if response.value.content.None? {
      var message := FetchFailedMessage(response.value.status);
      assert LoadMap(c, false, resolved) == Failure(Error(message));
      assert message[0] == 'F';
      ErrorText(Error(message));
    }
  }

  /** A data URI whose payload parses to `parsed` gets exactly what validating
      `parsed` gives, with no `sourceMapUrl`. */
  lemma DataUriResult(c: Collaborators, event: ScriptParsedEvent, parsed: Json)
    requires event.sourceMapURL != "" && DataUriPrefix <= event.sourceMapURL
    requires ',' in event.sourceMapURL
    requires var rest := event.sourceMapURL[IndexOf(event.sourceMapURL, ',') + 1..];
             c.parseJson(c.decodeBase64(rest[..IndexOf(rest, ',')])) == Success(parsed)
    ensures RetrieveMap(c, event)
            == match ValidateMap(parsed)
               case Success(m) => SourceMapResult(event.scriptId, event.url, None, Some(m), None)
               case Failure(err) => SourceMapResult(event.scriptId, event.url, None, None, Some(err.ToString()))
  {
    DataUrlPayload(c, event.sourceMapURL);
    assert ParseSourceMapFromDataUrl(c, event.sourceMapURL) == Success(parsed);
    assert LoadMap(c, true, event.sourceMapURL) == ValidateMap(parsed);
  }

  /** A data URI with no comma has no payload: `Buffer.from(undefined)` throws, and
      its text is the only outcome. */
  lemma DataUriWithoutComma(c: Collaborators, event: ScriptParsedEvent)
    requires event.sourceMapURL != "" && DataUriPrefix <= event.sourceMapURL
    requires ',' !in event.sourceMapURL
    ensures RetrieveMap(c, event)
            == SourceMapResult(event.scriptId, event.url, None, None, Some(BufferFromUndefined.ToString()))
  {
    DataUrlPayload(c, event.sourceMapURL);
  }

  /** A data URI whose map lacks a string `mappings` (but has a numeric `version`
      and a `sources` list) yields the matching error and no map. */
  lemma DataUriMissingMappings(c: Collaborators, event: ScriptParsedEvent, parsed: Json)
    requires event.sourceMapURL != "" && DataUriPrefix <= event.sourceMapURL
    requires ',' in event.sourceMapURL
    requires var rest := event.sourceMapURL[IndexOf(event.sourceMapURL, ',') + 1..];
             c.parseJson(c.decodeBase64(rest[..IndexOf(rest, ',')])) == Success(parsed)
    requires parsed.JObject? && "version" in parsed.props && parsed.props["version"].JNumber?
    requires "sources" in parsed.props && parsed.props["sources"].JArray?
    requires !("mappings" in parsed.props && parsed.props["mappings"].JString?)
    ensures RetrieveMap(c, event).sourceMap.None?
    ensures RetrieveMap(c, event).errorMessage == Some("Error: " + NoMappingsMessage)
  {
    assert ValidateMap(parsed) == Failure(Error(NoMappingsMessage)) by {
      ValidationErrors(parsed);
    }
    DataUriResult(c, event, parsed);
    assert NoMappingsMessage[0] == 'M';
    ErrorText(Error(NoMappingsMessage));
  }

  /** A data URI whose payload is not JSON yields the SyntaxError's text and no map. */
  lemma DataUriParseFailure(c: Collaborators, event: ScriptParsedEvent, message: string)
    requires event.sourceMapURL != "" && DataUriPrefix <= event.sourceMapURL
    requires ',' in event.sourceMapURL
    requires var rest := event.sourceMapURL[IndexOf(event.sourceMapURL, ',') + 1..];
             c.parseJson(c.decodeBase64(rest[..IndexOf(rest, ',')])) == Failure(message)
    ensures RetrieveMap(c, event)
            == SourceMapResult(event.scriptId, event.url, None, None,
                               Some(if message == "" then "SyntaxError" else "SyntaxError: " + message))
  {
    DataUrlPayload(c, event.sourceMapURL);
    assert ParseSourceMapFromDataUrl(c, event.sourceMapURL) == Failure(SyntaxError(message));
    assert LoadMap(c, true, event.sourceMapURL) == Failure(SyntaxError(message));
    if message != "" {
      ErrorText(SyntaxError(message));
    }
  }

  /** A reference that resolves and is fetched with content gets exactly what
      validating the parsed content gives, reported under the resolved URL. */
  lemma FetchedResult(c: Collaborators, event: ScriptParsedEvent, resolved: string,
                      status: int, content: string, parsed: Json)
    requires event.sourceMapURL != "" && !(DataUriPrefix <= event.sourceMapURL)
    requires c.resolveUrl(event.sourceMapURL, event.url) == Some(resolved) && resolved != ""
    requires c.fetchResource(resolved, FetchTimeoutMs) == Success(FetchResponse(status, Some(content)))
    requires c.parseJson(content) == Success(parsed)
    ensures RetrieveMap(c, event)
            == match ValidateMap(parsed)
               case Success(m) => SourceMapResult(event.scriptId, event.url, Some(resolved), Some(m), None)
               case Failure(err) => SourceMapResult(event.scriptId, event.url, Some(resolved), None, Some(err.ToString()))
  {
    assert FetchSourceMap(c, resolved) == Success(parsed);
  }

  /** A fetched map whose content is not JSON yields the SyntaxError's text and no
      map, reported under the resolved URL. */
  lemma FetchedParseFailure(c: Collaborators, event: ScriptParsedEvent, resolved: string,
                            status: int, content: string, message: string)
    requires event.sourceMapURL != "" && !(DataUriPrefix <= event.sourceMapURL)
    requires c.resolveUrl(event.sourceMapURL, event.url) == Some(resolved) && resolved != ""
    requires c.fetchResource(resolved, FetchTimeoutMs) == Success(FetchResponse(status, Some(content)))
    requires c.parseJson(content) == Failure(message)
    ensures RetrieveMap(c, event)
            == SourceMapResult(event.scriptId, event.url, Some(resolved), None,
                               Some(if message == "" then "SyntaxError" else "SyntaxError: " + message))
  {
    assert FetchSourceMap(c, resolved) == Failure(SyntaxError(message));
    if message != "" {
      ErrorText(SyntaxError(message));
    }
  }

  /** The gatherer's state: the buffered script-parsed events. */
  class Gatherer {
    var scriptParsedEvents: seq<ScriptParsedEvent>

    /** Only events that name a source map are ever buffered. */
    ghost predicate Valid()
      reads this
    {
      forall i :: 0 <= i < |scriptParsedEvents| ==> scriptParsedEvents[i].sourceMapURL != ""
    }

    constructor ()
      ensures Valid() && scriptParsedEvents == []
    {
      scriptParsedEvents := [];
    }

    /** `onScriptParsed`: buffer the event when it names a source map. */
    method OnScriptParsed(event: ScriptParsedEvent)
      requires Valid()
      modifies this
      ensures Valid()
      ensures scriptParsedEvents == if event.sourceMapURL != "" then old(scriptParsedEvents) + [event]
                                    else old(scriptParsedEvents)
    {
      if event.sourceMapURL != "" {
        scriptParsedEvents := scriptParsedEvents + [event];
      }
    }

    /** `getArtifact`: one result per buffered event, in buffer order. */
    function GetArtifact(c: Collaborators): (results: seq<SourceMapResult>)
      reads this
      requires Valid()
      ensures |results| == |scriptParsedEvents|
      ensures forall i :: 0 <= i < |results| ==>
                && results[i].scriptId == scriptParsedEvents[i].scriptId
                && results[i].scriptUrl == scriptParsedEvents[i].url
                && HasExactlyOneOutcome(results[i])
                && (results[i].sourceMap.Some? ==> IsValidSourceMap(results[i].sourceMap.value))
                && results[i] == RetrieveMap(c, scriptParsedEvents[i])
    {
      var events := scriptParsedEvents;
      seq(|events|, i requires 0 <= i < |events| && events[i].sourceMapURL != "" => RetrieveMap(c, events[i]))
    }
  }
}
