/** The `/transcribe` request handler: health check, upload validation,
    staging the upload in a temporary file, transcription, the "translate if
    the languages differ" gate, the error envelopes, and the removal of the
    temporary file in `finally`. The filesystem, the ASR engine and the
    translation engine are oracles; the handler returns the HTTP response
    together with a log of what it did to the outside world. */
module Server {
  import opened PyTypes
  import opened Segments
  import opened M2M100

  const NoAudioFileError: string := "No audio_file in the request"
  const StagingError: string := "Failed to temporarily save audio_file"
  const ProcessingError: string := "Transcription process failed."

  /** The literal `translated_text` when no translation was performed. */
  const NotTranslated: string := "\n"

  /** The uploaded `audio_file` part of a multipart form. */
  datatype Upload = Upload(filename: string, content: seq<bv8>)

  /** What the handler reads from a request: the method, `request.files`'s
      `audio_file`, and the optional form fields. */
  datatype Request = Request(
    httpMethod: string,
    audioFile: Option<Upload>,
    fromLanguage: Option<string>,
    toLanguage: Option<string>)

  /** `info.language` as `getattr` sees it: missing, or present (possibly
      holding `None`). */
  datatype LanguageAttr = NoLanguageAttr | LanguageAttr(value: Option<string>)

  /** What the ASR engine returns for a file and a language hint, or the
      exception it raises. */
  datatype AsrOutcome =
    | Transcribed(segments: seq<Segment>, language: LanguageAttr)
    | AsrRaised(message: string)

  /** Creating the named temporary file and saving the upload into it:
      both succeed, creation raises, or creation succeeds and saving raises. */
  datatype StageOutcome =
    | Saved(path: string)
    | CreateRaised(message: string)
    | SaveRaised(path: string, message: string)

  /** Everything outside the handler: the filesystem's answer to staging and
      to `os.remove`, and the two engines. */
  datatype Oracles = Oracles(
    stage: Upload -> StageOutcome,
    asr: (string, Option<string>) -> AsrOutcome,
    engine: Engine,
    removeSucceeds: bool)

  /** One effect of the handler on the outside world, in the order it
      happens. */
  datatype Event =
    | TempCreated(path: string)
    | TempRemoveAttempted(path: string, removed: bool)
    | AsrInvoked(path: string, language: Option<string>)
    | TranslateInvoked(source: Option<string>, target: Option<string>, text: string)
    | EngineInvoked(call: GenerateCall)

  /** The JSON bodies the handler can produce, by their set of keys. The
      `trace` text of the processing-error body is not modelled. */
  datatype Body =
    | StatusBody(status: string)
    | ErrorBody(error: string)
    | ErrorDetailsBody(error: string, details: string)
    | ErrorTraceBody(error: string, details: string)
    | ResultBody(transcriptText: string, translatedText: string, segments: seq<SegmentJson>, language: Option<string>)

  datatype Response = Response(status: int, body: Body)

  /** The response and the log of events that produced it. */
  datatype Handled = Handled(response: Response, events: seq<Event>)

  /** `getattr(info, "language", from_language)`: the attribute's value when
      the attribute exists, even if that value is `None`; the caller's hint
      only when it does not. */
  function DetectedLanguage(attr: LanguageAttr, fromLanguage: Option<string>): (d: Option<string>)
    ensures attr.LanguageAttr? ==> d == attr.value
    ensures attr.NoLanguageAttr? ==> d == fromLanguage
  {
    match attr
    case LanguageAttr(value) => value
    case NoLanguageAttr => fromLanguage
  }

  /** What the `try` block of the handler did, and what it produced or raised. */
  datatype Processed = Processed(events: seq<Event>, result: Raises<Body>)

  /** The `try` block: transcribe, join, build the segment list, then
      translate unless `to_language` equals the detected language. */
  function Process(path: string, fromLanguage: Option<string>, toLanguage: Option<string>, o: Oracles): (p: Processed)
    ensures |p.events| >= 1 && p.events[0] == AsrInvoked(path, fromLanguage)
    ensures forall k :: 1 <= k < |p.events| ==> !p.events[k].AsrInvoked?
    ensures o.asr(path, fromLanguage).AsrRaised? ==> p.result == Raised(o.asr(path, fromLanguage).message)
    ensures p.result.Returned? ==>
      && o.asr(path, fromLanguage).Transcribed?
      && p.result.value.ResultBody?
      && p.result.value.transcriptText == JoinTexts(o.asr(path, fromLanguage).segments)
      && p.result.value.segments == ToJson(o.asr(path, fromLanguage).segments)
  {
    var asrCall := [AsrInvoked(path, fromLanguage)];
    match o.asr(path, fromLanguage)
    case AsrRaised(msg) => Processed(asrCall, Raised(msg))
    case Transcribed(segments, attr) =>
      var fullText := JoinTexts(segments);
      var segmentsList := ToJson(segments);
      var detected := DetectedLanguage(attr, fromLanguage);
      if toLanguage != detected then
        var t := Translate(detected, toLanguage, fullText, o.engine);
        var engineCalls := if t.calls == [] then [] else [EngineInvoked(t.calls[0])];
        var translation := [TranslateInvoked(detected, toLanguage, fullText)] + engineCalls;
        assert forall k :: 0 <= k < |translation| ==> !translation[k].AsrInvoked?;
        var events := asrCall + translation;
        match t.result
        case Raised(msg) => Processed(events, Raised(msg))
        case Returned(translated) => Processed(events, Returned(ResultBody(fullText, translated, segmentsList, detected)))
      else
        Processed(asrCall, Returned(ResultBody(fullText, NotTranslated, segmentsList, detected)))
  }

  /** `transcribe()`: the whole handler. */
  function Transcribe(req: Request, o: Oracles): (h: Handled)
    ensures h.response.status in {200, 400, 500}
  {
    if req.httpMethod == "GET" then
      Handled(Response(200, StatusBody("ok")), [])
    else if req.audioFile.None? then
      Handled(Response(400, ErrorBody(NoAudioFileError)), [])
    else
      match o.stage(req.audioFile.value)
      case CreateRaised(msg) =>
        Handled(Response(500, ErrorDetailsBody(StagingError, msg)), [])
      case SaveRaised(path, msg) =>
        Handled(Response(500, ErrorDetailsBody(StagingError, msg)), [TempCreated(path)])
      case Saved(path) =>
        var p := Process(path, req.fromLanguage, req.toLanguage, o);
        var events := [TempCreated(path)] + p.events + [TempRemoveAttempted(path, o.removeSucceeds)];
        match p.result
        case Raised(msg) => Handled(Response(500, ErrorTraceBody(ProcessingError, msg)), events)
        case Returned(body) => Handled(Response(200, body), events)
  }

  // ---------------------------------------------------------------------
  // Reading the event log

  /** The values `pick` extracts from the events, in order. */
  function Select<T>(events: seq<Event>, pick: Event -> Option<T>): seq<T>
  {
    if events == [] then []
    else (match pick(events[0]) case Some(v) => [v] case None => []) + Select(events[1..], pick)
  }

  function CreatedPath(e: Event): Option<string> {
    if e.TempCreated? then Some(e.path) else None
  }

  function RemovedPath(e: Event): Option<string> {
    if e.TempRemoveAttempted? then Some(e.path) else None
  }

  function AsrPath(e: Event): Option<string> {
    if e.AsrInvoked? then Some(e.path) else None
  }

  function TranslateArgs(e: Event): Option<(Option<string>, Option<string>, string)> {
    if e.TranslateInvoked? then Some((e.source, e.target, e.text)) else None
  }

  function EngineCall(e: Event): Option<GenerateCall> {
    if e.EngineInvoked? then Some(e.call) else None
  }

  /** Selecting from a concatenated log is concatenating the selections. */
  lemma {:induction false} SelectAppend<T>(a: seq<Event>, b: seq<Event>, pick: Event -> Option<T>)
    ensures Select(a + b, pick) == Select(a, pick) + Select(b, pick)
  {
    if a == [] {
      assert a + b == b;
    } else {
      assert (a + b)[1..] == a[1..] + b;
      SelectAppend(a[1..], b, pick);
    }
  }

  /** Nothing is selected from a log in which `pick` finds nothing. */
  lemma {:induction false} SelectNothing<T>(events: seq<Event>, pick: Event -> Option<T>)
    requires forall k :: 0 <= k < |events| ==> pick(events[k]).None?
    ensures Select(events, pick) == []
  {
    if events != [] {
      assert forall k :: 0 <= k < |events[1..]| ==> events[1..][k] == events[k + 1];
      SelectNothing(events[1..], pick);
    }
  }

  // ---------------------------------------------------------------------
  // Which path a request takes

  /** The request got past validation and its upload was saved. */
  predicate Staged(req: Request, o: Oracles) {
    req.httpMethod != "GET" && req.audioFile.Some? && o.stage(req.audioFile.value).Saved?
  }

  function StagedPath(req: Request, o: Oracles): string
    requires Staged(req, o)
  {
    o.stage(req.audioFile.value).path
  }

  function AsrOf(req: Request, o: Oracles): AsrOutcome
    requires Staged(req, o)
  {
    o.asr(StagedPath(req, o), req.fromLanguage)
  }

  /** The language the handler reports and compares against `to_language`. */
  function DetectedOf(req: Request, o: Oracles): Option<string>
    requires Staged(req, o) && AsrOf(req, o).Transcribed?
  {
    DetectedLanguage(AsrOf(req, o).language, req.fromLanguage)
  }

  /** The raw-string translation gate. */
  predicate GateOpen(req: Request, o: Oracles)
    requires Staged(req, o) && AsrOf(req, o).Transcribed?
  {
    req.toLanguage != DetectedOf(req, o)
  }

  function TranslationOf(req: Request, o: Oracles): Translation
    requires Staged(req, o) && AsrOf(req, o).Transcribed?
  {
    Translate(DetectedOf(req, o), req.toLanguage, JoinTexts(AsrOf(req, o).segments), o.engine)
  }

  /** The log of a staged request is: create, the `try` block, remove. */
  lemma StagedLog(req: Request, o: Oracles)
    requires Staged(req, o)
    ensures var path := StagedPath(req, o);
      Transcribe(req, o).events
        == [TempCreated(path)] + Process(path, req.fromLanguage, req.toLanguage, o).events
           + [TempRemoveAttempted(path, o.removeSucceeds)]
  {
  }

  /** The `try` block touches no temporary file. */
  lemma ProcessLeavesFilesAlone(path: string, fromLanguage: Option<string>, toLanguage: Option<string>, o: Oracles)
    ensures Select(Process(path, fromLanguage, toLanguage, o).events, CreatedPath) == []
    ensures Select(Process(path, fromLanguage, toLanguage, o).events, RemovedPath) == []
  {
    var events := Process(path, fromLanguage, toLanguage, o).events;
    assert forall k :: 0 <= k < |events| ==> !events[k].TempCreated? && !events[k].TempRemoveAttempted?;
    SelectNothing(events, CreatedPath);
    SelectNothing(events, RemovedPath);
  }
}
