/** What the `/transcribe` handler promises, stated over its response and its
    event log for every request and every behaviour of the oracles. */
module HandlerProperties {
  import opened PyTypes
  import opened Segments
  import opened LangCodes
  import opened M2M100
  import opened Server

  // ---------------------------------------------------------------------
  // Log arithmetic

  lemma SelectSingle<T>(e: Event, pick: Event -> Option<T>)
    ensures Select([e], pick) == (match pick(e) case Some(v) => [v] case None => [])
  {
    assert [e][1..] == [];
  }

  /** Selecting from a staged request's log splits into create, the `try`
      block, and remove. */
  lemma SelectStagedLog<T>(req: Request, o: Oracles, pick: Event -> Option<T>)
    requires Staged(req, o)
    ensures var path := StagedPath(req, o);
      Select(Transcribe(req, o).events, pick)
        == Select([TempCreated(path)], pick)
           + Select(Process(path, req.fromLanguage, req.toLanguage, o).events, pick)
           + Select([TempRemoveAttempted(path, o.removeSucceeds)], pick)
  {
    var path := StagedPath(req, o);
    var p := Process(path, req.fromLanguage, req.toLanguage, o);
    StagedLog(req, o);
    SelectAppend([TempCreated(path)] + p.events, [TempRemoveAttempted(path, o.removeSucceeds)], pick);
    SelectAppend([TempCreated(path)], p.events, pick);
  }

  // ---------------------------------------------------------------------
  // Paths that never reach staging

  /** GET is a health check with no effect on the outside world. */
  lemma HealthCheck(req: Request, o: Oracles)
    requires req.httpMethod == "GET"
    ensures Transcribe(req, o) == Handled(Response(200, StatusBody("ok")), [])
  {
  }

  /** A non-GET request without `audio_file` is refused before anything is
      staged or any engine runs. */
  lemma MissingAudioFileRejected(req: Request, o: Oracles)
    requires req.httpMethod != "GET" && req.audioFile.None?
    ensures Transcribe(req, o) == Handled(Response(400, ErrorBody("No audio_file in the request")), [])
  {
  }

  /** A staging failure is a 500 carrying the exception text; no engine runs
      and no removal is attempted. */
  lemma StagingFailureReported(req: Request, o: Oracles)
    requires req.httpMethod != "GET" && req.audioFile.Some? && !o.stage(req.audioFile.value).Saved?
    ensures Transcribe(req, o).response
      == Response(500, ErrorDetailsBody("Failed to temporarily save audio_file", o.stage(req.audioFile.value).message))
    ensures Transcribe(req, o).events
      == (if o.stage(req.audioFile.value).SaveRaised? then [TempCreated(o.stage(req.audioFile.value).path)] else [])
    ensures Select(Transcribe(req, o).events, RemovedPath) == []
    ensures Select(Transcribe(req, o).events, AsrPath) == []
    ensures Select(Transcribe(req, o).events, TranslateArgs) == []
    ensures Select(Transcribe(req, o).events, EngineCall) == []
  {
    if o.stage(req.audioFile.value).SaveRaised? {
      var created := TempCreated(o.stage(req.audioFile.value).path);
      SelectSingle(created, RemovedPath);
      SelectSingle(created, AsrPath);
      SelectSingle(created, TranslateArgs);
      SelectSingle(created, EngineCall);
    }
  }

  /** When the temporary file is created but saving into it raises, the
      file stays on disk: it was created and no removal is ever attempted. */
  lemma SaveFailureLeavesTempFile(req: Request, o: Oracles)
    requires req.httpMethod != "GET" && req.audioFile.Some? && o.stage(req.audioFile.value).SaveRaised?
    ensures Select(Transcribe(req, o).events, CreatedPath) == [o.stage(req.audioFile.value).path]
    ensures Select(Transcribe(req, o).events, RemovedPath) == []
  {
    SelectSingle(TempCreated(o.stage(req.audioFile.value).path), CreatedPath);
    SelectSingle(TempCreated(o.stage(req.audioFile.value).path), RemovedPath);
  }

  // ---------------------------------------------------------------------
  // The temporary file's lifecycle

  /** Removal of the staged file is attempted exactly once, and only when
      staging succeeded; it is the last thing the handler does, and creation
      is the first. */
  lemma RemovedExactlyOnceIffStaged(req: Request, o: Oracles)
    ensures Select(Transcribe(req, o).events, RemovedPath) == (if Staged(req, o) then [StagedPath(req, o)] else [])
    ensures Staged(req, o) ==>
      var events := Transcribe(req, o).events;
      && events[0] == TempCreated(StagedPath(req, o))
      && events[|events| - 1] == TempRemoveAttempted(StagedPath(req, o), o.removeSucceeds)
  {
    if Staged(req, o) {
      var path := StagedPath(req, o);
      SelectStagedLog(req, o, RemovedPath);
      SelectSingle(TempCreated(path), RemovedPath);
      SelectSingle(TempRemoveAttempted(path, o.removeSucceeds), RemovedPath);
      ProcessLeavesFilesAlone(path, req.fromLanguage, req.toLanguage, o);
      StagedLog(req, o);
    } else if req.httpMethod != "GET" && req.audioFile.Some? {
      StagingFailureReported(req, o);
    }
  }

  /** Unless saving the upload raises, every temporary file the handler
      creates is one it tries to remove, and vice versa. */
  lemma CreatedFilesAreRemoved(req: Request, o: Oracles)
    requires !(req.httpMethod != "GET" && req.audioFile.Some? && o.stage(req.audioFile.value).SaveRaised?)
    ensures Select(Transcribe(req, o).events, CreatedPath) == Select(Transcribe(req, o).events, RemovedPath)
  {
    RemovedExactlyOnceIffStaged(req, o);
    if Staged(req, o) {
      var path := StagedPath(req, o);
      SelectStagedLog(req, o, CreatedPath);
      SelectSingle(TempCreated(path), CreatedPath);
      SelectSingle(TempRemoveAttempted(path, o.removeSucceeds), CreatedPath);
      ProcessLeavesFilesAlone(path, req.fromLanguage, req.toLanguage, o);
    }
  }

  /** Whether `os.remove` succeeds never changes the response. */
  lemma RemovalOutcomeNeverChangesResponse(req: Request, o: Oracles, removed: bool)
    ensures Transcribe(req, o.(removeSucceeds := removed)).response == Transcribe(req, o).response
  {
  }

  // ---------------------------------------------------------------------
  // Transcription and the translation gate

  /** Transcription runs exactly once, on the staged file with the caller's
      `from_language` hint, when staging succeeded, and never otherwise. */
  lemma AsrExactlyOnceIffStaged(req: Request, o: Oracles)
    ensures Select(Transcribe(req, o).events, AsrPath) == (if Staged(req, o) then [StagedPath(req, o)] else [])
    ensures Staged(req, o) ==> AsrInvoked(StagedPath(req, o), req.fromLanguage) in Transcribe(req, o).events
  {
    if Staged(req, o) {
      var path := StagedPath(req, o);
      var p := Process(path, req.fromLanguage, req.toLanguage, o);
      SelectStagedLog(req, o, AsrPath);
      SelectSingle(TempCreated(path), AsrPath);
      SelectSingle(TempRemoveAttempted(path, o.removeSucceeds), AsrPath);
      assert p.events == [p.events[0]] + p.events[1..];
      SelectAppend([p.events[0]], p.events[1..], AsrPath);
      SelectSingle(p.events[0], AsrPath);
      assert forall k :: 0 <= k < |p.events[1..]| ==> p.events[1..][k] == p.events[k + 1];
      SelectNothing(p.events[1..], AsrPath);
      StagedLog(req, o);
      assert Transcribe(req, o).events[1] == p.events[0];
    } else if req.httpMethod != "GET" && req.audioFile.Some? {
      StagingFailureReported(req, o);
    }
  }

  /** An ASR failure is a 500 with the exception text; translation is never
      attempted. */
  lemma TranscriptionFailureReported(req: Request, o: Oracles)
    requires Staged(req, o) && AsrOf(req, o).AsrRaised?
    ensures Transcribe(req, o).response
      == Response(500, ErrorTraceBody("Transcription process failed.", AsrOf(req, o).message))
    ensures Select(Transcribe(req, o).events, TranslateArgs) == []
  {
    var path := StagedPath(req, o);
    SelectStagedLog(req, o, TranslateArgs);
    SelectSingle(TempCreated(path), TranslateArgs);
    SelectSingle(TempRemoveAttempted(path, o.removeSucceeds), TranslateArgs);
    SelectSingle(AsrInvoked(path, req.fromLanguage), TranslateArgs);
  }

  /** The translator is called exactly once, with the detected language, the
      raw `to_language` and the joined text, when `to_language` differs from
      the detected language as a raw value; otherwise it is not called and
      the translated text is the single-newline sentinel. */
  lemma TranslationGate(req: Request, o: Oracles)
    requires Staged(req, o) && AsrOf(req, o).Transcribed?
    ensures Select(Transcribe(req, o).events, TranslateArgs)
      == (if req.toLanguage != DetectedOf(req, o)
          then [(DetectedOf(req, o), req.toLanguage, JoinTexts(AsrOf(req, o).segments))]
          else [])
    ensures req.toLanguage == DetectedOf(req, o) ==>
      Transcribe(req, o).response.body.translatedText == "\n"
  {
    var path := StagedPath(req, o);
    var p := Process(path, req.fromLanguage, req.toLanguage, o);
    SelectStagedLog(req, o, TranslateArgs);
    SelectSingle(TempCreated(path), TranslateArgs);
    SelectSingle(TempRemoveAttempted(path, o.removeSucceeds), TranslateArgs);
    var asrCall := [AsrInvoked(path, req.fromLanguage)];
    SelectSingle(AsrInvoked(path, req.fromLanguage), TranslateArgs);
    if GateOpen(req, o) {
      var t := TranslationOf(req, o);
      var engineCalls := if t.calls == [] then [] else [EngineInvoked(t.calls[0])];
      var translateCall := TranslateInvoked(DetectedOf(req, o), req.toLanguage, JoinTexts(AsrOf(req, o).segments));
      assert p.events == asrCall + ([translateCall] + engineCalls);
      SelectAppend(asrCall, [translateCall] + engineCalls, TranslateArgs);
      SelectAppend([translateCall], engineCalls, TranslateArgs);
      SelectSingle(translateCall, TranslateArgs);
      if t.calls != [] { SelectSingle(EngineInvoked(t.calls[0]), TranslateArgs); }
    }
  }

  /** When the gate opens, the engine sees the normalised codes and the
      fixed generation settings, or is not reached at all if a tag is
      `None`. */
  lemma EngineSeesNormalisedCodes(req: Request, o: Oracles)
    requires Staged(req, o) && AsrOf(req, o).Transcribed? && GateOpen(req, o)
    ensures Select(Transcribe(req, o).events, EngineCall)
      == (if DetectedOf(req, o).Some? && req.toLanguage.Some?
          then [GenerateCall(Normalize(DetectedOf(req, o).value), JoinTexts(AsrOf(req, o).segments),
                             LangId(Normalize(req.toLanguage.value)), 512, 5, 2)]
          else [])
  {
    var path := StagedPath(req, o);
    var p := Process(path, req.fromLanguage, req.toLanguage, o);
    SelectStagedLog(req, o, EngineCall);
    SelectSingle(TempCreated(path), EngineCall);
    SelectSingle(TempRemoveAttempted(path, o.removeSucceeds), EngineCall);
    var asrCall := [AsrInvoked(path, req.fromLanguage)];
    SelectSingle(AsrInvoked(path, req.fromLanguage), EngineCall);
    var t := TranslationOf(req, o);
    var engineCalls := if t.calls == [] then [] else [EngineInvoked(t.calls[0])];
    var translateCall := TranslateInvoked(DetectedOf(req, o), req.toLanguage, JoinTexts(AsrOf(req, o).segments));
    assert p.events == asrCall + ([translateCall] + engineCalls);
    SelectAppend(asrCall, [translateCall] + engineCalls, EngineCall);
    SelectAppend([translateCall], engineCalls, EngineCall);
    SelectSingle(translateCall, EngineCall);
    if t.calls != [] { SelectSingle(EngineInvoked(t.calls[0]), EngineCall); }
  }

  /** A translation failure after a successful transcription is a 500 with
      the exception text: the transcript is not returned on its own. */
  lemma TranslationFailureReported(req: Request, o: Oracles)
    requires Staged(req, o) && AsrOf(req, o).Transcribed? && GateOpen(req, o)
    requires TranslationOf(req, o).result.Raised?
    ensures Transcribe(req, o).response
      == Response(500, ErrorTraceBody("Transcription process failed.", TranslationOf(req, o).result.message))
  {
  }

  /** Without `to_language`, a known detected language opens the gate, the
      adapter raises on `None.lower()` before the engine runs, and the
      request fails. */
  lemma MissingTargetLanguageFails(req: Request, o: Oracles)
    requires Staged(req, o) && AsrOf(req, o).Transcribed?
    requires req.toLanguage.None? && DetectedOf(req, o).Some?
    ensures Transcribe(req, o).response
      == Response(500, ErrorTraceBody("Transcription process failed.", "'NoneType' object has no attribute 'lower'"))
    ensures Select(Transcribe(req, o).events, EngineCall) == []
  {
    EngineSeesNormalisedCodes(req, o);
  }

  // ---------------------------------------------------------------------
  // The response as a whole

  /** The success envelope: the joined transcript, the translation or the
      sentinel, every segment's start, end and text in order, and the
      detected language (`info.language` if present, else `from_language`). */
  lemma SuccessEnvelope(req: Request, o: Oracles)
    requires Staged(req, o) && AsrOf(req, o).Transcribed?
    requires !GateOpen(req, o) || TranslationOf(req, o).result.Returned?
    ensures var segments := AsrOf(req, o).segments;
      var attr := AsrOf(req, o).language;
      Transcribe(req, o).response == Response(200, ResultBody(
        JoinTexts(segments),
        if GateOpen(req, o) then TranslationOf(req, o).result.value else "\n",
        ToJson(segments),
        if attr.LanguageAttr? then attr.value else req.fromLanguage))
  {
  }

  /** 200 exactly for a health check or a request whose transcription and
      (if the gate opened) translation both returned; 400 exactly for a
      missing upload; 500 otherwise. */
  lemma ResponseStatusCases(req: Request, o: Oracles)
    ensures Transcribe(req, o).response.status == 200 <==>
      || req.httpMethod == "GET"
      || (&& Staged(req, o) && AsrOf(req, o).Transcribed?
          && (!GateOpen(req, o) || TranslationOf(req, o).result.Returned?))
    ensures Transcribe(req, o).response.status == 400 <==> req.httpMethod != "GET" && req.audioFile.None?
  {
  }
}
