# FasterWhisper + M2M100 transcription server: a Dafny model of the request core

The server takes an uploaded audio clip on `/transcribe`, transcribes it with a
speech-recognition (ASR) engine, and translates the transcript with an M2M100
translation engine when the requested target language differs from the detected
one. This project models the two pieces of glue logic between those engines and
proves properties of them:

- **The translation adapter** `m2m100(from_lang, to_lang, transcribed_text)`. It
  normalises both language tags through a fixed ISO code table (`iso_map`). Any
  tag not in the table becomes `"en"`. It then calls the engine once with fixed
  generation settings (max length 512, 5 beams, no-repeat n-gram size 2) and
  returns the first decoded output with `str.strip()` applied.
- **The request handler** `transcribe()`. It covers the GET health check and the
  missing-upload 400. It stages the upload in a named temporary file, then
  transcribes it. It joins the segment texts with no separator and applies the
  raw-string "translate if different" gate. It returns the `"\n"` not-translated
  sentinel when the gate stays closed. It builds the two 500 error envelopes, and
  its `finally` clause removes the temporary file.

Modules:

| file | module | contents |
|---|---|---|
| `pytypes.dfy` | `PyTypes` | `Option` (a value that may be `None`), `Raises` (returned or raised with `str(e)`) |
| `pystr.dfy` | `PyStr` | `str.isspace`, `str.strip()` and its characterisation, ASCII `str.lower()` |
| `lang_codes.dfy` | `LangCodes` | the `iso_map` table and the normalisation `iso_map.get(tag.lower(), 'en')` |
| `m2m100.dfy` | `M2M100` | the adapter, with the engine given as an oracle that records its arguments |
| `segments.dfy` | `Segments` | ASR segments, the joined transcript, the response's segment records |
| `server.dfy` | `Server` | the handler as a pure function from request and oracles to response and event log |
| `handler_properties.dfy` | `HandlerProperties` | the handler's guarantees as lemmas |

The outside world is a parameter, `Server.Oracles`:
- The filesystem's answer to staging. Both steps succeed, or creating the file
  raises, or creating succeeds and saving raises.
- The ASR engine, as a function of the file path and the language hint.
- The translation engine, as a function of the full `GenerateCall` record.
- Whether `os.remove` succeeds.

The handler returns the response together with a log of events:
- temporary file created;
- removal attempted;
- ASR invoked;
- translator invoked;
- engine invoked.

Language values are `Option<string>` throughout, as in Python (`str` or `None`).
The gate `to_language != detected_language` is therefore the exact raw
comparison, `None` included.

Two consequences of the code as written are easy to miss, and the model keeps both:
- **Staging can leave a file behind.** `NamedTemporaryFile(delete=False)` creates
  the file before `audio_file.save` runs. When saving raises, nothing removes the
  file it leaves behind: the `finally` clause that removes temporary files only
  covers requests whose staging succeeded. `HandlerProperties.SaveFailureLeavesTempFile`
  states this.
- **Normalisation can raise.** The table lookup itself never fails, but the code calls `.lower()` on the raw argument, so a `None` tag
  raises `AttributeError` before any lookup. When `to_language` is missing
  and a language is detected, the gate opens and the request ends in the 500
  envelope; `HandlerProperties.MissingTargetLanguageFails`
  states this.

## Model

| member | source | states |
|---|---|---|
| `PyStr.IsSpaceIsPythonSet` | onnx_m2m100.py:89 | `IsSpace`, the white-space test `str.strip()` uses, holds for exactly the 29 characters Python's `str.isspace()` accepts, listed one by one |
| `PyStr.Strip` | onnx_m2m100.py:89 | the result is the input minus a white-space prefix and suffix and has no white space at either end (`IsStripOf`) |
| `PyStr.StripOfFramed` | onnx_m2m100.py:89 | a string whose middle part starts and ends with non-space characters between white-space edges strips to exactly that middle part |
| `PyStr.StripIsUnique` | onnx_m2m100.py:89 | only one string is a strip of the input in the sense of `IsStripOf`: the strip is determined by that meaning alone |
| `PyStr.StripCharacterised` | onnx_m2m100.py:89 | `r == s.strip()` if and only if `r` is `s` with white-space edges removed and none left |
| `PyStr.StripIsIdempotent` | onnx_m2m100.py:89 | stripping a stripped string changes nothing |
| `PyStr.Lower` | onnx_m2m100.py:68-69 | lower-casing keeps the length and folds each ASCII capital to its small letter, leaving every other character alone |
| `PyStr.LowerIsLowerCase` | onnx_m2m100.py:68-69 | the lower-cased string has no capitals; a string is its own lower-casing if and only if it has none |
| `PyStr.LowerIsIdempotent` | onnx_m2m100.py:68-69 | lower-casing twice is lower-casing once |
| `LangCodes.Normalize` | onnx_m2m100.py:68-69 | the code produced is always one of the table's values |
| `LangCodes.KeysAreLowerCase` | onnx_m2m100.py:35-65 | every table key is already lower case, so the `.lower()` lookup reaches it |
| `LangCodes.TableKeysNormaliseToTheirValue` | onnx_m2m100.py:35-69 | every table key normalises to the value listed for it |
| `LangCodes.ChineseVariantsShareCode` | onnx_m2m100.py:37-39 | `zh`, `zh-cn`, `zh-tw` (and `ZH-TW`) all normalise to `zh` |
| `LangCodes.UnlistedTagsFallBackToEnglish` | onnx_m2m100.py:67-69 | a tag whose lower-case form is not a key normalises to `en` |
| `LangCodes.TeluguAndEmptyFallBack` | onnx_m2m100.py:51 | the commented-out Telugu tag and the empty tag both normalise to `en` |
| `LangCodes.NormalizeIsCaseInsensitive` | onnx_m2m100.py:68-69 | tags with the same lower-case form normalise alike |
| `LangCodes.JapaneseIgnoresCase` | onnx_m2m100.py:68-69 | `JA` and `ja` both normalise to `ja` |
| `LangCodes.EngineCodesAreFixedPoints` | onnx_m2m100.py:35-65 | every value of the table is also a key that maps to itself |
| `LangCodes.NormalizeIsIdempotent` | onnx_m2m100.py:35-69 | normalising a normalised code changes nothing |
| `M2M100.Translate` | onnx_m2m100.py:68-89 | a `None` tag raises the `.lower()` error with no engine call; otherwise the engine is called exactly once, with the normalised source code, the text, the lang id of the normalised target code, 512, 5 and 2; a non-empty decoded batch returns the strip of its first output, and a returned result is always that; an empty batch raises the `[0]` index error; an engine failure is re-raised |
| `M2M100.TranslationIsStripped` | onnx_m2m100.py:87-89 | a returned translation has no edge white space and is unchanged by another strip |
| `M2M100.EngineSeesOnlyEngineCodes` | onnx_m2m100.py:68-84 | every code the engine receives is a table value and a fixed point of normalisation |
| `M2M100.TranslateIgnoresTagCase` | onnx_m2m100.py:68-84 | tags that differ only in ASCII case give identical engine calls and results |
| `Segments.JoinTexts` | fasterwhisper_m2m100_server.py:89 | the joined transcript is exactly as long as the segment texts together (no separator) and starts with the first segment's text |
| `Segments.ToJson` | fasterwhisper_m2m100_server.py:90-93 | one record per segment, in order, with that segment's start, end and text |
| `Segments.JoinTextsAppend` | fasterwhisper_m2m100_server.py:89 | joining a concatenated segment list is concatenating the joins |
| `Segments.JoinTextsLayout` | fasterwhisper_m2m100_server.py:89 | segment `k`'s text sits in the transcript right after the texts of segments `0..k-1`, and the texts after it follow directly: nothing is inserted anywhere |
| `Segments.JoinTextsLoop` | fasterwhisper_m2m100_server.py:89 | the accumulating loop of `"".join` yields the joined transcript |
| `Segments.JoinHelloWorld` | fasterwhisper_m2m100_server.py:89 | `["Hello", " world"]` joins to `"Hello world"` |
| `Server.Transcribe` | fasterwhisper_m2m100_server.py:52-126 | the handler only ever answers 200, 400 or 500 |
| `Server.DetectedLanguage` | fasterwhisper_m2m100_server.py:95 | the detected language is `info.language` whenever that attribute exists, even when it holds `None`, and the caller's `from_language` only when it does not |
| `Server.Process` | fasterwhisper_m2m100_server.py:86-103 | the `try` block transcribes first, on the given file with the `from_language` hint, and never again; an ASR failure is raised with its text; a returned body carries the joined transcript and the segment records of that transcription |
| `Server.StagedLog` | fasterwhisper_m2m100_server.py:76-117 | a staged request's log is: create the file, the `try` block's events, one removal attempt |
| `Server.ProcessLeavesFilesAlone` | fasterwhisper_m2m100_server.py:86-111 | the `try` block creates and removes no file |
| `HandlerProperties.HealthCheck` | fasterwhisper_m2m100_server.py:65-66 | GET answers 200 `{"status": "ok"}` with an empty event log |
| `HandlerProperties.MissingAudioFileRejected` | fasterwhisper_m2m100_server.py:68-69 | without `audio_file` the answer is 400 `{"error": "No audio_file in the request"}` with an empty event log |
| `HandlerProperties.StagingFailureReported` | fasterwhisper_m2m100_server.py:76-84 | a staging failure answers 500 with the staging error and the exception text; its whole log is empty, or the single file creation when saving raised, so no engine runs and no removal is attempted |
| `HandlerProperties.SaveFailureLeavesTempFile` | fasterwhisper_m2m100_server.py:76-84 | when saving raises after creation, the file was created and its removal is never attempted |
| `HandlerProperties.RemovedExactlyOnceIffStaged` | fasterwhisper_m2m100_server.py:112-117 | removal is attempted exactly once, on the staged path, if and only if staging succeeded; creation is the first event and removal the last |
| `HandlerProperties.CreatedFilesAreRemoved` | fasterwhisper_m2m100_server.py:76-117 | unless saving raises, the created and the removal-attempted files are the same list |
| `HandlerProperties.RemovalOutcomeNeverChangesResponse` | fasterwhisper_m2m100_server.py:114-117 | the response does not depend on whether `os.remove` succeeds |
| `HandlerProperties.AsrExactlyOnceIffStaged` | fasterwhisper_m2m100_server.py:86-88 | transcription runs exactly once, on the staged file with the `from_language` hint, if and only if staging succeeded |
| `HandlerProperties.TranscriptionFailureReported` | fasterwhisper_m2m100_server.py:105-111 | an ASR failure answers 500 "Transcription process failed." with the exception text, and the translator is never called |
| `HandlerProperties.TranslationGate` | fasterwhisper_m2m100_server.py:98-103 | the translator is called once, with the detected language, the raw `to_language` and the joined text, if and only if the two raw values differ; otherwise `translated_text` is `"\n"` |
| `HandlerProperties.EngineSeesNormalisedCodes` | fasterwhisper_m2m100_server.py:99-101 | once the gate opens, the engine gets exactly one call with the normalised codes and fixed settings, or none if a tag is `None` |
| `HandlerProperties.TranslationFailureReported` | fasterwhisper_m2m100_server.py:105-111 | a translation failure answers 500 "Transcription process failed." with the exception text; no partial 200 |
| `HandlerProperties.MissingTargetLanguageFails` | fasterwhisper_m2m100_server.py:98-111 | with no `to_language` and a known detected language, the request ends in that 500 envelope and the engine is never called |
| `HandlerProperties.SuccessEnvelope` | fasterwhisper_m2m100_server.py:119-126 | on success the body has exactly the joined transcript, the translation or `"\n"`, the segment records, and `info.language` if present, else `from_language` |
| `HandlerProperties.ResponseStatusCases` | fasterwhisper_m2m100_server.py:65-126 | 200 if and only if GET, or staged with transcription returning and translation returning when the gate opens; 400 if and only if a non-GET request has no upload |

## Left out

- Model loading and environment configuration (fasterwhisper_m2m100_server.py:26-38,
  onnx_m2m100.py:15-22) are startup I/O into foreign libraries.
- Flask routing, the two gevent listeners and TLS (fasterwhisper_m2m100_server.py:129-165)
  are serving plumbing. The same goes for the global error handler and its traceback
  (fasterwhisper_m2m100_server.py:41-49). The handler branches on `method == "GET"`
  exactly as written, so every other method it is dispatched takes the upload path.
- The `trace` text of the processing-error envelope is a traceback and is not
  modelled. `ErrorTraceBody` marks only that the key is present.
- Engine internals are not modelled: tokenisation, tensors, beam search, the ONNX
  runtime and the ASR model. Each engine is an oracle that returns a value or
  raises. The tokenise, generate and batch-decode steps form one oracle over
  `GenerateCall`. `tokenizer.get_lang_id` is kept symbolic as `LangId(code)`.
- Setting the shared `tokenizer.src_lang` (onnx_m2m100.py:72) is a cross-request
  concurrency concern. The model passes the source code inside the call record instead.
- Segment timestamps are floats, carried as opaque 64-bit patterns and never computed with.
- The handler iterates the segment collection twice (fasterwhisper_m2m100_server.py:89-93).
  The model treats it as a sequence that can be read twice. If the engine returns a
  one-shot generator, the second pass sees nothing; that depends on a library outside
  this model.
- PyStr.Lower: folds ASCII capitals only. Python's `str.lower()` is full Unicode. It
  can turn non-ASCII input into a table key, for example KELVIN SIGN + `o` into `ko`.
  The model's normalisation sends such input to `en`. Every table key is ASCII.
- PyStr.Strip: white space is Python's `str.isspace()` set as listed in `IsSpace`.
  Unicode-database updates to that set are not tracked.
