/** The translation adapter `m2m100(from_lang, to_lang, transcribed_text)`:
    it normalises both language tags, hands the text to the translation
    engine with fixed generation settings, and strips the decoded output. */
module M2M100 {
  import opened PyTypes
  import opened PyStr
  import opened LangCodes

  /** Generation settings fixed by the adapter; no request can change them. */
  const MaxLength: nat := 512
  const NumBeams: nat := 5
  const NoRepeatNgramSize: nat := 2

  /** The language-id token the tokenizer assigns to an engine code
      (`tokenizer.get_lang_id(code)`), kept symbolic. */
  datatype LangId = LangId(code: string)

  /** Everything the engine receives for one translation: the source code
      set on the tokenizer, the text it encodes, the forced first token and
      the generation settings. */
  datatype GenerateCall = GenerateCall(
    sourceCode: string,
    text: string,
    forcedBos: LangId,
    maxLength: nat,
    numBeams: nat,
    noRepeatNgramSize: nat)

  /** What tokenising, generating and batch-decoding yield: the decoded batch,
      or the exception one of those steps raised. */
  datatype EngineOutcome = Decoded(batch: seq<string>) | EngineRaised(message: string)

  /** The engine, as an oracle over the arguments it is given. */
  type Engine = GenerateCall -> EngineOutcome

  /** One run of the adapter: the engine calls it made, and what it returned
      or raised. */
  datatype Translation = Translation(calls: seq<GenerateCall>, result: Raises<string>)

  /** `str(e)` for `None.lower()`. */
  const NoneHasNoLower: string := "'NoneType' object has no attribute 'lower'"

  /** `str(e)` for indexing an empty decoded batch with `[0]`. */
  const EmptyBatchIndex: string := "list index out of range"

  /** `m2m100(from_lang, to_lang, transcribed_text)` with the engine given as
      an oracle. A `None` tag raises before the engine is reached. */
  function Translate(fromLang: Option<string>, toLang: Option<string>, text: string, engine: Engine): (t: Translation)
    ensures (fromLang.None? || toLang.None?) <==> t.calls == []
    ensures (fromLang.None? || toLang.None?) ==> t.result == Raised(NoneHasNoLower)
    ensures fromLang.Some? && toLang.Some? ==>
      t.calls == [GenerateCall(Normalize(fromLang.value), text, LangId(Normalize(toLang.value)), 512, 5, 2)]
    ensures t.result.Returned? ==>
      && |t.calls| == 1
      && engine(t.calls[0]).Decoded?
      && |engine(t.calls[0]).batch| > 0
      && IsStripOf(engine(t.calls[0]).batch[0], t.result.value)
    ensures |t.calls| == 1 && engine(t.calls[0]).EngineRaised? ==> t.result == Raised(engine(t.calls[0]).message)
    ensures |t.calls| == 1 && engine(t.calls[0]).Decoded? && |engine(t.calls[0]).batch| > 0 ==>
      t.result == Returned(Strip(engine(t.calls[0]).batch[0]))
    ensures |t.calls| == 1 && engine(t.calls[0]) == Decoded([]) ==> t.result == Raised(EmptyBatchIndex)
  {
    if fromLang.None? || toLang.None? then
      Translation([], Raised(NoneHasNoLower))
    else
      var srcIso := Normalize(fromLang.value);
      var tgtIso := Normalize(toLang.value);
      var call := GenerateCall(srcIso, text, LangId(tgtIso), MaxLength, NumBeams, NoRepeatNgramSize);
      match engine(call)
      case EngineRaised(msg) => Translation([call], Raised(msg))
      case Decoded(batch) =>
        if |batch| == 0 then Translation([call], Raised(EmptyBatchIndex))
        else Translation([call], Returned(Strip(batch[0])))
  }

  /** A successful translation has no white space at either end, and
      stripping it again changes nothing. */
  lemma {:induction false} TranslationIsStripped(fromLang: Option<string>, toLang: Option<string>, text: string, engine: Engine)
    requires Translate(fromLang, toLang, text, engine).result.Returned?
    ensures NoEdgeSpace(Translate(fromLang, toLang, text, engine).result.value)
    ensures var r := Translate(fromLang, toLang, text, engine).result.value; Strip(r) == r
  {
    var t := Translate(fromLang, toLang, text, engine);
    var r := t.result.value;
    StripIsUnique(engine(t.calls[0]).batch[0], r);
    StripIsIdempotent(engine(t.calls[0]).batch[0]);
  }

  /** The engine only ever sees codes from the table's value set, and
      re-normalising them changes nothing. */
  lemma EngineSeesOnlyEngineCodes(fromLang: Option<string>, toLang: Option<string>, text: string, engine: Engine)
    ensures forall c :: c in Translate(fromLang, toLang, text, engine).calls ==>
      && IsEngineCode(c.sourceCode) && IsEngineCode(c.forcedBos.code)
      && Normalize(c.sourceCode) == c.sourceCode && Normalize(c.forcedBos.code) == c.forcedBos.code
  {
    if fromLang.Some? && toLang.Some? {
      NormalizeIsIdempotent(fromLang.value);
      NormalizeIsIdempotent(toLang.value);
    }
  }

  /** Tags that differ only in case reach the engine identically. */
  lemma {:induction false} TranslateIgnoresTagCase(f1: string, f2: string, t1: string, t2: string, text: string, engine: Engine)
    requires Lower(f1) == Lower(f2) && Lower(t1) == Lower(t2)
    ensures Translate(Some(f1), Some(t1), text, engine) == Translate(Some(f2), Some(t2), text, engine)
  {
    NormalizeIsCaseInsensitive(f1, f2);
    NormalizeIsCaseInsensitive(t1, t2);
  }
}
