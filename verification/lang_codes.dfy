/** The ISO code table of the translation adapter and the normalisation that
    maps a caller's language tag to a code the translation engine knows. */
module LangCodes {
  import opened PyStr

  /** The code used for every tag the table does not list. */
  const DefaultCode: string := "en"

  /** Lower-cased ISO-639-1-style tag to translation-engine code. Telugu
      ("te") is deliberately absent: the engine does not support it. */
  const IsoMap: map<string, string> := map[
    "en" := "en",
    "ja" := "ja",
    "zh-cn" := "zh",
    "zh" := "zh",
    "zh-tw" := "zh",
    "ko" := "ko",
    "fr" := "fr",
    "de" := "de",
    "es" := "es",
    "it" := "it",
    "pt" := "pt",
    "nl" := "nl",
    "ru" := "ru",
    "ar" := "ar",
    "hi" := "hi",
    "ml" := "ml",
    "bn" := "bn",
    "ur" := "ur",
    "th" := "th",
    "mn" := "mn",
    "id" := "id",
    "sv" := "sv",
    "vi" := "vi",
    "no" := "no",
    "fi" := "fi",
    "he" := "he",
    "uk" := "uk"
  ]

  /** The codes the translation engine is ever handed. */
  ghost predicate IsEngineCode(c: string) {
    c in IsoMap.Values
  }

  /** `iso_map.get(code.lower(), 'en')`. */
  function Normalize(code: string): (r: string)
    ensures IsEngineCode(r)
  {
    var key := Lower(code);
    if key in IsoMap then
      IsoMap[key]
    else
      assert IsoMap["en"] == DefaultCode;
      DefaultCode
  }

  /** Table keys are spelled with lower-case ASCII letters and dashes only. */
  lemma KeysAreLettersOrDash(key: string)
    requires key in IsoMap
    ensures forall k :: 0 <= k < |key| ==> 'a' <= key[k] <= 'z' || key[k] == '-'
  {
  }

  /** Every table key is written in lower case, so lower-casing it is a no-op. */
  lemma {:induction false} KeysAreLowerCase(key: string)
    requires key in IsoMap
    ensures Lower(key) == key
  {
    KeysAreLettersOrDash(key);
    LowerIsLowerCase(key);
  }

  /** Every table key normalises to the value the table lists for it. */
  lemma {:induction false} TableKeysNormaliseToTheirValue(key: string)
    requires key in IsoMap
    ensures Normalize(key) == IsoMap[key]
  {
    KeysAreLowerCase(key);
  }

  /** The three Chinese tags share one engine code. */
  lemma ChineseVariantsShareCode()
    ensures Normalize("zh") == "zh"
    ensures Normalize("zh-cn") == "zh"
    ensures Normalize("zh-tw") == "zh"
    ensures Normalize("ZH-TW") == "zh"
  {
    TableKeysNormaliseToTheirValue("zh");
    TableKeysNormaliseToTheirValue("zh-cn");
    TableKeysNormaliseToTheirValue("zh-tw");
    NormalizeIsCaseInsensitive("ZH-TW", "zh-tw");
  }

  /** A tag whose lower-case form is not a key falls back to English. */
  lemma UnlistedTagsFallBackToEnglish(code: string)
    requires Lower(code) !in IsoMap
    ensures Normalize(code) == "en"
  {
  }

  /** Telugu and the empty tag are not listed, so both become English. */
  lemma TeluguAndEmptyFallBack()
    ensures Normalize("te") == "en"
    ensures Normalize("") == "en"
  {
    LowerIsLowerCase("te");
    assert "te" !in IsoMap;
  }

  /** Normalisation reads its input only through its lower-case form. */
  lemma NormalizeIsCaseInsensitive(a: string, b: string)
    requires Lower(a) == Lower(b)
    ensures Normalize(a) == Normalize(b)
  {
  }

  /** Upper- and lower-case Japanese tags give the same code. */
  lemma JapaneseIgnoresCase()
    ensures Normalize("JA") == Normalize("ja") == "ja"
  {
    assert Lower("JA") == "ja";
    TableKeysNormaliseToTheirValue("ja");
  }

  /** Every engine code is itself a key that the table maps to itself. */
  lemma {:induction false} EngineCodesAreFixedPoints(c: string)
    requires IsEngineCode(c)
    ensures c in IsoMap && IsoMap[c] == c
  {
    var key :| key in IsoMap && IsoMap[key] == c;
  }

  /** Normalising an already normalised code changes nothing. */
  lemma {:induction false} NormalizeIsIdempotent(code: string)
    ensures Normalize(Normalize(code)) == Normalize(code)
  {
    var c := Normalize(code);
    EngineCodesAreFixedPoints(c);
    TableKeysNormaliseToTheirValue(c);
  }
}
