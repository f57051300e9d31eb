/** `translate_text` of `app.py` and the `/translate` route around it. The translator
    (`GoogleTranslator(source="auto", target=lang).translate(text)`) is an oracle given as
    a function from (text, target language) to the translation, `None` where the call
    raises. */
module Translation {
  import opened Wrappers

  /** The language values `translate_text` treats as English, matched exactly. */
  const EnglishAliases: seq<string> := ["english", "en"]

  /** Best-effort translation: English targets short-circuit without calling the
      translator, a failed call falls back to the input, and otherwise the result is the
      translator's answer for exactly this text and target. */
  function TranslateText(text: string, lang: string, translator: (string, string) -> Option<string>): (r: string)
    ensures lang in EnglishAliases ==> r == text
    ensures translator(text, lang).None? ==> r == text
    ensures lang !in EnglishAliases && translator(text, lang).Some? ==> r == translator(text, lang).value
  {
    if lang in EnglishAliases then text
    else match translator(text, lang)
      case Some(t) => t
      case None => text
  }

  /** The `/translate` route: a missing `text` is the empty string and a missing `lang` is
      English, so a request without a language echoes its text. The route does not
      consult the session. */
  function TranslateRoute(text: Option<string>, lang: Option<string>,
                          translator: (string, string) -> Option<string>): (r: string)
    ensures lang.None? ==> r == text.GetOr("")
    ensures lang.Some? && lang.value !in EnglishAliases && translator(text.GetOr(""), lang.value).Some?
            ==> r == translator(text.GetOr(""), lang.value).value
    ensures translator(text.GetOr(""), lang.GetOr("english")).None? ==> r == text.GetOr("")
    ensures r != text.GetOr("") ==> lang.GetOr("english") !in EnglishAliases
  {
    TranslateText(text.GetOr(""), lang.GetOr("english"), translator)
  }

  /** With a French target a translator that answers is used, with "english" the word
      comes back untouched whatever the translator would say, and the capitalised
      "English" is not an alias, so it goes to the translator. */
  lemma FrenchIsTranslatedEnglishIsNot(translator: (string, string) -> Option<string>)
    requires translator("Rice", "fr").Some?
    ensures TranslateText("Rice", "fr", translator) == translator("Rice", "fr").value
    ensures TranslateText("Rice", "english", translator) == "Rice"
    ensures TranslateText("Rice", "English", translator) == translator("Rice", "English").GetOr("Rice")
  {
    assert "fr" != EnglishAliases[0] && "fr" != EnglishAliases[1];
    assert "English" != EnglishAliases[0] && "English" != EnglishAliases[1];
  }
}
