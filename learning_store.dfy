/** `useLearningStore`: the interface language. */
module LearningStore {
  import opened Translations

  /** `SUPPORTED_LANGUAGES`. */
  const SupportedLanguages: seq<Language> := [En, Tr]

  /** `DEFAULT_LANGUAGE`. */
  const DefaultLanguage: Language := En

  /** The supported languages are every language once, in the order English,
      Turkish, and their codes are exactly the codes of the two tables. */
  lemma SupportedLanguagesAreAll(language: Language)
    ensures language in SupportedLanguages
    ensures |SupportedLanguages| == 2 && SupportedLanguages[0] != SupportedLanguages[1]
    ensures Code(SupportedLanguages[0]) == "en" && Code(SupportedLanguages[1]) == "tr"
    ensures Code(DefaultLanguage) == "en"
  {
  }

  class Store {
    var language: Language

    constructor()
      ensures language == DefaultLanguage
    {
      language := DefaultLanguage;
    }

    /** `setLanguage`: the current language hands back the identical state, so
        nothing is published; any other one replaces it. */
    method SetLanguage(newLanguage: Language) returns (published: bool)
      modifies this
      ensures language == newLanguage
      ensures published <==> old(language) != newLanguage
    {
      if language == newLanguage {
        return false;
      }
      language := newLanguage;
      published := true;
    }
  }
}
