/** The two translation tables of the interface, `translate` with its English
    fallback, and the table from element categories to translation keys. */
module Translations {
  import opened Wrappers
  import opened JsObjects

  /** `SupportedLanguage`, the keys of `TRANSLATIONS`. */
  datatype Language = En | Tr

  /** The language code the tables are keyed by. */
  function Code(language: Language): string {
    match language
    case En => "en"
    case Tr => "tr"
  }

  const EnglishTable: map<string, string> := map[
    "app.title" := "Science Explorer",
    "app.subtitle" := "Explore atoms and their structure in the Atomic Explorer.",
    "app.language" := "Language",
    "legend.proton" := "Proton",
    "legend.neutron" := "Neutron",
    "legend.electron" := "Electron",
    "element.label" := "Element",
    "stats.atomicNumber" := "Atomic number",
    "stats.atomicMass" := "Atomic mass",
    "stats.protons" := "Protons",
    "stats.neutrons" := "Neutrons",
    "stats.electrons" := "Electrons",
    "stats.category" := "Category",
    "stats.shells" := "Electron shells",
    "controls.autoRotate" := "Auto-rotate camera",
    "controls.showTrails" := "Show electron trails",
    "category.Nonmetal" := "Nonmetal",
    "category.Noble gas" := "Noble gas",
    "category.Alkali metal" := "Alkali metal",
    "category.Alkaline earth metal" := "Alkaline earth metal",
    "category.Metalloid" := "Metalloid",
    "category.Halogen" := "Halogen",
    "category.Post-transition metal" := "Post-transition metal",
    "category.Transition metal" := "Transition metal",
    "category.Lanthanide" := "Lanthanide",
    "category.Actinide" := "Actinide"
  ]

  const TurkishTable: map<string, string> := map[
    "app.title" := "Bilim Kesifi",
    "app.subtitle" := "Atom Kesifi ile atomlari ve yapilarini kesfedin.",
    "app.language" := "Dil",
    "legend.proton" := "Proton",
    "legend.neutron" := "Notron",
    "legend.electron" := "Elektron",
    "element.label" := "Element",
    "stats.atomicNumber" := "Atom numarasi",
    "stats.atomicMass" := "Atom kutlesi",
    "stats.protons" := "Proton",
    "stats.neutrons" := "Notron",
    "stats.electrons" := "Elektron",
    "stats.category" := "Kategori",
    "stats.shells" := "Elektron katmanlari",
    "controls.autoRotate" := "Kamerayi otomatik dondur",
    "controls.showTrails" := "Elektron izlerini goster",
    "category.Nonmetal" := "Ametal",
    "category.Noble gas" := "Soy gaz",
    "category.Alkali metal" := "Alkali metal",
    "category.Alkaline earth metal" := "Toprak alkali metal",
    "category.Metalloid" := "Yari metal",
    "category.Halogen" := "Halojen",
    "category.Post-transition metal" := "Gecis sonrasi metal",
    "category.Transition metal" := "Gecis metali",
    "category.Lanthanide" := "Lantanit",
    "category.Actinide" := "Aktinit"
  ]

  /** `TRANSLATIONS[language]`. */
  function Table(language: Language): map<string, string> {
    match language
    case En => EnglishTable
    case Tr => TurkishTable
  }

  /** `TranslationKey`: the keys of the English table. */
  predicate IsTranslationKey(key: string) {
    key in EnglishTable
  }

  /** `translate`: the entry of the language's own table when it has the key, else
      the English entry. */
  function Translate(language: Language, key: string): (text: string)
    requires IsTranslationKey(key)
    ensures key in Table(language) ==> text == Table(language)[key]
    ensures key !in Table(language) ==> text == EnglishTable[key]
  {
    var dictionary := Table(language);
    if key in dictionary then dictionary[key] else EnglishTable[key]
  }

  /** Both tables have the same keys, so the English fallback never fires. */
  lemma TablesShareKeys()
    ensures EnglishTable.Keys == TurkishTable.Keys
  {
  }

  /** English text is always the English entry, and every language finds its own
      entry for every key. */
  lemma TranslateFindsOwnEntry(language: Language, key: string)
    requires IsTranslationKey(key)
    ensures Translate(En, key) == EnglishTable[key]
    ensures key in Table(language) && Translate(language, key) == Table(language)[key]
  {
    TablesShareKeys();
  }

  const CategoryKeyMap: map<string, string> := map[
    "Nonmetal" := "category.Nonmetal",
    "Noble gas" := "category.Noble gas",
    "Alkali metal" := "category.Alkali metal",
    "Alkaline earth metal" := "category.Alkaline earth metal",
    "Metalloid" := "category.Metalloid",
    "Halogen" := "category.Halogen",
    "Post-transition metal" := "category.Post-transition metal",
    "Transition metal" := "category.Transition metal",
    "Lanthanide" := "category.Lanthanide",
    "Actinide" := "category.Actinide"
  ]

  /** Each category is mapped to the key `category.` followed by the category, and
      that key is a translation key. */
  lemma CategoryKeys(c: string)
    requires c in CategoryKeyMap
    ensures CategoryKeyMap[c] == "category." + c
    ensures IsTranslationKey(CategoryKeyMap[c])
  {
    assert c == "Nonmetal" || c == "Noble gas" || c == "Alkali metal" || c == "Alkaline earth metal"
        || c == "Metalloid" || c == "Halogen" || c == "Post-transition metal" || c == "Transition metal"
        || c == "Lanthanide" || c == "Actinide";
    if c == "Nonmetal" {
      CategoryKeyNonmetal();
    } else if c == "Noble gas" {
      CategoryKeyNobleGas();
    } else if c == "Alkali metal" {
      CategoryKeyAlkaliMetal();
    } else if c == "Alkaline earth metal" {
      CategoryKeyAlkalineEarthMetal();
    } else if c == "Metalloid" {
      CategoryKeyMetalloid();
    } else if c == "Halogen" {
      CategoryKeyHalogen();
    } else if c == "Post-transition metal" {
      CategoryKeyPostTransitionMetal();
    } else if c == "Transition metal" {
      CategoryKeyTransitionMetal();
    } else if c == "Lanthanide" {
      CategoryKeyLanthanide();
    } else if c == "Actinide" {
      CategoryKeyActinide();
    }
  }

  // One lemma per entry of the literal table keeps each string comparison small.
  lemma CategoryKeyNonmetal()
    ensures CategoryKeyMap["Nonmetal"] == "category." + "Nonmetal" && IsTranslationKey(CategoryKeyMap["Nonmetal"])
  {
    CategoryKeyTextNonmetal();
    KeyPrefixNonmetal();
  }

  lemma CategoryKeyTextNonmetal()
    ensures CategoryKeyMap["Nonmetal"] == "category.Nonmetal" && IsTranslationKey("category.Nonmetal")
  {
  }

  lemma KeyPrefixNonmetal()
    ensures "category.Nonmetal" == "category." + "Nonmetal"
  {
  }

  lemma CategoryKeyNobleGas()
    ensures CategoryKeyMap["Noble gas"] == "category." + "Noble gas" && IsTranslationKey(CategoryKeyMap["Noble gas"])
  {
    CategoryKeyTextNobleGas();
    KeyPrefixNobleGas();
  }

  lemma CategoryKeyTextNobleGas()
    ensures CategoryKeyMap["Noble gas"] == "category.Noble gas" && IsTranslationKey("category.Noble gas")
  {
  }

  lemma KeyPrefixNobleGas()
    ensures "category.Noble gas" == "category." + "Noble gas"
  {
  }

  lemma CategoryKeyAlkaliMetal()
    ensures CategoryKeyMap["Alkali metal"] == "category." + "Alkali metal" && IsTranslationKey(CategoryKeyMap["Alkali metal"])
  {
    CategoryKeyTextAlkaliMetal();
    KeyPrefixAlkaliMetal();
  }

  lemma CategoryKeyTextAlkaliMetal()
    ensures CategoryKeyMap["Alkali metal"] == "category.Alkali metal" && IsTranslationKey("category.Alkali metal")
  {
  }

  lemma KeyPrefixAlkaliMetal()
    ensures "category.Alkali metal" == "category." + "Alkali metal"
  {
  }

  lemma CategoryKeyAlkalineEarthMetal()
    ensures CategoryKeyMap["Alkaline earth metal"] == "category." + "Alkaline earth metal" && IsTranslationKey(CategoryKeyMap["Alkaline earth metal"])
  {
    CategoryKeyTextAlkalineEarthMetal();
    KeyPrefixAlkalineEarthMetal();
  }

  lemma CategoryKeyTextAlkalineEarthMetal()
    ensures CategoryKeyMap["Alkaline earth metal"] == "category.Alkaline earth metal" && IsTranslationKey("category.Alkaline earth metal")
  {
  }

  lemma KeyPrefixAlkalineEarthMetal()
    ensures "category.Alkaline earth metal" == "category." + "Alkaline earth metal"
  {
  }

  lemma CategoryKeyMetalloid()
    ensures CategoryKeyMap["Metalloid"] == "category." + "Metalloid" && IsTranslationKey(CategoryKeyMap["Metalloid"])
  {
    CategoryKeyTextMetalloid();
    KeyPrefixMetalloid();
  }

  lemma CategoryKeyTextMetalloid()
    ensures CategoryKeyMap["Metalloid"] == "category.Metalloid" && IsTranslationKey("category.Metalloid")
  {
  }

  lemma KeyPrefixMetalloid()
    ensures "category.Metalloid" == "category." + "Metalloid"
  {
  }

  lemma CategoryKeyHalogen()
    ensures CategoryKeyMap["Halogen"] == "category." + "Halogen" && IsTranslationKey(CategoryKeyMap["Halogen"])
  {
    CategoryKeyTextHalogen();
    KeyPrefixHalogen();
  }

  lemma CategoryKeyTextHalogen()
    ensures CategoryKeyMap["Halogen"] == "category.Halogen" && IsTranslationKey("category.Halogen")
  {
  }

  lemma KeyPrefixHalogen()
    ensures "category.Halogen" == "category." + "Halogen"
  {
  }

  lemma CategoryKeyPostTransitionMetal()
    ensures CategoryKeyMap["Post-transition metal"] == "category." + "Post-transition metal" && IsTranslationKey(CategoryKeyMap["Post-transition metal"])
  {
    CategoryKeyTextPostTransitionMetal();
    KeyPrefixPostTransitionMetal();
  }

  lemma CategoryKeyTextPostTransitionMetal()
    ensures CategoryKeyMap["Post-transition metal"] == "category.Post-transition metal" && IsTranslationKey("category.Post-transition metal")
  {
  }

  lemma KeyPrefixPostTransitionMetal()
    ensures "category.Post-transition metal" == "category." + "Post-transition metal"
  {
  }

  lemma CategoryKeyTransitionMetal()
    ensures CategoryKeyMap["Transition metal"] == "category." + "Transition metal" && IsTranslationKey(CategoryKeyMap["Transition metal"])
  {
    CategoryKeyTextTransitionMetal();
    KeyPrefixTransitionMetal();
  }

  lemma CategoryKeyTextTransitionMetal()
    ensures CategoryKeyMap["Transition metal"] == "category.Transition metal" && IsTranslationKey("category.Transition metal")
  {
  }

  lemma KeyPrefixTransitionMetal()
    ensures "category.Transition metal" == "category." + "Transition metal"
  {
  }

  lemma CategoryKeyLanthanide()
    ensures CategoryKeyMap["Lanthanide"] == "category." + "Lanthanide" && IsTranslationKey(CategoryKeyMap["Lanthanide"])
  {
    CategoryKeyTextLanthanide();
    KeyPrefixLanthanide();
  }

  lemma CategoryKeyTextLanthanide()
    ensures CategoryKeyMap["Lanthanide"] == "category.Lanthanide" && IsTranslationKey("category.Lanthanide")
  {
  }

  lemma KeyPrefixLanthanide()
    ensures "category.Lanthanide" == "category." + "Lanthanide"
  {
  }

  lemma CategoryKeyActinide()
    ensures CategoryKeyMap["Actinide"] == "category." + "Actinide" && IsTranslationKey(CategoryKeyMap["Actinide"])
  {
    CategoryKeyTextActinide();
    KeyPrefixActinide();
  }

  lemma CategoryKeyTextActinide()
    ensures CategoryKeyMap["Actinide"] == "category.Actinide" && IsTranslationKey("category.Actinide")
  {
  }

  lemma KeyPrefixActinide()
    ensures "category.Actinide" == "category." + "Actinide"
  {
  }

  /** `translateCategory` for a category the table maps: the translation of its key;
      any other string comes back as it was. */
  function TranslateCategory(language: Language, category: string): (text: string)
    ensures category in CategoryKeyMap ==>
              IsTranslationKey("category." + category) && text == Translate(language, "category." + category)
    ensures category !in CategoryKeyMap ==> text == category
  {
    if category in CategoryKeyMap then
      CategoryKeys(category);
      Translate(language, CategoryKeyMap[category])
    else
      category
  }

  /** `translateCategory` as written: `CATEGORY_KEY_MAP[category]` also finds the
      inherited names, and `translate` then looks up a key that is in neither table
      and returns `undefined` (here `None`). */
  function TranslateCategoryAsWritten(language: Language, category: string): (text: Option<string>)
    ensures category in CategoryKeyMap ==> text == Some(Translate(language, CategoryKeyMap[category]))
    ensures category !in CategoryKeyMap && category in ObjectPrototypeNames ==> text == None
    ensures category !in CategoryKeyMap && category !in ObjectPrototypeNames ==> text == Some(category)
  {
    if category in CategoryKeyMap then
      CategoryKeys(category);
      Some(Translate(language, CategoryKeyMap[category]))
    else if category in ObjectPrototypeNames then None
    else Some(category)
  }

  /** The category "constructor" is translated to `undefined` in either language,
      although `translateCategory` promises a string. */
  lemma ConstructorCategoryIsUndefined(language: Language)
    ensures "constructor" !in CategoryKeyMap
    ensures TranslateCategoryAsWritten(language, "constructor") == None
    ensures TranslateCategory(language, "constructor") == "constructor"
  {
    assert "constructor" in ObjectPrototypeNames;
  }

  /** Away from the inherited names the code as written and the own-entry lookup
      agree, so the correction changes nothing for the element categories. */
  lemma AsWrittenAgreesAwayFromPrototype(language: Language, category: string)
    requires category !in ObjectPrototypeNames
    ensures TranslateCategoryAsWritten(language, category) == Some(TranslateCategory(language, category))
  {
  }
}
