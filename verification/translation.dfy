/** The language context: two languages, a string table per language, and
    the lookup `t(key)` that falls back to the key itself. */
module Translation {

  /** The only two languages; `setLanguage` accepts nothing else. */
  datatype Language = En | Mr

  /** The provider starts in English. */
  const InitialLanguage: Language := En

  datatype Tables = Tables(en: map<string, string>, mr: map<string, string>)

  function TableFor(tables: Tables, lang: Language): map<string, string> {
    match lang
    case En => tables.en
    case Mr => tables.mr
  }

  /** `translations[language][key] || key`: a missing or empty entry yields
      the key. */
  function T(tables: Tables, lang: Language, key: string): (r: string)
    ensures key in TableFor(tables, lang) && TableFor(tables, lang)[key] != "" ==> r == TableFor(tables, lang)[key]
    ensures key !in TableFor(tables, lang) || TableFor(tables, lang)[key] == "" ==> r == key
  {
    var table := TableFor(tables, lang);
    if key in table && table[key] != "" then table[key] else key
  }

  /** The lookup returns either the entry or the key, and it is empty only
      when the key is. */
  lemma LookupEmptyOnlyForEmptyKey(tables: Tables, lang: Language, key: string)
    ensures T(tables, lang, key) == "" ==> key == ""
    ensures T(tables, lang, key) == key || T(tables, lang, key) in TableFor(tables, lang).Values
  {
  }

  /** A few entries of the real tables, enough to exercise the lookup. */
  const Sample := Tables(
    map["nav.home" := "Home", "checkout.success" := "Order Placed Successfully!"],
    map["nav.home" := "मुख्यपृष्ठ", "checkout.success" := "ऑर्डर यशस्वीरित्या दिली!"])

  lemma SampleLookups()
    ensures T(Sample, InitialLanguage, "nav.home") == "Home"
    ensures T(Sample, Mr, "nav.home") == "मुख्यपृष्ठ"
    ensures T(Sample, En, "no.such.key") == "no.such.key"
    ensures T(Tables(map["cart.empty" := ""], map[]), En, "cart.empty") == "cart.empty"
  {
  }
}
