/** The interface text lookup (src/translations/index.ts) and the language
    type it is keyed by (src/types/language.ts). The two tables are inputs:
    their entries are not part of this model. */
module Translations {

  /** `'en' | 'ar'`: the only languages with a table. */
  datatype Language = En | Ar

  /** The `translations` object: one table per language. */
  datatype Tables = Tables(en: map<string, string>, ar: map<string, string>)

  function TableOf(t: Tables, language: Language): map<string, string> {
    match language
    case En => t.en
    case Ar => t.ar
  }

  /** `translations[language][key] || key`. */
  function GetTranslation(t: Tables, language: Language, key: string): (r: string)
    ensures var table := TableOf(t, language);
      (key in table && table[key] != "" ==> r == table[key])
      && (key !in table ==> r == key)
      && (key in table && table[key] == "" ==> r == key)
  {
    var table := TableOf(t, language);
    if key in table && table[key] != "" then table[key] else key
  }

  /** The lookup never yields blank text for a non-empty key, and it yields
      either the table's entry or the key. */
  lemma TranslationNeverBlank(t: Tables, language: Language, key: string)
    requires key != ""
    ensures GetTranslation(t, language, key) != ""
    ensures GetTranslation(t, language, key) == key
      || (key in TableOf(t, language) && GetTranslation(t, language, key) == TableOf(t, language)[key])
  {
  }

  /** An entry added to a table is what the lookup then gives, unless it is
      empty, and no other key's text changes. */
  lemma AddedEntry(t: Tables, language: Language, key: string, text: string, other: string)
    requires other != key
    ensures var t2 := if language == En then t.(en := t.en[key := text]) else t.(ar := t.ar[key := text]);
      GetTranslation(t2, language, key) == (if text != "" then text else key)
      && GetTranslation(t2, language, other) == GetTranslation(t, language, other)
      && GetTranslation(t2, if language == En then Ar else En, other) == GetTranslation(t, if language == En then Ar else En, other)
  {
  }
}
