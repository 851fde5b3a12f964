/**
 * The interface language: three translation tables, the `t` lookup with its
 * fall-back to the key, the language chosen at start-up from the saved
 * preference, and the provider that keeps the choice and saves it.
 */
module Language {
  import opened Wrappers
  import opened Js

  /** The three interface languages: English, English with Swahili, Swahili. */
  datatype Lang = En | EnSw | Sw

  /** The code a language is saved under, which also names its table. */
  function Code(l: Lang): string
  {
    match l
    case En => "en"
    case EnSw => "en-sw"
    case Sw => "sw"
  }

  /** The language a code names, if any. */
  function ParseCode(s: string): (r: Option<Lang>)
    ensures r.Some? ==> Code(r.value) == s
  {
    if s == "en" then Some(En)
    else if s == "en-sw" then Some(EnSw)
    else if s == "sw" then Some(Sw)
    else None
  }

  /** Every language's code parses back to it. */
  lemma CodeRoundTrip(l: Lang)
    ensures ParseCode(Code(l)) == Some(l)
  {
  }

  /** The English table. */
  function EnTable(): map<string, string>
  {
    map[
      "nav.dashboard" := "Dashboard",
      "nav.log" := "Log Tasks",
      "nav.history" := "History",
      "nav.logout" := "Logout",
      "category.kuoga" := "Bathing",
      "category.kufua" := "Laundry",
      "category.kusafisha" := "Cleaning",
      "category.kupika" := "Cooking",
      "common.points" := "Points",
      "common.today" := "Today",
      "common.total" := "Total",
      "common.simple" := "Simple Mode",
      "common.advanced" := "Advanced Mode",
      "common.save" := "Save",
      "common.cancel" := "Cancel",
      "common.select_date" := "Select Date",
      "task.completed" := "Task completed!",
      "task.uncompleted" := "Task uncompleted"
    ]
  }

  /** The English-with-Swahili table. */
  function EnSwTable(): map<string, string>
  {
    map[
      "nav.dashboard" := "Dashboard",
      "nav.log" := "Log Tasks",
      "nav.history" := "History",
      "nav.logout" := "Logout",
      "category.kuoga" := "Kuoga (Bathing)",
      "category.kufua" := "Kufua (Laundry)",
      "category.kusafisha" := "Kusafisha (Cleaning)",
      "category.kupika" := "Kupika (Cooking)",
      "common.points" := "Pointi",
      "common.today" := "Leo",
      "common.total" := "Jumla",
      "common.simple" := "Rahisi Mode",
      "common.advanced" := "Advanced Mode",
      "common.save" := "Hifadhi",
      "common.cancel" := "Ghairi",
      "common.select_date" := "Chagua Tarehe",
      "task.completed" := "Kazi imekamilika!",
      "task.uncompleted" := "Kazi haijafanywa"
    ]
  }

  /** The Swahili table. */
  function SwTable(): map<string, string>
  {
    map[
      "nav.dashboard" := "Dashibodi",
      "nav.log" := "Rekodi Kazi",
      "nav.history" := "Historia",
      "nav.logout" := "Toka",
      "category.kuoga" := "Kuoga",
      "category.kufua" := "Kufua",
      "category.kusafisha" := "Kusafisha",
      "category.kupika" := "Kupika",
      "common.points" := "Pointi",
      "common.today" := "Leo",
      "common.total" := "Jumla",
      "common.simple" := "Rahisi",
      "common.advanced" := "Ya Kina",
      "common.save" := "Hifadhi",
      "common.cancel" := "Ghairi",
      "common.select_date" := "Chagua Tarehe",
      "task.completed" := "Kazi imekamilika!",
      "task.uncompleted" := "Kazi haijafanywa"
    ]
  }

  /** `translations[language]`. */
  function Table(l: Lang): map<string, string>
  {
    match l
    case En => EnTable()
    case EnSw => EnSwTable()
    case Sw => SwTable()
  }

  /** The three tables translate the same keys. */
  lemma SameKeys()
    ensures EnSwTable().Keys == EnTable().Keys && SwTable().Keys == EnTable().Keys
  {
  }

  /** No translation is empty, and none is its own key. */
  lemma ProperValues(l: Lang)
    ensures forall k :: k in Table(l) ==> Table(l)[k] != "" && Table(l)[k] != k
  {
  }

  /**
   * `t(key)`: the language's string for the key, and the key itself when the
   * table has no (non-empty) string for it.
   */
  function T(l: Lang, key: string): (s: string)
    ensures key !in Table(l) ==> s == key
    ensures key in Table(l) && Table(l)[key] != "" ==> s == Table(l)[key]
  {
    var table := Table(l);
    if key in table && table[key] != "" then table[key] else key
  }

  /** Since no translation is empty, `t` answers with the table's string for every key it has. */
  lemma TDefined(l: Lang, key: string)
    requires key in Table(l)
    ensures T(l, key) == Table(l)[key]
  {
    ProperValues(l);
  }

  /** `t` hands back the key exactly when the language's table lacks it. */
  lemma TFallsBackOnlyForMissingKeys(l: Lang, key: string)
    ensures T(l, key) == key <==> key !in Table(l)
  {
    ProperValues(l);
  }

  /** A key is translated in one language exactly when it is translated in all of them. */
  lemma TranslatedEverywhere(l: Lang, m: Lang, key: string)
    ensures T(l, key) == key <==> T(m, key) == key
  {
    SameKeys();
    TFallsBackOnlyForMissingKeys(l, key);
    TFallsBackOnlyForMissingKeys(m, key);
  }

  /**
   * The start-up choice as written: the saved string when it is truthy, else
   * "en". Nothing checks that the saved string names a language.
   */
  function InitialCodeAsWritten(saved: Option<string>): (code: string)
    ensures Truthy(saved) ==> code == saved.value
    ensures !Truthy(saved) ==> code == Code(En)
  {
    if Truthy(saved) then saved.value else "en"
  }

  /** `t` as written, on the code it was started with: a code with no table makes the lookup throw. */
  function TAsWritten(code: string, key: string): (r: Result<string, string>)
    ensures ParseCode(code).Some? ==> r == Ok(T(ParseCode(code).value, key))
    ensures ParseCode(code).None? ==> r.Err?
  {
    match ParseCode(code)
    case Some(l) => Ok(T(l, key))
    case None => Err("TypeError: translations[language] is undefined")
  }

  /** A saved "fr" is taken as the language, and the first `t` call then throws. */
  lemma UnknownSavedCodeBreaksLookup(key: string)
    ensures InitialCodeAsWritten(Some("fr")) == "fr"
    ensures TAsWritten(InitialCodeAsWritten(Some("fr")), key).Err?
  {
  }

  /**
   * The start-up choice, corrected: the saved language when the saved string
   * names one, else English.
   */
  function InitialLanguage(saved: Option<string>): (l: Lang)
    ensures saved.Some? && ParseCode(saved.value).Some? ==> l == ParseCode(saved.value).value
    ensures saved.None? || ParseCode(saved.value).None? ==> l == En
  {
    if saved.Some? then
      match ParseCode(saved.value)
      case Some(l) => l
      case None => En
    else En
  }

  /** The corrected choice agrees with the written one on every saved string that names a language. */
  lemma InitialLanguageAgrees(saved: Option<string>)
    requires !Truthy(saved) || ParseCode(saved.value).Some?
    ensures Code(InitialLanguage(saved)) == InitialCodeAsWritten(saved)
  {
  }

  /** `LanguageProvider`: the current language and the saved preference it is kept in sync with. */
  class LanguageProvider {
    var language: Lang
    var saved: Option<string>

    /** Start-up: choose from the saved preference, then save the choice. */
    constructor (stored: Option<string>)
      ensures language == InitialLanguage(stored) && saved == Some(Code(language))
    {
      var l := InitialLanguage(stored);
      language := l;
      saved := Some(Code(l));
    }

    /** `setLanguage`, followed by the effect that saves the new language. */
    method SetLanguage(l: Lang)
      modifies this
      ensures language == l && saved == Some(Code(l))
    {
      language := l;
      saved := Some(Code(l));
    }

    /** `t` in the current language. */
    function Translate(key: string): (s: string)
      reads this
      ensures key in Table(language) ==> s == Table(language)[key]
      ensures key !in Table(language) ==> s == key
    {
      if key in Table(language) then
        TDefined(language, key);
        T(language, key)
      else
        T(language, key)
    }
  }

  /** A provider started from what an earlier one saved comes up in the same language. */
  lemma ReloadKeepsLanguage(l: Lang)
    ensures InitialLanguage(Some(Code(l))) == l
  {
    CodeRoundTrip(l);
  }
}
