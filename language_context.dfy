/** The UI language: the four supported languages, the saved-preference
    decode run once at start-up, the provider whose `setLanguage` also
    writes the preference to storage, and the translation table `t`. */
module LanguageContext {
  import opened Wrappers
  import opened JsStrings

  datatype Language = Tr | En | De | Es

  /** The code a language is stored and compared under. */
  function Code(l: Language): string {
    match l
    case Tr => "tr"
    case En => "en"
    case De => "de"
    case Es => "es"
  }

  /** Distinct languages have distinct codes. */
  lemma CodeInjective(a: Language, b: Language)
    ensures Code(a) == Code(b) <==> a == b
  {
  }

  // ---------------------------------------------------------------------
  // The language menu
  // ---------------------------------------------------------------------

  datatype LanguageInfo = LanguageInfo(code: Language, name: string, flag: string)

  /** The menu entries, in display order. */
  const Languages: seq<LanguageInfo> := [
    LanguageInfo(Tr, "Türkçe", "\U{1F1F9}\U{1F1F7}"),
    LanguageInfo(En, "English", "\U{1F1FA}\U{1F1F8}"),
    LanguageInfo(De, "Deutsch", "\U{1F1E9}\U{1F1EA}"),
    LanguageInfo(Es, "Español", "\U{1F1EA}\U{1F1F8}")
  ]

  /** Four entries, in the order tr, en, de, es, with pairwise distinct codes. */
  lemma LanguagesTable()
    ensures |Languages| == 4
    ensures Languages[0].code == Tr && Languages[1].code == En
    ensures Languages[2].code == De && Languages[3].code == Es
    ensures forall i, j :: 0 <= i < j < |Languages| ==> Languages[i].code != Languages[j].code
  {
  }

  /** `table.find(e => e.code === l)`: the first entry with code `l`. */
  function Find(table: seq<LanguageInfo>, l: Language): (r: Option<LanguageInfo>)
    ensures r.None? <==> forall i :: 0 <= i < |table| ==> table[i].code != l
    ensures r.Some? ==> exists i :: 0 <= i < |table| && table[i] == r.value
                          && r.value.code == l
                          && forall j :: 0 <= j < i ==> table[j].code != l
    decreases |table|
  {
    if table == [] then None
    else if table[0].code == l then Some(table[0])
    else
      var r := Find(table[1..], l);
      assert forall i :: 1 <= i < |table| ==> table[i] == table[1..][i - 1];
      r
  }

  /** The menu entry shown for the current language: `find(...) ||
      languages[0]`. The fall-back is never taken. */
  function ActiveLanguage(l: Language): (e: LanguageInfo)
    ensures e in Languages && e.code == l
  {
    LanguagesTable();
    Find(Languages, l).GetOr(Languages[0])
  }

  /** The fall-back is never taken: every language has its entry. */
  lemma ActiveLanguageMatches(l: Language)
    ensures Find(Languages, l).Some?
    ensures ActiveLanguage(l) == Find(Languages, l).value
  {
    LanguagesTable();
  }

  // ---------------------------------------------------------------------
  // Saved preference
  // ---------------------------------------------------------------------

  /** The storage key of the preference. */
  const StorageKey := "app-language"

  /** The initial language from the saved value (`null` when nothing is
      saved): the saved code when it is one of the four, otherwise English. */
  function DecodeSaved(saved: Option<string>): (l: Language)
    ensures (exists k: Language :: saved == Some(Code(k))) ==> saved == Some(Code(l))
    ensures (forall k: Language :: saved != Some(Code(k))) ==> l == En
  {
    if saved == Some("en") then En
    else if saved == Some("tr") then Tr
    else if saved == Some("de") then De
    else if saved == Some("es") then Es
    else En
  }

  /** Storing a language's code and decoding it gives the language back. */
  lemma DecodeSavedRoundTrip(l: Language)
    ensures DecodeSaved(Some(Code(l))) == l
  {
  }

  /** The language the provider starts with, reading the storage map. */
  function InitialLanguage(storage: map<string, string>): (l: Language)
    ensures StorageKey in storage && (exists k: Language :: storage[StorageKey] == Code(k)) ==>
      storage[StorageKey] == Code(l)
    ensures (StorageKey !in storage || forall k: Language :: storage[StorageKey] != Code(k)) ==> l == En
  {
    DecodeSaved(Get(storage, StorageKey))
  }

  /** After a language is persisted, the next start-up begins with it,
      whatever else the storage holds. */
  lemma {:induction false} PersistedLanguageReloads(storage: map<string, string>, l: Language)
    ensures InitialLanguage(storage[StorageKey := Code(l)]) == l
  {
    assert Get(storage[StorageKey := Code(l)], StorageKey) == Some(Code(l));
    DecodeSavedRoundTrip(l);
  }

  // ---------------------------------------------------------------------
  // Translations
  // ---------------------------------------------------------------------

  /** The entries of a translation table the modelled logic reads. Every
      language has a table with the same keys. */
  datatype Strings = Strings(
    notFound: string,
    connectionError: string,
    archiveResults: string,
    archiveBio: string,
    archiveLocation: string)

  /** The placeholder the search-results biography substitutes. */
  const QueryPlaceholder := "{query}"

  /** Where the placeholder sits in each table's search biography. */
  function PlaceholderIndex(l: Language): nat {
    match l case Tr => 1 case En => 32 case De => 27 case Es => 41
  }

  /** `translations[language]`, defined for every language. Every table's
      search biography contains the placeholder. */
  function T(l: Language): (t: Strings)
    ensures OccursAt(t.archiveBio, QueryPlaceholder, PlaceholderIndex(l))
  {
    match l
    case Tr =>
      OccursBetween("'", QueryPlaceholder, "' araması için bulunan popüler depolar.");
      Strings(
        "Kullanıcı veya ilgili depo bulunamadı.",
        "Bir bağlantı hatası oluştu.",
        "Depolar",
        "'" + QueryPlaceholder + "' araması için bulunan popüler depolar.",
        "Global Arama")
    case En =>
      OccursBetween("Popular repositories found for '", QueryPlaceholder, "'.");
      Strings(
        "User or relevant repository not found.",
        "A connection error occurred.",
        "Repositories",
        "Popular repositories found for '" + QueryPlaceholder + "'.",
        "Global Search")
    case De =>
      OccursBetween("Beliebte Repositories für '", QueryPlaceholder, "' gefunden.");
      Strings(
        "Benutzer oder Repository nicht gefunden.",
        "Ein Verbindungsfehler ist aufgetreten.",
        "Repositories",
        "Beliebte Repositories für '" + QueryPlaceholder + "' gefunden.",
        "Globale Suche")
    case Es =>
      OccursBetween("Repositorios populares encontrados para '", QueryPlaceholder, "'.");
      Strings(
        "Usuario o repositorio no encontrado.",
        "Ocurrió un error de conexión.",
        "Repositorios",
        "Repositorios populares encontrados para '" + QueryPlaceholder + "'.",
        "Búsqueda Global")
  }

  /** Both error messages are non-empty, hence truthy, and tell the two
      errors apart in every language. */
  lemma ErrorMessagesDistinct(l: Language)
    ensures T(l).notFound != "" && T(l).connectionError != ""
    ensures T(l).notFound != T(l).connectionError
  {
    var t := T(l);
    match l
    case Tr => assert t.notFound[0] == 'K' && t.connectionError[0] == 'B';
    case En => assert t.notFound[0] == 'U' && t.connectionError[0] == 'A';
    case De => assert t.notFound[0] == 'B' && t.connectionError[0] == 'E';
    case Es => assert t.notFound[0] == 'U' && t.connectionError[0] == 'O';
  }

  // ---------------------------------------------------------------------
  // Provider and hook
  // ---------------------------------------------------------------------

  /** What the provider hands to its consumers. */
  datatype ContextValue = ContextValue(language: Language, t: Strings)

  const MissingProviderMessage := "useLanguage must be used within a LanguageProvider"

  /** `useLanguage()`: the nearest provider's value, or an error when no
      provider encloses the caller. */
  function UseLanguage(context: Option<ContextValue>): (r: Result<ContextValue, string>)
    ensures r.Failure? <==> context.None?
    ensures r.Failure? ==> r.error == MissingProviderMessage
    ensures r.Success? ==> r.value == context.value
  {
    match context
    case None => Failure(MissingProviderMessage)
    case Some(v) => Success(v)
  }

  /** The provider: the current language and the browser storage it
      persists the preference to. */
  class LanguageProvider {
    var language: Language
    var storage: map<string, string>

    /** Mounting reads the saved preference once. */
    constructor (storage: map<string, string>)
      ensures this.storage == storage
      ensures language == InitialLanguage(storage)
    {
      this.storage := storage;
      language := InitialLanguage(storage);
    }

    /** `setLanguage(l)`: switch to `l` and save it under the storage key;
        every other stored entry is kept. */
    method SetLanguage(l: Language)
      modifies this
      ensures language == l
      ensures storage == old(storage)[StorageKey := Code(l)]
      ensures InitialLanguage(storage) == l
    {
      language := l;
      storage := storage[StorageKey := Code(l)];
      PersistedLanguageReloads(old(storage), l);
    }

    /** The context value: the language and its table. */
    function Value(): (v: ContextValue)
      reads this
      ensures v.language == language && v.t == T(language)
    {
      ContextValue(language, T(language))
    }
  }
}
