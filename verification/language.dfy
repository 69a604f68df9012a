/**
 The language provider: the current language, its persistence under one key
 of the browser's local storage, and the translation lookup `t`.
 Local storage is a map from keys to strings; a missing key is `null`.
 */
module Language {
  import opened Wrappers

  datatype Lang = Es | En

  /** The storage and display code of a language. */
  function Code(lang: Lang): string {
    match lang
    case Es => "es"
    case En => "en"
  }

  /** The language a stored string names, if it names one. */
  function ParseLang(s: string): (r: Option<Lang>)
    ensures r.Some? ==> Code(r.value) == s
    ensures r.None? ==> s != Code(Es) && s != Code(En)
  {
    if s == "es" then Some(Es) else if s == "en" then Some(En) else None
  }

  lemma CodeRoundTrip(lang: Lang)
    ensures ParseLang(Code(lang)) == Some(lang)
  {
  }

  type Storage = map<string, string>

  const StorageKey: string := "brujula-language"

  /** The language before storage has been read. */
  const InitialLanguage: Lang := En

  datatype Provider = Provider(language: Lang, storage: Storage)

  /** The mount effect: adopt a stored `"es"` or `"en"`; otherwise fall back to English
      and write `"en"` back. */
  function Load(storage: Storage): (p: Provider)
    ensures StorageKey in storage && ParseLang(storage[StorageKey]).Some? ==>
      p == Provider(ParseLang(storage[StorageKey]).value, storage)
    ensures !(StorageKey in storage && ParseLang(storage[StorageKey]).Some?) ==>
      p == Provider(En, storage[StorageKey := Code(En)])
    ensures StorageKey in p.storage && p.storage[StorageKey] == Code(p.language)
    ensures forall k :: k != StorageKey ==> (k in p.storage <==> k in storage)
    ensures forall k :: k != StorageKey && k in storage ==> p.storage[k] == storage[k]
  {
    var saved := if StorageKey in storage then Some(storage[StorageKey]) else None;
    if saved.Some? && saved.value != "" && (saved.value == "es" || saved.value == "en") then
      Provider(ParseLang(saved.value).value, storage)
    else
      Provider(En, storage[StorageKey := "en"])
  }

  /** The first render shows `InitialLanguage`; the mount effect moves away from it
      exactly when storage holds `"es"`. */
  lemma MountLeavesInitialOnlyForSpanish(storage: Storage)
    ensures Load(storage).language != InitialLanguage <==>
      (StorageKey in storage && storage[StorageKey] == Code(Es))
  {
  }

  /** Loading twice is loading once. */
  lemma LoadIdempotent(storage: Storage)
    ensures Load(Load(storage).storage) == Load(storage)
  {
    CodeRoundTrip(Load(storage).language);
  }

  /** `setLanguage(lang)`: state and storage both become `lang`. */
  function SetLanguage(p: Provider, lang: Lang): (r: Provider)
    ensures r.language == lang
    ensures StorageKey in r.storage && r.storage[StorageKey] == Code(lang)
    ensures forall k :: k != StorageKey ==> (k in r.storage <==> k in p.storage)
    ensures forall k :: k != StorageKey && k in p.storage ==> r.storage[k] == p.storage[k]
  {
    Provider(lang, p.storage[StorageKey := Code(lang)])
  }

  /** A language set by the user is the one the next load adopts. */
  lemma SetThenLoad(p: Provider, lang: Lang)
    ensures Load(SetLanguage(p, lang).storage) == SetLanguage(p, lang)
  {
    CodeRoundTrip(lang);
  }

  /** Per-language translation tables. */
  type Table = map<Lang, map<string, string>>

  /** `t(key)`: the entry for the current language when it is present and non-empty,
      otherwise the key itself. */
  function Translate(table: Table, lang: Lang, key: string): (r: string)
    ensures (lang in table && key in table[lang] && table[lang][key] != "") ==> r == table[lang][key]
    ensures !(lang in table && key in table[lang] && table[lang][key] != "") ==> r == key
  {
    var entry := if lang in table && key in table[lang] then table[lang][key] else "";
    if entry != "" then entry else key
  }
}
