/**
 The floating language button: it switches between the two languages, is
 hidden on the landing page, and shows the current language code in capitals.
 */
module LanguageToggle {
  import opened Language
  import Wrappers
  import Text

  /** `language === "es" ? "en" : "es"`. */
  function Toggle(lang: Lang): (r: Lang)
    ensures r != lang
    ensures lang == Es ==> r == En
    ensures lang == En ==> r == Es
  {
    if lang == Es then En else Es
  }

  lemma ToggleTwice(lang: Lang)
    ensures Toggle(Toggle(lang)) == lang
  {
  }

  /** Clicking the button: the provider's `setLanguage` with the other language. */
  function Click(p: Provider): (r: Provider)
    ensures r.language != p.language
    ensures Load(r.storage).language == r.language
  {
    SetThenLoad(p, Toggle(p.language));
    SetLanguage(p, Toggle(p.language))
  }

  /** `language.toUpperCase()`. */
  function Label(lang: Lang): (r: string)
    ensures |r| == 2
    ensures lang == Es ==> r == "ES"
    ensures lang == En ==> r == "EN"
  {
    Text.ToUpper(Code(lang))
  }

  /** What the component renders on a path: nothing on the landing page `/`, the labelled
      button everywhere else. */
  function Render(pathname: string, lang: Lang): (r: Wrappers.Option<string>)
    ensures r.None? <==> pathname == "/"
    ensures r.Some? ==> r.value == Label(lang)
  {
    if pathname == "/" then Wrappers.None else Wrappers.Some(Label(lang))
  }

  /** Every click changes the label the button shows. */
  lemma ClickChangesLabel(p: Provider)
    ensures Label(Click(p).language) != Label(p.language)
  {
  }
}
