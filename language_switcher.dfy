/** The language button of components/language-switcher.tsx: it switches
    between French and Arabic and is labelled with the language it switches
    to. */
module LanguageSwitcher {
  import opened LanguageContext

  /** `toggleLanguage`'s choice on the language code: "ar" from "fr", and
      "fr" from anything else. */
  function ToggledCode(code: string): string {
    if code == "fr" then "ar" else "fr"
  }

  /** The same choice on languages. */
  function Toggled(l: Language): (t: Language)
    ensures t.Code() == ToggledCode(l.Code())
  {
    if l == Fr then Ar else Fr
  }

  /** The toggle always changes the language and undoes itself; on codes,
      anything but "fr" goes to "fr". */
  lemma ToggleSpec(l: Language, code: string)
    ensures Toggled(l) != l
    ensures Toggled(Toggled(l)) == l
    ensures code != "fr" ==> ToggledCode(code) == "fr"
    ensures ToggledCode(ToggledCode(code)) == code <==> code == "fr" || code == "ar"
  {
  }

  /** Each language's name in that language. */
  function NativeName(l: Language): string {
    match l
    case Fr => "Français"
    case Ar => "العربية"
  }

  /** The button's text. */
  function ButtonLabel(l: Language): string {
    if l.Code() == "fr" then "العربية" else "Français"
  }

  /** The label always names the language a click switches to. */
  lemma LabelNamesTarget(l: Language)
    ensures ButtonLabel(l) == NativeName(Toggled(l))
    ensures ButtonLabel(l) != NativeName(l)
  {
  }

  /** A click: `setLanguage` with the other language, after which the
      document and the saved value follow. */
  method ToggleLanguage(provider: LanguageProvider)
    modifies provider
    ensures provider.language == Toggled(old(provider.language))
    ensures provider.InSync()
  {
    var newLang := if provider.language.Code() == "fr" then Ar else Fr;
    provider.SetLanguage(newLang);
  }
}
