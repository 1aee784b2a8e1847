/** The language provider of contexts/language-context.tsx: the current
    language, the translation lookup with its fallbacks, the text direction,
    the two effects that keep the document and the saved language in step,
    and the guard of `useLanguage`. The saved language is the value stored
    under the "language" key, modelled as an optional string; the document's
    `dir` and `lang` attributes are fields of the provider. */
module LanguageContext {
  import opened Options

  datatype Language = Fr | Ar {
    /** The code the app uses for the language, as stored and as set on the
        document. */
    function Code(): string {
      match this
      case Fr => "fr"
      case Ar => "ar"
    }
  }

  datatype Direction = Ltr | Rtl

  /** The language the provider starts with. */
  function InitialLanguage(): Language {
    Fr
  }

  /** `isRTL`. */
  predicate IsRtl(l: Language) {
    l.Code() == "ar"
  }

  /** The document direction the first effect sets. */
  function DirectionOf(l: Language): (d: Direction)
    ensures d == Rtl <==> IsRtl(l)
  {
    if l.Code() == "ar" then Rtl else Ltr
  }

  // ---------------------------------------------------------------------------
  // The saved language

  /** The check of the second effect: a saved value is adopted only when it
      is exactly "fr" or "ar". */
  function ParseSaved(saved: Option<string>): (r: Option<Language>)
    ensures r.Some? <==> saved.Some? && (saved.value == "fr" || saved.value == "ar")
    ensures r.Some? ==> r.value.Code() == saved.value
  {
    if saved.Some? && saved.value == "fr" then Some(Fr)
    else if saved.Some? && saved.value == "ar" then Some(Ar)
    else None
  }

  /** What the first effect stores is what the second effect accepts, and
      it reads back as the same language. */
  lemma SavedCodeRoundTrip(l: Language)
    ensures ParseSaved(Some(l.Code())) == Some(l)
  {
  }

  /** The second effect on its own: the saved language if it is valid, the
      current one otherwise (nothing saved, or any other value). */
  function AfterRestore(current: Language, saved: Option<string>): (l: Language)
    ensures saved.Some? && saved.value == "fr" ==> l == Fr
    ensures saved.Some? && saved.value == "ar" ==> l == Ar
    ensures !(saved.Some? && (saved.value == "fr" || saved.value == "ar")) ==> l == current
  {
    ParseSaved(saved).GetOr(current)
  }

  // ---------------------------------------------------------------------------
  // Mounting the provider

  /** The language, the saved value and the document after the effects of
      the first render have run. */
  datatype Mounted = Mounted(language: Language, saved: Option<string>, dir: Direction, lang: string)

  /** The effects as declared: the first effect runs first and stores the
      initial "fr", then the second effect reads that value back. Adopting
      "fr" again does not re-render, so nothing else runs. */
  function MountAsWritten(saved: Option<string>): (m: Mounted)
    ensures m.saved == Some(m.language.Code())
    ensures m.language == Fr && m.saved == Some("fr")
  {
    var stored := Some(InitialLanguage().Code());
    var l := AfterRestore(InitialLanguage(), stored);
    Mounted(l, stored, DirectionOf(InitialLanguage()), InitialLanguage().Code())
  }

  /** As declared, a saved "ar" is overwritten before it is read: the
      provider always mounts in French and the saved value becomes "fr". */
  lemma SavedArabicLostAsWritten()
    ensures MountAsWritten(Some("ar")).language == Fr
    ensures MountAsWritten(Some("ar")).saved == Some("fr")
    ensures MountAsWritten(Some("ar")).language != AfterRestore(InitialLanguage(), Some("ar"))
  {
  }

  /** The effects with the saved value read before anything is stored: the
      second effect adopts the saved language, and the first effect then
      stores and applies it. */
  function Mount(saved: Option<string>): (m: Mounted)
    ensures m.language == AfterRestore(InitialLanguage(), saved)
    ensures m.saved == Some(m.language.Code())
    ensures m.dir == DirectionOf(m.language) && m.lang == m.language.Code()
  {
    var l := AfterRestore(InitialLanguage(), saved);
    Mounted(l, Some(l.Code()), DirectionOf(l), l.Code())
  }

  /** Reading first, a language chosen in one visit is the language of the
      next visit, and an invalid saved value falls back to French. */
  lemma MountRestoresSaved(l: Language, saved: Option<string>)
    ensures Mount(Some(l.Code())).language == l
    ensures Mount(Some(l.Code())).saved == Some(l.Code())
    ensures ParseSaved(saved).None? ==> Mount(saved).language == Fr
  {
  }

  // ---------------------------------------------------------------------------
  // Translation lookup

  /** One language's table from keys to texts. */
  type Table = map<string, string>

  datatype Translations = Translations(fr: Table, ar: Table) {
    function For(l: Language): Table {
      match l
      case Fr => fr
      case Ar => ar
    }
  }

  /** `table[key]` read as a truth value: a missing key (`undefined`) and an
      empty text are both falsy, so both read as "". */
  function Entry(table: Table, key: string): string {
    if key in table then table[key] else ""
  }

  /** `t(key)`: the current language's text, else the French text, else the
      key itself. */
  function Translate(tr: Translations, l: Language, key: string): string {
    var own := Entry(tr.For(l), key);
    if own != "" then own
    else
      var french := Entry(tr.fr, key);
      if french != "" then french else key
  }

  /** The fallback chain case by case, and its consequences: a non-empty key
      never translates to the empty string, and in French the Arabic table
      is never consulted. */
  lemma TranslateSpec(tr: Translations, l: Language, key: string)
    ensures key in tr.For(l) && tr.For(l)[key] != "" ==> Translate(tr, l, key) == tr.For(l)[key]
    ensures ((key !in tr.For(l) || tr.For(l)[key] == "") && key in tr.fr && tr.fr[key] != "")
              ==> Translate(tr, l, key) == tr.fr[key]
    ensures ((key !in tr.For(l) || tr.For(l)[key] == "") && (key !in tr.fr || tr.fr[key] == ""))
              ==> Translate(tr, l, key) == key
    ensures key != "" ==> Translate(tr, l, key) != ""
    ensures forall ar :: Translate(tr.(ar := ar), Fr, key) == Translate(tr, Fr, key)
  {
  }

  // ---------------------------------------------------------------------------
  // The provider

  /** The provider's state, with the document attributes and the saved value
      it writes. */
  class LanguageProvider {
    var language: Language
    var saved: Option<string>
    var dir: Direction
    var lang: string

    /** After the first effect: the document and the saved value follow the
        language. */
    predicate InSync()
      reads this
    {
      saved == Some(language.Code()) && dir == DirectionOf(language) && lang == language.Code()
    }

    /** Mounting with the saved value read first (see `Mount`). */
    constructor (stored: Option<string>)
      ensures language == Mount(stored).language
      ensures InSync()
    {
      language := InitialLanguage();
      saved := stored;
      dir := Ltr;
      lang := "";
      new;
      RestoreSaved();
      SyncDocument();
    }

    /** The first effect: set the direction and language of the document
        and store the language. */
    method SyncDocument()
      modifies this
      ensures language == old(language)
      ensures InSync()
    {
      dir := if language.Code() == "ar" then Rtl else Ltr;
      lang := language.Code();
      saved := Some(language.Code());
    }

    /** The second effect: adopt the saved language if it is valid. */
    method RestoreSaved()
      modifies this
      ensures language == AfterRestore(old(language), saved)
      ensures saved == old(saved) && dir == old(dir) && lang == old(lang)
    {
      if saved.Some? && (saved.value == "fr" || saved.value == "ar") {
        language := if saved.value == "fr" then Fr else Ar;
      }
    }

    /** `setLanguage`, followed by the first effect, which depends on the
        language. */
    method SetLanguage(l: Language)
      modifies this
      ensures language == l
      ensures InSync()
    {
      language := l;
      SyncDocument();
    }

    function IsRTL(): bool
      reads this
    {
      IsRtl(language)
    }

    function T(tr: Translations, key: string): string
      reads this
    {
      Translate(tr, language, key)
    }

    function Value(): ContextValue
      reads this
    {
      ContextValue(language, IsRtl(language))
    }
  }

  /** What the provider hands to `useLanguage` (the functions `t` and
      `setLanguage` are left out of the value). */
  datatype ContextValue = ContextValue(language: Language, isRtl: bool)

  const OutsideProviderError: string := "useLanguage must be used within a LanguageProvider"

  /** `useLanguage`: the provider's value, or the error it throws when no
      provider is above the caller. */
  function UseLanguage(context: Option<ContextValue>): (r: Result<ContextValue, string>)
    ensures r.Err? <==> context.None?
    ensures r.Err? ==> r.error == OutsideProviderError
    ensures r.Ok? ==> r.value == context.value
  {
    match context
    case None => Err(OutsideProviderError)
    case Some(v) => Ok(v)
  }
}
