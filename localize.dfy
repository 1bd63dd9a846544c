/** Localized text and the language store: the `t` helper of the app, the
    `tObj` resolver of the language context, the current language with its
    persisted copy, the `i18n` bundle lookup and the `useLanguage` guard. */
module Localize {
  import opened Wrappers

  /** A text field of the content: missing, a plain language-independent
      string, or an object from language code to string. */
  datatype Text = Absent | Plain(s: string) | Localized(entries: map<string, string>)

  /** JavaScript truthiness of `obj[key]`: present and not the empty string. */
  predicate HasEntry(entries: map<string, string>, key: string) {
    key in entries && entries[key] != ""
  }

  /** `t(obj, lang)` / `tObj(obj)`: a missing text gives "", a plain string is
      returned as it is, and an object gives `obj[lang] || obj.en || ''`. */
  function Resolve(text: Text, lang: string): (r: string)
    ensures text.Absent? ==> r == ""
    ensures text.Plain? ==> r == text.s
    ensures text.Localized? ==> r == "" || r in text.entries.Values
    ensures text.Localized? && HasEntry(text.entries, lang) ==> r == text.entries[lang]
    ensures text.Localized? ==> (r == "" <==> !HasEntry(text.entries, lang) && !HasEntry(text.entries, "en"))
  {
    match text
    case Absent => ""
    case Plain(s) => s
    case Localized(entries) =>
      if HasEntry(entries, lang) then entries[lang]
      else if HasEntry(entries, "en") then entries["en"]
      else ""
  }

  /** Reference definition of a fallback chain: the entry of the first key
      that is present and non-empty, or "" when there is none. */
  function FirstNonEmpty(entries: map<string, string>, keys: seq<string>): string {
    if keys == [] then ""
    else if HasEntry(entries, keys[0]) then entries[keys[0]]
    else FirstNonEmpty(entries, keys[1..])
  }

  /** Resolving an object walks the fallback chain: requested language, then
      English, then the empty string. */
  lemma ResolveIsFallbackChain(entries: map<string, string>, lang: string)
    ensures Resolve(Localized(entries), lang) == FirstNonEmpty(entries, [lang, "en"])
  {
    assert [lang, "en"][1..] == ["en"];
    assert ["en"][1..] == [];
    assert FirstNonEmpty(entries, ["en"]) == if HasEntry(entries, "en") then entries["en"] else "";
  }

  /** A language with no usable entry reads exactly like English. */
  lemma ResolveFallsBackToEnglish(entries: map<string, string>, lang: string)
    requires !HasEntry(entries, lang)
    ensures Resolve(Localized(entries), lang) == Resolve(Localized(entries), "en")
  {
  }

  /** A plain string is language-independent. */
  lemma ResolvePlainIgnoresLanguage(s: string, lang1: string, lang2: string)
    ensures Resolve(Plain(s), lang1) == Resolve(Plain(s), lang2) == s
  {
  }

  /** `localStorage.getItem('lang') || 'en'`: the stored value when it is a
      non-empty string, whatever it is, otherwise English. */
  function InitialLang(persisted: Option<string>): (r: string)
    ensures r != ""
    ensures persisted.Some? && persisted.value != "" ==> r == persisted.value
    ensures persisted.None? || persisted.value == "" ==> r == "en"
  {
    if persisted.Some? && persisted.value != "" then persisted.value else "en"
  }

  /** The stored language is not checked against the supported codes. */
  lemma InitialLangNotValidated(code: string)
    requires code != ""
    ensures InitialLang(Some(code)) == code
  {
  }

  /** What the provider holds: the current language and the stored `'lang'`
      key of local storage. */
  datatype LangState = LangState(lang: string, stored: Option<string>)

  /** Effect of `switchLanguage(l)` on that state. */
  function Switched(s: LangState, l: string): (r: LangState)
    ensures r.lang == l && r.stored == Some(l)
  {
    LangState(l, Some(l))
  }

  /** Switching twice to the same language is the same as switching once. */
  lemma SwitchIdempotent(s: LangState, l: string)
    ensures Switched(Switched(s, l), l) == Switched(s, l)
  {
  }

  /** After a switch the stored value re-reads as the current language, so a
      reload resumes in the chosen language (for any non-empty code). */
  lemma SwitchPersists(s: LangState, l: string)
    requires l != ""
    ensures InitialLang(Switched(s, l).stored) == Switched(s, l).lang
  {
  }

  /** The language provider. `B` is the type of a translation bundle. */
  class LanguageStore<B> {
    var lang: string
    var stored: Option<string>
    const translations: map<string, B>

    function State(): LangState
      reads this
    {
      LangState(lang, stored)
    }

    /** Mounting the provider reads the persisted value once. */
    constructor (persisted: Option<string>, translations: map<string, B>)
      ensures lang == InitialLang(persisted)
      ensures stored == persisted
      ensures this.translations == translations
    {
      lang := InitialLang(persisted);
      stored := persisted;
      this.translations := translations;
    }

    /** `switchLanguage(newLang)`: sets the state and writes local storage. */
    method SwitchLanguage(newLang: string)
      modifies this
      ensures State() == Switched(old(State()), newLang)
    {
      lang := newLang;
      stored := Some(newLang);
    }

    /** `i18n`: the bundle of the current language, `undefined` when the
        current language has no bundle. */
    function I18n(): (r: Option<B>)
      reads this
      ensures r.Some? <==> lang in translations
      ensures r.Some? ==> r.value == translations[lang]
    {
      if lang in translations then Some(translations[lang]) else None
    }

    /** `tObj(obj)`: the resolver bound to the current language. */
    function TObj(text: Text): (r: string)
      reads this
      ensures r == Resolve(text, lang)
    {
      Resolve(text, lang)
    }
  }

  const UseLanguageError := "useLanguage must be used within LanguageProvider"

  /** `useLanguage()`: the context value, or the error thrown outside a provider. */
  function UseLanguage<C>(ctx: Option<C>): (r: Result<C>)
    ensures r.Failure? <==> ctx.None?
    ensures ctx.Some? ==> r == Success(ctx.value)
    ensures r.Failure? ==> r.error == UseLanguageError
  {
    match ctx
    case None => Failure(UseLanguageError)
    case Some(c) => Success(c)
  }
}
