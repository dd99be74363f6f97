/** The bilingual field resolution of src/utils/bilingualHelper.js: a field
    is a plain string or an object keyed by language. */
module BilingualHelper {
  import opened Wrappers
  import opened JsValues

  /** The values `field[lang]`, `field.en` and `field.vi`, in the order they
      are tried. */
  function Candidates(field: JsValue, lang: string): seq<JsValue>
  {
    [GetProp(field, lang), GetProp(field, "en"), GetProp(field, "vi")]
  }

  /** `resolveBilingual(field, lang, fallback)`: `fallback` for `null` or
      `undefined`, a string as it is, and for an object or array the first
      present of `field[lang]`, `field.en`, `field.vi` when that is a string
      (`fallback` when none is present or the one found is not a string);
      `fallback` for every other value. */
  function ResolveBilingual(field: JsValue, lang: string, fallback: string): (r: string)
    ensures IsNullish(field) ==> r == fallback
    ensures field.Str? ==> r == field.s
    ensures !field.Obj? && !field.Arr? && !field.Str? ==> r == fallback
    ensures field.Obj? || field.Arr? ==>
              var v := FirstPresent(Candidates(field, lang));
              r == (if v.Some? && v.value.Str? then v.value.s else fallback)
  {
    if IsNullish(field) then fallback
    else if field.Str? then field.s
    else if field.Obj? || field.Arr? then
      FirstPresentOfThree(GetProp(field, lang), GetProp(field, "en"), GetProp(field, "vi"));
      var v := Coalesce(Coalesce(Coalesce(GetProp(field, lang), GetProp(field, "en")), GetProp(field, "vi")), Str(fallback));
      if v.Str? then v.s else fallback
    else fallback
  }

  /** An object whose entry for the language is a string resolves to it,
      whatever its other entries are. */
  lemma LanguageEntryWins(props: map<string, JsValue>, lang: string, fallback: string)
    requires lang in props && props[lang].Str?
    ensures ResolveBilingual(Obj(props), lang, fallback) == props[lang].s
  {
  }

  /** Without an entry for the language, English is preferred to
      Vietnamese. */
  lemma EnglishBeforeVietnamese(props: map<string, JsValue>, lang: string, fallback: string)
    requires lang !in props && "en" in props && props["en"].Str?
    ensures ResolveBilingual(Obj(props), lang, fallback) == props["en"].s
  {
  }

  /** `resolveOptions(options, lang)`: `[]` unless `options` is an array;
      otherwise each option resolved with its own `String(opt)` as the
      fallback. */
  function ResolveOptions(options: JsValue, lang: string): (r: seq<string>)
    ensures !options.Arr? ==> r == []
    ensures options.Arr? ==> |r| == |options.elems|
    ensures options.Arr? ==>
              forall i :: 0 <= i < |r| ==> r[i] == ResolveBilingual(options.elems[i], lang, ToJsString(options.elems[i]))
  {
    if !options.Arr? then []
    else seq(|options.elems|, i requires 0 <= i < |options.elems| =>
               ResolveBilingual(options.elems[i], lang, ToJsString(options.elems[i])))
  }

  /** Plain string options come out unchanged, and an option that is a
      number is shown as its decimal form. */
  lemma ResolvedOptionShapes(options: seq<JsValue>, lang: string, i: int)
    requires 0 <= i < |options|
    ensures options[i].Str? ==> ResolveOptions(Arr(options), lang)[i] == options[i].s
    ensures options[i].Num? ==> ResolveOptions(Arr(options), lang)[i] == JsStrings.IntToString(options[i].n)
  {
  }
}
