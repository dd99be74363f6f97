/** The second bilingual helper, src/utils/bilingual.js, which stringifies
    whatever it finds instead of insisting on a string. */
module Bilingual {
  import opened Wrappers
  import opened JsValues
  import BilingualHelper

  /** `getBilingual(field, lang, fallback)`: `fallback` for `null` or
      `undefined`, a string as it is, for an object or array `String(v)` of
      the first present `v` of `field[lang]`, `field.en`, `field.vi`
      (`fallback` only when all three are absent), and `fallback` for every
      other value. */
  function GetBilingual(field: JsValue, lang: string, fallback: string): (r: string)
    ensures IsNullish(field) ==> r == fallback
    ensures field.Str? ==> r == field.s
    ensures !field.Obj? && !field.Arr? && !field.Str? ==> r == fallback
    ensures field.Obj? || field.Arr? ==>
              var v := FirstPresent(BilingualHelper.Candidates(field, lang));
              r == (if v.Some? then ToJsString(v.value) else fallback)
  {
    if IsNullish(field) then fallback
    else if field.Str? then field.s
    else if field.Obj? || field.Arr? then
      FirstPresentOfThree(GetProp(field, lang), GetProp(field, "en"), GetProp(field, "vi"));
      var v := Coalesce(Coalesce(GetProp(field, lang), GetProp(field, "en")), GetProp(field, "vi"));
      if !IsNullish(v) then ToJsString(v) else fallback
    else fallback
  }

  /** `getBilingualOption(option, lang)`: "" for `null` or `undefined`, a
      string as it is, `getBilingual(option, lang, "")` otherwise. */
  function GetBilingualOption(option: JsValue, lang: string): (r: string)
    ensures IsNullish(option) ==> r == ""
    ensures option.Str? ==> r == option.s
    ensures !IsNullish(option) && !option.Str? ==> r == GetBilingual(option, lang, "")
  {
    if IsNullish(option) then "" else if option.Str? then option.s else GetBilingual(option, lang, "")
  }

  /** The two helpers agree except where the value found is present but not
      a string: there this one gives its `String(v)` and the other the
      fallback. */
  lemma HelpersAgreeOnStrings(field: JsValue, lang: string, fallback: string)
    ensures var v := FirstPresent(BilingualHelper.Candidates(field, lang));
            !((field.Obj? || field.Arr?) && v.Some? && !v.value.Str?) ==>
              GetBilingual(field, lang, fallback) == BilingualHelper.ResolveBilingual(field, lang, fallback)
    ensures var v := FirstPresent(BilingualHelper.Candidates(field, lang));
            (field.Obj? || field.Arr?) && v.Some? && !v.value.Str? ==>
              GetBilingual(field, lang, fallback) == ToJsString(v.value)
              && BilingualHelper.ResolveBilingual(field, lang, fallback) == fallback
  {
  }

  /** A number stored under the language key is shown as its decimal form. */
  lemma NumberEntryStringified(props: map<string, JsValue>, lang: string, n: int)
    requires lang in props && props[lang] == Num(n)
    ensures GetBilingual(Obj(props), lang, "") == JsStrings.IntToString(n)
    ensures BilingualHelper.ResolveBilingual(Obj(props), lang, "") == ""
  {
  }
}
