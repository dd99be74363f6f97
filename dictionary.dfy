/** The word lookup of src/utils/dictionary.js: the dictionary index built
    from the raw entries, the extraction of pinyin / meanings / radical from
    an entry, the local lookup with its single-character retry, the cache of
    looked-up words and the lesson / dictionary / cache precedence chain.
    The dictionary is handed in already loaded (its lazy import is left out)
    and the cache is the map the `cachedWords` storage key holds. */
module Dictionary {
  import opened Wrappers
  import opened JsStrings
  import opened JsValues

  type Index = map<string, JsValue>

  /** The key an entry is indexed under: its `s` when that is a non-empty
      string. */
  function IndexKey(entry: JsValue): Option<string>
  {
    var k := GetProp(entry, "s");
    if k.Str? && k.s != "" then Some(k.s) else None
  }

  /** The index of `entries`, read from left to right. */
  function IndexOf(entries: seq<JsValue>): Index
  {
    if entries == [] then map[]
    else
      var n := |entries| - 1;
      var m := IndexOf(entries[..n]);
      var k := IndexKey(entries[n]);
      if k.Some? then m[k.value := entries[n]] else m
  }

  /** `buildIndex(entries)`: every entry with a usable key, under that key. */
  method BuildIndex(entries: JsValue) returns (index: Index)
    ensures !entries.Arr? ==> index == map[]
    ensures entries.Arr? ==> index == IndexOf(entries.elems)
  {
    index := map[];
    if !entries.Arr? {
      return;
    }
    var es := entries.elems;
    for i := 0 to |es|
      invariant index == IndexOf(es[..i])
    {
      assert es[..i + 1][..i] == es[..i];
      var key := GetProp(es[i], "s");
      if !Truthy(key) || !key.Str? {
        continue;
      }
      index := index[key.s := es[i]];
    }
    assert es[..|es|] == es;
  }

  /** A key is in the index exactly when some entry has it. */
  lemma {:induction false} IndexHasEveryKey(entries: seq<JsValue>, k: string)
    ensures k in IndexOf(entries) <==> exists i :: 0 <= i < |entries| && IndexKey(entries[i]) == Some(k)
  {
    if entries != [] {
      var n := |entries| - 1;
      IndexHasEveryKey(entries[..n], k);
      if exists i :: 0 <= i < n && IndexKey(entries[..n][i]) == Some(k) {
        var i :| 0 <= i < n && IndexKey(entries[..n][i]) == Some(k);
        assert entries[i] == entries[..n][i];
      }
      if exists i :: 0 <= i < |entries| && IndexKey(entries[i]) == Some(k) {
        var i :| 0 <= i < |entries| && IndexKey(entries[i]) == Some(k);
        if i < n {
          assert entries[..n][i] == entries[i];
        }
      }
    }
  }

  /** The last position whose entry has key `k`, or -1. */
  function LastPosition(entries: seq<JsValue>, k: string): (i: int)
    ensures -1 <= i < |entries|
    ensures i >= 0 ==> IndexKey(entries[i]) == Some(k)
  {
    if entries == [] then -1
    else if IndexKey(entries[|entries| - 1]) == Some(k) then |entries| - 1
    else LastPosition(entries[..|entries| - 1], k)
  }

  /** Of several entries with the same key, the index holds the last: an
      indexed key has a last entry with it, no later entry has it, and that
      entry is what the index holds. */
  lemma {:induction false} IndexKeepsLast(entries: seq<JsValue>, k: string)
    requires k in IndexOf(entries)
    ensures var i := LastPosition(entries, k);
            0 <= i < |entries| && IndexOf(entries)[k] == entries[i]
            && forall j :: i < j < |entries| ==> IndexKey(entries[j]) != Some(k)
  {
    var n := |entries| - 1;
    var front := entries[..n];
    if IndexKey(entries[n]) != Some(k) {
      assert k in IndexOf(front) && IndexOf(entries)[k] == IndexOf(front)[k];
      IndexKeepsLast(front, k);
      var i := LastPosition(front, k);
      assert LastPosition(entries, k) == i;
      assert entries[i] == front[i];
      forall j | i < j < |entries|
        ensures IndexKey(entries[j]) != Some(k)
      {
        if j < n {
          assert entries[j] == front[j];
        }
      }
    }
  }

  /** What `parseEntry` extracts. */
  datatype ParsedEntry = ParsedEntry(pinyin: JsValue, en: string, radical: JsValue)

  /** The first form of an entry (`(entry.f ?? [])[0]` when that is an
      array, `null` otherwise). */
  function FirstForm(entry: JsValue): JsValue
  {
    var forms := Coalesce(GetProp(entry, "f"), Arr([]));
    if forms.Arr? then (if |forms.elems| > 0 then forms.elems[0] else Undefined) else Null
  }

  /** `parseEntry(entry)`: nothing for a falsy entry or one without a truthy
      first form; otherwise the pinyin `y` ?? `n` ?? "" of the form's `i`
      (or of the form itself), its meanings joined with "; " (or
      `String(meanings || "")` when they are not an array) and the entry's
      radical `r` ?? "". */
  function ParseEntry(entry: JsValue): (r: Option<ParsedEntry>)
    ensures r.None? <==> !Truthy(entry) || !Truthy(FirstForm(entry))
    ensures r.Some? ==>
              var info := Coalesce(GetProp(FirstForm(entry), "i"), FirstForm(entry));
              r.value.pinyin == FirstPresent([GetProp(info, "y"), GetProp(info, "n")]).GetOr(Str(""))
    ensures r.Some? ==> r.value.radical == Coalesce(GetProp(entry, "r"), Str(""))
    ensures r.Some? && GetProp(FirstForm(entry), "m").Arr? ==>
              r.value.en == ArrayJoin(GetProp(FirstForm(entry), "m").elems, "; ")
    ensures r.Some? && IsNullish(GetProp(FirstForm(entry), "m")) ==> r.value.en == ""
    ensures r.Some? && !GetProp(FirstForm(entry), "m").Arr? && !IsNullish(GetProp(FirstForm(entry), "m")) ==>
              r.value.en == ToJsString(Or(GetProp(FirstForm(entry), "m"), Str("")))
  {
    if !Truthy(entry) then None
    else
      var first := FirstForm(entry);
      if !Truthy(first) then None
      else
        var info := Coalesce(GetProp(first, "i"), first);
        FirstPresentOfThree(GetProp(info, "y"), GetProp(info, "n"), Str(""));
        assert [GetProp(info, "y"), GetProp(info, "n")] == [GetProp(info, "y"), GetProp(info, "n"), Str("")][..2];
        FirstPresentOfTwo(GetProp(info, "y"), GetProp(info, "n"));
        var pinyin := Coalesce(Coalesce(GetProp(info, "y"), GetProp(info, "n")), Str(""));
        var meanings := Coalesce(GetProp(first, "m"), Arr([]));
        var en := if meanings.Arr? then ArrayJoin(meanings.elems, "; ") else ToJsString(Or(meanings, Str("")));
        var radical := Coalesce(GetProp(entry, "r"), Str(""));
        Some(ParsedEntry(pinyin, en, radical))
  }

  lemma FirstPresentOfTwo(a: JsValue, b: JsValue)
    ensures FirstPresent([a, b]) == (if !IsNullish(a) then Some(a) else if !IsNullish(b) then Some(b) else None)
  {
    assert [a, b][1..] == [b] && [b][1..] == [];
    assert FirstPresent([b]) == (if !IsNullish(b) then Some(b) else None);
  }

  /** A typical entry: one form with pinyin and two meanings. */
  lemma ParseTypicalEntry(pinyin: string, m1: string, m2: string, radical: string)
    ensures ParseEntry(Obj(map["s" := Str("好"), "r" := Str(radical),
                              "f" := Arr([Obj(map["i" := Obj(map["y" := Str(pinyin)]),
                                                  "m" := Arr([Str(m1), Str(m2)])])])]))
            == Some(ParsedEntry(Str(pinyin), m1 + "; " + m2, Str(radical)))
  {
    var meanings := [Str(m1), Str(m2)];
    assert seq(|meanings|, i requires 0 <= i < |meanings| => if IsNullish(meanings[i]) then "" else ToJsString(meanings[i]))
           == [m1, m2];
    assert Join([m1, m2], "; ") == m1 + "; " + Join([m2], "; ") by {
      assert [m1, m2][1..] == [m2];
    }
  }

  /** The entry an index gives for a key (`index.get(key)`). */
  function Get(index: Index, key: string): JsValue
  {
    if key in index then index[key] else Undefined
  }

  /** The entry tried for trimmed text `t`: the exact one, or when there is
      none and `t` is longer than one character, its first character's. */
  function ChosenEntry(t: string, index: Index): (e: JsValue)
    ensures Truthy(Get(index, t)) || |t| <= 1 ==> e == Get(index, t)
    ensures !Truthy(Get(index, t)) && |t| > 1 ==> e == Get(index, t[..1])
  {
    var exact := Get(index, t);
    if !Truthy(exact) && |t| > 1 then
      assert [t[0]] == t[..1];
      Get(index, [t[0]])
    else exact
  }

  /** `lookupLocal(zh)` against `index`: nothing for a falsy or non-string
      input; otherwise the lookup of its trimmed text. */
  function LookupLocal(zh: JsValue, index: Index): (r: Option<ParsedEntry>)
    ensures !zh.Str? ==> r.None?
    ensures zh.Str? ==> r == LookupTrimmed(Trim(zh.s), index)
  {
    if !Truthy(zh) || !zh.Str? then None
    else LookupTrimmed(Trim(zh.s), index)
  }

  /** The part of `lookupLocal` after trimming, for trimmed text `t`:
      nothing for blank text, nor when no entry is found; otherwise the
      chosen entry, parsed. */
  function LookupTrimmed(t: string, index: Index): (r: Option<ParsedEntry>)
    ensures t == "" ==> r.None?
    ensures t != "" ==> r == (if Truthy(ChosenEntry(t, index)) then ParseEntry(ChosenEntry(t, index)) else None)
  {
    if t == "" then None
    else
      var entry := ChosenEntry(t, index);
      if !Truthy(entry) then None else ParseEntry(entry)
  }

  /** The exact text wins over its first character, and a single character
      has no retry. */
  lemma LookupPrefersExact(t: string, index: Index)
    requires Trim(t) == t && t != ""
    ensures Truthy(Get(index, t)) ==> LookupLocal(Str(t), index) == ParseEntry(Get(index, t))
    ensures !Truthy(Get(index, t)) && |t| == 1 ==> LookupLocal(Str(t), index).None?
    ensures !Truthy(Get(index, t)) && |t| > 1 && Truthy(Get(index, t[..1])) ==>
              LookupLocal(Str(t), index) == ParseEntry(Get(index, t[..1]))
  {
  }

  /** Looking up trimmed text that some entry carries as its key parses the
      last entry carrying it. */
  lemma LookupFindsLastEntry(entries: seq<JsValue>, t: string)
    requires Trim(t) == t && t in IndexOf(entries)
    ensures var i := LastPosition(entries, t);
            0 <= i < |entries| && LookupLocal(Str(t), IndexOf(entries)) == ParseEntry(entries[i])
  {
    IndexKeepsLast(entries, t);
    var i := LastPosition(entries, t);
    var e := entries[i];
    assert Truthy(e) by {
      assert GetProp(e, "s").Str?;
    }
    LookupPrefersExact(t, IndexOf(entries));
  }

  /** Surrounding whitespace does not change a local lookup. */
  lemma LookupIgnoresSurroundingSpace(zh: string, index: Index)
    ensures LookupLocal(Str(Trim(zh)), index) == LookupLocal(Str(zh), index)
  {
    TrimIdempotent(zh);
  }

  /** The record `saveToCache(entry)` stores: `zh` and the four fields with
      "" for a missing one. */
  function CacheRecord(entry: JsValue): (r: JsValue)
    ensures r.Obj? && r.props.Keys == {"zh", "pinyin", "vi", "en", "radical"}
    ensures r.props["zh"] == GetProp(entry, "zh")
    ensures forall f :: f in {"pinyin", "vi", "en", "radical"} ==> r.props[f] == Coalesce(GetProp(entry, f), Str(""))
  {
    Obj(map["zh" := GetProp(entry, "zh"),
            "pinyin" := Coalesce(GetProp(entry, "pinyin"), Str("")),
            "vi" := Coalesce(GetProp(entry, "vi"), Str("")),
            "en" := Coalesce(GetProp(entry, "en"), Str("")),
            "radical" := Coalesce(GetProp(entry, "radical"), Str(""))])
  }

  /** The cache contents after `saveToCache(entry)`: unchanged without a
      truthy `zh`, else the record under `String(entry.zh)`. */
  function SavedWords(words: map<string, JsValue>, entry: JsValue): (r: map<string, JsValue>)
    ensures !Truthy(GetProp(entry, "zh")) ==> r == words
    ensures Truthy(GetProp(entry, "zh")) ==>
              r == words[ToJsString(GetProp(entry, "zh")) := CacheRecord(entry)]
  {
    var zh := GetProp(entry, "zh");
    if !Truthy(zh) then words else words[ToJsString(zh) := CacheRecord(entry)]
  }

  /** A saved word reads back as its record, and every other word as
      before. */
  lemma SaveThenGet(words: map<string, JsValue>, entry: JsValue, other: string)
    requires GetProp(entry, "zh").Str? && GetProp(entry, "zh").s != ""
    ensures StoredOrNull(SavedWords(words, entry), GetProp(entry, "zh").s) == CacheRecord(entry)
    ensures other != GetProp(entry, "zh").s ==> StoredOrNull(SavedWords(words, entry), other) == StoredOrNull(words, other)
  {
  }

  /** The word cache in storage. */
  class WordCache {
    var words: map<string, JsValue>

    constructor (saved: map<string, JsValue>)
      ensures words == saved
    {
      words := saved;
    }

    function GetCachedWord(zh: string): (r: JsValue)
      reads this
      ensures zh !in words ==> r == Null
      ensures zh in words && !IsNullish(words[zh]) ==> r == words[zh]
      ensures zh in words && IsNullish(words[zh]) ==> r == Null
    {
      StoredOrNull(words, zh)
    }

    method SaveToCache(entry: JsValue)
      modifies this
      ensures words == SavedWords(old(words), entry)
      ensures !Truthy(GetProp(entry, "zh")) ==> words == old(words)
    {
      var zh := GetProp(entry, "zh");
      if !Truthy(zh) {
        return;
      }
      words := words[ToJsString(zh) := CacheRecord(entry)];
    }
  }

  /** Where a lookup result came from. */
  datatype Source = Lesson | DictionarySource | Cache

  datatype WordInfo = WordInfo(zh: string, pinyin: JsValue, vi: JsValue, en: JsValue, radical: JsValue, source: Source)

  /** `lessonData` has something to show: a truthy `pinyin`, `vi` or `en`. */
  predicate LessonHit(lessonData: JsValue)
  {
    Truthy(lessonData)
    && (Truthy(GetProp(lessonData, "pinyin")) || Truthy(GetProp(lessonData, "vi")) || Truthy(GetProp(lessonData, "en")))
  }

  /** `universalLookup(zh, lessonData)` with the dictionary `index` and the
      cache contents `words` (`None` for a `null` or `undefined` `zh`). */
  function UniversalLookup(zh: Option<string>, lessonData: JsValue, index: Index, words: map<string, JsValue>): (r: Option<WordInfo>)
    // a result always names the trimmed query
    ensures r.Some? ==> zh.Some? && r.value.zh == Trim(zh.value)
    ensures zh.None? || Trim(zh.value) == "" ==> r.None?
    // 1. the lesson's own data
    ensures zh.Some? && Trim(zh.value) != "" && LessonHit(lessonData) ==>
              r.Some? && r.value.source == Lesson
              && r.value.pinyin == Coalesce(GetProp(lessonData, "pinyin"), Str(""))
              && r.value.vi == Coalesce(GetProp(lessonData, "vi"), Str(""))
              && r.value.en == Coalesce(GetProp(lessonData, "en"), Str(""))
              && r.value.radical == Coalesce(GetProp(lessonData, "radical"), Str(""))
    // 2. the dictionary, with no Vietnamese
    ensures zh.Some? && Trim(zh.value) != "" && !LessonHit(lessonData) && LookupLocal(Str(Trim(zh.value)), index).Some? ==>
              var local := LookupLocal(Str(Trim(zh.value)), index).value;
              r.Some? && r.value.source == DictionarySource && r.value.vi == Str("")
              && r.value.pinyin == Coalesce(local.pinyin, Str("")) && r.value.en == Str(local.en)
              && r.value.radical == Coalesce(local.radical, Str(""))
    // 3. the cache
    ensures (zh.Some? && Trim(zh.value) != "" && !LessonHit(lessonData) && LookupLocal(Str(Trim(zh.value)), index).None?
             && Truthy(StoredOrNull(words, Trim(zh.value)))) ==>
              var cached := StoredOrNull(words, Trim(zh.value));
              r.Some? && r.value.source == Cache
              && r.value.pinyin == Coalesce(GetProp(cached, "pinyin"), Str(""))
              && r.value.vi == Coalesce(GetProp(cached, "vi"), Str("")) && r.value.en == Coalesce(GetProp(cached, "en"), Str(""))
              && r.value.radical == Coalesce(GetProp(cached, "radical"), Str(""))
    // 4. nothing
    ensures (zh.Some? && Trim(zh.value) != "" && !LessonHit(lessonData) && LookupLocal(Str(Trim(zh.value)), index).None?
             && !Truthy(StoredOrNull(words, Trim(zh.value)))) ==> r.None?
  {
    if zh.None? || Trim(zh.value) == "" then None
    else
      var key := Trim(zh.value);
      if LessonHit(lessonData) then
        Some(WordInfo(key, Coalesce(GetProp(lessonData, "pinyin"), Str("")), Coalesce(GetProp(lessonData, "vi"), Str("")),
                      Coalesce(GetProp(lessonData, "en"), Str("")), Coalesce(GetProp(lessonData, "radical"), Str("")), Lesson))
      else
        var local := LookupLocal(Str(key), index);
        if local.Some? then
          Some(WordInfo(key, Coalesce(local.value.pinyin, Str("")), Str(""), Str(local.value.en),
                        Coalesce(local.value.radical, Str("")), DictionarySource))
        else
          var cached := StoredOrNull(words, key);
          if Truthy(cached) then
            Some(WordInfo(key, Coalesce(GetProp(cached, "pinyin"), Str("")), Coalesce(GetProp(cached, "vi"), Str("")),
                          Coalesce(GetProp(cached, "en"), Str("")), Coalesce(GetProp(cached, "radical"), Str("")), Cache))
          else None
  }

  /** A word saved to the cache is found again by a lookup that neither the
      lesson nor the dictionary answers, with the saved fields. */
  lemma SavedWordIsFound(zh: string, entry: JsValue, index: Index, words: map<string, JsValue>)
    requires Trim(zh) != "" && GetProp(entry, "zh") == Str(Trim(zh))
    requires LookupLocal(Str(Trim(zh)), index).None?
    ensures var r := UniversalLookup(Some(zh), Null, index, SavedWords(words, entry));
            r.Some? && r.value.source == Cache && r.value.zh == Trim(zh)
            && r.value.vi == Coalesce(GetProp(entry, "vi"), Str(""))
            && r.value.en == Coalesce(GetProp(entry, "en"), Str(""))
  {
    SavedRecordFields(words, entry, Trim(zh));
    assert !LessonHit(Null);
  }

  /** The record saved for `key` is truthy and holds the entry's `vi` and
      `en` (or ""). */
  lemma SavedRecordFields(words: map<string, JsValue>, entry: JsValue, key: string)
    requires key != "" && GetProp(entry, "zh") == Str(key)
    ensures var c := StoredOrNull(SavedWords(words, entry), key);
            Truthy(c) && GetProp(c, "vi") == Coalesce(GetProp(entry, "vi"), Str(""))
            && GetProp(c, "en") == Coalesce(GetProp(entry, "en"), Str(""))
  {
    SaveThenGet(words, entry, key);
  }
}
