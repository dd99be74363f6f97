/** The cache of personalized lesson stories of
    src/utils/personalizedStories.js, kept under the `personalizedStories`
    storage key as an object from "level:lesson" keys to stories. The clock
    reading `Date.now()` is the parameter `now`. */
module PersonalizedStories {
  import opened JsStrings
  import opened JsValues

  /** `getStoryCacheKey(levelKey, lessonId)`: the level, a colon, and the
      lesson id ("" when it is `null` or `undefined`). */
  function GetStoryCacheKey(levelKey: JsValue, lessonId: JsValue): (r: string)
    ensures var l := ToJsString(levelKey); |r| > |l| && r[..|l|] == l && r[|l|] == ':'
    ensures IsNullish(lessonId) ==> r == ToJsString(levelKey) + ":"
  {
    ToJsString(levelKey) + ":" + (if IsNullish(lessonId) then "" else ToJsString(lessonId))
  }

  /** A missing lesson id gives the same key as the empty one. */
  lemma MissingLessonIdIsEmpty(levelKey: JsValue)
    ensures GetStoryCacheKey(levelKey, Null) == GetStoryCacheKey(levelKey, Undefined) == GetStoryCacheKey(levelKey, Str(""))
  {
  }

  /** When level keys have no colon (as "hsk1" to "hsk7-9" do not), a cache
      key determines its level and its lesson id text: different lessons never
      share a story. */
  lemma CacheKeySeparates(l1: JsValue, id1: JsValue, l2: JsValue, id2: JsValue)
    requires ':' !in ToJsString(l1) && ':' !in ToJsString(l2)
    requires GetStoryCacheKey(l1, id1) == GetStoryCacheKey(l2, id2)
    ensures ToJsString(l1) == ToJsString(l2)
    ensures (if IsNullish(id1) then "" else ToJsString(id1)) == (if IsNullish(id2) then "" else ToJsString(id2))
  {
    var a := ToJsString(l1);
    var b := ToJsString(l2);
    var k := GetStoryCacheKey(l1, id1);
    ColonSplit(a, b, k, if IsNullish(id1) then "" else ToJsString(id1), if IsNullish(id2) then "" else ToJsString(id2));
  }

  lemma ColonSplit(a: string, b: string, k: string, x: string, y: string)
    requires ':' !in a && ':' !in b
    requires k == a + ":" + x && k == b + ":" + y
    ensures a == b && x == y
  {
    FirstColonAfter(a, x);
    FirstColonAfter(b, y);
    assert a == k[..|a|] == b;
    assert x == k[|a| + 1..] == y;
  }

  /** The position of the first ':' in `s` (`|s|` when there is none). */
  function FirstColon(s: string): nat
  {
    if s == [] || s[0] == ':' then 0 else 1 + FirstColon(s[1..])
  }

  lemma {:induction false} FirstColonAfter(a: string, x: string)
    requires ':' !in a
    ensures FirstColon(a + ":" + x) == |a|
  {
    if a != [] {
      assert (a + ":" + x)[1..] == a[1..] + ":" + x;
      FirstColonAfter(a[1..], x);
    }
  }

  /** The own properties `{ ...v }` copies: an object's properties, an
      array's elements or a string's characters under their index, nothing
      for any other value. */
  function Spread(v: JsValue): (r: map<string, JsValue>)
    ensures v.Obj? ==> r == v.props
    ensures !v.Obj? && !v.Arr? && !v.Str? ==> r == map[]
  {
    match v
    case Obj(props) => props
    case Arr(es) => Indexed(es)
    case Str(s) => Indexed(seq(|s|, i requires 0 <= i < |s| => Str([s[i]])))
    case _ => map[]
  }

  /** Elements under the decimal form of their index. */
  function Indexed(es: seq<JsValue>): (r: map<string, JsValue>)
    ensures forall i :: 0 <= i < |es| ==> IntToString(i) in r && r[IntToString(i)] == es[i]
  {
    if es == [] then map[]
    else
      var n := |es| - 1;
      var r := Indexed(es[..n])[IntToString(n) := es[n]];
      assert forall i :: 0 <= i < n ==> IntToString(i) != IntToString(n) by {
        forall i | 0 <= i < n
          ensures IntToString(i) != IntToString(n)
        {
          ParseIntToString(i);
          ParseIntToString(n);
        }
      }
      r
  }

  /** The entry `saveStoryToCache` stores: the story's own properties with
      `cachedAt` set to the save time. */
  function CachedEntry(storyData: JsValue, now: int): (r: JsValue)
    ensures r.Obj? && "cachedAt" in r.props && r.props["cachedAt"] == Num(now)
    ensures storyData.Obj? ==> forall k :: k in storyData.props && k != "cachedAt" ==> k in r.props && r.props[k] == storyData.props[k]
    ensures storyData.Obj? ==> r.props.Keys == storyData.props.Keys + {"cachedAt"}
  {
    Obj(Spread(storyData)["cachedAt" := Num(now)])
  }

  /** The stories in storage. */
  class StoryCache {
    var stories: map<string, JsValue>

    constructor (saved: map<string, JsValue>)
      ensures stories == saved
    {
      stories := saved;
    }

    /** `getCachedStory(levelKey, lessonId)`: the stored story, or `null`. */
    function GetCachedStory(levelKey: JsValue, lessonId: JsValue): (r: JsValue)
      reads this
      ensures GetStoryCacheKey(levelKey, lessonId) !in stories ==> r == Null
      ensures GetStoryCacheKey(levelKey, lessonId) in stories && !IsNullish(stories[GetStoryCacheKey(levelKey, lessonId)]) ==>
                r == stories[GetStoryCacheKey(levelKey, lessonId)]
      ensures GetStoryCacheKey(levelKey, lessonId) in stories && IsNullish(stories[GetStoryCacheKey(levelKey, lessonId)]) ==>
                r == Null
    {
      StoredOrNull(stories, GetStoryCacheKey(levelKey, lessonId))
    }

    /** `saveStoryToCache(levelKey, lessonId, storyData)` at instant `now`:
        nothing for a falsy story; otherwise the story with `cachedAt` under
        its key, every other key kept. */
    method SaveStoryToCache(levelKey: JsValue, lessonId: JsValue, storyData: JsValue, now: int)
      modifies this
      ensures stories == SavedStories(old(stories), levelKey, lessonId, storyData, now)
    {
      if !Truthy(storyData) {
        return;
      }
      var key := GetStoryCacheKey(levelKey, lessonId);
      stories := stories[key := CachedEntry(storyData, now)];
    }
  }

  /** The stories after `saveStoryToCache(levelKey, lessonId, storyData)`
      at instant `now`: unchanged for a falsy story, else its entry under its
      key. */
  function SavedStories(stories: map<string, JsValue>, levelKey: JsValue, lessonId: JsValue, storyData: JsValue,
                        now: int): (r: map<string, JsValue>)
    ensures !Truthy(storyData) ==> r == stories
    ensures Truthy(storyData) ==> r == stories[GetStoryCacheKey(levelKey, lessonId) := CachedEntry(storyData, now)]
  {
    if !Truthy(storyData) then stories else stories[GetStoryCacheKey(levelKey, lessonId) := CachedEntry(storyData, now)]
  }

  /** After a save the same level and lesson read back the stored entry (for
      an object story: its properties plus `cachedAt`), and every other key
      reads back as before; a falsy story leaves every read as it was. */
  lemma SaveThenGetStory(stories: map<string, JsValue>, levelKey: JsValue, lessonId: JsValue, storyData: JsValue,
                         now: int, key: string)
    ensures var after := SavedStories(stories, levelKey, lessonId, storyData, now);
            (Truthy(storyData) ==> StoredOrNull(after, GetStoryCacheKey(levelKey, lessonId)) == CachedEntry(storyData, now))
            && (key != GetStoryCacheKey(levelKey, lessonId) || !Truthy(storyData) ==> StoredOrNull(after, key) == StoredOrNull(stories, key))
  {
  }
}
