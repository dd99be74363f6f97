/** The card store of src/utils/srsData.js: level normalisation, lookup
    counters, idempotent card creation, merge-update, level filtering, the
    due queue and the three-bucket analytics. The two localStorage entries
    (`srsData`, `srsLookupCount`) are the fields of one `SrsStorage` object;
    instants are integer milliseconds and every clock reading is a
    parameter. */
module SrsData {
  import opened Wrappers
  import opened JsStrings

  /** A level label as it reaches `toHskLevelString`: missing (`null` /
      `undefined`), a string, or an integer. */
  datatype LevelTag = NoLevel | TextLevel(text: string) | NumericLevel(n: int)

  /** The canonical level keys. */
  const CanonicalLevels: set<string> := {"1", "2", "3", "4", "5", "6", "7-9"}

  predicate IsH(c: char) { c == 'h' || c == 'H' }
  predicate IsS(c: char) { c == 's' || c == 'S' }
  predicate IsK(c: char) { c == 'k' || c == 'K' }

  /** `s.replace(/^hsk/i, '')`. */
  function StripHskPrefix(s: string): (r: string)
    ensures |s| >= 3 && IsH(s[0]) && IsS(s[1]) && IsK(s[2]) ==> r == s[3..]
    ensures !(|s| >= 3 && IsH(s[0]) && IsS(s[1]) && IsK(s[2])) ==> r == s
  {
    if |s| >= 3 && IsH(s[0]) && IsS(s[1]) && IsK(s[2]) then s[3..] else s
  }

  /** The level of a parsed number: 7 and above is "7-9", 1..6 is that digit,
      anything else is "1". */
  function LevelOfNumber(n: int): (r: string)
    ensures r in CanonicalLevels
    ensures n >= 7 ==> r == "7-9"
    ensures 1 <= n <= 6 ==> r == [DigitChar(n)]
    ensures n < 1 ==> r == "1"
  {
    if n >= 7 then "7-9" else if 1 <= n <= 6 then IntToString(n) else "1"
  }

  /** The string branch of `toHskLevelString`. Lower-casing cannot create or
      destroy the characters '7', '-' and '9', so the source's
      `s.toLowerCase().includes('7-9')` is `includes` on `s` itself. */
  function TextLevelString(raw: string): string
  {
    var s := Trim(raw);
    if s == "hsk7-9" || s == "7-9" || s == "7–9" || Contains(s, "7-9") then "7-9"
    else
      var n := ParseDecimalInt(StripHskPrefix(s));
      if n.Some? then LevelOfNumber(n.value) else "1"
  }

  /** `toHskLevelString(level)`: every label lands on one of the seven
      canonical keys. */
  function ToHskLevelString(level: LevelTag): (r: string)
    ensures r in CanonicalLevels
    ensures level.NoLevel? ==> r == "1"
    ensures level.TextLevel? && (Contains(Trim(level.text), "7-9") || Trim(level.text) == "7–9") ==> r == "7-9"
    ensures level.TextLevel? && !Contains(Trim(level.text), "7-9") && Trim(level.text) != "7–9" ==>
              var n := ParseDecimalInt(StripHskPrefix(Trim(level.text)));
              r == (if n.Some? then LevelOfNumber(n.value) else "1")
    ensures level.NumericLevel? ==> r == LevelOfNumber(level.n)
  {
    match level
    case NoLevel => "1"
    case TextLevel(raw) =>
      SevenNineSpellings(Trim(raw));
      TextLevelString(raw)
    case NumericLevel(n) => LevelOfNumber(n)
  }

  /** The two exact spellings the source tests first are also caught by its
      `includes('7-9')` test. */
  lemma SevenNineSpellings(s: string)
    ensures s == "hsk7-9" || s == "7-9" ==> Contains(s, "7-9")
  {
    if s == "hsk7-9" {
      ContainsAt(s, "7-9", 3);
    } else if s == "7-9" {
      ContainsAt(s, "7-9", 0);
    }
  }

  /** A string without '-' does not contain "7-9". */
  lemma {:induction false} NoDashNoSevenNine(s: string)
    requires forall j :: 0 <= j < |s| ==> s[j] != '-'
    ensures !Contains(s, "7-9")
  {
    if |s| > 0 {
      NoDashNoSevenNine(s[1..]);
    }
    if |s| >= 3 {
      assert s[1] != '-';
      assert s[..3] != "7-9";
    }
  }

  /** A digit 1..6 normalises to itself. */
  lemma DigitParses(c: char)
    requires '1' <= c <= '6'
    ensures ParseDecimalInt([c]) == Some(DigitValue(c))
    ensures LevelOfNumber(DigitValue(c)) == [c]
  {
    var v := DigitValue(c);
    assert DigitChar(v) == c;
    assert NatToString(v) == [c];
    ParseNatural(v);
  }

  /** A digit 1..6, with or without a leading "hsk" in either case,
      normalises to that digit. */
  lemma DigitLevel(c: char, raw: string)
    requires '1' <= c <= '6'
    requires raw == [c] || raw == "hsk" + [c] || raw == "HSK" + [c]
    ensures ToHskLevelString(TextLevel(raw)) == [c]
  {
    DigitText(c, raw);
    ParsedTextLevel(raw, c);
  }

  /** The text of such a label is trimmed, lies outside the "7-9" branch,
      and strips to its digit. */
  lemma DigitText(c: char, raw: string)
    requires '1' <= c <= '6'
    requires raw == [c] || raw == "hsk" + [c] || raw == "HSK" + [c]
    ensures Trim(raw) == raw && !Contains(raw, "7-9") && raw != "7–9"
    ensures StripHskPrefix(raw) == [c]
  {
    assert raw[|raw| - 1] == c && !IsJsWhitespace(c);
    if raw == [c] {
      assert !IsJsWhitespace(raw[0]);
      assert StripHskPrefix(raw) == [c];
    } else {
      assert |raw| == 4 && raw[3..] == [c];
      assert !IsJsWhitespace(raw[0]);
      assert StripHskPrefix(raw) == [c];
    }
    TrimOfTrimmed(raw);
    assert forall j :: 0 <= j < |raw| ==> raw[j] != '-';
    NoDashNoSevenNine(raw);
    assert raw != "7–9" by {
      assert |raw| != 3;
    }
  }

  /** Trimmed text outside the "7-9" branch whose stripped form is a digit
      1..6 normalises to that digit. */
  lemma ParsedTextLevel(raw: string, c: char)
    requires '1' <= c <= '6'
    requires Trim(raw) == raw && !Contains(raw, "7-9") && raw != "7–9"
    requires StripHskPrefix(raw) == [c]
    ensures ToHskLevelString(TextLevel(raw)) == [c]
  {
    DigitParses(c);
  }

  /** "7-9", with or without a leading "hsk" in either case, normalises to
      "7-9". */
  lemma SevenNineLevel(raw: string)
    requires raw in {"7-9", "hsk7-9", "HSK7-9"}
    ensures ToHskLevelString(TextLevel(raw)) == "7-9"
  {
    if raw == "7-9" {
      SevenNineText(raw, 0);
    } else if raw == "hsk7-9" {
      SevenNineText(raw, 3);
    } else {
      SevenNineText(raw, 3);
    }
  }

  /** Trimmed text containing "7-9" at position `i` normalises to "7-9". */
  lemma SevenNineText(raw: string, i: nat)
    requires i + 3 <= |raw| && raw[i..i + 3] == "7-9"
    requires raw != [] && !IsJsWhitespace(raw[0]) && !IsJsWhitespace(raw[|raw| - 1])
    ensures ToHskLevelString(TextLevel(raw)) == "7-9"
  {
    TrimOfTrimmed(raw);
    ContainsAt(raw, "7-9", i);
  }

  /** Each canonical key is a fixed point of normalisation. */
  lemma CanonicalIsFixed(d: string)
    requires d in CanonicalLevels
    ensures ToHskLevelString(TextLevel(d)) == d
  {
    if d == "7-9" {
      SevenNineLevel(d);
    } else {
      assert d == [d[0]];
      DigitLevel(d[0], d);
    }
  }

  /** Normalisation is idempotent. */
  lemma ToHskLevelStringIdempotent(level: LevelTag)
    ensures ToHskLevelString(TextLevel(ToHskLevelString(level))) == ToHskLevelString(level)
  {
    CanonicalIsFixed(ToHskLevelString(level));
  }

  /** A word as the lesson screen hands it to `saveWordToSrs`. */
  datatype WordInput = WordInput(zh: string, pinyin: Option<string>, vi: Option<string>,
                                 en: Option<string>, hskLevel: LevelTag)

  /** A stored card, under the storage field names. */
  datatype SrsCard = SrsCard(
    zh: string, pinyin: string, vi: string, en: string,
    hskLevel: LevelTag, hsk_level: LevelTag,
    easiness: Option<real>, interval: Option<int>, repetition: Option<int>,
    nextReview: Option<int>, lastReview: Option<int>)

  /** The fields an update writes; `None` leaves a field as it is. */
  datatype CardPatch = CardPatch(easiness: Option<real>, interval: Option<int>, repetition: Option<int>,
                                 lastReview: Option<int>, nextReview: Option<int>)

  /** Lookups beyond this many mark a word as hard to remember. */
  const FrictionThreshold: int := 2

  /** The card `saveWordToSrs` creates. `loadTime` is the instant the module
      was loaded, when `DEFAULT_STATS.nextReview` was read. */
  function NewCard(word: WordInput, lookupCount: int, loadTime: int): (c: SrsCard)
    ensures c.zh == word.zh
    ensures c.pinyin == word.pinyin.GetOr("") && c.vi == word.vi.GetOr("") && c.en == word.en.GetOr("")
    ensures c.hskLevel == c.hsk_level == TextLevel(ToHskLevelString(word.hskLevel))
    ensures c.repetition == Some(0) && c.interval == Some(0)
    ensures c.easiness == Some(if lookupCount > FrictionThreshold then 2.2 else 2.5)
    ensures c.nextReview == Some(loadTime) && c.lastReview == None
  {
    var hasFriction := lookupCount > FrictionThreshold;
    var level := ToHskLevelString(word.hskLevel);
    var easiness := if hasFriction then MathMax(1.3, 2.5 - 0.3) else 2.5;
    SrsCard(word.zh, word.pinyin.GetOr(""), word.vi.GetOr(""), word.en.GetOr(""),
            TextLevel(level), TextLevel(level),
            Some(easiness), Some(0), Some(0), Some(loadTime), None)
  }

  /** `Math.max(a, b)`. */
  function MathMax(a: real, b: real): real
  {
    if a >= b then a else b
  }

  /** `{ ...card, ...patch }`. */
  function ApplyPatch(c: SrsCard, p: CardPatch): (r: SrsCard)
    ensures r.zh == c.zh && r.pinyin == c.pinyin && r.vi == c.vi && r.en == c.en
    ensures r.hskLevel == c.hskLevel && r.hsk_level == c.hsk_level
    ensures r.easiness == (if p.easiness.Some? then p.easiness else c.easiness)
    ensures r.interval == (if p.interval.Some? then p.interval else c.interval)
    ensures r.repetition == (if p.repetition.Some? then p.repetition else c.repetition)
    ensures r.lastReview == (if p.lastReview.Some? then p.lastReview else c.lastReview)
    ensures r.nextReview == (if p.nextReview.Some? then p.nextReview else c.nextReview)
  {
    c.(easiness := if p.easiness.Some? then p.easiness else c.easiness,
       interval := if p.interval.Some? then p.interval else c.interval,
       repetition := if p.repetition.Some? then p.repetition else c.repetition,
       lastReview := if p.lastReview.Some? then p.lastReview else c.lastReview,
       nextReview := if p.nextReview.Some? then p.nextReview else c.nextReview)
  }

  /** The level `getCardsByLevel` compares against: labels starting with
      "hsk" (lower case) lose that prefix literally, "hsk7-9" becomes "7-9",
      everything else is normalised. */
  function QueryTarget(level: LevelTag): string
  {
    match level
    case NoLevel => "1"
    case TextLevel(s) =>
      if "hsk" <= s then (if s == "hsk7-9" then "7-9" else s[3..])
      else ToHskLevelString(level)
    case NumericLevel(_) => ToHskLevelString(level)
  }

  /** The normalised level of a stored card (`hskLevel ?? hsk_level`). */
  function CardLevel(c: SrsCard): string
  {
    ToHskLevelString(if c.hskLevel.NoLevel? then c.hsk_level else c.hskLevel)
  }

  /** The due instant; a missing (or zero) `nextReview` counts as 0. */
  function NextReviewMs(c: SrsCard): int
  {
    if c.nextReview.Some? then c.nextReview.value else 0
  }

  /** A card is due when its instant has come or it was never reviewed. */
  predicate IsDue(c: SrsCard, now: int)
  {
    NextReviewMs(c) <= now || c.repetition.GetOr(0) == 0
  }

  datatype Bucket = New | Learning | Mastered

  /** The progress bucket: never reviewed, reviewed and due again, or
      reviewed and not yet due. */
  function BucketOf(c: SrsCard, now: int): Bucket
  {
    if c.repetition.GetOr(0) == 0 then New
    else if NextReviewMs(c) <= now then Learning
    else Mastered
  }

  /** `cs.filter(keep)`: the cards `keep` accepts, in their order. */
  function FilterBy(cs: seq<SrsCard>, keep: SrsCard -> bool): (r: seq<SrsCard>)
    ensures |r| <= |cs|
  {
    if cs == [] then []
    else (if keep(cs[0]) then [cs[0]] else []) + FilterBy(cs[1..], keep)
  }

  /** A filter keeps exactly the accepted cards. */
  lemma {:induction false} FilterByMembers(cs: seq<SrsCard>, keep: SrsCard -> bool)
    ensures forall c :: c in FilterBy(cs, keep) <==> c in cs && keep(c)
  {
    if cs != [] {
      FilterByMembers(cs[1..], keep);
      assert cs == [cs[0]] + cs[1..];
    }
  }

  /** A filter keeps the order: the filter of a concatenation is the
      concatenation of the filters. */
  lemma {:induction false} FilterByAppend(a: seq<SrsCard>, b: seq<SrsCard>, keep: SrsCard -> bool)
    ensures FilterBy(a + b, keep) == FilterBy(a, keep) + FilterBy(b, keep)
  {
    if a != [] {
      assert (a + b)[0] == a[0];
      assert (a + b)[1..] == a[1..] + b;
      FilterByAppend(a[1..], b, keep);
    } else {
      assert a + b == b;
    }
  }

  /** The level test of `getCardsByLevel`. */
  function LevelIs(target: string): SrsCard -> bool
  {
    c => CardLevel(c) == target
  }

  /** The due test of `getDueQueue` at instant `now`. */
  function DueAt(now: int): SrsCard -> bool
  {
    c => IsDue(c, now)
  }

  /** The cards of `cs` whose level is `target`, in their order. */
  function FilterLevel(cs: seq<SrsCard>, target: string): seq<SrsCard>
  {
    FilterBy(cs, LevelIs(target))
  }

  /** Level filtering keeps exactly the cards whose level is the target. */
  lemma FilterLevelMembers(cs: seq<SrsCard>, target: string)
    ensures forall c :: c in FilterLevel(cs, target) <==> c in cs && CardLevel(c) == target
  {
    FilterByMembers(cs, LevelIs(target));
  }

  /** Level filtering keeps store order. */
  lemma FilterLevelAppend(a: seq<SrsCard>, b: seq<SrsCard>, target: string)
    ensures FilterLevel(a + b, target) == FilterLevel(a, target) + FilterLevel(b, target)
  {
    FilterByAppend(a, b, LevelIs(target));
  }

  /** The due cards of `cs`, in their order. */
  function FilterDue(cs: seq<SrsCard>, now: int): seq<SrsCard>
  {
    FilterBy(cs, DueAt(now))
  }

  /** Due filtering keeps exactly the due cards. */
  lemma FilterDueMembers(cs: seq<SrsCard>, now: int)
    ensures forall c :: c in FilterDue(cs, now) <==> c in cs && IsDue(c, now)
  {
    FilterByMembers(cs, DueAt(now));
  }

  /** Due filtering keeps store order. */
  lemma FilterDueAppend(a: seq<SrsCard>, b: seq<SrsCard>, now: int)
    ensures FilterDue(a + b, now) == FilterDue(a, now) + FilterDue(b, now)
  {
    FilterByAppend(a, b, DueAt(now));
  }

  /** The number of cards of `cs` in bucket `b`. */
  function CountBucket(cs: seq<SrsCard>, b: Bucket, now: int): nat
  {
    if cs == [] then 0
    else CountBucket(cs[..|cs| - 1], b, now) + (if BucketOf(cs[|cs| - 1], now) == b then 1 else 0)
  }

  /** The three buckets split every card list exactly, and the new and
      learning cards are exactly the due ones. */
  lemma {:induction false} BucketsPartition(cs: seq<SrsCard>, now: int)
    ensures CountBucket(cs, New, now) + CountBucket(cs, Learning, now) + CountBucket(cs, Mastered, now) == |cs|
    ensures CountBucket(cs, New, now) + CountBucket(cs, Learning, now) == |FilterDue(cs, now)|
  {
    if cs != [] {
      var init := cs[..|cs| - 1];
      var last := cs[|cs| - 1];
      BucketsPartition(init, now);
      assert cs == init + [last];
      FilterDueAppend(init, [last], now);
    }
  }

  lemma CountBucketStep(cs: seq<SrsCard>, i: nat, now: int)
    requires i < |cs|
    ensures var b := BucketOf(cs[i], now);
            CountBucket(cs[..i + 1], b, now) == CountBucket(cs[..i], b, now) + 1
            && forall other :: other != b ==> CountBucket(cs[..i + 1], other, now) == CountBucket(cs[..i], other, now)
  {
    assert cs[..i + 1][..i] == cs[..i];
  }

  datatype Analytics = Analytics(newCards: nat, learning: nat, mastered: nat, total: nat)

  /** The cards of `cards` in the order of `keys`, skipping keys it lacks
      (JavaScript's `Object.values`). */
  function ValuesOf(keys: seq<string>, cards: map<string, SrsCard>): seq<SrsCard>
  {
    if keys == [] then []
    else
      var last := keys[|keys| - 1];
      ValuesOf(keys[..|keys| - 1], cards) + (if last in cards then [cards[last]] else [])
  }

  lemma {:induction false} ValuesOfOtherKey(keys: seq<string>, cards: map<string, SrsCard>, k: string, c: SrsCard)
    requires k !in keys
    ensures ValuesOf(keys, cards[k := c]) == ValuesOf(keys, cards)
  {
    if keys != [] {
      ValuesOfOtherKey(keys[..|keys| - 1], cards, k, c);
    }
  }

  /** Storing a card under a new key keeps the shape and lists that card
      last. */
  lemma StoreNewKey(order: seq<string>, cards: map<string, SrsCard>, k: string, c: SrsCard)
    requires StoreShape(order, cards) && k !in cards
    ensures StoreShape(order + [k], cards[k := c])
    ensures ValuesOf(order + [k], cards[k := c]) == ValuesOf(order, cards) + [c]
  {
    ValuesOfOtherKey(order, cards, k, c);
    assert (order + [k])[..|order|] == order;
  }

  /** No key occurs twice in `order`, and `order` lists exactly the stored keys. */
  ghost predicate StoreShape(order: seq<string>, cards: map<string, SrsCard>)
  {
    (forall i, j :: 0 <= i < j < |order| ==> order[i] != order[j])
    && (forall k :: k in cards <==> k in order)
  }

  class SrsStorage {
    /** The `srsData` entry: cards by key. */
    var cards: map<string, SrsCard>
    /** The order `Object.values` lists the keys in (insertion order). */
    var order: seq<string>
    /** The `srsLookupCount` entry. */
    var lookupCounts: map<string, int>

    ghost predicate Valid()
      reads this
    {
      StoreShape(order, cards)
    }

    constructor (initialCards: map<string, SrsCard>, initialOrder: seq<string>, initialCounts: map<string, int>)
      requires StoreShape(initialOrder, initialCards)
      ensures Valid()
      ensures cards == initialCards && order == initialOrder && lookupCounts == initialCounts
    {
      cards := initialCards;
      order := initialOrder;
      lookupCounts := initialCounts;
    }

    /** `getLookupCount(zh)`: the stored count, 0 when there is none. */
    function GetLookupCount(zh: string): (r: int)
      reads this
      ensures zh in lookupCounts ==> r == lookupCounts[zh]
      ensures r != 0 ==> zh in lookupCounts
    {
      if zh in lookupCounts then lookupCounts[zh] else 0
    }

    /** `incrementLookupCount(zh)`: one more lookup of `zh` and no other change. */
    method IncrementLookupCount(zh: string) returns (count: int)
      modifies this`lookupCounts
      ensures count == old(GetLookupCount(zh)) + 1
      ensures lookupCounts == old(lookupCounts)[zh := count]
      ensures GetLookupCount(zh) == count
      ensures forall k :: k != zh ==> GetLookupCount(k) == old(GetLookupCount(k))
    {
      count := GetLookupCount(zh) + 1;
      lookupCounts := lookupCounts[zh := count];
    }

    /** `isWordInSrs(zh)`. */
    function IsWordInSrs(zh: string): (r: bool)
      reads this
      ensures Valid() ==> (r <==> zh in order)
      ensures r <==> zh in cards
    {
      zh in cards
    }

    /** All stored cards in store order. */
    function Values(): seq<SrsCard>
      reads this
    {
      ValuesOf(order, cards)
    }

    /** `saveWordToSrs(word)`: creates the card once; a second save of the
        same key reports false and changes nothing. */
    method SaveWordToSrs(word: WordInput, loadTime: int) returns (added: bool)
      requires Valid()
      modifies this`cards, this`order
      ensures Valid()
      ensures added == (word.zh !in old(cards))
      ensures IsWordInSrs(word.zh)
      ensures !added ==> cards == old(cards) && order == old(order)
      ensures added ==>
                cards == old(cards)[word.zh := NewCard(word, old(GetLookupCount(word.zh)), loadTime)]
                && order == old(order) + [word.zh]
                && Values() == old(Values()) + [NewCard(word, old(GetLookupCount(word.zh)), loadTime)]
    {
      var key := word.zh;
      if key in cards {
        return false;
      }
      var card := NewCard(word, GetLookupCount(key), loadTime);
      StoreNewKey(order, cards, key, card);
      cards := cards[key := card];
      order := order + [key];
      added := true;
    }

    /** `updateSrsCard(zh, patch)`: overwrites the patched fields of that one
        card; an absent key changes nothing. */
    method UpdateSrsCard(zh: string, patch: CardPatch)
      requires Valid()
      modifies this`cards
      ensures Valid()
      ensures zh !in old(cards) ==> cards == old(cards)
      ensures zh in old(cards) ==> cards == old(cards)[zh := ApplyPatch(old(cards)[zh], patch)]
      ensures forall k :: IsWordInSrs(k) == old(IsWordInSrs(k))
    {
      if zh !in cards {
        return;
      }
      cards := cards[zh := ApplyPatch(cards[zh], patch)];
    }

    /** `getCardsByLevel(level)`: the stored cards whose normalised level is
        the query's target, in store order. */
    function GetCardsByLevel(level: LevelTag): (r: seq<SrsCard>)
      reads this
      ensures forall c :: c in r <==> c in Values() && CardLevel(c) == QueryTarget(level)
    {
      FilterLevelMembers(Values(), QueryTarget(level));
      FilterLevel(Values(), QueryTarget(level))
    }

    /** `getDueQueue(level)` at instant `now`: exactly the level's cards that
        are due, in store order. */
    function GetDueQueue(level: LevelTag, now: int): (r: seq<SrsCard>)
      reads this
      ensures forall c :: c in r <==> c in GetCardsByLevel(level) && IsDue(c, now)
      ensures |r| <= |GetCardsByLevel(level)|
    {
      FilterDueMembers(GetCardsByLevel(level), now);
      FilterDue(GetCardsByLevel(level), now)
    }

    /** `getSrsAnalytics(level)` at instant `now`: the bucket counts of the
        level's cards, which add up to its size, new and learning together
        being its due queue. */
    method GetSrsAnalytics(level: LevelTag, now: int) returns (a: Analytics)
      ensures a.newCards == CountBucket(GetCardsByLevel(level), New, now)
      ensures a.learning == CountBucket(GetCardsByLevel(level), Learning, now)
      ensures a.mastered == CountBucket(GetCardsByLevel(level), Mastered, now)
      ensures a.total == |GetCardsByLevel(level)|
      ensures a.newCards + a.learning + a.mastered == a.total
      ensures a.newCards + a.learning == |GetDueQueue(level, now)|
    {
      var cs := GetCardsByLevel(level);
      var newCards, learning, mastered := 0, 0, 0;
      var i := 0;
      while i < |cs|
        invariant 0 <= i <= |cs|
        invariant newCards == CountBucket(cs[..i], New, now)
        invariant learning == CountBucket(cs[..i], Learning, now)
        invariant mastered == CountBucket(cs[..i], Mastered, now)
      {
        var c := cs[i];
        var nextReview := if c.nextReview.Some? then c.nextReview.value else 0;
        var repetition := c.repetition.GetOr(0);
        CountBucketStep(cs, i, now);
        if repetition == 0 {
          assert BucketOf(c, now) == New;
          newCards := newCards + 1;
        } else if nextReview <= now {
          assert BucketOf(c, now) == Learning;
          learning := learning + 1;
        } else {
          assert BucketOf(c, now) == Mastered;
          mastered := mastered + 1;
        }
        assert newCards == CountBucket(cs[..i + 1], New, now);
        assert learning == CountBucket(cs[..i + 1], Learning, now);
        assert mastered == CountBucket(cs[..i + 1], Mastered, now);
        i := i + 1;
      }
      assert cs[..i] == cs;
      BucketsPartition(cs, now);
      a := Analytics(newCards, learning, mastered, |cs|);
    }
  }

  /** A card saved under "hskN" (or "HSKN", or the bare "N") is listed by a
      query for "hskN" and by one for "N"; for N = "7-9" these are the
      spellings "hsk7-9", "HSK7-9" and "7-9". */
  lemma SavedLevelIsQueried(d: string, word: WordInput, lookupCount: int, loadTime: int, stored: seq<SrsCard>)
    requires d in CanonicalLevels
    requires word.hskLevel == TextLevel("hsk" + d) || word.hskLevel == TextLevel("HSK" + d)
             || word.hskLevel == TextLevel(d)
    ensures var c := NewCard(word, lookupCount, loadTime);
            c in FilterLevel(stored + [c], QueryTarget(TextLevel("hsk" + d)))
            && c in FilterLevel(stored + [c], QueryTarget(TextLevel(d)))
  {
    var c := NewCard(word, lookupCount, loadTime);
    PrefixedLevel(d, word.hskLevel.text);
    CanonicalIsFixed(d);
    assert CardLevel(c) == d;
    QueryTargets(d);
    assert c in stored + [c];
    FilterLevelMembers(stored + [c], d);
  }

  /** The queries "hskN" and "N" both target N. */
  lemma QueryTargets(d: string)
    requires d in CanonicalLevels
    ensures QueryTarget(TextLevel("hsk" + d)) == d
    ensures QueryTarget(TextLevel(d)) == d
  {
    QueryTargetPrefixed(d);
    QueryTargetPlain(d);
  }

  /** A canonical key queried on its own targets itself. */
  lemma QueryTargetPlain(d: string)
    requires d in CanonicalLevels
    ensures QueryTarget(TextLevel(d)) == d
  {
    assert !("hsk" <= d) by {
      assert d[0] != 'h';
    }
    CanonicalIsFixed(d);
  }

  lemma QueryTargetPrefixed(d: string)
    requires d in CanonicalLevels
    ensures QueryTarget(TextLevel("hsk" + d)) == d
  {
    var q := "hsk" + d;
    assert q[..3] == "hsk" && q[3..] == d;
    if d == "7-9" {
      assert q == "hsk7-9";
    } else {
      assert q != "hsk7-9" by {
        assert |q| == 4;
      }
    }
  }

  /** Normalising "hskN", "HSKN" or "N" gives N. */
  lemma PrefixedLevel(d: string, raw: string)
    requires d in CanonicalLevels
    requires raw == "hsk" + d || raw == "HSK" + d || raw == d
    ensures ToHskLevelString(TextLevel(raw)) == d
  {
    if d == "7-9" {
      assert "hsk" + d == "hsk7-9" && "HSK" + d == "HSK7-9";
      SevenNineLevel(raw);
    } else {
      assert d == [d[0]];
      DigitLevel(d[0], raw);
    }
  }

  /** Saving the same word twice leaves one card for it, the second save
      reporting failure. */
  method SaveTwice(store: SrsStorage, word: WordInput, loadTime: int) returns (first: bool, second: bool)
    requires store.Valid()
    modifies store`cards, store`order
    ensures store.Valid()
    ensures !second && word.zh in store.cards
    ensures first == (word.zh !in old(store.cards))
    ensures |store.order| == |old(store.order)| + (if first then 1 else 0)
  {
    first := store.SaveWordToSrs(word, loadTime);
    second := store.SaveWordToSrs(word, loadTime);
  }
}
