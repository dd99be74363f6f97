/** The review session of src/components/SRSReview.jsx: the four rating
    buttons, the translation between the storage field names and the engine's,
    and the session state (`currentIndex`, `isFlipped`, `showRating`,
    `sessionComplete`) over a loaded due queue. Rendering is left out. */
module SrsReview {
  import opened Wrappers
  import opened SrsLogic
  import opened SrsData
  import JsMath

  /** `RATING_TO_QUALITY[rating] ?? 3`: again, hard, good, easy give 1, 2, 4, 5. */
  function RatingToQuality(rating: int): (q: int)
    ensures rating == 1 ==> q == 1
    ensures rating == 2 ==> q == 2
    ensures rating == 3 ==> q == 4
    ensures rating == 4 ==> q == 5
    ensures rating !in {1, 2, 3, 4} ==> q == 3
  {
    if rating == 1 then 1 else if rating == 2 then 2 else if rating == 3 then 4 else if rating == 4 then 5 else 3
  }

  /** The buttons never produce quality 3, and exactly "good" and "easy"
      count as recalled. */
  lemma ButtonsSplitLapseFromSuccess(rating: int)
    requires 1 <= rating <= 4
    ensures RatingToQuality(rating) != 3
    ensures RatingToQuality(rating) >= 3 <==> rating >= 3
  {
  }

  /** The engine's view of a stored card (defaults 2.5 / 0 / 0). */
  function ToEngineCard(c: SrsCard, now: int): (r: ReviewCard)
    ensures r.easinessFactor == Some(c.easiness.GetOr(2.5))
    ensures r.interval == Some(c.interval.GetOr(0)) && r.repetitions == Some(c.repetition.GetOr(0))
    ensures r.others == map[]
  {
    ReviewCard(Some(c.easiness.GetOr(2.5)), Some(c.interval.GetOr(0)), Some(c.repetition.GetOr(0)),
               Some(if c.lastReview.Some? && c.lastReview.value != 0 then c.lastReview.value else now),
               None, map[])
  }

  /** A freshly saved card reaches the engine scheduled, so the bounds of
      any run of reviews apply to it. */
  lemma NewCardIsScheduled(word: WordInput, lookupCount: int, loadTime: int, now: int)
    ensures Scheduled(ToEngineCard(NewCard(word, lookupCount, loadTime), now))
  {
  }

  /** The engine's result under the storage names. */
  function ToPatch(r: ReviewCard): CardPatch
  {
    CardPatch(r.easinessFactor, r.interval, r.repetitions, r.lastReview, r.nextReview)
  }

  /** What rating `rating` at instant `now` writes back for card `c`: the
      engine's step without friction, read from and written to the storage
      field names. */
  function ReviewPatch(c: SrsCard, rating: int, now: int): (p: CardPatch)
    ensures p.easiness.Some? && p.interval.Some? && p.repetition.Some?
    ensures p.easiness.value >= 1.3
    ensures p.easiness.value == Max(1.3, c.easiness.GetOr(2.5) + 0.19 * (RatingToQuality(rating) as real) - 0.79)
    ensures p.repetition.value == (if RatingToQuality(rating) < 3 then 0 else c.repetition.GetOr(0) + 1)
    ensures RatingToQuality(rating) < 3 ==> p.interval.value == 1
    ensures RatingToQuality(rating) >= 3 && c.repetition.GetOr(0) == 0 ==> p.interval.value == 1
    ensures RatingToQuality(rating) >= 3 && c.repetition.GetOr(0) == 1 ==> p.interval.value == 6
    ensures RatingToQuality(rating) >= 3 && c.repetition.GetOr(0) != 0 && c.repetition.GetOr(0) != 1 ==>
              p.interval.value == JsMath.Round(c.interval.GetOr(0) as real * p.easiness.value)
    ensures p.lastReview == Some(now)
    ensures p.nextReview == Some(now + p.interval.value * DayMs)
  {
    ToPatch(CalculateNextReview(ToEngineCard(c, now), RatingToQuality(rating), false, now))
  }

  class ReviewSession {
    const store: SrsStorage
    var selectedLevel: Option<string>
    var cards: seq<SrsCard>
    var currentIndex: int
    var isFlipped: bool
    var showRating: bool
    var sessionComplete: bool

    /** The index points at a card, or is 0 in an empty session. */
    predicate InRange()
      reads this
    {
      0 <= currentIndex && (cards != [] ==> currentIndex < |cards|)
    }

    constructor (store: SrsStorage)
      ensures this.store == store
      ensures selectedLevel == None && cards == [] && currentIndex == 0
      ensures !isFlipped && !showRating && !sessionComplete
      ensures InRange()
    {
      this.store := store;
      selectedLevel := None;
      cards := [];
      currentIndex := 0;
      isFlipped, showRating, sessionComplete := false, false, false;
    }

    /** Picking a level on the selection screen. */
    method SelectLevel(level: Option<string>)
      modifies this`selectedLevel
      ensures selectedLevel == level
    {
      selectedLevel := level;
    }

    /** `loadQueue()` at instant `now`: the level's due queue, from its first
        card, face down, with no rating shown and the session not complete.
        Without a selected level nothing happens. */
    method LoadQueue(now: int)
      modifies this`cards, this`currentIndex, this`isFlipped, this`showRating, this`sessionComplete
      ensures selectedLevel.None? ==>
                cards == old(cards) && currentIndex == old(currentIndex) && isFlipped == old(isFlipped)
                && showRating == old(showRating) && sessionComplete == old(sessionComplete)
      ensures selectedLevel.Some? ==>
                cards == store.GetDueQueue(TextLevel(selectedLevel.value), now)
                && currentIndex == 0 && !isFlipped && !showRating && !sessionComplete
      ensures selectedLevel.Some? ==> InRange()
    {
      if selectedLevel.None? {
        return;
      }
      cards := store.GetDueQueue(TextLevel(selectedLevel.value), now);
      currentIndex := 0;
      isFlipped := false;
      showRating := false;
      sessionComplete := false;
    }

    /** `handleFlip()`. */
    method HandleFlip()
      modifies this`isFlipped, this`showRating
      ensures isFlipped && showRating
    {
      isFlipped := true;
      showRating := true;
    }

    /** `handleRate(rating)` at instant `now`: writes the engine's result for
        the current card back to the store, then moves to the next card, or
        completes the session on the last one. Without a current card
        nothing happens. */
    method HandleRate(rating: int, now: int)
      requires store.Valid()
      modifies this`currentIndex, this`isFlipped, this`showRating, this`sessionComplete, store`cards
      ensures store.Valid()
      ensures !(0 <= old(currentIndex) < |cards|) ==>
                store.cards == old(store.cards) && currentIndex == old(currentIndex)
                && isFlipped == old(isFlipped) && showRating == old(showRating)
                && sessionComplete == old(sessionComplete)
      ensures 0 <= old(currentIndex) < |cards| ==>
                var c := cards[old(currentIndex)];
                (c.zh in old(store.cards) ==>
                   store.cards == old(store.cards)[c.zh := ApplyPatch(old(store.cards)[c.zh], ReviewPatch(c, rating, now))])
                && (c.zh !in old(store.cards) ==> store.cards == old(store.cards))
                && !isFlipped && !showRating
                && (old(currentIndex) < |cards| - 1 ==> currentIndex == old(currentIndex) + 1 && sessionComplete == old(sessionComplete))
                && (old(currentIndex) == |cards| - 1 ==> currentIndex == old(currentIndex) && sessionComplete)
      ensures old(InRange()) ==> InRange()
    {
      if !(0 <= currentIndex < |cards|) {
        return;
      }
      var current := cards[currentIndex];
      var patch := ReviewPatch(current, rating, now);
      store.UpdateSrsCard(current.zh, patch);
      showRating := false;
      isFlipped := false;
      if currentIndex < |cards| - 1 {
        currentIndex := currentIndex + 1;
      } else {
        sessionComplete := true;
      }
    }

    /** The "previous" button: one card back, never below the first. */
    method Prev()
      modifies this`currentIndex, this`isFlipped, this`showRating
      ensures currentIndex == (if old(currentIndex) - 1 < 0 then 0 else old(currentIndex) - 1)
      ensures currentIndex >= 0 && !isFlipped && !showRating
      ensures old(InRange()) ==> InRange()
    {
      currentIndex := if currentIndex - 1 < 0 then 0 else currentIndex - 1;
      isFlipped := false;
      showRating := false;
    }

    /** The "next" button: one card on, never past the last. */
    method Next()
      modifies this`currentIndex, this`isFlipped, this`showRating
      ensures currentIndex == (if |cards| - 1 < old(currentIndex) + 1 then |cards| - 1 else old(currentIndex) + 1)
      ensures currentIndex < |cards| || cards == []
      ensures !isFlipped && !showRating
      ensures old(InRange()) && cards != [] ==> InRange()
    {
      currentIndex := if |cards| - 1 < currentIndex + 1 then |cards| - 1 else currentIndex + 1;
      isFlipped := false;
      showRating := false;
    }
  }
}
