/** The review engine of src/utils/srsLogic.js: a SuperMemo-2 variant with an
    optional friction penalty. Easiness is an exact real, intervals are whole
    days and instants are integer milliseconds; the clock reading is the
    parameter `now`. */
module SrsLogic {
  import opened Wrappers
  import opened JsValues
  import JsMath

  /** One day in milliseconds (24 * 60 * 60 * 1000). */
  const DayMs: int := 86400000

  const DefaultEasiness: real := 2.5
  const MinEasiness: real := 1.3
  const FrictionPenalty: real := 0.3

  /** A card as the engine reads and writes it: the five scheduling fields,
      each possibly absent, and every other field the caller's object has. */
  datatype ReviewCard = ReviewCard(
    easinessFactor: Option<real>,
    interval: Option<int>,
    repetitions: Option<int>,
    lastReview: Option<int>,
    nextReview: Option<int>,
    others: map<string, JsValue>)

  function Max(a: real, b: real): real
  {
    if a >= b then a else b
  }

  /** The easiness the update starts from: the stored one, or 2.5 when the
      card has none, first lowered by 0.3 (not below 1.3) under friction. */
  function StartEasiness(card: ReviewCard, friction: bool): real
  {
    var ef := card.easinessFactor.GetOr(DefaultEasiness);
    if friction then Max(MinEasiness, ef - FrictionPenalty) else ef
  }

  /** The SM-2 easiness step as the source writes it, with its floor. */
  function UpdatedEasiness(ef: real, quality: int): real
  {
    var q := quality as real;
    var e := ef - 0.8 + 0.2 * q + 0.01 * (1.0 - q);
    if e < MinEasiness then MinEasiness else e
  }

  /** The lapse / success interval rules; `ef` is the already updated
      easiness and `interval` the previous interval. */
  function NextRepetitionsAndInterval(repetitions: int, interval: int, ef: real, quality: int,
                                      friction: bool): (int, int)
  {
    if quality < 3 then (0, 1)
    else
      var reps := repetitions + 1;
      if reps == 1 then (reps, if friction then 1 else 1)
      else if reps == 2 then (reps, if friction then 3 else 6)
      else (reps, JsMath.Round(interval as real * ef))
  }

  /** `calculateNextReview(card, quality, { friction })` read at instant `now`. */
  function CalculateNextReview(card: ReviewCard, quality: int, friction: bool, now: int): (r: ReviewCard)
    // every scheduling field is present afterwards, the rest is carried over
    ensures r.easinessFactor.Some? && r.interval.Some? && r.repetitions.Some?
    ensures r.others == card.others
    // easiness: EF0 + 0.19q - 0.79, floored at 1.3 (EF0 = the penalised start)
    ensures r.easinessFactor.value >= MinEasiness
    ensures r.easinessFactor.value == Max(MinEasiness, StartEasiness(card, friction) + 0.19 * (quality as real) - 0.79)
    ensures friction ==> StartEasiness(card, friction) == Max(MinEasiness, card.easinessFactor.GetOr(2.5) - 0.3)
    // a lapse restarts the card one day out
    ensures quality < 3 ==> r.repetitions.value == 0 && r.interval.value == 1
    // a success counts one more repetition and spaces 1, 6 (3 under friction), then interval * EF
    ensures quality >= 3 ==> r.repetitions.value == card.repetitions.GetOr(0) + 1
    ensures quality >= 3 && r.repetitions.value == 1 ==> r.interval.value == 1
    ensures quality >= 3 && r.repetitions.value == 2 ==> r.interval.value == (if friction then 3 else 6)
    ensures quality >= 3 && r.repetitions.value != 1 && r.repetitions.value != 2 ==>
              r.interval.value == JsMath.Round(card.interval.GetOr(0) as real * r.easinessFactor.value)
    // reviewed now, due again `interval` whole days later
    ensures r.lastReview == Some(now)
    ensures r.nextReview == Some(now + r.interval.value * DayMs)
  {
    var ef := UpdatedEasiness(StartEasiness(card, friction), quality);
    var (reps, interval) := NextRepetitionsAndInterval(card.repetitions.GetOr(0), card.interval.GetOr(0), ef, quality, friction);
    card.(easinessFactor := Some(ef), interval := Some(interval), repetitions := Some(reps),
          lastReview := Some(now), nextReview := Some(now + interval * DayMs))
  }

  /** A better answer never yields a lower easiness. */
  lemma EasinessMonotoneInQuality(card: ReviewCard, q1: int, q2: int, friction: bool, n1: int, n2: int)
    requires q1 <= q2
    ensures CalculateNextReview(card, q1, friction, n1).easinessFactor.value
            <= CalculateNextReview(card, q2, friction, n2).easinessFactor.value
  {
    var e := StartEasiness(card, friction);
    assert e + 0.19 * (q1 as real) - 0.79 <= e + 0.19 * (q2 as real) - 0.79;
  }

  /** From the third success on the interval never shrinks (easiness is at
      least 1.3), and from an interval of 2 days on it strictly grows. */
  lemma IntervalGrowsOnSuccess(card: ReviewCard, quality: int, friction: bool, now: int)
    requires quality >= 3 && card.repetitions.GetOr(0) + 1 >= 3
    requires card.interval.GetOr(0) >= 0
    ensures var r := CalculateNextReview(card, quality, friction, now);
            r.interval.value >= card.interval.GetOr(0)
            && (card.interval.GetOr(0) >= 2 ==> r.interval.value > card.interval.GetOr(0))
  {
    var r := CalculateNextReview(card, quality, friction, now);
    var i := card.interval.GetOr(0);
    var ef := r.easinessFactor.value;
    var x := i as real * ef;
    ScaledByEasiness(i as real, ef);
    JsMath.RoundMonotone(i as real, x);
    JsMath.RoundOfInteger(i);
    if i >= 2 {
      JsMath.RoundMonotone(i as real + 0.6, x);
      assert JsMath.Round(i as real + 0.6) == i + 1;
    }
  }

  /** An easiness of at least 1.3 never shrinks a non-negative interval, and
      grows one of at least 2 days by at least 0.6. */
  lemma ScaledByEasiness(i: real, ef: real)
    requires i >= 0.0 && ef >= MinEasiness
    ensures i <= i * ef
    ensures i >= 2.0 ==> i + 0.6 <= i * ef
  {
    assert i * ef - i * MinEasiness == i * (ef - MinEasiness);
    assert i * (ef - MinEasiness) >= 0.0;
    assert i * ef >= i + 0.3 * i;
  }

  /** The state a card reaches under a sequence of ratings, the i-th rating
      given at instant `times[i]`. */
  function ReviewAll(card: ReviewCard, qualities: seq<int>, times: seq<int>, friction: bool): ReviewCard
    requires |qualities| == |times|
    decreases |qualities|
  {
    if qualities == [] then card
    else ReviewAll(CalculateNextReview(card, qualities[0], friction, times[0]), qualities[1..], times[1..], friction)
  }

  /** The scheduler's running invariant: a card either has never succeeded
      (no repetitions, no interval yet) or has an interval of at least a day. */
  predicate Scheduled(card: ReviewCard)
  {
    var reps := card.repetitions.GetOr(0);
    var interval := card.interval.GetOr(0);
    (reps == 0 && interval >= 0) || (reps >= 1 && interval >= 1)
  }

  /** One review keeps `Scheduled`, and afterwards the card is due strictly
      in the future. */
  lemma ReviewKeepsScheduled(card: ReviewCard, quality: int, friction: bool, now: int)
    requires Scheduled(card)
    ensures var r := CalculateNextReview(card, quality, friction, now);
            Scheduled(r) && r.interval.value >= 1 && r.nextReview.value > now
  {
    var r := CalculateNextReview(card, quality, friction, now);
    if quality >= 3 && r.repetitions.value >= 3 {
      IntervalGrowsOnSuccess(card, quality, friction, now);
    }
  }

  /** Over any sequence of reviews starting from a freshly created or a
      scheduled card, easiness stays at or above 1.3 and the interval at or
      above one day. */
  lemma {:induction false} ReviewAllBounds(card: ReviewCard, qualities: seq<int>, times: seq<int>, friction: bool)
    requires |qualities| == |times| > 0
    requires Scheduled(card)
    ensures var r := ReviewAll(card, qualities, times, friction);
            Scheduled(r) && r.easinessFactor.Some? && r.easinessFactor.value >= MinEasiness
            && r.interval.Some? && r.interval.value >= 1
            && r.nextReview.Some? && r.nextReview.value > times[|times| - 1]
    decreases |qualities|
  {
    var next := CalculateNextReview(card, qualities[0], friction, times[0]);
    ReviewKeepsScheduled(card, qualities[0], friction, times[0]);
    if |qualities| > 1 {
      ReviewAllBounds(next, qualities[1..], times[1..], friction);
      assert times[1..][|times[1..]| - 1] == times[|times| - 1];
    }
  }

  /** A new card rated "good" (4) becomes due one day later; its easiness
      drops by 0.03 (this variant's step at quality 4 is -0.03, not 0). */
  lemma FirstGoodReview(now: int)
    ensures var r := CalculateNextReview(ReviewCard(Some(2.5), Some(0), Some(0), None, None, map[]), 4, false, now);
            r.repetitions == Some(1) && r.interval == Some(1) && r.nextReview == Some(now + DayMs)
            && r.easinessFactor == Some(2.47)
  {
  }

  /** Rated "easy" (5) next, it is due again six days later. */
  lemma SecondEasyReview(now: int, later: int)
    ensures var first := CalculateNextReview(ReviewCard(Some(2.5), Some(0), Some(0), None, None, map[]), 4, false, now);
            var r := CalculateNextReview(first, 5, false, later);
            r.repetitions == Some(2) && r.interval == Some(6) && r.easinessFactor == Some(2.63)
  {
  }

  /** A card at three repetitions, six days and easiness 2.5, rated 4, moves
      to easiness 2.47 and round(6 * 2.47) = round(14.82) = 15 days. */
  lemma ThirdGoodReview(now: int)
    ensures var r := CalculateNextReview(ReviewCard(Some(2.5), Some(6), Some(3), None, None, map[]), 4, false, now);
            r.repetitions == Some(4) && r.easinessFactor == Some(2.47) && r.interval == Some(15)
  {
    assert JsMath.Round(6.0 * 2.47) == 15;
  }
}
