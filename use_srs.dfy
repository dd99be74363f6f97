/** The per-lesson vocabulary of src/hooks/useSRS.js: for each lesson id a
    map from word id to the engine's card, updated by the engine and read
    back by lesson and word. Loading from and saving to local storage is
    left out; the state starts from whatever was saved. */
module UseSrs {
  import opened Wrappers
  import opened SrsLogic

  type Vocabulary = map<string, map<string, ReviewCard>>

  /** The card a word gets before its first rating: easiness 2.5, no
      interval or repetitions yet, never reviewed, due now. */
  function DefaultCard(now: int): (c: ReviewCard)
    ensures Scheduled(c) && c.nextReview == Some(now) && c.lastReview == None
  {
    ReviewCard(Some(2.5), Some(0), Some(0), None, Some(now), map[])
  }

  /** The card stored for word `w` of lesson `l`, if any. */
  function Lookup(vocab: Vocabulary, l: string, w: string): Option<ReviewCard>
  {
    if l in vocab && w in vocab[l] then Some(vocab[l][w]) else None
  }

  /** The state updater `updateCard` hands to React: the word's card (or the
      default one) goes through the engine, without friction, at `now`;
      every other lesson and every other word of the lesson is kept. */
  function UpdatedVocabulary(vocab: Vocabulary, l: string, w: string, quality: int, now: int): (r: Vocabulary)
    ensures r.Keys == vocab.Keys + {l}
    ensures r[l].Keys == (if l in vocab then vocab[l].Keys else {}) + {w}
    ensures r[l][w] == CalculateNextReview(Lookup(vocab, l, w).GetOr(DefaultCard(now)), quality, false, now)
    ensures forall l' :: l' in vocab && l' != l ==> r[l'] == vocab[l']
    ensures forall w' :: l in vocab && w' in vocab[l] && w' != w ==> r[l][w'] == vocab[l][w']
  {
    var lesson := if l in vocab then vocab[l] else map[];
    var current := if w in lesson then lesson[w] else DefaultCard(now);
    vocab[l := lesson[w := CalculateNextReview(current, quality, false, now)]]
  }

  /** After an update the word reads back as the engine's result, and every
      other (lesson, word) pair reads back as before. */
  lemma UpdateThenLookup(vocab: Vocabulary, l: string, w: string, quality: int, now: int, l': string, w': string)
    ensures var r := UpdatedVocabulary(vocab, l, w, quality, now);
            Lookup(r, l, w) == Some(CalculateNextReview(Lookup(vocab, l, w).GetOr(DefaultCard(now)), quality, false, now))
            && ((l', w') != (l, w) ==> Lookup(r, l', w') == Lookup(vocab, l', w'))
  {
  }

  /** A word's first update, rated 3 or better, leaves it with one
      repetition and due one day after `now`; rated below 3 it is also due
      one day later, with no repetitions. */
  lemma FirstUpdate(vocab: Vocabulary, l: string, w: string, quality: int, now: int)
    requires Lookup(vocab, l, w).None?
    ensures var c := UpdatedVocabulary(vocab, l, w, quality, now)[l][w];
            c.interval == Some(1) && c.nextReview == Some(now + DayMs) && c.lastReview == Some(now)
            && c.repetitions == Some(if quality >= 3 then 1 else 0)
  {
  }

  /** If every stored card is `Scheduled`, an update keeps it so. */
  lemma UpdateKeepsScheduled(vocab: Vocabulary, l: string, w: string, quality: int, now: int)
    requires forall l', w' :: Lookup(vocab, l', w').Some? ==> Scheduled(Lookup(vocab, l', w').value)
    ensures var r := UpdatedVocabulary(vocab, l, w, quality, now);
            forall l', w' :: Lookup(r, l', w').Some? ==> Scheduled(Lookup(r, l', w').value)
  {
    var r := UpdatedVocabulary(vocab, l, w, quality, now);
    var start := Lookup(vocab, l, w).GetOr(DefaultCard(now));
    ReviewKeepsScheduled(start, quality, false, now);
    forall l', w' | Lookup(r, l', w').Some?
      ensures Scheduled(Lookup(r, l', w').value)
    {
      UpdateThenLookup(vocab, l, w, quality, now, l', w');
    }
  }

  /** The hook's state. */
  class SrsHook {
    var vocabulary: Vocabulary

    constructor (saved: Vocabulary)
      ensures vocabulary == saved
    {
      vocabulary := saved;
    }

    /** `updateCard(lessonId, wordId, quality)` at instant `now`. */
    method UpdateCard(l: string, w: string, quality: int, now: int)
      modifies this
      ensures vocabulary == UpdatedVocabulary(old(vocabulary), l, w, quality, now)
    {
      vocabulary := UpdatedVocabulary(vocabulary, l, w, quality, now);
    }

    /** `getCard(lessonId, wordId)`: the stored card, or `null` (`None`). */
    function GetCard(l: string, w: string): (r: Option<ReviewCard>)
      reads this
      ensures r.Some? <==> l in vocabulary && w in vocabulary[l]
      ensures r.Some? ==> r.value == vocabulary[l][w]
    {
      Lookup(vocabulary, l, w)
    }
  }
}
