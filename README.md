# HSK Horizon core, modelled in Dafny

HSK Horizon is a Chinese-vocabulary web app. This project models the parts of
it that decide things, and proves properties of them. The modelled parts are:

- the SuperMemo-2 review engine and its friction penalty;
- the card store kept in local storage: level normalisation, lookup counters,
  idempotent card creation, merge-update, the due queue and the
  new / learning / mastered analytics;
- the review session that ties the two together;
- the per-lesson vocabulary hook;
- the 20-question placement bank and its level recommendation;
- the placement test and the practice quiz, with their scoring;
- the two bilingual-field helpers;
- the dictionary index, the local lookup, the word cache and the
  lesson → dictionary → cache lookup chain;
- the radical and Han-Viet glossaries;
- the personalised-story cache;
- the profile built by the onboarding form.

Most modules follow one source file each. Two modules are shared:

- `JsStrings` models the JavaScript string operations the app relies on: `trim`, `parseInt`,
  `String(n)`, `includes`, `split` and `join`. `JsValues` models JavaScript values: truthiness, `??`, `||`,
  `String(v)`, property access and `Array.prototype.join`. `JsMath.Round` models `Math.round`.
- Code that only computes is written as functions and lemmas. Stateful pieces are classes whose methods
  update their fields. This covers the storage-backed stores (`SrsStorage`, `WordCache`, `StoryCache`),
  the React hook (`SrsHook`) and the three screens (`ReviewSession`, `PlacementTest`, `Quiz`). Loops in
  the source are methods with loop invariants: analytics counting, placement scoring and index building.
- Clock readings (`Date.now()`, `new Date()`) are an integer-millisecond parameter `now`. The instant
  `srsData.js` was loaded is a parameter `loadTime`. Local storage is the fields of the store objects.

## Model

| member | source | states |
|---|---|---|
| SrsLogic.CalculateNextReview | src/utils/srsLogic.js:10-51 | Every scheduling field is set afterwards and all other fields of the card are kept. Easiness becomes max(1.3, EF0 + 0.19q − 0.79); EF0 is the stored easiness (2.5 if absent), lowered by 0.3 but not below 1.3 under friction. Quality below 3 resets repetitions to 0 with interval 1. Otherwise repetitions grow by one and the interval is 1, then 6 (3 under friction), then round(interval × EF). lastReview is now and nextReview is now plus interval days. |
| SrsLogic.EasinessMonotoneInQuality | src/utils/srsLogic.js:19-24 | A higher quality never gives a lower new easiness. |
| SrsLogic.IntervalGrowsOnSuccess | src/utils/srsLogic.js:29-38 | From the third success on, the interval never shrinks. Once it is at least 2 days, it strictly grows. |
| SrsLogic.ReviewKeepsScheduled | src/utils/srsLogic.js:26-41 | One review preserves the invariant "never succeeded, or interval at least one day". Afterwards the card is due strictly after now. |
| SrsLogic.ReviewAllBounds | src/utils/srsLogic.js:10-51 | Starting from a scheduled card (a freshly saved card and the hook's default card are both scheduled), after any non-empty sequence of reviews, easiness is at least 1.3 and the interval at least 1. The card is due after the last review. |
| SrsLogic.FirstGoodReview | src/utils/srsLogic.js:23-41 | A new card rated 4 gets 1 repetition, interval 1, due one day later, easiness 2.47. |
| SrsLogic.SecondEasyReview | src/utils/srsLogic.js:23-38 | Then rated 5, it gets 2 repetitions, interval 6 and easiness 2.63. |
| SrsLogic.ThirdGoodReview | src/utils/srsLogic.js:29-37 | A card at 3 repetitions, 6 days and EF 2.5, rated 4, moves to 4 repetitions, EF 2.47 and 15 days. |
| SrsData.StripHskPrefix | src/utils/srsData.js:54 | A leading "hsk" in any case is removed, and nothing else changes. |
| SrsData.LevelOfNumber | src/utils/srsData.js:55-63 | A parsed number maps to a canonical key: 7 and up gives "7-9", 1 to 6 gives that digit, anything lower gives "1". |
| SrsData.ToHskLevelString | src/utils/srsData.js:49-64 | Every label lands on one of the seven canonical keys. A missing level gives "1". Text containing "7-9" (or the en-dash spelling) gives "7-9". Other text is parsed after the "hsk" prefix is stripped. |
| SrsData.SevenNineSpellings | src/utils/srsData.js:53 | The two exact "7-9" spellings are also caught by the `includes` test. |
| SrsData.NoDashNoSevenNine | src/utils/srsData.js:53 | Text without '-' never takes the "7-9" branch. |
| SrsData.DigitParses | src/utils/srsData.js:55-57 | A digit 1 to 6 parses to its value and maps back to itself. |
| SrsData.DigitLevel | src/utils/srsData.js:49-64 | "N", "hskN" and "HSKN" normalise to "N" for N from 1 to 6. |
| SrsData.SevenNineLevel | src/utils/srsData.js:52-53 | "7-9", "hsk7-9" and "HSK7-9" normalise to "7-9". |
| SrsData.SevenNineText | src/utils/srsData.js:52-53 | Trimmed text containing "7-9" anywhere normalises to "7-9". |
| SrsData.CanonicalIsFixed | src/utils/srsData.js:49-64 | Each canonical key normalises to itself. |
| SrsData.ToHskLevelStringIdempotent | src/utils/srsData.js:49-64 | Normalising twice gives the same key as normalising once. |
| SrsData.NewCard | src/utils/srsData.js:70-89 | The saved card copies zh, uses "" for a missing pinyin, vi or en, and stores the normalised level under both level names. Repetition and interval are 0. Easiness is 2.2 when the word was looked up more than twice, else 2.5. The card is due at load time and was never reviewed. |
| SrsData.ApplyPatch | src/utils/srsData.js:101 | Patched fields take the patch's value. Word and level fields, and fields absent from the patch, are kept. |
| SrsData.FilterByMembers | src/utils/srsData.js:115-132 | A `filter` keeps exactly the cards its test accepts. |
| SrsData.FilterByAppend | src/utils/srsData.js:115-132 | A `filter` keeps store order: the filter of a concatenation is the concatenation of the filters. |
| SrsData.FilterLevelMembers | src/utils/srsData.js:115-118 | Level filtering keeps exactly the cards whose normalised level is the target. |
| SrsData.FilterDueMembers | src/utils/srsData.js:124-132 | Due filtering keeps exactly the cards that are due: their instant has come, or they have no repetitions. |
| SrsData.FilterLevelAppend | src/utils/srsData.js:115-118 | Level filtering keeps store order. |
| SrsData.FilterDueAppend | src/utils/srsData.js:124-132 | Due filtering keeps store order. |
| SrsData.BucketsPartition | src/utils/srsData.js:137-159 | New, learning and mastered together count every card. New and learning together are exactly the due cards. |
| SrsData.CountBucketStep | src/utils/srsData.js:145-156 | One more card adds one to its own bucket and nothing elsewhere. |
| SrsData.StoreNewKey | src/utils/srsData.js:81-90 | Storing a card under a new key keeps the key/order invariant and lists that card last. |
| SrsData.ValuesOfOtherKey | src/utils/srsData.js:115 | Adding an unlisted key leaves the listed values unchanged. |
| SrsData.SrsStorage.constructor | src/utils/srsData.js:35-43 | The store starts from the saved cards, their order and the saved lookup counts. |
| SrsData.SrsStorage.GetLookupCount | src/utils/srsData.js:13-21 | A recorded word gives its stored count. A non-zero count means the word was recorded. |
| SrsData.SrsStorage.IsWordInSrs | src/utils/srsData.js:94-96 | True exactly when a card is stored under the word, which under the store invariant means the word is in the store order. |
| SrsData.SrsStorage.IncrementLookupCount | src/utils/srsData.js:23-33 | Returns the previous count (0 if absent) plus one, stores it under that word and no other. |
| SrsData.SrsStorage.SaveWordToSrs | src/utils/srsData.js:66-92 | Reports true exactly when the word was not stored, and then appends its new card. A second save changes nothing. Afterwards `isWordInSrs` holds for the word. The key/order invariant is kept. |
| SrsData.SrsStorage.UpdateSrsCard | src/utils/srsData.js:98-103 | Merges the patch into that one card. An absent key changes nothing. No word enters or leaves the store. |
| SrsData.SrsStorage.GetCardsByLevel | src/utils/srsData.js:110-119 | Exactly the stored cards whose level is the query's target. |
| SrsData.SrsStorage.GetDueQueue | src/utils/srsData.js:124-132 | Exactly the level's cards that are due now. |
| SrsData.SrsStorage.GetSrsAnalytics | src/utils/srsData.js:137-159 | Counts each bucket for the level. The counts add up to the total, and new plus learning is the length of the due queue. |
| SrsData.SavedLevelIsQueried | src/utils/srsData.js:66-119 | A card saved under "hskN", "HSKN" or "N" is listed by the queries "hskN" and "N". |
| SrsData.QueryTargets | src/utils/srsData.js:112-114 | The queries "hskN" and "N" both target "N". |
| SrsData.QueryTargetPlain | src/utils/srsData.js:112-114 | A canonical key queried without a prefix targets itself. |
| SrsData.PrefixedLevel | src/utils/srsData.js:49-64 | "hskN", "HSKN" and "N" normalise to "N" for every canonical N. |
| SrsData.SaveTwice | src/utils/srsData.js:66-92 | The second save of a word reports false. The word is then stored, and the order grows by at most one. |
| SrsReview.RatingToQuality | src/components/SRSReview.jsx:15 | Ratings again, hard, good and easy give qualities 1, 2, 4 and 5. Any other rating gives 3. |
| SrsReview.ButtonsSplitLapseFromSuccess | src/components/SRSReview.jsx:15 | No button gives quality 3. Exactly good and easy count as recalled. |
| SrsReview.NewCardIsScheduled | src/utils/srsData.js:66-89 | A card saved by `saveWordToSrs` reaches the engine as a scheduled card. |
| SrsReview.ToEngineCard | src/components/SRSReview.jsx:53-58 | The engine sees easiness ?? 2.5, interval ?? 0 and repetitions ?? 0. |
| SrsReview.ReviewPatch | src/components/SRSReview.jsx:52-67 | The write-back has easiness at least 1.3 and equal to the SM-2 step from the stored easiness. Repetition is reset or incremented. The interval is 1 after a lapse or a first success, 6 after a second, and from the third success on the stored interval times the new easiness, rounded as `Math.round` does. lastReview is now and nextReview is now plus interval days. |
| SrsReview.ReviewSession.constructor | src/components/SRSReview.jsx:19-24 | No level is selected, no cards, index 0, face down. |
| SrsReview.ReviewSession.SelectLevel | src/components/SRSReview.jsx:114 | The selected level becomes the given one. |
| SrsReview.ReviewSession.LoadQueue | src/components/SRSReview.jsx:26-34 | With a level selected, the cards become its due queue, from the first card, face down and not complete. Without one, nothing changes. |
| SrsReview.ReviewSession.HandleFlip | src/components/SRSReview.jsx:44-47 | Flips the card and shows the rating buttons. |
| SrsReview.ReviewSession.HandleRate | src/components/SRSReview.jsx:49-77 | Writes the review patch of the current card into the store. Then it moves to the next card, or completes the session on the last one. Without a current card nothing changes. |
| SrsReview.ReviewSession.Prev | src/components/SRSReview.jsx:268-271 | Goes one card back, never below 0, face down. |
| SrsReview.ReviewSession.Next | src/components/SRSReview.jsx:280-283 | Goes one card on, never past the last, face down. |
| UseSrs.DefaultCard | src/hooks/useSRS.js:43-49 | The card of an unseen word: scheduled, due now, never reviewed. |
| UseSrs.UpdatedVocabulary | src/hooks/useSRS.js:40-61 | Only that word of that lesson changes: it becomes the engine's result for its card, or for the default card. Every other lesson and word is kept. |
| UseSrs.UpdateThenLookup | src/hooks/useSRS.js:40-71 | After an update, the word reads back as the engine's result and every other pair reads back as before. |
| UseSrs.FirstUpdate | src/hooks/useSRS.js:43-51 | A word's first update makes it due one day later. It has 1 repetition if the quality is at least 3, else 0. |
| UseSrs.UpdateKeepsScheduled | src/hooks/useSRS.js:40-61 | Updating a vocabulary whose cards are all scheduled keeps them all scheduled. |
| UseSrs.SrsHook.constructor | src/hooks/useSRS.js:14-22 | The hook starts from the saved vocabulary. |
| UseSrs.SrsHook.UpdateCard | src/hooks/useSRS.js:40-61 | The new state is the updated vocabulary. |
| UseSrs.SrsHook.GetCard | src/hooks/useSRS.js:69-71 | Returns a card exactly when one is stored for that lesson and word, and that card. |
| PlacementQuestions.OptionKey | src/utils/placementQuestions.js:2-23 | The key of option i is the one character with code 65 + i. |
| PlacementQuestions.QuestionsWellFormed | src/utils/placementQuestions.js:2-23 | The bank has 20 questions with ids 1 to 20. Each has four options labelled "A. " to "D. " and an answer that is one of their keys. |
| PlacementQuestions.QuestionWellFormed | src/utils/placementQuestions.js:2-23 | Question i of the bank is well formed. |
| PlacementQuestions.QuestionLevelsAscend | src/utils/placementQuestions.js:2-23 | Levels run from HSK 1 to 7-9 and never go down along the bank. |
| PlacementQuestions.RankAtIndex | src/utils/placementQuestions.js:2-23 | The level at each position: three questions per level, then two at 7-9. |
| PlacementQuestions.RanksAscendFrom | src/utils/placementQuestions.js:2-23 | A later question never has a lower level. |
| PlacementQuestions.GetLevelRecommendation | src/utils/placementQuestions.js:29-36 | Every score gets one of the keys hsk1 to hsk6. |
| PlacementQuestions.RecommendationCountsThresholds | src/utils/placementQuestions.js:29-36 | The recommended level is 1 plus the number of the thresholds 5, 9, 13, 16 and 19 the score reaches. Its label names that level. |
| PlacementQuestions.RecommendationMonotone | src/utils/placementQuestions.js:29-36 | A higher score never gets a lower recommendation. |
| PlacementQuestions.ReachedMonotone | src/utils/placementQuestions.js:29-36 | A higher score reaches at least as many thresholds. |
| PlacementQuestions.RecommendationExtremes | src/utils/placementQuestions.js:29-36 | A score of 0 gives hsk1. All 20 right gives hsk6. |
| PlacementTest.CountCorrect | src/components/PlacementTest.jsx:24-28 | The score is at most the number of questions, and a positive score means some recorded answer is right. |
| PlacementTest.CountCorrectBounds | src/components/PlacementTest.jsx:24-28 | The score is at most the number of questions. It equals that number exactly when every question has its right answer recorded. |
| PlacementTest.CountCorrectNoAnswers | src/components/PlacementTest.jsx:24-28 | With no answers recorded the score is 0. |
| PlacementTest.RightAnswerRaisesScore | src/components/PlacementTest.jsx:18-28 | Recording the right answer for a question raises the score by one, unless that question was already right. |
| PlacementTest.CountCorrectIgnoresLater | src/components/PlacementTest.jsx:24-28 | An answer recorded past the last question does not change the score. |
| PlacementTest.ScoreAnswers | src/components/PlacementTest.jsx:24-28 | The loop returns the number of questions whose recorded answer is right. |
| PlacementTest.Percentage | src/components/PlacementTest.jsx:55 | 0 without questions. For a score in range, between 0 and 100, 100 for a full score and 0 for none. |
| PlacementTest.PercentageMonotone | src/components/PlacementTest.jsx:55 | A better score never shows a lower percentage. |
| PlacementTest.PlacementTest.constructor | src/components/PlacementTest.jsx:8-11 | The test starts at question 0 with no answers, no result and score 0. |
| PlacementTest.PlacementTest.HandleSelect | src/components/PlacementTest.jsx:18-20 | Records the choice for the current question only, replacing an earlier one. |
| PlacementTest.PlacementTest.HandleNext | src/components/PlacementTest.jsx:22-34 | On the last question, the score is set to the count of right answers and the result is shown. Otherwise it moves one question on. |
| PlacementTest.PlacementTest.HandlePrev | src/components/PlacementTest.jsx:36-38 | Goes one question back, never before the first. |
| PlacementTest.PlacementTest.StartOver | src/components/PlacementTest.jsx:74-78 | Hides the result, goes back to question 0 and clears the answers. The score is left as it was. |
| SimpleQuiz.OptionsOf | src/components/SimpleQuiz.jsx:18-20 | The question's options when they are a non-empty array, else A to D. Never empty. |
| SimpleQuiz.GetLetter | src/components/SimpleQuiz.jsx:26-34 | A non-empty string gives its first character. null comes only from null or an object (or array). Any other result is the option itself. |
| SimpleQuiz.GetLetterCases | src/components/SimpleQuiz.jsx:26-34 | A non-empty string gives its first character. A bilingual object gives null. Anything else is given back as it is. |
| SimpleQuiz.FirstIndexOf | src/components/SimpleQuiz.jsx:37 | The first position strictly equal to the value, or -1 when there is none. |
| SimpleQuiz.SelectedIndex | src/components/SimpleQuiz.jsx:37 | A selected option is found at or before its own position. |
| SimpleQuiz.IsCorrect | src/components/SimpleQuiz.jsx:36-40 | Moving on with nothing selected is never graded right, unless some option is itself null. |
| SimpleQuiz.StringOptionGradedByFirstChar | src/components/SimpleQuiz.jsx:26-40 | A string option is right exactly when the answer is its first character. |
| SimpleQuiz.BilingualOptionGradedByPosition | src/components/SimpleQuiz.jsx:30-40 | A bilingual option at position k is right exactly when the answer is the k-th capital letter. |
| SimpleQuiz.DefaultOptionsGraded | src/components/SimpleQuiz.jsx:18-40 | With the default options, choice k is right exactly when the answer is its letter. |
| SimpleQuiz.Quiz.constructor | src/components/SimpleQuiz.jsx:5-15 | The quiz starts at question 0 with everything cleared. |
| SimpleQuiz.Quiz.HandleSelect | src/components/SimpleQuiz.jsx:22-24 | The selection becomes the clicked option. |
| SimpleQuiz.Quiz.HandleNext | src/components/SimpleQuiz.jsx:36-57 | The score grows by one exactly when the selection is right. Then it moves on with the selection cleared, or on the last question records the final score. It then reports the score, the total and a percentage between 0 and 100. |
| SimpleQuiz.Quiz.Retry | src/components/SimpleQuiz.jsx:115-121 | Goes back to question 0 with the score, selection, result and final score cleared. |
| BilingualHelper.ResolveBilingual | src/utils/bilingualHelper.js:10-18 | null or undefined gives the fallback, and a string is returned as it is. An object gives the first present of field[lang], field.en and field.vi when that is a string, else the fallback. Every other value gives the fallback. |
| BilingualHelper.LanguageEntryWins | src/utils/bilingualHelper.js:14-15 | A string under the language key wins over every other entry. |
| BilingualHelper.EnglishBeforeVietnamese | src/utils/bilingualHelper.js:14 | Without that key, English is preferred to Vietnamese. |
| BilingualHelper.ResolveOptions | src/utils/bilingualHelper.js:23-26 | A non-array gives []. Otherwise one result per option, resolved with its own String() as the fallback. |
| BilingualHelper.ResolvedOptionShapes | src/utils/bilingualHelper.js:23-26 | String options come out unchanged. A number option comes out as its decimal form. |
| Bilingual.GetBilingual | src/utils/bilingual.js:8-16 | Like the other helper, but it stringifies whatever it finds first. The fallback is used only when all three candidates are absent. |
| Bilingual.GetBilingualOption | src/utils/bilingual.js:21-25 | null or undefined gives "", and a string is returned as it is. Anything else goes to getBilingual with fallback "". |
| Bilingual.HelpersAgreeOnStrings | src/utils/bilingual.js:8-16 | The two helpers agree except when the first present value is not a string. Then this one stringifies it and the other gives the fallback. |
| Bilingual.NumberEntryStringified | src/utils/bilingual.js:12-13 | A number under the language key is shown as its decimal form here, and as "" by the other helper. |
| Dictionary.BuildIndex | src/utils/dictionary.js:12-21 | A non-array gives an empty index. Otherwise every entry with a non-empty string key is indexed under that key, read left to right. |
| Dictionary.IndexHasEveryKey | src/utils/dictionary.js:12-21 | A key is in the index exactly when some entry carries it. |
| Dictionary.IndexKeepsLast | src/utils/dictionary.js:15-18 | The index holds the last entry with each key. |
| Dictionary.ParseEntry | src/utils/dictionary.js:43-54 | The result is null exactly for a falsy entry or a falsy first form. Pinyin is y ?? n ?? "". Array meanings are joined with "; ", missing ones give "", and any other value gives the `String` of the value, or "" when it is falsy. Radical is r ?? "". |
| Dictionary.FirstPresentOfTwo | src/utils/dictionary.js:49 | a ?? b is the first present of the two. |
| Dictionary.ParseTypicalEntry | src/utils/dictionary.js:43-54 | A typical dictionary entry parses to its pinyin, its joined meanings and its radical. |
| Dictionary.ChosenEntry | src/utils/dictionary.js:68-71 | The exact entry, or the first character's entry when there is no exact one and the text is longer than one character. |
| Dictionary.LookupLocal | src/utils/dictionary.js:61-63 | Non-string input gives nothing. A string is looked up by its trimmed text. |
| Dictionary.LookupTrimmed | src/utils/dictionary.js:64-74 | Blank trimmed text gives nothing. Otherwise the chosen entry for the text, parsed, or nothing when no entry is found. |
| Dictionary.LookupPrefersExact | src/utils/dictionary.js:68-73 | The exact text wins over its first character. A single character has no retry. |
| Dictionary.LookupFindsLastEntry | src/utils/dictionary.js:12-74 | Looking up trimmed text that some entry carries as its key parses the last entry carrying that key. |
| Dictionary.LookupIgnoresSurroundingSpace | src/utils/dictionary.js:63 | Surrounding whitespace does not change a lookup. |
| JsValues.StoredOrNull | src/utils/dictionary.js:79-87 | `data[key] ?? null`: the stored value when present, else null. The story cache reads the same way. |
| Dictionary.CacheRecord | src/utils/dictionary.js:97-103 | The stored record has exactly zh, pinyin, vi, en and radical, with "" for a missing field. |
| Dictionary.SavedWords | src/utils/dictionary.js:92-108 | An entry without a truthy zh changes nothing. Otherwise its record is stored under String(zh). |
| Dictionary.SaveThenGet | src/utils/dictionary.js:79-108 | A saved word reads back as its record, and every other word as before. |
| Dictionary.WordCache.constructor | src/utils/dictionary.js:81-82 | The cache starts from the saved words. |
| Dictionary.WordCache.GetCachedWord | src/utils/dictionary.js:79-87 | Returns the stored word, or null. |
| Dictionary.WordCache.SaveToCache | src/utils/dictionary.js:92-108 | The new cache is the saved-words update of the old one. |
| Dictionary.UniversalLookup | src/utils/dictionary.js:118-165 | Blank or missing input gives nothing, and a result always names the trimmed text. Lesson data with a pinyin, vi or en wins. Next comes the dictionary, with vi "". Then the cache. Otherwise nothing. Each hit gives its source's pinyin, vi, en and radical, with "" for a missing one. |
| Dictionary.SavedWordIsFound | src/utils/dictionary.js:92-162 | A word saved to the cache is found from the cache, with its saved fields, when neither the lesson nor the dictionary answers. |
| CharacterData.Entry | src/utils/characterData.js:37-50 | The table's entry when it is non-empty, else "—". |
| CharacterData.GetRadical | src/utils/characterData.js:37-41 | A falsy input gives "—". Otherwise the radical of the first character, or "—". |
| CharacterData.GetHanViet | src/utils/characterData.js:46-50 | The same lookup in the Han-Viet table. |
| CharacterData.WordUsesFirstCharacter | src/utils/characterData.js:37-50 | A word's radical and reading are those of its first character. |
| CharacterData.SameFirstCharacter | src/utils/characterData.js:37-50 | Words with the same first character get the same radical and reading. |
| CharacterData.LookupFindsEntries | src/utils/characterData.js:4-50 | A one-character key finds its own entry. Every lookup gives a table entry or "—". |
| PersonalizedStories.GetStoryCacheKey | src/utils/personalizedStories.js:16-18 | The key starts with the level's text and a ':'. A missing lesson id leaves nothing after the colon. |
| PersonalizedStories.MissingLessonIdIsEmpty | src/utils/personalizedStories.js:16-18 | A null or undefined lesson id gives the same key as the empty one. |
| PersonalizedStories.CacheKeySeparates | src/utils/personalizedStories.js:16-18 | For level keys without ':', a cache key determines both the level and the lesson id text. |
| PersonalizedStories.ColonSplit | src/utils/personalizedStories.js:17 | A colon-free prefix before ':' is determined by the joined string. |
| PersonalizedStories.Spread | src/utils/personalizedStories.js:37 | Spreading an object copies its properties. Spreading a non-object, non-array, non-string copies nothing. |
| PersonalizedStories.Indexed | src/utils/personalizedStories.js:37 | Every array position is a key of the spread and holds that element. |
| PersonalizedStories.CachedEntry | src/utils/personalizedStories.js:37 | The stored entry is the story's own properties with cachedAt set to the save time. |
| PersonalizedStories.StoryCache.constructor | src/utils/personalizedStories.js:4-11 | The cache starts from the saved stories. |
| PersonalizedStories.StoryCache.GetCachedStory | src/utils/personalizedStories.js:23-27 | Returns the story stored under the lesson's key, or null. |
| PersonalizedStories.StoryCache.SaveStoryToCache | src/utils/personalizedStories.js:32-42 | The new cache is the saved-stories update of the old one. |
| PersonalizedStories.SavedStories | src/utils/personalizedStories.js:32-42 | A falsy story changes nothing. Otherwise its entry is stored under its key. |
| PersonalizedStories.SaveThenGetStory | src/utils/personalizedStories.js:23-42 | A saved story reads back as its entry, and every other key as before. |
| Onboarding.TrimAll | src/components/OnboardingModal.jsx:32 | Each piece is trimmed, and the count is kept. |
| Onboarding.NonEmpty | src/components/OnboardingModal.jsx:32 | Exactly the non-empty pieces, none added. |
| Onboarding.BuildProfile | src/components/OnboardingModal.jsx:26-37 | The name is trimmed, with the language default when blank. The goal is trimmed. Hobbies are split on either comma, trimmed and the empty ones dropped. |
| Onboarding.SkipProfile | src/components/OnboardingModal.jsx:39-42 | The default name, an empty goal and no hobbies. |
| Onboarding.SkipIsEmptySubmit | src/components/OnboardingModal.jsx:26-42 | Skipping saves what submitting an empty form saves. |
| Onboarding.TrimKeepsCharacters | src/components/OnboardingModal.jsx:32 | Trimming adds no characters. |
| Onboarding.HobbiesAreClean | src/components/OnboardingModal.jsx:32 | Every saved hobby is non-empty, trimmed and free of both commas. |
| Onboarding.TrimmedPieceClean | src/components/OnboardingModal.jsx:32 | A comma-free piece trims to a trimmed, comma-free string. |
| Onboarding.HobbiesRoundTrip | src/components/OnboardingModal.jsx:32 | A ", "-joined list of clean hobbies reads back as exactly that list. |
| Onboarding.SplitJoined | src/components/OnboardingModal.jsx:32 | Splitting a ", "-joined list gives the first hobby, then each later one with a leading space. |
| Onboarding.SplitCons | src/components/OnboardingModal.jsx:32 | The pieces of a joined list of two or more are its first hobby, then the rest's pieces with a space before the first. |
| Onboarding.SplitAfterFirst | src/components/OnboardingModal.jsx:32 | A clean hobby, a comma and a space before the rest split into the hobby, then the rest's pieces with the space before the first. |
| Onboarding.SplitFree | src/components/OnboardingModal.jsx:32 | A string without commas splits into itself. |
| Onboarding.SplitFreePrefix | src/components/OnboardingModal.jsx:32 | A comma-free prefix followed by a comma is split off first. |
| Onboarding.TrimSpaced | src/components/OnboardingModal.jsx:32 | Trimming a clean hobby with a leading space gives the hobby. |
| Onboarding.NonEmptyOfNonEmpty | src/components/OnboardingModal.jsx:32 | Filtering pieces that are all non-empty keeps them all. |

## Left out

- Local storage access, `JSON.parse`/`JSON.stringify`, the `try`/`catch` paths around them and `console` output are left out. The stores are plain fields, and a storage failure is not modelled.
- Dates are integer milliseconds. A `Date` object in a card, and its serialisation to a string and back, are not modelled.
- Numbers are mathematical integers; easiness is an exact real. IEEE-754 rounding, `NaN`, fractional levels (`String(2.5)`) and non-integer lookup counts are not modelled. `Math.round` is floor(x + 0.5) on exact reals.
- SrsLogic.CalculateNextReview: the engine's default for an absent `lastReview` is not modelled. The value is never read, because the result always sets `lastReview` to the review instant.
- SrsLogic.CalculateNextReview: a card whose scheduling fields are `null` rather than absent is not modelled. No caller passes one.
- JavaScript strings are UTF-16 code units; Dafny strings are Unicode scalar values. `charAt(0)` and `[0]` on a character outside the Basic Multilingual Plane cannot yield a lone surrogate here. A lone surrogate cannot be represented.
- SrsData.ToHskLevelString: `toLowerCase()` is not modelled. It cannot create or remove the characters '7', '-' and '9', so the `includes('7-9')` test is taken on the trimmed text itself.
- SrsData.ToHskLevelString: boolean, array and object level labels, and integer labels written as fractions, are not modelled.
- The store order of `Object.values` is modelled as insertion order. JavaScript lists integer-like keys first; card keys are Chinese words, so this never matters. Prototype properties of plain objects are not modelled.
- `DEFAULT_STATS.nextReview` is the `loadTime` parameter: the module reads the clock once, when it is loaded.
- SrsReview.ReviewSession.HandleRate never passes the friction option. The lookup-count penalty only lowers the starting easiness at save time.
- SrsReview.ReviewSession.SelectLevel stands for both the "choose level" and "back" buttons. The React effect that reloads the queue is the separate `LoadQueue` step.
- The per-level analytics computed for every level on the selection screen are `GetSrsAnalytics`. They are not stored as session state.
- SimpleQuiz.Quiz.HandleSelect: a selection is the position of the clicked option. Two equal-looking object options are still different objects. `null` selects nothing.
- SimpleQuiz.Quiz.HandleNext requires that the result be hidden and that a truthy option be selected, because the "next" button is only rendered then. `onComplete` is the returned `Completion`.
- PlacementTest.PlacementTest.StartOver does not reset the score, exactly as the component does. The score is recomputed before the result shows again.
- SrsData.QueryTarget: the literal "hsk" is stripped from lower-case queries as the source does. The query "hskfoo" therefore targets "foo", which no card has.
- Dictionary: the lazy `import()` of the dictionary JSON and its module cache are replaced by an index passed in. `universalLookup` is synchronous here.
- Dictionary.UniversalLookup: a `zh` that is neither a string nor nullish makes the source throw. It is not modelled; `zh` is `Option<string>`.
- CharacterData: the source's radical table lists 在 three times and 现 twice with equal values. The map keeps one entry of each.
- CharacterData.GetRadical: a non-string input whose `String()` is the name of an `Object.prototype` property is not modelled.
- Onboarding: `saveUserProfile`, the submitting flag and `onComplete` are left out. The saved profile is the function's result.
- Rendering, labels, animation, charts and styling in all components are left out.
