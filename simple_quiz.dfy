/** The practice quiz of src/components/SimpleQuiz.jsx over lesson data as
    JavaScript values: the default options, `getLetter`, the grading of the
    selected option in `handleNext`, advancing and finishing, and the retry
    reset. A selection is the position of the clicked option (or `None` for
    `null`); rendering is left out. */
module SimpleQuiz {
  import opened Wrappers
  import opened JsValues
  import PlacementTest

  /** The options shown for question `q`: its `options` when that is a
      non-empty array, else "A" to "D". */
  function OptionsOf(q: JsValue): (r: seq<JsValue>)
    ensures |r| > 0
    ensures GetProp(q, "options").Arr? && |GetProp(q, "options").elems| > 0 ==> r == GetProp(q, "options").elems
    ensures !(GetProp(q, "options").Arr? && |GetProp(q, "options").elems| > 0) ==>
              r == [Str("A"), Str("B"), Str("C"), Str("D")]
  {
    var o := GetProp(q, "options");
    if o.Arr? && |o.elems| > 0 then o.elems else [Str("A"), Str("B"), Str("C"), Str("D")]
  }

  /** `getLetter(option)`: the first character of a non-empty string, `null`
      for an object with a truthy `vi` or `en` (the letter then comes from
      the position), and the option itself otherwise. */
  function GetLetter(option: JsValue): (r: JsValue)
    ensures option.Str? && option.s != [] ==> r == Str(option.s[..1])
    ensures r.Null? ==> option.Null? || option.Obj? || option.Arr?
    ensures !(option.Str? && option.s != []) && !r.Null? ==> r == option
  {
    if option.Str? && |option.s| > 0 then
      assert [option.s[0]] == option.s[..1];
      Str([option.s[0]])
    else if Truthy(option) && (option.Obj? || option.Arr?)
            && (Truthy(GetProp(option, "vi")) || Truthy(GetProp(option, "en"))) then Null
    else option
  }

  /** The three cases of `getLetter`, each stated on its own. */
  lemma GetLetterCases(option: JsValue)
    ensures option.Str? && option.s != [] ==> GetLetter(option) == Str(option.s[..1])
    ensures option.Obj? && (Truthy(GetProp(option, "vi")) || Truthy(GetProp(option, "en"))) ==> GetLetter(option) == Null
    ensures !option.Str? && !option.Obj? ==> GetLetter(option) == option
    ensures option == Str("") ==> GetLetter(option) == option
  {
    if option.Arr? {
      assert GetProp(option, "vi") == Undefined by {
        assert ArrayIndex("vi").None? by {
          assert JsStrings.DigitPrefix("vi") == [];
        }
      }
      assert GetProp(option, "en") == Undefined by {
        assert ArrayIndex("en").None? by {
          assert JsStrings.DigitPrefix("en") == [];
        }
      }
    }
  }

  /** `a === b`: equal primitives; an array or object created from lesson
      data is never identical to another value taken from it. */
  predicate StrictEquals(a: JsValue, b: JsValue)
  {
    IsPrimitive(a) && IsPrimitive(b) && a == b
  }

  /** The first position holding `v` (under `===`), or -1:
      `options.indexOf(v)` for a primitive `v`. */
  function FirstIndexOf(options: seq<JsValue>, v: JsValue): (r: int)
    ensures -1 <= r < |options|
    ensures r >= 0 ==> StrictEquals(options[r], v) && forall j :: 0 <= j < r ==> !StrictEquals(options[j], v)
    ensures r == -1 ==> forall j :: 0 <= j < |options| ==> !StrictEquals(options[j], v)
  {
    if options == [] then -1
    else if StrictEquals(options[0], v) then 0
    else
      var r := FirstIndexOf(options[1..], v);
      if r == -1 then -1 else r + 1
  }

  /** `options.indexOf(selectedAnswer)`: a selected primitive is found at
      its first occurrence, a selected object at its own position, and
      `null` at the first `null` option, if any. */
  function SelectedIndex(options: seq<JsValue>, selected: Option<nat>): (r: int)
    requires selected.Some? ==> selected.value < |options|
    ensures -1 <= r < |options|
    ensures selected.Some? ==> 0 <= r <= selected.value
  {
    match selected
    case None => FirstIndexOf(options, Null)
    case Some(k) => if IsPrimitive(options[k]) then FirstIndexOf(options, options[k]) else k
  }

  /** The letter a selection stands for: a value, or
      `String.fromCharCode(65 + idx)` for a position `idx`. */
  datatype Letter = Given(v: JsValue) | FromIndex(idx: nat)

  /** `letter === correctLetter`. `String.fromCharCode` keeps the low 16 bits
      of its argument. */
  predicate LetterMatches(l: Letter, correct: JsValue)
  {
    match l
    case Given(v) => StrictEquals(v, correct)
    case FromIndex(idx) => correct.Str? && |correct.s| == 1 && correct.s[0] as int == (65 + idx) % 0x10000
  }

  /** `getLetter(selectedAnswer) ?? (idx >= 0 ? String.fromCharCode(65 + idx) : null)`. */
  function SelectedLetter(options: seq<JsValue>, selected: Option<nat>): Letter
    requires selected.Some? ==> selected.value < |options|
  {
    var value := if selected.Some? then options[selected.value] else Null;
    var letter := GetLetter(value);
    var idx := SelectedIndex(options, selected);
    if !IsNullish(letter) then Given(letter)
    else if idx >= 0 then FromIndex(idx)
    else Given(Null)
  }

  /** Whether the selection answers question `q`: its letter against
      `q.answer ?? ''`. */
  predicate IsCorrect(q: JsValue, selected: Option<nat>)
    requires selected.Some? ==> selected.value < |OptionsOf(q)|
    // moving on without a selection is wrong unless some option is itself `null`
    ensures selected.None? && (forall j :: 0 <= j < |OptionsOf(q)| ==> OptionsOf(q)[j] != Null) ==>
              !IsCorrect(q, selected)
  {
    var options := OptionsOf(q);
    var letter := SelectedLetter(options, selected);
    assert selected.None? && (forall j :: 0 <= j < |options| ==> options[j] != Null) ==> letter == Given(Null);
    LetterMatches(letter, Coalesce(GetProp(q, "answer"), Str("")))
  }

  /** A string option is graded by its first character. */
  lemma StringOptionGradedByFirstChar(q: JsValue, k: nat)
    requires k < |OptionsOf(q)| && OptionsOf(q)[k].Str? && OptionsOf(q)[k].s != []
    ensures IsCorrect(q, Some(k)) <==> GetProp(q, "answer") == Str(OptionsOf(q)[k].s[..1])
  {
    var options := OptionsOf(q);
    var letter := Str(options[k].s[..1]);
    assert [options[k].s[0]] == options[k].s[..1];
    assert GetLetter(options[k]) == letter;
    assert SelectedLetter(options, Some(k)) == Given(letter);
    var a := GetProp(q, "answer");
    assert Coalesce(a, Str("")) == letter <==> a == letter;
  }

  /** A bilingual object option is graded by its position: the k-th such
      option is right exactly when the answer is the k-th capital letter. */
  lemma BilingualOptionGradedByPosition(q: JsValue, k: nat)
    requires k < |OptionsOf(q)| && k < 26
    requires OptionsOf(q)[k].Obj? && Truthy(GetProp(OptionsOf(q)[k], "en"))
    ensures IsCorrect(q, Some(k)) <==> GetProp(q, "answer") == Str([(65 + k) as char])
  {
    var options := OptionsOf(q);
    assert GetLetter(options[k]) == Null;
    assert SelectedIndex(options, Some(k)) == k;
    assert SelectedLetter(options, Some(k)) == FromIndex(k);
    assert (65 + k) % 0x10000 == 65 + k;
    var a := GetProp(q, "answer");
    var correct := Coalesce(a, Str(""));
    var letter := Str([(65 + k) as char]);
    assert correct.Str? && |correct.s| == 1 && correct.s[0] as int == 65 + k <==> correct == letter by {
      if correct.Str? && |correct.s| == 1 && correct.s[0] as int == 65 + k {
        assert correct.s == [(65 + k) as char];
      }
    }
    assert correct == letter <==> a == letter;
  }

  /** With the default options, choosing the k-th one is right exactly when
      the answer is its letter. */
  lemma DefaultOptionsGraded(q: JsValue, k: nat)
    requires !GetProp(q, "options").Arr? && k < 4
    ensures IsCorrect(q, Some(k)) <==> GetProp(q, "answer") == [Str("A"), Str("B"), Str("C"), Str("D")][k]
  {
    var options := OptionsOf(q);
    assert options == [Str("A"), Str("B"), Str("C"), Str("D")];
    var o := options[k];
    assert o.Str? && |o.s| == 1 by {
      assert k == 0 || k == 1 || k == 2 || k == 3;
    }
    assert o.s[..1] == o.s;
    StringOptionGradedByFirstChar(q, k);
  }

  /** What `onComplete` receives. */
  datatype Completion = Completion(score: int, total: int, percentage: int)

  class Quiz {
    const questions: seq<JsValue>
    var currentIndex: int
    var score: int
    var selected: Option<nat>
    var showResult: bool
    var finalScore: Option<int>

    /** The index is on a question, the score counts at most the answered
        questions, and a final score is present exactly when the result is
        shown, equal to the score. */
    predicate Valid()
      reads this
    {
      0 <= currentIndex < |questions|
      && 0 <= score <= currentIndex + (if showResult then 1 else 0)
      && (showResult ==> currentIndex == |questions| - 1)
      && (finalScore.Some? <==> showResult)
      && (showResult ==> finalScore == Some(score))
      && (selected.Some? ==> selected.value < |OptionsOf(questions[currentIndex])|)
    }

    /** A quiz over a non-empty list of questions (with none the component
        only shows a message). */
    constructor (questions: seq<JsValue>)
      requires |questions| > 0
      ensures this.questions == questions
      ensures currentIndex == 0 && score == 0 && selected == None && !showResult && finalScore == None
      ensures Valid()
    {
      this.questions := questions;
      currentIndex := 0;
      score := 0;
      selected := None;
      showResult := false;
      finalScore := None;
    }

    /** `handleSelect(option)` for the option at position `k` of the current
        question. */
    method HandleSelect(k: nat)
      requires 0 <= currentIndex < |questions| && k < |OptionsOf(questions[currentIndex])|
      modifies this`selected
      ensures selected == Some(k)
      ensures old(Valid()) ==> Valid()
    {
      selected := Some(k);
    }

    /** `handleNext()`, reachable while the result is hidden and a truthy
        option is selected: grades the selection, then moves on with a
        cleared selection, or on the last question records and reports the
        final score. */
    method HandleNext() returns (completed: Option<Completion>)
      requires Valid() && !showResult
      requires selected.Some? && Truthy(OptionsOf(questions[currentIndex])[selected.value])
      modifies this`currentIndex, this`score, this`selected, this`showResult, this`finalScore
      ensures Valid()
      ensures score == old(score) + (if IsCorrect(questions[old(currentIndex)], old(selected)) then 1 else 0)
      ensures old(currentIndex) + 1 < |questions| ==>
                currentIndex == old(currentIndex) + 1 && selected == None && !showResult && completed == None
      ensures old(currentIndex) + 1 >= |questions| ==>
                currentIndex == old(currentIndex) && showResult && finalScore == Some(score)
                && completed == Some(Completion(score, |questions|, PlacementTest.Percentage(score, |questions|)))
      ensures completed.Some? ==> 0 <= completed.value.score <= completed.value.total
                                  && 0 <= completed.value.percentage <= 100
    {
      var q := questions[currentIndex];
      var isCorrect := IsCorrect(q, selected);
      var newScore := if isCorrect then score + 1 else score;
      score := newScore;
      if currentIndex + 1 < |questions| {
        currentIndex := currentIndex + 1;
        selected := None;
        showResult := false;
        completed := None;
      } else {
        assert 0 <= newScore <= |questions|;
        var percentage := PlacementTest.Percentage(newScore, |questions|);
        finalScore := Some(newScore);
        showResult := true;
        completed := Some(Completion(newScore, |questions|, percentage));
      }
    }

    /** The "retry" button: back to the first question with everything
        cleared. */
    method Retry()
      modifies this`currentIndex, this`score, this`selected, this`showResult, this`finalScore
      ensures currentIndex == 0 && score == 0 && selected == None && !showResult && finalScore == None
      ensures old(Valid()) ==> Valid()
    {
      currentIndex := 0;
      score := 0;
      selected := None;
      showResult := false;
      finalScore := None;
    }
  }
}
