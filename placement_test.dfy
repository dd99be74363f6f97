/** The placement test of src/components/PlacementTest.jsx: the answers
    recorded per question index, the scoring pass on the last question, the
    back button, the percentage shown with the result and the start-over
    reset. Rendering is left out. */
module PlacementTest {
  import JsMath
  import opened PlacementQuestions

  /** The number of questions `i` whose recorded answer is `qs[i].answer`
      (a question without a recorded answer never counts). */
  function CountCorrect(qs: seq<Question>, answers: map<int, string>): (r: nat)
    ensures r <= |qs|
    ensures r > 0 ==> exists i :: 0 <= i < |qs| && i in answers && answers[i] == qs[i].answer
  {
    if qs == [] then 0
    else
      var i := |qs| - 1;
      CountCorrect(qs[..i], answers) + (if i in answers && answers[i] == qs[i].answer then 1 else 0)
  }

  /** A score never exceeds the number of questions, and reaches it exactly
      when every question has its correct answer recorded. */
  lemma {:induction false} CountCorrectBounds(qs: seq<Question>, answers: map<int, string>)
    ensures CountCorrect(qs, answers) <= |qs|
    ensures CountCorrect(qs, answers) == |qs| <==>
              forall i :: 0 <= i < |qs| ==> i in answers && answers[i] == qs[i].answer
  {
    if qs != [] {
      var n := |qs| - 1;
      CountCorrectBounds(qs[..n], answers);
      assert forall i :: 0 <= i < n ==> qs[..n][i] == qs[i];
    }
  }

  /** With no answers recorded the score is 0. */
  lemma {:induction false} CountCorrectNoAnswers(qs: seq<Question>)
    ensures CountCorrect(qs, map[]) == 0
  {
    if qs != [] {
      CountCorrectNoAnswers(qs[..|qs| - 1]);
    }
  }

  /** Recording the right answer for one question never lowers the score,
      and raises it by one when that question was not yet right. */
  lemma {:induction false} RightAnswerRaisesScore(qs: seq<Question>, answers: map<int, string>, k: int)
    requires 0 <= k < |qs|
    ensures var before := CountCorrect(qs, answers);
            var after := CountCorrect(qs, answers[k := qs[k].answer]);
            after == before + (if k in answers && answers[k] == qs[k].answer then 0 else 1)
  {
    var n := |qs| - 1;
    if k < n {
      RightAnswerRaisesScore(qs[..n], answers, k);
    } else {
      CountCorrectIgnoresLater(qs[..n], answers, k, qs[k].answer);
    }
  }

  /** An answer recorded at or after index `|qs|` does not affect the score
      of `qs`. */
  lemma {:induction false} CountCorrectIgnoresLater(qs: seq<Question>, answers: map<int, string>, k: int, a: string)
    requires k >= |qs|
    ensures CountCorrect(qs, answers[k := a]) == CountCorrect(qs, answers)
  {
    if qs != [] {
      CountCorrectIgnoresLater(qs[..|qs| - 1], answers, k, a);
    }
  }

  /** The `forEach` pass of `handleNext` counting the correct answers. */
  method ScoreAnswers(qs: seq<Question>, answers: map<int, string>) returns (correct: nat)
    ensures correct == CountCorrect(qs, answers)
    ensures correct <= |qs|
  {
    correct := 0;
    var i := 0;
    while i < |qs|
      invariant 0 <= i <= |qs|
      invariant correct == CountCorrect(qs[..i], answers)
    {
      assert qs[..i + 1][..i] == qs[..i];
      if i in answers && answers[i] == qs[i].answer {
        correct := correct + 1;
      }
      i := i + 1;
    }
    assert qs[..i] == qs;
    CountCorrectBounds(qs, answers);
  }

  /** The percentage shown with the result:
      `total > 0 ? Math.round(score / total * 100) : 0`. */
  function Percentage(score: int, total: int): (p: int)
    ensures total == 0 ==> p == 0
    ensures total > 0 && 0 <= score <= total ==> 0 <= p <= 100
    ensures total > 0 && score == total ==> p == 100
    ensures total > 0 && score == 0 ==> p == 0
  {
    if total > 0 then
      FractionOfTotal(score, total);
      JsMath.Round((score as real) / (total as real) * 100.0)
    else 0
  }

  /** The unrounded percentage lies in [0, 100] for a score in range, and is
      exactly 100 or 0 at the two ends. */
  lemma FractionOfTotal(score: int, total: int)
    requires total > 0
    ensures var x := (score as real) / (total as real) * 100.0;
            (0 <= score <= total ==> 0.0 <= x <= 100.0)
            && (score == total ==> x == 100.0)
            && (score == 0 ==> x == 0.0)
  {
    var f := (score as real) / (total as real);
    assert f * (total as real) == score as real;
    if 0 <= score <= total {
      assert 0.0 <= f <= 1.0;
    }
    if score == total {
      assert f == 1.0;
    }
  }

  /** A better score never shows a lower percentage. */
  lemma PercentageMonotone(s1: int, s2: int, total: int)
    requires s1 <= s2
    ensures Percentage(s1, total) <= Percentage(s2, total)
  {
    if total > 0 {
      var x1 := (s1 as real) / (total as real) * 100.0;
      var x2 := (s2 as real) / (total as real) * 100.0;
      var t := total as real;
      assert (s2 as real) / t - (s1 as real) / t == ((s2 - s1) as real) / t;
      assert (s1 as real) / t <= (s2 as real) / t;
      JsMath.RoundMonotone(x1, x2);
    }
  }

  class PlacementTest {
    var currentIndex: int
    var answers: map<int, string>
    var showResult: bool
    var score: int

    /** The index is on a question of the bank, and a shown score is in
        range. */
    predicate Valid()
      reads this
    {
      0 <= currentIndex < |Questions| && 0 <= score <= |Questions|
    }

    constructor ()
      ensures currentIndex == 0 && answers == map[] && !showResult && score == 0
      ensures Valid()
    {
      currentIndex := 0;
      answers := map[];
      showResult := false;
      score := 0;
    }

    /** `handleSelect(optionKey)`: records the choice for the current
        question only, replacing an earlier one. */
    method HandleSelect(optionKey: string)
      modifies this`answers
      ensures answers == old(answers)[currentIndex := optionKey]
      ensures forall i :: i in old(answers) && i != currentIndex ==> i in answers && answers[i] == old(answers)[i]
    {
      answers := answers[currentIndex := optionKey];
    }

    /** `handleNext()`: on the last question, scores every answer and shows
        the result; otherwise moves one question on. */
    method HandleNext()
      modifies this`currentIndex, this`score, this`showResult
      ensures old(currentIndex) == |Questions| - 1 ==>
                score == CountCorrect(Questions, answers) && showResult && currentIndex == old(currentIndex)
      ensures old(currentIndex) != |Questions| - 1 ==>
                currentIndex == old(currentIndex) + 1 && score == old(score) && showResult == old(showResult)
      ensures old(Valid()) ==> Valid()
    {
      if currentIndex == |Questions| - 1 {
        var correct := ScoreAnswers(Questions, answers);
        score := correct;
        showResult := true;
      } else {
        currentIndex := currentIndex + 1;
      }
    }

    /** `handlePrev()`: one question back, never before the first. */
    method HandlePrev()
      modifies this`currentIndex
      ensures currentIndex == (if old(currentIndex) - 1 < 0 then 0 else old(currentIndex) - 1)
      ensures old(Valid()) ==> Valid()
    {
      currentIndex := if currentIndex - 1 < 0 then 0 else currentIndex - 1;
    }

    /** The "start over" button: result hidden, first question, no answers;
        the score is left as it was (it is recomputed before it is shown
        again). */
    method StartOver()
      modifies this`showResult, this`currentIndex, this`answers
      ensures !showResult && currentIndex == 0 && answers == map[]
      ensures old(Valid()) ==> Valid()
    {
      showResult := false;
      currentIndex := 0;
      answers := map[];
    }
  }
}
