/** The placement test's question bank and score-to-level thresholds of
    src/utils/placementQuestions.js. */
module PlacementQuestions {
  import JsStrings

  /** A question's level: HSK 1 to 6, or the "7-9" band. */
  datatype QuestionLevel = Hsk(n: int) | Advanced

  /** The bilingual question text. */
  datatype Prompt = Prompt(en: string, vi: string)

  datatype Question = Question(id: int, level: QuestionLevel, question: Prompt, options: seq<string>, answer: string)

  /** `PLACEMENT_QUESTIONS`, kept as four groups of five questions. */
  const Questions: seq<Question> := Questions1To5 + Questions6To10 + Questions11To15 + Questions16To20

  const Questions1To5: seq<Question> := [
      Question(1, Hsk(1), Prompt("Select 'Hello':", "Chọn từ 'Chào bạn':"),
               ["A. 再见", "B. 谢谢", "C. 你好", "D. 对不起"], "C"),
      Question(2, Hsk(1), Prompt("Which one is 'Teacher'?", "Từ nào là 'Giáo viên'?"),
               ["A. 学生", "B. 老师", "C. 医生", "D. 朋友"], "B"),
      Question(3, Hsk(1), Prompt("Number 5:", "Số 5 là:"),
               ["A. 三", "B. 四", "C. 五", "D. 六"], "C"),
      Question(4, Hsk(2), Prompt("Translate 'Already':", "Dịch từ 'Đã/Rồi':"),
               ["A. 准备", "B. 已经", "C. 开始", "D. 介绍"], "B"),
      Question(5, Hsk(2), Prompt("Measure word for books:", "Lượng từ cho sách:"),
               ["A. 个", "B. 本", "C. 件", "D. 只"], "B")
  ]

  const Questions6To10: seq<Question> := [
      Question(6, Hsk(2), Prompt("Opposite of 'Expensive' (贵):", "Trái nghĩa với 'Đắt' (贵):"),
               ["A. 便宜", "B. 远", "C. 快", "D. 忙"], "A"),
      Question(7, Hsk(3), Prompt("Which conjunction pair means 'Although... but'?", "Cặp liên từ nào nghĩa là 'Tuy... nhưng'?"),
               ["A. 因为...所以", "B. 虽然...但是", "C. 不仅...而且", "D. 如果...就"], "B"),
      Question(8, Hsk(3), Prompt("What does '根据' mean?", "'根据' nghĩa là gì?"),
               ["A. Decide", "B. According to", "C. Influence", "D. Result"], "B"),
      Question(9, Hsk(3), Prompt("Fill in: 这家超市的环境不错，___ 东西也很便宜。", "Điền từ: 这家超市的环境不错，___ 东西也很便宜。"),
               ["A. 但是", "B. 还是", "C. 而且", "D. 只有"], "C"),
      Question(10, Hsk(4), Prompt("Select the synonym for 'Satisfied':", "Từ đồng nghĩa với 'Hài lòng':"),
               ["A. 愿意", "B. 满意", "C. 注意", "D. 得意"], "B")
  ]

  const Questions11To15: seq<Question> := [
      Question(11, Hsk(4), Prompt("What is 'Experience' in a professional context?", "Từ nào là 'Kinh nghiệm'?"),
               ["A. 经历", "B. 经验", "C. 经常", "D. 经典"], "B"),
      Question(12, Hsk(4), Prompt("Select 'To be responsible for':", "Chọn từ 'Chịu trách nhiệm':"),
               ["A. 保护", "B. 负责", "C. 甚至", "D. 确实"], "B"),
      Question(13, Hsk(5), Prompt("Which one means 'To Relieve/Alleviate'?", "Từ nào nghĩa là 'Xoa dịu/Giảm bớt'?"),
               ["A. 缓解", "B. 解决", "C. 解释", "D. 释放"], "A"),
      Question(14, Hsk(5), Prompt("Select 'In brief/In short':", "Chọn từ 'Tóm lại/Nói tóm lại':"),
               ["A. 总之", "B. 比如", "C. 即使", "D. 既然"], "A"),
      Question(15, Hsk(5), Prompt("What does '规模' mean?", "'规模' nghĩa là gì?"),
               ["A. Regulation", "B. Scale/Size", "C. Model", "D. Norm"], "B")
  ]

  const Questions16To20: seq<Question> := [
      Question(16, Hsk(6), Prompt("Idiom for 'unshakeable will':", "Thành ngữ chỉ 'ý chí sắt đá':"),
               ["A. 坚韧不拔", "B. 走马观花", "C. 顺其自然", "D. 乱七八糟"], "A"),
      Question(17, Hsk(6), Prompt("What is 'Macro' in economics?", "Từ nào là 'Vĩ mô'?"),
               ["A. 宏观", "B. 微观", "C. 客观", "D. 主观"], "A"),
      Question(18, Hsk(6), Prompt("Meaning of '弥补'?", "Nghĩa của '弥补'?"),
               ["A. Compensate/Make up for", "B. Distribute", "C. Overcome", "D. Abolish"], "A"),
      Question(19, Advanced, Prompt("Select 'Environmental Restoration':", "Chọn 'Phục hồi môi trường':"),
               ["A. 生态保护", "B. 环境修复", "C. 资源循环", "D. 气候变化"], "B"),
      Question(20, Advanced, Prompt("What is '划算' in a business deal?", "'划算' trong giao dịch nghĩa là gì?"),
               ["A. Expensive", "B. Complicated", "C. Cost-effective", "D. Unstable"], "C")
  ]

  /** The key of the option at position `idx`: `String.fromCharCode(65 + idx)`. */
  function OptionKey(idx: nat): (k: string)
    requires idx < 0xD800 - 65
    ensures |k| == 1 && k[0] as int == 65 + idx
  {
    [JsStrings.FromCharCode(65 + idx)]
  }

  /** An option's text starts with its key and ". ". */
  predicate Labelled(option: string, idx: nat)
    requires idx < 0xD800 - 65
  {
    |option| >= 3 && option[0] as int == 65 + idx && option[1] == '.' && option[2] == ' '
  }

  /** The shape every question of the bank has at position `i`: id `i + 1`,
      four options labelled "A. " to "D. ", and an answer that is one of
      their keys. */
  predicate WellFormedAt(q: Question, i: int)
  {
    q.id == i + 1 && |q.options| == 4
    && Labelled(q.options[0], 0) && Labelled(q.options[1], 1)
    && Labelled(q.options[2], 2) && Labelled(q.options[3], 3)
    && (q.answer == OptionKey(0) || q.answer == OptionKey(1) || q.answer == OptionKey(2) || q.answer == OptionKey(3))
  }

  /** A level's place in the order 1 < 2 < ... < 6 < "7-9". */
  function Rank(l: QuestionLevel): int
  {
    match l
    case Hsk(n) => n
    case Advanced => 7
  }

  /** The bank holds 20 well-formed questions, ids 1 to 20. */
  lemma QuestionsWellFormed()
    ensures |Questions| == 20
    ensures forall i :: 0 <= i < |Questions| ==> WellFormedAt(Questions[i], i)
  {
    forall i | 0 <= i < |Questions|
      ensures WellFormedAt(Questions[i], i)
    {
      QuestionWellFormed(i);
    }
  }

  lemma QuestionWellFormed(i: int)
    requires 0 <= i < 20
    ensures WellFormedAt(Questions[i], i)
  {
    QuestionAt(i);
    OptionKeys();
    if i < 5 {
      GroupWellFormed1To5(i);
    } else if i < 10 {
      GroupWellFormed6To10(i - 5);
    } else if i < 15 {
      GroupWellFormed11To15(i - 10);
    } else {
      GroupWellFormed16To20(i - 15);
    }
  }

  /** Question `i` of the bank is question `i mod 5` of its group. */
  lemma QuestionAt(i: int)
    requires 0 <= i < 20
    ensures |Questions| == 20
    ensures Questions[i] == (if i < 5 then Questions1To5[i] else if i < 10 then Questions6To10[i - 5]
                             else if i < 15 then Questions11To15[i - 10] else Questions16To20[i - 15])
  {
    var front := Questions1To5 + Questions6To10;
    var middle := front + Questions11To15;
    assert Questions == middle + Questions16To20;
    if i < 15 {
      assert Questions[i] == middle[i];
      if i < 10 {
        assert middle[i] == front[i];
      }
    }
  }

  /** The option keys "A" to "D". */
  lemma OptionKeys()
    ensures OptionKey(0) == "A" && OptionKey(1) == "B" && OptionKey(2) == "C" && OptionKey(3) == "D"
  {
  }

  lemma GroupWellFormed1To5(j: int)
    requires 0 <= j < 5
    ensures WellFormedAt(Questions1To5[j], j) && Rank(Questions1To5[j].level) == RankAt(j)
  {
    OptionKeys();
    if j == 0 {
      assert WellFormedAt(Questions1To5[0], 0);
    } else if j == 1 {
      assert WellFormedAt(Questions1To5[1], 1);
    } else if j == 2 {
      assert WellFormedAt(Questions1To5[2], 2);
    } else if j == 3 {
      assert WellFormedAt(Questions1To5[3], 3);
    } else {
      assert WellFormedAt(Questions1To5[4], 4);
    }
  }

  lemma GroupWellFormed6To10(j: int)
    requires 0 <= j < 5
    ensures WellFormedAt(Questions6To10[j], j + 5) && Rank(Questions6To10[j].level) == RankAt(j + 5)
  {
    OptionKeys();
    if j == 0 {
      assert WellFormedAt(Questions6To10[0], 0 + 5);
    } else if j == 1 {
      assert WellFormedAt(Questions6To10[1], 1 + 5);
    } else if j == 2 {
      assert WellFormedAt(Questions6To10[2], 2 + 5);
    } else if j == 3 {
      assert WellFormedAt(Questions6To10[3], 3 + 5);
    } else {
      assert WellFormedAt(Questions6To10[4], 4 + 5);
    }
  }

  lemma GroupWellFormed11To15(j: int)
    requires 0 <= j < 5
    ensures WellFormedAt(Questions11To15[j], j + 10) && Rank(Questions11To15[j].level) == RankAt(j + 10)
  {
    OptionKeys();
    if j == 0 {
      assert WellFormedAt(Questions11To15[0], 0 + 10);
    } else if j == 1 {
      assert WellFormedAt(Questions11To15[1], 1 + 10);
    } else if j == 2 {
      assert WellFormedAt(Questions11To15[2], 2 + 10);
    } else if j == 3 {
      assert WellFormedAt(Questions11To15[3], 3 + 10);
    } else {
      assert WellFormedAt(Questions11To15[4], 4 + 10);
    }
  }

  lemma GroupWellFormed16To20(j: int)
    requires 0 <= j < 5
    ensures WellFormedAt(Questions16To20[j], j + 15) && Rank(Questions16To20[j].level) == RankAt(j + 15)
  {
    OptionKeys();
    if j == 0 {
      assert WellFormedAt(Questions16To20[0], 0 + 15);
    } else if j == 1 {
      assert WellFormedAt(Questions16To20[1], 1 + 15);
    } else if j == 2 {
      assert WellFormedAt(Questions16To20[2], 2 + 15);
    } else if j == 3 {
      assert WellFormedAt(Questions16To20[3], 3 + 15);
    } else {
      assert WellFormedAt(Questions16To20[4], 4 + 15);
    }
  }

  /** Levels climb along the bank: every level is HSK 1 to 6 or "7-9", the
      bank starts at HSK 1, ends at "7-9", and never goes down. */
  lemma QuestionLevelsAscend()
    ensures forall i :: 0 <= i < |Questions| ==> 1 <= Rank(Questions[i].level) <= 7
    ensures Questions[0].level == Hsk(1) && Questions[|Questions| - 1].level == Advanced
    ensures forall i, j :: 0 <= i <= j < |Questions| ==> Rank(Questions[i].level) <= Rank(Questions[j].level)
  {
    QuestionAt(0);
    QuestionAt(19);
    forall i | 0 <= i < |Questions|
      ensures 1 <= Rank(Questions[i].level) <= 7
    {
      RanksAscendFrom(i, i);
    }
    forall i, j | 0 <= i <= j < |Questions|
      ensures Rank(Questions[i].level) <= Rank(Questions[j].level)
    {
      RanksAscendFrom(i, j);
    }
  }

  /** The ranks of the bank, position by position. */
  function RankAt(i: int): int
    requires 0 <= i < 20
  {
    if i < 3 then 1 else if i < 6 then 2 else if i < 9 then 3 else if i < 12 then 4
    else if i < 15 then 5 else if i < 18 then 6 else 7
  }

  lemma RankAtIndex(i: int)
    requires 0 <= i < 20
    ensures Rank(Questions[i].level) == RankAt(i)
  {
    QuestionAt(i);
    if i < 5 {
      GroupWellFormed1To5(i);
    } else if i < 10 {
      GroupWellFormed6To10(i - 5);
    } else if i < 15 {
      GroupWellFormed11To15(i - 10);
    } else {
      GroupWellFormed16To20(i - 15);
    }
  }

  lemma RanksAscendFrom(i: int, j: int)
    requires 0 <= i <= j < 20
    ensures 1 <= Rank(Questions[i].level) <= Rank(Questions[j].level) <= 7
  {
    RankAtIndex(i);
    RankAtIndex(j);
  }

  /** What `getLevelRecommendation` returns: a label and a level key. */
  datatype Recommendation = Recommendation(level: string, key: string)

  /** `getLevelRecommendation(score)`. */
  function GetLevelRecommendation(score: int): (r: Recommendation)
    ensures r.key in {"hsk1", "hsk2", "hsk3", "hsk4", "hsk5", "hsk6"}
  {
    if score < 5 then Recommendation("HSK 1", "hsk1")
    else if score <= 8 then Recommendation("HSK 2", "hsk2")
    else if score <= 12 then Recommendation("HSK 3", "hsk3")
    else if score <= 15 then Recommendation("HSK 4", "hsk4")
    else if score <= 18 then Recommendation("HSK 5", "hsk5")
    else Recommendation("HSK 6 / 7-9", "hsk6")
  }

  /** The HSK number a recommendation key names ("hsk3" is 3). */
  function KeyRank(key: string): int
  {
    if |key| == 4 && key[..3] == "hsk" && JsStrings.IsDigit(key[3]) then JsStrings.DigitValue(key[3]) else 0
  }

  /** The scores at which the recommendation moves up a level. */
  const Thresholds: seq<int> := [5, 9, 13, 16, 19]

  /** How many of `ts` the score reaches. */
  function Reached(score: int, ts: seq<int>): nat
  {
    if ts == [] then 0 else (if score >= ts[0] then 1 else 0) + Reached(score, ts[1..])
  }

  /** The recommended level is one plus the number of thresholds the score
      reaches, and its label names that level. */
  lemma RecommendationCountsThresholds(score: int)
    ensures KeyRank(GetLevelRecommendation(score).key) == 1 + Reached(score, Thresholds)
    ensures var r := GetLevelRecommendation(score);
            r.level == (if KeyRank(r.key) == 6 then "HSK 6 / 7-9" else "HSK " + r.key[3..])
  {
    var b := (x: bool) => if x then 1 else 0;
    assert Reached(score, [19]) == b(score >= 19) by {
      assert [19][1..] == [];
    }
    assert Reached(score, [16, 19]) == b(score >= 16) + b(score >= 19) by {
      assert [16, 19][1..] == [19];
    }
    assert Reached(score, [13, 16, 19]) == b(score >= 13) + b(score >= 16) + b(score >= 19) by {
      assert [13, 16, 19][1..] == [16, 19];
    }
    assert Reached(score, [9, 13, 16, 19]) == b(score >= 9) + b(score >= 13) + b(score >= 16) + b(score >= 19) by {
      assert [9, 13, 16, 19][1..] == [13, 16, 19];
    }
    assert Thresholds[1..] == [9, 13, 16, 19];
  }

  /** A higher score never gets a lower recommendation. */
  lemma RecommendationMonotone(s1: int, s2: int)
    requires s1 <= s2
    ensures KeyRank(GetLevelRecommendation(s1).key) <= KeyRank(GetLevelRecommendation(s2).key)
  {
    RecommendationCountsThresholds(s1);
    RecommendationCountsThresholds(s2);
    ReachedMonotone(s1, s2, Thresholds);
  }

  lemma {:induction false} ReachedMonotone(s1: int, s2: int, ts: seq<int>)
    requires s1 <= s2
    ensures Reached(s1, ts) <= Reached(s2, ts)
    decreases |ts|
  {
    if ts != [] {
      ReachedMonotone(s1, s2, ts[1..]);
    }
  }

  /** No answer right gives HSK 1; all twenty right give HSK 6. */
  lemma RecommendationExtremes()
    ensures GetLevelRecommendation(0).key == "hsk1"
    ensures GetLevelRecommendation(|Questions|).key == "hsk6"
  {
  }
}
