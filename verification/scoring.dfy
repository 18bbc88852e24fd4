/** The pass verdict, the integer score and the percentage score of
    executeUserCode, with Java's truncating `int` division. */
module Scoring {
  import JavaText

  /** `casePassed * 100 / caseCount >= minimumPercentageToPass`.  Because the
      quotient is truncated, this is the same as comparing cross-multiplied
      values: no rounding up in the candidate's favour. */
  function PassVerdict(passed: nat, caseCount: int, minimumPercentage: int): (pass: bool)
    requires caseCount > 0
    ensures pass <==> 100 * passed >= minimumPercentage * caseCount
  {
    var pct := JavaText.JavaDiv(passed * 100, caseCount);
    assert pct * caseCount <= 100 * passed < (pct + 1) * caseCount;
    ThresholdByCrossMultiplying(pct, 100 * passed, caseCount, minimumPercentage);
    pct >= minimumPercentage
  }

  lemma ThresholdByCrossMultiplying(q: int, x: int, n: int, m: int)
    requires n > 0 && q * n <= x < (q + 1) * n
    ensures q >= m <==> x >= m * n
  {
    if q >= m {
      assert q * n >= m * n by { MultiplyMonotone(m, q, n); }
    } else {
      assert q + 1 <= m;
      assert (q + 1) * n <= m * n by { MultiplyMonotone(q + 1, m, n); }
    }
  }

  lemma MultiplyMonotone(a: int, b: int, n: int)
    requires a <= b && n > 0
    ensures a * n <= b * n
  {
    assert b * n - a * n == (b - a) * n;
  }

  /** `marks * casePassed / totalSubmitCases`, truncated toward zero.  With
      non-negative marks and no more passes than cases the score lies in
      [0, marks], and it is the largest whole share not above the exact one. */
  function Score(marks: int, passed: nat, totalSubmitCases: int): (score: int)
    requires totalSubmitCases != 0
    ensures 0 <= marks && passed <= totalSubmitCases ==> 0 <= score <= marks
    ensures 0 < totalSubmitCases && 0 <= marks ==>
              score * totalSubmitCases <= marks * passed < (score + 1) * totalSubmitCases
  {
    var score := JavaText.JavaDiv(marks * passed, totalSubmitCases);
    ScoreBounds(marks, passed, totalSubmitCases, score);
    score
  }

  lemma ScoreBounds(marks: int, passed: nat, total: int, score: int)
    requires total != 0
    requires 0 <= score * total <= marks * passed || marks * passed <= score * total <= 0
    requires JavaText.Abs(marks * passed - score * total) < JavaText.Abs(total)
    ensures 0 <= marks && passed <= total ==> 0 <= score <= marks
    ensures 0 < total && 0 <= marks ==> score * total <= marks * passed < (score + 1) * total
  {
    if 0 < total && 0 <= marks {
      if passed > 0 { MultiplyMonotone(0, marks, passed); }
      ScoreFloor(marks * passed, score, total);
      if passed <= total {
        ScoreWithinMarks(marks, passed, total, score);
      }
    }
  }

  /** A truncated quotient of a non-negative value by a positive divisor is
      its floor. */
  lemma ScoreFloor(x: int, score: int, total: int)
    requires total > 0 && x >= 0
    requires 0 <= score * total <= x || x <= score * total <= 0
    requires JavaText.Abs(x - score * total) < total
    ensures score * total <= x < (score + 1) * total
  {
    assert (score + 1) * total == score * total + total;
  }

  /** The floor of marks * passed / total lies in [0, marks] when passed <= total. */
  lemma ScoreWithinMarks(marks: int, passed: nat, total: int, score: int)
    requires 0 <= marks && passed <= total && total > 0
    requires score * total <= marks * passed < (score + 1) * total
    ensures 0 <= score <= marks
  {
    if passed < total {
      MultiplyMonotone(passed, total, marks + 1);
      assert marks * passed <= marks * total by {
        assert marks * total - marks * passed == marks * (total - passed);
        if marks > 0 { MultiplyMonotone(0, total - passed, marks); }
      }
    }
    assert (marks + 1) * total == marks * total + total;
    if score > marks {
      MultiplyMonotone(marks + 1, score, total);
    }
    if score < 0 {
      MultiplyMonotone(score + 1, 0, total);
    }
  }

  /** `100.0 * score / marks` when the exercise carries marks, otherwise 0. */
  function PercentageScore(marks: int, score: int): (pct: real)
    ensures marks <= 0 ==> pct == 0.0
    ensures 0 < marks && 0 <= score <= marks ==> 0.0 <= pct <= 100.0
    ensures 0 < marks ==> pct * (marks as real) == 100.0 * (score as real)
  {
    if marks > 0 then 100.0 * (score as real) / (marks as real) else 0.0
  }

  /** The worked cases: 2 of 3 passing is 66 percent after truncation, so a
      67 percent threshold fails and a 66 percent one passes; 3 of 4 cases
      on a 10-mark exercise score 7 marks, which is 70 percent. */
  lemma {:induction false} ScoringExamples()
    ensures !PassVerdict(2, 3, 67) && PassVerdict(2, 3, 66)
    ensures Score(10, 3, 4) == 7 && PercentageScore(10, 7) == 70.0
  {
  }
}
