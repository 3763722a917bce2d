/**
 * The score record the page shows: rank, percentile and correct answers out
 * of the total, replaced as a whole by the update form, plus the two values
 * derived from it on the page (the donut's slices and the comparison with the
 * average percentile).
 */
module TestScores {
  import ComparisonCurve

  datatype TestScore = TestScore(rank: real, percentile: real, correctAnswers: real, totalQuestions: real)

  /** The record the page starts with. */
  const InitialScores: TestScore := TestScore(4.0, 90.0, 12.0, 15.0)

  /** The update form always writes this question count. */
  const QuestionsPerTest: real := 15.0

  /** The average percentile the page's sentence compares against. */
  const AveragePercentile: real := 72.0

  /** The three numbers read from the update form. */
  datatype UpdateForm = UpdateForm(rank: real, percentile: real, score: real)

  /** The form opens pre-filled with the current record's values. */
  function FormDefaults(s: TestScore): (f: UpdateForm)
    ensures f.rank == s.rank && f.percentile == s.percentile && f.score == s.correctAnswers
  {
    UpdateForm(s.rank, s.percentile, s.correctAnswers)
  }

  /**
   * Submitting the form replaces the whole record; the question count is
   * forced to 15 and no range is enforced on the submitted values.
   */
  function Submit(current: TestScore, form: UpdateForm): (next: TestScore)
    ensures next.rank == form.rank
    ensures next.percentile == form.percentile
    ensures next.correctAnswers == form.score
    ensures next.totalQuestions == QuestionsPerTest
  {
    TestScore(form.rank, form.percentile, form.score, QuestionsPerTest)
  }

  /** Nothing of the previous record survives a submit. */
  lemma SubmitReplacesWholesale(a: TestScore, b: TestScore, form: UpdateForm)
    ensures Submit(a, form) == Submit(b, form)
  {
  }

  /** Submitting the same form twice is the same as submitting it once. */
  lemma SubmitIsIdempotent(s: TestScore, form: UpdateForm)
    ensures Submit(Submit(s, form), form) == Submit(s, form)
  {
  }

  /**
   * Saving the form unchanged gives back the record exactly when that record
   * already counts 15 questions.
   */
  lemma SaveUnchangedRoundTrip(s: TestScore)
    ensures Submit(s, FormDefaults(s)) == s <==> s.totalQuestions == QuestionsPerTest
  {
  }

  /** The donut's two slices: correct answers and the rest of the questions. */
  function DonutSlices(s: TestScore): (d: seq<real>)
    ensures |d| == 2
    ensures d[0] == s.correctAnswers
    ensures d[0] + d[1] == s.totalQuestions
  {
    [s.correctAnswers, s.totalQuestions - s.correctAnswers]
  }

  /** After a submit the incorrect slice is 15 minus the submitted score. */
  lemma IncorrectAfterSubmit(s: TestScore, form: UpdateForm)
    ensures DonutSlices(Submit(s, form))[1] == 15.0 - form.score
  {
  }

  /** The word of the sentence comparing the percentile with the average. */
  function ComparisonWord(percentile: real): (w: string)
    ensures w == "higher" || w == "lower"
    ensures w == "higher" <==> percentile > AveragePercentile
  {
    if percentile > AveragePercentile then "higher" else "lower"
  }

  /** The initial page: "higher" than 72, slices 12 and 3, high curve flagged at x = 90. */
  lemma InitialPageScenario()
    ensures ComparisonWord(InitialScores.percentile) == "higher"
    ensures DonutSlices(InitialScores) == [12.0, 3.0]
    ensures |ComparisonCurve.GenerateGraphData(InitialScores.percentile)| == 13
    ensures ComparisonCurve.GenerateGraphData(InitialScores.percentile)[10].x == 90
    ensures ComparisonCurve.GenerateGraphData(InitialScores.percentile)[10].isPercentile
  {
    ComparisonCurve.InitialPercentileCase();
  }

  /**
   * Submitting rank 7, percentile 45 and score 9: the record becomes
   * {7, 45, 9, 15}, the sentence says "lower", the slices are 9 and 6, and
   * the low curve is flagged at x = 45.
   */
  lemma SubmitScenario()
    ensures Submit(InitialScores, UpdateForm(7.0, 45.0, 9.0)) == TestScore(7.0, 45.0, 9.0, 15.0)
    ensures ComparisonWord(45.0) == "lower"
    ensures DonutSlices(TestScore(7.0, 45.0, 9.0, 15.0)) == [9.0, 6.0]
    ensures |ComparisonCurve.GenerateGraphData(45.0)| == 15
    ensures ComparisonCurve.GenerateGraphData(45.0)[6].x == 45
    ensures ComparisonCurve.GenerateGraphData(45.0)[6].isPercentile
  {
    ComparisonCurve.Percentile45Case();
  }
}
