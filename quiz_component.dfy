/** The quiz component (components/quiz/QuizPage.tsx): scores computed from
    the answers record of the quiz-flow hook, the colour and advice bands of
    the results, the chart entries and the submit-button condition. */
module QuizComponent {
  import opened Common
  import opened Questions
  import QuizScreen

  /** The answers record: question id to value; an absent key reads as 0. */
  type AnswerRecord = map<string, int>

  function ValueOf(answers: AnswerRecord, id: string): int
  {
    if id in answers then answers[id] else 0
  }

  /** The component's inversion rule: the question's flag, or a dimension
      named exactly "Stress". */
  predicate Inverts(q: Question)
  {
    q.inverted || q.dimension == "Stress"
  }

  /** The sum of the normalised answers of `qs`. */
  function RecordTotal(qs: seq<Question>, answers: AnswerRecord): real
    requires ProperScales(qs)
  {
    if qs == [] then 0.0
    else
      var q := qs[|qs| - 1];
      RecordTotal(qs[..|qs| - 1], answers)
      + NormalizeScore(ValueOf(answers, q.id), q.scale.min, q.scale.max, Inverts(q))
  }

  /** Every dimension of `dims` has a question in `cat`. */
  predicate Covered(cat: seq<Question>, dims: seq<string>)
  {
    forall k :: 0 <= k < |dims| ==> |FilterByDimension(cat, dims[k])| >= 1
  }

  /** The scores of `dims` over `cat`: the total divided by the question
      count, with no guard against an empty dimension, which the caller
      rules out. */
  function RecordScoresOver(cat: seq<Question>, dims: seq<string>, answers: AnswerRecord): (r: seq<real>)
    requires ProperScales(cat) && Covered(cat, dims)
    ensures |r| == |dims|
  {
    seq(|dims|, k requires 0 <= k < |dims| =>
      FilterProperScales(cat, dims[k]);
      RecordTotal(FilterByDimension(cat, dims[k]), answers) / |FilterByDimension(cat, dims[k])| as real)
  }

  lemma CatalogCovered()
    ensures Covered(Catalog, Dimensions)
  {
    forall k | 0 <= k < |Dimensions| ensures |FilterByDimension(Catalog, Dimensions[k])| >= 1 {
      QuestionsByDimensionSpec(Dimensions[k]);
    }
  }

  /** `calculateScores`: one score per entry of `dimensions`, in order; well
      defined because every catalog dimension has a question. */
  function CalculateScores(answers: AnswerRecord): (r: seq<real>)
    ensures |r| == |Dimensions|
  {
    CatalogProperScales();
    CatalogCovered();
    RecordScoresOver(Catalog, Dimensions, answers)
  }

  /** Without a dimension called "Stress", the component's inversion rule
      is the question's own flag, and its total is the screen's total over
      an array holding the same values. */
  lemma {:induction false} TotalMatchesArray(cat: seq<Question>, qs: seq<Question>, answers: AnswerRecord,
                                             arr: seq<int>)
    requires ProperScales(qs)
    requires forall i :: 0 <= i < |qs| ==> qs[i].dimension != "Stress"
    requires forall i :: 0 <= i < |qs| ==> ValueOf(answers, qs[i].id) == QuizScreen.AnswerAt(arr, QuizScreen.FindIndex(cat, qs[i].id))
    ensures RecordTotal(qs, answers) == QuizScreen.PageTotal(cat, qs, arr)
  {
    if qs != [] {
      var init := qs[..|qs| - 1];
      assert forall i :: 0 <= i < |init| ==> init[i] == qs[i];
      TotalMatchesArray(cat, init, answers, arr);
    }
  }

  /** Filtering keeps only questions of the input. */
  lemma {:induction false} FilterSubset(qs: seq<Question>, d: string)
    ensures forall i :: 0 <= i < |FilterByDimension(qs, d)| ==> FilterByDimension(qs, d)[i] in qs
  {
    if qs != [] {
      FilterSubset(qs[..|qs| - 1], d);
    }
  }

  lemma ScoresMatchArray(cat: seq<Question>, dims: seq<string>, answers: AnswerRecord, arr: seq<int>)
    requires ProperScales(cat) && Covered(cat, dims)
    requires forall i :: 0 <= i < |cat| ==> cat[i].dimension != "Stress"
    requires forall i :: 0 <= i < |cat| ==> ValueOf(answers, cat[i].id) == QuizScreen.AnswerAt(arr, QuizScreen.FindIndex(cat, cat[i].id))
    ensures RecordScoresOver(cat, dims, answers) == QuizScreen.ScoresOver(cat, dims, arr)
  {
    forall k | 0 <= k < |dims|
      ensures RecordScoresOver(cat, dims, answers)[k] == QuizScreen.ScoresOver(cat, dims, arr)[k]
    {
      FilterProperScales(cat, dims[k]);
      DimensionMatchesArray(cat, dims[k], answers, arr);
    }
  }

  /** One dimension of `ScoresMatchArray`. */
  lemma DimensionMatchesArray(cat: seq<Question>, d: string, answers: AnswerRecord, arr: seq<int>)
    requires ProperScales(cat) && ProperScales(FilterByDimension(cat, d))
    requires forall i :: 0 <= i < |cat| ==> cat[i].dimension != "Stress"
    requires forall i :: 0 <= i < |cat| ==> ValueOf(answers, cat[i].id) == QuizScreen.AnswerAt(arr, QuizScreen.FindIndex(cat, cat[i].id))
    ensures RecordTotal(FilterByDimension(cat, d), answers) == QuizScreen.DimTotal(cat, cat, arr, d)
  {
    var qs := FilterByDimension(cat, d);
    FilterSubset(cat, d);
    forall i | 0 <= i < |qs|
      ensures qs[i].dimension != "Stress"
      ensures ValueOf(answers, qs[i].id) == QuizScreen.AnswerAt(arr, QuizScreen.FindIndex(cat, qs[i].id))
    {
      var j :| 0 <= j < |cat| && cat[j] == qs[i];
    }
    TotalMatchesArray(cat, qs, answers, arr);
  }

  /** The record variant and the array variant (app/quiz/page.tsx) agree
      when the record holds, for each catalog question, the value at its
      position in the array (0 for a missing key); the "Stress" rule never
      applies to the catalog and the max(count, 1) guard never changes a
      divisor. */
  lemma AgreesWithScreen(answers: AnswerRecord, arr: seq<int>)
    requires |arr| == |Catalog|
    requires forall i :: 0 <= i < |arr| ==> ValueOf(answers, Catalog[i].id) == arr[i]
    ensures CalculateScores(answers) == QuizScreen.CalculateScores(arr)
  {
    CatalogProperScales();
    CatalogCovered();
    CatalogIdsDistinct();
    NoStressDimension();
    forall i | 0 <= i < |Catalog|
      ensures ValueOf(answers, Catalog[i].id) == QuizScreen.AnswerAt(arr, QuizScreen.FindIndex(Catalog, Catalog[i].id))
    {
      QuizScreen.FindOwnIndex(Catalog, i);
    }
    ScoresMatchArray(Catalog, Dimensions, answers, arr);
  }

  const Green := "#B2D8B2"
  const Pink := "#FFD3E0"
  const Blue := "#A7C7E7"

  /** `getColor`: above 70, above 50, otherwise; 70 and 50 fall in the
      lower band. */
  function GetColor(score: real): (r: string)
    ensures r == Green <==> score > 70.0
    ensures r == Pink <==> 50.0 < score <= 70.0
    ensures r == Blue <==> score <= 50.0
  {
    if score > 70.0 then Green else if score > 50.0 then Pink else Blue
  }

  /** `getAdvice`, on the same bands as `getColor`. */
  function GetAdvice(dim: string, score: real): (r: string)
    ensures score > 70.0 ==> r == "Super, " + dim + " au top !"
    ensures 50.0 < score <= 70.0 ==> r == dim + " : à peaufiner."
    ensures score <= 50.0 ==> r == dim + " : à surveiller."
  {
    if score > 70.0 then "Super, " + dim + " au top !"
    else if score > 50.0 then dim + " : à peaufiner."
    else dim + " : à surveiller."
  }

  /** The advice and the colour always name the same band. */
  lemma AdviceMatchesColor(dim: string, score: real)
    ensures GetAdvice(dim, score) == "Super, " + dim + " au top !" <==> GetColor(score) == Green
    ensures GetAdvice(dim, score) == dim + " : à surveiller." <==> GetColor(score) == Blue
  {
    var top := "Super, " + dim + " au top !";
    var watch := dim + " : à surveiller.";
    var polish := dim + " : à peaufiner.";
    assert top != watch by { assert top[|top| - 1] == '!' && watch[|watch| - 1] == '.'; }
    assert top != polish by { assert |top| != |polish|; }
    assert watch != polish by { assert |watch| != |polish|; }
  }

  datatype ChartPoint = ChartPoint(dimension: string, score: real, fill: string)

  /** The results chart: the score capped at 100, the colour taken from
      the uncapped score. */
  function ChartData(dims: seq<string>, scores: seq<real>): (r: seq<ChartPoint>)
    requires |scores| == |dims|
    ensures |r| == |dims|
    ensures forall i :: 0 <= i < |r| ==>
      r[i].dimension == dims[i] && r[i].score == MinReal(scores[i], 100.0) && r[i].fill == GetColor(scores[i])
  {
    seq(|dims|, i requires 0 <= i < |dims| => ChartPoint(dims[i], MinReal(scores[i], 100.0), GetColor(scores[i])))
  }

  /** Capping does not change the band (100 is above 70), so the colour is
      also that of the displayed score, which never exceeds 100. */
  lemma ChartColourOfShownScore(dims: seq<string>, scores: seq<real>)
    requires |scores| == |dims|
    ensures forall i :: 0 <= i < |dims| ==>
      ChartData(dims, scores)[i].fill == GetColor(ChartData(dims, scores)[i].score)
      && ChartData(dims, scores)[i].score <= 100.0
  {
  }

  /** The submit button is enabled only with the four profile fields filled
      in, consent given, and no submission in flight. */
  predicate SubmitEnabled(facility: string, job: string, age: string, seniority: string,
                          consent: bool, loading: bool)
  {
    facility != "" && job != "" && age != "" && seniority != "" && consent && !loading
  }
}
