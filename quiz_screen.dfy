/** The quiz screen (app/quiz/page.tsx): answers are kept in an array indexed
    like the catalog, 0 meaning unanswered; the screen steps through the
    questions, then a profile form, then shows locally computed scores
    whether or not the submission reached the server. */
module QuizScreen {
  import opened Common
  import opened Questions
  import QuizUtils
  import opened Js
  import Schemas

  /** The number of catalog questions, the length of the answers array. */
  const QuestionCount: nat := 38

  lemma CatalogLength()
    ensures |Catalog| == QuestionCount
  {
    CatalogShape();
  }

  /** `questions.findIndex(qq => qq.id === id)`: the first position of `id`,
      or -1. */
  function FindIndex(cat: seq<Question>, id: string): (r: int)
    ensures -1 <= r < |cat|
    ensures r >= 0 ==> cat[r].id == id && forall j :: 0 <= j < r ==> cat[j].id != id
    ensures r == -1 <==> forall j :: 0 <= j < |cat| ==> cat[j].id != id
  {
    if cat == [] then -1
    else if cat[0].id == id then 0
    else
      var k := FindIndex(cat[1..], id);
      if k == -1 then -1 else k + 1
  }

  /** With distinct ids, a question is found at its own position. */
  lemma FindOwnIndex(cat: seq<Question>, i: nat)
    requires forall a, b :: 0 <= a < b < |cat| ==> cat[a].id != cat[b].id
    requires i < |cat|
    ensures FindIndex(cat, cat[i].id) == i
  {
  }

  /** `answers[idx] ?? 0`: a position outside the array reads as 0. */
  function AnswerAt(answers: seq<int>, idx: int): int
  {
    if 0 <= idx < |answers| then answers[idx] else 0
  }

  /** The `reduce` of one dimension: the sum of the normalised answers of
      `qs`, each answer looked up by the question's position in `cat`. */
  function PageTotal(cat: seq<Question>, qs: seq<Question>, answers: seq<int>): real
    requires ProperScales(qs)
  {
    if qs == [] then 0.0
    else
      var q := qs[|qs| - 1];
      PageTotal(cat, qs[..|qs| - 1], answers)
      + NormalizeScore(AnswerAt(answers, FindIndex(cat, q.id)), q.scale.min, q.scale.max, q.inverted)
  }

  /** The total of dimension `d` among `qs`. */
  function DimTotal(cat: seq<Question>, qs: seq<Question>, answers: seq<int>, d: string): real
    requires ProperScales(qs)
  {
    FilterProperScales(qs, d);
    PageTotal(cat, FilterByDimension(qs, d), answers)
  }

  /** The scores of `dims` over the question list `cat`. */
  function ScoresOver(cat: seq<Question>, dims: seq<string>, answers: seq<int>): (r: seq<real>)
    requires ProperScales(cat)
    ensures |r| == |dims|
  {
    seq(|dims|, k requires 0 <= k < |dims| =>
      DimTotal(cat, cat, answers, dims[k]) / MaxInt(|FilterByDimension(cat, dims[k])|, 1) as real)
  }

  /** `calculateScores`: one score per entry of `dimensions`, in order; the
      dimension total is divided by max(question count, 1), so unanswered
      questions count in the denominator. */
  function CalculateScores(answers: seq<int>): (r: seq<real>)
    ensures |r| == |Dimensions|
  {
    CatalogProperScales();
    ScoresOver(Catalog, Dimensions, answers)
  }

  /** Padding the answers with zeros changes no total: a missing answer and
      an answer of 0 both contribute 0. */
  lemma {:induction false} PaddingIgnored(cat: seq<Question>, qs: seq<Question>, answers: seq<int>, zeros: seq<int>)
    requires ProperScales(qs)
    requires forall i :: 0 <= i < |zeros| ==> zeros[i] == 0
    ensures PageTotal(cat, qs, answers + zeros) == PageTotal(cat, qs, answers)
  {
    if qs != [] {
      var init := qs[..|qs| - 1];
      assert ProperScales(init);
      PaddingIgnored(cat, init, answers, zeros);
      var idx := FindIndex(cat, qs[|qs| - 1].id);
      assert AnswerAt(answers + zeros, idx) == AnswerAt(answers, idx);
    }
  }

  lemma ScoresOverPadding(cat: seq<Question>, dims: seq<string>, answers: seq<int>, zeros: seq<int>)
    requires ProperScales(cat)
    requires forall i :: 0 <= i < |zeros| ==> zeros[i] == 0
    ensures ScoresOver(cat, dims, answers + zeros) == ScoresOver(cat, dims, answers)
  {
    forall k | 0 <= k < |dims|
      ensures ScoresOver(cat, dims, answers + zeros)[k] == ScoresOver(cat, dims, answers)[k]
    {
      FilterProperScales(cat, dims[k]);
      PaddingIgnored(cat, FilterByDimension(cat, dims[k]), answers, zeros);
    }
  }

  /** A missing answer reads as 0: padding the array with zeros changes no
      score. */
  lemma MissingReadAsZero(answers: seq<int>, zeros: seq<int>)
    requires forall i :: 0 <= i < |zeros| ==> zeros[i] == 0
    ensures CalculateScores(answers + zeros) == CalculateScores(answers)
  {
    CatalogProperScales();
    ScoresOverPadding(Catalog, Dimensions, answers, zeros);
  }

  /** Each total lies between 0 and 100 times the number of questions when
      every answer read is 0 or on its question's scale. */
  lemma {:induction false} PageTotalBounds(cat: seq<Question>, qs: seq<Question>, answers: seq<int>)
    requires ProperScales(qs)
    requires forall i :: 0 <= i < |qs| ==>
      var v := AnswerAt(answers, FindIndex(cat, qs[i].id));
      v == 0 || qs[i].scale.min <= v <= qs[i].scale.max
    ensures 0.0 <= PageTotal(cat, qs, answers) <= 100.0 * |qs| as real
  {
    if qs != [] {
      var init := qs[..|qs| - 1];
      assert forall i :: 0 <= i < |init| ==> init[i] == qs[i];
      PageTotalBounds(cat, init, answers);
      var q := qs[|qs| - 1];
      var v := AnswerAt(answers, FindIndex(cat, q.id));
      if v != 0 {
        NormalizeInRange(v, q.scale.min, q.scale.max, q.inverted);
      }
    }
  }

  /** Filtering keeps the common scale of a list. */
  lemma {:induction false} FilterKeepsScale(qs: seq<Question>, d: string, scale: Scale)
    requires forall i :: 0 <= i < |qs| ==> qs[i].scale == scale
    ensures forall i :: 0 <= i < |FilterByDimension(qs, d)| ==> FilterByDimension(qs, d)[i].scale == scale
  {
    if qs != [] {
      var init := qs[..|qs| - 1];
      assert forall i :: 0 <= i < |init| ==> init[i] == qs[i];
      FilterKeepsScale(init, d, scale);
    }
  }

  lemma ScoresOverInRange(cat: seq<Question>, dims: seq<string>, answers: seq<int>, scale: Scale)
    requires scale.min < scale.max && forall i :: 0 <= i < |cat| ==> cat[i].scale == scale
    requires forall i :: 0 <= i < |answers| ==> answers[i] == 0 || scale.min <= answers[i] <= scale.max
    ensures ProperScales(cat)
    ensures forall k :: 0 <= k < |dims| ==> 0.0 <= ScoresOver(cat, dims, answers)[k] <= 100.0
  {
    forall k | 0 <= k < |dims|
      ensures 0.0 <= ScoresOver(cat, dims, answers)[k] <= 100.0
    {
      var qs := FilterByDimension(cat, dims[k]);
      FilterKeepsScale(cat, dims[k], scale);
      assert forall i :: 0 <= i < |qs| ==>
        var v := AnswerAt(answers, FindIndex(cat, qs[i].id));
        v == 0 || qs[i].scale.min <= v <= qs[i].scale.max;
      PageTotalBounds(cat, qs, answers);
      MeanOfTotal(PageTotal(cat, qs, answers), |qs|);
    }
  }

  /** A total of at most 100 per question, divided by max(count, 1), is a
      percentage. */
  lemma MeanOfTotal(t: real, n: nat)
    requires 0.0 <= t <= 100.0 * n as real
    ensures 0.0 <= t / MaxInt(n, 1) as real <= 100.0
  {
    var m := MaxInt(n, 1) as real;
    assert t <= 100.0 * m;
    assert t / m <= 100.0 * m / m;
  }

  /** With every answer 0 or on the 1..5 scale, every score is in [0, 100]. */
  lemma ScoresInRange(answers: seq<int>)
    requires forall i :: 0 <= i < |answers| ==> answers[i] == 0 || 1 <= answers[i] <= 5
    ensures forall k :: 0 <= k < |Dimensions| ==> 0.0 <= CalculateScores(answers)[k] <= 100.0
  {
    CatalogShape();
    ScoresOverInRange(Catalog, Dimensions, answers, LikertScale);
  }

  /** With the same answers at hand, the screen's total of a dimension is
      the sum `computeDimensionScores` takes over it. */
  lemma {:induction false} TotalsAgree(cat: seq<Question>, qs: seq<Question>, answers: seq<int>,
                                       responses: QuizUtils.Responses, d: string)
    requires ProperScales(qs)
    requires forall i :: 0 <= i < |qs| ==>
      qs[i].id in responses && AnswerAt(answers, FindIndex(cat, qs[i].id)) == responses[qs[i].id]
    ensures DimTotal(cat, qs, answers, d) == Sum(QuizUtils.AnsweredIn(qs, responses, d))
  {
    if qs != [] {
      var init := qs[..|qs| - 1];
      assert forall i :: 0 <= i < |init| ==> init[i] == qs[i];
      TotalsAgree(cat, init, answers, responses, d);
      var q := qs[|qs| - 1];
      if q.dimension == d {
        assert FilterByDimension(qs, d)[..|FilterByDimension(qs, d)| - 1] == FilterByDimension(init, d);
      }
    }
  }

  /** The array, read through `findIndex`, holds the record's values. */
  lemma ArrayMatchesRecord(cat: seq<Question>, answers: seq<int>, responses: QuizUtils.Responses)
    requires forall a, b :: 0 <= a < b < |cat| ==> cat[a].id != cat[b].id
    requires |answers| == |cat|
    requires forall i :: 0 <= i < |answers| ==> cat[i].id in responses && answers[i] == responses[cat[i].id]
    ensures forall i :: 0 <= i < |cat| ==>
      cat[i].id in responses && AnswerAt(answers, FindIndex(cat, cat[i].id)) == responses[cat[i].id]
  {
    forall i | 0 <= i < |cat|
      ensures AnswerAt(answers, FindIndex(cat, cat[i].id)) == responses[cat[i].id]
    {
      FindOwnIndex(cat, i);
    }
  }

  /** The catalog totals of the screen are the sums `computeDimensionScores`
      takes. */
  lemma CatalogTotalsAgree(answers: seq<int>, responses: QuizUtils.Responses)
    requires |answers| == QuestionCount
    requires forall i :: 0 <= i < |answers| ==>
      Catalog[i].id in responses && answers[i] == responses[Catalog[i].id]
    ensures forall k :: 0 <= k < |Dimensions| ==>
      CalculateScores(answers)[k]
      == Sum(QuizUtils.CatalogAnswered(responses, Dimensions[k])) / MaxInt(|QuestionsByDimension(Dimensions[k])|, 1) as real
  {
    CatalogLength();
    CatalogProperScales();
    CatalogIdsDistinct();
    ArrayMatchesRecord(Catalog, answers, responses);
    forall k | 0 <= k < |Dimensions|
      ensures DimTotal(Catalog, Catalog, answers, Dimensions[k]) == Sum(QuizUtils.CatalogAnswered(responses, Dimensions[k]))
    {
      TotalsAgree(Catalog, Catalog, answers, responses, Dimensions[k]);
    }
  }

  /** With every catalog question answered, every dimension has a
      `computeDimensionScores` entry. */
  lemma AllDimensionsScored(responses: QuizUtils.Responses)
    requires forall i :: 0 <= i < |Catalog| ==> Catalog[i].id in responses
    ensures forall k :: 0 <= k < |Dimensions| ==>
      Dimensions[k] in QuizUtils.ScoreDims(QuizUtils.DimensionScores(responses))
  {
    QuizUtils.DimensionScoresSpec(responses);
    DimensionsUsed();
    forall k | 0 <= k < |Dimensions|
      ensures Dimensions[k] in QuizUtils.ScoreDims(QuizUtils.DimensionScores(responses))
    {
      assert Dimensions[k] in Dimensions;
      var i :| 0 <= i < |Catalog| && Catalog[i].dimension == Dimensions[k];
      assert Catalog[i].id in responses;
    }
  }

  /** With every catalog question answered (the array and the record hold
      the same values), the average `computeDimensionScores` gives a
      dimension is the screen's score for it, rounded. */
  lemma AgreesWithQuizUtils(answers: seq<int>, responses: QuizUtils.Responses)
    requires |answers| == QuestionCount
    requires forall i :: 0 <= i < |answers| ==>
      Catalog[i].id in responses && answers[i] == responses[Catalog[i].id]
    ensures forall j, k ::
      (0 <= j < |QuizUtils.DimensionScores(responses)| && 0 <= k < |Dimensions|
       && QuizUtils.DimensionScores(responses)[j].dimension == Dimensions[k])
      ==> QuizUtils.DimensionScores(responses)[j].average == Round(CalculateScores(answers)[k])
  {
    CatalogLength();
    var r := QuizUtils.DimensionScores(responses);
    QuizUtils.DimensionScoresSpec(responses);
    QuizUtils.FullCounts(responses);
    CatalogTotalsAgree(answers, responses);
    forall j, k | 0 <= j < |r| && 0 <= k < |Dimensions| && r[j].dimension == Dimensions[k]
      ensures r[j].average == Round(CalculateScores(answers)[k])
    {
      assert MaxInt(|QuestionsByDimension(Dimensions[k])|, 1) == r[j].count;
    }
  }

  /** `labelForDim`: only "Stress et détente" is relabelled. */
  function LabelForDim(d: string): (r: string)
    ensures r == d <==> d != "Stress et détente"
    ensures d == "Stress et détente" ==> r == "Détente (↗ mieux)"
  {
    if d == "Stress et détente" then "Détente (↗ mieux)" else d
  }

  datatype ChartPoint = ChartPoint(dimension: string, score: real)

  /** The results chart: the score capped at 100, then rounded to one
      decimal. */
  function ChartData(dims: seq<string>, scores: seq<real>): (r: seq<ChartPoint>)
    requires |scores| == |dims|
    ensures |r| == |dims|
    ensures forall i :: 0 <= i < |r| ==> r[i].dimension == LabelForDim(dims[i])
    ensures forall i :: 0 <= i < |r| ==>
      && r[i].score <= 100.0
      && r[i].score == RoundTenth(MinReal(scores[i], 100.0))
    ensures forall i :: 0 <= i < |r| && scores[i] >= 0.0 ==> r[i].score >= 0.0
  {
    seq(|dims|, i requires 0 <= i < |dims| => ChartPoint(LabelForDim(dims[i]), CappedTenth(scores[i])))
  }

  /** A score capped at 100 and rounded to one decimal: a whole number of
      tenths, never above 100, never negative for a non-negative score,
      and within half a tenth of the capped score. */
  function CappedTenth(x: real): (r: real)
    ensures r <= 100.0
    ensures MinReal(x, 100.0) - 0.05 < r <= MinReal(x, 100.0) + 0.05
    ensures (r * 10.0).Floor as real == r * 10.0
    ensures r == RoundTenth(MinReal(x, 100.0))
    ensures x >= 0.0 ==> r >= 0.0
  {
    var c := MinReal(x, 100.0);
    assert Round(c * 10.0) <= 1000;
    RoundTenth(c)
  }

  /** A submitted row: `{questionId, score}`. */
  datatype AnswerRow = AnswerRow(questionId: string, score: int)

  /** The catalog positions below `n` whose answer reaches the scale
      minimum. */
  function Kept(cat: seq<Question>, answers: seq<int>, n: nat): seq<nat>
    requires n <= |cat|
  {
    if n == 0 then []
    else Kept(cat, answers, n - 1) + (if AnswerAt(answers, n - 1) >= cat[n - 1].scale.min then [n - 1] else [])
  }

  /** `formattedAnswers`: one row per catalog question, in catalog order,
      keeping only those whose answer is at least the scale minimum. */
  function FormattedAnswers(cat: seq<Question>, answers: seq<int>): seq<AnswerRow>
  {
    var kept := Kept(cat, answers, |cat|);
    KeptSpec(cat, answers, |cat|);
    seq(|kept|, k requires 0 <= k < |kept| => AnswerRow(cat[kept[k]].id, AnswerAt(answers, kept[k])))
  }

  /** The kept positions are increasing (catalog order) and are exactly the
      answered ones. */
  lemma {:induction false} KeptSpec(cat: seq<Question>, answers: seq<int>, n: nat)
    requires n <= |cat|
    ensures forall k :: 0 <= k < |Kept(cat, answers, n)| ==> Kept(cat, answers, n)[k] < n
    ensures StrictlyIncreasing(Kept(cat, answers, n))
    ensures forall i :: 0 <= i < n ==> (i in Kept(cat, answers, n) <==> AnswerAt(answers, i) >= cat[i].scale.min)
  {
    if n > 0 {
      KeptSpec(cat, answers, n - 1);
    }
  }

  /** The row for the catalog question at position `i`. */
  function RowAt(cat: seq<Question>, answers: seq<int>, i: nat): AnswerRow
    requires i < |cat|
  {
    AnswerRow(cat[i].id, AnswerAt(answers, i))
  }

  /** Rows follow catalog order: with distinct ids, the catalog positions
      of the submitted ids increase. */
  lemma FormattedAnswersOrdered(cat: seq<Question>, answers: seq<int>)
    requires forall a, b :: 0 <= a < b < |cat| ==> cat[a].id != cat[b].id
    ensures forall a, b :: 0 <= a < b < |FormattedAnswers(cat, answers)| ==>
      FindIndex(cat, FormattedAnswers(cat, answers)[a].questionId)
      < FindIndex(cat, FormattedAnswers(cat, answers)[b].questionId)
  {
    var r := FormattedAnswers(cat, answers);
    var kept := Kept(cat, answers, |cat|);
    KeptSpec(cat, answers, |cat|);
    forall k | 0 <= k < |kept| ensures FindIndex(cat, r[k].questionId) == kept[k] {
      FindOwnIndex(cat, kept[k]);
    }
  }

  /** A question is submitted exactly when its answer reaches the scale
      minimum. */
  lemma FormattedAnswersMembers(cat: seq<Question>, answers: seq<int>)
    requires forall a, b :: 0 <= a < b < |cat| ==> cat[a].id != cat[b].id
    ensures forall i :: 0 <= i < |cat| ==>
      (RowAt(cat, answers, i) in FormattedAnswers(cat, answers) <==> AnswerAt(answers, i) >= cat[i].scale.min)
  {
    var r := FormattedAnswers(cat, answers);
    var kept := Kept(cat, answers, |cat|);
    KeptSpec(cat, answers, |cat|);
    forall i | 0 <= i < |cat|
      ensures RowAt(cat, answers, i) in r <==> AnswerAt(answers, i) >= cat[i].scale.min
    {
      if AnswerAt(answers, i) >= cat[i].scale.min {
        var k :| 0 <= k < |kept| && kept[k] == i;
        assert r[k] == RowAt(cat, answers, i);
      }
      if RowAt(cat, answers, i) in r {
        var k :| 0 <= k < |r| && r[k] == RowAt(cat, answers, i);
        assert cat[kept[k]].id == cat[i].id;
        assert kept[k] == i;
      }
    }
  }

  /** With distinct ids, a question answered below its scale minimum (such
      as the unanswered 0 on the 1..5 scale) has no submitted row. */
  lemma UnansweredNotSubmitted(cat: seq<Question>, answers: seq<int>, i: nat)
    requires forall a, b :: 0 <= a < b < |cat| ==> cat[a].id != cat[b].id
    requires i < |cat| && AnswerAt(answers, i) < cat[i].scale.min
    ensures forall k :: 0 <= k < |FormattedAnswers(cat, answers)| ==>
      FormattedAnswers(cat, answers)[k].questionId != cat[i].id
  {
    var r := FormattedAnswers(cat, answers);
    var kept := Kept(cat, answers, |cat|);
    KeptSpec(cat, answers, |cat|);
    forall k | 0 <= k < |r| ensures r[k].questionId != cat[i].id {
      assert kept[k] != i;
    }
  }

  /** The local copy of the profile form. */
  datatype ProfileForm = ProfileForm(facility: string, job: string, age: string, seniority: string, comment: string)

  /** The JSON body posted to /api/submit. */
  datatype SubmitBody = SubmitBody(facilityId: string, pseudo: string, job: string, ageRange: string,
                                   seniority: string, comment: Option<string>, consented: bool,
                                   answers: seq<AnswerRow>)

  /** `p.comment?.trim() || null`: a blank comment is sent as null. */
  function CommentOf(c: string): (r: Option<string>)
    ensures r.None? <==> Trim(c) == ""
    ensures r.Some? ==> r.value == Trim(c)
  {
    if Trim(c) == "" then None else Some(Trim(c))
  }

  function SubmitBodyOf(pseudo: string, p: ProfileForm, answers: seq<int>): SubmitBody
  {
    SubmitBody(p.facility, Trim(pseudo), p.job, p.age, p.seniority, CommentOf(p.comment), true,
               FormattedAnswers(Catalog, answers))
  }

  /** `JSON.stringify(payload)`: the members in the order the page writes
      them, a blank comment as `null`. */
  function EncodeSubmitBody(b: SubmitBody): Json
  {
    JObj([("facilityId", JStr(b.facilityId)), ("pseudo", JStr(b.pseudo)), ("job", JStr(b.job)),
          ("ageRange", JStr(b.ageRange)), ("seniority", JStr(b.seniority)),
          ("comment", if b.comment.Some? then JStr(b.comment.value) else JNull),
          ("consented", JBool(b.consented)),
          ("answers", JArr(seq(|b.answers|, i requires 0 <= i < |b.answers| =>
             JObj([("questionId", JStr(b.answers[i].questionId)), ("score", JNum(b.answers[i].score as real))]))))])
  }

  /** The schema of app/api/submit/route.ts refuses every body the page
      posts there: the body has no `consent` member (the page calls it
      `consented`), and no `profile` either. */
  lemma PageBodyAlwaysRefused(pseudo: string, p: ProfileForm, answers: seq<int>, letter: char -> bool)
    ensures Member(EncodeSubmitBody(SubmitBodyOf(pseudo, p, answers)), "consent").None?
    ensures Member(EncodeSubmitBody(SubmitBodyOf(pseudo, p, answers)), "profile").None?
    ensures Schemas.ParsePayload(EncodeSubmitBody(SubmitBodyOf(pseudo, p, answers)), Schemas.ApiRules, letter).None?
  {
    var f := EncodeSubmitBody(SubmitBodyOf(pseudo, p, answers)).fields;
    assert forall i :: 0 <= i < |f| ==> f[i].0 != "consent" && f[i].0 != "profile";
  }

  /** The submitted answers in the schema's shape: `{questionId, value}`. */
  function SchemaAnswers(rows: seq<AnswerRow>): (r: seq<Schemas.Answer>)
    ensures |r| == |rows|
    ensures forall i :: 0 <= i < |rows| ==> r[i] == Schemas.Answer(rows[i].questionId, rows[i].score)
  {
    seq(|rows|, i requires 0 <= i < |rows| => Schemas.Answer(rows[i].questionId, rows[i].score))
  }

  /** What the page evidently means to send: the payload the route's schema
      describes, with the consent and the profile under their own names and
      each answer's score as its `value`. */
  function CorrectedPayload(pseudo: string, p: ProfileForm, answers: seq<int>): Schemas.Payload
  {
    Schemas.Payload(Trim(pseudo), SchemaAnswers(FormattedAnswers(Catalog, answers)), true,
                    Schemas.Profile(p.facility, p.job, p.age, p.seniority, CommentOf(p.comment)))
  }

  /** The corrected body is read back by the route exactly as the page
      holds it, whenever the page's data meet the schema's limits. */
  lemma CorrectedPageBodyAccepted(pseudo: string, p: ProfileForm, answers: seq<int>, letter: char -> bool)
    requires Schemas.ValidPayload(CorrectedPayload(pseudo, p, answers), Schemas.ApiRules, letter)
    ensures Schemas.ParsePayload(Schemas.EncodePayload(CorrectedPayload(pseudo, p, answers)), Schemas.ApiRules, letter)
         == Some(CorrectedPayload(pseudo, p, answers))
  {
    Schemas.ParseEncode(CorrectedPayload(pseudo, p, answers), Schemas.ApiRules, letter);
  }

  /** `canSubmit`: the four required profile fields are filled in. */
  predicate CanSubmit(p: ProfileForm)
  {
    p.facility != "" && p.job != "" && p.age != "" && p.seniority != ""
  }

  const PseudoMissing := "Merci d’entrer un pseudo."
  const SubmitUnavailable := "Envoi momentanément indisponible — affichage des résultats locaux."

  /** The page state. */
  class QuizPage {
    var step: int
    var answers: seq<int>
    var pseudo: string
    var pseudoEntered: bool
    var showProfileForm: bool
    var showResults: bool
    var loading: bool
    var error: string
    var profile: ProfileForm

    /** The step always points into the answers array, which keeps one slot
        per catalog question. */
    ghost predicate Valid()
      reads this
    {
      0 <= step < QuestionCount && |answers| == QuestionCount
    }

    constructor()
      ensures Valid()
      ensures step == 0 && answers == seq(QuestionCount, _ => 0)
      ensures pseudo == "" && !pseudoEntered && !showProfileForm && !showResults && !loading && error == ""
      ensures profile == ProfileForm("", "", "", "", "")
    {
      step := 0;
      answers := seq(QuestionCount, _ => 0);
      pseudo := "";
      pseudoEntered := false;
      showProfileForm := false;
      showResults := false;
      loading := false;
      error := "";
      profile := ProfileForm("", "", "", "", "");
    }

    /** `startIfReady`: a blank pseudo sets an error; otherwise the quiz
        starts. */
    method StartIfReady()
      modifies this
      ensures Trim(old(pseudo)) == "" ==> error == PseudoMissing && pseudoEntered == old(pseudoEntered)
      ensures Trim(old(pseudo)) != "" ==> error == "" && pseudoEntered
      ensures step == old(step) && answers == old(answers) && pseudo == old(pseudo)
      ensures showProfileForm == old(showProfileForm) && showResults == old(showResults)
      ensures loading == old(loading) && profile == old(profile)
    {
      if Trim(pseudo) == "" {
        error := PseudoMissing;
        return;
      }
      error := "";
      pseudoEntered := true;
    }

    /** `handleNext`: nothing happens on an unanswered question; otherwise
        the step advances, or at the last question the profile form opens
        and the step stays. */
    method HandleNext()
      requires Valid()
      modifies this
      ensures Valid()
      ensures old(answers[step]) == 0 ==> step == old(step) && showProfileForm == old(showProfileForm)
      ensures old(answers[step]) != 0 && old(step) < QuestionCount - 1 ==>
        step == old(step) + 1 && showProfileForm == old(showProfileForm)
      ensures old(answers[step]) != 0 && old(step) == QuestionCount - 1 ==> step == old(step) && showProfileForm
      ensures answers == old(answers) && pseudo == old(pseudo) && pseudoEntered == old(pseudoEntered)
      ensures showResults == old(showResults) && loading == old(loading) && error == old(error)
      ensures profile == old(profile)
    {
      if answers[step] == 0 {
        return;
      }
      if step < QuestionCount - 1 {
        step := step + 1;
      } else {
        showProfileForm := true;
      }
    }

    /** "Précédent": the step goes back one, never below 0. */
    method Previous()
      requires Valid()
      modifies this
      ensures Valid()
      ensures step == MaxInt(0, old(step) - 1)
      ensures answers == old(answers) && pseudo == old(pseudo) && pseudoEntered == old(pseudoEntered)
      ensures showProfileForm == old(showProfileForm) && showResults == old(showResults)
      ensures loading == old(loading) && error == old(error) && profile == old(profile)
    {
      step := MaxInt(0, step - 1);
    }

    /** Choosing a Likert value replaces the answer of the current question
        only. */
    method SelectValue(v: int)
      requires Valid()
      modifies this
      ensures Valid()
      ensures answers == old(answers)[old(step) := v]
      ensures step == old(step) && pseudo == old(pseudo) && pseudoEntered == old(pseudoEntered)
      ensures showProfileForm == old(showProfileForm) && showResults == old(showResults)
      ensures loading == old(loading) && error == old(error) && profile == old(profile)
    {
      answers := answers[step := v];
    }

    /** `submitResponses`: builds the body, and `delivered` says whether
        the POST succeeded with a body that is not `{ok: false}`. The
        results are shown either way; a failure only sets the error
        banner. */
    method SubmitResponses(p: ProfileForm, delivered: bool) returns (body: SubmitBody)
      modifies this
      ensures body == SubmitBodyOf(old(pseudo), p, old(answers))
      ensures showResults && !loading
      ensures error == (if delivered then "" else SubmitUnavailable)
      ensures step == old(step) && answers == old(answers) && pseudo == old(pseudo)
      ensures pseudoEntered == old(pseudoEntered) && showProfileForm == old(showProfileForm)
      ensures profile == old(profile)
    {
      error := "";
      loading := true;
      body := SubmitBodyOf(pseudo, p, answers);
      if !delivered {
        error := SubmitUnavailable;
      }
      loading := false;
      showResults := true;
    }
  }
}
