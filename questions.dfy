/** The question catalog (lib/questions.ts): 13 dimensions, 38 questions on
    the 1..5 Likert scale, the normalisation of one raw answer to 0..100 and
    the per-dimension filter. */
module Questions {
  import opened Common

  datatype Scale = Scale(min: int, max: int, labels: seq<string>)

  /** A catalog entry. The question text and its psychometric source are
      display data and are not modelled. */
  datatype Question = Question(id: string, num: int, dimension: string, scale: Scale, inverted: bool)

  const LikertScale: Scale := Scale(1, 5, [
    "Pas du tout d’accord",
    "Plutôt pas d’accord",
    "Neutre",
    "Plutôt d’accord",
    "Tout à fait d’accord"
  ])

  const Dimensions: seq<string> := [
      "Satisfaction globale",
      "Optimisme professionnel",
      "Stress et détente",
      "Énergie et engagement",
      "Efficacité personnelle",
      "Satisfaction dans le rôle",
      "Relations interpersonnelles",
      "Sens du travail",
      "Reconnaissance et valorisation",
      "Charge de travail",
      "Santé au travail – perception des dispositifs",
      "Management – cadre de santé et direction",
      "Équilibre vie privée / personnelle"
  ]

  /** A catalog entry on the shared scale; its dimension is written as its
      position in `Dimensions` (0 is "Satisfaction globale", 12 is
      "Équilibre vie privée / personnelle"). */
  function Q(id: string, num: int, dimension: nat, inverted: bool): Question
    requires dimension < |Dimensions|
  {
    Question(id, num, Dimensions[dimension], LikertScale, inverted)
  }

  const Catalog: seq<Question> := [
      Q("q0_1", 1, 0, false),
      Q("q1_1", 2, 1, false),
      Q("q1_2", 3, 1, false),
      Q("q1_3", 4, 1, false),
      Q("q2_1", 5, 2, false),
      Q("q2_2", 6, 2, true),
      Q("q2_3", 7, 2, false),
      Q("q2_4", 8, 2, true),
      Q("q3_1", 9, 3, false),
      Q("q3_2", 10, 3, false),
      Q("q3_3", 11, 3, false),
      Q("q4_1", 12, 4, false),
      Q("q4_2", 13, 4, false),
      Q("q4_3", 14, 4, false),
      Q("q5_1", 15, 5, false),
      Q("q5_2", 16, 5, false),
      Q("q5_3", 17, 5, false),
      Q("q6_1", 18, 6, false),
      Q("q6_2", 19, 6, false),
      Q("q6_3", 20, 6, false),
      Q("q6_4", 21, 6, false),
      Q("q7_1", 22, 7, false),
      Q("q7_2", 23, 7, false),
      Q("q7_3", 24, 7, false),
      Q("q8_1", 25, 8, false),
      Q("q8_2", 26, 8, false),
      Q("q8_3", 27, 8, false),
      Q("q9_1", 28, 9, false),
      Q("q9_2", 29, 9, false),
      Q("q9_3", 30, 9, true),
      Q("q10_1", 31, 10, false),
      Q("q10_2", 32, 10, false),
      Q("q10_3", 33, 10, false),
      Q("q11_1", 34, 11, false),
      Q("q11_2", 35, 11, false),
      Q("q11_3", 36, 11, false),
      Q("q11_4", 37, 11, false),
      Q("q12_1", 38, 12, false)
  ]

  /** `normalizeScore`: 0 for the unanswered sentinel 0, otherwise the position
      of `value` on [min, max] as a percentage, mirrored when inverted. A
      non-zero value on a scale with min == max gives a non-finite number in
      JavaScript, which the precondition excludes. */
  function NormalizeScore(value: int, min: int, max: int, inverted: bool): (r: real)
    requires value == 0 || min != max
    ensures value == 0 ==> r == 0.0
  {
    if value == 0 then 0.0
    else
      var score := ((value - min) as real / (max - min) as real) * 100.0;
      if inverted then 100.0 - score else score
  }

  /** The catalog questions of dimension `d`, in catalog order. */
  function QuestionsByDimension(d: string): seq<Question>
  {
    FilterByDimension(Catalog, d)
  }

  function FilterByDimension(qs: seq<Question>, d: string): (r: seq<Question>)
    ensures |r| <= |qs|
  {
    if qs == [] then []
    else
      var init := FilterByDimension(qs[..|qs| - 1], d);
      if qs[|qs| - 1].dimension == d then init + [qs[|qs| - 1]] else init
  }

  /** The catalog invariant: 38 questions numbered 1..38 in order, with
      distinct ids, all on the shared 1..5 scale, each bound to one of the 13
      distinct dimensions, and every dimension used. */
  lemma CatalogShape()
    ensures |Catalog| == 38 && |Dimensions| == 13
    ensures forall i :: 0 <= i < |Catalog| ==> Catalog[i].num == i + 1
    ensures forall i :: 0 <= i < |Catalog| ==> Catalog[i].scale == LikertScale
    ensures LikertScale.min == 1 && LikertScale.max == 5
    ensures forall i :: 0 <= i < |Catalog| ==> Catalog[i].dimension in Dimensions
  {
  }

  /** Reads an id of the form "q<group>_<item>" (one- or two-digit group,
      one-digit item) as the number 100 * group + item. */
  function IdKey(id: string): int
  {
    if |id| == 4 then Digit(id[1]) * 100 + Digit(id[3])
    else if |id| == 5 then (Digit(id[1]) * 10 + Digit(id[2])) * 100 + Digit(id[4])
    else -1
  }

  function Digit(c: char): int
  {
    c as int - '0' as int
  }

  lemma {:induction false} IdKeysIncreasing(i: nat, j: nat)
    requires i < j < |Catalog|
    ensures IdKey(Catalog[i].id) < IdKey(Catalog[j].id)
    decreases j - i
  {
    IdKeysRiseLow();
    IdKeysRiseHigh();
    if i + 1 < j {
      IdKeysIncreasing(i + 1, j);
    }
  }

  /** Neighbouring ids read as increasing numbers: the first half of the
      catalog, then the second. */
  lemma IdKeysRiseLow()
    ensures forall k :: 0 <= k < 19 ==> IdKey(Catalog[k].id) < IdKey(Catalog[k + 1].id)
  {
  }

  lemma IdKeysRiseHigh()
    ensures forall k :: 19 <= k < 37 ==> IdKey(Catalog[k].id) < IdKey(Catalog[k + 1].id)
  {
  }

  lemma CatalogIdsDistinct()
    ensures forall i, j :: 0 <= i < j < |Catalog| ==> Catalog[i].id != Catalog[j].id
  {
    forall i, j | 0 <= i < j < |Catalog| ensures Catalog[i].id != Catalog[j].id {
      IdKeysIncreasing(i, j);
    }
  }

  /** Index of the first catalog question of each dimension, in `Dimensions` order. */
  const FirstOfDimension: seq<nat> := [0, 1, 4, 8, 11, 14, 17, 21, 24, 27, 30, 33, 37]

  /** Tells the dimension names apart by length and first letter. */
  function NameKey(d: string): int
  {
    if d == [] then 0 else |d| * 0x1_0000_0000 + d[0] as int
  }

  lemma DimensionsDistinct()
    ensures Distinct(Dimensions)
  {
    assert forall i, j :: 0 <= i < j < |Dimensions| ==> NameKey(Dimensions[i]) != NameKey(Dimensions[j]);
  }

  lemma FirstOfDimensionSpec()
    ensures |FirstOfDimension| == |Dimensions|
    ensures forall k :: 0 <= k < |Dimensions| ==>
      FirstOfDimension[k] < |Catalog| && Catalog[FirstOfDimension[k]].dimension == Dimensions[k]
  {
    FirstsA();
    FirstsB();
    FirstsC();
    FirstsD();
  }

  // The entries of `FirstOfDimension`, a few at a time.

  lemma FirstsA()
    ensures && Catalog[0].dimension == Dimensions[0]
      && Catalog[1].dimension == Dimensions[1]
      && Catalog[4].dimension == Dimensions[2]
      && Catalog[8].dimension == Dimensions[3]
  {
  }

  lemma FirstsB()
    ensures && Catalog[11].dimension == Dimensions[4]
      && Catalog[14].dimension == Dimensions[5]
      && Catalog[17].dimension == Dimensions[6]
  {
  }

  lemma FirstsC()
    ensures && Catalog[21].dimension == Dimensions[7]
      && Catalog[24].dimension == Dimensions[8]
      && Catalog[27].dimension == Dimensions[9]
  {
  }

  lemma FirstsD()
    ensures && Catalog[30].dimension == Dimensions[10]
      && Catalog[33].dimension == Dimensions[11]
      && Catalog[37].dimension == Dimensions[12]
  {
  }

  lemma DimensionsUsed()
    ensures forall d :: d in Dimensions ==> exists i :: 0 <= i < |Catalog| && Catalog[i].dimension == d
  {
    FirstOfDimensionSpec();
    forall d | d in Dimensions
      ensures exists i :: 0 <= i < |Catalog| && Catalog[i].dimension == d
    {
      var k :| 0 <= k < |Dimensions| && Dimensions[k] == d;
      var i := FirstOfDimension[k];
      assert Catalog[i].dimension == d;
    }
  }

  lemma OnlyThreeInverted()
    ensures forall i :: 0 <= i < |Catalog| ==>
      (Catalog[i].inverted <==> Catalog[i].id in {"q2_2", "q2_4", "q9_3"})
  {
  }

  /** Not inverted, the bottom of the scale scores 0 and the top 100;
      inverted, the two are exchanged. (A bound equal to 0 would read as the
      unanswered sentinel instead.) */
  lemma NormalizeEndpoints(min: int, max: int)
    requires min != max && min != 0 && max != 0
    ensures NormalizeScore(min, min, max, false) == 0.0
    ensures NormalizeScore(max, min, max, false) == 100.0
    ensures NormalizeScore(min, min, max, true) == 100.0
    ensures NormalizeScore(max, min, max, true) == 0.0
  {
    var w := (max - min) as real;
    assert (min - min) as real / w == 0.0;
    assert (max - min) as real / w == 1.0;
  }

  /** For an answered value, inversion is the mirror image 100 - score. */
  lemma NormalizeInversion(value: int, min: int, max: int)
    requires value != 0 && min != max
    ensures NormalizeScore(value, min, max, true) == 100.0 - NormalizeScore(value, min, max, false)
  {
  }

  /** An answered value on the scale normalises into [0, 100]. */
  lemma NormalizeInRange(value: int, min: int, max: int, inverted: bool)
    requires min < max && value != 0 && min <= value <= max
    ensures 0.0 <= NormalizeScore(value, min, max, inverted) <= 100.0
  {
    var frac := (value - min) as real / (max - min) as real;
    assert 0.0 <= frac <= 1.0 by {
      assert (value - min) as real <= (max - min) as real;
    }
  }

  /** Over answered values, the score strictly increases with the value, or
      strictly decreases when the question is inverted. */
  lemma NormalizeMonotone(v1: int, v2: int, min: int, max: int)
    requires min < max && v1 != 0 && v2 != 0 && v1 < v2
    ensures NormalizeScore(v1, min, max, false) < NormalizeScore(v2, min, max, false)
    ensures NormalizeScore(v1, min, max, true) > NormalizeScore(v2, min, max, true)
  {
    var w := (max - min) as real;
    assert (v1 - min) as real / w < (v2 - min) as real / w;
  }

  lemma {:induction false} FilterByDimensionSpec(qs: seq<Question>, d: string)
    requires forall i, j :: 0 <= i < j < |qs| ==> qs[i].num < qs[j].num
    ensures forall q :: q in FilterByDimension(qs, d) <==> q in qs && q.dimension == d
    ensures forall i, j :: 0 <= i < j < |FilterByDimension(qs, d)| ==>
      FilterByDimension(qs, d)[i].num < FilterByDimension(qs, d)[j].num
  {
    if qs != [] {
      var init := qs[..|qs| - 1];
      FilterByDimensionSpec(init, d);
      assert qs == init + [qs[|qs| - 1]];
      var r := FilterByDimension(init, d);
      forall q | q in r ensures q.num < qs[|qs| - 1].num {
        var k :| 0 <= k < |init| && init[k] == q;
      }
    }
  }

  /** Filtering keeps only questions of the input, so proper scales stay proper. */
  lemma {:induction false} FilterProperScales(qs: seq<Question>, d: string)
    requires ProperScales(qs)
    ensures ProperScales(FilterByDimension(qs, d))
  {
    if qs != [] {
      var init := qs[..|qs| - 1];
      assert forall i :: 0 <= i < |init| ==> init[i] == qs[i];
      FilterProperScales(init, d);
    }
  }

  /** `getQuestionsByDimension(d)` is exactly the catalog questions of
      dimension `d`, in catalog order (catalog numbers increase), and it is
      never empty for a dimension of the catalog. */
  lemma QuestionsByDimensionSpec(d: string)
    ensures forall q :: q in QuestionsByDimension(d) <==> q in Catalog && q.dimension == d
    ensures forall i, j :: 0 <= i < j < |QuestionsByDimension(d)| ==>
      QuestionsByDimension(d)[i].num < QuestionsByDimension(d)[j].num
    ensures d in Dimensions ==> |QuestionsByDimension(d)| >= 1
  {
    CatalogNumbersIncrease();
    DimensionsUsed();
    FilterHit(Catalog, d);
  }

  lemma CatalogNumbersIncrease()
    ensures forall i, j :: 0 <= i < j < |Catalog| ==> Catalog[i].num < Catalog[j].num
  {
    CatalogShape();
  }

  /** Filtering a sequence numbered in increasing order: exactly the
      questions of `d`, in order, and at least one when `d` occurs. */
  lemma FilterHit(qs: seq<Question>, d: string)
    requires forall i, j :: 0 <= i < j < |qs| ==> qs[i].num < qs[j].num
    ensures forall q :: q in FilterByDimension(qs, d) <==> q in qs && q.dimension == d
    ensures forall i, j :: 0 <= i < j < |FilterByDimension(qs, d)| ==>
      FilterByDimension(qs, d)[i].num < FilterByDimension(qs, d)[j].num
    ensures (exists i :: 0 <= i < |qs| && qs[i].dimension == d) ==> |FilterByDimension(qs, d)| >= 1
  {
    FilterByDimensionSpec(qs, d);
    if exists i :: 0 <= i < |qs| && qs[i].dimension == d {
      var i :| 0 <= i < |qs| && qs[i].dimension == d;
      assert qs[i] in FilterByDimension(qs, d);
    }
  }

  /** No catalog dimension is called "Stress" (a rule in the quiz component
      tests for that name). */
  lemma NoStressDimension()
    ensures forall i :: 0 <= i < |Catalog| ==> Catalog[i].dimension != "Stress"
  {
    CatalogShape();
    assert forall k :: 0 <= k < |Dimensions| ==> |Dimensions[k]| != 6;
  }

  /** Every scale runs upwards: min < max. */
  predicate ProperScales(qs: seq<Question>)
  {
    forall i :: 0 <= i < |qs| ==> qs[i].scale.min < qs[i].scale.max
  }

  lemma CatalogProperScales()
    ensures ProperScales(Catalog)
  {
    CatalogShape();
  }
}
