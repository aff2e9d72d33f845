/** `computeDimensionScores` (lib/quizUtils.ts): walks the catalog, skips the
    questions without a response, and averages the normalised scores of each
    dimension, in the order in which dimensions are first answered. */
module QuizUtils {
  import opened Common
  import opened Questions

  datatype DimensionScore = DimensionScore(dimension: string, average: int, count: nat)

  /** One entry of the `grouped` record while it is being filled. */
  datatype Group = Group(dimension: string, total: real, count: nat)

  /** Responses keyed by question id; a key that is absent stands for a
      response that is `null` or `undefined`. */
  type Responses = map<string, int>

  /** The normalised scores of the answered questions of dimension `d` among
      `qs`, in order. */
  function AnsweredIn(qs: seq<Question>, responses: Responses, d: string): seq<real>
    requires ProperScales(qs)
  {
    if qs == [] then []
    else
      var q := qs[|qs| - 1];
      var init := AnsweredIn(qs[..|qs| - 1], responses, d);
      if q.id in responses && q.dimension == d
      then init + [NormalizeScore(responses[q.id], q.scale.min, q.scale.max, q.inverted)]
      else init
  }

  /** The dimension of every answered question among `qs`, in order. */
  function AnsweredDims(qs: seq<Question>, responses: Responses): seq<string>
  {
    if qs == [] then []
    else
      var q := qs[|qs| - 1];
      var init := AnsweredDims(qs[..|qs| - 1], responses);
      if q.id in responses then init + [q.dimension] else init
  }

  lemma {:induction false} AnsweredInNonEmpty(qs: seq<Question>, responses: Responses, d: string)
    requires ProperScales(qs)
    requires d in AnsweredDims(qs, responses)
    ensures |AnsweredIn(qs, responses, d)| >= 1
  {
    var init := qs[..|qs| - 1];
    var q := qs[|qs| - 1];
    if !(q.id in responses && q.dimension == d) {
      AnsweredInNonEmpty(init, responses, d);
    }
  }

  /** The specification of `computeDimensionScores`: one entry per answered
      dimension, in order of first answer, with the count of answered
      questions and the rounded mean of their normalised scores. */
  function DimensionScores(responses: Responses): seq<DimensionScore>
  {
    var dims := Dedupe(AnsweredDims(Catalog, responses));
    DedupeSpec(AnsweredDims(Catalog, responses));
    seq(|dims|, k requires 0 <= k < |dims| =>
      var vals := CatalogAnswered(responses, dims[k]);
      CatalogProperScales();
      AnsweredInNonEmpty(Catalog, responses, dims[k]);
      DimensionScore(dims[k], Round(Sum(vals) / |vals| as real), |vals|))
  }

  /** The normalised scores of the answered catalog questions of dimension `d`. */
  function CatalogAnswered(responses: Responses, d: string): seq<real>
  {
    CatalogProperScales();
    AnsweredIn(Catalog, responses, d)
  }

  function ScoreDims(r: seq<DimensionScore>): seq<string>
  {
    seq(|r|, k requires 0 <= k < |r| => r[k].dimension)
  }

  /** What `computeDimensionScores` returns: the answered dimensions, each
      once, in the order of their first answered question; a dimension is
      there exactly when one of its catalog questions has a response (a
      response of 0 included); each count is the number of its answered
      questions, at least one, and each average is the rounded mean of
      their normalised scores. */
  lemma DimensionScoresSpec(responses: Responses)
    ensures var r := DimensionScores(responses);
      && ScoreDims(r) == Dedupe(AnsweredDims(Catalog, responses))
      && Distinct(ScoreDims(r))
      && (forall d :: d in ScoreDims(r) <==>
            exists i :: 0 <= i < |Catalog| && Catalog[i].id in responses && Catalog[i].dimension == d)
      && forall k :: 0 <= k < |r| ==>
           && r[k].count >= 1
           && r[k].count == |CatalogAnswered(responses, r[k].dimension)|
           && r[k].average == Round(Sum(CatalogAnswered(responses, r[k].dimension)) / r[k].count as real)
  {
    var r := DimensionScores(responses);
    DedupeSpec(AnsweredDims(Catalog, responses));
    assert ScoreDims(r) == Dedupe(AnsweredDims(Catalog, responses));
    AnsweredDimsMembers(Catalog, responses);
    forall k | 0 <= k < |r|
      ensures r[k].count >= 1
      ensures r[k].count == |CatalogAnswered(responses, r[k].dimension)|
      ensures r[k].average == Round(Sum(CatalogAnswered(responses, r[k].dimension)) / r[k].count as real)
    {
      CatalogProperScales();
      AnsweredInNonEmpty(Catalog, responses, r[k].dimension);
    }
  }

  lemma {:induction false} AnsweredDimsMembers(qs: seq<Question>, responses: Responses)
    ensures forall d :: d in AnsweredDims(qs, responses) <==>
      exists i :: 0 <= i < |qs| && qs[i].id in responses && qs[i].dimension == d
  {
    if qs != [] {
      var init := qs[..|qs| - 1];
      AnsweredDimsMembers(init, responses);
      forall d | d in AnsweredDims(qs, responses)
        ensures exists i :: 0 <= i < |qs| && qs[i].id in responses && qs[i].dimension == d
      {
        if d in AnsweredDims(init, responses) {
          var i :| 0 <= i < |init| && init[i].id in responses && init[i].dimension == d;
          assert qs[i] == init[i];
        }
      }
      forall d | exists i :: 0 <= i < |qs| && qs[i].id in responses && qs[i].dimension == d
        ensures d in AnsweredDims(qs, responses)
      {
        var i :| 0 <= i < |qs| && qs[i].id in responses && qs[i].dimension == d;
        if i < |init| {
          assert init[i] == qs[i];
        }
      }
    }
  }

  /** Agreeing on the catalog ids is all that matters: keys that are not
      catalog ids change nothing, since the loop walks the catalog. */
  lemma ForeignKeysIgnored(r1: Responses, r2: Responses)
    requires forall i :: 0 <= i < |Catalog| ==>
      (Catalog[i].id in r1 <==> Catalog[i].id in r2)
      && (Catalog[i].id in r1 ==> r1[Catalog[i].id] == r2[Catalog[i].id])
    ensures DimensionScores(r1) == DimensionScores(r2)
  {
    CatalogProperScales();
    AnsweredAgree(Catalog, r1, r2);
  }

  lemma {:induction false} AnsweredAgree(qs: seq<Question>, r1: Responses, r2: Responses)
    requires ProperScales(qs)
    requires forall i :: 0 <= i < |qs| ==>
      (qs[i].id in r1 <==> qs[i].id in r2) && (qs[i].id in r1 ==> r1[qs[i].id] == r2[qs[i].id])
    ensures AnsweredDims(qs, r1) == AnsweredDims(qs, r2)
    ensures forall d :: AnsweredIn(qs, r1, d) == AnsweredIn(qs, r2, d)
  {
    if qs != [] {
      var init := qs[..|qs| - 1];
      assert forall i :: 0 <= i < |init| ==> init[i] == qs[i];
      AnsweredAgree(init, r1, r2);
    }
  }

  /** With every catalog question answered on its scale, each average lies
      in [0, 100]. */
  lemma AverageInRange(responses: Responses)
    requires forall i :: 0 <= i < |Catalog| && Catalog[i].id in responses ==>
      1 <= responses[Catalog[i].id] <= 5
    ensures forall k :: 0 <= k < |DimensionScores(responses)| ==>
      0 <= DimensionScores(responses)[k].average <= 100
  {
    CatalogProperScales();
    CatalogOnScale(responses);
    var r := DimensionScores(responses);
    DimensionScoresSpec(responses);
    forall k | 0 <= k < |r| ensures 0 <= r[k].average <= 100 {
      var vals := CatalogAnswered(responses, r[k].dimension);
      AnsweredInBounds(Catalog, responses, r[k].dimension);
      MeanBounds(vals, 0.0, 100.0);
    }
  }

  lemma CatalogOnScale(responses: Responses)
    requires forall i :: 0 <= i < |Catalog| && Catalog[i].id in responses ==>
      1 <= responses[Catalog[i].id] <= 5
    ensures forall i :: 0 <= i < |Catalog| && Catalog[i].id in responses ==>
      Catalog[i].scale.min <= responses[Catalog[i].id] <= Catalog[i].scale.max && responses[Catalog[i].id] != 0
  {
    CatalogShape();
  }

  lemma {:induction false} AnsweredInBounds(qs: seq<Question>, responses: Responses, d: string)
    requires ProperScales(qs)
    requires forall i :: 0 <= i < |qs| && qs[i].id in responses ==>
      qs[i].scale.min <= responses[qs[i].id] <= qs[i].scale.max && responses[qs[i].id] != 0
    ensures forall j :: 0 <= j < |AnsweredIn(qs, responses, d)| ==> 0.0 <= AnsweredIn(qs, responses, d)[j] <= 100.0
  {
    if qs != [] {
      var init := qs[..|qs| - 1];
      var q := qs[|qs| - 1];
      assert forall i :: 0 <= i < |init| ==> init[i] == qs[i];
      AnsweredInBounds(init, responses, d);
      if q.id in responses && q.dimension == d {
        NormalizeInRange(responses[q.id], q.scale.min, q.scale.max, q.inverted);
      }
    }
  }

  /** With every catalog question answered, each count is the size of the
      dimension's question list. */
  lemma FullCounts(responses: Responses)
    requires forall i :: 0 <= i < |Catalog| ==> Catalog[i].id in responses
    ensures forall k :: 0 <= k < |DimensionScores(responses)| ==>
      DimensionScores(responses)[k].count == |QuestionsByDimension(DimensionScores(responses)[k].dimension)|
  {
    CatalogProperScales();
    forall d ensures |AnsweredIn(Catalog, responses, d)| == |FilterByDimension(Catalog, d)| {
      AllAnsweredCount(Catalog, responses, d);
    }
  }

  lemma {:induction false} AllAnsweredCount(qs: seq<Question>, responses: Responses, d: string)
    requires ProperScales(qs)
    requires forall i :: 0 <= i < |qs| ==> qs[i].id in responses
    ensures |AnsweredIn(qs, responses, d)| == |FilterByDimension(qs, d)|
  {
    if qs != [] {
      var init := qs[..|qs| - 1];
      assert forall i :: 0 <= i < |init| ==> init[i] == qs[i];
      AllAnsweredCount(init, responses, d);
    }
  }

  /** Where the key `d` sits in the `grouped` record, if it is there. */
  function FindGroup(groups: seq<Group>, d: string): (r: Option<nat>)
    ensures r.Some? ==> r.value < |groups| && groups[r.value].dimension == d
    ensures r.None? ==> forall k :: 0 <= k < |groups| ==> groups[k].dimension != d
  {
    if groups == [] then None
    else if groups[|groups| - 1].dimension == d then Some(|groups| - 1)
    else FindGroup(groups[..|groups| - 1], d)
  }

  function GroupDims(groups: seq<Group>): seq<string>
  {
    seq(|groups|, k requires 0 <= k < |groups| => groups[k].dimension)
  }

  /** The state of `grouped` after the questions `qs`. */
  ghost predicate GroupsOf(groups: seq<Group>, qs: seq<Question>, responses: Responses)
    requires ProperScales(qs)
  {
    && GroupDims(groups) == Dedupe(AnsweredDims(qs, responses))
    && forall k :: 0 <= k < |groups| ==>
         && groups[k].total == Sum(AnsweredIn(qs, responses, groups[k].dimension))
         && groups[k].count == |AnsweredIn(qs, responses, groups[k].dimension)|
         && groups[k].count >= 1
  }

  method ComputeDimensionScores(responses: Responses) returns (r: seq<DimensionScore>)
    ensures r == DimensionScores(responses)
  {
    CatalogProperScales();
    var groups := GroupResponses(Catalog, responses);
    r := seq(|groups|, k requires 0 <= k < |groups| =>
      DimensionScore(groups[k].dimension, Round(groups[k].total / groups[k].count as real), groups[k].count));
    GroupsGiveScores(groups, responses, r);
  }

  /** The loop that fills `grouped`: one pass over `qs`, skipping the
      questions without a response. */
  method GroupResponses(qs: seq<Question>, responses: Responses) returns (groups: seq<Group>)
    requires ProperScales(qs)
    ensures GroupsOf(groups, qs, responses)
  {
    groups := [];
    var i := 0;
    while i < |qs|
      invariant 0 <= i <= |qs|
      invariant GroupsOf(groups, qs[..i], responses)
    {
      var q := qs[i];
      assert qs[..i + 1] == qs[..i] + [q];
      if q.id in responses {
        var raw := responses[q.id];
        var normalized := NormalizeScore(raw, q.scale.min, q.scale.max, q.inverted);
        var found := FindGroup(groups, q.dimension);
        ghost var g0 := groups;
        if found.Some? {
          var k := found.value;
          groups := groups[k := Group(q.dimension, groups[k].total + normalized, groups[k].count + 1)];
        } else {
          groups := groups + [Group(q.dimension, normalized, 1)];
        }
        assert groups == AddAnswer(g0, q.dimension, normalized);
        StepAnswered(g0, qs[..i], q, responses);
      } else {
        StepSkipped(groups, qs[..i], q, responses);
      }
      i := i + 1;
    }
    assert qs[..i] == qs;
  }

  /** The update of `grouped` for one answered question. */
  function AddAnswer(groups: seq<Group>, d: string, v: real): seq<Group>
  {
    match FindGroup(groups, d)
    case Some(k) => groups[k := Group(d, groups[k].total + v, groups[k].count + 1)]
    case None => groups + [Group(d, v, 1)]
  }

  lemma GroupsGiveScores(groups: seq<Group>, responses: Responses, r: seq<DimensionScore>)
    requires ProperScales(Catalog) && GroupsOf(groups, Catalog, responses)
    requires |r| == |groups|
    requires forall k :: 0 <= k < |groups| ==>
      r[k] == DimensionScore(groups[k].dimension, Round(groups[k].total / groups[k].count as real), groups[k].count)
    ensures r == DimensionScores(responses)
  {
    var dims := Dedupe(AnsweredDims(Catalog, responses));
    assert |dims| == |GroupDims(groups)|;
    forall k | 0 <= k < |r| ensures r[k] == DimensionScores(responses)[k] {
      assert dims[k] == GroupDims(groups)[k];
    }
  }

  lemma StepAnswered(groups: seq<Group>, qs: seq<Question>, q: Question, responses: Responses)
    requires ProperScales(qs) && q.scale.min < q.scale.max && q.id in responses
    requires GroupsOf(groups, qs, responses)
    ensures ProperScales(qs + [q])
    ensures GroupsOf(AddAnswer(groups, q.dimension,
      NormalizeScore(responses[q.id], q.scale.min, q.scale.max, q.inverted)), qs + [q], responses)
  {
    var v := NormalizeScore(responses[q.id], q.scale.min, q.scale.max, q.inverted);
    var post := qs + [q];
    ProperScalesAppend(qs, q);
    assert post[..|post| - 1] == qs;
    var before := AnsweredDims(qs, responses);
    assert AnsweredDims(post, responses) == before + [q.dimension];
    DedupeSpec(before);
    var g1 := AddAnswer(groups, q.dimension, v);
    StepAnsweredEntries(groups, qs, q, responses);
    if FindGroup(groups, q.dimension).Some? {
      var k := FindGroup(groups, q.dimension).value;
      assert GroupDims(groups)[k] == q.dimension;
      assert GroupDims(g1) == GroupDims(groups);
    } else {
      assert q.dimension !in GroupDims(groups);
      assert GroupDims(g1) == GroupDims(groups) + [q.dimension];
    }
  }

  lemma StepAnsweredEntries(groups: seq<Group>, qs: seq<Question>, q: Question, responses: Responses)
    requires ProperScales(qs) && q.scale.min < q.scale.max && q.id in responses
    requires GroupsOf(groups, qs, responses)
    ensures ProperScales(qs + [q])
    ensures var g1 := AddAnswer(groups, q.dimension,
        NormalizeScore(responses[q.id], q.scale.min, q.scale.max, q.inverted));
      forall k :: 0 <= k < |g1| ==>
        && g1[k].total == Sum(AnsweredIn(qs + [q], responses, g1[k].dimension))
        && g1[k].count == |AnsweredIn(qs + [q], responses, g1[k].dimension)|
        && g1[k].count >= 1
  {
    var v := NormalizeScore(responses[q.id], q.scale.min, q.scale.max, q.inverted);
    var post := qs + [q];
    ProperScalesAppend(qs, q);
    assert post[..|post| - 1] == qs;
    var g1 := AddAnswer(groups, q.dimension, v);
    forall k | 0 <= k < |g1|
      ensures g1[k].total == Sum(AnsweredIn(post, responses, g1[k].dimension))
      ensures g1[k].count == |AnsweredIn(post, responses, g1[k].dimension)|
      ensures g1[k].count >= 1
    {
      var d := g1[k].dimension;
      var same := AnsweredIn(qs, responses, d);
      if d == q.dimension {
        assert AnsweredIn(post, responses, d) == same + [v];
        SumAppend(same, [v]);
      } else {
        assert AnsweredIn(post, responses, d) == same;
      }
      match FindGroup(groups, q.dimension)
      case Some(j) =>
        if k != j {
          DedupeSpec(AnsweredDims(qs, responses));
          assert GroupDims(groups)[k] != GroupDims(groups)[j];
        }
      case None =>
        if k == |groups| {
          DedupeSpec(AnsweredDims(qs, responses));
          assert q.dimension !in GroupDims(groups);
          AnsweredEmptyWhenUnseen(qs, responses, q.dimension);
        }
    }
  }

  lemma StepSkipped(groups: seq<Group>, qs: seq<Question>, q: Question, responses: Responses)
    requires ProperScales(qs) && q.scale.min < q.scale.max && q.id !in responses
    requires GroupsOf(groups, qs, responses)
    ensures ProperScales(qs + [q])
    ensures GroupsOf(groups, qs + [q], responses)
  {
    var post := qs + [q];
    ProperScalesAppend(qs, q);
    assert post[..|post| - 1] == qs;
    assert AnsweredDims(post, responses) == AnsweredDims(qs, responses);
    forall d ensures AnsweredIn(post, responses, d) == AnsweredIn(qs, responses, d) {
    }
  }

  lemma ProperScalesAppend(qs: seq<Question>, q: Question)
    requires ProperScales(qs) && q.scale.min < q.scale.max
    ensures ProperScales(qs + [q])
  {
    assert forall i :: 0 <= i < |qs| ==> (qs + [q])[i] == qs[i];
  }

  lemma {:induction false} AnsweredEmptyWhenUnseen(qs: seq<Question>, responses: Responses, d: string)
    requires ProperScales(qs)
    requires d !in AnsweredDims(qs, responses)
    ensures AnsweredIn(qs, responses, d) == []
  {
    if qs != [] {
      AnsweredEmptyWhenUnseen(qs[..|qs| - 1], responses, d);
    }
  }
}
