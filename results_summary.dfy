/** The results card (components/Results.tsx): questions counted per
    dimension, raw answer values summed per dimension, and a percentage for
    each of eight fixed dimension keys, with a global score and a message. */
module ResultsSummary {
  import opened Common
  import opened Questions

  /** `dimensionLabels`: the keys and display labels, in declaration
      order. */
  const DimensionLabels: seq<(string, string)> := [
    ("charge", "Charge de travail"),
    ("autonomie", "Autonomie & sens"),
    ("reconnaissance", "Reconnaissance"),
    ("ambiance", "Ambiance d'équipe"),
    ("formation", "Formation & évolution"),
    ("equilibre", "Équilibre vie pro/perso"),
    ("management", "Management de proximité"),
    ("ressources", "Moyens & ressources")
  ]

  /** `acc[dim] || 0`. */
  function Get0(m: map<string, int>, k: string): int
  {
    if k in m then m[k] else 0
  }

  /** `questionCountPerDim`: the fold over the catalog adding one to the
      entry of each question's (non-empty) dimension. */
  function CountFold(qs: seq<Question>): map<string, int>
  {
    if qs == [] then map[]
    else
      var acc := CountFold(qs[..|qs| - 1]);
      var d := qs[|qs| - 1].dimension;
      if d != "" then acc[d := Get0(acc, d) + 1] else acc
  }

  /** Each non-empty dimension is counted exactly when it has questions,
      and its count is the number of its questions. */
  lemma {:induction false} CountFoldSpec(qs: seq<Question>, d: string)
    requires d != ""
    ensures d in CountFold(qs) <==> |FilterByDimension(qs, d)| >= 1
    ensures d in CountFold(qs) ==> CountFold(qs)[d] == |FilterByDimension(qs, d)|
  {
    if qs != [] {
      CountFoldSpec(qs[..|qs| - 1], d);
    }
  }

  /** Only dimensions of the list are keys of the count. */
  lemma {:induction false} CountFoldKeys(qs: seq<Question>)
    ensures forall k :: k in CountFold(qs) ==> exists i :: 0 <= i < |qs| && qs[i].dimension == k
  {
    if qs != [] {
      var init := qs[..|qs| - 1];
      CountFoldKeys(init);
      forall k | k in CountFold(qs) ensures exists i :: 0 <= i < |qs| && qs[i].dimension == k {
        if k in CountFold(init) {
          var i :| 0 <= i < |init| && init[i].dimension == k;
          assert qs[i].dimension == k;
        } else {
          assert qs[|qs| - 1].dimension == k;
        }
      }
    }
  }

  /** `questions.find(q => q.id === id)?.dimension`. */
  function DimensionOf(cat: seq<Question>, id: string): (r: Option<string>)
    ensures r.None? <==> forall i :: 0 <= i < |cat| ==> cat[i].id != id
    ensures r.Some? ==> exists i :: 0 <= i < |cat| && cat[i].id == id && cat[i].dimension == r.value
  {
    if cat == [] then None
    else if cat[0].id == id then Some(cat[0].dimension)
    else
      var r := DimensionOf(cat[1..], id);
      assert forall i :: 0 <= i < |cat| - 1 ==> cat[1..][i] == cat[i + 1];
      r
  }

  /** `dimensionScores`: the fold over the answer entries adding each value
      to its question's (non-empty) dimension; ids outside the catalog add
      nothing. */
  function RawFold(cat: seq<Question>, entries: seq<(string, int)>): map<string, int>
  {
    if entries == [] then map[]
    else
      var acc := RawFold(cat, entries[..|entries| - 1]);
      var (id, score) := entries[|entries| - 1];
      var dim := DimensionOf(cat, id);
      if dim.Some? && dim.value != "" then acc[dim.value := Get0(acc, dim.value) + score] else acc
  }

  /** The values of the entries whose question has dimension `d`. */
  function ValuesOfDim(cat: seq<Question>, entries: seq<(string, int)>, d: string): seq<int>
  {
    if entries == [] then []
    else
      var init := ValuesOfDim(cat, entries[..|entries| - 1], d);
      var (id, score) := entries[|entries| - 1];
      if DimensionOf(cat, id) == Some(d) then init + [score] else init
  }

  /** A non-empty dimension is a key exactly when some entry belongs to it,
      and it then holds the sum of those entries' values. */
  lemma {:induction false} RawFoldSpec(cat: seq<Question>, entries: seq<(string, int)>, d: string)
    requires d != ""
    ensures d in RawFold(cat, entries) <==> |ValuesOfDim(cat, entries, d)| >= 1
    ensures Get0(RawFold(cat, entries), d) == SumInt(ValuesOfDim(cat, entries, d))
  {
    if entries != [] {
      RawFoldSpec(cat, entries[..|entries| - 1], d);
    }
  }

  /** Only dimensions of catalog questions are keys of the sums. */
  lemma {:induction false} RawFoldKeys(cat: seq<Question>, entries: seq<(string, int)>)
    ensures forall k :: k in RawFold(cat, entries) ==> exists i :: 0 <= i < |cat| && cat[i].dimension == k
  {
    if entries != [] {
      var init := entries[..|entries| - 1];
      RawFoldKeys(cat, init);
      var (id, score) := entries[|entries| - 1];
      var dim := DimensionOf(cat, id);
      forall k | k in RawFold(cat, entries) ensures exists i :: 0 <= i < |cat| && cat[i].dimension == k {
        if k !in RawFold(cat, init) {
          assert dim.Some? && dim.value == k;
        }
      }
    }
  }

  /** Entries whose id is not a catalog question change no sum. */
  lemma {:induction false} ForeignIdsIgnored(cat: seq<Question>, entries: seq<(string, int)>, id: string, score: int)
    requires forall i :: 0 <= i < |cat| ==> cat[i].id != id
    ensures RawFold(cat, entries + [(id, score)]) == RawFold(cat, entries)
  {
    assert (entries + [(id, score)])[..|entries|] == entries;
  }

  /** `Math.round((raw / (count * 5)) * 100)`. */
  function Percent(count: int, raw: int): int
    requires count != 0
  {
    Round(raw as real / (count * 5) as real * 100.0)
  }

  datatype ResultRow = ResultRow(dimension: string, score: int)

  /** `acc[key] || d`: the default when the key is absent or 0. */
  function OrDefault(m: map<string, int>, k: string, d: int): (r: int)
    ensures k in m && m[k] != 0 ==> r == m[k]
    ensures !(k in m && m[k] != 0) ==> r == d
  {
    if k in m && m[k] != 0 then m[k] else d
  }

  /** `data`: one row per key of `dimensionLabels`, in order, with its
      label and its percentage, the count defaulting to 1 and the sum to
      0. */
  function Data(cat: seq<Question>, entries: seq<(string, int)>): (r: seq<ResultRow>)
    ensures |r| == |DimensionLabels|
    ensures forall i :: 0 <= i < |r| ==> r[i].dimension == DimensionLabels[i].1
    ensures forall i :: 0 <= i < |r| ==>
      var count := OrDefault(CountFold(cat), DimensionLabels[i].0, 1);
      count != 0 && r[i].score == Percent(count, OrDefault(RawFold(cat, entries), DimensionLabels[i].0, 0))
  {
    var counts := CountFold(cat);
    var raws := RawFold(cat, entries);
    seq(|DimensionLabels|, i requires 0 <= i < |DimensionLabels| =>
      var key := DimensionLabels[i].0;
      ResultRow(DimensionLabels[i].1, Percent(OrDefault(counts, key, 1), OrDefault(raws, key, 0))))
  }

  /** `globalScore`: the rounded mean of the row scores. */
  function GlobalScore(rows: seq<ResultRow>): int
    requires rows != []
  {
    Round(SumInt(Scores(rows)) as real / |rows| as real)
  }

  function Scores(rows: seq<ResultRow>): seq<int>
  {
    seq(|rows|, i requires 0 <= i < |rows| => rows[i].score)
  }

  const Thriving := "Vous semblez très épanoui·e dans votre travail !"
  const Mixed := "Des points positifs, mais aussi quelques leviers d'amélioration."
  const Fragile := "Votre bien-être au travail semble fragilisé. Parler-en peut vraiment aider."

  /** The message under the global score: from 80, from 60, otherwise. */
  function Message(global: int): (r: string)
    ensures r == Thriving <==> global >= 80
    ensures r == Mixed <==> 60 <= global < 80
    ensures r == Fragile <==> global < 60
  {
    if global >= 80 then Thriving else if global >= 60 then Mixed else Fragile
  }

  lemma {:induction false} SumIntZero(s: seq<int>)
    requires forall i :: 0 <= i < |s| ==> s[i] == 0
    ensures SumInt(s) == 0
  {
    if s != [] {
      SumIntZero(s[..|s| - 1]);
    }
  }

  /** None of the eight keys is a catalog dimension, so with the current
      catalog every count falls back to 1, every sum to 0, every score is
      0, the global score is 0 and the last message is shown, whatever was
      answered. */
  lemma CatalogScoresZero(entries: seq<(string, int)>)
    ensures forall i :: 0 <= i < |Data(Catalog, entries)| ==> Data(Catalog, entries)[i].score == 0
    ensures GlobalScore(Data(Catalog, entries)) == 0
    ensures Message(GlobalScore(Data(Catalog, entries))) == Fragile
  {
    CatalogShape();
    KeysNotDimensions();
    FoldKeysKnown(Catalog, entries, Dimensions);
    NoKeyScoresZero(Catalog, entries);
  }

  /** The eight keys are shorter than every catalog dimension name. */
  lemma KeysNotDimensions()
    ensures forall i :: 0 <= i < |DimensionLabels| ==> DimensionLabels[i].0 !in Dimensions
  {
    assert forall k :: 0 <= k < |Dimensions| ==> |Dimensions[k]| >= 15;
    assert forall i :: 0 <= i < |DimensionLabels| ==> |DimensionLabels[i].0| <= 14;
  }

  /** The keys of both folds are dimensions of the question list. */
  lemma FoldKeysKnown(cat: seq<Question>, entries: seq<(string, int)>, known: seq<string>)
    requires forall i :: 0 <= i < |cat| ==> cat[i].dimension in known
    ensures forall k :: k in CountFold(cat) ==> k in known
    ensures forall k :: k in RawFold(cat, entries) ==> k in known
  {
    CountFoldKeys(cat);
    RawFoldKeys(cat, entries);
  }

  /** When no key of `dimensionLabels` is counted or summed, every row, and
      so the global score, is 0. */
  lemma NoKeyScoresZero(cat: seq<Question>, entries: seq<(string, int)>)
    requires forall i :: 0 <= i < |DimensionLabels| ==>
      DimensionLabels[i].0 !in CountFold(cat) && DimensionLabels[i].0 !in RawFold(cat, entries)
    ensures forall i :: 0 <= i < |Data(cat, entries)| ==> Data(cat, entries)[i].score == 0
    ensures GlobalScore(Data(cat, entries)) == 0
    ensures Message(GlobalScore(Data(cat, entries))) == Fragile
  {
    var rows := Data(cat, entries);
    forall i | 0 <= i < |rows| ensures rows[i].score == 0 {
      assert Percent(1, 0) == 0;
    }
    SumIntZero(Scores(rows));
  }
}
