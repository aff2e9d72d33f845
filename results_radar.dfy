/** The results radar (components/ResultsRadar.tsx): short axis labels, one
    chart point per result with the score rounded to one decimal, the mean
    of the shown scores and the stroke colour it selects. */
module ResultsRadar {
  import opened Common
  import RadarChart

  /** A result as the radar receives it; a missing score is `None`. */
  datatype Input = Input(dimension: string, score: Option<real>)

  /** The points, their scores and their mean are those of the global
      radar chart: both components build `{dimension, short, score,
      ring50Score}` and average the scores over `max(1, n)`. */
  type Point = RadarChart.Point

  const ShortLabels: seq<(string, string)> := [
    ("Satisfaction globale", "Satisfaction"),
    ("Optimisme professionnel", "Optimisme"),
    ("Stress et détente", "Stress"),
    ("Énergie et engagement", "Énergie"),
    ("Efficacité personnelle", "Efficacité"),
    ("Satisfaction dans le rôle", "Rôle"),
    ("Relations interpersonnelles", "Relations"),
    ("Sens du travail", "Sens"),
    ("Reconnaissance et valorisation", "Reconnaissance"),
    ("Charge de travail", "Charge"),
    ("Santé au travail – perception des dispositifs", "Dispositifs"),
    ("Management – cadre de santé et direction", "Management"),
    ("Équilibre vie privée / personnelle", "Équilibre"),
    ("Détente (↗ mieux)", "Détente")
  ]

  /** `toShort`: the table's entry, else the text before the first space. */
  function ToShort(text: string): (r: string)
    ensures Assoc(ShortLabels, text).Some? ==> r == Assoc(ShortLabels, text).value
    ensures Assoc(ShortLabels, text).None? ==>
      && |r| <= |text|
      && r == text[..|r|]
      && (forall i :: 0 <= i < |r| ==> r[i] != ' ')
      && (|r| < |text| ==> text[|r|] == ' ')
  {
    match Assoc(ShortLabels, text)
    case Some(s) => s
    case None => PrefixUntil(text, c => c == ' ')
  }

  const Red := "hsl(10 80% 55%)"
  const Orange := "hsl(40 70% 50%)"
  const Green := "hsl(145 60% 40%)"

  /** `baseColor`: below 40, below 70, from 70. */
  function BaseColor(avg: real): (r: string)
    ensures r == Red <==> avg < 40.0
    ensures r == Orange <==> 40.0 <= avg < 70.0
    ensures r == Green <==> avg >= 70.0
  {
    if avg < 40.0 then Red else if avg < 70.0 then Orange else Green
  }

  /** One point per result, in order: the score (0 when missing) rounded
      to one decimal, and the constant 50 of the reference ring. */
  function ChartData(data: Option<seq<Input>>): (r: seq<Point>)
    ensures data.None? ==> r == []
    ensures data.Some? ==> |r| == |data.value| && forall i :: 0 <= i < |r| ==>
      && r[i].dimension == data.value[i].dimension
      && r[i].short == ToShort(data.value[i].dimension)
      && r[i].ring50Score == 50.0
      && var s := if data.value[i].score.Some? then data.value[i].score.value else 0.0;
         && s - 0.05 < r[i].score <= s + 0.05
         && r[i].score == RoundTenth(s)
  {
    var d := if data.Some? then data.value else [];
    seq(|d|, i requires 0 <= i < |d| =>
      var s := if d[i].score.Some? then d[i].score.value else 0.0;
      RadarChart.Point(d[i].dimension, ToShort(d[i].dimension), RoundTenth(s), 50.0))
  }

  /** What is drawn: the placeholder without data, else the points with the
      stroke colour of their mean. */
  datatype View = Placeholder | Chart(points: seq<Point>, stroke: string)

  function Render(data: Option<seq<Input>>): (v: View)
    ensures v.Placeholder? <==> ChartData(data) == []
    ensures v.Chart? ==> v.points == ChartData(data) && v.stroke == BaseColor(RadarChart.Average(ChartData(data)))
  {
    var points := ChartData(data);
    if points == [] then Placeholder else Chart(points, BaseColor(RadarChart.Average(points)))
  }

  /** The mean lies between the lowest and the highest shown score, so
      scores all in [lo, hi] give a mean in [lo, hi]; with every input score
      in [0, 100] the mean is in [0, 100]. */
  lemma AverageBounds(points: seq<Point>, lo: real, hi: real)
    requires points != []
    requires forall i :: 0 <= i < |points| ==> lo <= points[i].score <= hi
    ensures lo <= RadarChart.Average(points) <= hi
  {
    MeanBounds(RadarChart.Scores(points), lo, hi);
  }

  lemma ShownScoresInRange(data: seq<Input>)
    requires forall i :: 0 <= i < |data| && data[i].score.Some? ==> 0.0 <= data[i].score.value <= 100.0
    ensures forall i :: 0 <= i < |ChartData(Some(data))| ==> 0.0 <= ChartData(Some(data))[i].score <= 100.0
  {
    var points := ChartData(Some(data));
    forall i | 0 <= i < |points| ensures 0.0 <= points[i].score <= 100.0 {
      var s := if data[i].score.Some? then data[i].score.value else 0.0;
      RoundTenthBounded(s);
    }
  }

  /** Rounding to one decimal keeps a value of [0, 100] in [0, 100]. */
  lemma RoundTenthBounded(s: real)
    requires 0.0 <= s <= 100.0
    ensures 0.0 <= RoundTenth(s) <= 100.0
  {
    var k := Round(s * 10.0);
    assert k as real <= s * 10.0 + 0.5 < k as real + 1.0;
    assert 0 <= k <= 1000;
  }
}
