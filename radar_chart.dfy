/** The global radar chart (components/RadarChart.tsx): one-word axis
    labels, one point per dimension with a zero for a missing or non-finite
    score, the mean score, and the stroke it selects. */
module RadarChart {
  import opened Common

  /** The table of one-word labels. "Stress et détente" has no entry. */
  const OneWordMap: seq<(string, string)> := [
    ("Satisfaction globale", "Satisfaction"),
    ("Optimisme professionnel", "Optimisme"),
    ("Énergie et engagement", "Énergie"),
    ("Efficacité personnelle", "Efficacité"),
    ("Relations interpersonnelles", "Relations"),
    ("Équilibre vie privée / personnelle", "Équilibre"),
    ("Reconnaissance et valorisation", "Reconnaissance"),
    ("Charge de travail", "Charge"),
    ("Management – cadre de santé et direction", "Management"),
    ("Santé au travail – perception des dispositifs", "Dispositifs"),
    ("Sens du travail", "Sens"),
    ("Détente (↗ mieux)", "Détente"),
    ("Satisfaction dans le rôle", "Rôle")
  ]

  /** The characters of the class `[–—()]`. */
  predicate IsSeparator(c: char)
  {
    c == '–' || c == '—' || c == '(' || c == ')'
  }

  /** A character that ends a word: white space, or a separator (which
      `replace` turns into a space). */
  predicate Breaks(c: char)
  {
    IsJsWhitespace(c) || IsSeparator(c)
  }

  /** `text.replace(/[–—()]/g, ' ')`. */
  function Spaced(text: string): string
  {
    seq(|text|, i requires 0 <= i < |text| => if IsSeparator(text[i]) then ' ' else text[i])
  }

  /** `.trim().split(/\s+/)[0]`: the text up to the first white space of the
      trimmed string (the empty string when it is blank). */
  function FirstWord(text: string): string
  {
    PrefixUntil(Trim(Spaced(text)), IsJsWhitespace)
  }

  /** `toOneWord`: the table's entry, else the first word, else the text
      itself when there is no word. */
  function ToOneWord(text: string): (r: string)
    ensures Assoc(OneWordMap, text).Some? ==> r == Assoc(OneWordMap, text).value
    ensures Assoc(OneWordMap, text).None? ==> r == text || r == FirstWord(text)
  {
    match Assoc(OneWordMap, text)
    case Some(s) => s
    case None => var w := FirstWord(text); if w != "" then w else text
  }

  /** Where the first word starts: the number of leading characters that
      are white space or separators. */
  function WordStart(text: string): (a: nat)
    ensures a <= |text|
  {
    TrimStartSpec(Spaced(text));
    |text| - |TrimStart(Spaced(text))|
  }

  /** A character of `Spaced(text)` is white space exactly when the
      character of `text` at that place breaks a word. */
  lemma SpacedBreaks(text: string)
    ensures forall i :: 0 <= i < |text| ==> (IsJsWhitespace(Spaced(text)[i]) <==> Breaks(text[i]))
  {
  }

  /** There is no first word exactly when every character breaks one. */
  lemma {:induction false} FirstWordEmpty(text: string)
    ensures FirstWord(text) == [] <==> forall i :: 0 <= i < |text| ==> Breaks(text[i])
  {
    var s := Spaced(text);
    SpacedBreaks(text);
    var t := TrimStart(s);
    TrimStartSpec(s);
    TrimEndSpec(t);
    TrimEmptyIffBlank(s);
    var u := Trim(s);
    if u != [] {
      assert u[0] == t[0];
    }
  }

  /** In a string `s`, the text up to the first white space of `s.trim()`
      starts after the leading white space of `s` and is followed by white
      space or the end of `s`. */
  lemma TrimmedWord(s: string)
    ensures var t := TrimStart(s);
      var w := PrefixUntil(Trim(s), IsJsWhitespace);
      && |t| <= |s|
      && |s| - |t| + |w| <= |s|
      && s[|s| - |t|..|s| - |t| + |w|] == w
      && (forall i :: 0 <= i < |s| - |t| ==> IsJsWhitespace(s[i]))
      && (|s| - |t| + |w| < |s| ==> IsJsWhitespace(s[|s| - |t| + |w|]))
  {
    var t := TrimStart(s);
    TrimStartSpec(s);
    var u := TrimEnd(t);
    TrimEndSpec(t);
    var w := PrefixUntil(u, IsJsWhitespace);
    NestedPrefix(s, t, u, w);
  }

  /** A prefix `w` of a prefix `u` of a suffix `t` of `s`, where what
      follows `w` in `u` and what follows `u` in `t` is white space. */
  lemma NestedPrefix(s: string, t: string, u: string, w: string)
    requires |t| <= |s| && t == s[|s| - |t|..]
    requires |u| <= |t| && u == t[..|u|]
    requires |w| <= |u| && w == u[..|w|]
    requires |w| < |u| ==> IsJsWhitespace(u[|w|])
    requires forall i :: |u| <= i < |t| ==> IsJsWhitespace(t[i])
    ensures |s| - |t| + |w| <= |s|
    ensures s[|s| - |t|..|s| - |t| + |w|] == w
    ensures |s| - |t| + |w| < |s| ==> IsJsWhitespace(s[|s| - |t| + |w|])
  {
    var a := |s| - |t|;
    assert s[a..a + |w|] == t[..|w|] == w;
    if a + |w| < |s| {
      assert s[a + |w|] == t[|w|];
      if |w| < |u| {
        assert t[|w|] == u[|w|];
      }
    }
  }

  /** The first word is the first maximal run of the text's characters
      that are neither white space nor a separator: everything before it
      breaks words, and so does the character right after it. */
  lemma FirstWordSlice(text: string)
    ensures var w, a := FirstWord(text), WordStart(text);
      && a + |w| <= |text|
      && text[a..a + |w|] == w
      && (forall i :: 0 <= i < a ==> Breaks(text[i]))
      && (forall i :: 0 <= i < |w| ==> !Breaks(w[i]))
      && (a + |w| < |text| ==> Breaks(text[a + |w|]))
  {
    var s := Spaced(text);
    SpacedBreaks(text);
    TrimmedWord(s);
    var w := FirstWord(text);
    var a := WordStart(text);
    forall k | 0 <= k < |w| ensures text[a + k] == w[k] && !Breaks(w[k]) {
      assert w[k] == s[a..a + |w|][k] == s[a + k];
    }
    assert text[a..a + |w|] == w;
  }

  /** The one-word label: a table hit gives the entry; otherwise a text
      with a word gives that word (never empty, free of white space and
      separators, and a slice of the text), and a text without one gives
      the text back, so only the empty text gives "" outside the table. */
  lemma ToOneWordSpec(text: string)
    ensures Assoc(OneWordMap, text).None? && (forall i :: 0 <= i < |text| ==> Breaks(text[i])) ==>
      ToOneWord(text) == text
    ensures Assoc(OneWordMap, text).None? && (exists i :: 0 <= i < |text| && !Breaks(text[i])) ==>
      var r := ToOneWord(text);
      && r != []
      && (forall i :: 0 <= i < |r| ==> !Breaks(r[i]))
      && Contains(text, r)
    ensures Assoc(OneWordMap, text).None? ==> (ToOneWord(text) == [] <==> text == [])
  {
    FirstWordEmpty(text);
    if Assoc(OneWordMap, text).None? && FirstWord(text) != [] {
      FirstWordSlice(text);
      assert OccursAt(text, FirstWord(text), WordStart(text));
    }
  }

  /** `hueFrom`: the value clamped to [0, 100], times 1.4. */
  function HueFrom(v: real): (r: real)
    ensures 0.0 <= r <= 140.0
    ensures 0.0 <= v <= 100.0 ==> r == v * 1.4
    ensures v < 0.0 ==> r == 0.0
    ensures v > 100.0 ==> r == 140.0
  {
    MaxReal(0.0, MinReal(100.0, v)) * 1.4
  }

  lemma HueMonotone(x: real, y: real)
    requires x <= y
    ensures HueFrom(x) <= HueFrom(y)
  {
  }

  /** A point of the chart. */
  datatype Point = Point(dimension: string, short: string, score: real, ring50Score: real)

  /** `data[i]` as the chart reads it: `None` stands for a value that is
      not a finite number (NaN, an infinity) or for a position past the end
      of `data`; both count as 0. */
  function ScoreAt(data: seq<Option<real>>, i: nat): (r: real)
    ensures i < |data| && data[i].Some? ==> r == data[i].value
    ensures i >= |data| || data[i].None? ==> r == 0.0
  {
    if i < |data| && data[i].Some? then data[i].value else 0.0
  }

  /** `chartData`: one point per dimension, in order. */
  function ChartData(data: seq<Option<real>>, dimensions: seq<string>): (r: seq<Point>)
    ensures |r| == |dimensions|
    ensures forall i :: 0 <= i < |r| ==>
      r[i] == Point(dimensions[i], ToOneWord(dimensions[i]), ScoreAt(data, i), 50.0)
  {
    seq(|dimensions|, i requires 0 <= i < |dimensions| =>
      Point(dimensions[i], ToOneWord(dimensions[i]), ScoreAt(data, i), 50.0))
  }

  function Scores(points: seq<Point>): (r: seq<real>)
    ensures |r| == |points| && forall i :: 0 <= i < |r| ==> r[i] == points[i].score
  {
    seq(|points|, i requires 0 <= i < |points| => points[i].score)
  }

  /** `avg`: the sum of the scores over `max(1, n)`. */
  function Average(points: seq<Point>): real
  {
    Sum(Scores(points)) / MaxInt(1, |points|) as real
  }

  /** Only the first |dimensions| values are read: extra values are
      ignored, and dimensions past the end of `data` score 0. */
  lemma ChartDataReadsPrefix(data: seq<Option<real>>, dimensions: seq<string>)
    ensures |data| >= |dimensions| ==> ChartData(data, dimensions) == ChartData(data[..|dimensions|], dimensions)
    ensures forall i :: |data| <= i < |dimensions| ==> ChartData(data, dimensions)[i].score == 0.0
  {
    if |data| >= |dimensions| {
      var d := data[..|dimensions|];
      assert forall i :: 0 <= i < |dimensions| ==> ScoreAt(data, i) == ScoreAt(d, i);
    }
  }

  /** With every finite value in [0, 100], every score and the mean lie in
      [0, 100], and the hue is the mean times 1.4. No data at all gives a
      mean of 0. */
  lemma AverageInRange(data: seq<Option<real>>, dimensions: seq<string>)
    requires forall i :: 0 <= i < |data| && data[i].Some? ==> 0.0 <= data[i].value <= 100.0
    ensures 0.0 <= Average(ChartData(data, dimensions)) <= 100.0
    ensures HueFrom(Average(ChartData(data, dimensions))) == Average(ChartData(data, dimensions)) * 1.4
    ensures dimensions == [] ==> Average(ChartData(data, dimensions)) == 0.0
  {
    var points := ChartData(data, dimensions);
    if points == [] {
      assert Scores(points) == [];
    } else {
      forall i | 0 <= i < |points| ensures 0.0 <= points[i].score <= 100.0 {
        assert points[i].score == ScoreAt(data, i);
      }
      MeanBounds(Scores(points), 0.0, 100.0);
    }
  }

  /** The stroke colour: the fixed orange `hsl(28 90% 52%)`, or
      `hsl(hue 70% 45%)`. */
  datatype Colour = FixedOrange | HueBased(hue: real)

  /** The stroke and the opacities of the gradient's two stops. */
  datatype Stroke = Stroke(colour: Colour, startOpacity: real, endOpacity: real)

  /** `stroke` and the gradient opacities chosen from the mean. */
  function StrokeFor(highlightBelow50: bool, avg: real): (r: Stroke)
    ensures r.colour == FixedOrange <==> highlightBelow50 && avg < 50.0
    ensures r.colour.HueBased? ==> r.colour.hue == HueFrom(avg)
    ensures highlightBelow50 && r.colour.HueBased? ==> 70.0 <= r.colour.hue <= 140.0
    ensures r.colour == FixedOrange ==> r.startOpacity == 0.65 && r.endOpacity == 0.35
    ensures r.colour.HueBased? ==> r.startOpacity == 0.55 && r.endOpacity == 0.28
  {
    if highlightBelow50 && avg < 50.0 then Stroke(FixedOrange, 0.65, 0.35)
    else Stroke(HueBased(HueFrom(avg)), 0.55, 0.28)
  }

  /** What is drawn; `highlightBelow50` defaults to true. */
  function Render(data: seq<Option<real>>, dimensions: seq<string>, highlightBelow50: Option<bool>):
    (r: (seq<Point>, Stroke))
    ensures r.0 == ChartData(data, dimensions)
    ensures highlightBelow50 != Some(false) && Average(r.0) < 50.0 ==> r.1.colour == FixedOrange
    ensures highlightBelow50 == Some(false) ==> r.1.colour == HueBased(HueFrom(Average(r.0)))
    ensures !(highlightBelow50 != Some(false) && Average(r.0) < 50.0) ==> r.1.colour == HueBased(HueFrom(Average(r.0)))
    ensures r.1 == StrokeFor(highlightBelow50 != Some(false), Average(r.0))
  {
    var points := ChartData(data, dimensions);
    var highlight := if highlightBelow50.Some? then highlightBelow50.value else true;
    (points, StrokeFor(highlight, Average(points)))
  }

  /** "Stress et détente", the one catalog dimension missing from the
      table, is shortened to its first word "Stress". */
  lemma StressDimensionShortened()
    ensures ToOneWord("Stress et détente") == "Stress"
  {
    StressNotInTable();
    StressFirstWord();
  }

  lemma StressNotInTable()
    ensures Assoc(OneWordMap, "Stress et détente").None?
  {
    var text := "Stress et détente";
    assert "Charge de travail"[0] != text[0];
    assert "Détente (↗ mieux)"[0] != text[0];
    assert forall k :: 0 <= k < |OneWordMap| ==> OneWordMap[k].0 != text;
  }

  /** A text that opens with n word characters followed by a break has
      those n characters as its first word. */
  lemma LeadingWord(text: string, n: nat)
    requires 0 < n < |text|
    requires forall i :: 0 <= i < n ==> !Breaks(text[i])
    requires Breaks(text[n])
    ensures FirstWord(text) == text[..n]
  {
    FirstWordEmpty(text);
    FirstWordSlice(text);
    var w, a := FirstWord(text), WordStart(text);
    assert a == 0;
  }

  lemma StressFirstWord()
    ensures FirstWord("Stress et détente") == "Stress"
  {
    var text := "Stress et détente";
    assert forall i :: 0 <= i < 6 ==> text[i] in "Stres";
    LeadingWord(text, 6);
  }
}
