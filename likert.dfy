/** The Likert answer scale (components/LikertScale.tsx): five evenly
    spaced, rounded values between the scale's bounds with duplicates
    removed, keyboard moves clamped to the ends, and the option labels. */
module Likert {
  import opened Common

  /** `Math.round(min + (i * (max - min)) / 4)` for i = 0..4. */
  function RawSteps(min: int, max: int): (r: seq<int>)
    ensures |r| == 5
  {
    seq(5, i requires 0 <= i < 5 => Round(min as real + (i * (max - min)) as real / 4.0))
  }

  /** `Array.from(new Set(range))`: the values in order of first
      occurrence. */
  function Steps(min: int, max: int): seq<int>
  {
    Dedupe(RawSteps(min, max))
  }

  lemma RoundOfInt(n: int)
    ensures Round(n as real) == n
  {
  }

  lemma RoundMonotone(x: real, y: real)
    requires x <= y
    ensures Round(x) <= Round(y)
  {
    assert (x + 0.5).Floor as real <= x + 0.5 <= y + 0.5;
  }

  /** With min <= max the raw values climb from min to max. */
  lemma RawStepsShape(min: int, max: int)
    requires min <= max
    ensures NonDecreasing(RawSteps(min, max))
    ensures RawSteps(min, max)[0] == min && RawSteps(min, max)[4] == max
  {
    var raw := RawSteps(min, max);
    forall i, j | 0 <= i < j < 5 ensures raw[i] <= raw[j] {
      assert i * (max - min) <= j * (max - min);
      RoundMonotone(min as real + (i * (max - min)) as real / 4.0, min as real + (j * (max - min)) as real / 4.0);
    }
    RoundOfInt(min);
    assert min as real + (4 * (max - min)) as real / 4.0 == max as real;
    RoundOfInt(max);
  }

  /** For integer bounds min <= max the steps are strictly increasing,
      start at min, end at max, and number at most five. */
  lemma StepsSpec(min: int, max: int)
    requires min <= max
    ensures StrictlyIncreasing(Steps(min, max))
    ensures 1 <= |Steps(min, max)| <= 5
    ensures Steps(min, max)[0] == min && Steps(min, max)[|Steps(min, max)| - 1] == max
    ensures forall v :: v in Steps(min, max) <==> v in RawSteps(min, max)
  {
    RawStepsShape(min, max);
    DedupeNonDecreasing(RawSteps(min, max));
    DedupeSpec(RawSteps(min, max));
    DedupeFirst(RawSteps(min, max));
  }

  /** The catalog's scale 1..5 gives the five values 1, 2, 3, 4, 5. */
  lemma CatalogSteps()
    ensures Steps(1, 5) == [1, 2, 3, 4, 5]
  {
    var raw := RawSteps(1, 5);
    RoundOfInt(1);
    RoundOfInt(2);
    RoundOfInt(3);
    RoundOfInt(4);
    RoundOfInt(5);
    assert raw[1] == Round(2.0) && raw[2] == Round(3.0) && raw[3] == Round(4.0) && raw[4] == Round(5.0);
    assert raw == [1, 2, 3, 4, 5];
    DedupeOfDistinct(raw);
  }

  /** `steps.indexOf(value)`: the first position, or -1. */
  function IndexOf(s: seq<int>, v: int): (r: int)
    ensures -1 <= r < |s|
    ensures r == -1 <==> v !in s
    ensures r >= 0 ==> s[r] == v && forall k :: 0 <= k < r ==> s[k] != v
  {
    if s == [] then -1
    else if s[0] == v then 0
    else
      var r := IndexOf(s[1..], v);
      assert forall k :: 1 <= k < |s| ==> s[1..][k - 1] == s[k];
      if r == -1 then -1 else r + 1
  }

  /** `move(dir)`: the value one step away from the current one, clamped to
      the ends; a value that is not a step counts as the first. */
  function Move(steps: seq<int>, value: int, dir: int): (r: int)
    requires steps != [] && (dir == -1 || dir == 1)
    ensures r in steps
  {
    steps[MaxInt(0, MinInt(|steps| - 1, MaxInt(0, IndexOf(steps, value)) + dir))]
  }

  /** From the step at position k, a move goes to the neighbour in its
      direction, or stays at the end; from a value that is not a step it
      goes to the second step (first when there is one) or the first. */
  lemma MoveSpec(steps: seq<int>, value: int, dir: int)
    requires steps != [] && (dir == -1 || dir == 1)
    ensures value in steps ==>
      var k := IndexOf(steps, value);
      && (dir == 1 && k < |steps| - 1 ==> Move(steps, value, dir) == steps[k + 1])
      && (dir == 1 && k == |steps| - 1 ==> Move(steps, value, dir) == value)
      && (dir == -1 && k > 0 ==> Move(steps, value, dir) == steps[k - 1])
      && (dir == -1 && k == 0 ==> Move(steps, value, dir) == value)
    ensures value !in steps ==>
      Move(steps, value, dir) == (if dir == 1 && |steps| > 1 then steps[1] else steps[0])
  {
  }

  /** On the catalog scale, moving forward from an unanswered question (0)
      selects 2, not 1. */
  lemma UnansweredMovesToSecond()
    ensures Move(Steps(1, 5), 0, 1) == 2
    ensures Move(Steps(1, 5), 0, -1) == 1
  {
    CatalogSteps();
  }

  /** The keys the scale reacts to: up and left go back, down and right go
      forward. */
  function Direction(key: string): (r: Option<int>)
    ensures r == Some(-1) <==> key == "ArrowUp" || key == "ArrowLeft"
    ensures r == Some(1) <==> key == "ArrowDown" || key == "ArrowRight"
    ensures r.None? <==> key !in {"ArrowUp", "ArrowLeft", "ArrowDown", "ArrowRight"}
  {
    if key == "ArrowUp" || key == "ArrowLeft" then Some(-1)
    else if key == "ArrowDown" || key == "ArrowRight" then Some(1)
    else None
  }

  /** `onKeyDown`: the value passed to `onChange`, if any. */
  function OnKeyDown(steps: seq<int>, value: int, key: string): (r: Option<int>)
    requires steps != []
    ensures r.None? <==> Direction(key).None?
    ensures r.Some? ==> r.value in steps && r.value == Move(steps, value, Direction(key).value)
  {
    match Direction(key)
    case None => None
    case Some(dir) => Some(Move(steps, value, dir))
  }

  const DefaultLabels := ["Pas du tout d’accord", "Plutôt pas d’accord", "Neutre", "Plutôt d’accord",
                          "Tout à fait d’accord"]

  /** `optionLabels`: the first five given labels when there are at least
      five, the defaults otherwise. */
  function OptionLabels(labels: Option<seq<string>>): (r: seq<string>)
    ensures |r| == 5
    ensures labels.Some? && |labels.value| >= 5 ==> r == labels.value[..5]
    ensures !(labels.Some? && |labels.value| >= 5) ==> r == DefaultLabels
  {
    if labels.Some? && |labels.value| >= 5 then labels.value[..5] else DefaultLabels
  }

  /** The text of each button: its option label, or `String(v)` (`show`)
      past the end of the labels. */
  function ButtonLabels(steps: seq<int>, labels: Option<seq<string>>, show: int -> string): (r: seq<string>)
    ensures |r| == |steps|
  {
    var options := OptionLabels(labels);
    seq(|steps|, i requires 0 <= i < |steps| => if i < |options| then options[i] else show(steps[i]))
  }

  /** There are never more steps than labels, so every button shows an
      option label and the `String(v)` fallback is never used. */
  lemma ButtonsUseOptionLabels(min: int, max: int, labels: Option<seq<string>>, show: int -> string)
    requires min <= max
    ensures |Steps(min, max)| <= |OptionLabels(labels)|
    ensures forall i :: 0 <= i < |Steps(min, max)| ==>
      ButtonLabels(Steps(min, max), labels, show)[i] == OptionLabels(labels)[i]
  {
    StepsSpec(min, max);
  }
}
