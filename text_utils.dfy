/** `cleanText` (lib/utils.ts): trim the input, then replace every run of
    white space by a single space. */
module TextUtils {
  import opened Common

  /** `s.replace(/\s+/g, " ")`: each maximal run of white space, matched
      greedily from the left, becomes one space. */
  function Collapse(s: string): string
    decreases |s|
  {
    if s == [] then []
    else if IsJsWhitespace(s[0]) then
      TrimStartSpec(s[1..]);
      [' '] + Collapse(TrimStart(s[1..]))
    else [s[0]] + Collapse(s[1..])
  }

  /** `cleanText(input)`. */
  function CleanText(input: string): string
  {
    Collapse(Trim(input))
  }

  /** The characters of `s` that are not white space, in order. */
  function NonSpace(s: string): string
  {
    if s == [] then [] else (if IsJsWhitespace(s[0]) then [] else [s[0]]) + NonSpace(s[1..])
  }

  /** A cleaned string: no white space at either end, no white space other
      than ' ', and no two white space characters side by side. */
  predicate Clean(s: string)
  {
    && (s != [] ==> !IsJsWhitespace(s[0]) && !IsJsWhitespace(s[|s| - 1]))
    && (forall i :: 0 <= i < |s| && IsJsWhitespace(s[i]) ==> s[i] == ' ')
    && (forall i :: 0 <= i < |s| - 1 ==> !(IsJsWhitespace(s[i]) && IsJsWhitespace(s[i + 1])))
  }

  // An independent reading of the same replacement: first turn every white
  // space character into ' ', then drop each ' ' that follows a ' '.

  function Spaces(s: string): (r: string)
    ensures |r| == |s|
    ensures forall i :: 0 <= i < |s| ==> r[i] == if IsJsWhitespace(s[i]) then ' ' else s[i]
  {
    seq(|s|, i requires 0 <= i < |s| => if IsJsWhitespace(s[i]) then ' ' else s[i])
  }

  function Squash(s: string): string
  {
    if |s| <= 1 then s
    else if s[0] == ' ' && s[1] == ' ' then Squash(s[1..])
    else [s[0]] + Squash(s[1..])
  }

  lemma {:induction false} NonSpaceAppend(s: string, t: string)
    ensures NonSpace(s + t) == NonSpace(s) + NonSpace(t)
  {
    if s != [] {
      assert (s + t)[1..] == s[1..] + t;
      NonSpaceAppend(s[1..], t);
    } else {
      assert s + t == t;
    }
  }

  lemma {:induction false} NonSpaceBlank(s: string)
    requires forall i :: 0 <= i < |s| ==> IsJsWhitespace(s[i])
    ensures NonSpace(s) == []
  {
    if s != [] {
      NonSpaceBlank(s[1..]);
    }
  }

  /** Trimming removes white space only. */
  lemma NonSpaceTrim(s: string)
    ensures NonSpace(Trim(s)) == NonSpace(s)
  {
    var t := TrimStart(s);
    TrimStartSpec(s);
    TrimEndSpec(t);
    var k := |s| - |t|;
    assert s == s[..k] + t;
    NonSpaceAppend(s[..k], t);
    NonSpaceBlank(s[..k]);
    var u := TrimEnd(t);
    assert t == u + t[|u|..];
    NonSpaceAppend(u, t[|u|..]);
    NonSpaceBlank(t[|u|..]);
  }

  /** The replacement keeps every non-white-space character, in order. */
  lemma {:induction false} NonSpaceCollapse(s: string)
    ensures NonSpace(Collapse(s)) == NonSpace(s)
    decreases |s|
  {
    if s != [] {
      if IsJsWhitespace(s[0]) {
        var t := TrimStart(s[1..]);
        TrimStartSpec(s[1..]);
        NonSpaceCollapse(t);
        NonSpaceAppend([' '], Collapse(t));
        var k := |s[1..]| - |t|;
        assert s[1..] == s[1..][..k] + t;
        NonSpaceAppend(s[1..][..k], t);
        NonSpaceBlank(s[1..][..k]);
      } else {
        NonSpaceCollapse(s[1..]);
        NonSpaceAppend([s[0]], Collapse(s[1..]));
      }
    }
  }

  /** The result of the replacement has no white space other than ' ',
      never two white space characters in a row, starts with white space
      exactly when `s` does, and ends with a non-white-space character when
      `s` does. */
  lemma {:induction false} CollapseShape(s: string)
    ensures var r := Collapse(s);
      && (forall i :: 0 <= i < |r| && IsJsWhitespace(r[i]) ==> r[i] == ' ')
      && (forall i :: 0 <= i < |r| - 1 ==> !(IsJsWhitespace(r[i]) && IsJsWhitespace(r[i + 1])))
      && (s == [] <==> r == [])
      && (s != [] ==> (IsJsWhitespace(r[0]) <==> IsJsWhitespace(s[0])))
      && (s != [] && !IsJsWhitespace(s[|s| - 1]) ==> !IsJsWhitespace(r[|r| - 1]))
    decreases |s|
  {
    if s != [] {
      var r := Collapse(s);
      if IsJsWhitespace(s[0]) {
        var t := TrimStart(s[1..]);
        TrimStartSpec(s[1..]);
        CollapseShape(t);
        var c := Collapse(t);
        assert r == [' '] + c;
        if t != [] {
          assert t[|t| - 1] == s[|s| - 1];
          assert r[1] == c[0];
        }
        assert forall i :: 1 <= i < |r| ==> r[i] == c[i - 1];
      } else {
        CollapseShape(s[1..]);
        var c := Collapse(s[1..]);
        assert r == [s[0]] + c;
        assert forall i :: 1 <= i < |r| ==> r[i] == c[i - 1];
      }
    }
  }

  /** The replacement changes nothing in a string whose white space is
      single spaces, never side by side. */
  lemma {:induction false} CollapseFixed(s: string)
    requires forall i :: 0 <= i < |s| && IsJsWhitespace(s[i]) ==> s[i] == ' '
    requires forall i :: 0 <= i < |s| - 1 ==> !(IsJsWhitespace(s[i]) && IsJsWhitespace(s[i + 1]))
    ensures Collapse(s) == s
    decreases |s|
  {
    if s != [] {
      var tail := s[1..];
      assert forall i :: 0 <= i < |tail| ==> tail[i] == s[i + 1];
      CollapseFixed(tail);
      if IsJsWhitespace(s[0]) {
        assert TrimStart(tail) == tail;
      }
    }
  }

  /** The greedy run replacement and the two-step reading agree. */
  lemma {:induction false} CollapseIsSquash(s: string)
    ensures Collapse(s) == Squash(Spaces(s))
    decreases |s|
  {
    if s != [] {
      var tail := s[1..];
      assert Spaces(s)[1..] == Spaces(tail);
      CollapseIsSquash(tail);
      if IsJsWhitespace(s[0]) {
        if tail != [] && IsJsWhitespace(tail[0]) {
          assert TrimStart(tail) == TrimStart(tail[1..]);
          assert Collapse(s) == Collapse(tail);
        } else {
          assert TrimStart(tail) == tail;
        }
      }
    }
  }

  /** `cleanText` gives a cleaned string that keeps every non-white-space
      character of the input in order, and is empty exactly when the input
      is blank. */
  lemma CleanTextSpec(input: string)
    ensures Clean(CleanText(input))
    ensures NonSpace(CleanText(input)) == NonSpace(input)
    ensures CleanText(input) == [] <==> forall i :: 0 <= i < |input| ==> IsJsWhitespace(input[i])
  {
    TrimSpec(input);
    TrimEmptyIffBlank(input);
    CollapseShape(Trim(input));
    NonSpaceCollapse(Trim(input));
    NonSpaceTrim(input);
  }

  /** A cleaned string is its own `cleanText`. */
  lemma CleanFixed(s: string)
    requires Clean(s)
    ensures CleanText(s) == s
  {
    assert TrimStart(s) == s;
    assert TrimEnd(s) == s;
    CollapseFixed(s);
  }

  /** `cleanText` is idempotent. */
  lemma CleanTextIdempotent(input: string)
    ensures CleanText(CleanText(input)) == CleanText(input)
  {
    CleanTextSpec(input);
    CleanFixed(CleanText(input));
  }
}
