/** The well-being prompt (lib/reportPrompt.ts): the results are sorted
    into strengths (60 and above) and points to watch (below 40), three
    pairwise "flags" combine low scores on workload, recognition and
    support, and the prompt text lists them with placeholders for empty
    lists. Numbers are printed by a `show` function given as a parameter
    (JavaScript's number-to-string conversion). */
module ReportPrompt {
  import opened Common

  /** `Result`: `name` is the `label` member. */
  datatype ReportResult = ReportResult(name: string, value: real)

  /** The results whose value is at least 60, in input order. */
  function Strengths(results: seq<ReportResult>): seq<ReportResult>
  {
    if results == [] then []
    else
      var init := Strengths(results[..|results| - 1]);
      if results[|results| - 1].value >= 60.0 then init + [results[|results| - 1]] else init
  }

  /** The results whose value is below 40, in input order. */
  function Watch(results: seq<ReportResult>): seq<ReportResult>
  {
    if results == [] then []
    else
      var init := Watch(results[..|results| - 1]);
      if results[|results| - 1].value < 40.0 then init + [results[|results| - 1]] else init
  }

  /** Both lists are filters: they keep exactly the results on their side
      of the threshold, and they distribute over concatenation, so input
      order is kept. */
  lemma {:induction false} StrengthsSpec(a: seq<ReportResult>, b: seq<ReportResult>)
    ensures forall r :: r in Strengths(a) <==> r in a && r.value >= 60.0
    ensures Strengths(a + b) == Strengths(a) + Strengths(b)
    decreases |b|
  {
    StrengthsMembers(a);
    if b == [] {
      assert a + b == a;
    } else {
      assert (a + b)[..|a + b| - 1] == a + b[..|b| - 1];
      StrengthsSpec(a, b[..|b| - 1]);
    }
  }

  lemma {:induction false} StrengthsMembers(a: seq<ReportResult>)
    ensures forall r :: r in Strengths(a) <==> r in a && r.value >= 60.0
  {
    if a != [] {
      StrengthsMembers(a[..|a| - 1]);
      assert a == a[..|a| - 1] + [a[|a| - 1]];
    }
  }

  lemma {:induction false} WatchSpec(a: seq<ReportResult>, b: seq<ReportResult>)
    ensures forall r :: r in Watch(a) <==> r in a && r.value < 40.0
    ensures Watch(a + b) == Watch(a) + Watch(b)
    decreases |b|
  {
    WatchMembers(a);
    if b == [] {
      assert a + b == a;
    } else {
      assert (a + b)[..|a + b| - 1] == a + b[..|b| - 1];
      WatchSpec(a, b[..|b| - 1]);
    }
  }

  lemma {:induction false} WatchMembers(a: seq<ReportResult>)
    ensures forall r :: r in Watch(a) <==> r in a && r.value < 40.0
  {
    if a != [] {
      WatchMembers(a[..|a| - 1]);
      assert a == a[..|a| - 1] + [a[|a| - 1]];
    }
  }

  /** No result is both a strength and a point to watch, and a value in
      [40, 60) is in neither list. */
  lemma BandsDisjoint(results: seq<ReportResult>)
    ensures forall r :: r in Strengths(results) ==> r !in Watch(results)
    ensures forall r :: r in results && 40.0 <= r.value < 60.0 ==> r !in Strengths(results) && r !in Watch(results)
  {
    StrengthsMembers(results);
    WatchMembers(results);
  }

  /** ASCII lower case: the patterns are ASCII, and a case-insensitive
      regular expression without the `u` flag never matches a non-ASCII
      character against an ASCII one. */
  function LowerAscii(s: string): (r: string)
    ensures |r| == |s|
    ensures forall i :: 0 <= i < |s| ==> r[i] == (if 'A' <= s[i] <= 'Z' then (s[i] as int + 32) as char else s[i])
  {
    if s == [] then []
    else LowerAscii(s[..|s| - 1]) + [if 'A' <= s[|s| - 1] <= 'Z' then (s[|s| - 1] as int + 32) as char else s[|s| - 1]]
  }

  /** `/pattern/i.test(s)` for a lower-case ASCII pattern. */
  predicate MatchesIgnoreCase(s: string, pattern: string)
  {
    Contains(LowerAscii(s), pattern)
  }

  predicate Low(r: ReportResult)
  {
    r.value < 40.0
  }

  /** `hasHighLoad`: some result about workload is low. */
  predicate HasHighLoad(results: seq<ReportResult>)
  {
    exists i :: 0 <= i < |results| && MatchesIgnoreCase(results[i].name, "charge") && Low(results[i])
  }

  predicate LowRecognition(results: seq<ReportResult>)
  {
    exists i :: 0 <= i < |results| && MatchesIgnoreCase(results[i].name, "reconnaissance") && Low(results[i])
  }

  predicate LowSupport(results: seq<ReportResult>)
  {
    exists i :: 0 <= i < |results|
      && (MatchesIgnoreCase(results[i].name, "management") || MatchesIgnoreCase(results[i].name, "dispositifs"))
      && Low(results[i])
  }

  const LoadAndRecognition := "charge_travail + faible reconnaissance"
  const LoadAndSupport := "charge_travail + soutien perçu faible"
  const RecognitionAndSupport := "faible reconnaissance + dispositifs/management perçus faibles"

  /** The flags, as a value. */
  function Flags(load: bool, recognition: bool, support: bool): seq<string>
  {
    (if load && recognition then [LoadAndRecognition] else [])
    + (if load && support then [LoadAndSupport] else [])
    + (if recognition && support then [RecognitionAndSupport] else [])
  }

  /** The `flags` array, filled by three conditional pushes. */
  method BuildFlags(results: seq<ReportResult>) returns (flags: seq<string>)
    ensures flags == Flags(HasHighLoad(results), LowRecognition(results), LowSupport(results))
  {
    var load := HasHighLoad(results);
    var recognition := LowRecognition(results);
    var support := LowSupport(results);
    flags := [];
    if load && recognition {
      flags := flags + [LoadAndRecognition];
    }
    if load && support {
      flags := flags + [LoadAndSupport];
    }
    if recognition && support {
      flags := flags + [RecognitionAndSupport];
    }
  }

  /** Each flag is there exactly when both of its conditions hold, in a
      fixed order and at most once, so there are at most three; there is
      none unless two conditions hold. */
  lemma FlagsSpec(load: bool, recognition: bool, support: bool)
    ensures var f := Flags(load, recognition, support);
      && |f| <= 3
      && (LoadAndRecognition in f <==> load && recognition)
      && (LoadAndSupport in f <==> load && support)
      && (RecognitionAndSupport in f <==> recognition && support)
      && (f == [] <==> !((load && recognition) || (load && support) || (recognition && support)))
      && Distinct(f)
      && (|f| == 3 <==> load && recognition && support)
  {
    assert |LoadAndRecognition| == 38 && |LoadAndSupport| == 37 && |RecognitionAndSupport| == 61;
  }

  /** The language word: "français" exactly for the locale "fr". */
  function LanguageWord(locale: string): (r: string)
    ensures r == "français" <==> locale == "fr"
    ensures r == "anglais" <==> locale != "fr"
  {
    if locale == "fr" then "français" else "anglais"
  }

  /** `${label}: ${value}`. */
  function Entry(r: ReportResult, show: real -> string): string
  {
    r.name + ": " + show(r.value)
  }

  function Entries(results: seq<ReportResult>, show: real -> string): (r: seq<string>)
    ensures |r| == |results| && forall i :: 0 <= i < |r| ==> r[i] == Entry(results[i], show)
  {
    seq(|results|, i requires 0 <= i < |results| => Entry(results[i], show))
  }

  /** The data section: one line "- label: value" per result, in input
      order. */
  function DataLines(results: seq<ReportResult>, show: real -> string): (r: seq<string>)
    ensures |r| == |results| && forall i :: 0 <= i < |r| ==> r[i] == "- " + Entry(results[i], show)
  {
    seq(|results|, i requires 0 <= i < |results| => "- " + Entry(results[i], show))
  }

  /** A list joined by `sep`, or the placeholder when it is empty. */
  function ListText(items: seq<string>, sep: string, placeholder: string): (r: string)
    ensures items == [] ==> r == placeholder
    ensures items != [] ==> r == Join(items, sep)
  {
    if items == [] then placeholder else Join(items, sep)
  }

  const NoStrengths := "aucun mis en évidence"
  const NoWatch := "aucun"
  const NoFlags := "aucune détectée"

  function Intro(lang: string): string
  {
    "\nTu es un assistant en bien-être au travail. Rédige un compte rendu bref (180–260 mots), " + lang
    + ", bienveillant, non médicalisant.\nConsignes essentielles :\n"
    + "- Valorise 2–3 points forts (scores ≥ 60).\n"
    + "- Mentionne 2–3 pistes concrètes d’amélioration (scores < 40), formulées comme des suggestions.\n"
    + "- Interprète les combinaisons multi-dimensionnelles si présentes (ex. charge élevée + faible reconnaissance).\n"
    + "- Rappelle que ce n’est pas un diagnostic médical et qu’en cas de difficulté, l’échange avec un professionnel est recommandé.\n"
    + "- Style : chaleureux, simple, respectueux. Jamais d’injonctions, ni de jugement.\n\nDonnées (0–100) :\n"
  }

  const Closing := "\n\nStructure attendue :\n1) Accroche empathique + rappel non-diagnostic\n"
    + "2) Forces observées (2–3 idées)\n3) Pistes d’amélioration concrètes (2–3 actions réalisables)\n"
    + "4) Suggestion de ressources/échanges (ex. pair, manager, professionnel)\n"
    + "5) Clôture encourageante (\"Prenez soin de vous\")\n\n"
    + "Ton texte doit rester généraliste (pas de termes médicaux), s’adresser à la 2e personne du singulier, et ne pas dépasser ~260 mots.\n"

  /** The three list sections of the prompt, each with its placeholder. */
  function Sections(results: seq<ReportResult>, show: real -> string): string
  {
    "\n\nPoints forts (≥60) :\n" + ListText(Entries(Strengths(results), show), ", ", NoStrengths)
    + "\n\nPoints de vigilance (<40) :\n" + ListText(Entries(Watch(results), show), ", ", NoWatch)
    + "\n\nCombinaisons multi-dimensionnelles :\n"
    + ListText(Flags(HasHighLoad(results), LowRecognition(results), LowSupport(results)), " | ", NoFlags)
  }

  /** `buildWellbeingPrompt(results, locale)`: the instructions in the
      chosen language, the data lines, the three lists and the expected
      structure. */
  function BuildWellbeingPrompt(results: seq<ReportResult>, locale: string, show: real -> string): (r: string)
    ensures StartsWith(r, Intro(LanguageWord(locale)))
    ensures EndsWith(r, Closing)
  {
    var intro := Intro(LanguageWord(locale));
    var middle := Join(DataLines(results, show), "\n") + Sections(results, show);
    Framed(intro, middle, Closing);
    intro + middle + Closing
  }

  /** The prompt is exactly the introduction, the data lines, the three
      lists and the closing structure, in that order and with nothing else. */
  lemma PromptParts(results: seq<ReportResult>, locale: string, show: real -> string)
    ensures BuildWellbeingPrompt(results, locale, show)
            == Intro(LanguageWord(locale)) + (Join(DataLines(results, show), "\n") + Sections(results, show)) + Closing
  {
  }

  lemma Framed(head: string, middle: string, tail: string)
    ensures StartsWith(head + middle + tail, head) && EndsWith(head + middle + tail, tail)
  {
    assert (head + middle + tail)[..|head|] == head;
    assert (head + middle + tail)[|head + middle + tail| - |tail|..] == tail;
  }

  /** With no low result at all, every list of low scores shows its
      placeholder. */
  lemma NothingLow(results: seq<ReportResult>)
    requires forall i :: 0 <= i < |results| ==> results[i].value >= 40.0
    ensures Watch(results) == []
    ensures Flags(HasHighLoad(results), LowRecognition(results), LowSupport(results)) == []
  {
    NoneWatched(results);
    NoLowNoFlag(results);
  }

  /** Each flag needs a low result. */
  lemma NoLowNoFlag(results: seq<ReportResult>)
    requires forall i :: 0 <= i < |results| ==> !Low(results[i])
    ensures !HasHighLoad(results) && !LowRecognition(results) && !LowSupport(results)
  {
  }

  lemma {:induction false} NoneWatched(results: seq<ReportResult>)
    requires forall i :: 0 <= i < |results| ==> results[i].value >= 40.0
    ensures Watch(results) == []
  {
    if results != [] {
      NoneWatched(results[..|results| - 1]);
    }
  }
}
