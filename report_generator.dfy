/** The report panel (components/ReportGenerator.tsx): the request it posts
    to the report route, the state it keeps from the reply, the automatic
    generation when the results change, and the per-dimension cards. The
    HTTP exchange is an outcome given as a parameter. */
module ReportGenerator {
  import opened Common
  import opened Js
  import opened ReportPrompt
  import ReportRoute

  /** A result as the panel receives it. */
  datatype DimScore = DimScore(dimension: string, score: real)

  const Emerald := "bg-emerald-500"
  const Amber := "bg-amber-500"
  const Rose := "bg-rose-500"

  const Favourable := "tendance plutôt favorable"
  const Intermediate := "niveau intermédiaire, équilibré"
  const Sensitive := "dimension plus sensible dans ce profil"

  /** `getScoreColor`: from 70, from 40, below 40. */
  function ScoreColor(score: real): (r: string)
    ensures r == Emerald <==> score >= 70.0
    ensures r == Amber <==> 40.0 <= score < 70.0
    ensures r == Rose <==> score < 40.0
  {
    if score >= 70.0 then Emerald else if score >= 40.0 then Amber else Rose
  }

  /** `getScoreLabel`, on the same thresholds. */
  function ScoreLabel(score: real): (r: string)
    ensures r == Favourable <==> score >= 70.0
    ensures r == Intermediate <==> 40.0 <= score < 70.0
    ensures r == Sensitive <==> score < 40.0
  {
    assert |Favourable| != |Intermediate| && |Favourable| != |Sensitive| && |Intermediate| != |Sensitive|;
    if score >= 70.0 then Favourable else if score >= 40.0 then Intermediate else Sensitive
  }

  /** The bar colour and the label always name the same band. */
  lemma ColourMatchesLabel(score: real)
    ensures ScoreColor(score) == Emerald <==> ScoreLabel(score) == Favourable
    ensures ScoreColor(score) == Amber <==> ScoreLabel(score) == Intermediate
    ensures ScoreColor(score) == Rose <==> ScoreLabel(score) == Sensitive
  {
  }

  function ResultItem(r: DimScore): Json
  {
    JObj([("label", JStr(r.dimension)), ("value", JNum(r.score))])
  }

  /** The posted payload: the locale and one `{label, value}` per result,
      in order. */
  function Payload(results: seq<DimScore>, locale: string): Json
  {
    JObj([("locale", JStr(locale)),
          ("results", JArr(seq(|results|, i requires 0 <= i < |results| => ResultItem(results[i]))))])
  }

  function AsReportResults(results: seq<DimScore>): (r: seq<ReportResult>)
    ensures |r| == |results| && forall i :: 0 <= i < |r| ==> r[i] == ReportResult(results[i].dimension, results[i].score)
  {
    seq(|results|, i requires 0 <= i < |results| => ReportResult(results[i].dimension, results[i].score))
  }

  lemma ItemParses(r: DimScore)
    ensures ReportRoute.ParseItem(ResultItem(r)) == Some(ReportRoute.RawResult(Some(r.dimension), None, Some(r.score), None))
  {
    var f := ResultItem(r).fields;
    GetUnique(f, "label", 0);
    GetUnique(f, "value", 1);
  }

  /** What the route reads from each posted result. */
  function Raws(results: seq<DimScore>): (r: seq<ReportRoute.RawResult>)
    ensures |r| == |results|
    ensures forall i :: 0 <= i < |r| ==> r[i] == ReportRoute.RawResult(Some(results[i].dimension), None, Some(results[i].score), None)
  {
    seq(|results|, i requires 0 <= i < |results| =>
      ReportRoute.RawResult(Some(results[i].dimension), None, Some(results[i].score), None))
  }

  lemma PayloadParses(results: seq<DimScore>, locale: string)
    requires |results| >= 1 && locale in {"fr", "en"}
    ensures ReportRoute.ParseBody(Payload(results, locale)) == Some((locale, Raws(results)))
  {
    var body := Payload(results, locale);
    var items := seq(|results|, i requires 0 <= i < |results| => ResultItem(results[i]));
    GetUnique(body.fields, "locale", 0);
    GetUnique(body.fields, "results", 1);
    forall i | 0 <= i < |results| ensures ReportRoute.ParseItem(items[i]) == Some(Raws(results)[i]) {
      ItemParses(results[i]);
    }
    var parsed := ReportRoute.ParseItems(items);
    assert parsed.value == Raws(results);
    assert Member(body, "locale") == Some(JStr(locale));
    assert Member(body, "results") == Some(JArr(items));
  }

  /** The panel and the report route agree: a non-empty list of results
      with non-empty dimensions, posted with the locale "fr" or "en", is
      read by the route as the same labels and values, in order. */
  lemma PayloadAccepted(results: seq<DimScore>, locale: string)
    requires |results| >= 1 && locale in {"fr", "en"}
    requires forall i :: 0 <= i < |results| ==> results[i].dimension != ""
    ensures ReportRoute.Prepare(true, Some(Payload(results, locale)))
         == Ok(ReportRoute.ModelRequest(AsReportResults(results), locale))
  {
    PayloadParses(results, locale);
    var raws := Raws(results);
    ReportRoute.PrepareParsed(Payload(results, locale), locale, raws);
    CompleteResults(results);
  }

  /** Results whose dimensions are all non-empty normalise to themselves. */
  lemma CompleteResults(results: seq<DimScore>)
    requires forall i :: 0 <= i < |results| ==> results[i].dimension != ""
    ensures ReportRoute.Normalise(Raws(results)) == Ok(AsReportResults(results))
  {
    var raws := Raws(results);
    var n := ReportRoute.Normalise(raws);
    assert forall i :: 0 <= i < |raws| ==> ReportRoute.NormaliseItem(raws[i]).Some?;
    assert forall i :: 0 <= i < |raws| ==> n.value[i] == AsReportResults(results)[i];
    assert n.value == AsReportResults(results);
  }

  /** A result with an empty dimension is refused by the route, which names
      the first such result. */
  lemma EmptyDimensionRefused(results: seq<DimScore>, locale: string, k: nat)
    requires |results| >= 1 && locale in {"fr", "en"}
    requires k < |results| && results[k].dimension == ""
    requires forall i :: 0 <= i < k ==> results[i].dimension != ""
    ensures ReportRoute.Prepare(true, Some(Payload(results, locale)))
         == Err(ReportRoute.Failed(500, ReportRoute.Text(ReportRoute.IncompleteEntry(k))))
  {
    PayloadParses(results, locale);
    var raws := Raws(results);
    ReportRoute.PrepareParsed(Payload(results, locale), locale, raws);
    assert ReportRoute.NormaliseItem(raws[k]).None?;
    assert forall i :: 0 <= i < k ==> ReportRoute.NormaliseItem(raws[i]).Some?;
    FirstIncomplete(raws, k);
  }

  /** The normalisation reports the first incomplete entry. */
  lemma FirstIncomplete(raws: seq<ReportRoute.RawResult>, k: nat)
    requires k < |raws| && ReportRoute.NormaliseItem(raws[k]).None?
    requires forall i :: 0 <= i < k ==> ReportRoute.NormaliseItem(raws[i]).Some?
    ensures ReportRoute.Normalise(raws) == Err(k)
  {
    var n := ReportRoute.Normalise(raws);
    assert n.Err?;
    assert !(n.error < k) && !(k < n.error);
  }

  /** How the POST ends: `fetch` threw (with its error's message, if any),
      or a reply arrived with its status and its JSON body (`None` when
      `res.json()` fails, which the panel reads as `{}`). */
  datatype Outcome =
    | Threw(message: Option<string>)
    | Replied(ok: bool, status: nat, json: Option<Json>)

  const GenerationFailed := "Une erreur s’est produite pendant la génération."

  /** `x?.toString() ?? ""` for the summary; `str` is `toString` of a value
      that is not a string. */
  function SummaryText(v: Option<Json>, str: Json -> string): (r: string)
    ensures Nullish(v) ==> r == ""
    ensures v.Some? && v.value.JStr? ==> r == v.value.s
  {
    if Nullish(v) then "" else if v.value.JStr? then v.value.s else str(v.value)
  }

  /** `json?.dimensionAnalyses ?? {}`. */
  function AnalysesOf(json: Json): (r: Json)
    ensures Nullish(Member(json, "dimensionAnalyses")) ==> r == JObj([])
    ensures !Nullish(Member(json, "dimensionAnalyses")) ==> r == Member(json, "dimensionAnalyses").value
  {
    var d := Member(json, "dimensionAnalyses");
    if Nullish(d) then JObj([]) else d.value
  }

  /** The message of a failed reply: `json?.error` when truthy, else
      "Erreur (status)". */
  function FailureMessage(json: Json, status: nat, str: Json -> string): (r: string)
    ensures Truthy(Member(json, "error")) && Member(json, "error").value.JStr? ==> r == Member(json, "error").value.s
    ensures !Truthy(Member(json, "error")) ==> r == "Erreur (" + NatToString(status) + ")"
  {
    var e := Member(json, "error");
    if Truthy(e) then (if e.value.JStr? then e.value.s else str(e.value))
    else "Erreur (" + NatToString(status) + ")"
  }

  /** One card: the score rounded to one decimal, its colour and label, the
      bar width clamped to [0, 100], and the texts of the dimension's block,
      empty when the block or the member is missing. */
  datatype Card = Card(dimension: string, shown: real, color: string, caption: string, width: real,
                       definition: Json, interpretation: Json)

  function TextOr(block: Option<Json>, key: string): (r: Json)
    ensures block.None? || Nullish(Member(block.value, key)) ==> r == JStr("")
    ensures block.Some? && !Nullish(Member(block.value, key)) ==> r == Member(block.value, key).value
  {
    if block.None? || Nullish(Member(block.value, key)) then JStr("") else Member(block.value, key).value
  }

  function CardFor(r: DimScore, analyses: Json): (c: Card)
    ensures c.dimension == r.dimension
    ensures r.score - 0.05 < c.shown <= r.score + 0.05 && c.shown == RoundTenth(r.score)
    ensures c.color == ScoreColor(c.shown) && c.caption == ScoreLabel(c.shown)
    ensures 0.0 <= c.width <= 100.0
    ensures 0.0 <= c.shown <= 100.0 ==> c.width == c.shown
    ensures Member(analyses, r.dimension).None? ==> c.definition == JStr("") && c.interpretation == JStr("")
    ensures Nullish(Member(analyses, r.dimension)) ==> c.definition == JStr("") && c.interpretation == JStr("")
    ensures !Nullish(Member(analyses, r.dimension)) ==>
      && c.definition == TextOr(Member(analyses, r.dimension), "definition")
      && c.interpretation == TextOr(Member(analyses, r.dimension), "interpretation")
    ensures
      var block := Member(analyses, r.dimension);
      !Nullish(block) && !Nullish(Member(block.value, "definition")) ==>
        c.definition == Member(block.value, "definition").value
    ensures
      var block := Member(analyses, r.dimension);
      !Nullish(block) && !Nullish(Member(block.value, "interpretation")) ==>
        c.interpretation == Member(block.value, "interpretation").value
  {
    var shown := RoundTenth(r.score);
    var block := Member(analyses, r.dimension);
    var b := if Nullish(block) then None else block;
    Card(r.dimension, shown, ScoreColor(shown), ScoreLabel(shown), MaxReal(0.0, MinReal(100.0, shown)),
         TextOr(b, "definition"), TextOr(b, "interpretation"))
  }

  function Cards(results: seq<DimScore>, analyses: Json): (r: seq<Card>)
    ensures |r| == |results| && forall i :: 0 <= i < |r| ==> r[i] == CardFor(results[i], analyses)
  {
    seq(|results|, i requires 0 <= i < |results| => CardFor(results[i], analyses))
  }

  /** The panel state. The results key of the automatic generation is the
      list itself (its JSON text determines it). */
  class Panel {
    var loading: bool
    var multidim: string
    var dimensionAnalyses: Json
    var error: string
    var autoKey: Option<seq<DimScore>>

    constructor()
      ensures !loading && multidim == "" && dimensionAnalyses == JObj([]) && error == "" && autoKey.None?
    {
      loading := false;
      multidim := "";
      dimensionAnalyses := JObj([]);
      error := "";
      autoKey := None;
    }

    /** `generate`: nothing without results; otherwise the payload is
        posted and the reply's summary and analyses replace the old ones,
        or the error is set and they are kept. */
    method Generate(results: seq<DimScore>, locale: string, outcome: Outcome, str: Json -> string)
      returns (sent: Option<Json>)
      modifies this
      ensures results == [] ==> sent.None? && unchanged(this)
      ensures results != [] ==> sent == Some(Payload(results, locale)) && !loading
      ensures autoKey == old(autoKey)
      ensures results != [] && outcome.Replied? && outcome.ok ==>
        var json := if outcome.json.Some? then outcome.json.value else JObj([]);
        && error == ""
        && multidim == SummaryText(Member(json, "multidim"), str)
        && dimensionAnalyses == AnalysesOf(json)
      ensures results != [] && outcome.Replied? && !outcome.ok ==>
        && error == FailureMessage(if outcome.json.Some? then outcome.json.value else JObj([]), outcome.status, str)
        && multidim == old(multidim) && dimensionAnalyses == old(dimensionAnalyses)
      ensures results != [] && outcome.Threw? ==>
        && error == (if outcome.message.Some? then outcome.message.value else GenerationFailed)
        && multidim == old(multidim) && dimensionAnalyses == old(dimensionAnalyses)
    {
      if results == [] {
        sent := None;
        return;
      }
      loading := true;
      error := "";
      sent := Some(Payload(results, locale));
      match outcome {
        case Threw(message) =>
          error := if message.Some? then message.value else GenerationFailed;
        case Replied(ok, status, body) =>
          var json := if body.Some? then body.value else JObj([]);
          if !ok {
            error := FailureMessage(json, status, str);
          } else {
            multidim := SummaryText(Member(json, "multidim"), str);
            dimensionAnalyses := AnalysesOf(json);
          }
      }
      loading := false;
    }

    /** The automatic generation effect: it fires only when there are
        results and they differ from the last ones it fired for, which it
        then remembers; so the same results never trigger it twice in a
        row. */
    method AutoGenerate(results: seq<DimScore>, locale: string, outcome: Outcome, str: Json -> string)
      returns (fired: bool)
      modifies this
      ensures fired <==> results != [] && old(autoKey) != Some(results)
      ensures fired ==> autoKey == Some(results)
      ensures !fired ==> unchanged(this)
    {
      if results != [] && autoKey != Some(results) {
        autoKey := Some(results);
        var _ := Generate(results, locale, outcome, str);
        fired := true;
      } else {
        fired := false;
      }
    }
  }
}
