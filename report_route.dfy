/** The report API route (app/api/report/route.ts): checks the OpenAI key,
    validates and normalises the posted results, calls the model once and
    checks the shape of the JSON it returns. The request body, the model
    call and `JSON.parse` of the model's content are inputs. */
module ReportRoute {
  import opened Common
  import opened Js
  import opened ReportPrompt

  /** A result as posted: every member optional; `name` is the `label`
      member. */
  datatype RawResult = RawResult(name: Option<string>, dimension: Option<string>,
                                 value: Option<real>, score: Option<real>)

  /** The model call: it throws (with its error's message, if any) or
      completes with the content of the first choice, if any. */
  datatype AiOutcome = Threw(message: Option<string>) | Completed(content: Option<Json>)

  /** The messages of the errors that reach the route's `catch`: text, the
      `SyntaxError` of an unreadable body and the `TypeError` of reading a
      member of `null`. */
  datatype Failure = Text(s: string) | BodySyntaxMessage | NullMemberMessage

  datatype Reply =
    | Failed(status: int, error: Failure)
    | Invalid                                    // 400 "Payload invalide" with the zod issues
    | Report(multidim: string, dimensionAnalyses: Json)

  const MissingKey := "OPENAI_API_KEY manquante. Configure-la dans Vercel → Environment Variables (ou désactive temporairement la route)."
  const NoReport := "GPT n’a pas renvoyé de rapport JSON."
  const NotJson := "GPT a renvoyé un format non JSON."
  const Incomplete := "Le JSON renvoyé n’est pas complet (manque dimensionAnalyses ou globalSynthesis)."

  function IncompleteEntry(index: nat): string
  {
    "Entrée incomplète à l’index " + NatToString(index)
    + ": chaque résultat doit contenir une dimension et un score numérique."
  }

  /** An optional number member: absent is accepted, anything but a number
      is refused (outer `None`). */
  function OptNumField(j: Json, key: string): Option<Option<real>>
  {
    match Member(j, key)
    case None => Some(None)
    case Some(JNum(n)) => Some(Some(n))
    case _ => None
  }

  /** One item of `results`: an object whose four members each have the
      right type when present. */
  function ParseItem(j: Json): (r: Option<RawResult>)
    ensures r.Some? <==>
      && j.JObj?
      && OptStrField(j, "label").Some? && OptStrField(j, "dimension").Some?
      && OptNumField(j, "value").Some? && OptNumField(j, "score").Some?
    ensures r.Some? ==>
      && r.value.name == OptStrField(j, "label").value
      && r.value.dimension == OptStrField(j, "dimension").value
      && r.value.value == OptNumField(j, "value").value
      && r.value.score == OptNumField(j, "score").value
  {
    if !j.JObj? then None
    else
      var name := OptStrField(j, "label");
      var dimension := OptStrField(j, "dimension");
      var value := OptNumField(j, "value");
      var score := OptNumField(j, "score");
      if name.None? || dimension.None? || value.None? || score.None? then None
      else Some(RawResult(name.value, dimension.value, value.value, score.value))
  }

  /** All the items, or `None` as soon as one is refused. */
  function ParseItems(items: seq<Json>): (r: Option<seq<RawResult>>)
    ensures r.Some? <==> forall i :: 0 <= i < |items| ==> ParseItem(items[i]).Some?
    ensures r.Some? ==> |r.value| == |items| && forall i :: 0 <= i < |items| ==> r.value[i] == ParseItem(items[i]).value
  {
    if items == [] then Some([])
    else
      var init := ParseItems(items[..|items| - 1]);
      var last := ParseItem(items[|items| - 1]);
      assert forall i :: 0 <= i < |items| - 1 ==> items[..|items| - 1][i] == items[i];
      if init.None? || last.None? then None else Some(init.value + [last.value])
  }

  /** `z.enum(["fr", "en"]).default("fr")`: an absent locale is "fr", "fr"
      and "en" are kept, anything else is refused. */
  function ParseLocale(v: Option<Json>): (r: Option<string>)
    ensures v.None? ==> r == Some("fr")
    ensures v.Some? ==> (r.Some? <==> v.value.JStr? && v.value.s in {"fr", "en"})
    ensures v.Some? && r.Some? ==> r.value == v.value.s
  {
    match v
    case None => Some("fr")
    case Some(JStr(s)) => if s == "fr" || s == "en" then Some(s) else None
    case _ => None
  }

  /** `BodySchema.parse`: an object whose `locale`, when present, is "fr"
      or "en" (default "fr") and whose `results` is a non-empty array of
      valid items. `None` is a `ZodError`. */
  function ParseBody(j: Json): (r: Option<(string, seq<RawResult>)>)
    ensures r.Some? <==>
      && j.JObj?
      && ParseLocale(Member(j, "locale")).Some?
      && Member(j, "results").Some? && Member(j, "results").value.JArr?
      && |Member(j, "results").value.items| >= 1
      && ParseItems(Member(j, "results").value.items).Some?
    ensures r.Some? ==>
      && r.value.0 == ParseLocale(Member(j, "locale")).value
      && r.value.1 == ParseItems(Member(j, "results").value.items).value
    ensures r.Some? ==> r.value.0 in {"fr", "en"} && |r.value.1| >= 1
    ensures r.Some? && Member(j, "locale").None? ==> r.value.0 == "fr"
  {
    if !j.JObj? then None
    else
      var locale := ParseLocale(Member(j, "locale"));
      var results := Member(j, "results");
      if locale.None? || results.None? || !results.value.JArr? || |results.value.items| < 1 then None
      else
        var items := ParseItems(results.value.items);
        if items.None? then None else Some((locale.value, items.value))
  }

  /** `label ?? dimension` and `value ?? score`; an entry without a
      non-empty label or without a number is incomplete. */
  function NormaliseItem(r: RawResult): (n: Option<ReportResult>)
    ensures n.Some? <==>
      && ((r.name.Some? && r.name.value != "") || (r.name.None? && r.dimension.Some? && r.dimension.value != ""))
      && (r.value.Some? || r.score.Some?)
    ensures n.Some? ==> n.value.name == (if r.name.Some? then r.name.value else r.dimension.value)
  {
    var name := if r.name.Some? then r.name else r.dimension;
    var value := if r.value.Some? then r.value else r.score;
    if name.None? || name.value == "" || value.None? then None
    else Some(ReportResult(name.value, value.value))
  }

  /** The normalisation `map`: every result normalised, or the index of the
      first incomplete one. */
  function Normalise(items: seq<RawResult>): (r: Result<seq<ReportResult>, nat>)
    ensures r.Ok? <==> forall i :: 0 <= i < |items| ==> NormaliseItem(items[i]).Some?
    ensures r.Ok? ==> |r.value| == |items| && forall i :: 0 <= i < |items| ==> r.value[i] == NormaliseItem(items[i]).value
    ensures r.Err? ==>
      && r.error < |items| && NormaliseItem(items[r.error]).None?
      && forall i :: 0 <= i < r.error ==> NormaliseItem(items[i]).Some?
  {
    if items == [] then Ok([])
    else
      var init := Normalise(items[..|items| - 1]);
      assert forall i :: 0 <= i < |items| - 1 ==> items[..|items| - 1][i] == items[i];
      if init.Err? then Err(init.error)
      else
        var last := NormaliseItem(items[|items| - 1]);
        if last.None? then Err(|items| - 1) else Ok(init.value + [last.value])
  }

  /** What the handler sends the model: the normalised results and the
      locale. */
  datatype ModelRequest = ModelRequest(results: seq<ReportResult>, locale: string)

  /** The normalised request, or the reply the route gives before calling
      the model. */
  function Prepare(keySet: bool, body: Option<Json>): (r: Result<ModelRequest, Reply>)
    ensures !keySet ==> r == Err(Failed(500, Text(MissingKey)))
    ensures keySet && body.None? ==> r == Err(Failed(500, BodySyntaxMessage))
    ensures keySet && body.Some? && ParseBody(body.value).None? ==> r == Err(Invalid)
    ensures r.Ok? ==> |r.value.results| >= 1 && r.value.locale in {"fr", "en"}
  {
    if !keySet then Err(Failed(500, Text(MissingKey)))
    else if body.None? then Err(Failed(500, BodySyntaxMessage))
    else match ParseBody(body.value)
      case None => Err(Invalid)
      case Some((locale, items)) =>
        match Normalise(items)
        case Err(index) => Err(Failed(500, Text(IncompleteEntry(index))))
        case Ok(results) => Ok(ModelRequest(results, locale))
  }

  /** Once the body parses, the request is the normalised results or the
      first incomplete entry's error. */
  lemma PrepareParsed(body: Json, locale: string, items: seq<RawResult>)
    requires ParseBody(body) == Some((locale, items))
    ensures Normalise(items).Err? ==>
      Prepare(true, Some(body)) == Err(Failed(500, Text(IncompleteEntry(Normalise(items).error))))
    ensures Normalise(items).Ok? ==> Prepare(true, Some(body)) == Ok(ModelRequest(Normalise(items).value, locale))
  {
  }

  /** The parsed answer has what the route needs: a `dimensionAnalyses`
      member that is an object (an array is an object too in JavaScript)
      and a non-empty string `globalSynthesis`. */
  predicate CompleteAnswer(j: Json)
  {
    && j.JObj?
    && Member(j, "dimensionAnalyses").Some?
    && (Member(j, "dimensionAnalyses").value.JObj? || Member(j, "dimensionAnalyses").value.JArr?)
    && Member(j, "globalSynthesis").Some?
    && Member(j, "globalSynthesis").value.JStr?
    && Member(j, "globalSynthesis").value.s != ""
  }

  /** The checks on the model's answer. */
  function Answer(ai: AiOutcome, parse: string -> Option<Json>): (r: Reply)
    ensures ai.Threw? ==> r == Failed(500, Text(if ai.message.Some? then ai.message.value else "Erreur interne."))
    ensures ai.Completed? && !(ai.content.Some? && ai.content.value.JStr? && ai.content.value.s != "") ==>
      r == Failed(502, Text(NoReport))
    ensures ai.Completed? && ai.content.Some? && ai.content.value.JStr? && ai.content.value.s != "" ==>
      (parse(ai.content.value.s).None? ==> r == Failed(502, Text(NotJson)))
    ensures r.Report? ==>
      && ai.Completed? && ai.content.Some? && ai.content.value.JStr?
      && var parsed := parse(ai.content.value.s);
      && parsed.Some? && parsed.value.JObj?
      && Assoc(parsed.value.fields, "globalSynthesis") == Some(JStr(r.multidim)) && r.multidim != ""
      && Assoc(parsed.value.fields, "dimensionAnalyses") == Some(r.dimensionAnalyses)
      && (r.dimensionAnalyses.JObj? || r.dimensionAnalyses.JArr?)
    ensures ai.Completed? && ai.content.Some? && ai.content.value.JStr? && ai.content.value.s != "" ==>
      var parsed := parse(ai.content.value.s);
      && (parsed.Some? && CompleteAnswer(parsed.value) ==>
            r == Report(Member(parsed.value, "globalSynthesis").value.s, Member(parsed.value, "dimensionAnalyses").value))
      && (parsed.Some? && parsed.value != JNull && !CompleteAnswer(parsed.value) ==> r == Failed(502, Text(Incomplete)))
      && (parsed == Some(JNull) ==> r == Failed(500, NullMemberMessage))
  {
    match ai
    case Threw(message) => Failed(500, Text(if message.Some? then message.value else "Erreur interne."))
    case Completed(content) =>
      if !(content.Some? && content.value.JStr? && content.value.s != "") then Failed(502, Text(NoReport))
      else match parse(content.value.s)
        case None => Failed(502, Text(NotJson))
        case Some(JNull) => Failed(500, NullMemberMessage)
        case Some(JObj(fields)) =>
          var analyses := Assoc(fields, "dimensionAnalyses");
          var synthesis := Assoc(fields, "globalSynthesis");
          if !Truthy(analyses) || !(analyses.value.JObj? || analyses.value.JArr?)
             || !(synthesis.Some? && synthesis.value.JStr? && synthesis.value.s != "")
          then Failed(502, Text(Incomplete))
          else Report(synthesis.value.s, analyses.value)
        case Some(_) => Failed(502, Text(Incomplete))   // a number, string, boolean or array has neither member
  }

  /** The handler: the reply, with the request the model was sent, if it
      was called. */
  function Post(keySet: bool, body: Option<Json>, ai: AiOutcome, parse: string -> Option<Json>)
    : (r: (Reply, Option<ModelRequest>))
    ensures r.1.Some? <==> Prepare(keySet, body).Ok?
    ensures r.1.None? ==> r.0 == Prepare(keySet, body).error
    ensures r.1.Some? ==> r.0 == Answer(ai, parse)
  {
    match Prepare(keySet, body)
    case Err(reply) => (reply, None)
    case Ok(request) => (Answer(ai, parse), Some(request))
  }

  /** The status of each reply. */
  function Status(r: Reply): int
  {
    match r
    case Failed(status, _) => status
    case Invalid => 400
    case Report(_, _) => 200
  }

  /** Every reply is 200, 400, 500 or 502, and 200 only with a report. */
  lemma StatusCodes(keySet: bool, body: Option<Json>, ai: AiOutcome, parse: string -> Option<Json>)
    ensures Status(Post(keySet, body, ai, parse).0) in {200, 400, 500, 502}
    ensures Status(Post(keySet, body, ai, parse).0) == 200 <==> Post(keySet, body, ai, parse).0.Report?
  {
    PrepareStatus(keySet, body);
    AnswerStatus(ai, parse);
  }

  /** The replies given before the model is called are 400 or 500. */
  lemma PrepareStatus(keySet: bool, body: Option<Json>)
    ensures Prepare(keySet, body).Err? ==> Status(Prepare(keySet, body).error) in {400, 500}
  {
  }

  /** The replies given after the call are 200 (with a report), 500 or 502. */
  lemma AnswerStatus(ai: AiOutcome, parse: string -> Option<Json>)
    ensures Status(Answer(ai, parse)) in {200, 500, 502}
    ensures Status(Answer(ai, parse)) == 200 <==> Answer(ai, parse).Report?
  {
  }

  /** A model answer `null` passes the `JSON.parse` step but reading its
      members throws, so the route answers 500 rather than 502. */
  lemma NullContentIsServerError(s: string, parse: string -> Option<Json>)
    requires s != "" && parse(s) == Some(JNull)
    ensures Answer(Completed(Some(JStr(s))), parse) == Failed(500, NullMemberMessage)
  {
  }

  /** zod refuses a locale other than "fr" and "en", an empty `results`
      array and a `label` that is not a string. */
  lemma BodyRefusals(j: Json, item: Json)
    ensures Member(j, "locale") == Some(JStr("de")) ==> ParseBody(j).None?
    ensures Member(j, "results") == Some(JArr([])) ==> ParseBody(j).None?
    ensures Member(item, "label").Some? && !Member(item, "label").value.JStr? ==> ParseItem(item).None?
    ensures
      && Member(j, "results").Some? && Member(j, "results").value.JArr?
      && item in Member(j, "results").value.items && ParseItem(item).None?
      ==> ParseBody(j).None?
  {
    if Member(j, "results").Some? && Member(j, "results").value.JArr?
       && item in Member(j, "results").value.items && ParseItem(item).None? {
      var items := Member(j, "results").value.items;
      var k :| 0 <= k < |items| && items[k] == item;
      assert !ParseItems(items).Some?;
    }
  }

  /** A label that is present but empty is not replaced by the dimension:
      `??` only skips `null` and `undefined`. */
  lemma EmptyLabelIncomplete(dimension: string, value: real)
    ensures NormaliseItem(RawResult(Some(""), Some(dimension), Some(value), None)).None?
  {
  }

  /** On success the route passes `dimensionAnalyses` through unchanged,
      whatever its keys. */
  lemma AnalysesPassedThrough(s: string, parse: string -> Option<Json>, synthesis: string, analyses: seq<(string, Json)>)
    requires s != "" && synthesis != ""
    requires parse(s) == Some(JObj([("dimensionAnalyses", JObj(analyses)), ("globalSynthesis", JStr(synthesis))]))
    ensures Answer(Completed(Some(JStr(s))), parse) == Report(synthesis, JObj(analyses))
  {
    var fields := [("dimensionAnalyses", JObj(analyses)), ("globalSynthesis", JStr(synthesis))];
    GetUnique(fields, "dimensionAnalyses", 0);
    GetUnique(fields, "globalSynthesis", 1);
  }
}
