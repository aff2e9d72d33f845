/** The browser-side API helpers (lib/api.ts): `submitQuiz` chooses an
    endpoint and a request body from its loosely typed arguments, and
    `apiFetch` turns the HTTP outcome into a value or an `ApiError`.
    Arguments are JSON values, `None` standing for `undefined`; the body is
    the value given to `JSON.stringify`. `String(v)` and `Number(v)` of a
    value that is not already a string or a number are parameters. */
module ApiClient {
  import opened Common
  import opened Js

  const QuizEndpoint := "/api/submit"

  /** The POST request `submitQuiz` hands to `apiFetch`. */
  datatype Request = Request(endpoint: string, body: Json)

  /** Why `submitQuiz` can reject before any request: the `in` operator on
      a legacy answer that is not an object (`TypeError`). */
  datatype Rejection = InOnNonObject(index: nat)

  /** The coercions of values that are neither strings nor numbers:
      `String(v)` and `Number(v)` as serialised (a number, or `null` for
      `NaN`). */
  datatype Coercions = Coercions(str: Json -> string, num: Json -> Json)

  function ToStr(c: Coercions, v: Json): (r: string)
    ensures v.JStr? ==> r == v.s
  {
    if v.JStr? then v.s else c.str(v)
  }

  function ToNum(c: Coercions, v: Json): (r: Json)
    ensures v.JNum? ==> r == v
  {
    if v.JNum? then v else c.num(v)
  }

  /** `a && typeof a === 'object' && !Array.isArray(a)`. */
  predicate IsPlainObject(a: Option<Json>)
  {
    a.Some? && a.value.JObj?
  }

  /** `x?.[k]` on an array or an object. */
  function Index(x: Json, k: nat): Option<Json>
  {
    match x
    case JArr(items) => if k < |items| then Some(items[k]) else None
    case JObj(fields) => Assoc(fields, NatToString(k))
    case _ => None
  }

  /** `p ?? q`. */
  function OrElse(p: Option<Json>, q: Option<Json>): Option<Json>
  {
    if Nullish(p) then q else p
  }

  function AnswerItem(questionId: string, value: Json): Json
  {
    JObj([("questionId", JStr(questionId)), ("value", value)])
  }

  /** One legacy array item: an object with both members is read from
      them; any other object or an array from `label`/`[0]` and
      `value`/`[1]`; anything else makes `in` throw. */
  function LegacyItem(c: Coercions, x: Json): (r: Option<(string, Json)>)
    ensures r.None? <==> !(x.JObj? || x.JArr?)
    ensures x.JObj? && Member(x, "questionId").Some? && Member(x, "value").Some? ==>
      r == Some((ToStr(c, Member(x, "questionId").value), ToNum(c, Member(x, "value").value)))
  {
    if !(x.JObj? || x.JArr?) then None
    else if Member(x, "questionId").Some? && Member(x, "value").Some? then
      Some((ToStr(c, Member(x, "questionId").value), ToNum(c, Member(x, "value").value)))
    else
      var id := OrElse(OrElse(Member(x, "label"), Index(x, 0)), Some(JStr("")));
      var value := OrElse(OrElse(Member(x, "value"), Index(x, 1)), Some(JNum(0.0)));
      Some((ToStr(c, id.value), ToNum(c, value.value)))
  }

  /** The legacy array normalisation: every item, in order, or the index of
      the first item `in` throws on. */
  function LegacyArray(c: Coercions, items: seq<Json>): (r: Result<seq<(string, Json)>, nat>)
    ensures r.Ok? <==> forall i :: 0 <= i < |items| ==> items[i].JObj? || items[i].JArr?
    ensures r.Ok? ==> |r.value| == |items| && forall i :: 0 <= i < |items| ==> r.value[i] == LegacyItem(c, items[i]).value
    ensures r.Err? ==> r.error < |items| && !(items[r.error].JObj? || items[r.error].JArr?)
  {
    if items == [] then Ok([])
    else
      var init := LegacyArray(c, items[..|items| - 1]);
      assert forall i :: 0 <= i < |items| - 1 ==> items[..|items| - 1][i] == items[i];
      if init.Err? then init
      else match LegacyItem(c, items[|items| - 1])
        case None => Err(|items| - 1)
        case Some(p) => Ok(init.value + [p])
  }

  /** `Object.entries(b ?? {})` with the values coerced: an object gives its
      members in order, a string its characters under their indices, and
      `null`, `undefined`, numbers and booleans give nothing. */
  function LegacyEntries(c: Coercions, b: Option<Json>): (r: seq<(string, Json)>)
    requires !(b.Some? && b.value.JArr?)
    ensures b.Some? && b.value.JObj? ==>
      |r| == |b.value.fields| && forall i :: 0 <= i < |r| ==> r[i] == (b.value.fields[i].0, ToNum(c, b.value.fields[i].1))
    ensures b.Some? && b.value.JStr? ==>
      |r| == |b.value.s| && forall i :: 0 <= i < |r| ==> r[i] == (NatToString(i), ToNum(c, JStr([b.value.s[i]])))
    ensures !(b.Some? && (b.value.JObj? || b.value.JStr?)) ==> r == []
  {
    if b.Some? && b.value.JObj? then
      seq(|b.value.fields|, i requires 0 <= i < |b.value.fields| => (b.value.fields[i].0, ToNum(c, b.value.fields[i].1)))
    else if b.Some? && b.value.JStr? then
      seq(|b.value.s|, i requires 0 <= i < |b.value.s| => (NatToString(i), ToNum(c, JStr([b.value.s[i]]))))
    else []
  }

  /** The legacy answers as (questionId, value) pairs. */
  function LegacyAnswers(c: Coercions, b: Option<Json>): Result<seq<(string, Json)>, nat>
  {
    if b.Some? && b.value.JArr? then LegacyArray(c, b.value.items) else Ok(LegacyEntries(c, b))
  }

  /** `typeof d === 'boolean' ? d : true`. */
  function LegacyConsent(d: Option<Json>): (r: bool)
    ensures d.Some? && d.value.JBool? ==> r == d.value.b
    ensures !(d.Some? && d.value.JBool?) ==> r
  {
    if d.Some? && d.value.JBool? then d.value.b else true
  }

  /** `typeof v === 'string' ? v : fallback`. */
  function StringOr(v: Option<Json>, fallback: string): string
  {
    if v.Some? && v.value.JStr? then v.value.s else fallback
  }

  /** `JSON.stringify` drops members whose value is `undefined`. */
  function Present(key: string, v: Option<Json>): seq<(string, Json)>
  {
    if v.Some? then [(key, v.value)] else []
  }

  const Context := JObj([("questionnaireVersion", JStr("v1")), ("locale", JStr("fr"))])

  /** The zod-shaped body of a legacy call to "/api/submit". */
  function LegacySubmitBody(co: Coercions, a: Option<Json>, answers: seq<(string, Json)>, consent: bool,
                            c: Option<Json>): Json
  {
    var pseudo := if Nullish(a) then "" else ToStr(co, a.value);
    JObj([
      ("pseudo", JStr(Trim(pseudo))),
      ("answers", JArr(seq(|answers|, i requires 0 <= i < |answers| => AnswerItem(answers[i].0, answers[i].1)))),
      ("consent", JBool(consent)),
      ("profile", if Nullish(c) then JObj([]) else c.value),
      ("context", Context)])
  }

  /** The results body of a legacy call to any other endpoint. */
  function LegacyReportBody(a: Option<Json>, answers: seq<(string, Json)>, c: Option<Json>): Json
  {
    var results := seq(|answers|, i requires 0 <= i < |answers| =>
      JObj([("label", JStr(answers[i].0)), ("value", answers[i].1)]));
    JObj([
      ("results", JArr(results)),
      ("locale", JStr("fr")),
      ("meta", JObj(Present("pseudo", a) + Present("profile", c) + [("wantReport", JBool(true))]))])
  }

  /** `submitQuiz(a, b, c, d, e)`: the request it sends, or why it rejects
      first. */
  function SubmitQuiz(co: Coercions, a: Option<Json>, b: Option<Json>, c: Option<Json>,
                      d: Option<Json>, e: Option<Json>): (r: Result<Request, Rejection>)
  {
    if IsPlainObject(a) then
      var endpoint := StringOr(b, QuizEndpoint);
      if EndsWith(endpoint, QuizEndpoint) then Ok(Request(endpoint, a.value))
      else if Truthy(Member(a.value, "results")) then Ok(Request(endpoint, a.value))
      else Ok(Request(endpoint, JObj([("results", JArr([])), ("locale", JStr("fr"))])))
    else
      var endpoint := StringOr(d, StringOr(e, QuizEndpoint));
      match LegacyAnswers(co, b)
      case Err(index) => Err(InOnNonObject(index))
      case Ok(answers) =>
        if EndsWith(endpoint, QuizEndpoint) then Ok(Request(endpoint, LegacySubmitBody(co, a, answers, LegacyConsent(d), c)))
        else Ok(Request(endpoint, LegacyReportBody(a, answers, c)))
  }

  /** With an object as first argument, the endpoint is `b` when it is a
      string and "/api/submit" otherwise; a submit endpoint gets the object
      unchanged, any other endpoint gets it unchanged only when it has
      truthy `results`, and `{results: [], locale: 'fr'}` otherwise. */
  lemma DirectCall(co: Coercions, a: Json, b: Option<Json>, c: Option<Json>, d: Option<Json>, e: Option<Json>)
    requires a.JObj?
    ensures var r := SubmitQuiz(co, Some(a), b, c, d, e);
      && r.Ok?
      && r.value.endpoint == (if b.Some? && b.value.JStr? then b.value.s else QuizEndpoint)
      && (EndsWith(r.value.endpoint, QuizEndpoint) || Truthy(Member(a, "results")) ==> r.value.body == a)
      && (!EndsWith(r.value.endpoint, QuizEndpoint) && !Truthy(Member(a, "results")) ==>
            r.value.body == JObj([("results", JArr([])), ("locale", JStr("fr"))]))
  {
  }

  /** Legacy defaults: consent is `d` when it is a boolean and true
      otherwise; the endpoint is `d` when it is a string, else `e` when it
      is a string, else "/api/submit". */
  lemma LegacyDefaults(co: Coercions, a: Option<Json>, b: Option<Json>, c: Option<Json>, d: Option<Json>, e: Option<Json>)
    requires !IsPlainObject(a)
    ensures var r := SubmitQuiz(co, a, b, c, d, e);
      r.Ok? ==>
        && r.value.endpoint == (if d.Some? && d.value.JStr? then d.value.s
                                else if e.Some? && e.value.JStr? then e.value.s else QuizEndpoint)
        && (EndsWith(r.value.endpoint, QuizEndpoint) ==>
              Member(r.value.body, "consent") == Some(JBool(if d.Some? && d.value.JBool? then d.value.b else true)))
  {
    var r := SubmitQuiz(co, a, b, c, d, e);
    if r.Ok? && EndsWith(r.value.endpoint, QuizEndpoint) {
      LegacySubmitMembers(co, a, LegacyAnswers(co, b).value, LegacyConsent(d), c);
    }
  }

  /** The consent and answers members of a legacy submit body. */
  lemma LegacySubmitMembers(co: Coercions, a: Option<Json>, answers: seq<(string, Json)>, consent: bool, c: Option<Json>)
    ensures Member(LegacySubmitBody(co, a, answers, consent, c), "consent") == Some(JBool(consent))
    ensures Member(LegacySubmitBody(co, a, answers, consent, c), "answers") ==
      Some(JArr(seq(|answers|, i requires 0 <= i < |answers| => AnswerItem(answers[i].0, answers[i].1))))
  {
    var pseudo := if Nullish(a) then "" else ToStr(co, a.value);
    SubmitFields(JStr(Trim(pseudo)),
      JArr(seq(|answers|, i requires 0 <= i < |answers| => AnswerItem(answers[i].0, answers[i].1))),
      JBool(consent), if Nullish(c) then JObj([]) else c.value, Context);
  }

  /** A legacy record is sent as one `{questionId, value}` per member, in
      member order, with `Number` applied to the value. */
  lemma LegacyRecordAnswers(co: Coercions, a: Option<Json>, fields: seq<(string, Json)>, c: Option<Json>,
                            d: Option<Json>, e: Option<Json>)
    requires !IsPlainObject(a)
    ensures var r := SubmitQuiz(co, a, Some(JObj(fields)), c, d, e);
      && r.Ok?
      && (EndsWith(r.value.endpoint, QuizEndpoint) ==>
            Member(r.value.body, "answers") == Some(JArr(seq(|fields|, i requires 0 <= i < |fields| =>
              AnswerItem(fields[i].0, ToNum(co, fields[i].1))))))
  {
    var answers := LegacyEntries(co, Some(JObj(fields)));
    LegacySubmitMembers(co, a, answers, LegacyConsent(d), c);
    RecordItems(co, fields);
  }

  /** The items built from a record's entries. */
  lemma RecordItems(co: Coercions, fields: seq<(string, Json)>)
    ensures var answers := LegacyEntries(co, Some(JObj(fields)));
      seq(|answers|, i requires 0 <= i < |answers| => AnswerItem(answers[i].0, answers[i].1))
        == seq(|fields|, i requires 0 <= i < |fields| => AnswerItem(fields[i].0, ToNum(co, fields[i].1)))
  {
  }

  /** Result `i` is `{label: answers[i].0, value: answers[i].1}`, in the
      answers' order. */
  predicate LabelledResults(items: seq<Json>, answers: seq<(string, Json)>)
  {
    && |items| == |answers|
    && forall i :: 0 <= i < |items| ==>
         && Member(items[i], "label") == Some(JStr(answers[i].0))
         && Member(items[i], "value") == Some(answers[i].1)
  }

  /** A legacy call to another endpoint asks for a report: the answers
      become `{label, value}` results, the locale is "fr" and `meta` has
      `wantReport: true`. */
  lemma LegacyReportRequest(co: Coercions, a: Option<Json>, b: Option<Json>, c: Option<Json>, d: Option<Json>, e: Option<Json>)
    requires !IsPlainObject(a)
    ensures var r := SubmitQuiz(co, a, b, c, d, e);
      r.Ok? && !EndsWith(r.value.endpoint, QuizEndpoint) ==>
        && Member(r.value.body, "locale") == Some(JStr("fr"))
        && Member(r.value.body, "meta").Some?
        && Member(Member(r.value.body, "meta").value, "wantReport") == Some(JBool(true))
        && Member(r.value.body, "results").Some?
        && Member(r.value.body, "results").value.JArr?
        && |Member(r.value.body, "results").value.items| == |LegacyAnswers(co, b).value|
        && LabelledResults(Member(r.value.body, "results").value.items, LegacyAnswers(co, b).value)
  {
    var r := SubmitQuiz(co, a, b, c, d, e);
    if r.Ok? && !EndsWith(r.value.endpoint, QuizEndpoint) {
      LegacyReportMembers(a, LegacyAnswers(co, b).value, c);
    }
  }

  /** The members of a legacy report body. */
  lemma LegacyReportMembers(a: Option<Json>, answers: seq<(string, Json)>, c: Option<Json>)
    ensures var body := LegacyReportBody(a, answers, c);
      && Member(body, "locale") == Some(JStr("fr"))
      && Member(body, "meta").Some?
      && Member(Member(body, "meta").value, "wantReport") == Some(JBool(true))
      && Member(body, "results").Some?
      && Member(body, "results").value.JArr?
      && |Member(body, "results").value.items| == |answers|
      && LabelledResults(Member(body, "results").value.items, answers)
  {
    var fields := LegacyReportBody(a, answers, c).fields;
    GetUnique(fields, "results", 0);
    GetUnique(fields, "locale", 1);
    GetUnique(fields, "meta", 2);
    var meta := fields[2].1.fields;
    GetUnique(meta, "wantReport", |meta| - 1);
    var items := fields[0].1.items;
    forall i | 0 <= i < |items|
      ensures Member(items[i], "label") == Some(JStr(answers[i].0))
      ensures Member(items[i], "value") == Some(answers[i].1)
    {
      GetUnique(items[i].fields, "label", 0);
      GetUnique(items[i].fields, "value", 1);
    }
  }

  /** A legacy array item that is not an object or an array makes the call
      reject before any request. */
  lemma LegacyPrimitiveItemRejects(co: Coercions, a: Option<Json>, items: seq<Json>, c: Option<Json>,
                                   d: Option<Json>, e: Option<Json>, k: nat)
    requires !IsPlainObject(a) && k < |items| && !(items[k].JObj? || items[k].JArr?)
    ensures SubmitQuiz(co, a, Some(JArr(items)), c, d, e).Err?
  {
  }

  /* ----------------------------- apiFetch ----------------------------- */

  /** An HTTP response as `apiFetch` reads it. */
  datatype Response = Response(ok: bool, status: nat, statusText: string,
                               contentType: Option<string>, raw: string)

  /** How the `fetch` call ends: the timer aborted it, it threw (an `Error`
      or some other value), or a response arrived. */
  datatype FetchOutcome =
    | Aborted
    | Threw(isError: bool, error: string)
    | Responded(response: Response)

  /** The value the promise settles with: data, or an `ApiError` with an
      optional status. A thrown `Error` is passed on unchanged (`Rethrown`). */
  datatype FetchResult =
    | Data(value: Json)
    | RawText(text: string)
    | ApiError(message: string, status: Option<nat>)
    | Rethrown(error: string)

  const TimeoutMessage := "La requête a expiré (timeout)"
  const UnknownNetworkError := "Erreur réseau inconnue"

  /** The body as JSON, when the content type says so and it parses. */
  function ParsedBody(r: Response, parse: string -> Option<Json>): (d: Option<Json>)
    ensures d.Some? ==> Contains(if r.contentType.Some? then r.contentType.value else "", "application/json")
  {
    var contentType := if r.contentType.Some? then r.contentType.value else "";
    if Contains(contentType, "application/json") then parse(r.raw) else None
  }

  /** The message of a failed response: `data.error`, else `data.message`,
      each only when truthy, else the raw text when not empty, else
      "HTTP status statusText". */
  function ErrorMessage(co: Coercions, data: Option<Json>, r: Response): (m: string)
    ensures Truthy(data) && Truthy(Member(data.value, "error")) ==> m == ToStr(co, Member(data.value, "error").value)
    ensures Truthy(data) && !Truthy(Member(data.value, "error")) && Truthy(Member(data.value, "message")) ==>
      m == ToStr(co, Member(data.value, "message").value)
    ensures !(Truthy(data) && (Truthy(Member(data.value, "error")) || Truthy(Member(data.value, "message")))) ==>
      m == (if r.raw != "" then r.raw else "HTTP " + NatToString(r.status) + " " + r.statusText)
  {
    if Truthy(data) && Truthy(Member(data.value, "error")) then ToStr(co, Member(data.value, "error").value)
    else if Truthy(data) && Truthy(Member(data.value, "message")) then ToStr(co, Member(data.value, "message").value)
    else if r.raw != "" then r.raw
    else "HTTP " + NatToString(r.status) + " " + r.statusText
  }

  /** `apiFetch(url, options)` once `fetch` has ended. */
  function ApiFetch(co: Coercions, outcome: FetchOutcome, parse: string -> Option<Json>): (r: FetchResult)
    ensures outcome.Aborted? ==> r == ApiError(TimeoutMessage, Some(408))
    ensures outcome.Threw? ==> r == (if outcome.isError then Rethrown(outcome.error) else ApiError(UnknownNetworkError, None))
    ensures outcome.Responded? && outcome.response.ok ==>
      var data := ParsedBody(outcome.response, parse);
      r == (if data.Some? && !data.value.JNull? then Data(data.value) else RawText(outcome.response.raw))
    ensures outcome.Responded? && !outcome.response.ok ==>
      && r.ApiError?
      && r.message == ErrorMessage(co, ParsedBody(outcome.response, parse), outcome.response)
      && r.status == (if outcome.response.status != 0 then Some(outcome.response.status) else None)
  {
    match outcome
    case Aborted => ApiError(TimeoutMessage, Some(408))
    case Threw(isError, error) => if isError then Rethrown(error) else ApiError(UnknownNetworkError, None)
    case Responded(res) =>
      var data := ParsedBody(res, parse);
      if res.ok then (if data.Some? && !data.value.JNull? then Data(data.value) else RawText(res.raw))
      else ApiError(ErrorMessage(co, data, res), if res.status != 0 then Some(res.status) else None)
  }

  /** A successful response whose JSON body is `null` is returned as the
      text "null": `data ?? raw` skips a parsed `null`. */
  lemma NullBodyReturnedAsText(co: Coercions, res: Response, parse: string -> Option<Json>)
    requires res.ok && res.contentType == Some("application/json") && parse(res.raw) == Some(JNull)
    ensures ApiFetch(co, Responded(res), parse) == RawText(res.raw)
  {
  }

  /** The message of a failure is never empty: the last fallback always
      holds "HTTP ". */
  lemma ErrorMessageNonEmptyFallback(co: Coercions, data: Option<Json>, r: Response)
    requires !(Truthy(data) && (Truthy(Member(data.value, "error")) || Truthy(Member(data.value, "message"))))
    ensures ErrorMessage(co, data, r) != ""
  {
  }
}
