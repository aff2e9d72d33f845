/** The zod payload schemas shared, with different limits, by the two
    submission routes (app/submit/route.ts and app/api/submit/route.ts):
    `AnswerSchema`, `ProfileSchema`, `PseudoSchema`, `PayloadSchema`.
    Parsing is all-or-nothing: `None` stands for the thrown `ZodError`. */
module Schemas {
  import opened Common
  import opened Js

  datatype Answer = Answer(questionId: string, value: int)

  datatype Profile = Profile(facility: string, job: string, age: string, seniority: string,
                             comment: Option<string>)

  /** A parsed payload. The optional `context` object is checked but not
      kept: nothing downstream of the parse reads it. */
  datatype Payload = Payload(pseudo: string, answers: seq<Answer>, consent: bool, profile: Profile)

  /** An error reported by a Supabase call; its `message` may be absent. */
  datatype DbError = DbError(message: Option<string>)

  /** The text of the error body in the routes' `catch`:
      `e?.message ?? "Invalid request"`. */
  function DbMessage(e: DbError): string
  {
    if e.message.Some? then e.message.value else "Invalid request"
  }

  /** The `error` text of a failure reply. The messages of the `SyntaxError`
      thrown by `req.json()` and of the `ZodError` thrown by the schema come
      from those libraries and are not modelled. */
  datatype ErrorText = Text(s: string) | JsonSyntaxMessage | ZodIssuesMessage

  /** `PayloadSchema.parse(await req.json())`, with the two ways it throws. */
  function ReadPayload(body: Option<Json>, rules: Rules, letter: char -> bool): Result<Payload, ErrorText>
  {
    if body.None? then Err(JsonSyntaxMessage)
    else match ParsePayload(body.value, rules, letter)
      case None => Err(ZodIssuesMessage)
      case Some(p) => Ok(p)
  }

  /** What differs between the two routes' schemas: the pseudo's maximum
      length, the minimum length of a question id, whether answer values
      must lie in 1..5, and the comment's maximum length. */
  datatype Rules = Rules(pseudoMax: nat, idMin: nat, likertOnly: bool, commentMax: Option<nat>)

  /** app/submit/route.ts */
  const LegacyRules := Rules(32, 0, false, None)

  /** app/api/submit/route.ts */
  const ApiRules := Rules(64, 2, true, Some(2000))

  /** One character of `/^[A-Za-z0-9_\-\p{L}]+$/u`; `letter` stands for the
      Unicode property `\p{L}`. */
  predicate PseudoChar(c: char, letter: char -> bool)
  {
    ('A' <= c <= 'Z') || ('a' <= c <= 'z') || ('0' <= c <= '9') || c == '_' || c == '-' || letter(c)
  }

  predicate ValidPseudo(s: string, rules: Rules, letter: char -> bool)
  {
    2 <= Utf16Length(s) <= rules.pseudoMax && forall i :: 0 <= i < |s| ==> PseudoChar(s[i], letter)
  }

  predicate ValidAnswer(a: Answer, rules: Rules)
  {
    Utf16Length(a.questionId) >= rules.idMin && (rules.likertOnly ==> 1 <= a.value <= 5)
  }

  predicate ValidProfile(p: Profile, rules: Rules)
  {
    && p.facility != "" && p.job != "" && p.age != "" && p.seniority != ""
    && (rules.commentMax.Some? && p.comment.Some? ==> Utf16Length(p.comment.value) <= rules.commentMax.value)
  }

  /** Everything the schema demands of a typed payload. */
  predicate ValidPayload(p: Payload, rules: Rules, letter: char -> bool)
  {
    && ValidPseudo(p.pseudo, rules, letter)
    && |p.answers| >= 1
    && (forall i :: 0 <= i < |p.answers| ==> ValidAnswer(p.answers[i], rules))
    && ValidProfile(p.profile, rules)
  }

  function ParseAnswer(j: Json, rules: Rules): (r: Option<Answer>)
    ensures r.Some? ==> ValidAnswer(r.value, rules)
    ensures r.Some? ==> Member(j, "questionId") == Some(JStr(r.value.questionId))
                        && Member(j, "value") == Some(JNum(r.value.value as real))
  {
    match (StrField(j, "questionId"), Member(j, "value"))
    case (Some(id), Some(JNum(n))) =>
      if IsInteger(n) && ValidAnswer(Answer(id, n.Floor), rules) then Some(Answer(id, n.Floor)) else None
    case _ => None
  }

  /** `z.array(AnswerSchema)`: every item must parse. */
  function ParseAnswers(items: seq<Json>, rules: Rules): (r: Option<seq<Answer>>)
    ensures r.Some? ==> |r.value| == |items|
                        && forall i :: 0 <= i < |items| ==> ParseAnswer(items[i], rules) == Some(r.value[i])
    ensures r.None? ==> exists i :: 0 <= i < |items| && ParseAnswer(items[i], rules).None?
  {
    if items == [] then Some([])
    else
      var init := items[..|items| - 1];
      match (ParseAnswers(init, rules), ParseAnswer(items[|items| - 1], rules))
      case (Some(xs), Some(x)) =>
        assert forall i :: 0 <= i < |init| ==> init[i] == items[i];
        Some(xs + [x])
      case (None, _) =>
        var k :| 0 <= k < |init| && ParseAnswer(init[k], rules).None?;
        assert init[k] == items[k];
        None
      case (_, None) => None
  }

  function ParseProfile(j: Option<Json>, rules: Rules): (r: Option<Profile>)
    ensures r.Some? ==> ValidProfile(r.value, rules)
  {
    if j.None? then None
    else
      var o := j.value;
      match (StrField(o, "facility"), StrField(o, "job"), StrField(o, "age"), StrField(o, "seniority"),
             OptStrField(o, "comment"))
      case (Some(f), Some(jb), Some(a), Some(s), Some(c)) =>
        var p := Profile(f, jb, a, s, c);
        if ValidProfile(p, rules) then Some(p) else None
      case _ => None
  }

  /** `z.number().int().optional()`. */
  function OptIntField(j: Json, key: string): Option<Option<int>>
  {
    match Member(j, key)
    case None => Some(None)
    case Some(JNum(n)) => if IsInteger(n) then Some(Some(n.Floor)) else None
    case _ => None
  }

  /** The optional `context` object: absent is accepted (it defaults to
      `{}`); otherwise it must be an object whose members, where present,
      have their types. */
  predicate ContextOk(c: Option<Json>)
  {
    c.None? ||
    (c.value.JObj?
     && OptStrField(c.value, "questionnaireVersion").Some? && OptIntField(c.value, "durationSeconds").Some?
     && OptStrField(c.value, "locale").Some? && OptStrField(c.value, "department").Some?)
  }

  /** `PayloadSchema.parse(body)`. */
  function ParsePayload(j: Json, rules: Rules, letter: char -> bool): (r: Option<Payload>)
    ensures r.Some? ==> ValidPayload(r.value, rules, letter)
    ensures r.Some? ==> Member(j, "consent") == Some(JBool(r.value.consent))
    ensures r.Some? ==> StrField(j, "pseudo") == Some(r.value.pseudo)
    ensures r.Some? ==> ParseProfile(Member(j, "profile"), rules) == Some(r.value.profile)
    ensures r.Some? ==> ContextOk(Member(j, "context"))
    ensures r.Some? ==> exists items :: Member(j, "answers") == Some(JArr(items))
                          && ParseAnswers(items, rules) == Some(r.value.answers)
  {
    var pseudo, answers, consent := StrField(j, "pseudo"), Member(j, "answers"), Member(j, "consent");
    var profile := ParseProfile(Member(j, "profile"), rules);
    if pseudo.None? || profile.None? then None
    else if !(answers.Some? && answers.value.JArr?) || !(consent.Some? && consent.value.JBool?) then None
    else if !ValidPseudo(pseudo.value, rules, letter) || |answers.value.items| < 1 then None
    else if !ContextOk(Member(j, "context")) then None
    else
      var parsed := ParseAnswers(answers.value.items, rules);
      if parsed.None? then None
      else Some(Payload(pseudo.value, parsed.value, consent.value.b, profile.value))
  }

  // Encoding a typed payload as the JSON a client sends.

  function EncodeAnswer(a: Answer): Json
  {
    JObj([("questionId", JStr(a.questionId)), ("value", JNum(a.value as real))])
  }

  function EncodeAnswers(xs: seq<Answer>): (r: seq<Json>)
    ensures |r| == |xs| && forall i :: 0 <= i < |xs| ==> r[i] == EncodeAnswer(xs[i])
  {
    seq(|xs|, i requires 0 <= i < |xs| => EncodeAnswer(xs[i]))
  }

  function OptStr(key: string, v: Option<string>): seq<(string, Json)>
  {
    if v.Some? then [(key, JStr(v.value))] else []
  }

  function EncodeProfile(p: Profile): Json
  {
    JObj([("facility", JStr(p.facility)), ("job", JStr(p.job)), ("age", JStr(p.age)),
          ("seniority", JStr(p.seniority))] + OptStr("comment", p.comment))
  }

  function EncodePayload(p: Payload): Json
  {
    JObj([("pseudo", JStr(p.pseudo)), ("answers", JArr(EncodeAnswers(p.answers))),
          ("consent", JBool(p.consent)), ("profile", EncodeProfile(p.profile)), ("context", JObj([]))])
  }

  lemma AnswerFields(a: Answer)
    ensures StrField(EncodeAnswer(a), "questionId") == Some(a.questionId)
    ensures Member(EncodeAnswer(a), "value") == Some(JNum(a.value as real))
  {
    var f := EncodeAnswer(a).fields;
    GetUnique(f, "questionId", 0);
    GetUnique(f, "value", 1);
  }

  lemma ParseEncodeAnswers(xs: seq<Answer>, rules: Rules)
    requires forall i :: 0 <= i < |xs| ==> ValidAnswer(xs[i], rules)
    ensures ParseAnswers(EncodeAnswers(xs), rules) == Some(xs)
  {
    var items := EncodeAnswers(xs);
    forall i | 0 <= i < |xs| ensures ParseAnswer(items[i], rules) == Some(xs[i]) {
      var a := xs[i];
      AnswerFields(a);
      assert (a.value as real).Floor == a.value;
    }
    ParseAnswersAll(items, xs, rules);
  }

  lemma ParseAnswersAll(items: seq<Json>, xs: seq<Answer>, rules: Rules)
    requires |items| == |xs|
    requires forall i :: 0 <= i < |xs| ==> ParseAnswer(items[i], rules) == Some(xs[i])
    ensures ParseAnswers(items, rules) == Some(xs)
  {
    var r := ParseAnswers(items, rules);
    assert forall i :: 0 <= i < |items| ==> ParseAnswer(items[i], rules).Some?;
    assert r.Some?;
    assert |r.value| == |xs|;
    assert forall i :: 0 <= i < |xs| ==> r.value[i] == xs[i];
    assert r.value == xs;
  }

  lemma OptStrGet(key: string, v: Option<string>, other: string)
    ensures Assoc(OptStr(key, v), key) == if v.Some? then Some(JStr(v.value)) else None
    ensures other != key ==> Assoc(OptStr(key, v), other) == None
  {
  }

  /** A required member of an encoded profile. */
  lemma ProfileField(p: Profile, key: string, i: nat)
    requires i < 4 && key == ["facility", "job", "age", "seniority"][i]
    ensures Member(EncodeProfile(p), key) ==
      Some([JStr(p.facility), JStr(p.job), JStr(p.age), JStr(p.seniority)][i])
  {
    var head := [("facility", JStr(p.facility)), ("job", JStr(p.job)), ("age", JStr(p.age)),
                 ("seniority", JStr(p.seniority))];
    GetUnique(head, key, i);
    GetAppend(head, OptStr("comment", p.comment), key);
  }

  lemma ProfileComment(p: Profile)
    ensures OptStrField(EncodeProfile(p), "comment") == Some(p.comment)
  {
    var head := [("facility", JStr(p.facility)), ("job", JStr(p.job)), ("age", JStr(p.age)),
                 ("seniority", JStr(p.seniority))];
    GetAppend(head, OptStr("comment", p.comment), "comment");
  }

  lemma ParseEncodeProfile(p: Profile, rules: Rules)
    requires ValidProfile(p, rules)
    ensures ParseProfile(Some(EncodeProfile(p)), rules) == Some(p)
  {
    ProfileField(p, "facility", 0);
    ProfileField(p, "job", 1);
    ProfileField(p, "age", 2);
    ProfileField(p, "seniority", 3);
    ProfileComment(p);
  }

  /** A payload that meets the schema and is sent as JSON (with an empty
      context) is read back
      unchanged; together with the `ensures` of `ParsePayload` this makes the
      parser accept exactly the valid payloads. */
  lemma ParseEncode(p: Payload, rules: Rules, letter: char -> bool)
    requires ValidPayload(p, rules, letter)
    ensures ParsePayload(EncodePayload(p), rules, letter) == Some(p)
  {
    PayloadMembers(p);
    ParseEncodeAnswers(p.answers, rules);
    ParseEncodeProfile(p.profile, rules);
    ParsePayloadAccepts(EncodePayload(p), EncodeAnswers(p.answers), p, rules, letter);
  }

  lemma ParsePayloadAccepts(j: Json, items: seq<Json>, p: Payload, rules: Rules, letter: char -> bool)
    requires StrField(j, "pseudo") == Some(p.pseudo) && ValidPseudo(p.pseudo, rules, letter)
    requires Member(j, "answers") == Some(JArr(items)) && |items| >= 1
    requires ParseAnswers(items, rules) == Some(p.answers)
    requires Member(j, "consent") == Some(JBool(p.consent))
    requires ParseProfile(Member(j, "profile"), rules) == Some(p.profile)
    requires ContextOk(Member(j, "context"))
    ensures ParsePayload(j, rules, letter) == Some(p)
  {
  }

  lemma PayloadMembers(p: Payload)
    ensures StrField(EncodePayload(p), "pseudo") == Some(p.pseudo)
    ensures Member(EncodePayload(p), "answers") == Some(JArr(EncodeAnswers(p.answers)))
    ensures Member(EncodePayload(p), "consent") == Some(JBool(p.consent))
    ensures Member(EncodePayload(p), "profile") == Some(EncodeProfile(p.profile))
    ensures Member(EncodePayload(p), "context") == Some(JObj([]))
  {
    SubmitFields(JStr(p.pseudo), JArr(EncodeAnswers(p.answers)), JBool(p.consent), EncodeProfile(p.profile), JObj([]));
  }

  /** An empty `answers` array is refused (`.min(1)`). */
  lemma EmptyAnswersRejected(j: Json, rules: Rules, letter: char -> bool)
    requires Member(j, "answers") == Some(JArr([]))
    ensures ParsePayload(j, rules, letter).None?
  {
  }

  /** One answer whose value is not an integer makes the whole payload fail. */
  lemma NonIntegerRejected(j: Json, rules: Rules, letter: char -> bool, k: nat)
    requires Member(j, "answers").Some? && Member(j, "answers").value.JArr?
    requires k < |Member(j, "answers").value.items|
    requires Member(Member(j, "answers").value.items[k], "value").Some?
    requires var v := Member(Member(j, "answers").value.items[k], "value").value;
      v.JNum? && !IsInteger(v.n)
    ensures ParsePayload(j, rules, letter).None?
  {
    var items := Member(j, "answers").value.items;
    assert ParseAnswer(items[k], rules).None?;
  }
}
