/** The quiz-flow hook (hooks/useQuizFlow.ts): the phase of the flow, the
    current question, the answers recorded by question id in insertion
    order, the profile, and the submission to the legacy route "/submit".
    The HTTP exchange is an outcome given as a parameter. */
module QuizFlow {
  import opened Common
  import opened Js
  import Schemas
  import QuizScreen

  datatype Phase = Intro | Quiz | ProfileStep | Results | Final

  /** The profile form, consent included. */
  datatype FlowProfile = FlowProfile(facility: string, job: string, age: string, seniority: string,
                                     comment: string, consent: bool)

  const EmptyProfile := FlowProfile("", "", "", "", "", false)

  const PseudoMissing := "Merci d’entrer un pseudo."
  const SubmitFailed := "Erreur de soumission"

  /** The answers object: its entries in insertion order (the catalog's
      question ids are not array indices, so `Object.entries` keeps that
      order). */
  type Entries = seq<(string, int)>

  predicate DistinctKeys(m: Entries)
  {
    forall i, j :: 0 <= i < j < |m| ==> m[i].0 != m[j].0
  }

  function Lookup(m: Entries, k: string): (r: Option<int>)
    ensures r.None? <==> forall i :: 0 <= i < |m| ==> m[i].0 != k
    ensures r.Some? ==> exists i :: 0 <= i < |m| && m[i] == (k, r.value)
  {
    if m == [] then None
    else if m[0].0 == k then Some(m[0].1)
    else
      var r := Lookup(m[1..], k);
      assert forall i :: 1 <= i < |m| ==> m[1..][i - 1] == m[i];
      r
  }

  /** `{ ...prev, [k]: v }`: an existing key keeps its place and takes the
      new value, a new key goes last. */
  function Put(m: Entries, k: string, v: int): (r: Entries)
    ensures (exists i :: 0 <= i < |m| && m[i].0 == k) ==> |r| == |m|
    ensures (forall i :: 0 <= i < |m| ==> m[i].0 != k) ==> r == m + [(k, v)]
    ensures forall i :: 0 <= i < |m| ==> r[i].0 == m[i].0
  {
    if m == [] then [(k, v)]
    else if m[0].0 == k then [(k, v)] + m[1..]
    else
      var rest := Put(m[1..], k, v);
      assert forall i :: 1 <= i < |m| ==> m[1..][i - 1] == m[i];
      [m[0]] + rest
  }

  /** After `Put`, the key reads the new value, every other key reads what
      it read before, and keys stay distinct. */
  lemma PutSpec(m: Entries, k: string, v: int)
    requires DistinctKeys(m)
    ensures DistinctKeys(Put(m, k, v))
    ensures Lookup(Put(m, k, v), k) == Some(v)
    ensures forall o :: o != k ==> Lookup(Put(m, k, v), o) == Lookup(m, o)
  {
    PutDistinct(m, k, v);
    PutLookup(m, k, v);
  }

  /** An existing key keeps the keys as they were; a new one is appended. */
  lemma PutDistinct(m: Entries, k: string, v: int)
    requires DistinctKeys(m)
    ensures DistinctKeys(Put(m, k, v))
  {
    var r := Put(m, k, v);
    if forall i :: 0 <= i < |m| ==> m[i].0 != k {
      assert r == m + [(k, v)];
      assert forall i :: 0 <= i < |m| ==> r[i] == m[i];
    } else {
      assert |r| == |m|;
    }
  }

  lemma {:induction false} PutLookup(m: Entries, k: string, v: int)
    ensures Lookup(Put(m, k, v), k) == Some(v)
    ensures forall o :: o != k ==> Lookup(Put(m, k, v), o) == Lookup(m, o)
  {
    if m != [] {
      var r := Put(m, k, v);
      if m[0].0 == k {
        assert r[1..] == m[1..];
      } else {
        PutLookup(m[1..], k, v);
        assert r[1..] == Put(m[1..], k, v);
      }
    }
  }

  function AsAnswers(m: Entries): (r: seq<Schemas.Answer>)
    ensures |r| == |m| && forall i :: 0 <= i < |m| ==> r[i] == Schemas.Answer(m[i].0, m[i].1)
  {
    seq(|m|, i requires 0 <= i < |m| => Schemas.Answer(m[i].0, m[i].1))
  }

  function AsProfile(p: FlowProfile): Schemas.Profile
  {
    Schemas.Profile(p.facility, p.job, p.age, p.seniority, Some(p.comment))
  }

  /** The context the hook sends: `durationSeconds: null`. */
  const HookContext := JObj([("questionnaireVersion", JStr("v1")), ("durationSeconds", JNull)])

  /** The same context without the `null` member. */
  const CorrectedContext := JObj([("questionnaireVersion", JStr("v1"))])

  /** The JSON body of the submission, around a given context: the pseudo
      as typed, one `{questionId, value}` per recorded answer in insertion
      order, the consent and the five profile fields. */
  function BodyWith(context: Json, pseudo: string, answers: Entries, p: FlowProfile): Json
  {
    JObj([("pseudo", JStr(pseudo)), ("answers", JArr(Schemas.EncodeAnswers(AsAnswers(answers)))),
          ("consent", JBool(p.consent)), ("profile", Schemas.EncodeProfile(AsProfile(p))),
          ("context", context)])
  }

  /** The body as the hook builds it. */
  function FlowBody(pseudo: string, answers: Entries, p: FlowProfile): Json
  {
    BodyWith(HookContext, pseudo, answers, p)
  }

  /** The legacy route's schema refuses every body the hook sends:
      `durationSeconds` is `z.number().int().optional()`, which accepts an
      absent member but not `null`. */
  lemma FlowBodyAlwaysRefused(pseudo: string, answers: Entries, p: FlowProfile, letter: char -> bool)
    ensures Schemas.ParsePayload(FlowBody(pseudo, answers, p), Schemas.LegacyRules, letter).None?
  {
    var f := FlowBody(pseudo, answers, p).fields;
    GetUnique(f, "context", 4);
    GetUnique(HookContext.fields, "durationSeconds", 1);
    assert !Schemas.ContextOk(Some(HookContext));
  }

  /** The body with the corrected context: every schema-valid submission is
      read back by the legacy route exactly as the hook holds it. */
  lemma CorrectedBodyAccepted(pseudo: string, answers: Entries, p: FlowProfile, letter: char -> bool)
    requires Schemas.ValidPayload(Schemas.Payload(pseudo, AsAnswers(answers), p.consent, AsProfile(p)),
                                  Schemas.LegacyRules, letter)
    ensures Schemas.ParsePayload(BodyWith(CorrectedContext, pseudo, answers, p), Schemas.LegacyRules, letter)
         == Some(Schemas.Payload(pseudo, AsAnswers(answers), p.consent, AsProfile(p)))
  {
    var payload := Schemas.Payload(pseudo, AsAnswers(answers), p.consent, AsProfile(p));
    BodyMembers(CorrectedContext, pseudo, answers, p);
    CorrectedContextOk();
    Schemas.ParseEncodeAnswers(payload.answers, Schemas.LegacyRules);
    Schemas.ParseEncodeProfile(payload.profile, Schemas.LegacyRules);
    Schemas.ParsePayloadAccepts(BodyWith(CorrectedContext, pseudo, answers, p),
      Schemas.EncodeAnswers(payload.answers), payload, Schemas.LegacyRules, letter);
  }

  lemma BodyMembers(context: Json, pseudo: string, answers: Entries, p: FlowProfile)
    ensures StrField(BodyWith(context, pseudo, answers, p), "pseudo") == Some(pseudo)
    ensures Member(BodyWith(context, pseudo, answers, p), "answers") == Some(JArr(Schemas.EncodeAnswers(AsAnswers(answers))))
    ensures Member(BodyWith(context, pseudo, answers, p), "consent") == Some(JBool(p.consent))
    ensures Member(BodyWith(context, pseudo, answers, p), "profile") == Some(Schemas.EncodeProfile(AsProfile(p)))
    ensures Member(BodyWith(context, pseudo, answers, p), "context") == Some(context)
  {
    SubmitFields(JStr(pseudo), JArr(Schemas.EncodeAnswers(AsAnswers(answers))), JBool(p.consent),
      Schemas.EncodeProfile(AsProfile(p)), context);
  }

  lemma CorrectedContextOk()
    ensures Schemas.ContextOk(Some(CorrectedContext))
  {
    GetUnique(CorrectedContext.fields, "questionnaireVersion", 0);
  }

  /** How the POST to "/submit" ends: `fetch` or `response.json()` threw
      (with that error's message), or a reply was read. */
  datatype SubmitOutcome =
    | Threw(message: string)
    | Replied(ok: bool, data: Json)

  /** The number of questions, `questions.length`. */
  const N: nat := QuizScreen.QuestionCount

  class Flow {
    var phase: Phase
    var pseudo: string
    var answers: Entries
    var step: int
    var loading: bool
    var error: string
    var profile: FlowProfile

    /** The step always names a question, and the answers have one entry
        per key. */
    ghost predicate Valid()
      reads this
    {
      0 <= step <= N - 1 && DistinctKeys(answers)
    }

    constructor()
      ensures Valid()
      ensures phase == Intro && pseudo == "" && answers == [] && step == 0
      ensures !loading && error == "" && profile == EmptyProfile
    {
      phase := Intro;
      pseudo := "";
      answers := [];
      step := 0;
      loading := false;
      error := "";
      profile := EmptyProfile;
    }

    /** `progress`: the rounded percentage of questions reached, 100 on
        the last one. */
    function Progress(): (r: int)
      reads this
      requires Valid()
      ensures 1 <= r <= 100
      ensures step == N - 1 ==> r == 100
    {
      Round((step + 1) as real / N as real * 100.0)
    }

    /** `startQuiz`: a blank pseudo only sets the error. */
    method StartQuiz()
      requires Valid()
      modifies this
      ensures Valid()
      ensures Trim(old(pseudo)) == "" ==> error == PseudoMissing && phase == old(phase)
      ensures Trim(old(pseudo)) != "" ==> error == "" && phase == Quiz
      ensures pseudo == old(pseudo) && answers == old(answers) && step == old(step)
      ensures loading == old(loading) && profile == old(profile)
    {
      if Trim(pseudo) == "" {
        error := PseudoMissing;
        return;
      }
      error := "";
      phase := Quiz;
    }

    /** `nextQuestion`: forward until the last question, then the profile
        phase with the step unchanged. */
    method NextQuestion()
      requires Valid()
      modifies this
      ensures Valid()
      ensures old(step) < N - 1 ==> step == old(step) + 1 && phase == old(phase)
      ensures old(step) == N - 1 ==> step == old(step) && phase == ProfileStep
      ensures pseudo == old(pseudo) && answers == old(answers) && loading == old(loading)
      ensures error == old(error) && profile == old(profile)
    {
      if step < N - 1 {
        step := step + 1;
      } else {
        phase := ProfileStep;
      }
    }

    /** `prevQuestion`: back one question, never below the first. */
    method PrevQuestion()
      requires Valid()
      modifies this
      ensures Valid()
      ensures step == (if old(step) > 0 then old(step) - 1 else 0)
      ensures phase == old(phase) && pseudo == old(pseudo) && answers == old(answers)
      ensures loading == old(loading) && error == old(error) && profile == old(profile)
    {
      if step > 0 {
        step := step - 1;
      }
    }

    /** `handleAnswer`: records the value under the question id and leaves
        every other answer as it was. */
    method HandleAnswer(questionId: string, value: int)
      requires Valid()
      modifies this
      ensures Valid()
      ensures answers == Put(old(answers), questionId, value)
      ensures Lookup(answers, questionId) == Some(value)
      ensures forall k :: k != questionId ==> Lookup(answers, k) == Lookup(old(answers), k)
      ensures phase == old(phase) && pseudo == old(pseudo) && step == old(step)
      ensures loading == old(loading) && error == old(error) && profile == old(profile)
    {
      PutSpec(answers, questionId, value);
      answers := Put(answers, questionId, value);
    }

    /** `submitQuiz`: the body sent, then the results phase on an OK reply;
        otherwise the error message and the phase unchanged. `String(x)` of
        a non-string `data.error` is `str`, and `nullRead` is the message of
        the `TypeError` thrown by reading a member of `null`. Loading is
        off afterwards in every case. */
    method SubmitQuiz(outcome: SubmitOutcome, str: Json -> string, nullRead: string) returns (body: Json)
      requires Valid()
      modifies this
      ensures Valid()
      ensures body == FlowBody(old(pseudo), old(answers), old(profile))
      ensures !loading
      ensures phase == (if outcome.Replied? && outcome.ok then Results else old(phase))
      ensures outcome.Threw? ==> error == outcome.message
      ensures outcome.Replied? && outcome.ok ==> error == ""
      ensures outcome.Replied? && !outcome.ok ==>
        error == (if outcome.data.JNull? then nullRead
                  else if Truthy(Member(outcome.data, "error"))
                  then (if Member(outcome.data, "error").value.JStr? then Member(outcome.data, "error").value.s
                        else str(Member(outcome.data, "error").value))
                  else SubmitFailed)
      ensures pseudo == old(pseudo) && answers == old(answers) && step == old(step) && profile == old(profile)
    {
      loading := true;
      error := "";
      body := FlowBody(pseudo, answers, profile);
      match outcome {
        case Threw(message) =>
          error := message;
        case Replied(ok, data) =>
          if !ok {
            if data.JNull? {
              error := nullRead;
            } else if Truthy(Member(data, "error")) {
              var e := Member(data, "error").value;
              error := if e.JStr? then e.s else str(e);
            } else {
              error := SubmitFailed;
            }
          } else {
            phase := Results;
          }
      }
      loading := false;
    }

    /** `reset`: every field but `loading` back to its initial value. */
    method Reset()
      modifies this
      ensures Valid()
      ensures phase == Intro && pseudo == "" && answers == [] && step == 0
      ensures error == "" && profile == EmptyProfile
      ensures loading == old(loading)
    {
      phase := Intro;
      pseudo := "";
      answers := [];
      step := 0;
      profile := EmptyProfile;
      error := "";
    }
  }
}
