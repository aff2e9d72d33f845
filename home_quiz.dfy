/** The home-page quiz (app/page.tsx): a pseudo is looked up or registered
    in the `employees` table, the questions are answered in an array indexed
    like the catalog, and on the last question the answers are stored with
    the completion flag before the results are shown. Each Supabase call is
    an outcome given as a parameter. */
module HomeQuiz {
  import opened Common
  import opened Questions
  import QuizScreen
  import QuizComponent
  import Schemas

  /** The lookup of `employees` by pseudo (`maybeSingle`) and the insert of
      a new employee (`single`); an employee row is reduced to what the page
      reads from it. */
  datatype AuthDb = AuthDb(lookup: Result<Option<bool>, Schemas.DbError>,
                           insert: Result<Option<string>, Schemas.DbError>)

  /** The employee lookup by pseudo (its id, if a row exists), the insert
      of the responses and the update of the completion flag. */
  datatype SubmitDb = SubmitDb(employee: Result<Option<string>, Schemas.DbError>,
                               responses: Option<Schemas.DbError>, completion: Option<Schemas.DbError>)

  /** A row of `responses`. */
  datatype ResponseRow = ResponseRow(employeeId: string, questionId: string, score: int)

  /** The database calls the page makes, in order. */
  datatype HomeCall =
    | LookupEmployee(pseudo: string)
    | InsertEmployee(pseudo: string)
    | FetchEmployee(pseudo: string)
    | InsertResponses(rows: seq<ResponseRow>)
    | MarkCompleted(pseudo: string)

  const PseudoRequired := "Merci de renseigner votre pseudo avant de continuer."
  const AlreadyCompleted := "Ce questionnaire a déjà été complété pour ce pseudo."
  const AuthFailed := "Une erreur est survenue lors de l'authentification. Merci de réessayer dans quelques instants."
  const PseudoNotFound := "Pseudo introuvable. Merci de vérifier votre saisie."
  const SubmitFailed := "Impossible de soumettre vos réponses. Veuillez réessayer plus tard."

  /** `responsePayload`: one row per question of `cat`, in order, with the
      raw answer at the same position, unanswered zeros included. */
  function ResponsePayload(cat: seq<Question>, employeeId: string, answers: seq<int>): (r: seq<ResponseRow>)
    requires |answers| == |cat|
    ensures |r| == |cat|
    ensures forall i :: 0 <= i < |r| ==>
      r[i].employeeId == employeeId && r[i].questionId == cat[i].id && r[i].score == answers[i]
  {
    seq(|cat|, i requires 0 <= i < |cat| => ResponseRow(employeeId, cat[i].id, answers[i]))
  }

  /** With distinct ids, every question has exactly one row, carrying its
      raw answer; unlike the quiz screen, nothing is filtered out. */
  lemma PayloadOneRowPerQuestion(cat: seq<Question>, employeeId: string, answers: seq<int>, i: nat)
    requires forall a, b :: 0 <= a < b < |cat| ==> cat[a].id != cat[b].id
    requires |answers| == |cat| && i < |cat|
    ensures forall k :: 0 <= k < |cat| && ResponsePayload(cat, employeeId, answers)[k].questionId == cat[i].id ==>
      k == i && ResponsePayload(cat, employeeId, answers)[k].score == answers[i]
    ensures |QuizScreen.FormattedAnswers(cat, answers)| <= |ResponsePayload(cat, employeeId, answers)|
  {
    KeptLength(cat, answers, |cat|);
  }

  lemma {:induction false} KeptLength(cat: seq<Question>, answers: seq<int>, n: nat)
    requires n <= |cat|
    ensures |QuizScreen.Kept(cat, answers, n)| <= n
  {
    if n > 0 {
      KeptLength(cat, answers, n - 1);
    }
  }

  /** The scores over `cat`: each question's answer is read at its
      position in the array, which always has one entry per catalog
      question, so `answers[qIndex]` needs no default; the total is divided
      by the question count, with no guard. */
  function HomeScoresOver(cat: seq<Question>, dims: seq<string>, answers: seq<int>): (r: seq<real>)
    requires ProperScales(cat) && QuizComponent.Covered(cat, dims)
    ensures |r| == |dims|
  {
    seq(|dims|, k requires 0 <= k < |dims| =>
      QuizScreen.DimTotal(cat, cat, answers, dims[k]) / |FilterByDimension(cat, dims[k])| as real)
  }

  /** `calculateScores`, one score per entry of `dimensions`. */
  function CalculateScores(answers: seq<int>): (r: seq<real>)
    ensures |r| == |Dimensions|
  {
    CatalogProperScales();
    QuizComponent.CatalogCovered();
    HomeScoresOver(Catalog, Dimensions, answers)
  }

  /** Every catalog dimension has a question, so dropping the max(count, 1)
      guard changes nothing: the home page and the quiz screen give the
      same scores for the same answers. */
  lemma AgreesWithScreen(answers: seq<int>)
    ensures CalculateScores(answers) == QuizScreen.CalculateScores(answers)
  {
    CatalogProperScales();
    QuizComponent.CatalogCovered();
    assert forall k :: 0 <= k < |Dimensions| ==>
      MaxInt(|FilterByDimension(Catalog, Dimensions[k])|, 1) == |FilterByDimension(Catalog, Dimensions[k])|;
  }

  /** The page state. */
  /** The calls `submitResponses` makes, in order: the employee fetch;
      when the employee is found, the responses insert; when that succeeds,
      the completion update. */
  function SubmitCalls(db: SubmitDb, pseudo: string, answers: seq<int>): (r: seq<HomeCall>)
    requires |answers| == QuizScreen.QuestionCount
    ensures 1 <= |r| <= 3 && r[0] == FetchEmployee(pseudo)
    ensures |r| >= 2 <==> db.employee.Ok? && db.employee.value.Some?
    ensures |r| == 3 <==> db.employee.Ok? && db.employee.value.Some? && db.responses.None?
  {
    QuizScreen.CatalogLength();
    if !(db.employee.Ok? && db.employee.value.Some?) then [FetchEmployee(pseudo)]
    else
      var insert := InsertResponses(ResponsePayload(Catalog, db.employee.value.value, answers));
      if db.responses.Some? then [FetchEmployee(pseudo), insert]
      else [FetchEmployee(pseudo), insert, MarkCompleted(pseudo)]
  }

  /** The error `submitResponses` leaves: the not-found text for an unknown
      pseudo, the generic failure for any failing call, and "" only when
      every call succeeded. */
  function SubmitError(db: SubmitDb): (r: string)
    ensures r == "" <==> db.employee.Ok? && db.employee.value.Some? && db.responses.None? && db.completion.None?
    ensures r == PseudoNotFound <==> db.employee.Ok? && db.employee.value.None?
  {
    if db.employee.Err? then SubmitFailed
    else if db.employee.value.None? then PseudoNotFound
    else if db.responses.Some? || db.completion.Some? then SubmitFailed
    else ""
  }

  class Quiz {
    var step: int
    var answers: seq<int>
    var employeeId: string
    var authenticated: bool
    var showResults: bool
    var loading: bool
    var error: string

    ghost predicate Valid()
      reads this
    {
      0 <= step < QuizScreen.QuestionCount && |answers| == QuizScreen.QuestionCount
    }

    constructor()
      ensures Valid()
      ensures step == 0 && answers == seq(QuizScreen.QuestionCount, _ => 0)
      ensures employeeId == "" && !authenticated && !showResults && !loading && error == ""
    {
      step := 0;
      answers := seq(QuizScreen.QuestionCount, _ => 0);
      employeeId := "";
      authenticated := false;
      showResults := false;
      loading := false;
      error := "";
    }

    /** `handleAuth`: a blank pseudo is refused before any lookup; a known
        pseudo is let in unless its questionnaire is completed; an unknown
        one is registered first. Any failing call gives the generic
        error. */
    method HandleAuth(db: AuthDb) returns (calls: seq<HomeCall>)
      modifies this
      ensures Trim(old(employeeId)) == "" ==>
        calls == [] && error == PseudoRequired && authenticated == old(authenticated)
      ensures Trim(old(employeeId)) != "" ==> !loading && calls != [] && calls[0] == LookupEmployee(Trim(old(employeeId)))
      ensures Trim(old(employeeId)) != "" && db.lookup.Err? ==>
        calls == [LookupEmployee(Trim(old(employeeId)))] && error == AuthFailed && authenticated == old(authenticated)
      ensures Trim(old(employeeId)) != "" && db.lookup.Ok? && db.lookup.value.Some? ==>
        && calls == [LookupEmployee(Trim(old(employeeId)))]
        && (db.lookup.value.value ==> error == AlreadyCompleted && authenticated == old(authenticated))
        && (!db.lookup.value.value ==> error == "" && authenticated)
      ensures Trim(old(employeeId)) != "" && db.lookup.Ok? && db.lookup.value.None? ==>
        && calls == [LookupEmployee(Trim(old(employeeId))), InsertEmployee(Trim(old(employeeId)))]
        && (db.insert.Err? ==> error == AuthFailed && authenticated == old(authenticated))
        && (db.insert.Ok? ==> error == "" && authenticated == (old(authenticated) || db.insert.value.Some?))
      ensures step == old(step) && answers == old(answers) && employeeId == old(employeeId)
      ensures showResults == old(showResults)
      ensures Trim(old(employeeId)) == "" ==> loading == old(loading)
    {
      calls := [];
      var pseudo := Trim(employeeId);
      if pseudo == "" {
        error := PseudoRequired;
        return;
      }
      loading := true;
      error := "";
      calls := calls + [LookupEmployee(pseudo)];
      if db.lookup.Err? {
        error := AuthFailed;
        loading := false;
        return;
      }
      if db.lookup.value.Some? {
        if db.lookup.value.value {
          error := AlreadyCompleted;
          loading := false;
          return;
        }
        authenticated := true;
        loading := false;
        return;
      }
      calls := calls + [InsertEmployee(pseudo)];
      if db.insert.Err? {
        error := AuthFailed;
        loading := false;
        return;
      }
      if db.insert.value.Some? {
        authenticated := true;
      }
      loading := false;
    }

    /** `submitResponses`: the results are shown only once the responses
        are stored and the completion flag is set. */
    method SubmitResponses(db: SubmitDb) returns (calls: seq<HomeCall>)
      requires Valid()
      modifies this
      ensures Valid()
      ensures showResults <==>
        old(showResults) || (db.employee.Ok? && db.employee.value.Some? && db.responses.None? && db.completion.None?)
      ensures !loading
      ensures db.employee.Err? ==> error == SubmitFailed && calls == [FetchEmployee(Trim(old(employeeId)))]
      ensures db.employee.Ok? && db.employee.value.None? ==>
        error == PseudoNotFound && calls == [FetchEmployee(Trim(old(employeeId)))]
      ensures db.employee.Ok? && db.employee.value.Some? ==>
        && |calls| >= 2
        && calls[..2] == [FetchEmployee(Trim(old(employeeId))),
                          InsertResponses(ResponsePayload(Catalog, db.employee.value.value, old(answers)))]
        && (db.responses.Some? ==> calls == calls[..2] && error == SubmitFailed)
        && (db.responses.None? ==> calls == calls[..2] + [MarkCompleted(Trim(old(employeeId)))])
        && (db.responses.None? && db.completion.Some? ==> error == SubmitFailed)
        && (db.responses.None? && db.completion.None? ==> error == "")
      ensures calls == SubmitCalls(db, Trim(old(employeeId)), old(answers)) && error == SubmitError(db)
      ensures step == old(step) && answers == old(answers) && employeeId == old(employeeId)
      ensures authenticated == old(authenticated)
    {
      QuizScreen.CatalogLength();
      loading := true;
      error := "";
      var pseudo := Trim(employeeId);
      calls := [FetchEmployee(pseudo)];
      if db.employee.Err? {
        error := SubmitFailed;
        loading := false;
        return;
      }
      if db.employee.value.None? {
        error := PseudoNotFound;
        loading := false;
        return;
      }
      calls := calls + [InsertResponses(ResponsePayload(Catalog, db.employee.value.value, answers))];
      if db.responses.Some? {
        error := SubmitFailed;
        loading := false;
        return;
      }
      calls := calls + [MarkCompleted(pseudo)];
      if db.completion.Some? {
        error := SubmitFailed;
        loading := false;
        return;
      }
      showResults := true;
      loading := false;
    }

    /** `handleNext`: nothing on an unanswered question; the next question
        otherwise; on the last one, the submission. */
    method HandleNext(db: SubmitDb) returns (calls: seq<HomeCall>)
      requires Valid()
      modifies this
      ensures Valid()
      ensures old(answers[step]) == 0 ==>
        && calls == [] && step == old(step) && showResults == old(showResults)
        && error == old(error) && loading == old(loading)
      ensures old(answers[step]) != 0 && old(step) < QuizScreen.QuestionCount - 1 ==>
        && calls == [] && step == old(step) + 1 && showResults == old(showResults)
        && error == old(error) && loading == old(loading)
      ensures old(answers[step]) != 0 && old(step) == QuizScreen.QuestionCount - 1 ==>
        && step == old(step) && calls != []
        && calls == SubmitCalls(db, Trim(old(employeeId)), old(answers))
        && error == SubmitError(db) && !loading
        && (showResults <==>
              old(showResults) || (db.employee.Ok? && db.employee.value.Some? && db.responses.None? && db.completion.None?))
      ensures answers == old(answers) && employeeId == old(employeeId) && authenticated == old(authenticated)
    {
      calls := [];
      if answers[step] == 0 {
        return;
      }
      if step < QuizScreen.QuestionCount - 1 {
        step := step + 1;
      } else {
        calls := SubmitResponses(db);
      }
    }

    /** Choosing a Likert value replaces the answer of the current question
        only. */
    method SelectValue(v: int)
      requires Valid()
      modifies this
      ensures Valid()
      ensures answers == old(answers)[old(step) := v]
      ensures step == old(step) && employeeId == old(employeeId) && authenticated == old(authenticated)
      ensures showResults == old(showResults) && loading == old(loading) && error == old(error)
    {
      answers := answers[step := v];
    }
  }
}
