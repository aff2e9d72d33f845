/** The legacy submission route (app/submit/route.ts): `computeScores`,
    which scores each answer against the catalog and averages the
    normalised scores per dimension, and the decisions of `POST` around it.
    The three Supabase inserts are outcomes given as parameters. */
module SubmitScoring {
  import opened Common
  import opened Js
  import opened Questions
  import opened Schemas

  /** One entry of `perQuestion`: the answer, its catalog dimension, its
      normalised score and whether it was inverted. */
  datatype Scored = Scored(questionId: string, value: int, dimension: string, normalized: real, inverted: bool)

  /** The two errors `computeScores` throws. */
  datatype ScoreError = UnknownQuestion(id: string) | OutOfRange(id: string)

  function ScoreErrorMessage(e: ScoreError): string
  {
    match e
    case UnknownQuestion(id) => "Unknown questionId: " + id
    case OutOfRange(id) => "Out-of-range value for " + id
  }

  // ---- The question dictionary ----

  /** `dict` after `dict.set(q.id, q)` for every question of `qs`, in order. */
  function IdMap(qs: seq<Question>): map<string, Question>
  {
    if qs == [] then map[] else IdMap(qs[..|qs| - 1])[qs[|qs| - 1].id := qs[|qs| - 1]]
  }

  lemma {:induction false} IdMapSpec(qs: seq<Question>)
    requires forall i, j :: 0 <= i < j < |qs| ==> qs[i].id != qs[j].id
    ensures forall i :: 0 <= i < |qs| ==> qs[i].id in IdMap(qs) && IdMap(qs)[qs[i].id] == qs[i]
    ensures forall id :: id in IdMap(qs) ==> exists i :: 0 <= i < |qs| && qs[i].id == id
  {
    if qs != [] {
      var init := qs[..|qs| - 1];
      assert forall i :: 0 <= i < |init| ==> init[i] == qs[i];
      IdMapSpec(init);
      forall id | id in IdMap(qs) ensures exists i :: 0 <= i < |qs| && qs[i].id == id {
        if id != qs[|qs| - 1].id {
          var i :| 0 <= i < |init| && init[i].id == id;
          assert qs[i] == init[i];
        }
      }
    }
  }

  /** The loop that fills `dict`. */
  method IndexById(qs: seq<Question>) returns (dict: map<string, Question>)
    ensures dict == IdMap(qs)
  {
    dict := map[];
    var i := 0;
    while i < |qs|
      invariant 0 <= i <= |qs|
      invariant dict == IdMap(qs[..i])
    {
      assert qs[..i + 1][..i] == qs[..i];
      dict := dict[qs[i].id := qs[i]];
      i := i + 1;
    }
    assert qs[..i] == qs;
  }

  /** `dict.get(id)` on the catalog dictionary. */
  function Lookup(id: string): Option<Question>
  {
    if id in IdMap(Catalog) then Some(IdMap(Catalog)[id]) else None
  }

  /** The dictionary finds exactly the catalog ids, each to its question. */
  lemma LookupSpec(id: string)
    ensures Lookup(id).Some? <==> exists i :: 0 <= i < |Catalog| && Catalog[i].id == id
    ensures forall i :: 0 <= i < |Catalog| && Catalog[i].id == id ==> Lookup(id) == Some(Catalog[i])
  {
    CatalogIdsDistinct();
    IdMapSpec(Catalog);
  }

  lemma LookupProper(id: string)
    requires Lookup(id).Some?
    ensures Lookup(id).value.scale == LikertScale && Lookup(id).value.scale.min < Lookup(id).value.scale.max
  {
    LookupSpec(id);
    CatalogShape();
  }

  // ---- perQuestion ----

  /** The `map` callback for one answer. */
  function ScoreAnswer(a: Answer): (r: Result<Scored, ScoreError>)
    ensures r.Err? ==> r.error.id == a.questionId
  {
    match Lookup(a.questionId)
    case None => Err(UnknownQuestion(a.questionId))
    case Some(q) =>
      if a.value < q.scale.min || a.value > q.scale.max then Err(OutOfRange(a.questionId))
      else
        LookupProper(a.questionId);
        Ok(Scored(a.questionId, a.value, q.dimension, NormalizeScore(a.value, q.scale.min, q.scale.max, q.inverted),
                  q.inverted))
  }

  /** `input.answers.map(...)`: the first answer that throws ends the map. */
  function PerQuestion(answers: seq<Answer>): Result<seq<Scored>, ScoreError>
  {
    if answers == [] then Ok([])
    else
      match PerQuestion(answers[..|answers| - 1])
      case Err(e) => Err(e)
      case Ok(rows) =>
        match ScoreAnswer(answers[|answers| - 1])
        case Err(e) => Err(e)
        case Ok(row) => Ok(rows + [row])
  }

  /** Scoring succeeds exactly when every answer scores, and then yields
      one entry per answer, in order. */
  lemma {:induction false} PerQuestionOk(answers: seq<Answer>)
    ensures PerQuestion(answers).Ok? <==> forall i :: 0 <= i < |answers| ==> ScoreAnswer(answers[i]).Ok?
    ensures PerQuestion(answers).Ok? ==>
      |PerQuestion(answers).value| == |answers|
      && forall i :: 0 <= i < |answers| ==> PerQuestion(answers).value[i] == ScoreAnswer(answers[i]).value
  {
    if answers != [] {
      var init := answers[..|answers| - 1];
      PerQuestionOk(init);
      assert forall i :: 0 <= i < |init| ==> init[i] == answers[i];
    }
  }

  /** A failure is the error of the first answer that fails. */
  lemma {:induction false} PerQuestionFirstError(answers: seq<Answer>)
    requires PerQuestion(answers).Err?
    ensures exists k ::
      && 0 <= k < |answers|
      && (forall i :: 0 <= i < k ==> ScoreAnswer(answers[i]).Ok?)
      && ScoreAnswer(answers[k]) == Err(PerQuestion(answers).error)
  {
    var init := answers[..|answers| - 1];
    assert forall i :: 0 <= i < |init| ==> init[i] == answers[i];
    if PerQuestion(init).Err? {
      PerQuestionFirstError(init);
      var k :| 0 <= k < |init| && (forall i :: 0 <= i < k ==> ScoreAnswer(init[i]).Ok?)
        && ScoreAnswer(init[k]) == Err(PerQuestion(init).error);
      assert answers[k] == init[k];
    } else {
      PerQuestionOk(init);
      assert ScoreAnswer(answers[|answers| - 1]) == Err(PerQuestion(answers).error);
    }
  }

  /** What one scored entry holds: the answer unchanged, and the dimension,
      normalised score and inversion flag of its catalog question. */
  lemma ScoreAnswerSpec(a: Answer, i: nat)
    requires i < |Catalog| && Catalog[i].id == a.questionId
    ensures ScoreAnswer(a).Ok? <==> 1 <= a.value <= 5
    ensures ScoreAnswer(a).Ok? ==>
      ScoreAnswer(a).value == Scored(a.questionId, a.value, Catalog[i].dimension, NormalizeScore(a.value, 1, 5, Catalog[i].inverted),
             Catalog[i].inverted)
    ensures ScoreAnswer(a).Ok? ==> 0.0 <= ScoreAnswer(a).value.normalized <= 100.0
  {
    LookupSpec(a.questionId);
    CatalogShape();
    if 1 <= a.value <= 5 {
      NormalizeInRange(a.value, 1, 5, Catalog[i].inverted);
    }
  }

  /** An answer whose id the dictionary does not find (by
      `UnknownIdNotFound`, any id outside the catalog) makes the whole
      computation fail, whatever the other answers are. */
  lemma UnknownIdRejected(answers: seq<Answer>, k: nat)
    requires k < |answers|
    ensures Lookup(answers[k].questionId).None? ==> PerQuestion(answers).Err?
  {
    PerQuestionOk(answers);
  }

  /** An id outside the catalog is not in the dictionary. */
  lemma UnknownIdNotFound(id: string)
    requires forall i :: 0 <= i < |Catalog| ==> Catalog[i].id != id
    ensures Lookup(id).None?
  {
    LookupSpec(id);
  }

  // ---- bucket and scores ----

  type Bucket = seq<(string, seq<real>)>

  function FindKey(b: Bucket, d: string): (r: Option<nat>)
    ensures r.Some? ==> r.value < |b| && b[r.value].0 == d
    ensures r.None? ==> forall k :: 0 <= k < |b| ==> b[k].0 != d
  {
    if b == [] then None
    else if b[|b| - 1].0 == d then Some(|b| - 1)
    else FindKey(b[..|b| - 1], d)
  }

  /** `bucket[d] ??= []; bucket[d].push(v)`. */
  function Push(b: Bucket, d: string, v: real): Bucket
  {
    match FindKey(b, d)
    case Some(k) => b[k := (d, b[k].1 + [v])]
    case None => b + [(d, [v])]
  }

  /** `bucket` after the loop over `rows`. */
  function BucketOf(rows: seq<Scored>): Bucket
  {
    if rows == [] then []
    else
      var r := rows[|rows| - 1];
      Push(BucketOf(rows[..|rows| - 1]), r.dimension, r.normalized)
  }

  function Keys(b: Bucket): seq<string>
  {
    seq(|b|, k requires 0 <= k < |b| => b[k].0)
  }

  function DimsOf(rows: seq<Scored>): seq<string>
  {
    seq(|rows|, i requires 0 <= i < |rows| => rows[i].dimension)
  }

  /** The normalised scores of the rows of dimension `d`, in order;
      duplicates are kept. */
  function ValuesOf(rows: seq<Scored>, d: string): seq<real>
  {
    if rows == [] then []
    else
      var r := rows[|rows| - 1];
      ValuesOf(rows[..|rows| - 1], d) + (if r.dimension == d then [r.normalized] else [])
  }

  /** The bucket holds one key per dimension with at least one row, in the
      order of first appearance, and under each key every score of that
      dimension, in order. */
  lemma BucketSpec(rows: seq<Scored>)
    ensures Keys(BucketOf(rows)) == Dedupe(DimsOf(rows))
    ensures forall k :: 0 <= k < |BucketOf(rows)| ==>
      BucketOf(rows)[k].1 == ValuesOf(rows, BucketOf(rows)[k].0) && |BucketOf(rows)[k].1| >= 1
  {
    BucketKeys(rows);
    BucketValues(rows);
  }

  lemma {:induction false} BucketKeys(rows: seq<Scored>)
    ensures Keys(BucketOf(rows)) == Dedupe(DimsOf(rows))
  {
    if rows != [] {
      var init := rows[..|rows| - 1];
      var r := rows[|rows| - 1];
      BucketKeys(init);
      assert DimsOf(rows) == DimsOf(init) + [r.dimension];
      PushKeys(BucketOf(init), r.dimension, r.normalized);
    }
  }

  lemma {:induction false} BucketValues(rows: seq<Scored>)
    ensures forall k :: 0 <= k < |BucketOf(rows)| ==>
      BucketOf(rows)[k].1 == ValuesOf(rows, BucketOf(rows)[k].0) && |BucketOf(rows)[k].1| >= 1
  {
    if rows != [] {
      var init := rows[..|rows| - 1];
      var r := rows[|rows| - 1];
      BucketValues(init);
      BucketKeys(init);
      assert rows == init + [r];
      PushValues(init, r);
    }
  }

  lemma PushKeys(b: Bucket, d: string, v: real)
    ensures Keys(Push(b, d, v)) == if d in Keys(b) then Keys(b) else Keys(b) + [d]
  {
    match FindKey(b, d)
    case Some(k) =>
      assert Keys(b)[k] == d;
    case None =>
  }

  lemma PushValues(init: seq<Scored>, r: Scored)
    requires Keys(BucketOf(init)) == Dedupe(DimsOf(init))
    requires forall k :: 0 <= k < |BucketOf(init)| ==>
      BucketOf(init)[k].1 == ValuesOf(init, BucketOf(init)[k].0) && |BucketOf(init)[k].1| >= 1
    ensures var b := BucketOf(init + [r]);
      forall k :: 0 <= k < |b| ==> b[k].1 == ValuesOf(init + [r], b[k].0) && |b[k].1| >= 1
  {
    var rows := init + [r];
    assert rows[..|rows| - 1] == init;
    var b0 := BucketOf(init);
    var b := BucketOf(rows);
    DedupeSpec(DimsOf(init));
    forall k | 0 <= k < |b| ensures b[k].1 == ValuesOf(rows, b[k].0) && |b[k].1| >= 1 {
      var d := b[k].0;
      match FindKey(b0, r.dimension)
      case Some(j) =>
        if k != j {
          assert Keys(b0)[k] != Keys(b0)[j];
        }
      case None =>
        if k == |b0| {
          ValuesAbsent(init, r.dimension);
        }
    }
  }

  lemma {:induction false} ValuesAbsent(rows: seq<Scored>, d: string)
    requires d !in Dedupe(DimsOf(rows))
    ensures ValuesOf(rows, d) == []
  {
    DedupeSpec(DimsOf(rows));
    assert forall i :: 0 <= i < |rows| ==> DimsOf(rows)[i] == rows[i].dimension;
    NoRowsNoValues(rows, d);
  }

  lemma {:induction false} NoRowsNoValues(rows: seq<Scored>, d: string)
    requires forall i :: 0 <= i < |rows| ==> rows[i].dimension != d
    ensures ValuesOf(rows, d) == []
  {
    if rows != [] {
      var init := rows[..|rows| - 1];
      assert forall i :: 0 <= i < |init| ==> init[i] == rows[i];
      NoRowsNoValues(init, d);
    }
  }

  /** A question answered twice is pushed, and counted, twice. */
  lemma DuplicatesCountTwice(rows: seq<Scored>, r: Scored)
    ensures ValuesOf(rows + [r, r], r.dimension) == ValuesOf(rows, r.dimension) + [r.normalized, r.normalized]
  {
    var once := rows + [r];
    assert (rows + [r, r])[..|rows| + 1] == once;
    assert once[..|rows|] == rows;
  }

  /** `scores`: each bucket's mean, rounded, under its dimension. */
  function ScoresOf(b: Bucket): seq<(string, int)>
    requires forall k :: 0 <= k < |b| ==> |b[k].1| >= 1
  {
    seq(|b|, k requires 0 <= k < |b| => (b[k].0, Round(Sum(b[k].1) / |b[k].1| as real)))
  }

  /** The result of `computeScores`: `perQuestion` and `scores`, or the
      first error thrown. */
  function ComputeScoresSpec(answers: seq<Answer>): Result<(seq<Scored>, seq<(string, int)>), ScoreError>
  {
    match PerQuestion(answers)
    case Err(e) => Err(e)
    case Ok(rows) =>
      BucketSpec(rows);
      Ok((rows, ScoresOf(BucketOf(rows))))
  }

  /** Every score lies in [0, 100], since every value was checked against
      the 1..5 scale. */
  lemma ScoresInRange(answers: seq<Answer>)
    requires ComputeScoresSpec(answers).Ok?
    ensures forall k :: 0 <= k < |ComputeScoresSpec(answers).value.1| ==>
      0 <= ComputeScoresSpec(answers).value.1[k].1 <= 100
  {
    var rows := PerQuestion(answers).value;
    RowsInRange(answers);
    BucketSpec(rows);
    var b := BucketOf(rows);
    forall k | 0 <= k < |b| ensures 0 <= Round(Sum(b[k].1) / |b[k].1| as real) <= 100 {
      ValuesInRange(rows, b[k].0);
      MeanBounds(b[k].1, 0.0, 100.0);
    }
  }

  /** Every scored entry is in [0, 100]. */
  lemma RowsInRange(answers: seq<Answer>)
    requires PerQuestion(answers).Ok?
    ensures forall i :: 0 <= i < |PerQuestion(answers).value| ==>
      0.0 <= PerQuestion(answers).value[i].normalized <= 100.0
  {
    var rows := PerQuestion(answers).value;
    PerQuestionOk(answers);
    forall i | 0 <= i < |rows| ensures 0.0 <= rows[i].normalized <= 100.0 {
      RowInRange(answers[i]);
    }
  }

  lemma RowInRange(a: Answer)
    requires ScoreAnswer(a).Ok?
    ensures 0.0 <= ScoreAnswer(a).value.normalized <= 100.0
  {
    LookupSpec(a.questionId);
    var j :| 0 <= j < |Catalog| && Catalog[j].id == a.questionId;
    ScoreAnswerSpec(a, j);
  }

  lemma {:induction false} ValuesInRange(rows: seq<Scored>, d: string)
    requires forall i :: 0 <= i < |rows| ==> 0.0 <= rows[i].normalized <= 100.0
    ensures forall j :: 0 <= j < |ValuesOf(rows, d)| ==> 0.0 <= ValuesOf(rows, d)[j] <= 100.0
  {
    if rows != [] {
      var init := rows[..|rows| - 1];
      assert forall i :: 0 <= i < |init| ==> init[i] == rows[i];
      ValuesInRange(init, d);
    }
  }

  /** `computeScores`, step by step: the dictionary, the `map` over the
      answers that throws at the first bad one, the bucket loop and the
      scores loop. */
  method ComputeScores(answers: seq<Answer>) returns (r: Result<(seq<Scored>, seq<(string, int)>), ScoreError>)
    ensures r == ComputeScoresSpec(answers)
  {
    var rows := ScoreAll(answers);
    if rows.Err? {
      return Err(rows.error);
    }
    var perQuestion := rows.value;
    var bucket := Buckets(perQuestion);
    BucketSpec(perQuestion);
    var scores := Means(bucket);
    r := Ok((perQuestion, scores));
  }

  /** The `map` over the answers: each one looked up in the dictionary
      built from the catalog, checked against its scale and scored. */
  method ScoreAll(answers: seq<Answer>) returns (r: Result<seq<Scored>, ScoreError>)
    ensures r == PerQuestion(answers)
  {
    var dict := IndexById(Catalog);
    var perQuestion: seq<Scored> := [];
    var i := 0;
    while i < |answers|
      invariant 0 <= i <= |answers|
      invariant PerQuestion(answers[..i]) == Ok(perQuestion)
    {
      assert answers[..i + 1][..i] == answers[..i];
      var row := ScoreOne(dict, answers[i]);
      if row.Err? {
        PerQuestionStops(answers, i + 1);
        return Err(row.error);
      }
      perQuestion := perQuestion + [row.value];
      i := i + 1;
    }
    assert answers[..i] == answers;
    r := Ok(perQuestion);
  }

  /** The `map` callback: look the id up, check the value against the
      question's scale, score it. */
  method ScoreOne(dict: map<string, Question>, a: Answer) returns (r: Result<Scored, ScoreError>)
    requires dict == IdMap(Catalog)
    ensures r == ScoreAnswer(a)
  {
    if a.questionId !in dict {
      return Err(UnknownQuestion(a.questionId));
    }
    var q := dict[a.questionId];
    if a.value < q.scale.min || a.value > q.scale.max {
      return Err(OutOfRange(a.questionId));
    }
    LookupProper(a.questionId);
    var normalized := NormalizeScore(a.value, q.scale.min, q.scale.max, q.inverted);
    r := Ok(Scored(a.questionId, a.value, q.dimension, normalized, q.inverted));
  }

  /** The bucket loop: each row's normalized value pushed under its
      dimension. */
  method Buckets(rows: seq<Scored>) returns (bucket: Bucket)
    ensures bucket == BucketOf(rows)
  {
    bucket := [];
    var j := 0;
    while j < |rows|
      invariant 0 <= j <= |rows|
      invariant bucket == BucketOf(rows[..j])
    {
      var row := rows[j];
      assert rows[..j + 1][..j] == rows[..j];
      var found := FindKey(bucket, row.dimension);
      if found.Some? {
        var k := found.value;
        bucket := bucket[k := (row.dimension, bucket[k].1 + [row.normalized])];
      } else {
        bucket := bucket + [(row.dimension, [row.normalized])];
      }
      j := j + 1;
    }
    assert rows[..j] == rows;
  }

  /** The scores loop: each bucket's rounded mean. */
  method Means(bucket: Bucket) returns (scores: seq<(string, int)>)
    requires forall k :: 0 <= k < |bucket| ==> |bucket[k].1| >= 1
    ensures scores == ScoresOf(bucket)
  {
    scores := [];
    var k := 0;
    while k < |bucket|
      invariant 0 <= k <= |bucket|
      invariant scores == ScoresOf(bucket[..k])
    {
      var arr := bucket[k].1;
      var avg := Round(Sum(arr) / |arr| as real);
      scores := scores + [(bucket[k].0, avg)];
      k := k + 1;
    }
    assert bucket[..k] == bucket;
  }

  /** Once the answer at `n - 1` fails, the whole map fails with its error. */
  lemma PerQuestionStops(answers: seq<Answer>, n: nat)
    requires 0 < n <= |answers|
    requires PerQuestion(answers[..n - 1]).Ok?
    requires ScoreAnswer(answers[n - 1]).Err?
    ensures PerQuestion(answers) == Err(ScoreAnswer(answers[n - 1]).error)
  {
    PerQuestionPrefixErr(answers, n);
  }

  lemma {:induction false} PerQuestionPrefixErr(answers: seq<Answer>, n: nat)
    requires 0 < n <= |answers|
    requires PerQuestion(answers[..n - 1]).Ok?
    requires ScoreAnswer(answers[n - 1]).Err?
    ensures PerQuestion(answers[..n]) == Err(ScoreAnswer(answers[n - 1]).error)
    ensures PerQuestion(answers) == Err(ScoreAnswer(answers[n - 1]).error)
    decreases |answers| - n
  {
    assert answers[..n][..n - 1] == answers[..n - 1];
    if n < |answers| {
      var init := answers[..|answers| - 1];
      assert init[..n] == answers[..n];
      assert init[..n - 1] == answers[..n - 1];
      assert init[n - 1] == answers[n - 1];
      PerQuestionPrefixErr(init, n);
    } else {
      assert answers[..n] == answers;
    }
  }

  // ---- POST ----

  /** The outcomes of the three Supabase inserts, in order. */
  datatype LegacyDb = LegacyDb(submission: Result<string, DbError>, answers: Option<DbError>, scores: Option<DbError>)

  /** One row of `quiz_answers`. */
  datatype AnswerRow = AnswerRow(submissionId: string, questionId: string, dimension: string, rawValue: int,
                                 normalized: real, inverted: bool)

  /** The inserts the handler attempts, in order. */
  datatype LegacyWrite =
    | InsertSubmission(pseudo: string, facility: string, job: string, age: string, seniority: string,
                       freeText: Option<string>)
    | InsertAnswers(rows: seq<AnswerRow>)
    | InsertScores(submissionId: string, scores: seq<(string, int)>)

  datatype LegacyReply =
    | ErrorReply(error: ErrorText)
    | ScoresReply(submissionId: Option<string>, scores: seq<(string, int)>, persisted: bool)

  function AnswerRows(submissionId: string, perQuestion: seq<Scored>): (rows: seq<AnswerRow>)
    ensures |rows| == |perQuestion|
    ensures forall i :: 0 <= i < |rows| ==> rows[i].submissionId == submissionId
  {
    seq(|perQuestion|, i requires 0 <= i < |perQuestion| =>
      var r := perQuestion[i];
      AnswerRow(submissionId, r.questionId, r.dimension, r.value, r.normalized, r.inverted))
  }

  /** The handler. `configured` says whether the Supabase URL and service
      key are set; `db` gives the outcome of each insert. */
  method Post(body: Option<Json>, letter: char -> bool, configured: bool, db: LegacyDb)
    returns (status: int, reply: LegacyReply, writes: seq<LegacyWrite>)
    ensures status == 200 || status == 400
    ensures status == 400 <==> reply.ErrorReply?
    ensures ReadPayload(body, LegacyRules, letter).Err? ==>
      status == 400 && reply == ErrorReply(ReadPayload(body, LegacyRules, letter).error) && writes == []
    ensures ReadPayload(body, LegacyRules, letter).Ok? ==>
      PostOutcome(ReadPayload(body, LegacyRules, letter).value, configured, db, status, reply, writes)
    ensures reply.ScoresReply? && reply.persisted ==>
      configured && db.submission.Ok? && db.answers.None? && db.scores.None?
  {
    var read := ReadPayload(body, LegacyRules, letter);
    if read.Err? {
      return 400, ErrorReply(read.error), [];
    }
    status, reply, writes := Handle(read.value, configured, db);
  }

  /** What the handler does with a valid payload: consent first, then
      scoring, then the configuration check, then the three inserts, each
      failure ending the request with 400. */
  ghost predicate PostOutcome(p: Payload, configured: bool, db: LegacyDb,
                              status: int, reply: LegacyReply, writes: seq<LegacyWrite>)
  {
    if !p.consent then status == 400 && reply == ErrorReply(Text("Consent required")) && writes == []
    else
      match ComputeScoresSpec(p.answers)
      case Err(e) => status == 400 && reply == ErrorReply(Text(ScoreErrorMessage(e))) && writes == []
      case Ok(computed) =>
        if !configured then status == 200 && reply == ScoresReply(None, computed.1, false) && writes == []
        else
          PersistOutcome(p, computed.0, computed.1, db, status, reply, writes)
  }

  /** The three inserts: the submission row, then the answer rows, then the
      scores, stopping at the first one that fails with its message and 400;
      the writes are those attempted, the failing one included. */
  ghost predicate PersistOutcome(p: Payload, perQuestion: seq<Scored>, scores: seq<(string, int)>, db: LegacyDb,
                                 status: int, reply: LegacyReply, writes: seq<LegacyWrite>)
  {
    var sub := SubmissionWrite(p);
    if db.submission.Err? then
      status == 400 && reply == ErrorReply(Text(DbMessage(db.submission.error))) && writes == [sub]
    else
      var id := db.submission.value;
      var answerRows := InsertAnswers(AnswerRows(id, perQuestion));
      if db.answers.Some? then
        status == 400 && reply == ErrorReply(Text(DbMessage(db.answers.value))) && writes == [sub, answerRows]
      else if db.scores.Some? then
        && status == 400
        && reply == ErrorReply(Text(DbMessage(db.scores.value)))
        && writes == [sub, answerRows, InsertScores(id, scores)]
      else
        status == 200 && reply == ScoresReply(Some(id), scores, true) && writes == [sub, answerRows, InsertScores(id, scores)]
  }

  /** The `quiz_submissions` row: the trimmed pseudo and the profile. */
  function SubmissionWrite(p: Payload): LegacyWrite
  {
    InsertSubmission(Trim(p.pseudo), p.profile.facility, p.profile.job, p.profile.age, p.profile.seniority,
                     p.profile.comment)
  }

  method Handle(payload: Payload, configured: bool, db: LegacyDb)
    returns (status: int, reply: LegacyReply, writes: seq<LegacyWrite>)
    ensures status == 200 || status == 400
    ensures status == 400 <==> reply.ErrorReply?
    ensures PostOutcome(payload, configured, db, status, reply, writes)
    ensures reply.ScoresReply? && reply.persisted ==>
      configured && db.submission.Ok? && db.answers.None? && db.scores.None?
  {
    writes := [];
    if !payload.consent {
      return 400, ErrorReply(Text("Consent required")), writes;
    }
    var computed := ComputeScores(payload.answers);
    if computed.Err? {
      return 400, ErrorReply(Text(ScoreErrorMessage(computed.error))), writes;
    }
    var perQuestion := computed.value.0;
    var scores := computed.value.1;
    if !configured {
      return 200, ScoresReply(None, scores, false), writes;
    }
    status, reply, writes := Persist(payload, perQuestion, scores, db);
  }

  /** The three inserts, each failure ending the request with 400. */
  method Persist(payload: Payload, perQuestion: seq<Scored>, scores: seq<(string, int)>, db: LegacyDb)
    returns (status: int, reply: LegacyReply, writes: seq<LegacyWrite>)
    ensures status == 200 || status == 400
    ensures status == 400 <==> reply.ErrorReply?
    ensures |writes| >= 1 && writes[0] == SubmissionWrite(payload)
    ensures reply.ScoresReply? ==> reply.persisted
    ensures status == 200 <==> db.submission.Ok? && db.answers.None? && db.scores.None?
    ensures db.submission.Err? ==>
      reply == ErrorReply(Text(DbMessage(db.submission.error))) && writes == [SubmissionWrite(payload)]
    ensures db.submission.Ok? && db.answers.Some? ==>
      && reply == ErrorReply(Text(DbMessage(db.answers.value)))
      && writes == [SubmissionWrite(payload), InsertAnswers(AnswerRows(db.submission.value, perQuestion))]
    ensures db.submission.Ok? && db.answers.None? && db.scores.Some? ==>
      && reply == ErrorReply(Text(DbMessage(db.scores.value)))
      && writes == [SubmissionWrite(payload), InsertAnswers(AnswerRows(db.submission.value, perQuestion)),
                    InsertScores(db.submission.value, scores)]
    ensures status == 200 ==>
      && reply == ScoresReply(Some(db.submission.value), scores, true)
      && writes == [SubmissionWrite(payload), InsertAnswers(AnswerRows(db.submission.value, perQuestion)),
                    InsertScores(db.submission.value, scores)]
  {
    writes := [SubmissionWrite(payload)];
    if db.submission.Err? {
      return 400, ErrorReply(Text(DbMessage(db.submission.error))), writes;
    }
    var subId := db.submission.value;
    writes := writes + [InsertAnswers(AnswerRows(subId, perQuestion))];
    if db.answers.Some? {
      return 400, ErrorReply(Text(DbMessage(db.answers.value))), writes;
    }
    writes := writes + [InsertScores(subId, scores)];
    if db.scores.Some? {
      return 400, ErrorReply(Text(DbMessage(db.scores.value))), writes;
    }
    return 200, ScoresReply(Some(subId), scores, true), writes;
  }
}
