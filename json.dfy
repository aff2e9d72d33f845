/** JSON values as the route handlers and the API client see them after
    `JSON.parse`, with JavaScript's truthiness and the parts of zod's
    object parsing the schemas rely on. */
module Js {
  import opened Common

  /** A parsed JSON value. Object members keep their textual order. */
  datatype Json =
    | JNull
    | JBool(b: bool)
    | JNum(n: real)
    | JStr(s: string)
    | JArr(items: seq<Json>)
    | JObj(fields: seq<(string, Json)>)

  /** Lookup in a member list whose key occurs once. */
  lemma GetUnique(fields: seq<(string, Json)>, key: string, i: nat)
    requires i < |fields| && fields[i].0 == key
    requires forall j :: 0 <= j < |fields| && j != i ==> fields[j].0 != key
    ensures Assoc(fields, key) == Some(fields[i].1)
  {
  }

  /** Lookup in a concatenation: the later members win. */
  lemma {:induction false} GetAppend(a: seq<(string, Json)>, b: seq<(string, Json)>, key: string)
    ensures Assoc(a + b, key) == if Assoc(b, key).Some? then Assoc(b, key) else Assoc(a, key)
    decreases |b|
  {
    if b != [] {
      assert (a + b)[..|a + b| - 1] == a + b[..|b| - 1];
      GetAppend(a, b[..|b| - 1], key);
    } else {
      assert a + b == a;
    }
  }

  /** Lookup in the five members of a submission body (pseudo, answers,
      consent, profile, context, in that order), whatever their values. */
  lemma SubmitFields(pseudo: Json, answers: Json, consent: Json, profile: Json, context: Json)
    ensures var f := [("pseudo", pseudo), ("answers", answers), ("consent", consent), ("profile", profile), ("context", context)];
      && Assoc(f, "pseudo") == Some(pseudo)
      && Assoc(f, "answers") == Some(answers)
      && Assoc(f, "consent") == Some(consent)
      && Assoc(f, "profile") == Some(profile)
      && Assoc(f, "context") == Some(context)
  {
    var f := [("pseudo", pseudo), ("answers", answers), ("consent", consent), ("profile", profile), ("context", context)];
    GetUnique(f, "pseudo", 0);
    GetUnique(f, "answers", 1);
    GetUnique(f, "consent", 2);
    GetUnique(f, "profile", 3);
    GetUnique(f, "context", 4);
  }

  /** `obj.key` on any value: only objects have members. */
  function Member(j: Json, key: string): Option<Json>
  {
    if j.JObj? then Assoc(j.fields, key) else None
  }

  /** JavaScript truthiness of a value that may be `undefined` (`None`). */
  predicate Truthy(v: Option<Json>)
  {
    match v
    case None => false
    case Some(JNull) => false
    case Some(JBool(b)) => b
    case Some(JNum(n)) => n != 0.0
    case Some(JStr(s)) => s != ""
    case Some(_) => true
  }

  /** `x == null`: the value is `null` or `undefined`. */
  predicate Nullish(v: Option<Json>)
  {
    v.None? || v.value.JNull?
  }

  /** `Number.isInteger`, which zod's `.int()` uses. */
  predicate IsInteger(n: real)
  {
    n.Floor as real == n
  }

  /** The length JavaScript reports for a string: UTF-16 code units, so a
      character outside the Basic Multilingual Plane counts twice. zod's
      `.min` and `.max` on strings measure this length. */
  function Utf16Length(s: string): (r: nat)
    ensures |s| <= r <= 2 * |s|
  {
    if s == [] then 0
    else Utf16Length(s[..|s| - 1]) + (if s[|s| - 1] as int > 0xFFFF then 2 else 1)
  }

  /** A string field as `z.string()` reads it. */
  function StrField(j: Json, key: string): Option<string>
  {
    match Member(j, key)
    case Some(JStr(s)) => Some(s)
    case _ => None
  }

  /** An optional string field (`z.string().optional()`): absent is accepted,
      anything but a string (`null` included) is refused. The outer `None`
      means refused. */
  function OptStrField(j: Json, key: string): Option<Option<string>>
  {
    match Member(j, key)
    case None => Some(None)
    case Some(JStr(s)) => Some(Some(s))
    case _ => None
  }
}
