/**
 * The part of zod's object-schema semantics the input schemas use: each key is
 * checked in schema order, every failing check adds an issue, unknown keys are
 * dropped, and parsing succeeds exactly when there is no issue.
 */
module Validation {
  import opened Wrappers

  /** A JSON-like input value; a key missing from the object is `undefined`. */
  datatype Json =
    | JNull
    | JBool(b: bool)
    | JNumber(n: int)
    | JString(s: string)
    | JArray(items: seq<Json>)
    | JDate(ms: int)  // a Date object, or a string that `new Date` parses to this instant

  type Object = map<string, Json>

  /** A value that may be `undefined`, `null` or given (for update inputs). */
  datatype Nullish<+T> = Undefined | Null | Defined(value: T)

  datatype Code = InvalidType | TooSmall(minimum: nat) | TooBig(maximum: nat) | InvalidUnion | InvalidDate

  /** One zod issue; `message` is the schema's own message when it gives one,
      and None where zod's default wording applies. */
  datatype Issue = Issue(path: string, code: Code, message: Option<string>)

  const NameRequired := "Name is required"

  /** `z.x()`, `z.x().optional()` and `z.x().nullable().optional()`. */
  datatype Presence = Required | Optional | Nullish

  datatype Rule =
    | Str(presence: Presence, min: nat, max: Option<nat>, minMessage: Option<string>)
    | Effort(presence: Presence)                // union of the literals 1, 2, 3, 5, 8, 13
    | Number                                    // z.number()
    | StringArray(presence: Presence)           // z.array(z.string())
    | Date(presence: Presence)                  // z.coerce.date()

  datatype FieldSpec = FieldSpec(key: string, rule: Rule)

  type Schema = seq<FieldSpec>

  /** The largest distance from the epoch, in milliseconds, of a valid JS Date. */
  const MaxTime := 8_640_000_000_000_000

  /** Whether `new Date(v)` is a valid date: a Date or parsable string, a
      number in range, or a boolean (0 or 1 ms). */
  predicate CoercesToDate(v: Json) {
    v.JDate? || (v.JNumber? && -MaxTime <= v.n <= MaxTime) || v.JBool?
  }

  function DateOf(v: Json): int
    requires CoercesToDate(v)
  {
    match v
    case JDate(ms) => ms
    case JNumber(n) => n
    case JBool(b) => if b then 1 else 0
  }

  predicate IsEffortLiteral(n: int) {
    n == 1 || n == 2 || n == 3 || n == 5 || n == 8 || n == 13
  }

  // ---------------------------------------------------------------------------
  // the declarative reading: when is one field acceptable?
  // ---------------------------------------------------------------------------

  /** Missing keys are accepted unless required; null only where nullable. */
  predicate PresenceOk(o: Object, key: string, presence: Presence) {
    && (key !in o ==> presence != Required)
    && (key in o && o[key].JNull? ==> presence == Nullish)
  }

  predicate FieldOk(o: Object, f: FieldSpec) {
    var key := f.key;
    match f.rule
    case Str(presence, min, max, _) =>
      PresenceOk(o, key, presence) &&
      (key in o && !o[key].JNull? ==>
         o[key].JString? && min <= |o[key].s| && (max.Some? ==> |o[key].s| <= max.value))
    case Effort(presence) =>
      PresenceOk(o, key, presence) &&
      (key in o && !o[key].JNull? ==> o[key].JNumber? && IsEffortLiteral(o[key].n))
    case Number =>
      key in o && o[key].JNumber?
    case StringArray(presence) =>
      PresenceOk(o, key, presence) &&
      (key in o && !o[key].JNull? ==>
         o[key].JArray? && forall i :: 0 <= i < |o[key].items| ==> o[key].items[i].JString?)
    case Date(presence) =>
      PresenceOk(o, key, presence) &&
      (key in o && !o[key].JNull? ==> CoercesToDate(o[key]))
  }

  predicate Accepts(schema: Schema, o: Object) {
    forall i :: 0 <= i < |schema| ==> FieldOk(o, schema[i])
  }

  // ---------------------------------------------------------------------------
  // the operational reading: the issues safeParse reports
  // ---------------------------------------------------------------------------

  function PresenceIssues(o: Object, key: string, presence: Presence): seq<Issue>
    requires key !in o || o[key].JNull?
  {
    if key !in o then (if presence == Required then [Issue(key, InvalidType, None)] else [])
    else if presence == Nullish then []
    else [Issue(key, InvalidType, None)]
  }

  function FieldIssues(o: Object, f: FieldSpec): seq<Issue> {
    var key := f.key;
    match f.rule
    case Str(presence, min, max, minMessage) =>
      if key !in o || o[key].JNull? then PresenceIssues(o, key, presence)
      else if !o[key].JString? then [Issue(key, InvalidType, None)]
      else
        (if |o[key].s| < min then [Issue(key, TooSmall(min), minMessage)] else []) +
        (if max.Some? && |o[key].s| > max.value then [Issue(key, TooBig(max.value), None)] else [])
    case Effort(presence) =>
      if key !in o || o[key].JNull? then PresenceIssues(o, key, presence)
      else if o[key].JNumber? && IsEffortLiteral(o[key].n) then []
      else [Issue(key, InvalidUnion, None)]
    case Number =>
      if key in o && o[key].JNumber? then [] else [Issue(key, InvalidType, None)]
    case StringArray(presence) =>
      if key !in o || o[key].JNull? then PresenceIssues(o, key, presence)
      else if o[key].JArray? && AllStrings(o[key].items) then []
      else [Issue(key, InvalidType, None)]
    case Date(presence) =>
      if key !in o || o[key].JNull? then PresenceIssues(o, key, presence)
      else if CoercesToDate(o[key]) then []
      else [Issue(key, InvalidDate, None)]
  }

  function AllStrings(items: seq<Json>): (r: bool)
    ensures r <==> forall i :: 0 <= i < |items| ==> items[i].JString?
  {
    if items == [] then true else items[0].JString? && AllStrings(items[1..])
  }

  /** The issues of every field, in schema order. */
  function Issues(schema: Schema, o: Object): seq<Issue> {
    if schema == [] then [] else FieldIssues(o, schema[0]) + Issues(schema[1..], o)
  }

  lemma FieldIssuesEmpty(o: Object, f: FieldSpec)
    ensures FieldIssues(o, f) == [] <==> FieldOk(o, f)
  {
  }

  /** safeParse succeeds exactly when every field is acceptable. */
  lemma {:induction false} IssuesEmptyIffAccepts(schema: Schema, o: Object)
    ensures Issues(schema, o) == [] <==> Accepts(schema, o)
  {
    if schema != [] {
      FieldIssuesEmpty(o, schema[0]);
      IssuesEmptyIffAccepts(schema[1..], o);
      assert forall i :: 1 <= i < |schema| ==> schema[i] == schema[1..][i - 1];
    }
  }

  /** Fields that pass contribute nothing, so the first issue belongs to the
      first failing field. */
  lemma {:induction false} IssuesSkipAcceptedPrefix(schema: Schema, o: Object, k: nat)
    requires k <= |schema|
    requires forall i :: 0 <= i < k ==> FieldOk(o, schema[i])
    ensures Issues(schema, o) == Issues(schema[k..], o)
  {
    if k > 0 {
      FieldIssuesEmpty(o, schema[0]);
      assert forall i :: 0 <= i < k - 1 ==> schema[1..][i] == schema[i + 1];
      IssuesSkipAcceptedPrefix(schema[1..], o, k - 1);
      assert schema[1..][k - 1..] == schema[k..];
    }
  }

  /** An empty string for a `min(1, NameRequired)` field yields, as the first
      issue of that field, the message "Name is required". */
  lemma EmptyNameMessage(o: Object, f: FieldSpec)
    requires f.rule.Str? && f.rule.min == 1 && f.rule.minMessage == Some(NameRequired)
    requires f.key in o && o[f.key] == JString("")
    ensures FieldIssues(o, f) != []
    ensures FieldIssues(o, f)[0] == Issue(f.key, TooSmall(1), Some(NameRequired))
  {
  }

  // ---------------------------------------------------------------------------
  // reading a field of an object the schema accepted
  // ---------------------------------------------------------------------------

  function StringOf(o: Object, key: string): string
    requires key in o && o[key].JString?
  {
    o[key].s
  }

  /** An optional or nullish string, with `null` and `undefined` both None. */
  function OptString(o: Object, key: string): Option<string> {
    if key in o && o[key].JString? then Some(o[key].s) else None
  }

  function OptNumber(o: Object, key: string): Option<int> {
    if key in o && o[key].JNumber? then Some(o[key].n) else None
  }

  function NullishString(o: Object, key: string): Nullish<string> {
    if key !in o then Undefined
    else if o[key].JString? then Defined(o[key].s)
    else Null
  }

  function NullishNumber(o: Object, key: string): Nullish<int> {
    if key !in o then Undefined
    else if o[key].JNumber? then Defined(o[key].n)
    else Null
  }

  function OptDate(o: Object, key: string): Option<int> {
    if key in o && CoercesToDate(o[key]) then Some(DateOf(o[key])) else None
  }

  function NullishDate(o: Object, key: string): Nullish<int> {
    if key !in o then Undefined
    else if CoercesToDate(o[key]) then Defined(DateOf(o[key]))
    else Null
  }

  function StringsOf(items: seq<Json>): (r: seq<string>)
    requires forall i :: 0 <= i < |items| ==> items[i].JString?
    ensures |r| == |items| && forall i :: 0 <= i < |items| ==> r[i] == items[i].s
  {
    if items == [] then [] else [items[0].s] + StringsOf(items[1..])
  }

  function OptStrings(o: Object, key: string): Option<seq<string>> {
    if key in o && o[key].JArray? && AllStrings(o[key].items) then Some(StringsOf(o[key].items))
    else None
  }
}
