/** `CollectorEventRequestSchema` of packages/data-ops/src/zod-schema/collector.ts:
    a preprocessing step that picks the two fields the collector needs,
    followed by an object schema. */
module CollectorSchema {
  import opened Wrappers
  import opened Text
  import opened JsValues

  /** `Number(x)` for a value that is not a number. JavaScript's conversion
      rules are not part of this model, so the conversion is a parameter. */
  type ToNumber = Json -> Num

  /** `payload[key]` when it is a string. */
  function StringField(v: Json, key: string): Option<string>
    requires v.JObj? || v.JArr?
  {
    match Field(v, key)
    case Some(JStr(s)) => Some(s)
    case _ => None
  }

  /** A string `projectId`, else a string `project_id`, else the empty string. */
  function PickProjectId(v: Json): string
    requires v.JObj? || v.JArr?
  {
    match StringField(v, "projectId")
    case Some(s) => s
    case None => StringField(v, "project_id").GetOr([])
  }

  /** A numeric `timestamp` as it is, anything else through `Number(...)`;
      `Number(undefined)` is NaN. */
  function PickTimestamp(v: Json, toNumber: ToNumber): Num
    requires v.JObj? || v.JArr?
  {
    match Field(v, "timestamp")
    case Some(JNum(n)) => n
    case Some(other) => toNumber(other)
    case None => NonFinite
  }

  /** The preprocessing step: a value that is not an object (null included)
      passes through; an object or array is rebuilt with exactly the two
      fields `projectId` and `timestamp`. */
  function Preprocess(value: Json, toNumber: ToNumber): (r: Json)
    ensures !(value.JObj? || value.JArr?) ==> r == value
    ensures (value.JObj? || value.JArr?) ==>
              r.JObj? && r.fields.Keys == {"projectId", "timestamp"}
              && r.fields["projectId"].JStr? && r.fields["timestamp"].JNum?
  {
    if !(value.JObj? || value.JArr?) then value
    else JObj(map["projectId" := JStr(PickProjectId(value)), "timestamp" := JNum(PickTimestamp(value, toNumber))])
  }

  /** The accepted request: a non-empty trimmed project id and a finite
      number of milliseconds. */
  datatype EventRequest = EventRequest(projectId: string, timestamp: real)

  /** `z.string().trim().min(1)`: a string whose trimmed form is not empty;
      the trimmed form is the output. */
  function ParseProjectId(field: Option<Json>): (r: Result<string, Issue>)
    ensures r.Ok? <==> field.Some? && field.value.JStr? && Trim(field.value.s) != []
    ensures r.Ok? ==> r.value == Trim(field.value.s) && Trimmed(r.value)
    ensures r.Err? ==> r.error == Issue(["projectId"])
  {
    match field
    case Some(JStr(s)) => if Trim(s) != [] then Ok(Trim(s)) else Err(Issue(["projectId"]))
    case _ => Err(Issue(["projectId"]))
  }

  /** `z.number().finite()`: NaN and the infinities are refused. */
  function ParseTimestamp(field: Option<Json>): (r: Result<real, Issue>)
    ensures r.Ok? <==> field.Some? && field.value.JNum? && field.value.n.Finite?
    ensures r.Ok? ==> r.value == field.value.n.value
    ensures r.Err? ==> r.error == Issue(["timestamp"])
  {
    match field
    case Some(JNum(Finite(x))) => Ok(x)
    case _ => Err(Issue(["timestamp"]))
  }

  /** The object schema: a non-object value gets one issue at the root; an
      object gets one issue per bad field, every field being checked. */
  function ValidateObject(v: Json): (r: Result<EventRequest, seq<Issue>>)
    ensures !v.JObj? ==> r == Err([Issue([])])
    ensures r.Ok? ==> r.value.projectId != [] && Trimmed(r.value.projectId)
    ensures v.JObj? ==>
              (r.Ok? <==> ParseProjectId(Field(v, "projectId")).Ok? && ParseTimestamp(Field(v, "timestamp")).Ok?)
    ensures v.JObj? && r.Ok? ==>
              r.value == EventRequest(ParseProjectId(Field(v, "projectId")).value, ParseTimestamp(Field(v, "timestamp")).value)
    ensures v.JObj? && r.Err? ==>
              (HasIssueAt(r.error, "projectId") <==> ParseProjectId(Field(v, "projectId")).Err?)
              && (HasIssueAt(r.error, "timestamp") <==> ParseTimestamp(Field(v, "timestamp")).Err?)
  {
    if !v.JObj? then Err([Issue([])])
    else
      var projectId := ParseProjectId(Field(v, "projectId"));
      var timestamp := ParseTimestamp(Field(v, "timestamp"));
      var issues := IssuesOf(projectId) + IssuesOf(timestamp);
      FieldIssues(projectId, timestamp);
      if projectId.Ok? && timestamp.Ok? then Ok(EventRequest(projectId.value, timestamp.value))
      else Err(issues)
  }

  /** The issues of the two field checks name exactly the fields that
      failed. */
  lemma FieldIssues(projectId: Result<string, Issue>, timestamp: Result<real, Issue>)
    requires projectId.Err? ==> projectId.error == Issue(["projectId"])
    requires timestamp.Err? ==> timestamp.error == Issue(["timestamp"])
    ensures var issues := IssuesOf(projectId) + IssuesOf(timestamp);
            && (HasIssueAt(issues, "projectId") <==> projectId.Err?)
            && (HasIssueAt(issues, "timestamp") <==> timestamp.Err?)
  {
    var issues := IssuesOf(projectId) + IssuesOf(timestamp);
    if projectId.Err? {
      assert issues[0] == Issue(["projectId"]);
    }
    if timestamp.Err? {
      assert issues[|issues| - 1] == Issue(["timestamp"]);
    }
  }

  /** `CollectorEventRequestSchema.safeParse(payload)` */
  function ParseEventRequest(payload: Json, toNumber: ToNumber): Result<EventRequest, seq<Issue>> {
    ValidateObject(Preprocess(payload, toNumber))
  }

  /** What an accepted payload carried: a string `projectId` (or, when that
      is not a string, a string `project_id`) whose trimmed form is the
      accepted id, and a finite timestamp. */
  lemma AcceptedPayload(payload: Json, toNumber: ToNumber)
    requires ParseEventRequest(payload, toNumber).Ok?
    ensures payload.JObj? || payload.JArr?
    ensures var r := ParseEventRequest(payload, toNumber).value;
            && r.projectId != [] && Trimmed(r.projectId)
            && r.projectId == Trim(PickProjectId(payload))
            && (StringField(payload, "projectId").Some? || StringField(payload, "project_id").Some?)
            && PickTimestamp(payload, toNumber) == Finite(r.timestamp)
  {
  }

  /** The converse: an object (or array) whose picked id is not blank and
      whose picked timestamp is a finite number is accepted, with the
      trimmed id and that number. */
  lemma WellFormedPayloadAccepted(payload: Json, toNumber: ToNumber, t: real)
    requires payload.JObj? || payload.JArr?
    requires Trim(PickProjectId(payload)) != []
    requires PickTimestamp(payload, toNumber) == Finite(t)
    ensures ParseEventRequest(payload, toNumber) == Ok(EventRequest(Trim(PickProjectId(payload)), t))
  {
    PreprocessedFields(payload, toNumber);
  }

  /** A string `projectId` wins: `project_id` is then never read. */
  lemma ProjectIdWins(fields: map<string, Json>, toNumber: ToNumber, other: Json)
    requires "projectId" in fields && fields["projectId"].JStr?
    ensures ParseEventRequest(JObj(fields), toNumber) == ParseEventRequest(JObj(fields["project_id" := other]), toNumber)
  {
    var a, b := JObj(fields), JObj(fields["project_id" := other]);
    assert PickProjectId(a) == PickProjectId(b);
    assert PickTimestamp(a, toNumber) == PickTimestamp(b, toNumber);
  }

  /** Without a string `projectId`, a string `project_id` stands in for it. */
  lemma ProjectIdFallback(fields: map<string, Json>, toNumber: ToNumber, id: string)
    requires !("projectId" in fields && fields["projectId"].JStr?)
    requires "project_id" in fields && fields["project_id"] == JStr(id)
    ensures ParseEventRequest(JObj(fields), toNumber) == ParseEventRequest(JObj(fields["projectId" := JStr(id)]), toNumber)
  {
    var a, b := JObj(fields), JObj(fields["projectId" := JStr(id)]);
    assert PickProjectId(a) == PickProjectId(b);
    assert PickTimestamp(a, toNumber) == PickTimestamp(b, toNumber);
  }

  /** With no string id under either name, or only whitespace, the payload
      is refused with an issue at `projectId`. */
  lemma MissingProjectIdRefused(payload: Json, toNumber: ToNumber)
    requires payload.JObj? || payload.JArr?
    requires Trim(PickProjectId(payload)) == []
    ensures ParseEventRequest(payload, toNumber).Err?
    ensures HasIssueAt(ParseEventRequest(payload, toNumber).error, "projectId")
  {
    var v := Preprocess(payload, toNumber);
    PreprocessedFields(payload, toNumber);
    var id := ParseProjectId(Field(v, "projectId"));
    var issues := IssuesOf(id) + IssuesOf(ParseTimestamp(Field(v, "timestamp")));
    assert issues[0] == Issue(["projectId"]);
    assert ParseEventRequest(payload, toNumber) == Err(issues);
  }

  /** The two fields the preprocessing step builds. */
  lemma PreprocessedFields(payload: Json, toNumber: ToNumber)
    requires payload.JObj? || payload.JArr?
    ensures Field(Preprocess(payload, toNumber), "projectId") == Some(JStr(PickProjectId(payload)))
    ensures Field(Preprocess(payload, toNumber), "timestamp") == Some(JNum(PickTimestamp(payload, toNumber)))
  {
  }

  /** A timestamp that is not a finite number is refused with an issue at
      `timestamp`. */
  lemma BadTimestampRefused(payload: Json, toNumber: ToNumber)
    requires payload.JObj? || payload.JArr?
    requires PickTimestamp(payload, toNumber).NonFinite?
    ensures ParseEventRequest(payload, toNumber).Err?
    ensures HasIssueAt(ParseEventRequest(payload, toNumber).error, "timestamp")
  {
    var v := Preprocess(payload, toNumber);
    PreprocessedFields(payload, toNumber);
    var ts := ParseTimestamp(Field(v, "timestamp"));
    var issues := IssuesOf(ParseProjectId(Field(v, "projectId"))) + IssuesOf(ts);
    assert issues[|issues| - 1] == Issue(["timestamp"]);
    assert ParseEventRequest(payload, toNumber) == Err(issues);
  }

  /** Only `projectId`, `project_id` and `timestamp` are read: payloads that
      agree on those three fields are judged alike. */
  lemma OtherFieldsIgnored(a: map<string, Json>, b: map<string, Json>, toNumber: ToNumber)
    requires forall k :: k in {"projectId", "project_id", "timestamp"} ==>
               (k in a <==> k in b) && (k in a ==> a[k] == b[k])
    ensures ParseEventRequest(JObj(a), toNumber) == ParseEventRequest(JObj(b), toNumber)
  {
    assert PickProjectId(JObj(a)) == PickProjectId(JObj(b));
    assert PickTimestamp(JObj(a), toNumber) == PickTimestamp(JObj(b), toNumber);
  }

  /** A payload that is not an object or array (null, a string, a number, a
      boolean) passes the preprocessing untouched and is refused with a
      single issue at the root, about neither field. */
  lemma NonObjectRefused(payload: Json, toNumber: ToNumber)
    requires !(payload.JObj? || payload.JArr?)
    ensures ParseEventRequest(payload, toNumber) == Err([Issue([])])
    ensures !HasIssueAt([Issue([])], "projectId") && !HasIssueAt([Issue([])], "timestamp")
  {
  }
}
