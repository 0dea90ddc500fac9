/** The input schemas of packages/data-ops/src/zod-schema/projects.ts: each
    takes the value a dashboard call sends and either accepts it, giving
    the normalised input, or lists the issues found. */
module ProjectSchemas {
  import opened Wrappers
  import opened Text
  import opened JsValues

  const MaxNameLength: nat := 120
  const DefaultPage: int := 1
  const DefaultPageSize: int := 25
  const MaxPageSize: int := 100

  /** `z.string().trim().min(1).max(120)`: the trimmed string is checked and
      is what comes out. */
  function ParseName(field: Option<Json>): (r: Result<string, Issue>)
    ensures r.Ok? <==> field.Some? && field.value.JStr? && 1 <= |Trim(field.value.s)| <= MaxNameLength
    ensures r.Ok? ==> r.value == Trim(field.value.s)
    ensures r.Err? ==> r.error == Issue(["name"])
  {
    match field
    case Some(JStr(s)) =>
      var t := Trim(s);
      if 1 <= |t| <= MaxNameLength then Ok(t) else Err(Issue(["name"]))
    case _ => Err(Issue(["name"]))
  }

  /** `z.string().min(1)` under `key`: any non-empty string, kept as it is. */
  function ParseId(field: Option<Json>, key: string): (r: Result<string, Issue>)
    ensures r.Ok? <==> field.Some? && field.value.JStr? && field.value.s != []
    ensures r.Ok? ==> r.value == field.value.s
    ensures r.Err? ==> r.error == Issue([key])
  {
    match field
    case Some(JStr(s)) => if s != [] then Ok(s) else Err(Issue([key]))
    case _ => Err(Issue([key]))
  }

  /** `CreateProjectSchema`: the project name. */
  function CreateProject(v: Json): (r: Result<string, seq<Issue>>)
    ensures !v.JObj? ==> r == Err([Issue([])])
    ensures r.Ok? ==> Trimmed(r.value) && 1 <= |r.value| <= MaxNameLength
    ensures r.Ok? <==> v.JObj? && "name" in v.fields && v.fields["name"].JStr?
                       && 1 <= |Trim(v.fields["name"].s)| <= MaxNameLength
    ensures r.Ok? ==> r.value == Trim(v.fields["name"].s)
    ensures v.JObj? && r.Err? ==> r.error == [Issue(["name"])]
  {
    if !v.JObj? then Err([Issue([])])
    else
      var name := ParseName(Field(v, "name"));
      if name.Ok? then Ok(name.value) else Err([name.error])
  }

  /** `DeleteProjectSchema`: the project id. */
  function DeleteProject(v: Json): (r: Result<string, seq<Issue>>)
    ensures !v.JObj? ==> r == Err([Issue([])])
    ensures r.Ok? <==> v.JObj? && "id" in v.fields && v.fields["id"].JStr? && v.fields["id"].s != []
    ensures r.Ok? ==> r.value == v.fields["id"].s
    ensures v.JObj? && r.Err? ==> r.error == [Issue(["id"])]
  {
    if !v.JObj? then Err([Issue([])])
    else
      var id := ParseId(Field(v, "id"), "id");
      if id.Ok? then Ok(id.value) else Err([id.error])
  }

  datatype RenameInput = RenameInput(id: string, name: string)

  /** `RenameProjectSchema`: both fields are checked, and every bad one is
      reported. */
  function RenameProject(v: Json): (r: Result<RenameInput, seq<Issue>>)
    ensures !v.JObj? ==> r == Err([Issue([])])
    ensures r.Ok? ==> r.value.id != [] && Trimmed(r.value.name) && 1 <= |r.value.name| <= MaxNameLength
    ensures r.Ok? <==> v.JObj? && "id" in v.fields && v.fields["id"].JStr? && v.fields["id"].s != []
                       && "name" in v.fields && v.fields["name"].JStr?
                       && 1 <= |Trim(v.fields["name"].s)| <= MaxNameLength
    ensures r.Ok? ==> r.value == RenameInput(v.fields["id"].s, Trim(v.fields["name"].s))
  {
    if !v.JObj? then Err([Issue([])])
    else
      var id := ParseId(Field(v, "id"), "id");
      var name := ParseName(Field(v, "name"));
      if id.Ok? && name.Ok? then Ok(RenameInput(id.value, name.value))
      else Err(IssuesOf(id) + IssuesOf(name))
  }

  /** `ProjectIdSchema`: the project id. */
  function ProjectId(v: Json): (r: Result<string, seq<Issue>>)
    ensures !v.JObj? ==> r == Err([Issue([])])
    ensures r.Ok? <==> v.JObj? && "projectId" in v.fields && v.fields["projectId"].JStr? && v.fields["projectId"].s != []
    ensures r.Ok? ==> r.value == v.fields["projectId"].s
    ensures v.JObj? && r.Err? ==> r.error == [Issue(["projectId"])]
  {
    if !v.JObj? then Err([Issue([])])
    else
      var id := ParseId(Field(v, "projectId"), "projectId");
      if id.Ok? then Ok(id.value) else Err([id.error])
  }

  /** `EventSortKeySchema`: the event columns a listing may be sorted by. */
  datatype SortKey = Timestamp | IpAddress | Type | Country | Region | City | Zip | Isp | AsName

  function SortKeyName(k: SortKey): string {
    match k
    case Timestamp => "timestamp"
    case IpAddress => "ipAddress"
    case Type => "type"
    case Country => "country"
    case Region => "region"
    case City => "city"
    case Zip => "zip"
    case Isp => "isp"
    case AsName => "asName"
  }

  function ParseSortKeyName(s: string): (r: Option<SortKey>)
    ensures r.Some? ==> SortKeyName(r.value) == s
    ensures r.None? ==> forall k :: SortKeyName(k) != s
  {
    if s == "timestamp" then Some(Timestamp)
    else if s == "ipAddress" then Some(IpAddress)
    else if s == "type" then Some(Type)
    else if s == "country" then Some(Country)
    else if s == "region" then Some(Region)
    else if s == "city" then Some(City)
    else if s == "zip" then Some(Zip)
    else if s == "isp" then Some(Isp)
    else if s == "asName" then Some(AsName)
    else None
  }

  /** Every sort key is accepted under its own name, so the enumeration
      accepts exactly the nine names. */
  lemma SortKeyNamesRoundTrip(k: SortKey)
    ensures ParseSortKeyName(SortKeyName(k)) == Some(k)
  {
  }

  datatype SortDir = Asc | Desc

  /** `z.number().int().min(lo).max(hi).default(d)`: a missing value takes
      the default; a present one must be an integer in range. */
  function ParseBoundedInt(field: Option<Json>, key: string, lo: int, hi: Option<int>, default: int): (r: Result<int, Issue>)
    ensures field.None? ==> r == Ok(default)
    ensures field.Some? ==> (r.Ok? <==> field.value.JNum? && IsInteger(field.value.n)
                                          && lo as real <= field.value.n.value
                                          && (hi.Some? ==> field.value.n.value <= hi.value as real))
    ensures field.Some? && r.Ok? ==> r.value as real == field.value.n.value
  {
    match field
    case None => Ok(default)
    case Some(JNum(n)) =>
      if IsInteger(n) && lo as real <= n.value && (hi.Some? ==> n.value <= hi.value as real)
      then Ok(n.value.Floor) else Err(Issue([key]))
    case Some(_) => Err(Issue([key]))
  }

  /** `z.string().trim().optional()` */
  function ParseSearch(field: Option<Json>): (r: Result<Option<string>, Issue>)
    ensures field.None? ==> r == Ok(None)
    ensures r.Ok? && r.value.Some? ==> field.Some? && field.value.JStr? && r.value.value == Trim(field.value.s)
    ensures field.Some? ==> (r.Ok? <==> field.value.JStr?)
    ensures field.Some? && field.value.JStr? ==> r == Ok(Some(Trim(field.value.s)))
  {
    match field
    case None => Ok(None)
    case Some(JStr(s)) => Ok(Some(Trim(s)))
    case Some(_) => Err(Issue(["search"]))
  }

  /** `EventSortKeySchema.default("timestamp")` */
  function ParseSortBy(field: Option<Json>): (r: Result<SortKey, Issue>)
    ensures field.None? ==> r == Ok(Timestamp)
    ensures field.Some? ==> (r.Ok? <==> exists k :: field.value == JStr(SortKeyName(k)))
    ensures field.Some? && r.Ok? ==> field.value == JStr(SortKeyName(r.value))
  {
    match field
    case None => Ok(Timestamp)
    case Some(JStr(s)) => if ParseSortKeyName(s).Some? then Ok(ParseSortKeyName(s).value) else Err(Issue(["sortBy"]))
    case Some(_) => Err(Issue(["sortBy"]))
  }

  /** `z.enum(["asc", "desc"]).default("desc")` */
  function ParseSortDir(field: Option<Json>): (r: Result<SortDir, Issue>)
    ensures field.None? ==> r == Ok(Desc)
    ensures field.Some? ==> (r == Ok(Asc) <==> field.value == JStr("asc"))
    ensures field.Some? ==> (r == Ok(Desc) <==> field.value == JStr("desc"))
    ensures field.Some? ==> (r.Ok? <==> field.value == JStr("asc") || field.value == JStr("desc"))
  {
    match field
    case None => Ok(Desc)
    case Some(JStr(s)) => if s == "asc" then Ok(Asc) else if s == "desc" then Ok(Desc) else Err(Issue(["sortDir"]))
    case Some(_) => Err(Issue(["sortDir"]))
  }

  datatype EventQuery = EventQuery(
    projectId: string, page: int, pageSize: int,
    search: Option<string>, sortBy: SortKey, sortDir: SortDir)

  /** `ListProjectEventsSchema` */
  function ListProjectEvents(v: Json): (r: Result<EventQuery, seq<Issue>>)
    ensures !v.JObj? ==> r == Err([Issue([])])
    ensures r.Ok? ==> r.value.projectId != [] && r.value.page >= 1 && 1 <= r.value.pageSize <= MaxPageSize
    ensures r.Ok? && r.value.search.Some? ==> Trimmed(r.value.search.value)
    ensures v.JObj? ==>
              (r.Ok? <==> && ParseId(Field(v, "projectId"), "projectId").Ok?
                          && ParseBoundedInt(Field(v, "page"), "page", 1, None, DefaultPage).Ok?
                          && ParseBoundedInt(Field(v, "pageSize"), "pageSize", 1, Some(MaxPageSize), DefaultPageSize).Ok?
                          && ParseSearch(Field(v, "search")).Ok?
                          && ParseSortBy(Field(v, "sortBy")).Ok?
                          && ParseSortDir(Field(v, "sortDir")).Ok?)
    ensures v.JObj? && r.Ok? ==>
              r.value == EventQuery(ParseId(Field(v, "projectId"), "projectId").value,
                                    ParseBoundedInt(Field(v, "page"), "page", 1, None, DefaultPage).value,
                                    ParseBoundedInt(Field(v, "pageSize"), "pageSize", 1, Some(MaxPageSize), DefaultPageSize).value,
                                    ParseSearch(Field(v, "search")).value,
                                    ParseSortBy(Field(v, "sortBy")).value,
                                    ParseSortDir(Field(v, "sortDir")).value)
  {
    if !v.JObj? then Err([Issue([])])
    else
      var projectId := ParseId(Field(v, "projectId"), "projectId");
      var page := ParseBoundedInt(Field(v, "page"), "page", 1, None, DefaultPage);
      var pageSize := ParseBoundedInt(Field(v, "pageSize"), "pageSize", 1, Some(MaxPageSize), DefaultPageSize);
      var search := ParseSearch(Field(v, "search"));
      var sortBy := ParseSortBy(Field(v, "sortBy"));
      var sortDir := ParseSortDir(Field(v, "sortDir"));
      if projectId.Ok? && page.Ok? && pageSize.Ok? && search.Ok? && sortBy.Ok? && sortDir.Ok? then
        Ok(EventQuery(projectId.value, page.value, pageSize.value, search.value, sortBy.value, sortDir.value))
      else
        Err(IssuesOf(projectId) + IssuesOf(page) + IssuesOf(pageSize) + IssuesOf(search) + IssuesOf(sortBy) + IssuesOf(sortDir))
  }

  /** A listing request naming only the project gets page 1 of 25 events,
      newest first by timestamp, with no search. */
  lemma ListDefaults(projectId: string)
    requires projectId != []
    ensures ListProjectEvents(JObj(map["projectId" := JStr(projectId)]))
            == Ok(EventQuery(projectId, 1, 25, None, Timestamp, Desc))
  {
    var v := JObj(map["projectId" := JStr(projectId)]);
    assert Field(v, "page").None? && Field(v, "pageSize").None? && Field(v, "search").None?;
    assert Field(v, "sortBy").None? && Field(v, "sortDir").None?;
  }

  /** Creating and renaming accept the same names and keep the same trimmed
      form: a name of 1 to 120 characters once trimmed. */
  lemma NameRules(name: string, id: string)
    requires id != []
    ensures CreateProject(JObj(map["name" := JStr(name)])).Ok? <==> 1 <= |Trim(name)| <= MaxNameLength
    ensures CreateProject(JObj(map["name" := JStr(name)])).Ok? ==>
              CreateProject(JObj(map["name" := JStr(name)])).value == Trim(name)
    ensures RenameProject(JObj(map["id" := JStr(id), "name" := JStr(name)]))
            == if 1 <= |Trim(name)| <= MaxNameLength then Ok(RenameInput(id, Trim(name))) else Err([Issue(["name"])])
  {
    var c := JObj(map["name" := JStr(name)]);
    var r := JObj(map["id" := JStr(id), "name" := JStr(name)]);
    assert Field(c, "name") == Some(JStr(name));
    assert Field(r, "name") == Some(JStr(name)) && Field(r, "id") == Some(JStr(id));
    assert ParseId(Field(r, "id"), "id") == Ok(id);
    var n := ParseName(Field(r, "name"));
    if 1 <= |Trim(name)| <= MaxNameLength {
      assert n == Ok(Trim(name));
    } else {
      assert n == Err(Issue(["name"]));
      assert IssuesOf(ParseId(Field(r, "id"), "id")) + IssuesOf(n) == [Issue(["name"])];
    }
  }
}
