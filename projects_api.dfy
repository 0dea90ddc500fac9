/** The project server functions of apps/web/src/core/functions/projects.ts.
    Each handler is described twice: as a function from the tables before
    the call to its answer and the tables after it, and as a method that
    performs it on a `Database`. The signed-in user's id, which the auth
    middleware supplies, is a parameter, and so are the fresh UUIDs and
    the current time. */
module ProjectsApi {
  import opened Wrappers
  import opened Text
  import opened JsValues
  import ProjectSchemas
  import opened DomainMatch
  import opened DomainValues
  import opened Tables

  /** Why a handler refused: the input validator threw, or
      `assertProjectOwner` found nothing ("Project not found"). */
  datatype Failure = Invalid(issues: seq<Issue>) | ProjectNotFound

  const ProjectNotFoundMessage: string := "Project not found"

  /** A handler's answer together with the tables it leaves behind. */
  datatype Reply<T> = Reply(result: Result<T, Failure>, store: Store)

  /** `assertProjectOwner`: looks for a project with this id owned by this
      user. */
  method AssertProjectOwner(db: Database, projectId: string, userId: string) returns (found: bool)
    ensures found <==> OwnsProject(db.State(), projectId, userId)
  {
    var i := 0;
    while i < |db.projects|
      invariant 0 <= i <= |db.projects|
      invariant forall j :: 0 <= j < i ==> !(db.projects[j].id == projectId && db.projects[j].userId == userId)
    {
      if db.projects[i].id == projectId && db.projects[i].userId == userId {
        return true;
      }
      i := i + 1;
    }
    return false;
  }

  /** `name.trim()` on a name the validator has already trimmed: the name
      comes back unchanged. */
  method TrimName(name: string) returns (t: string)
    ensures Trimmed(t)
    ensures Trimmed(name) ==> t == name
  {
    t := Trim(name);
    if Trimmed(name) {
      TrimOfTrimmed(name);
    }
  }

  // ------------------------------------------------------------ createProject

  function CreateProjectOutcome(s: Store, userId: string, data: Json, id: string, now: int): Reply<Project> {
    match ProjectSchemas.CreateProject(data)
    case Err(issues) => Reply(Err(Invalid(issues)), s)
    case Ok(name) =>
      var p := Project(id, userId, name, now);
      Reply(Ok(p), InsertProject(s, p))
  }

  /** A valid name creates one project, owned by the caller, under the
      fresh id, with the name trimmed and 1 to 120 characters long; an
      invalid one changes nothing. */
  lemma CreateProjectFacts(s: Store, userId: string, data: Json, id: string, now: int)
    ensures var o := CreateProjectOutcome(s, userId, data, id, now);
            && (o.result.Ok? <==> ProjectSchemas.CreateProject(data).Ok?)
            && (o.result.Err? ==> o.store == s)
            && (o.result.Ok? ==>
                  && o.result.value == Project(id, userId, ProjectSchemas.CreateProject(data).value, now)
                  && Trimmed(o.result.value.name)
                  && 1 <= |o.result.value.name| <= ProjectSchemas.MaxNameLength
                  && o.store == InsertProject(s, o.result.value))
  {
    var parsed := ProjectSchemas.CreateProject(data);
    if parsed.Ok? {
      CreatedProject(s, userId, data, id, now, parsed.value);
    } else {
      assert CreateProjectOutcome(s, userId, data, id, now) == Reply(Err(Invalid(parsed.error)), s);
    }
  }

  lemma CreatedProject(s: Store, userId: string, data: Json, id: string, now: int, name: string)
    requires ProjectSchemas.CreateProject(data) == Ok(name)
    ensures Trimmed(name) && 1 <= |name| <= ProjectSchemas.MaxNameLength
    ensures CreateProjectOutcome(s, userId, data, id, now)
            == Reply(Ok(Project(id, userId, name, now)), InsertProject(s, Project(id, userId, name, now)))
  {
  }

  /** Creating keeps the tables consistent, and the new project belongs to
      the caller. */
  lemma CreateProjectValid(s: Store, userId: string, data: Json, id: string, now: int)
    requires Valid(s) && !HasProject(s, id)
    ensures var o := CreateProjectOutcome(s, userId, data, id, now);
            && Valid(o.store)
            && (o.result.Ok? ==> OwnsProject(o.store, id, userId))
  {
    var parsed := ProjectSchemas.CreateProject(data);
    if parsed.Ok? {
      TrimOfTrimmed(parsed.value);
      InsertProjectValid(s, Project(id, userId, parsed.value, now));
    }
  }

  method CreateProject(db: Database, userId: string, data: Json, id: string, now: int) returns (r: Result<Project, Failure>)
    modifies db
    ensures Reply(r, db.State()) == CreateProjectOutcome(old(db.State()), userId, data, id, now)
  {
    var input := ProjectSchemas.CreateProject(data);
    if input.Err? {
      return Err(Invalid(input.error));
    }
    CreatedProject(db.State(), userId, data, id, now, input.value);
    var name := TrimName(input.value);
    var project := Project(id, userId, name, now);
    db.projects := db.projects + [project];
    return Ok(project);
  }

  // ------------------------------------------------------------ deleteProject

  function DeleteProjectOutcome(s: Store, userId: string, data: Json): Reply<()> {
    match ProjectSchemas.DeleteProject(data)
    case Err(issues) => Reply(Err(Invalid(issues)), s)
    case Ok(id) => Reply(Ok(()), if OwnsProject(s, id, userId) then DeleteProjectCascade(s, id) else s)
  }

  /** Deleting answers success whether or not the caller owns the project;
      only the owner's call removes anything, and then it removes the
      project with every domain and event that refers to it, and nothing
      else. */
  lemma DeleteProjectFacts(s: Store, userId: string, data: Json)
    requires Valid(s)
    ensures var o := DeleteProjectOutcome(s, userId, data);
            && Valid(o.store)
            && (o.result.Ok? <==> ProjectSchemas.DeleteProject(data).Ok?)
            && (o.result.Ok? ==>
                  var id := ProjectSchemas.DeleteProject(data).value;
                  && (!OwnsProject(s, id, userId) ==> o.store == s)
                  && (OwnsProject(s, id, userId) ==>
                        && !HasProject(o.store, id)
                        && (forall e :: e in o.store.events <==> e in s.events && e.projectId != id)
                        && (forall d :: d in o.store.domains <==> d in s.domains && d.projectId != id)
                        && (forall p :: p in o.store.projects <==> p in s.projects && p.id != id)))
            && (o.result.Err? ==> o.store == s)
  {
    var parsed := ProjectSchemas.DeleteProject(data);
    if parsed.Ok? && OwnsProject(s, parsed.value, userId) {
      DeleteProjectCascadeValid(s, parsed.value);
    }
  }

  /** Repeating a delete changes nothing more. */
  lemma DeleteProjectIdempotent(s: Store, userId: string, data: Json)
    ensures var once := DeleteProjectOutcome(s, userId, data).store;
            DeleteProjectOutcome(once, userId, data).store == once
  {
    var parsed := ProjectSchemas.DeleteProject(data);
    if parsed.Ok? {
      var id := parsed.value;
      var once := DeleteProjectOutcome(s, userId, data).store;
      assert !OwnsProject(once, id, userId) by {
        forall i | 0 <= i < |once.projects| ensures once.projects[i].id != id || !OwnsProject(s, id, userId) {
          assert once.projects[i] in once.projects;
        }
      }
    }
  }

  method DeleteProject(db: Database, userId: string, data: Json) returns (r: Result<(), Failure>)
    modifies db
    ensures Reply(r, db.State()) == DeleteProjectOutcome(old(db.State()), userId, data)
  {
    var input := ProjectSchemas.DeleteProject(data);
    if input.Err? {
      return Err(Invalid(input.error));
    }
    var owned := AssertProjectOwner(db, input.value, userId);
    if !owned {
      return Ok(());
    }
    var after := DeleteProjectCascade(db.State(), input.value);
    db.events := after.events;
    db.domains := after.domains;
    db.projects := after.projects;
    return Ok(());
  }

  // ------------------------------------------------------------ renameProject

  function RenameProjectOutcome(s: Store, userId: string, data: Json): Reply<()> {
    match ProjectSchemas.RenameProject(data)
    case Err(issues) => Reply(Err(Invalid(issues)), s)
    case Ok(input) => Reply(Ok(()), Tables.RenameProject(s, input.id, userId, input.name))
  }

  /** Renaming answers success for any valid input; the caller's own
      project gets the trimmed name and no other row changes. */
  lemma RenameProjectFacts(s: Store, userId: string, data: Json)
    requires Valid(s)
    ensures var o := RenameProjectOutcome(s, userId, data);
            && Valid(o.store)
            && (o.result.Ok? <==> ProjectSchemas.RenameProject(data).Ok?)
            && (o.result.Err? ==> o.store == s)
            && (o.result.Ok? ==>
                  var input := ProjectSchemas.RenameProject(data).value;
                  && o.store.domains == s.domains && o.store.events == s.events
                  && |o.store.projects| == |s.projects|
                  && (forall i :: 0 <= i < |s.projects| ==>
                        o.store.projects[i] == if s.projects[i].id == input.id && s.projects[i].userId == userId
                                               then s.projects[i].(name := input.name) else s.projects[i])
                  && (!OwnsProject(s, input.id, userId) ==> o.store == s))
  {
    var parsed := ProjectSchemas.RenameProject(data);
    if parsed.Ok? {
      RenamedProject(s, userId, data, parsed.value);
      Tables.RenameProjectValid(s, parsed.value.id, userId, parsed.value.name);
    } else {
      assert RenameProjectOutcome(s, userId, data) == Reply(Err(Invalid(parsed.error)), s);
    }
  }

  lemma RenamedProject(s: Store, userId: string, data: Json, input: ProjectSchemas.RenameInput)
    requires ProjectSchemas.RenameProject(data) == Ok(input)
    ensures RenameProjectOutcome(s, userId, data) == Reply(Ok(()), Tables.RenameProject(s, input.id, userId, input.name))
  {
  }

  method RenameProject(db: Database, userId: string, data: Json) returns (r: Result<(), Failure>)
    modifies db
    ensures Reply(r, db.State()) == RenameProjectOutcome(old(db.State()), userId, data)
  {
    var input := ProjectSchemas.RenameProject(data);
    if input.Err? {
      return Err(Invalid(input.error));
    }
    RenamedProject(db.State(), userId, data, input.value);
    var trimmedName := TrimName(input.value.name);
    var ps := db.projects;
    var renamed: seq<Project> := [];
    var i := 0;
    while i < |ps|
      invariant 0 <= i <= |ps|
      invariant renamed == RenameOwned(ps, input.value.id, userId, trimmedName)[..i]
    {
      var p := ps[i];
      if p.id == input.value.id && p.userId == userId {
        p := p.(name := trimmedName);
      }
      renamed := renamed + [p];
      i := i + 1;
    }
    db.projects := renamed;
    return Ok(());
  }

  // ------------------------------------------------------------ domains

  /** `z.string()` followed by `DomainValueSchema`, under `value`. */
  function ParseValue(field: Option<Json>): (r: Result<string, Issue>)
    ensures r.Ok? <==> field.Some? && field.value.JStr? && ParseDomainValue(field.value.s).Ok?
    ensures r.Ok? ==> r.value == Trim(field.value.s)
  {
    match field
    case Some(JStr(s)) => ParseDomainValue(s)
    case _ => Err(Issue(["value"]))
  }

  datatype DomainInput = DomainInput(projectId: string, id: string, value: string)

  /** `AddProjectDomainSchema`: the project id and the value. */
  function ParseAddDomain(v: Json): (r: Result<DomainInput, seq<Issue>>)
    ensures !v.JObj? ==> r == Err([Issue([])])
    ensures r.Ok? <==> v.JObj? && "projectId" in v.fields && v.fields["projectId"].JStr? && v.fields["projectId"].s != []
                       && "value" in v.fields && v.fields["value"].JStr? && ParseDomainValue(v.fields["value"].s).Ok?
    ensures r.Ok? ==> r.value == DomainInput(v.fields["projectId"].s, "", Trim(v.fields["value"].s))
  {
    if !v.JObj? then Err([Issue([])])
    else
      var projectId := ProjectSchemas.ParseId(Field(v, "projectId"), "projectId");
      var value := ParseValue(Field(v, "value"));
      if projectId.Ok? && value.Ok? then Ok(DomainInput(projectId.value, "", value.value))
      else Err(IssuesOf(projectId) + IssuesOf(value))
  }

  /** `UpdateProjectDomainSchema`: the project id, the row id and the
      value. */
  function ParseUpdateDomain(v: Json): (r: Result<DomainInput, seq<Issue>>)
    ensures !v.JObj? ==> r == Err([Issue([])])
    ensures r.Ok? <==> v.JObj? && "projectId" in v.fields && v.fields["projectId"].JStr? && v.fields["projectId"].s != []
                       && "id" in v.fields && v.fields["id"].JStr? && v.fields["id"].s != []
                       && "value" in v.fields && v.fields["value"].JStr? && ParseDomainValue(v.fields["value"].s).Ok?
    ensures r.Ok? ==> r.value == DomainInput(v.fields["projectId"].s, v.fields["id"].s, Trim(v.fields["value"].s))
  {
    if !v.JObj? then Err([Issue([])])
    else
      var projectId := ProjectSchemas.ParseId(Field(v, "projectId"), "projectId");
      var id := ProjectSchemas.ParseId(Field(v, "id"), "id");
      var value := ParseValue(Field(v, "value"));
      if projectId.Ok? && id.Ok? && value.Ok? then Ok(DomainInput(projectId.value, id.value, value.value))
      else Err(IssuesOf(projectId) + IssuesOf(id) + IssuesOf(value))
  }

  /** `DeleteProjectDomainSchema`: the project id and the row id. */
  function ParseDeleteDomain(v: Json): (r: Result<DomainInput, seq<Issue>>)
    ensures !v.JObj? ==> r == Err([Issue([])])
    ensures r.Ok? <==> v.JObj? && "projectId" in v.fields && v.fields["projectId"].JStr? && v.fields["projectId"].s != []
                       && "id" in v.fields && v.fields["id"].JStr? && v.fields["id"].s != []
    ensures r.Ok? ==> r.value == DomainInput(v.fields["projectId"].s, v.fields["id"].s, "")
  {
    if !v.JObj? then Err([Issue([])])
    else
      var projectId := ProjectSchemas.ParseId(Field(v, "projectId"), "projectId");
      var id := ProjectSchemas.ParseId(Field(v, "id"), "id");
      if projectId.Ok? && id.Ok? then Ok(DomainInput(projectId.value, id.value, ""))
      else Err(IssuesOf(projectId) + IssuesOf(id))
  }

  /** What the domain handlers answer: the row id and its displayed value. */
  datatype DomainView = DomainView(id: string, value: string)

  function AddProjectDomainOutcome(s: Store, userId: string, data: Json, id: string): Reply<DomainView> {
    match ParseAddDomain(data)
    case Err(issues) => Reply(Err(Invalid(issues)), s)
    case Ok(input) =>
      if !OwnsProject(s, input.projectId, userId) then Reply(Err(ProjectNotFound), s)
      else
        var d := ToStored(input.value);
        Reply(Ok(DomainView(id, Display(d))), InsertDomain(s, ProjectDomain(id, input.projectId, d.hostname, d.wildcard)))
  }

  /** Adding a domain to one's own project stores one row whose host name
      is clean (non-empty, trimmed, lower-case, without `*.`), answers with
      the lower-cased trimmed value, and keeps the tables consistent; for
      anyone else's project it fails with "Project not found" and changes
      nothing. It succeeds exactly for an accepted input on one's own
      project, and a refused input is answered with its issues. */
  lemma AddProjectDomainFacts(s: Store, userId: string, data: Json, id: string)
    requires Valid(s) && !UsedDomainId(s, id)
    ensures var o := AddProjectDomainOutcome(s, userId, data, id);
            && Valid(o.store)
            && (o.result.Err? ==> o.store == s)
            && (ParseAddDomain(data).Err? ==> o.result == Err(Invalid(ParseAddDomain(data).error)))
            && (o.result.Ok? <==> ParseAddDomain(data).Ok? && OwnsProject(s, ParseAddDomain(data).value.projectId, userId))
            && (ParseAddDomain(data).Ok? && !OwnsProject(s, ParseAddDomain(data).value.projectId, userId) ==>
                    o.result == Err(ProjectNotFound))
            && (o.result.Ok? ==>
                  var input := ParseAddDomain(data).value;
                  && OwnsProject(s, input.projectId, userId)
                  && o.result.value == DomainView(id, Lower(input.value))
                  && |o.store.domains| == |s.domains| + 1
                  && o.store.domains[..|s.domains|] == s.domains
                  && o.store.projects == s.projects && o.store.events == s.events
                  && var row := o.store.domains[|s.domains|];
                     && row.id == id && row.projectId == input.projectId
                     && Display(StoredDomain(row.hostname, row.wildcard)) == Lower(input.value)
                     && row.hostname != [] && Trimmed(row.hostname) && NoUpper(row.hostname)
                     && !StartsWith(row.hostname, WildcardPrefix))
  {
    var parsed := ParseAddDomain(data);
    if parsed.Ok? && OwnsProject(s, parsed.value.projectId, userId) {
      var input := parsed.value;
      assert data.JObj?;
      var raw := Field(data, "value").value.s;
      assert ParseDomainValue(raw).Ok? && input.value == Trim(raw);
      StoredHostnameIsClean(raw);
      DisplayOfStored(input.value);
      var i :| 0 <= i < |s.projects| && s.projects[i].id == input.projectId && s.projects[i].userId == userId;
      var d := ToStored(input.value);
      InsertDomainValid(s, ProjectDomain(id, input.projectId, d.hostname, d.wildcard));
    }
  }

  method AddProjectDomain(db: Database, userId: string, data: Json, id: string) returns (r: Result<DomainView, Failure>)
    modifies db
    ensures Reply(r, db.State()) == AddProjectDomainOutcome(old(db.State()), userId, data, id)
  {
    var input := ParseAddDomain(data);
    if input.Err? {
      return Err(Invalid(input.error));
    }
    var owned := AssertProjectOwner(db, input.value.projectId, userId);
    if !owned {
      return Err(ProjectNotFound);
    }
    var value := Lower(input.value.value);
    var wildcard := StartsWith(value, WildcardPrefix);
    var hostname := if wildcard then value[|WildcardPrefix|..] else value;
    db.domains := db.domains + [ProjectDomain(id, input.value.projectId, hostname, wildcard)];
    return Ok(DomainView(id, if wildcard then WildcardPrefix + hostname else hostname));
  }

  function UpdateProjectDomainOutcome(s: Store, userId: string, data: Json): Reply<DomainView> {
    match ParseUpdateDomain(data)
    case Err(issues) => Reply(Err(Invalid(issues)), s)
    case Ok(input) =>
      if !OwnsProject(s, input.projectId, userId) then Reply(Err(ProjectNotFound), s)
      else
        var d := ToStored(input.value);
        Reply(Ok(DomainView(input.id, Display(d))), UpdateDomain(s, input.id, input.projectId, d.hostname, d.wildcard))
  }

  /** An update rewrites only the row with this id in this project, so a
      row of another project is out of reach even by its id; it answers
      with the requested id and the lower-cased value even when no row
      matched. It succeeds exactly for an accepted input on one's own
      project, and a refused input is answered with its issues. */
  lemma UpdateProjectDomainFacts(s: Store, userId: string, data: Json)
    requires Valid(s)
    ensures var o := UpdateProjectDomainOutcome(s, userId, data);
            && Valid(o.store)
            && o.store.projects == s.projects && o.store.events == s.events
            && |o.store.domains| == |s.domains|
            && (o.result.Err? ==> o.store == s)
            && (ParseUpdateDomain(data).Err? ==> o.result == Err(Invalid(ParseUpdateDomain(data).error)))
            && (o.result.Ok? <==> ParseUpdateDomain(data).Ok? && OwnsProject(s, ParseUpdateDomain(data).value.projectId, userId))
            && (ParseUpdateDomain(data).Ok? && !OwnsProject(s, ParseUpdateDomain(data).value.projectId, userId) ==>
                    o.result == Err(ProjectNotFound))
            && (o.result.Ok? ==>
                  var input := ParseUpdateDomain(data).value;
                  && o.result.value == DomainView(input.id, Lower(input.value))
                  && (forall i :: 0 <= i < |s.domains| && !(s.domains[i].id == input.id && s.domains[i].projectId == input.projectId)
                        ==> o.store.domains[i] == s.domains[i])
                  && (forall i :: 0 <= i < |s.domains| && s.domains[i].id == input.id && s.domains[i].projectId == input.projectId
                        ==> Display(StoredDomain(o.store.domains[i].hostname, o.store.domains[i].wildcard)) == Lower(input.value)))
  {
    var parsed := ParseUpdateDomain(data);
    if parsed.Ok? && OwnsProject(s, parsed.value.projectId, userId) {
      var input := parsed.value;
      var d := ToStored(input.value);
      DisplayOfStored(input.value);
      UpdateDomainValid(s, input.id, input.projectId, d.hostname, d.wildcard);
    }
  }

  method UpdateProjectDomain(db: Database, userId: string, data: Json) returns (r: Result<DomainView, Failure>)
    modifies db
    ensures Reply(r, db.State()) == UpdateProjectDomainOutcome(old(db.State()), userId, data)
  {
    var input := ParseUpdateDomain(data);
    if input.Err? {
      return Err(Invalid(input.error));
    }
    var owned := AssertProjectOwner(db, input.value.projectId, userId);
    if !owned {
      return Err(ProjectNotFound);
    }
    var value := Lower(input.value.value);
    var wildcard := StartsWith(value, WildcardPrefix);
    var hostname := if wildcard then value[|WildcardPrefix|..] else value;
    db.domains := UpdateDomainRows(db.domains, input.value.id, input.value.projectId, hostname, wildcard);
    return Ok(DomainView(input.value.id, if wildcard then WildcardPrefix + hostname else hostname));
  }

  function DeleteProjectDomainOutcome(s: Store, userId: string, data: Json): Reply<()> {
    match ParseDeleteDomain(data)
    case Err(issues) => Reply(Err(Invalid(issues)), s)
    case Ok(input) =>
      if !OwnsProject(s, input.projectId, userId) then Reply(Err(ProjectNotFound), s)
      else Reply(Ok(()), DeleteDomain(s, input.id, input.projectId))
  }

  /** Deleting removes only the row with this id in the caller's project,
      and fails with "Project not found" for a project the caller does not
      own. It succeeds exactly for an accepted input on one's own project,
      and a refused input is answered with its issues. */
  lemma DeleteProjectDomainFacts(s: Store, userId: string, data: Json)
    requires Valid(s)
    ensures var o := DeleteProjectDomainOutcome(s, userId, data);
            && Valid(o.store)
            && o.store.projects == s.projects && o.store.events == s.events
            && (o.result.Err? ==> o.store == s)
            && (ParseDeleteDomain(data).Err? ==> o.result == Err(Invalid(ParseDeleteDomain(data).error)))
            && (o.result.Ok? <==> ParseDeleteDomain(data).Ok? && OwnsProject(s, ParseDeleteDomain(data).value.projectId, userId))
            && (ParseDeleteDomain(data).Ok? && !OwnsProject(s, ParseDeleteDomain(data).value.projectId, userId) ==>
                    o.result == Err(ProjectNotFound))
            && (o.result.Ok? ==>
                  var input := ParseDeleteDomain(data).value;
                  forall d :: d in o.store.domains <==> d in s.domains && !(d.id == input.id && d.projectId == input.projectId))
  {
    var parsed := ParseDeleteDomain(data);
    if parsed.Ok? && OwnsProject(s, parsed.value.projectId, userId) {
      DeleteDomainValid(s, parsed.value.id, parsed.value.projectId);
    }
  }

  method DeleteProjectDomain(db: Database, userId: string, data: Json) returns (r: Result<(), Failure>)
    modifies db
    ensures Reply(r, db.State()) == DeleteProjectDomainOutcome(old(db.State()), userId, data)
  {
    var input := ParseDeleteDomain(data);
    if input.Err? {
      return Err(Invalid(input.error));
    }
    var owned := AssertProjectOwner(db, input.value.projectId, userId);
    if !owned {
      return Err(ProjectNotFound);
    }
    db.domains := DeleteDomain(db.State(), input.value.id, input.value.projectId).domains;
    return Ok(());
  }

  // ------------------------------------------------------------ listProjectEvents

  /** `search?.toLowerCase()`, dropped when absent or empty (falsy). */
  function SearchTerm(search: Option<string>): (t: Option<string>)
    ensures t.Some? ==> t.value != [] && NoUpper(t.value)
  {
    LowerMeaning(if search.Some? then search.value else []);
    if search.Some? && search.value != [] then Some(Lower(search.value)) else None
  }

  /** The `where` of the listing: the project's events, and when there is a
      term, those whose address contains it, letter case aside. */
  predicate Selected(e: Event, projectId: string, term: Option<string>) {
    e.projectId == projectId && (term.Some? ==> Contains(Lower(e.ipAddress), term.value))
  }

  /** The selected events in table order. */
  function Matching(es: seq<Event>, projectId: string, term: Option<string>): (r: seq<Event>)
    ensures |r| <= |es|
    ensures forall e :: e in r <==> e in es && Selected(e, projectId, term)
  {
    if es == [] then []
    else
      var last := es[|es| - 1];
      assert es == es[..|es| - 1] + [last];
      Matching(es[..|es| - 1], projectId, term) + (if Selected(last, projectId, term) then [last] else [])
  }

  /** `(page - 1) * pageSize` */
  function Offset(page: int, pageSize: int): (offset: int)
    ensures page >= 1 && pageSize >= 0 ==> offset >= 0
  {
    (page - 1) * pageSize
  }

  /** `.limit(limit).offset(offset)` */
  function Window<T>(xs: seq<T>, offset: int, limit: int): (r: seq<T>)
    requires offset >= 0 && limit >= 0
    ensures |r| <= limit
    ensures forall i :: 0 <= i < |r| ==> offset + i < |xs| && r[i] == xs[offset + i]
  {
    var lo := if offset <= |xs| then offset else |xs|;
    var hi := if offset + limit <= |xs| then offset + limit else |xs|;
    xs[lo..hi]
  }

  datatype EventPage = EventPage(items: seq<Event>, total: int, page: int, pageSize: int)

  function ListProjectEventsOutcome(s: Store, userId: string, data: Json): Result<EventPage, Failure> {
    match ProjectSchemas.ListProjectEvents(data)
    case Err(issues) => Err(Invalid(issues))
    case Ok(q) => QueryOutcome(s, userId, q)
  }

  /** The listing for a query the schema accepted. */
  function QueryOutcome(s: Store, userId: string, q: ProjectSchemas.EventQuery): Result<EventPage, Failure>
    requires q.page >= 1 && q.pageSize >= 1
  {
    if !OwnsProject(s, q.projectId, userId) then Err(ProjectNotFound)
    else
      OffsetSteps(q.page, q.pageSize);
      var selected := Matching(s.events, q.projectId, SearchTerm(q.search));
      Ok(EventPage(Window(selected, Offset(q.page, q.pageSize), q.pageSize), |selected|, q.page, q.pageSize))
  }

  /** Successive pages start `pageSize` apart, the first at zero. */
  lemma OffsetSteps(page: int, pageSize: int)
    requires page >= 1 && pageSize >= 1
    ensures Offset(1, pageSize) == 0
    ensures Offset(page, pageSize) >= 0
    ensures Offset(page + 1, pageSize) == Offset(page, pageSize) + pageSize
  {
  }

  /** Row `i` lies on page `page`. */
  predicate OnPage(i: int, page: int, pageSize: int) {
    Offset(page, pageSize) <= i < Offset(page, pageSize) + pageSize
  }

  /** A later page starts after an earlier one ends. */
  lemma {:induction false} PagesApart(p1: int, p2: int, pageSize: int)
    requires 1 <= p1 < p2 && pageSize >= 1
    ensures Offset(p1, pageSize) + pageSize <= Offset(p2, pageSize)
    decreases p2 - p1
  {
    OffsetSteps(p1, pageSize);
    if p1 + 1 < p2 {
      PagesApart(p1 + 1, p2, pageSize);
      OffsetSteps(p1 + 1, pageSize);
    }
  }

  lemma {:induction false} SomePageHolds(i: int, pageSize: int)
    requires i >= 0 && pageSize >= 1
    ensures exists page :: page >= 1 && OnPage(i, page, pageSize)
    decreases i
  {
    OffsetSteps(1, pageSize);
    if i >= pageSize {
      SomePageHolds(i - pageSize, pageSize);
      var page :| page >= 1 && OnPage(i - pageSize, page, pageSize);
      OffsetSteps(page, pageSize);
      assert OnPage(i, page + 1, pageSize);
    } else {
      assert OnPage(i, 1, pageSize);
    }
  }

  /** Paging through the selected events shows each of them exactly once:
      every row lies on one page and on no other, and that page's window
      shows it. */
  lemma PageOfRow<T>(xs: seq<T>, i: int, pageSize: int)
    requires 0 <= i < |xs| && pageSize >= 1
    ensures exists page :: page >= 1 && OnPage(i, page, pageSize)
    ensures forall p1, p2 :: p1 >= 1 && p2 >= 1 && OnPage(i, p1, pageSize) && OnPage(i, p2, pageSize) ==> p1 == p2
    ensures forall page :: page >= 1 && OnPage(i, page, pageSize) ==>
              var off := Offset(page, pageSize);
              off >= 0 && i - off < |Window(xs, off, pageSize)| && Window(xs, off, pageSize)[i - off] == xs[i]
  {
    SomePageHolds(i, pageSize);
    forall p1, p2 | p1 >= 1 && p2 >= 1 && OnPage(i, p1, pageSize) && OnPage(i, p2, pageSize)
      ensures p1 == p2
    {
      if p1 < p2 {
        PagesApart(p1, p2, pageSize);
      } else if p2 < p1 {
        PagesApart(p2, p1, pageSize);
      }
    }
    forall page | page >= 1 && OnPage(i, page, pageSize)
      ensures var off := Offset(page, pageSize);
              off >= 0 && i - off < |Window(xs, off, pageSize)| && Window(xs, off, pageSize)[i - off] == xs[i]
    {
      OffsetSteps(page, pageSize);
    }
  }

  /** The listing for an accepted query: the owner gets the page-sized
      window, at the page's offset, of the selected events, with their
      count as the total; anyone else, and only anyone else, gets "Project
      not found". */
  lemma QueryOutcomeFacts(s: Store, userId: string, q: ProjectSchemas.EventQuery)
    requires q.page >= 1 && q.pageSize >= 1
    ensures var r := QueryOutcome(s, userId, q);
            && (r.Ok? <==> OwnsProject(s, q.projectId, userId))
            && (!OwnsProject(s, q.projectId, userId) ==> r == Err(ProjectNotFound))
            && (r.Ok? ==>
                  && r.value.page == q.page && r.value.pageSize == q.pageSize
                  && |r.value.items| <= q.pageSize
                  && |r.value.items| <= r.value.total
                  && (forall e :: e in r.value.items ==> e in s.events && e.projectId == q.projectId))
    ensures var r := QueryOutcome(s, userId, q);
            r.Ok? ==>
              var selected := Matching(s.events, q.projectId, SearchTerm(q.search));
              r.value.total == |selected| && r.value.items == Window(selected, Offset(q.page, q.pageSize), q.pageSize)
  {
    if OwnsProject(s, q.projectId, userId) {
      OffsetSteps(q.page, q.pageSize);
      var selected := Matching(s.events, q.projectId, SearchTerm(q.search));
      var w := Window(selected, Offset(q.page, q.pageSize), q.pageSize);
      assert QueryOutcome(s, userId, q) == Ok(EventPage(w, |selected|, q.page, q.pageSize));
      forall e | e in w ensures e in selected {
        var i :| 0 <= i < |w| && w[i] == e;
      }
    }
  }

  /** A listing shows the page-sized window, at the page's offset, of the
      caller's project's events that the search selects, and its total
      counts every selected event; a refused query is answered with its
      issues, and anyone but the owner gets "Project not found": an
      accepted query by the owner always succeeds. */
  lemma ListProjectEventsFacts(s: Store, userId: string, data: Json)
    ensures var r := ListProjectEventsOutcome(s, userId, data);
            && (ProjectSchemas.ListProjectEvents(data).Err? ==> r == Err(Invalid(ProjectSchemas.ListProjectEvents(data).error)))
            && (ProjectSchemas.ListProjectEvents(data).Ok? ==>
                  var q := ProjectSchemas.ListProjectEvents(data).value;
                  && (r.Ok? <==> OwnsProject(s, q.projectId, userId))
                  && (!OwnsProject(s, q.projectId, userId) ==> r == Err(ProjectNotFound))
                  && (r.Ok? ==>
                        && r.value.page == q.page && r.value.pageSize == q.pageSize
                        && |r.value.items| <= q.pageSize
                        && |r.value.items| <= r.value.total
                        && (forall e :: e in r.value.items ==> e in s.events && e.projectId == q.projectId)
                        && r.value.total == |Matching(s.events, q.projectId, SearchTerm(q.search))|
                        && r.value.items == Window(Matching(s.events, q.projectId, SearchTerm(q.search)),
                                                   Offset(q.page, q.pageSize), q.pageSize)))
  {
    var parsed := ProjectSchemas.ListProjectEvents(data);
    if parsed.Ok? {
      QueryOutcomeFacts(s, userId, parsed.value);
    }
  }

  /** The search is blind to letter case, and an empty search is no
      search. */
  lemma SearchIgnoresCase(e: Event, projectId: string, search: string)
    ensures Selected(e, projectId, SearchTerm(Some(search))) == Selected(e, projectId, SearchTerm(Some(Lower(search))))
    ensures Selected(e, projectId, SearchTerm(Some([]))) == Selected(e, projectId, SearchTerm(None))
  {
    LowerIdempotent(search);
  }

  /** The events of the project that the current search selects, in table
      order. */
  method SelectEvents(events: seq<Event>, projectId: string, term: Option<string>) returns (selected: seq<Event>)
    ensures selected == Matching(events, projectId, term)
  {
    selected := [];
    var i := 0;
    while i < |events|
      invariant 0 <= i <= |events|
      invariant selected == Matching(events[..i], projectId, term)
    {
      assert events[..i + 1][..i] == events[..i];
      if Selected(events[i], projectId, term) {
        selected := selected + [events[i]];
      }
      i := i + 1;
    }
    assert events[..i] == events;
  }

  method ListProjectEvents(db: Database, userId: string, data: Json) returns (r: Result<EventPage, Failure>)
    ensures r == ListProjectEventsOutcome(db.State(), userId, data)
  {
    var query := ProjectSchemas.ListProjectEvents(data);
    if query.Err? {
      return Err(Invalid(query.error));
    }
    var q := query.value;
    var owned := AssertProjectOwner(db, q.projectId, userId);
    if !owned {
      return Err(ProjectNotFound);
    }
    var searchTerm := SearchTerm(q.search);
    var selected := SelectEvents(db.events, q.projectId, searchTerm);
    var offset := (q.page - 1) * q.pageSize;
    OffsetSteps(q.page, q.pageSize);
    var items := Window(selected, offset, q.pageSize);
    return Ok(EventPage(items, |selected|, q.page, q.pageSize));
  }
}
