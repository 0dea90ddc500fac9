/** The three tables of packages/data-ops/src/drizzle/schema.ts as rows in
    memory, the table operations the handlers perform, and the integrity
    the schema declares: unique ids, and every domain and event row tied to
    an existing project. */
module Tables {
  import opened Wrappers

  datatype Project = Project(id: string, userId: string, name: string, createdAt: int)

  datatype ProjectDomain = ProjectDomain(id: string, projectId: string, hostname: string, wildcard: bool)

  /** `getEventType`'s three answers. */
  datatype EventType = Proxy | Mobile | Hosting

  /** An event row; `timestamp` is the `timestamp_ms` integer column, and
      latitude and longitude are not part of this model. */
  datatype Event = Event(
    id: string, projectId: string, timestamp: int, ipAddress: string, eventType: EventType,
    country: Option<string>, region: Option<string>, city: Option<string>,
    zip: Option<string>, isp: Option<string>, asName: Option<string>)

  /** The contents of the three tables. */
  datatype Store = Store(projects: seq<Project>, domains: seq<ProjectDomain>, events: seq<Event>)

  /** The rows of `xs` that `keep` accepts, in their order. */
  function Filter<T(!new)>(xs: seq<T>, keep: T -> bool): (r: seq<T>)
    ensures |r| <= |xs|
    ensures forall x :: x in r <==> x in xs && keep(x)
  {
    if xs == [] then [] else (if keep(xs[0]) then [xs[0]] else []) + Filter(xs[1..], keep)
  }

  /** Filtering keeps every row when `keep` accepts them all. */
  lemma {:induction false} FilterKeepsAll<T(!new)>(xs: seq<T>, keep: T -> bool)
    requires forall x :: x in xs ==> keep(x)
    ensures Filter(xs, keep) == xs
  {
    if xs != [] {
      FilterKeepsAll(xs[1..], keep);
      assert [xs[0]] + xs[1..] == xs;
    }
  }

  predicate HasProject(s: Store, id: string) {
    exists i :: 0 <= i < |s.projects| && s.projects[i].id == id
  }

  /** `assertProjectOwner`: a project with this id belongs to this user. */
  predicate OwnsProject(s: Store, id: string, userId: string) {
    exists i :: 0 <= i < |s.projects| && s.projects[i].id == id && s.projects[i].userId == userId
  }

  predicate ProjectIdsUnique(ps: seq<Project>) {
    forall i, j :: 0 <= i < j < |ps| ==> ps[i].id != ps[j].id
  }

  predicate DomainIdsUnique(ds: seq<ProjectDomain>) {
    forall i, j :: 0 <= i < j < |ds| ==> ds[i].id != ds[j].id
  }

  predicate EventIdsUnique(es: seq<Event>) {
    forall i, j :: 0 <= i < j < |es| ==> es[i].id != es[j].id
  }

  predicate UsedDomainId(s: Store, id: string) {
    exists i :: 0 <= i < |s.domains| && s.domains[i].id == id
  }

  predicate UsedEventId(s: Store, id: string) {
    exists i :: 0 <= i < |s.events| && s.events[i].id == id
  }

  /** Primary keys are unique and every reference names an existing
      project. */
  predicate Valid(s: Store) {
    && ProjectIdsUnique(s.projects)
    && DomainIdsUnique(s.domains)
    && EventIdsUnique(s.events)
    && (forall d :: d in s.domains ==> HasProject(s, d.projectId))
    && (forall e :: e in s.events ==> HasProject(s, e.projectId))
  }

  // ---------------------------------------------------------------- projects

  /** `db.insert(projects).values(project)` */
  function InsertProject(s: Store, p: Project): Store {
    s.(projects := s.projects + [p])
  }

  lemma InsertProjectValid(s: Store, p: Project)
    requires Valid(s) && !HasProject(s, p.id)
    ensures Valid(InsertProject(s, p))
    ensures OwnsProject(InsertProject(s, p), p.id, p.userId)
  {
    var t := InsertProject(s, p);
    forall d | d in t.domains ensures HasProject(t, d.projectId) {
      var i :| 0 <= i < |s.projects| && s.projects[i].id == d.projectId;
      assert t.projects[i] == s.projects[i];
    }
    forall e | e in t.events ensures HasProject(t, e.projectId) {
      var i :| 0 <= i < |s.projects| && s.projects[i].id == e.projectId;
      assert t.projects[i] == s.projects[i];
    }
    assert t.projects[|s.projects|] == p;
  }

  /** `update(projects).set({ name }).where(id = ... and userId = ...)` */
  function RenameOwned(ps: seq<Project>, id: string, userId: string, name: string): (r: seq<Project>)
    ensures |r| == |ps|
    ensures forall i :: 0 <= i < |ps| ==>
              r[i] == if ps[i].id == id && ps[i].userId == userId then ps[i].(name := name) else ps[i]
  {
    seq(|ps|, i requires 0 <= i < |ps| =>
      if ps[i].id == id && ps[i].userId == userId then ps[i].(name := name) else ps[i])
  }

  function RenameProject(s: Store, id: string, userId: string, name: string): Store {
    s.(projects := RenameOwned(s.projects, id, userId, name))
  }

  /** Renaming touches names only: ids, owners and the other tables are
      left as they were, so the store stays valid; a rename the caller does
      not own changes nothing. */
  lemma RenameProjectValid(s: Store, id: string, userId: string, name: string)
    requires Valid(s)
    ensures Valid(RenameProject(s, id, userId, name))
    ensures !OwnsProject(s, id, userId) ==> RenameProject(s, id, userId, name) == s
  {
    var t := RenameProject(s, id, userId, name);
    forall d | d in t.domains ensures HasProject(t, d.projectId) {
      var i :| 0 <= i < |s.projects| && s.projects[i].id == d.projectId;
      assert t.projects[i].id == s.projects[i].id;
    }
    forall e | e in t.events ensures HasProject(t, e.projectId) {
      var i :| 0 <= i < |s.projects| && s.projects[i].id == e.projectId;
      assert t.projects[i].id == s.projects[i].id;
    }
    if !OwnsProject(s, id, userId) {
      assert t.projects == s.projects;
    }
  }

  /** The `db.batch` of `deleteProject`: the project's events, then its
      domains, then the project row. */
  function DeleteProjectCascade(s: Store, id: string): (r: Store)
    ensures forall e :: e in r.events <==> e in s.events && e.projectId != id
    ensures forall d :: d in r.domains <==> d in s.domains && d.projectId != id
    ensures forall p :: p in r.projects <==> p in s.projects && p.id != id
  {
    Store(Filter(s.projects, (p: Project) => p.id != id),
          Filter(s.domains, (d: ProjectDomain) => d.projectId != id),
          Filter(s.events, (e: Event) => e.projectId != id))
  }

  /** Filtering keeps ids unique. */
  lemma {:induction false} FilterKeepsProjectIdsUnique(ps: seq<Project>, keep: Project -> bool)
    requires ProjectIdsUnique(ps)
    ensures ProjectIdsUnique(Filter(ps, keep))
  {
    if ps != [] {
      FilterKeepsProjectIdsUnique(ps[1..], keep);
      var rest := Filter(ps[1..], keep);
      forall j | 0 <= j < |rest| ensures rest[j].id != ps[0].id {
        assert rest[j] in ps[1..];
      }
    }
  }

  lemma {:induction false} FilterKeepsDomainIdsUnique(ds: seq<ProjectDomain>, keep: ProjectDomain -> bool)
    requires DomainIdsUnique(ds)
    ensures DomainIdsUnique(Filter(ds, keep))
  {
    if ds != [] {
      FilterKeepsDomainIdsUnique(ds[1..], keep);
      var rest := Filter(ds[1..], keep);
      forall j | 0 <= j < |rest| ensures rest[j].id != ds[0].id {
        assert rest[j] in ds[1..];
      }
    }
  }

  lemma {:induction false} FilterKeepsEventIdsUnique(es: seq<Event>, keep: Event -> bool)
    requires EventIdsUnique(es)
    ensures EventIdsUnique(Filter(es, keep))
  {
    if es != [] {
      FilterKeepsEventIdsUnique(es[1..], keep);
      var rest := Filter(es[1..], keep);
      forall j | 0 <= j < |rest| ensures rest[j].id != es[0].id {
        assert rest[j] in es[1..];
      }
    }
  }

  /** Deleting a project with its domains and events leaves no dangling
      reference, and the project is gone. */
  lemma DeleteProjectCascadeValid(s: Store, id: string)
    requires Valid(s)
    ensures Valid(DeleteProjectCascade(s, id))
    ensures !HasProject(DeleteProjectCascade(s, id), id)
  {
    var t := DeleteProjectCascade(s, id);
    FilterKeepsProjectIdsUnique(s.projects, (p: Project) => p.id != id);
    FilterKeepsDomainIdsUnique(s.domains, (d: ProjectDomain) => d.projectId != id);
    FilterKeepsEventIdsUnique(s.events, (e: Event) => e.projectId != id);
    forall d | d in t.domains ensures HasProject(t, d.projectId) {
      var i :| 0 <= i < |s.projects| && s.projects[i].id == d.projectId;
      assert s.projects[i] in t.projects;
      var j :| 0 <= j < |t.projects| && t.projects[j] == s.projects[i];
    }
    forall e | e in t.events ensures HasProject(t, e.projectId) {
      var i :| 0 <= i < |s.projects| && s.projects[i].id == e.projectId;
      assert s.projects[i] in t.projects;
      var j :| 0 <= j < |t.projects| && t.projects[j] == s.projects[i];
    }
    forall i | 0 <= i < |t.projects| ensures t.projects[i].id != id {
      assert t.projects[i] in t.projects;
    }
  }

  /** Deleting twice is deleting once. */
  lemma DeleteProjectCascadeIdempotent(s: Store, id: string)
    ensures DeleteProjectCascade(DeleteProjectCascade(s, id), id) == DeleteProjectCascade(s, id)
  {
    var t := DeleteProjectCascade(s, id);
    FilterKeepsAll(t.projects, (p: Project) => p.id != id);
    FilterKeepsAll(t.domains, (d: ProjectDomain) => d.projectId != id);
    FilterKeepsAll(t.events, (e: Event) => e.projectId != id);
  }

  // ---------------------------------------------------------------- domains

  /** `db.insert(projectDomains).values(...)` */
  function InsertDomain(s: Store, d: ProjectDomain): Store {
    s.(domains := s.domains + [d])
  }

  lemma InsertDomainValid(s: Store, d: ProjectDomain)
    requires Valid(s) && !UsedDomainId(s, d.id) && HasProject(s, d.projectId)
    ensures Valid(InsertDomain(s, d))
  {
  }

  /** `update(projectDomains).set({ hostname, wildcard }).where(id = ... and projectId = ...)` */
  function UpdateDomainRows(ds: seq<ProjectDomain>, id: string, projectId: string, hostname: string, wildcard: bool): (r: seq<ProjectDomain>)
    ensures |r| == |ds|
    ensures forall i :: 0 <= i < |ds| ==>
              r[i] == if ds[i].id == id && ds[i].projectId == projectId
                      then ds[i].(hostname := hostname, wildcard := wildcard) else ds[i]
  {
    seq(|ds|, i requires 0 <= i < |ds| =>
      if ds[i].id == id && ds[i].projectId == projectId
      then ds[i].(hostname := hostname, wildcard := wildcard) else ds[i])
  }

  function UpdateDomain(s: Store, id: string, projectId: string, hostname: string, wildcard: bool): Store {
    s.(domains := UpdateDomainRows(s.domains, id, projectId, hostname, wildcard))
  }

  /** An update rewrites only the host name and flag of the row matching
      both ids, so ids and references are kept. */
  lemma UpdateDomainValid(s: Store, id: string, projectId: string, hostname: string, wildcard: bool)
    requires Valid(s)
    ensures Valid(UpdateDomain(s, id, projectId, hostname, wildcard))
  {
    var t := UpdateDomain(s, id, projectId, hostname, wildcard);
    forall d | d in t.domains ensures HasProject(t, d.projectId) {
      var i :| 0 <= i < |t.domains| && t.domains[i] == d;
      assert s.domains[i] in s.domains;
    }
  }

  /** `delete(projectDomains).where(id = ... and projectId = ...)` */
  function DeleteDomain(s: Store, id: string, projectId: string): (r: Store)
    ensures forall d :: d in r.domains <==> d in s.domains && !(d.id == id && d.projectId == projectId)
    ensures r.projects == s.projects && r.events == s.events
  {
    s.(domains := Filter(s.domains, (d: ProjectDomain) => !(d.id == id && d.projectId == projectId)))
  }

  lemma DeleteDomainValid(s: Store, id: string, projectId: string)
    requires Valid(s)
    ensures Valid(DeleteDomain(s, id, projectId))
  {
    FilterKeepsDomainIdsUnique(s.domains, (d: ProjectDomain) => !(d.id == id && d.projectId == projectId));
  }

  // ---------------------------------------------------------------- events

  /** `db.insert(events).values(eventRecord)` */
  function InsertEvent(s: Store, e: Event): Store {
    s.(events := s.events + [e])
  }

  lemma InsertEventValid(s: Store, e: Event)
    requires Valid(s) && !UsedEventId(s, e.id) && HasProject(s, e.projectId)
    ensures Valid(InsertEvent(s, e))
  {
  }

  /** The tables held by one database, updated in place. */
  class Database {
    var projects: seq<Project>
    var domains: seq<ProjectDomain>
    var events: seq<Event>

    function State(): Store
      reads this
    {
      Store(projects, domains, events)
    }

    constructor()
      ensures State() == Store([], [], []) && Valid(State())
    {
      projects, domains, events := [], [], [];
    }
  }
}
