/** The projects dashboard of apps/web/src/components/projects/projects-dashboard.tsx:
    the search filter and sort of the project list, and the state cells the
    create form and the delete confirmation update. */
module Dashboard {
  import opened Wrappers
  import opened Text

  // ------------------------------------------------------------ the project list

  /** A project's `createdAt` as the list arrives: missing (`null`), a
      `Date` (its epoch milliseconds), or a number of milliseconds. */
  datatype CreatedAt = NoDate | DateValue(epochMs: int) | NumberValue(ms: int)

  /** `toTimestamp`: a falsy value is 0, a `Date` gives its time and a
      number is itself. A `Date` is an object and so never falsy, even at
      the epoch; the number 0 is falsy, but its answer, 0, is itself. */
  function ToTimestamp(v: CreatedAt): (t: int)
    ensures v.NoDate? ==> t == 0
    ensures v.DateValue? ==> t == v.epochMs
    ensures v.NumberValue? ==> t == v.ms
  {
    match v
    case NoDate => 0
    case DateValue(ms) => ms
    case NumberValue(ms) => ms
  }

  /** One entry of the list the dashboard shows. */
  datatype ListedProject = ListedProject(id: string, name: string, createdAt: CreatedAt)

  /** `searchTerm.trim().toLowerCase()` */
  function SearchKey(searchTerm: string): (term: string)
    ensures |term| == |Trim(searchTerm)|
  {
    Lower(Trim(searchTerm))
  }

  /** `project.name.toLowerCase().includes(term)` */
  predicate NameMatches(p: ListedProject, term: string) {
    Contains(Lower(p.name), term)
  }

  /** `projects.filter(...)`: the projects whose name holds `term`, each as
      often as it was listed and in the listed order. */
  function KeepMatching(projects: seq<ListedProject>, term: string): (r: seq<ListedProject>)
    ensures |r| <= |projects|
    ensures forall p :: multiset(r)[p] == if NameMatches(p, term) then multiset(projects)[p] else 0
  {
    if projects == [] then []
    else
      var rest := KeepMatching(projects[1..], term);
      assert projects == [projects[0]] + projects[1..];
      if NameMatches(projects[0], term) then [projects[0]] + rest else rest
  }

  /** The filter step of `filteredProjects`: an empty term keeps the list
      as it is. */
  function FilterProjects(projects: seq<ListedProject>, searchTerm: string): seq<ListedProject> {
    var term := SearchKey(searchTerm);
    if term == [] then projects else KeepMatching(projects, term)
  }

  /** With a blank search term every project is kept, in order; otherwise
      exactly the projects whose lower-cased name contains the lower-cased
      trimmed term are kept, each as often as it was listed. */
  lemma FilterProjectsMeaning(projects: seq<ListedProject>, searchTerm: string)
    ensures Trim(searchTerm) == [] ==> FilterProjects(projects, searchTerm) == projects
    ensures forall p :: p in FilterProjects(projects, searchTerm) <==>
              p in projects && NameMatches(p, SearchKey(searchTerm))
    ensures forall p :: multiset(FilterProjects(projects, searchTerm))[p] ==
              if NameMatches(p, SearchKey(searchTerm)) then multiset(projects)[p] else 0
  {
    var term := SearchKey(searchTerm);
    if term == [] {
      forall p ensures NameMatches(p, term) {
        assert OccursAt(Lower(p.name), term, 0);
      }
    }
    var r := FilterProjects(projects, searchTerm);
    forall p ensures p in r <==> p in projects && NameMatches(p, term) {
      assert p in r <==> multiset(r)[p] > 0;
      assert p in projects <==> multiset(projects)[p] > 0;
    }
  }

  /** The three orders of the sort menu. */
  datatype SortMode = Newest | Oldest | AZ

  /** `a` may stay before `b`: the comparator of the sort gives at most
      zero. `localeCompare` is taken as code-point order. */
  predicate InOrder(mode: SortMode, a: ListedProject, b: ListedProject) {
    match mode
    case AZ => LexLeq(a.name, b.name)
    case Oldest => ToTimestamp(a.createdAt) <= ToTimestamp(b.createdAt)
    case Newest => ToTimestamp(b.createdAt) <= ToTimestamp(a.createdAt)
  }

  lemma InOrderTotal(mode: SortMode, a: ListedProject, b: ListedProject)
    ensures InOrder(mode, a, b) || InOrder(mode, b, a)
  {
    if mode == AZ {
      LexLeqTotal(a.name, b.name);
    }
  }

  lemma InOrderTransitive(mode: SortMode, a: ListedProject, b: ListedProject, c: ListedProject)
    requires InOrder(mode, a, b) && InOrder(mode, b, c)
    ensures InOrder(mode, a, c)
  {
    if mode == AZ {
      LexLeqTransitive(a.name, b.name, c.name);
    }
  }

  /** Each neighbour pair is in order. */
  predicate Sorted(mode: SortMode, xs: seq<ListedProject>) {
    forall i :: 1 <= i < |xs| ==> InOrder(mode, xs[i - 1], xs[i])
  }

  /** Puts `x` before the first element it may precede: `x` stays ahead of
      every element it compares equal to, which keeps the sort stable. */
  function Insert(mode: SortMode, x: ListedProject, ys: seq<ListedProject>): (r: seq<ListedProject>)
    ensures |r| == |ys| + 1
    ensures multiset(r) == multiset(ys) + multiset{x}
    ensures r[0] == x || (ys != [] && r[0] == ys[0])
  {
    if ys == [] then [x]
    else if InOrder(mode, x, ys[0]) then [x] + ys
    else
      assert ys == [ys[0]] + ys[1..];
      [ys[0]] + Insert(mode, x, ys[1..])
  }

  /** `[...filtered].sort(...)`: a stable sort of a copy, so the list it
      starts from is a value left as it was. */
  function SortProjects(mode: SortMode, xs: seq<ListedProject>): (r: seq<ListedProject>)
    ensures |r| == |xs|
    ensures multiset(r) == multiset(xs)
  {
    if xs == [] then []
    else
      assert xs == [xs[0]] + xs[1..];
      Insert(mode, xs[0], SortProjects(mode, xs[1..]))
  }

  lemma {:induction false} InsertSorted(mode: SortMode, x: ListedProject, ys: seq<ListedProject>)
    requires Sorted(mode, ys)
    ensures Sorted(mode, Insert(mode, x, ys))
  {
    if ys != [] && !InOrder(mode, x, ys[0]) {
      InOrderTotal(mode, x, ys[0]);
      var rest := Insert(mode, x, ys[1..]);
      InsertSorted(mode, x, ys[1..]);
      var r := [ys[0]] + rest;
      assert Insert(mode, x, ys) == r;
      forall i | 1 <= i < |r| ensures InOrder(mode, r[i - 1], r[i]) {
        if i > 1 {
          assert r[i - 1] == rest[i - 2] && r[i] == rest[i - 1];
        }
      }
    }
  }

  lemma {:induction false} SortSorted(mode: SortMode, xs: seq<ListedProject>)
    ensures Sorted(mode, SortProjects(mode, xs))
  {
    if xs != [] {
      SortSorted(mode, xs[1..]);
      InsertSorted(mode, xs[0], SortProjects(mode, xs[1..]));
    }
  }

  /** In a sorted list every earlier project is in order with every later
      one, not only with its neighbour. */
  lemma {:induction false} SortedPairs(mode: SortMode, xs: seq<ListedProject>)
    requires Sorted(mode, xs)
    ensures forall i, j :: 0 <= i < j < |xs| ==> InOrder(mode, xs[i], xs[j])
  {
    if |xs| > 1 {
      var tail := xs[1..];
      assert Sorted(mode, tail) by {
        forall i | 1 <= i < |tail| ensures InOrder(mode, tail[i - 1], tail[i]) {
          assert tail[i - 1] == xs[i] && tail[i] == xs[i + 1];
        }
      }
      SortedPairs(mode, tail);
      forall i, j | 0 <= i < j < |xs| ensures InOrder(mode, xs[i], xs[j]) {
        if i > 0 {
          assert xs[i] == tail[i - 1] && xs[j] == tail[j - 1];
        } else if j > 1 {
          assert xs[1] == tail[0] && xs[j] == tail[j - 1];
          InOrderTransitive(mode, xs[0], xs[1], xs[j]);
        }
      }
    }
  }

  /** `filteredProjects`: filter, then sort a copy. */
  function FilteredProjects(projects: seq<ListedProject>, searchTerm: string, mode: SortMode): seq<ListedProject> {
    SortProjects(mode, FilterProjects(projects, searchTerm))
  }

  /** The shown list is a rearrangement of the filtered list; "oldest"
      shows creation times that never decrease, "newest" times that never
      increase, and "az" names in order. */
  lemma FilteredProjectsFacts(projects: seq<ListedProject>, searchTerm: string, mode: SortMode)
    ensures var shown := FilteredProjects(projects, searchTerm, mode);
            && multiset(shown) == multiset(FilterProjects(projects, searchTerm))
            && (forall i, j :: 0 <= i < j < |shown| ==> InOrder(mode, shown[i], shown[j]))
            && (mode == Oldest ==> forall i, j :: 0 <= i < j < |shown| ==>
                  ToTimestamp(shown[i].createdAt) <= ToTimestamp(shown[j].createdAt))
            && (mode == Newest ==> forall i, j :: 0 <= i < j < |shown| ==>
                  ToTimestamp(shown[i].createdAt) >= ToTimestamp(shown[j].createdAt))
  {
    var filtered := FilterProjects(projects, searchTerm);
    SortSorted(mode, filtered);
    SortedPairs(mode, SortProjects(mode, filtered));
  }

  // ------------------------------------------------------------ the state cells

  /** A call the dashboard sends to the server functions. */
  datatype Mutation = CreateCall(name: string) | DeleteCall(id: string)

  /** The project the delete dialog asks about. */
  datatype DeleteTarget = DeleteTarget(id: string, name: string)

  const NameRequiredMessage: string := "Project name is required."
  const CreateFailedMessage: string := "Create failed."

  /** The state cells of the component, the calls it has sent so far and
      the project page it navigated to. */
  datatype View = View(
    isDialogOpen: bool, projectName: string, formError: Option<string>,
    deleteTarget: Option<DeleteTarget>, sent: seq<Mutation>, openedProject: Option<string>)

  /** Every create call carries a name that is non-empty and trimmed. */
  predicate CallsWellFormed(v: View) {
    forall i :: 0 <= i < |v.sent| ==> v.sent[i].CreateCall? ==> v.sent[i].name != [] && Trimmed(v.sent[i].name)
  }

  /** `handleCreate` */
  function AfterCreate(v: View): View {
    var trimmedName := Trim(v.projectName);
    if trimmedName == [] then v.(formError := Some(NameRequiredMessage))
    else v.(sent := v.sent + [CreateCall(trimmedName)])
  }

  /** `onSuccess` of the create mutation. */
  function AfterCreateSucceeded(v: View, projectId: string): View {
    v.(isDialogOpen := false, projectName := [], formError := None, openedProject := Some(projectId))
  }

  /** `onError` of the create mutation; `error` is the message of an
      `Error`, or `None` for anything else that was thrown. */
  function AfterCreateFailed(v: View, error: Option<string>): View {
    v.(formError := Some(error.GetOr(CreateFailedMessage)))
  }

  /** `handleDelete` */
  function AfterDeleteRequested(v: View, projectId: string, projectName: string): View {
    v.(deleteTarget := Some(DeleteTarget(projectId, projectName)))
  }

  /** The "Delete" action of the confirmation dialog. */
  function AfterDeleteConfirmed(v: View): View {
    if v.deleteTarget.None? then v
    else v.(sent := v.sent + [DeleteCall(v.deleteTarget.value.id)], deleteTarget := None)
  }

  /** `onOpenChange` of the confirmation dialog: closing it forgets the
      target, opening it changes nothing. */
  function AfterDeleteDialogOpenChange(v: View, open: bool): View {
    if open then v else v.(deleteTarget := None)
  }

  /** A blank name is refused with "Project name is required." and nothing
      is sent; any other name is sent once, trimmed, and nothing else
      changes. */
  lemma CreateFacts(v: View)
    ensures var w := AfterCreate(v);
            && (Trim(v.projectName) == [] ==> w == v.(formError := Some(NameRequiredMessage)))
            && (Trim(v.projectName) != [] ==>
                  w == v.(sent := v.sent + [CreateCall(Trim(v.projectName))])
                  && Trimmed(w.sent[|v.sent|].name) && |w.sent[|v.sent|].name| > 0)
            && (AllWhitespace(v.projectName) ==> w.sent == v.sent)
  {
    if AllWhitespace(v.projectName) {
      TrimOfBlank(v.projectName);
    }
  }

  /** Confirming with no target changes nothing; with a target it sends
      one delete call for the target's id and clears the target, so a
      second confirmation sends nothing more. */
  lemma ConfirmDeleteFacts(v: View)
    ensures v.deleteTarget.None? ==> AfterDeleteConfirmed(v) == v
    ensures v.deleteTarget.Some? ==>
              var w := AfterDeleteConfirmed(v);
              && w.sent == v.sent + [DeleteCall(v.deleteTarget.value.id)]
              && w.deleteTarget.None?
              && AfterDeleteConfirmed(w) == w
  {
  }

  /** Cancelling the dialog forgets the target: a later confirmation sends
      nothing. */
  lemma CancelThenConfirmSendsNothing(v: View)
    ensures AfterDeleteConfirmed(AfterDeleteDialogOpenChange(v, false)).sent == v.sent
  {
  }

  /** Every transition keeps the create calls well formed. */
  lemma {:induction false} TransitionsKeepCallsWellFormed(v: View, projectId: string, projectName: string,
                                                        error: Option<string>, open: bool)
    requires CallsWellFormed(v)
    ensures CallsWellFormed(AfterCreate(v))
    ensures CallsWellFormed(AfterCreateSucceeded(v, projectId))
    ensures CallsWellFormed(AfterCreateFailed(v, error))
    ensures CallsWellFormed(AfterDeleteRequested(v, projectId, projectName))
    ensures CallsWellFormed(AfterDeleteConfirmed(v))
    ensures CallsWellFormed(AfterDeleteDialogOpenChange(v, open))
  {
    var w := AfterCreate(v);
    forall i | 0 <= i < |w.sent| && w.sent[i].CreateCall? ensures w.sent[i].name != [] && Trimmed(w.sent[i].name) {
      if i < |v.sent| {
        assert w.sent[i] == v.sent[i];
      }
    }
    var d := AfterDeleteConfirmed(v);
    forall i | 0 <= i < |d.sent| && d.sent[i].CreateCall? ensures d.sent[i].name != [] && Trimmed(d.sent[i].name) {
      if i < |v.sent| {
        assert d.sent[i] == v.sent[i];
      }
    }
  }

  /** The component: its state cells are fields that each handler sets. */
  class ProjectsDashboard {
    var isDialogOpen: bool
    var projectName: string
    var formError: Option<string>
    var deleteTarget: Option<DeleteTarget>
    var sent: seq<Mutation>
    var openedProject: Option<string>

    function State(): View
      reads this
    {
      View(isDialogOpen, projectName, formError, deleteTarget, sent, openedProject)
    }

    /** The first render: dialog closed, empty name, no error, no target. */
    constructor()
      ensures State() == View(false, [], None, None, [], None)
      ensures CallsWellFormed(State())
    {
      isDialogOpen := false;
      projectName := [];
      formError := None;
      deleteTarget := None;
      sent := [];
      openedProject := None;
    }

    /** The input field of the create dialog. */
    method SetProjectName(name: string)
      modifies this
      ensures State() == old(State()).(projectName := name)
    {
      projectName := name;
    }

    method HandleCreate()
      modifies this
      ensures State() == AfterCreate(old(State()))
    {
      var trimmedName := Trim(projectName);
      if trimmedName == [] {
        formError := Some(NameRequiredMessage);
        return;
      }
      sent := sent + [CreateCall(trimmedName)];
    }

    method CreateSucceeded(projectId: string)
      modifies this
      ensures State() == AfterCreateSucceeded(old(State()), projectId)
    {
      isDialogOpen := false;
      projectName := [];
      formError := None;
      openedProject := Some(projectId);
    }

    method CreateFailed(error: Option<string>)
      modifies this
      ensures State() == AfterCreateFailed(old(State()), error)
    {
      formError := Some(if error.Some? then error.value else CreateFailedMessage);
    }

    method HandleDelete(projectId: string, projectNameValue: string)
      modifies this
      ensures State() == AfterDeleteRequested(old(State()), projectId, projectNameValue)
    {
      deleteTarget := Some(DeleteTarget(projectId, projectNameValue));
    }

    method ConfirmDelete()
      modifies this
      ensures State() == AfterDeleteConfirmed(old(State()))
    {
      if deleteTarget.None? {
        return;
      }
      sent := sent + [DeleteCall(deleteTarget.value.id)];
      deleteTarget := None;
    }

    method DeleteDialogOpenChange(open: bool)
      modifies this
      ensures State() == AfterDeleteDialogOpenChange(old(State()), open)
    {
      if !open {
        deleteTarget := None;
      }
    }
  }
}
