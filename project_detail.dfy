/**
  The project page: the project's issues, the search/status/assignee filters over
  them, and the local list patched after an issue is created or deleted.
*/
module ProjectDetail {
  import opened Wrappers
  import opened Text
  import opened Seqs
  import opened Types
  import opened Search

  /** `statusFilter === 'all' || issue.status === statusFilter`. */
  predicate MatchesStatus(st: IssueStatus, filter: string) {
    filter == "all" || IssueStatusName(st) == filter
  }

  /**
    `'all'` matches everything, `'unassigned'` matches a falsy assignee, and any
    value matches a truthy assignee whose decimal string equals it.
  */
  predicate MatchesAssignee(a: Option<int>, filter: string) {
    || filter == "all"
    || (filter == "unassigned" && !HasAssignee(a))
    || (HasAssignee(a) && DecimalString(a.value) == filter)
  }

  datatype IssueCriteria = IssueCriteria(searchTerm: string, statusFilter: string, assigneeFilter: string)

  /** The three filters of the page, all of which must hold. */
  predicate IssueMatches(c: IssueCriteria, i: Issue) {
    && MatchesSearch(i.title, c.searchTerm)
    && MatchesStatus(i.status, c.statusFilter)
    && MatchesAssignee(i.assignedToId, c.assigneeFilter)
  }

  /** `filteredIssues`: the issues passing every filter, in list order. */
  function FilteredIssues(issues: seq<Issue>, c: IssueCriteria): (r: seq<Issue>)
    ensures IsSubsequence(r, issues)
    ensures forall i :: i in r <==>
      && i in issues
      && MatchesSearch(i.title, c.searchTerm)
      && MatchesStatus(i.status, c.statusFilter)
      && MatchesAssignee(i.assignedToId, c.assigneeFilter)
  {
    Filter(issues, (i: Issue) => IssueMatches(c, i))
  }

  /** The criteria the page starts with. */
  const NoCriteria := IssueCriteria("", "all", "all")

  /** With no search term and both selects on "all", every issue is shown, in order. */
  lemma NoCriteriaShowsAllIssues(issues: seq<Issue>)
    ensures FilteredIssues(issues, NoCriteria) == issues
  {
    forall k | 0 <= k < |issues| ensures IssueMatches(NoCriteria, issues[k]) {
      EmptyTermMatches(issues[k].title);
    }
    FilterKeepsAll(issues, (i: Issue) => IssueMatches(NoCriteria, i));
  }

  /**
    A status filter other than "all" keeps only issues whose status has exactly that
    name; a filter that names no status keeps nothing.
  */
  lemma StatusFilterIsExact(issues: seq<Issue>, c: IssueCriteria)
    requires c.statusFilter != "all"
    ensures forall k :: 0 <= k < |FilteredIssues(issues, c)| ==>
      IssueStatusName(FilteredIssues(issues, c)[k].status) == c.statusFilter
    ensures ParseIssueStatus(c.statusFilter) == None ==> FilteredIssues(issues, c) == []
  {
  }

  /** A decimal string starts with a digit or a minus sign, so it is never a keyword. */
  lemma DecimalIsNoKeyword(n: int)
    ensures DecimalString(n) != "all" && DecimalString(n) != "unassigned"
  {
    var s := DecimalString(n);
    assert IsDigit(s[0]) || s[0] == '-';
  }

  /** "unassigned" keeps exactly the issues whose `assigned_to_id` is falsy. */
  lemma UnassignedFilterIff(a: Option<int>)
    ensures MatchesAssignee(a, "unassigned") <==> !HasAssignee(a)
  {
    if HasAssignee(a) {
      DecimalIsNoKeyword(a.value);
    }
  }

  /** The filter value of a non-zero user id keeps exactly the issues assigned to that user. */
  lemma AssigneeIdFilterIff(a: Option<int>, userId: int)
    requires userId != 0
    ensures MatchesAssignee(a, DecimalString(userId)) <==> a == Some(userId)
  {
    DecimalIsNoKeyword(userId);
    if HasAssignee(a) && DecimalString(a.value) == DecimalString(userId) {
      DecimalStringInjective(a.value, userId);
    }
  }

  /** A created issue appears at the end of the shown list exactly when it passes the filters. */
  lemma CreatedIssueShownLast(issues: seq<Issue>, created: Issue, c: IssueCriteria)
    ensures FilteredIssues(issues + [created], c) ==
            FilteredIssues(issues, c) + (if IssueMatches(c, created) then [created] else [])
  {
    FilterConcat(issues, [created], (i: Issue) => IssueMatches(c, i));
    assert [created][1..] == [];
  }

  /** Deleting from the held list and then filtering equals deleting from the shown list. */
  lemma DeleteThenFilter(issues: seq<Issue>, k: int, c: IssueCriteria)
    ensures FilteredIssues(WithoutId(issues, IssueId, k), c) == WithoutId(FilteredIssues(issues, c), IssueId, k)
  {
    FilterWithoutId(issues, IssueId, k, (i: Issue) => IssueMatches(c, i));
  }

  /** The example of issues 1 (active, unassigned) and 2 (closed, assigned to user 5). */
  lemma ActiveFilterExample(title1: string, title2: string)
    ensures
      var one := Issue(1, 7, title1, "", Active, None, 1, "", "", None, None, None, None);
      var two := Issue(2, 7, title2, "", Closed, Some(5), 1, "", "", None, None, None, None);
      FilteredIssues([one, two], IssueCriteria("", "active", "all")) == [one]
  {
    var one := Issue(1, 7, title1, "", Active, None, 1, "", "", None, None, None, None);
    var two := Issue(2, 7, title2, "", Closed, Some(5), 1, "", "", None, None, None, None);
    var c := IssueCriteria("", "active", "all");
    EmptyTermMatches(one.title);
    CreatedIssueShownLast([], one, c);
    assert [] + [one] == [one];
    CreatedIssueShownLast([one], two, c);
    assert [one] + [two] == [one, two];
  }

  class ProjectDetailScreen {
    const projectId: int
    var project: Option<Project>
    var issues: seq<Issue>
    var loading: bool
    var searchTerm: string
    var statusFilter: string
    var assigneeFilter: string
    var showCreateModal: bool

    constructor (projectId: int)
      ensures this.projectId == projectId
      ensures project == None && issues == [] && loading && !showCreateModal
      ensures searchTerm == "" && statusFilter == "all" && assigneeFilter == "all"
    {
      this.projectId := projectId;
      project := None;
      issues := [];
      loading := true;
      searchTerm := "";
      statusFilter := "all";
      assigneeFilter := "all";
      showCreateModal := false;
    }

    function Criteria(): IssueCriteria
      reads this
    {
      IssueCriteria(searchTerm, statusFilter, assigneeFilter)
    }

    /** The issues the table shows. */
    function VisibleIssues(): seq<Issue>
      reads this
    {
      FilteredIssues(issues, Criteria())
    }

    /**
      The joint load of the project and its issues finished: on success both are
      stored; on a failure of either call nothing is stored. Loading ends either way.
    */
    method Loaded(response: Option<(Project, seq<Issue>)>)
      modifies this`project, this`issues, this`loading
      ensures !loading
      ensures response.Some? ==> project == Some(response.value.0) && issues == response.value.1
      ensures response.None? ==> project == old(project) && issues == old(issues)
    {
      if response.Some? {
        project := Some(response.value.0);
        issues := response.value.1;
      }
      loading := false;
    }

    /**
      The create dialog handed back the server's new issue: append it and close the
      dialog. The table gains the new issue at the end when it passes the current
      filters, and is otherwise as it was.
    */
    method IssueCreated(newIssue: Issue)
      modifies this`issues, this`showCreateModal
      ensures issues == old(issues) + [newIssue]
      ensures !showCreateModal
      ensures VisibleIssues() ==
        old(VisibleIssues()) + (if IssueMatches(Criteria(), newIssue) then [newIssue] else [])
    {
      CreatedIssueShownLast(issues, newIssue, Criteria());
      issues := issues + [newIssue];
      showCreateModal := false;
    }

    /**
      Delete issue `issueId`: the call is made only when the user confirms, and the
      list loses every issue with that id only when the call succeeds; the table
      then loses exactly the shown issues with that id.
    */
    method DeleteIssue(issueId: int, confirmed: bool, deleteSucceeded: bool) returns (deleteRequested: bool)
      modifies this`issues
      ensures deleteRequested == confirmed
      ensures confirmed && deleteSucceeded ==> issues == WithoutId(old(issues), IssueId, issueId)
      ensures !(confirmed && deleteSucceeded) ==> issues == old(issues)
      ensures VisibleIssues() ==
        if confirmed && deleteSucceeded then WithoutId(old(VisibleIssues()), IssueId, issueId)
        else old(VisibleIssues())
    {
      DeleteThenFilter(issues, issueId, Criteria());
      deleteRequested := false;
      if confirmed {
        deleteRequested := true;
        if deleteSucceeded {
          issues := WithoutId(issues, IssueId, issueId);
        }
      }
    }
  }
}
