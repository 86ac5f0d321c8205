/** The records the back end serves and the payloads the screens send to it. */
module Types {
  import opened Wrappers
  import opened Text

  datatype IssueStatus = Active | OnHold | Resolved | Closed

  datatype ProjectStatus = ProjectActive | ProjectOnHold | Completed | Archived

  /** The wire name of an issue status. */
  function IssueStatusName(st: IssueStatus): string {
    match st
    case Active => "active"
    case OnHold => "on_hold"
    case Resolved => "resolved"
    case Closed => "closed"
  }

  /** The issue status a wire name denotes, if any. */
  function ParseIssueStatus(s: string): (r: Option<IssueStatus>)
    ensures forall st :: r == Some(st) <==> IssueStatusName(st) == s
  {
    if s == "active" then Some(Active)
    else if s == "on_hold" then Some(OnHold)
    else if s == "resolved" then Some(Resolved)
    else if s == "closed" then Some(Closed)
    else None
  }

  /** The wire name of a project status. */
  function ProjectStatusName(st: ProjectStatus): string {
    match st
    case ProjectActive => "active"
    case ProjectOnHold => "on_hold"
    case Completed => "completed"
    case Archived => "archived"
  }

  /** The project status a wire name denotes, if any. */
  function ParseProjectStatus(s: string): (r: Option<ProjectStatus>)
    ensures forall st :: r == Some(st) <==> ProjectStatusName(st) == s
  {
    if s == "active" then Some(ProjectActive)
    else if s == "on_hold" then Some(ProjectOnHold)
    else if s == "completed" then Some(Completed)
    else if s == "archived" then Some(Archived)
    else None
  }

  datatype User = User(id: int, name: string, email: string)

  datatype Project = Project(
    id: int,
    name: string,
    description: string,
    status: ProjectStatus,
    createdAt: string,
    updatedAt: string,
    issuesCount: Option<int>)

  /** An issue always has a reporter; its assignee and the embedded relations are optional. */
  datatype Issue = Issue(
    id: int,
    projectId: int,
    title: string,
    description: string,
    status: IssueStatus,
    assignedToId: Option<int>,
    reporterId: int,
    createdAt: string,
    updatedAt: string,
    assignedTo: Option<User>,
    reporter: Option<User>,
    comments: Option<seq<Comment>>,
    project: Option<Project>)

  /** JavaScript truthiness of `assigned_to_id`: absent, `null` and `0` are all falsy. */
  predicate HasAssignee(a: Option<int>) {
    a.Some? && a.value != 0
  }

  datatype Comment = Comment(
    id: int,
    issueId: int,
    userId: int,
    content: string,
    createdAt: string,
    updatedAt: string,
    user: Option<User>)

  /**
    The body of an issue create request: no id, project or timestamps. The numeric
    fields hold what `Number(...)` produced from the form, so they may be `NaN`.
  */
  datatype CreateIssueData = CreateIssueData(
    title: string,
    description: string,
    status: string,
    assignedToId: Option<Num>,
    reporterId: Num)

  datatype CreateCommentData = CreateCommentData(content: string, userId: int)

  function IssueId(i: Issue): int { i.id }

  function ProjectId(p: Project): int { p.id }
}
