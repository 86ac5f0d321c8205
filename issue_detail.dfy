/**
  The issue page: the issue under edit, its comments, the comment box, and the
  save, delete and add-comment actions.
*/
module IssueDetail {
  import opened Wrappers
  import opened Text
  import opened Types

  /** The changes the page's inputs make through `handleIssueChange`. */
  datatype IssueEdit =
    | SetTitle(title: string)
    | SetDescription(description: string)
    | SetAssignee(assignee: Option<int>)
    | SetStatus(status: IssueStatus)

  /** `{...issue, [field]: value}`: the edited field takes the new value, the others stay. */
  function ApplyEdit(issue: Issue, e: IssueEdit): (r: Issue)
    ensures r.title == if e.SetTitle? then e.title else issue.title
    ensures r.description == if e.SetDescription? then e.description else issue.description
    ensures r.assignedToId == if e.SetAssignee? then e.assignee else issue.assignedToId
    ensures r.status == if e.SetStatus? then e.status else issue.status
    ensures r.id == issue.id && r.projectId == issue.projectId && r.reporterId == issue.reporterId
    ensures r.createdAt == issue.createdAt && r.updatedAt == issue.updatedAt
    ensures r.assignedTo == issue.assignedTo && r.reporter == issue.reporter
    ensures r.comments == issue.comments && r.project == issue.project
  {
    match e
    case SetTitle(t) => issue.(title := t)
    case SetDescription(d) => issue.(description := d)
    case SetAssignee(a) => issue.(assignedToId := a)
    case SetStatus(s) => issue.(status := s)
  }

  /** The body of the save request: exactly the five editable fields of the issue. */
  datatype UpdateIssueData = UpdateIssueData(
    title: string,
    description: string,
    status: IssueStatus,
    assignedToId: Option<int>,
    reporterId: int)

  function SavePayload(issue: Issue): UpdateIssueData {
    UpdateIssueData(issue.title, issue.description, issue.status, issue.assignedToId, issue.reporterId)
  }

  /** An edit reaches the next save request in its own field and nowhere else. */
  lemma EditReachesSave(issue: Issue, e: IssueEdit)
    ensures SavePayload(ApplyEdit(issue, e)) ==
      match e
      case SetTitle(t) => SavePayload(issue).(title := t)
      case SetDescription(d) => SavePayload(issue).(description := d)
      case SetAssignee(a) => SavePayload(issue).(assignedToId := a)
      case SetStatus(s) => SavePayload(issue).(status := s)
  {
  }

  /** The value the assignee select shows: `issue.assigned_to_id || ''`. */
  function AssigneeSelectValue(a: Option<int>): (v: string)
    ensures v == "" <==> !HasAssignee(a)
    ensures HasAssignee(a) ==> IsCanonicalDecimal(v) && ParseDecimal(v) == Some(a.value)
  {
    if HasAssignee(a) then
      DecimalRoundTrip(a.value);
      DecimalString(a.value)
    else ""
  }

  /**
    The assignee the select's change handler stores: `null` for the empty option,
    otherwise `Number(value)`. A `NaN` would be stored as `NaN`, which is falsy and
    is sent as `null`, so it is represented by `None` like `null`.
  */
  function AssigneeFromSelect(value: string): (a: Option<int>)
    ensures value == "" ==> a == None
    ensures a.Some? ==> NumberOf(value) == Int(a.value)
    ensures a.None? && value != "" ==> NumberOf(value) == NaN
  {
    if value == "" then None
    else match NumberOf(value)
      case Int(n) => Some(n)
      case NaN => None
  }

  /** Choosing a user's option stores that user's id. */
  lemma SelectUserOption(userId: int)
    ensures AssigneeFromSelect(DecimalString(userId)) == Some(userId)
  {
    NumberOfDecimal(userId);
  }

  /**
    Reading the select's shown value back gives the assignee when it is truthy and
    `None` otherwise: an assignee id of 0 shows, and is re-stored, as unassigned.
  */
  lemma SelectRoundTrip(a: Option<int>)
    ensures AssigneeFromSelect(AssigneeSelectValue(a)) == if HasAssignee(a) then a else None
  {
    if HasAssignee(a) {
      SelectUserOption(a.value);
    }
  }

  /** `!newComment.trim()`: the comment is empty or white space only. */
  function CommentIsBlank(s: string): (blank: bool)
    ensures blank <==> forall i :: 0 <= i < |s| ==> IsSpace(s[i])
  {
    TrimEmptyIffBlank(s);
    Trim(s) == ""
  }

  class IssueDetailScreen {
    const projectId: int
    const issueId: int
    var issue: Option<Issue>
    var comments: seq<Comment>
    var loading: bool
    var saving: bool
    var newComment: string
    var selectedUser: int

    constructor (projectId: int, issueId: int)
      ensures this.projectId == projectId && this.issueId == issueId
      ensures issue == None && comments == [] && loading && !saving
      ensures newComment == "" && selectedUser == 1
    {
      this.projectId := projectId;
      this.issueId := issueId;
      issue := None;
      comments := [];
      loading := true;
      saving := false;
      newComment := "";
      selectedUser := 1;
    }

    /**
      The joint load of the issue and its comments finished: on success both are
      stored; on a failure of either call nothing is stored. Loading ends either way.
    */
    method Loaded(response: Option<(Issue, seq<Comment>)>)
      modifies this`issue, this`comments, this`loading
      ensures !loading
      ensures response.Some? ==> issue == Some(response.value.0) && comments == response.value.1
      ensures response.None? ==> issue == old(issue) && comments == old(comments)
    {
      if response.Some? {
        issue := Some(response.value.0);
        comments := response.value.1;
      }
      loading := false;
    }

    /**
      `handleAddComment`: a blank comment sends nothing; otherwise the typed text
      (untrimmed) is sent as the selected user, and only a created comment is
      appended and clears the box.
    */
    method AddComment(response: Option<Comment>) returns (request: Option<CreateCommentData>)
      modifies this`comments, this`newComment
      ensures request == if CommentIsBlank(old(newComment)) then None
                         else Some(CreateCommentData(old(newComment), selectedUser))
      ensures request.Some? && response.Some? ==>
        comments == old(comments) + [response.value] && newComment == ""
      ensures request.None? || response.None? ==>
        comments == old(comments) && newComment == old(newComment)
    {
      if CommentIsBlank(newComment) {
        request := None;
        return;
      }
      request := Some(CreateCommentData(newComment, selectedUser));
      if response.Some? {
        comments := comments + [response.value];
        newComment := "";
      }
    }

    /** `handleIssueChange`: edit the loaded issue in place; nothing happens before it is loaded. */
    method ChangeIssue(e: IssueEdit)
      modifies this`issue
      ensures issue == if old(issue).Some? then Some(ApplyEdit(old(issue).value, e)) else None
    {
      if issue.Some? {
        issue := Some(ApplyEdit(issue.value, e));
      }
    }

    /**
      The first half of `handleSave`: with an issue loaded, mark the save as out and
      send its five editable fields; with none, do nothing.
    */
    method BeginSave() returns (request: Option<UpdateIssueData>)
      modifies this`saving
      ensures issue.None? ==> request == None && saving == old(saving)
      ensures issue.Some? ==> request == Some(SavePayload(issue.value)) && saving
    {
      if issue.None? {
        request := None;
        return;
      }
      saving := true;
      request := Some(SavePayload(issue.value));
    }

    /**
      The second half of `handleSave`: whether the save succeeded or failed, the
      save is no longer out and the local issue is not replaced by the response.
      The two outcomes deliberately end in the same state: the handler only logs a
      failure and discards a success's response, so `saveSucceeded` is not read.
    */
    method FinishSave(saveSucceeded: bool)
      modifies this`saving
      ensures !saving
    {
      saving := false;
    }

    /**
      `handleDelete`: the delete call is made only for a loaded issue the user
      confirmed, and the page moves to the project only after the call succeeded.
    */
    method Delete(confirmed: bool, deleteSucceeded: bool) returns (deleteRequested: bool, navigateToProject: bool)
      ensures deleteRequested <==> issue.Some? && confirmed
      ensures navigateToProject <==> deleteRequested && deleteSucceeded
    {
      deleteRequested, navigateToProject := false, false;
      if issue.None? {
        return;
      }
      if confirmed {
        deleteRequested := true;
        navigateToProject := deleteSucceeded;
      }
    }
  }
}
