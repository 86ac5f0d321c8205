/**
  The "create issue" dialog: its form state, the request it builds from the form,
  the estimated next issue number, and the hand-over of the created issue to the
  project page that opened it.
*/
module CreateIssueModal {
  import opened Wrappers
  import opened Text
  import opened Seqs
  import opened Types
  import opened ProjectDetail

  /** A form value: `reporter_id` starts as the number 1; every edit stores the input's string. */
  datatype FormValue = StringValue(text: string) | NumberValue(number: int)

  datatype IssueForm = IssueForm(
    title: string,
    description: string,
    status: string,
    assignedToId: string,
    reporterId: FormValue)

  /** The `name` attributes of the dialog's inputs. */
  datatype FormField = TitleField | DescriptionField | StatusField | AssignedToField | ReporterField

  /** The form the dialog opens with: reporter 1, status "active", no assignee. */
  const InitialForm := IssueForm("", "", "active", "", NumberValue(1))

  function FieldValue(form: IssueForm, f: FormField): FormValue {
    match f
    case TitleField => StringValue(form.title)
    case DescriptionField => StringValue(form.description)
    case StatusField => StringValue(form.status)
    case AssignedToField => StringValue(form.assignedToId)
    case ReporterField => form.reporterId
  }

  /** `{...formData, [name]: value}`: the named field takes the input's string, the others stay. */
  function SetField(form: IssueForm, f: FormField, value: string): (r: IssueForm)
    ensures FieldValue(r, f) == StringValue(value)
    ensures forall g :: g != f ==> FieldValue(r, g) == FieldValue(form, g)
  {
    match f
    case TitleField => form.(title := value)
    case DescriptionField => form.(description := value)
    case StatusField => form.(status := value)
    case AssignedToField => form.(assignedToId := value)
    case ReporterField => form.(reporterId := StringValue(value))
  }

  /** Setting a field to the value it already holds leaves the form as it is. */
  lemma SetFieldToSameValue(form: IssueForm, f: FormField, value: string)
    requires FieldValue(form, f) == StringValue(value)
    ensures SetField(form, f, value) == form
  {
  }

  /**
    Whether the submit button is enabled (`disabled={loading || !formData.title}`):
    exactly when no request is out and the title is non-empty, so an enabled
    button never sends an untitled issue.
  */
  function CanSubmit(form: IssueForm, loading: bool): (enabled: bool)
    ensures enabled <==> !loading && FieldValue(form, TitleField) != StringValue("")
    ensures enabled ==> IssuePayload(form).title != ""
  {
    !loading && form.title != ""
  }

  /**
    Only the title input switches the button: an edit of any other field leaves
    it as it was, and the dialog opens with it disabled.
  */
  lemma SubmitFollowsTitle(form: IssueForm, f: FormField, value: string, loading: bool)
    ensures CanSubmit(SetField(form, f, value), loading)
      == if f == TitleField then !loading && value != "" else CanSubmit(form, loading)
    ensures !CanSubmit(InitialForm, loading)
  {
    if f != TitleField {
      assert FieldValue(SetField(form, f, value), TitleField) == FieldValue(form, TitleField);
    }
  }

  /** `Number(...)` applied to a form value. */
  function NumberOfValue(v: FormValue): Num {
    match v
    case NumberValue(n) => Int(n)
    case StringValue(s) => NumberOf(s)
  }

  /**
    The create request (`issueData`): the form's text fields as they are, no
    assignee when the select is empty and its numeric value otherwise, and the
    reporter as a number.
  */
  function IssuePayload(form: IssueForm): (p: CreateIssueData)
    ensures p.title == form.title && p.description == form.description && p.status == form.status
    ensures p.assignedToId == None <==> form.assignedToId == ""
    ensures form.assignedToId != "" ==> p.assignedToId == Some(NumberOf(form.assignedToId))
    ensures p.reporterId == NumberOfValue(form.reporterId)
  {
    CreateIssueData(
      form.title,
      form.description,
      form.status,
      if form.assignedToId != "" then Some(NumberOf(form.assignedToId)) else None,
      NumberOfValue(form.reporterId))
  }

  /** Submitting the untouched form asks for an unassigned, active issue reported by user 1. */
  lemma InitialPayload()
    ensures IssuePayload(InitialForm) == CreateIssueData("", "", "active", None, Int(1))
  {
  }

  /**
    The selects hold `''` or a user's id as a string; the request then carries
    exactly the chosen users' ids.
  */
  lemma PayloadOfChosenUsers(form: IssueForm, assignee: Option<int>, reporter: int)
    requires form.assignedToId == if assignee.Some? then DecimalString(assignee.value) else ""
    requires form.reporterId == StringValue(DecimalString(reporter))
    ensures IssuePayload(form).assignedToId == if assignee.Some? then Some(Int(assignee.value)) else None
    ensures IssuePayload(form).reporterId == Int(reporter)
  {
    if assignee.Some? {
      NumberOfDecimal(assignee.value);
    }
    NumberOfDecimal(reporter);
  }

  /** The ids of a list of issues. */
  function Ids(issues: seq<Issue>): (r: seq<int>)
    ensures |r| == |issues|
    ensures forall i :: 0 <= i < |issues| ==> r[i] == issues[i].id
  {
    seq(|issues|, i requires 0 <= i < |issues| => issues[i].id)
  }

  /** The estimated next issue number: one more than the largest held id, none for no issues. */
  function NextIssueEstimate(existing: seq<Issue>): (r: Option<int>)
    ensures r == None <==> existing == []
    ensures r.Some? ==> forall i :: 0 <= i < |existing| ==> existing[i].id < r.value
    ensures r.Some? ==> exists i :: 0 <= i < |existing| && existing[i].id == r.value - 1
  {
    if existing == [] then None else Some(MaxOf(Ids(existing)) + 1)
  }

  /** `getNextIssueNumber`: the text of the read-only "issue number" field. */
  function NextIssueNumber(existing: seq<Issue>): (r: string)
    ensures r == "Will be assigned automatically" <==> existing == []
    ensures existing != [] ==> |r| > |" (estimated)"| && r[0] == '#'
    ensures existing != [] ==> r[|r| - |" (estimated)"|..] == " (estimated)"
    ensures existing != [] ==>
      ParseDecimal(r[1..|r| - |" (estimated)"|]) == NextIssueEstimate(existing)
    ensures existing != [] ==> IsCanonicalDecimal(r[1..|r| - |" (estimated)"|])
  {
    match NextIssueEstimate(existing)
    case None => "Will be assigned automatically"
    case Some(n) =>
      var digits := DecimalString(n);
      var r := "#" + digits + " (estimated)";
      assert r[0] != "Will be assigned automatically"[0];
      assert r[1..|r| - |" (estimated)"|] == digits;
      assert r[|r| - |" (estimated)"|..] == " (estimated)";
      DecimalRoundTrip(n);
      r
  }

  class CreateIssueModalState {
    const projectId: int
    const owner: ProjectDetailScreen
    const existingIssues: seq<Issue>
    var formData: IssueForm
    var loading: bool

    constructor (projectId: int, owner: ProjectDetailScreen, existingIssues: seq<Issue>)
      ensures this.projectId == projectId && this.owner == owner && this.existingIssues == existingIssues
      ensures formData == InitialForm && !loading
    {
      this.projectId := projectId;
      this.owner := owner;
      this.existingIssues := existingIssues;
      formData := InitialForm;
      loading := false;
    }

    /** The state of the submit button for the current form. */
    function SubmitEnabled(): bool
      reads this
    {
      CanSubmit(formData, loading)
    }

    /** `handleChange`: an input of the form changed. */
    method HandleChange(field: FormField, value: string)
      modifies this`formData
      ensures formData == SetField(old(formData), field, value)
    {
      formData := SetField(formData, field, value);
    }

    /** The first half of `handleSubmit`: mark the request as out and build it from the form. */
    method BeginSubmit() returns (request: CreateIssueData)
      modifies this`loading
      ensures loading && !SubmitEnabled()
      ensures request == IssuePayload(formData)
    {
      loading := true;
      request := IssuePayload(formData);
    }

    /**
      The second half of `handleSubmit`: on success the server's issue goes to the
      owning page (`onIssueCreated`), on failure nothing is handed over and the form
      keeps what was entered; either way the request is no longer out.
    */
    method FinishSubmit(response: Option<Issue>)
      modifies this`loading, owner`issues, owner`showCreateModal
      ensures !loading
      ensures response.Some? ==> owner.issues == old(owner.issues) + [response.value] && !owner.showCreateModal
      ensures response.None? ==> owner.issues == old(owner.issues) && owner.showCreateModal == old(owner.showCreateModal)
    {
      if response.Some? {
        owner.IssueCreated(response.value);
      }
      loading := false;
    }
  }
}
