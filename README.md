# Issue tracker front end: the client-side state model

This project models the logic of a React front end for a small issue tracker
(projects, their issues, and comments on issues). The logic lives in three
screens and one dialog:

- the **project list**, which holds the projects and filters them by a name search;
- the **project page**, which holds one project's issues and filters them by title
  search, status and assignee;
- the **create-issue dialog**, which holds a form and builds a create request from it;
- the **issue page**, which holds one issue under edit, its comments and a comment box.

After each server call a screen patches its held list from the call's outcome:
a created record is appended, and a deleted id is filtered out. It does not
reload the list. The model keeps each screen as a class with the screen's state
as fields. The network outcome and the user's answer to the confirmation prompt
are method parameters. The filters and the request payloads are pure functions.
The string operations they rely on (`toLowerCase`, `includes`, `trim`,
`toString`, `Number(...)`) are defined in module `Text`. `Array.prototype.filter`
and `Math.max` are defined in module `Seqs`.

Modules: `Wrappers` (Option), `Text`, `Seqs`, `Types` (the records of
`src/types/index.ts`), `Search` (the case-insensitive search),
`StatusColors` (`getStatusColor`), `ProjectDetail`, `ProjectList`,
`CreateIssueModal` and `IssueDetail`.

`getStatusColor` in `src/components/IssueDetail.tsx:102-115` is the same table
as the one in `src/components/ProjectDetail.tsx:56-69`. Both are modelled by
`StatusColors.IssueStatusColor`.

The model follows the code, including these points:

- The assignee filter compares `assigned_to_id.toString()` with the selected
  string. It does not compare numbers. An assignee id of `0` is falsy, so it
  counts as unassigned.
- A failed create, save, delete or comment call is only logged. The held state
  stays as it was, and no error state is recorded.
- The save response is discarded. The local issue is not replaced with it.
- A failed load leaves the project or issue absent, and the page then reports it
  as not found. Errors are not classified by kind.
- The create dialog's handler does not check the title itself. Only the submit
  button's `disabled` condition (`CanSubmit`) and the input's `required`
  attribute guard it.

## Model

| member | source | states |
|---|---|---|
| Text.ToLower | src/components/ProjectDetail.tsx:72 | `toLowerCase` keeps the length, maps each character by ASCII case folding, and leaves no upper-case letter |
| Text.ToLowerIgnoresCasing | src/components/ProjectList.tsx:47 | lower-casing forgets the casing: it is idempotent and undoes upper-casing |
| Text.ContainsIffOffset | src/components/ProjectDetail.tsx:72 | `includes` holds exactly when the needle occurs at some offset (both directions) |
| Text.ContainsEmpty | src/components/ProjectList.tsx:47 | the empty string is included in every string |
| Text.SameIgnoringCaseIffSameLower | src/components/ProjectDetail.tsx:72 | two texts differ only in the casing of letters exactly when their lower-case forms are equal |
| Text.TrimStart | src/components/IssueDetail.tsx:82 | the leading part dropped is all white space, and the rest is kept, starting with a non-white-space character or empty |
| Text.TrimEnd | src/components/IssueDetail.tsx:82 | the trailing part dropped is all white space, and the rest is kept, ending with a non-white-space character or empty |
| Text.Trim | src/components/IssueDetail.tsx:82 | `trim` returns a contiguous part of the input with only white space before and after it, and that part neither starts nor ends with white space |
| Text.TrimEmptyIffBlank | src/components/IssueDetail.tsx:82 | a string trims to `''` exactly when every character is white space |
| Text.DecimalString | src/components/ProjectDetail.tsx:76 | `toString` of an integer is an optional minus and then digits with no leading zero (zero is `0`, never `-0`); it starts with a minus iff the integer is negative |
| Text.CanonicalDecimalRoundTrip | src/components/ProjectDetail.tsx:76 | every string of that form parses to an integer whose `toString` is the string again, so the form and the integers correspond one to one |
| Text.DecimalRoundTrip | src/components/IssueDetail.tsx:263 | parsing the decimal form of an integer gives that integer back |
| Text.DecimalStringInjective | src/components/ProjectDetail.tsx:76 | different ids have different decimal strings |
| Text.NumberOf | src/components/CreateIssueModal.tsx:44-45 | `Number(s)` gives 0 for a blank string; any integer it gives is the decimal value of the trimmed string; for a non-blank string it is `NaN` exactly when the trimmed string is not a decimal integer |
| Text.NumberOfDecimal | src/components/CreateIssueModal.tsx:44-45 | `Number(n.toString())` is `n` |
| Seqs.Filter | src/components/ProjectDetail.tsx:71 | `filter` keeps exactly the elements that pass the predicate, in their original order (a subsequence) |
| Seqs.FilterConcat | src/components/ProjectDetail.tsx:71 | filtering a concatenation filters each part and concatenates the results |
| Seqs.FilterKeepsAll | src/components/ProjectDetail.tsx:71 | when every element passes, `filter` returns the list unchanged |
| Seqs.FilterCount | src/components/ProjectDetail.tsx:49 | a passing element keeps all its occurrences; a failing one has none |
| Seqs.WithoutId | src/components/ProjectDetail.tsx:49 | removing id k leaves no element with id k and keeps every other element, in order |
| Seqs.WithoutAbsentId | src/components/ProjectList.tsx:39 | removing an id the list does not hold changes nothing |
| Seqs.WithoutIdCount | src/components/ProjectList.tsx:39 | after removing id k, each element with another id keeps its exact number of occurrences |
| Seqs.FilterWithoutId | src/components/ProjectDetail.tsx:49 | removing an id and filtering give the same list in either order |
| Seqs.MaxOf | src/components/CreateIssueModal.tsx:69 | `Math.max` of a non-empty list is an element of the list and at least every element |
| Types.ParseIssueStatus | src/types/index.ts:22 | the wire names `active`, `on_hold`, `resolved`, `closed` denote exactly the four issue statuses, both ways |
| Types.ParseProjectStatus | src/types/index.ts:11 | the wire names `active`, `on_hold`, `completed`, `archived` denote exactly the four project statuses, both ways |
| Search.EmptyTermMatches | src/components/ProjectList.tsx:46-48 | the empty search term matches every name or title |
| Search.SearchIgnoresCase | src/components/ProjectDetail.tsx:72 | re-casing any letters of the text and of the term does not change whether they match |
| Search.SearchIgnoresUpperAndLower | src/components/ProjectList.tsx:47 | upper-casing the text or the term, or lower-casing both, does not change whether they match |
| StatusColors.IssueStatusColor | src/components/ProjectDetail.tsx:56-69 | `active`, `on_hold` and `resolved` each get their own class; `closed` and every other string get gray |
| StatusColors.ProjectStatusColor | src/components/ProjectList.tsx:50-63 | `active`, `on_hold` and `completed` each get their own class; `archived` and every other string get gray |
| ProjectDetail.FilteredIssues | src/components/ProjectDetail.tsx:71-79 | the shown issues are a subsequence of the held ones; an issue is shown iff it passes the search, status and assignee tests |
| ProjectDetail.NoCriteriaShowsAllIssues | src/components/ProjectDetail.tsx:14-16 | with the initial criteria (`''`, `all`, `all`), every issue is shown, in order |
| ProjectDetail.StatusFilterIsExact | src/components/ProjectDetail.tsx:73 | a status filter other than `all` shows only issues whose status name equals it; a filter naming no status shows nothing |
| ProjectDetail.DecimalIsNoKeyword | src/components/ProjectDetail.tsx:74-76 | no id's decimal string is `all` or `unassigned` |
| ProjectDetail.UnassignedFilterIff | src/components/ProjectDetail.tsx:75 | `unassigned` matches exactly the issues whose `assigned_to_id` is falsy |
| ProjectDetail.AssigneeIdFilterIff | src/components/ProjectDetail.tsx:76 | the filter value of a non-zero user id matches exactly the issues assigned to that user |
| ProjectDetail.CreatedIssueShownLast | src/components/ProjectDetail.tsx:40-43 | after a create, the shown list is the old shown list plus the new issue at the end iff the new issue passes the filters |
| ProjectDetail.DeleteThenFilter | src/components/ProjectDetail.tsx:49 | removing an id from the held list and then filtering gives the same list as removing it from the shown list |
| ProjectDetail.ActiveFilterExample | src/components/ProjectDetail.tsx:71-79 | given issue 1 (active, unassigned) and issue 2 (closed, assignee 5), the `active` filter shows only issue 1 |
| ProjectDetail.ProjectDetailScreen.constructor | src/components/ProjectDetail.tsx:11-17 | the page starts loading, with no project, no issues, the criteria `''`/`all`/`all` and the dialog closed |
| ProjectDetail.ProjectDetailScreen.Loaded | src/components/ProjectDetail.tsx:19-32 | a successful joint load stores the project and its issues; a failure stores neither; loading ends either way |
| ProjectDetail.ProjectDetailScreen.IssueCreated | src/components/ProjectDetail.tsx:40-43 | the held issues become the old issues plus the server's issue at the end, the dialog closes, and nothing else changes; the table shows its old rows plus the new issue at the end iff that issue passes the current filters |
| ProjectDetail.ProjectDetailScreen.DeleteIssue | src/components/ProjectDetail.tsx:45-54 | a call is made iff the user confirms; only a confirmed, successful delete removes every issue with that id; otherwise the list is unchanged; the table loses exactly its rows with that id on a confirmed success and is unchanged otherwise |
| ProjectList.FilteredProjects | src/components/ProjectList.tsx:46-48 | the shown projects are a subsequence of the held ones; a project is shown iff its name contains the term, ignoring case |
| ProjectList.EmptySearchShowsAllProjects | src/components/ProjectList.tsx:46-48 | an empty search term shows every project, in order |
| ProjectList.CreatedProjectShownLast | src/components/ProjectList.tsx:30-33 | after a create, the shown list is the old shown list plus the new project at the end iff its name matches the search |
| ProjectList.DeleteThenFilterProjects | src/components/ProjectList.tsx:39 | removing an id from the held list and then filtering gives the same list as removing it from the shown list |
| ProjectList.NoProjectsFound | src/components/ProjectList.tsx:168 | "No projects found." is shown iff loading is over and no held project's name matches the search |
| ProjectList.ProjectListScreen.constructor | src/components/ProjectList.tsx:10-13 | the page starts loading, with no projects, an empty search and the dialog closed |
| ProjectList.ProjectListScreen.Loaded | src/components/ProjectList.tsx:19-28 | a successful load stores the projects; a failure keeps the old ones; loading ends either way; from then on "No projects found." is shown exactly when the grid is empty |
| ProjectList.ProjectListScreen.ProjectCreated | src/components/ProjectList.tsx:30-33 | the held projects become the old projects plus the server's project at the end, and the dialog closes; the grid shows its old cards plus the new project at the end iff its name matches the search |
| ProjectList.ProjectListScreen.DeleteProject | src/components/ProjectList.tsx:35-44 | a call is made iff the user confirms; only a confirmed, successful delete removes every project with that id; otherwise the list is unchanged; the grid loses exactly its cards with that id on a confirmed success and is unchanged otherwise |
| CreateIssueModal.SetField | src/components/CreateIssueModal.tsx:56-61 | the named field takes the input's string and every other field keeps its value |
| CreateIssueModal.SetFieldToSameValue | src/components/CreateIssueModal.tsx:56-61 | storing the value a field already holds leaves the form unchanged |
| CreateIssueModal.IssuePayload | src/components/CreateIssueModal.tsx:42-46 | the request carries the form's text fields; the assignee is absent iff the select is `''` and is `Number(value)` otherwise; the reporter is `Number(reporter_id)` |
| CreateIssueModal.InitialPayload | src/components/CreateIssueModal.tsx:14-20 | submitting the untouched form requests an unassigned `active` issue reported by user 1 |
| CreateIssueModal.PayloadOfChosenUsers | src/components/CreateIssueModal.tsx:181-201 | when the selects hold user ids (or `''` for no assignee), the request carries exactly those ids |
| CreateIssueModal.NextIssueEstimate | src/components/CreateIssueModal.tsx:68-70 | there is no estimate iff there are no issues; otherwise the estimate is one more than an existing id and greater than every existing id |
| CreateIssueModal.NextIssueNumber | src/components/CreateIssueModal.tsx:63-71 | the text is "Will be assigned automatically" iff there are no issues; otherwise it is `#`, then the canonical decimal string (no leading zero, no `-0`) that parses to the estimate, then ` (estimated)`, so by `Text.CanonicalDecimalRoundTrip` it is exactly `#${maxId + 1} (estimated)` |
| CreateIssueModal.CanSubmit | src/components/CreateIssueModal.tsx:213 | the submit button is enabled exactly when no request is out and the title is non-empty, so an enabled button never sends an untitled issue |
| CreateIssueModal.SubmitFollowsTitle | src/components/CreateIssueModal.tsx:213 | editing the title enables the button iff the new title is non-empty and no request is out; editing any other field leaves it as it was; the initial form has it disabled |
| CreateIssueModal.CreateIssueModalState.constructor | src/components/CreateIssueModal.tsx:13-22 | the dialog opens with the initial form (reporter 1, status `active`) and no request out |
| CreateIssueModal.CreateIssueModalState.HandleChange | src/components/CreateIssueModal.tsx:56-61 | the form becomes the old form with only the named field replaced |
| CreateIssueModal.CreateIssueModalState.BeginSubmit | src/components/CreateIssueModal.tsx:37-46 | the request is built from the current form; loading is set, so submit is disabled while the call is out |
| CreateIssueModal.CreateIssueModalState.FinishSubmit | src/components/CreateIssueModal.tsx:47-53 | only a successful create hands the server's issue to the owning page, which appends it and closes the dialog; the form is kept; loading ends either way |
| IssueDetail.ApplyEdit | src/components/IssueDetail.tsx:96-100 | the edited field takes the new value and every other field of the issue is unchanged |
| IssueDetail.EditReachesSave | src/components/IssueDetail.tsx:54-60 | an edit changes the next save request in that field and no other |
| IssueDetail.AssigneeSelectValue | src/components/IssueDetail.tsx:262 | the select shows `''` exactly when the assignee is falsy; otherwise it shows the canonical decimal string of the id, which parses back to the id |
| IssueDetail.AssigneeFromSelect | src/components/IssueDetail.tsx:263 | the empty option gives no assignee; any assignee it gives is `Number(value)` |
| IssueDetail.SelectUserOption | src/components/IssueDetail.tsx:263 | choosing a user's option stores that user's id |
| IssueDetail.SelectRoundTrip | src/components/IssueDetail.tsx:262-263 | reading back the shown value keeps a truthy assignee and turns a falsy one (including id 0) into none |
| IssueDetail.CommentIsBlank | src/components/IssueDetail.tsx:82 | `!newComment.trim()` holds exactly when the comment is empty or all white space |
| IssueDetail.IssueDetailScreen.constructor | src/components/IssueDetail.tsx:10-16 | the page starts loading, with no issue, no comments, an empty comment box and user 1 selected |
| IssueDetail.IssueDetailScreen.Loaded | src/components/IssueDetail.tsx:18-31 | a successful joint load stores the issue and its comments; a failure stores neither; loading ends either way |
| IssueDetail.IssueDetailScreen.AddComment | src/components/IssueDetail.tsx:81-94 | a blank comment sends nothing; otherwise the untrimmed text and the selected user id are passed to the create call; only a created comment is appended and clears the box |
| IssueDetail.IssueDetailScreen.ChangeIssue | src/components/IssueDetail.tsx:96-100 | a loaded issue gets the edit; before the load nothing happens |
| IssueDetail.IssueDetailScreen.BeginSave | src/components/IssueDetail.tsx:49-60 | with an issue loaded, saving is set and exactly its five editable fields are sent; with none, nothing happens |
| IssueDetail.IssueDetailScreen.FinishSave | src/components/IssueDetail.tsx:61-65 | after success or failure, saving is cleared and the local issue is not replaced |
| IssueDetail.IssueDetailScreen.Delete | src/components/IssueDetail.tsx:68-79 | a delete call is made iff an issue is loaded and the user confirms; the page navigates to the project iff that call succeeded; the state is unchanged |

## Left out

- `src/services/api.ts` (HTTP calls) is not part of this model. Each call's outcome is a method parameter: `Some(record)` or `true` for success, `None` or `false` for failure.
- The comment calls do not match the client's signatures. `IssueDetail.tsx:22` passes one argument where `api.ts:33` takes two, and `IssueDetail.tsx:85` passes two where `api.ts:34` takes three. The model does not capture the request this would actually send; it takes the response as given.
- `window.confirm` is a boolean parameter. `console.error` logging is not modelled.
- `Promise.all`, `useEffect` and the interleaving of async handlers are concurrency and framework behaviour. A handler with an in-flight flag is split into a begin and a finish method. Other handlers run as one step.
- The plain state setters are not modelled as methods: the search box, the status and assignee selects, the comment box, the comment author select, and opening or closing a dialog. Their targets are fields of the classes.
- The users list (`loadUsers`) only fills select options, so it is not modelled.
- JSX rendering, CSS beyond the status tables, icons, dates (`toLocaleDateString`, `toISOString`), `Navbar.tsx` and `App.tsx` are not modelled. This includes the empty-table text at `ProjectDetail.tsx:263-267`.
- `CreateProjectModal` is not part of this model; its source is not available.
- Numbers are unbounded integers in this model, whereas JavaScript numbers are IEEE doubles. Ids and form numbers are assumed to be safe integers (magnitude at most 2^53 - 1). Above that, `maxId + 1` can round and `toString` switches to exponent form at 10^21.
- CreateIssueModal.NextIssueEstimate: is one more than the largest id without rounding, which holds only when that id is a safe integer.
- Text.DecimalString: always gives plain digits; JavaScript gives exponent form from 10^21 on.
- Text.ToLower: folds ASCII letters only, not the full Unicode case mapping of `toLowerCase`.
- Text.NumberOf: recognises blank strings and optionally negative decimal integers only. A sign `+`, fractions, exponents, hexadecimal and `Infinity` are treated as `NaN`. Integers beyond 2^53 - 1 keep their exact value rather than rounding. The selects only produce user ids or `''`.
- IssueDetail.AssigneeFromSelect: a `NaN` result is represented as no assignee, because it is falsy and is sent as `null`.
- `null` and `undefined` are both represented by `None`. The save request therefore does not distinguish a cleared assignee (`null`, sent) from a missing one (`undefined`, omitted).
- IssueDetail.ApplyEdit: the status edit takes an issue status, not an arbitrary string, because the status select offers only the four statuses.
