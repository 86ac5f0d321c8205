/** The badge classes the screens give each status (`getStatusColor`). */
module StatusColors {
  import opened Wrappers
  import opened Types

  const Green := "bg-green-100 text-green-800"
  const Yellow := "bg-yellow-100 text-yellow-800"
  const Blue := "bg-blue-100 text-blue-800"
  const Gray := "bg-gray-100 text-gray-800"

  /** Issue badges: any string that is not an issue status falls back to gray, as `closed` does. */
  function IssueStatusColor(status: string): (r: string)
    ensures r in {Green, Yellow, Blue, Gray}
    ensures r == Gray <==> ParseIssueStatus(status) in {None, Some(Closed)}
    ensures ParseIssueStatus(status) == Some(Active) <==> r == Green
    ensures ParseIssueStatus(status) == Some(OnHold) <==> r == Yellow
    ensures ParseIssueStatus(status) == Some(Resolved) <==> r == Blue
  {
    match status
    case "active" => Green
    case "on_hold" => Yellow
    case "resolved" => Blue
    case "closed" => Gray
    case _ => Gray
  }

  /** Project badges: any string that is not a project status falls back to gray, as `archived` does. */
  function ProjectStatusColor(status: string): (r: string)
    ensures r in {Green, Yellow, Blue, Gray}
    ensures r == Gray <==> ParseProjectStatus(status) in {None, Some(Archived)}
    ensures ParseProjectStatus(status) == Some(ProjectActive) <==> r == Green
    ensures ParseProjectStatus(status) == Some(ProjectOnHold) <==> r == Yellow
    ensures ParseProjectStatus(status) == Some(Completed) <==> r == Blue
  {
    match status
    case "active" => Green
    case "on_hold" => Yellow
    case "completed" => Blue
    case "archived" => Gray
    case _ => Gray
  }
}
