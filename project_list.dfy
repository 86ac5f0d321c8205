/**
  The project list page: the projects, the name search over them, and the local
  list patched after a project is created or deleted.
*/
module ProjectList {
  import opened Wrappers
  import opened Seqs
  import opened Types
  import opened Search

  /** `filteredProjects`: the projects whose name contains the term, ignoring case, in list order. */
  function FilteredProjects(projects: seq<Project>, searchTerm: string): (r: seq<Project>)
    ensures IsSubsequence(r, projects)
    ensures forall p :: p in r <==> p in projects && MatchesSearch(p.name, searchTerm)
  {
    Filter(projects, (p: Project) => MatchesSearch(p.name, searchTerm))
  }

  /** An empty search shows every project, in order. */
  lemma EmptySearchShowsAllProjects(projects: seq<Project>)
    ensures FilteredProjects(projects, "") == projects
  {
    forall k | 0 <= k < |projects| ensures MatchesSearch(projects[k].name, "") {
      EmptyTermMatches(projects[k].name);
    }
    FilterKeepsAll(projects, (p: Project) => MatchesSearch(p.name, ""));
  }

  /** A created project appears at the end of the shown list exactly when its name matches. */
  lemma CreatedProjectShownLast(projects: seq<Project>, created: Project, searchTerm: string)
    ensures FilteredProjects(projects + [created], searchTerm) ==
            FilteredProjects(projects, searchTerm) + (if MatchesSearch(created.name, searchTerm) then [created] else [])
  {
    FilterConcat(projects, [created], (p: Project) => MatchesSearch(p.name, searchTerm));
    assert [created][1..] == [];
  }

  /** Deleting from the held list and then filtering equals deleting from the shown list. */
  lemma DeleteThenFilterProjects(projects: seq<Project>, k: int, searchTerm: string)
    ensures FilteredProjects(WithoutId(projects, ProjectId, k), searchTerm)
         == WithoutId(FilteredProjects(projects, searchTerm), ProjectId, k)
  {
    FilterWithoutId(projects, ProjectId, k, (p: Project) => MatchesSearch(p.name, searchTerm));
  }

  /**
    "No projects found." is shown exactly when loading is over and no held project's
    name matches the search.
  */
  function NoProjectsFound(projects: seq<Project>, searchTerm: string, loading: bool): (r: bool)
    ensures r <==> !loading && forall p :: p in projects ==> !MatchesSearch(p.name, searchTerm)
  {
    var shown := FilteredProjects(projects, searchTerm);
    assert shown != [] ==> shown[0] in shown;
    |shown| == 0 && !loading
  }

  class ProjectListScreen {
    var projects: seq<Project>
    var loading: bool
    var searchTerm: string
    var showCreateModal: bool

    constructor ()
      ensures projects == [] && loading && searchTerm == "" && !showCreateModal
    {
      projects := [];
      loading := true;
      searchTerm := "";
      showCreateModal := false;
    }

    /** The projects the grid shows. */
    function VisibleProjects(): seq<Project>
      reads this
    {
      FilteredProjects(projects, searchTerm)
    }

    /** Whether the page shows "No projects found.". */
    function ShowsNoProjects(): bool
      reads this
    {
      NoProjectsFound(projects, searchTerm, loading)
    }

    /**
      The project list arrived (`Some`) or the call failed (`None`); loading ends
      either way, so from then on "No projects found." is shown exactly when the
      grid is empty.
    */
    method Loaded(response: Option<seq<Project>>)
      modifies this`projects, this`loading
      ensures !loading
      ensures projects == if response.Some? then response.value else old(projects)
      ensures ShowsNoProjects() <==> VisibleProjects() == []
    {
      if response.Some? {
        projects := response.value;
      }
      loading := false;
    }

    /**
      The create dialog handed back the server's new project: append it and close
      the dialog. The grid gains the new project at the end when its name matches
      the search, and is otherwise as it was.
    */
    method ProjectCreated(newProject: Project)
      modifies this`projects, this`showCreateModal
      ensures projects == old(projects) + [newProject]
      ensures !showCreateModal
      ensures VisibleProjects() ==
        old(VisibleProjects()) + (if MatchesSearch(newProject.name, searchTerm) then [newProject] else [])
    {
      CreatedProjectShownLast(projects, newProject, searchTerm);
      projects := projects + [newProject];
      showCreateModal := false;
    }

    /**
      Delete project `projectId`: the call is made only when the user confirms, and
      the list loses every project with that id only when the call succeeds; the
      grid then loses exactly the shown projects with that id.
    */
    method DeleteProject(projectId: int, confirmed: bool, deleteSucceeded: bool) returns (deleteRequested: bool)
      modifies this`projects
      ensures deleteRequested == confirmed
      ensures confirmed && deleteSucceeded ==> projects == WithoutId(old(projects), ProjectId, projectId)
      ensures !(confirmed && deleteSucceeded) ==> projects == old(projects)
      ensures VisibleProjects() ==
        if confirmed && deleteSucceeded then WithoutId(old(VisibleProjects()), ProjectId, projectId)
        else old(VisibleProjects())
    {
      DeleteThenFilterProjects(projects, projectId, searchTerm);
      deleteRequested := false;
      if confirmed {
        deleteRequested := true;
        if deleteSucceeded {
          projects := WithoutId(projects, ProjectId, projectId);
        }
      }
    }
  }
}
