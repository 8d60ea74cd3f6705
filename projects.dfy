/**
 * services/project.service.ts: the project table `mockProjects`.
 *
 * getProjectById joins the project with its category from
 * `mockProjectCategories`, absent when the category id dangles.
 * getProjectsByStatus takes the status as a string and compares it with the
 * stored status's name, so a string that names no status selects nothing.
 */
module ProjectService {
  import opened Wrappers
  import opened Records
  import opened Tables
  import opened MockData

  /** `ProjectWithCategory`: `{ ...project, category }`. */
  datatype ProjectWithCategory = ProjectWithCategory(project: Project, category: Option<Category>)

  function StatusNamed(status: string): Project -> bool { (p: Project) => p.status.Name() == status }

  /** getProjects: a copy of the whole table, in store order. */
  function GetProjects(db: MockDb): (r: seq<Project>)
    reads db
    ensures r == db.projects
  {
    db.projects
  }

  /** getProjectById: absent for an unknown id; otherwise the first match with its category. */
  function GetProjectById(db: MockDb, id: Id): (r: Option<ProjectWithCategory>)
    reads db
    ensures FirstMatch(db.projects, ProjectId, id, if r.Some? then Some(r.value.project) else None)
    ensures r.Some? ==> FirstMatch(db.projectCategories, CategoryId, r.value.project.category_id, r.value.category)
  {
    match Find(db.projects, ProjectId, id)
    case None => None
    case Some(p) => Some(ProjectWithCategory(p, Find(db.projectCategories, CategoryId, p.category_id)))
  }

  /** getProjectsByStatus: the projects whose status is named `status`, each as often as it is stored, and no other. */
  function GetProjectsByStatus(db: MockDb, status: string): (r: seq<Project>)
    reads db
    ensures forall x :: x in r <==> x in db.projects && x.status.Name() == status
    ensures forall x :: multiset(r)[x] == if x.status.Name() == status then multiset(db.projects)[x] else 0
    ensures (forall st: ProjectStatus :: st.Name() != status) ==> r == []
  {
    WhereMembers(db.projects, StatusNamed(status));
    WhereMultiset(db.projects, StatusNamed(status));
    var r := Where(db.projects, StatusNamed(status));
    assert |r| > 0 ==> r[0] in r;
    r
  }

  /** createProject: `{ id: generateId(), created_at: generateTimestamp(), ...projectData }`, pushed at the end. */
  method CreateProject(db: MockDb, draft: Project, freshId: Id, now: string) returns (p: Project)
    modifies db`projects
    ensures p == draft.(id := freshId, created_at := now)
    ensures db.projects == old(db.projects) + [p]
    ensures IndexOf(old(db.projects), ProjectId, freshId) == -1 ==>
      Find(db.projects, ProjectId, freshId) == Some(p) &&
      (UniqueKeys(old(db.projects), ProjectId) ==> UniqueKeys(db.projects, ProjectId))
  {
    var projects := db.projects;
    p := draft.(id := freshId, created_at := now);
    db.projects := db.projects + [p];
    if IndexOf(projects, ProjectId, freshId) == -1 {
      AppendFreshKey(projects, ProjectId, p);
    }
  }

  /** updateProject: absent and no change for an unknown id; otherwise the first match becomes `{ ...old, ...projectData }`. */
  method UpdateProject(db: MockDb, id: Id, patch: ProjectPatch) returns (r: Option<Project>)
    modifies db`projects
    ensures var i := IndexOf(old(db.projects), ProjectId, id);
      if i == -1 then r.None? else r == Some(MergeProject(old(db.projects)[i], patch))
    ensures db.projects == UpdateFirst(old(db.projects), ProjectId, id, MergeProject, patch)
    ensures patch.id.None? && r.Some? ==> Find(db.projects, ProjectId, id) == r
    ensures patch.id.None? && UniqueKeys(old(db.projects), ProjectId) ==> UniqueKeys(db.projects, ProjectId)
  {
    var projects := db.projects;
    var index := IndexOf(db.projects, ProjectId, id);
    if index == -1 {
      return None;
    }
    db.projects := db.projects[index := MergeProject(db.projects[index], patch)];
    r := Some(db.projects[index]);
    if patch.id.None? {
      UpdateThenFind(projects, ProjectId, id, MergeProject, patch);
      if UniqueKeys(projects, ProjectId) {
        UpdateKeepsUnique(projects, ProjectId, id, MergeProject, patch);
      }
    }
  }

  /** deleteProject: false and no change for an unknown id; otherwise the first match is spliced out. */
  method DeleteProject(db: MockDb, id: Id) returns (deleted: bool)
    modifies db`projects
    ensures var i := IndexOf(old(db.projects), ProjectId, id);
      deleted == (i != -1) &&
      if i == -1 then db.projects == old(db.projects) else db.projects == RemoveAt(old(db.projects), i)
    ensures deleted && UniqueKeys(old(db.projects), ProjectId) ==>
      Find(db.projects, ProjectId, id).None? && UniqueKeys(db.projects, ProjectId)
    ensures db.artworks == old(db.artworks) && db.projectCategories == old(db.projectCategories)
  {
    var projects := db.projects;
    var index := IndexOf(db.projects, ProjectId, id);
    if index == -1 {
      return false;
    }
    db.projects := RemoveAt(db.projects, index);
    if UniqueKeys(projects, ProjectId) {
      RemoveFoundKey(projects, ProjectId, id);
      RemoveAtUnique(projects, ProjectId, index);
    }
    return true;
  }
}
