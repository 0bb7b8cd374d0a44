/** The workspace service: the sidebar listing with per-project open-task
    counts, and three single-table writes. */
module WorkspaceService {
  import opened Wrappers
  import opened Tables
  import opened Entities
  import opened WorkspaceSchema
  import ProjectService
  import Store

  /** A project with `_count.tasks` over its open top-level tasks. */
  datatype ProjectWithCount = ProjectWithCount(project: Project, openTaskCount: nat)

  datatype WorkspaceWithProjects = WorkspaceWithProjects(workspace: Workspace, projects: seq<ProjectWithCount>)

  /** The tasks the count selects: `status: "OPEN", parentTaskId: null`. */
  function OpenTopLevel(projectId: Id): Task -> bool {
    (t: Task) => t.projectId == projectId && t.status == OPEN && t.parentTaskId.None?
  }

  function WithCount(d: Database, p: Project): (r: ProjectWithCount)
    ensures r.project == p
    ensures r.openTaskCount == |Filter(d.tasks, OpenTopLevel(p.id))|
    ensures r.openTaskCount <= |d.tasks|
  {
    ProjectWithCount(p, Count(d.tasks, OpenTopLevel(p.id)))
  }

  function WithCountOf(d: Database): Project -> ProjectWithCount { (p: Project) => WithCount(d, p) }

  function ProjectCreated(): (Project, Project) -> bool { ByKey((p: Project) => p.createdAt) }
  function WorkspaceCreated(): (Workspace, Workspace) -> bool { ByKey((w: Workspace) => w.createdAt) }

  function InWorkspace(workspaceId: Id): Project -> bool { (p: Project) => p.workspaceId == workspaceId }

  function ProjectsOf(r: seq<ProjectWithCount>): (ps: seq<Project>)
    ensures |ps| == |r| && forall i :: 0 <= i < |r| ==> ps[i] == r[i].project
  {
    MapRows(r, (x: ProjectWithCount) => x.project)
  }

  /** The projects of one workspace by `createdAt`, each with its count. */
  function ProjectCounts(d: Database, workspaceId: Id): (r: seq<ProjectWithCount>)
    ensures Sorted(ProjectsOf(r), ProjectCreated())
    ensures multiset(ProjectsOf(r)) == multiset(Filter(d.projects, InWorkspace(workspaceId)))
    ensures forall p :: p in ProjectsOf(r) <==> p in d.projects && p.workspaceId == workspaceId
    ensures forall i :: 0 <= i < |r| ==> r[i] == WithCount(d, r[i].project)
  {
    CountsOf(d, SortedProjects(d, workspaceId))
  }

  function SortedProjects(d: Database, workspaceId: Id): (ps: seq<Project>)
    ensures Sorted(ps, ProjectCreated())
    ensures multiset(ps) == multiset(Filter(d.projects, InWorkspace(workspaceId)))
    ensures forall p :: p in ps <==> p in d.projects && p.workspaceId == workspaceId
  {
    ByKeyIsTotalOrder((p: Project) => p.createdAt);
    var mine := Filter(d.projects, InWorkspace(workspaceId));
    var sorted := SortBy(mine, ProjectCreated());
    assert forall p :: p in sorted <==> p in multiset(mine);
    sorted
  }

  /** Each of `ps` with its count, in the same order. */
  function CountsOf(d: Database, ps: seq<Project>): (r: seq<ProjectWithCount>)
    ensures ProjectsOf(r) == ps
    ensures forall i :: 0 <= i < |r| ==> r[i] == WithCount(d, r[i].project)
  {
    var r := MapRows(ps, WithCountOf(d));
    assert forall i :: 0 <= i < |r| ==> r[i] == WithCountOf(d)(ps[i]);
    r
  }

  function WorkspaceView(d: Database, w: Workspace): WorkspaceWithProjects {
    WorkspaceWithProjects(w, ProjectCounts(d, w.id))
  }

  function WorkspaceViewOf(d: Database): Workspace -> WorkspaceWithProjects {
    (w: Workspace) => WorkspaceView(d, w)
  }

  function WorkspacesOf(r: seq<WorkspaceWithProjects>): (ws: seq<Workspace>)
    ensures |ws| == |r| && forall i :: 0 <= i < |r| ==> ws[i] == r[i].workspace
  {
    MapRows(r, (x: WorkspaceWithProjects) => x.workspace)
  }

  /** getWorkspaces: every workspace by `createdAt`. */
  function GetWorkspaces(d: Database): (r: seq<WorkspaceWithProjects>)
    ensures Sorted(WorkspacesOf(r), WorkspaceCreated())
    ensures multiset(WorkspacesOf(r)) == multiset(d.workspaces)
    ensures forall i :: 0 <= i < |r| ==> r[i] == WorkspaceView(d, r[i].workspace)
  {
    ByKeyIsTotalOrder((w: Workspace) => w.createdAt);
    ViewsOf(d, SortBy(d.workspaces, WorkspaceCreated()))
  }

  /** The view of each of `ws`, in the same order. */
  function ViewsOf(d: Database, ws: seq<Workspace>): (r: seq<WorkspaceWithProjects>)
    ensures WorkspacesOf(r) == ws
    ensures forall i :: 0 <= i < |r| ==> r[i] == WorkspaceView(d, r[i].workspace)
  {
    var r := MapRows(ws, WorkspaceViewOf(d));
    assert forall i :: 0 <= i < |r| ==> r[i] == WorkspaceViewOf(d)(ws[i]);
    r
  }

  /** getWorkspace(id): the same shape for one id, null when it is absent. */
  function GetWorkspace(d: Database, id: Id): (r: Option<WorkspaceWithProjects>)
    ensures r.None? <==> id !in Keys(d.workspaces, WorkspaceKey())
    ensures r.Some? ==> r.value.workspace in d.workspaces && r.value.workspace.id == id
    ensures r.Some? ==> r.value == WorkspaceView(d, r.value.workspace)
  {
    match Find(d.workspaces, WorkspaceKey(), id)
    case None => None
    case Some(w) => Some(WorkspaceView(d, w))
  }

  /** Each listed project belongs to the workspace, projects come by
      `createdAt`, and each count is the number of its open top-level tasks. */
  lemma WorkspaceViewExact(d: Database, w: Workspace, k: nat)
    requires k < |WorkspaceView(d, w).projects|
    ensures var pc := WorkspaceView(d, w).projects[k];
      && pc.project in d.projects && pc.project.workspaceId == w.id
      && pc.openTaskCount == |Filter(d.tasks, OpenTopLevel(pc.project.id))|
  {
    var r := ProjectCounts(d, w.id);
    assert ProjectsOf(r)[k] == r[k].project;
  }

  // ---------------------------------------------------------------------------
  // mutators
  // ---------------------------------------------------------------------------

  predicate FreshWorkspaceId(ws: seq<Workspace>, id: Id) { id !in Keys(ws, WorkspaceKey()) }

  /** createWorkspace stores the name and the caller's user id. */
  function CreateWorkspaceStep(d: Database, input: CreateWorkspaceInput, userId: Id, id: Id, now: int)
    : (o: Outcome<Workspace>)
    ensures o.result.Success?
    ensures o.result.value == Workspace(id, input.name, Some(userId), now)
    ensures o.db == d.(workspaces := d.workspaces + [o.result.value])
  {
    var w := Workspace(id, input.name, Some(userId), now);
    Outcome(d.(workspaces := d.workspaces + [w]), Success(w))
  }

  method CreateWorkspace(db: Store.Db, input: CreateWorkspaceInput, userId: Id, id: Id, now: int)
    returns (r: Result<Workspace, Error>)
    requires db.Valid() && FreshWorkspaceId(db.workspaces, id)
    modifies db
    ensures db.Valid()
    ensures Outcome(db.State(), r) == CreateWorkspaceStep(old(db.State()), input, userId, id, now)
  {
    var w := Workspace(id, input.name, Some(userId), now);
    AppendKeepsKeys(db.workspaces, WorkspaceKey(), w);
    db.workspaces := db.workspaces + [w];
    r := Success(w);
  }

  /** updateWorkspace writes only the name. */
  function UpdateWorkspaceStep(d: Database, input: UpdateWorkspaceInput): (o: Outcome<Workspace>)
    ensures o.result.Failure? <==> input.id !in Keys(d.workspaces, WorkspaceKey())
    ensures o.result.Failure? ==> o.db == d && o.result.error == RecordNotFound
    ensures o.result.Success? ==>
      var i := IndexOf(d.workspaces, WorkspaceKey(), input.id).value;
      o.db == d.(workspaces := d.workspaces[i := d.workspaces[i].(name := input.name)])
  {
    match IndexOf(d.workspaces, WorkspaceKey(), input.id)
    case None => Outcome(d, Failure(RecordNotFound))
    case Some(i) =>
      var w := d.workspaces[i].(name := input.name);
      Outcome(d.(workspaces := d.workspaces[i := w]), Success(w))
  }

  method UpdateWorkspace(db: Store.Db, input: UpdateWorkspaceInput) returns (r: Result<Workspace, Error>)
    requires db.Valid()
    modifies db
    ensures db.Valid()
    ensures Outcome(db.State(), r) == UpdateWorkspaceStep(old(db.State()), input)
  {
    var i := IndexOf(db.workspaces, WorkspaceKey(), input.id);
    if i.None? {
      return Failure(RecordNotFound);
    }
    var w := db.workspaces[i.value].(name := input.name);
    UpdateKeepsKeys(db.workspaces, WorkspaceKey(), i.value, w);
    db.workspaces := db.workspaces[i.value := w];
    r := Success(w);
  }

  /** The ids of the projects of workspace `id`. */
  function ProjectIdsIn(ps: seq<Project>, id: Id): set<Id> {
    set i | 0 <= i < |ps| && ps[i].workspaceId == id :: ps[i].id
  }

  function NotWorkspace(id: Id): Workspace -> bool { (w: Workspace) => w.id != id }

  /** deleteWorkspace removes the workspace and all its contents: its
      projects with their sections, tasks, subtasks and links. */
  function DeleteWorkspaceStep(d: Database, id: Id): (o: Outcome<Workspace>)
    ensures o.result.Failure? <==> id !in Keys(d.workspaces, WorkspaceKey())
    ensures o.result.Failure? ==> o.db == d && o.result.error == RecordNotFound
    ensures o.result.Success? ==> o.result.value in d.workspaces && o.result.value.id == id
    ensures o.result.Success? ==>
      o.db == ProjectService.RemoveProjects(d, ProjectIdsIn(d.projects, id)).(
        workspaces := Filter(d.workspaces, NotWorkspace(id)))
    ensures o.result.Success? ==>
      && (forall w :: w in o.db.workspaces ==> w.id != id)
      && (forall p :: p in o.db.projects ==> p.workspaceId != id)
  {
    match Find(d.workspaces, WorkspaceKey(), id)
    case None => Outcome(d, Failure(RecordNotFound))
    case Some(w) =>
      var mine := ProjectIdsIn(d.projects, id);
      var after := ProjectService.RemoveProjects(d, mine);
      forall p | p in after.projects ensures p.workspaceId != id {
        var i :| 0 <= i < |d.projects| && d.projects[i] == p;
      }
      Outcome(after.(workspaces := Filter(d.workspaces, NotWorkspace(id))), Success(w))
  }

  method DeleteWorkspace(db: Store.Db, id: Id) returns (r: Result<Workspace, Error>)
    requires db.Valid()
    modifies db
    ensures db.Valid()
    ensures Outcome(db.State(), r) == DeleteWorkspaceStep(old(db.State()), id)
  {
    var found := Find(db.workspaces, WorkspaceKey(), id);
    if found.None? {
      return Failure(RecordNotFound);
    }
    var mine := ProjectIdsIn(db.projects, id);
    ProjectService.RemoveProjectsKeepsConsistency(db.State(), mine);
    var after := ProjectService.RemoveProjects(db.State(), mine);
    FilterKeepsKeys(db.workspaces, WorkspaceKey(), NotWorkspace(id));
    db.workspaces := Filter(db.workspaces, NotWorkspace(id));
    db.projects, db.sections, db.tasks, db.taskTags := after.projects, after.sections, after.tasks, after.taskTags;
    r := Success(found.value);
  }
}
