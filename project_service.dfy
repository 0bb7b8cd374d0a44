/** The project service: two read views and three single-table writes. */
module ProjectService {
  import opened Wrappers
  import opened Tables
  import opened Entities
  import opened Views
  import opened ProjectSchema
  import Text
  import Store

  // ---------------------------------------------------------------------------
  // getAllProjects
  // ---------------------------------------------------------------------------

  /** `select: { id, name }`. */
  datatype ProjectSummary = ProjectSummary(id: Id, name: string)

  function Summary(): Project -> ProjectSummary { (p: Project) => ProjectSummary(p.id, p.name) }

  /** `orderBy: { name: "asc" }`, by code points. */
  function ByName(): (ProjectSummary, ProjectSummary) -> bool {
    (a: ProjectSummary, b: ProjectSummary) => Text.LexLeq(a.name, b.name)
  }

  lemma ByNameIsTotalOrder()
    ensures Total(ByName()) && Transitive(ByName())
  {
    forall a: ProjectSummary, b: ProjectSummary ensures ByName()(a, b) || ByName()(b, a) {
      Text.LexLeqTotal(a.name, b.name);
    }
    forall a: ProjectSummary, b: ProjectSummary, c: ProjectSummary | ByName()(a, b) && ByName()(b, c)
      ensures ByName()(a, c)
    {
      Text.LexLeqTransitive(a.name, b.name, c.name);
    }
  }

  /** Every project's id and name, by name. */
  function AllProjects(d: Database): (r: seq<ProjectSummary>)
    ensures Sorted(r, ByName())
    ensures multiset(r) == multiset(MapRows(d.projects, Summary()))
  {
    ByNameIsTotalOrder();
    SortBy(MapRows(d.projects, Summary()), ByName())
  }

  /** The listing holds the id and name of every project and nothing else. */
  lemma AllProjectsExact(d: Database, x: ProjectSummary)
    ensures x in AllProjects(d) <==> exists p :: p in d.projects && x == ProjectSummary(p.id, p.name)
  {
    var all := MapRows(d.projects, Summary());
    assert x in AllProjects(d) <==> x in multiset(all);
    if x in all {
      var j :| 0 <= j < |all| && all[j] == x;
      assert d.projects[j] in d.projects;
    }
    if exists p :: p in d.projects && x == ProjectSummary(p.id, p.name) {
      var p :| p in d.projects && x == ProjectSummary(p.id, p.name);
      var i :| 0 <= i < |d.projects| && d.projects[i] == p;
      assert all[i] == x;
    }
  }

  // ---------------------------------------------------------------------------
  // getProject
  // ---------------------------------------------------------------------------

  datatype SectionWithTasks = SectionWithTasks(section: Section, tasks: seq<TaskWithRelations>)

  datatype ProjectWithSections = ProjectWithSections(
    project: Project, sections: seq<SectionWithTasks>, tasks: seq<TaskWithRelations>)

  function BySectionOrder(): (Section, Section) -> bool { ByKey((s: Section) => s.order) }

  function InProject(projectId: Id): Section -> bool { (s: Section) => s.projectId == projectId }

  /** The tasks a section lists: its top-level tasks. */
  function TopInSection(sectionId: Id): Task -> bool {
    (t: Task) => t.sectionId == Some(sectionId) && t.parentTaskId.None?
  }

  /** The tasks the project lists outside sections: top-level and unsectioned. */
  function Unsectioned(projectId: Id): Task -> bool {
    (t: Task) => t.projectId == projectId && t.parentTaskId.None? && t.sectionId.None?
  }

  function SectionsOf(r: seq<SectionWithTasks>): (ss: seq<Section>)
    ensures |ss| == |r| && forall i :: 0 <= i < |r| ==> ss[i] == r[i].section
  {
    MapRows(r, (x: SectionWithTasks) => x.section)
  }

  function SectionView(d: Database, s: Section): SectionWithTasks {
    SectionWithTasks(s, ExpandedByOrder(d, Filter(d.tasks, TopInSection(s.id))))
  }

  /** A section lists exactly its top-level tasks, by `order`. */
  lemma SectionViewExact(d: Database, s: Section)
    ensures SectionView(d, s).section == s
    ensures Sorted(ItemTasks(SectionView(d, s).tasks), ByOrder())
    ensures forall t :: t in ItemTasks(SectionView(d, s).tasks) <==>
      t in d.tasks && t.sectionId == Some(s.id) && t.parentTaskId.None?
  {
  }

  function SectionViewOf(d: Database): Section -> SectionWithTasks { (s: Section) => SectionView(d, s) }

  /** The project's sections by `order`, each with its tasks. */
  function SectionViews(d: Database, projectId: Id): (r: seq<SectionWithTasks>)
    ensures Sorted(SectionsOf(r), BySectionOrder())
    ensures multiset(SectionsOf(r)) == multiset(Filter(d.sections, InProject(projectId)))
    ensures forall s :: s in SectionsOf(r) <==> s in d.sections && s.projectId == projectId
    ensures forall i :: 0 <= i < |r| ==> r[i] == SectionView(d, r[i].section)
  {
    ViewsOf(d, SortedSections(d, projectId))
  }

  /** The project's sections by `order`. */
  function SortedSections(d: Database, projectId: Id): (ss: seq<Section>)
    ensures Sorted(ss, BySectionOrder())
    ensures multiset(ss) == multiset(Filter(d.sections, InProject(projectId)))
    ensures forall s :: s in ss <==> s in d.sections && s.projectId == projectId
  {
    ByKeyIsTotalOrder((s: Section) => s.order);
    var mine := Filter(d.sections, InProject(projectId));
    var sorted := SortBy(mine, BySectionOrder());
    assert forall s :: s in sorted <==> s in multiset(mine);
    sorted
  }

  /** The view of each of `ss`, in the same order. */
  function ViewsOf(d: Database, ss: seq<Section>): (r: seq<SectionWithTasks>)
    ensures SectionsOf(r) == ss
    ensures forall i :: 0 <= i < |r| ==> r[i] == SectionView(d, r[i].section)
  {
    var r := MapRows(ss, SectionViewOf(d));
    assert forall i :: 0 <= i < |r| ==> r[i] == SectionViewOf(d)(ss[i]);
    assert forall i :: 0 <= i < |r| ==> r[i].section == ss[i];
    r
  }

  /** getProject(id): null for an unknown id. */
  function GetProject(d: Database, id: Id): (r: Option<ProjectWithSections>)
    ensures r.None? <==> id !in Keys(d.projects, ProjectKey())
    ensures r.Some? ==> r.value.project in d.projects && r.value.project.id == id
    ensures r.Some? ==> r.value.sections == SectionViews(d, id)
    ensures r.Some? ==>
      && Sorted(ItemTasks(r.value.tasks), ByOrder())
      && multiset(ItemTasks(r.value.tasks)) == multiset(Filter(d.tasks, Unsectioned(id)))
      && (forall t :: t in ItemTasks(r.value.tasks) <==>
            t in d.tasks && t.projectId == id && t.parentTaskId.None? && t.sectionId.None?)
      && (forall i :: 0 <= i < |r.value.tasks| ==> Sorted(r.value.tasks[i].subtasks, ByOrder()))
  {
    match Find(d.projects, ProjectKey(), id)
    case None => None
    case Some(p) =>
      var tasks := ExpandedByOrder(d, Filter(d.tasks, Unsectioned(id)));
      assert forall i :: 0 <= i < |tasks| ==> tasks[i] == Expand(d, ItemTasks(tasks)[i]);
      Some(ProjectWithSections(p, SectionViews(d, id), tasks))
  }

  /** Every listed section belongs to the project, in `order`, and lists
      exactly its top-level tasks in `order`. */
  lemma GetProjectSections(d: Database, id: Id, k: nat)
    requires GetProject(d, id).Some? && k < |GetProject(d, id).value.sections|
    ensures var sv := GetProject(d, id).value.sections[k];
      && sv.section in d.sections && sv.section.projectId == id
      && Sorted(ItemTasks(sv.tasks), ByOrder())
      && (forall t :: t in ItemTasks(sv.tasks) <==>
            t in d.tasks && t.sectionId == Some(sv.section.id) && t.parentTaskId.None?)
  {
    var r := GetProject(d, id).value.sections;
    assert SectionsOf(r)[k] == r[k].section;
    assert r[k] == SectionView(d, r[k].section);
    SectionViewExact(d, r[k].section);
  }

  // ---------------------------------------------------------------------------
  // mutators
  // ---------------------------------------------------------------------------

  predicate FreshProjectId(ps: seq<Project>, id: Id) { id !in Keys(ps, ProjectKey()) }

  /** createProject stores exactly the workspace id and the name. */
  function CreateProjectStep(d: Database, input: CreateProjectInput, id: Id, now: int): (o: Outcome<Project>)
    ensures o.result.Success?
    ensures o.result.value == Project(id, input.workspaceId, input.name, now)
    ensures o.db == d.(projects := d.projects + [o.result.value])
  {
    var p := Project(id, input.workspaceId, input.name, now);
    Outcome(d.(projects := d.projects + [p]), Success(p))
  }

  method CreateProject(db: Store.Db, input: CreateProjectInput, id: Id, now: int) returns (r: Result<Project, Error>)
    requires db.Valid() && FreshProjectId(db.projects, id)
    modifies db
    ensures db.Valid()
    ensures Outcome(db.State(), r) == CreateProjectStep(old(db.State()), input, id, now)
  {
    var p := Project(id, input.workspaceId, input.name, now);
    AppendKeepsKeys(db.projects, ProjectKey(), p);
    db.projects := db.projects + [p];
    r := Success(p);
  }

  /** updateProject writes only the name. */
  function UpdateProjectStep(d: Database, input: UpdateProjectInput): (o: Outcome<Project>)
    ensures o.result.Failure? <==> input.id !in Keys(d.projects, ProjectKey())
    ensures o.result.Failure? ==> o.db == d && o.result.error == RecordNotFound
    ensures o.result.Success? ==>
      var i := IndexOf(d.projects, ProjectKey(), input.id).value;
      o.db == d.(projects := d.projects[i := d.projects[i].(name := input.name)])
  {
    match IndexOf(d.projects, ProjectKey(), input.id)
    case None => Outcome(d, Failure(RecordNotFound))
    case Some(i) =>
      var p := d.projects[i].(name := input.name);
      Outcome(d.(projects := d.projects[i := p]), Success(p))
  }

  method UpdateProject(db: Store.Db, input: UpdateProjectInput) returns (r: Result<Project, Error>)
    requires db.Valid()
    modifies db
    ensures db.Valid()
    ensures Outcome(db.State(), r) == UpdateProjectStep(old(db.State()), input)
  {
    var i := IndexOf(db.projects, ProjectKey(), input.id);
    if i.None? {
      return Failure(RecordNotFound);
    }
    var p := db.projects[i.value].(name := input.name);
    UpdateKeepsKeys(db.projects, ProjectKey(), i.value, p);
    db.projects := db.projects[i.value := p];
    r := Success(p);
  }

  /** The ids of the tasks of the projects `projectIds`. */
  function TasksOfProjects(ts: seq<Task>, projectIds: set<Id>): set<Id> {
    set i | 0 <= i < |ts| && ts[i].projectId in projectIds :: ts[i].id
  }

  function OutsideProjects(projectIds: set<Id>): Section -> bool {
    (s: Section) => s.projectId !in projectIds
  }

  function NotIn(projectIds: set<Id>): Project -> bool { (p: Project) => p.id !in projectIds }

  /** The ids of the sections of the projects `projectIds`. */
  function SectionsOfProjects(ss: seq<Section>, projectIds: set<Id>): set<Id> {
    set i | 0 <= i < |ss| && ss[i].projectId in projectIds :: ss[i].id
  }

  /** A task whose section is removed loses its section, as on a section delete. */
  function UnsectionTask(t: Task, gone: set<Id>): Task {
    if t.sectionId.Some? && t.sectionId.value in gone then t.(sectionId := None) else t
  }

  function UnsectionFrom(gone: set<Id>): Task -> Task { (t: Task) => UnsectionTask(t, gone) }

  /** Removes the projects `projectIds` with their contents: their sections,
      their tasks with those tasks' subtasks, and the links of all of them.
      A surviving task that was filed under a removed section (a section of
      another project) becomes unsectioned. */
  function RemoveProjects(d: Database, projectIds: set<Id>): (r: Database)
    ensures r.workspaces == d.workspaces && r.tags == d.tags
    ensures forall p :: p in r.projects <==> p in d.projects && p.id !in projectIds
    ensures forall s :: s in r.sections <==> s in d.sections && s.projectId !in projectIds
    ensures forall u :: u in d.tasks && !Gone(TasksOfProjects(d.tasks, projectIds), u) ==>
      UnsectionTask(u, SectionsOfProjects(d.sections, projectIds)) in r.tasks
    ensures forall t :: t in r.tasks ==> t.projectId !in projectIds
    ensures forall t :: t in r.tasks && t.sectionId.Some? ==>
      t.sectionId.value !in SectionsOfProjects(d.sections, projectIds)
    ensures forall l :: l in r.taskTags <==>
      l in d.taskTags && l.taskId !in GoneIds(d.tasks, TasksOfProjects(d.tasks, projectIds))
  {
    var doomed := TasksOfProjects(d.tasks, projectIds);
    var gone := SectionsOfProjects(d.sections, projectIds);
    var f := UnsectionFrom(gone);
    var d' := RemoveTasks(d, doomed);
    var tasks := MapRows(d'.tasks, f);
    forall u | u in d'.tasks ensures UnsectionTask(u, gone) in tasks && u.projectId !in projectIds {
      var i :| 0 <= i < |d'.tasks| && d'.tasks[i] == u;
      assert tasks[i] == f(u);
      var k :| 0 <= k < |d.tasks| && d.tasks[k] == u;
    }
    d'.(projects := Filter(d.projects, NotIn(projectIds)),
        sections := Filter(d.sections, OutsideProjects(projectIds)),
        tasks := tasks)
  }

  /** Every task left after the cascade is a surviving task, unsectioned
      when its section went. */
  lemma RemoveProjectsTasksFrom(d: Database, projectIds: set<Id>, t: Task)
    requires t in RemoveProjects(d, projectIds).tasks
    ensures exists u :: (u in d.tasks && !Gone(TasksOfProjects(d.tasks, projectIds), u) &&
      t == UnsectionTask(u, SectionsOfProjects(d.sections, projectIds)))
  {
    var d' := RemoveTasks(d, TasksOfProjects(d.tasks, projectIds));
    var tasks := RemoveProjects(d, projectIds).tasks;
    var i :| 0 <= i < |tasks| && tasks[i] == t;
    assert d'.tasks[i] in d'.tasks;
  }

  lemma RemoveProjectsKeepsConsistency(d: Database, projectIds: set<Id>)
    requires Consistent(d)
    ensures Consistent(RemoveProjects(d, projectIds))
  {
    var d' := RemoveTasks(d, TasksOfProjects(d.tasks, projectIds));
    RemoveTasksKeepsConsistency(d, TasksOfProjects(d.tasks, projectIds));
    MapTasksKeepsConsistency(d'.tasks, UnsectionFrom(SectionsOfProjects(d.sections, projectIds)));
    FilterKeepsKeys(d.projects, ProjectKey(), NotIn(projectIds));
    FilterKeepsKeys(d.sections, SectionKey(), OutsideProjects(projectIds));
  }

  /** deleteProject removes the project and all its contents. */
  function DeleteProjectStep(d: Database, id: Id): (o: Outcome<Project>)
    ensures o.result.Failure? <==> id !in Keys(d.projects, ProjectKey())
    ensures o.result.Failure? ==> o.db == d && o.result.error == RecordNotFound
    ensures o.result.Success? ==> o.result.value in d.projects && o.result.value.id == id
    ensures o.result.Success? ==> o.db == RemoveProjects(d, {id})
  {
    match Find(d.projects, ProjectKey(), id)
    case None => Outcome(d, Failure(RecordNotFound))
    case Some(p) => Outcome(RemoveProjects(d, {id}), Success(p))
  }

  method DeleteProject(db: Store.Db, id: Id) returns (r: Result<Project, Error>)
    requires db.Valid()
    modifies db
    ensures db.Valid()
    ensures Outcome(db.State(), r) == DeleteProjectStep(old(db.State()), id)
  {
    var found := Find(db.projects, ProjectKey(), id);
    if found.None? {
      return Failure(RecordNotFound);
    }
    var before := db.State();
    RemoveProjectsKeepsConsistency(before, {id});
    var after := RemoveProjects(before, {id});
    assert after.workspaces == db.workspaces && after.tags == db.tags;
    db.projects, db.sections, db.tasks, db.taskTags := after.projects, after.sections, after.tasks, after.taskTags;
    assert db.State() == after;
    r := Success(found.value);
  }
}
