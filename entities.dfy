/**
 * The rows of the Prisma tables, the whole database as one value, the errors
 * the services raise, and the consistency the services keep.
 */
module Entities {
  import opened Wrappers
  import opened Tables

  type Id = string

  datatype Status = OPEN | COMPLETED

  /** Timestamps are milliseconds since the epoch. */
  datatype Workspace = Workspace(id: Id, name: string, userId: Option<Id>, createdAt: int)

  datatype Project = Project(id: Id, workspaceId: Id, name: string, createdAt: int)

  datatype Section = Section(id: Id, projectId: Id, name: string, order: int)

  datatype Task = Task(
    id: Id,
    userId: Option<Id>,
    projectId: Id,
    sectionId: Option<Id>,
    parentTaskId: Option<Id>,
    name: string,
    description: Option<string>,
    deadlineAt: Option<int>,
    status: Status,
    effort: Option<int>,
    order: int,
    createdAt: int,
    updatedAt: int)

  datatype Tag = Tag(id: Id, userId: Option<Id>, name: string, color: Option<string>)

  /** A row of the task-tag link table. */
  datatype TaskTag = TaskTag(taskId: Id, tagId: Id)

  /** Every table, rows in insertion order. */
  datatype Database = Database(
    workspaces: seq<Workspace>,
    projects: seq<Project>,
    sections: seq<Section>,
    tasks: seq<Task>,
    tags: seq<Tag>,
    taskTags: seq<TaskTag>)

  const Empty := Database([], [], [], [], [], [])

  /** An exception a service raises: an `Error` it throws itself, or Prisma's
      "record to update/delete does not exist". */
  datatype Error = Thrown(message: string) | RecordNotFound

  const ParentNotFound := Thrown("Parent task not found")
  const NestingTooDeep := Thrown("Subtasks cannot have subtasks (one-level nesting only)")
  const TaskNotFound := Thrown("Task not found")
  const NotFound := Thrown("Not found")

  /** The state after a service call and what the call returned or threw.
      A throw after an earlier write leaves that write in place. */
  datatype Outcome<+T> = Outcome(db: Database, result: Result<T, Error>)

  // ---------------------------------------------------------------------------
  // primary keys
  // ---------------------------------------------------------------------------

  function WorkspaceKey(): Workspace -> Id { (w: Workspace) => w.id }
  function ProjectKey(): Project -> Id { (p: Project) => p.id }
  function SectionKey(): Section -> Id { (s: Section) => s.id }
  function TaskKey(): Task -> Id { (t: Task) => t.id }
  function TagKey(): Tag -> Id { (t: Tag) => t.id }

  function TaskIds(ts: seq<Task>): set<Id> { Keys(ts, TaskKey()) }

  function FindTask(ts: seq<Task>, id: Id): Option<Task> { Find(ts, TaskKey(), id) }

  // ---------------------------------------------------------------------------
  // subtask nesting
  // ---------------------------------------------------------------------------

  /** A parent reference the service follows: JavaScript truthiness of a
      nullable id, so both null and "" count as no parent. */
  predicate Linked(parent: Option<Id>) { parent.Some? && parent.value != "" }

  /** Every followed parent reference names an existing task. */
  predicate ParentsExist(ts: seq<Task>) {
    forall i :: 0 <= i < |ts| && Linked(ts[i].parentTaskId) ==> ts[i].parentTaskId.value in TaskIds(ts)
  }

  /** No task whose parent is a row has a parent that itself has a parent. */
  predicate OneLevel(ts: seq<Task>) {
    forall i, j ::
      (0 <= i < |ts| && 0 <= j < |ts| &&
       Linked(ts[i].parentTaskId) && ts[i].parentTaskId.value == ts[j].id) ==>
      !Linked(ts[j].parentTaskId)
  }

  predicate TaskIdsNonEmpty(ts: seq<Task>) {
    forall i :: 0 <= i < |ts| ==> ts[i].id != ""
  }

  predicate TasksConsistent(ts: seq<Task>) {
    UniqueKeys(ts, TaskKey()) && TaskIdsNonEmpty(ts) && ParentsExist(ts) && OneLevel(ts)
  }

  /** What the services keep true of the database. */
  predicate Consistent(d: Database) {
    && UniqueKeys(d.workspaces, WorkspaceKey())
    && UniqueKeys(d.projects, ProjectKey())
    && UniqueKeys(d.sections, SectionKey())
    && UniqueKeys(d.tags, TagKey())
    && TasksConsistent(d.tasks)
  }

  lemma EmptyIsConsistent()
    ensures Consistent(Empty)
  {
  }

  // ---------------------------------------------------------------------------
  // a cascading delete of tasks
  // ---------------------------------------------------------------------------

  /** A task goes with a delete of the tasks with ids `doomed`: it is one of
      them, or its parent is (subtask rows cascade). */
  predicate Gone(doomed: set<Id>, t: Task) {
    t.id in doomed || (Linked(t.parentTaskId) && t.parentTaskId.value in doomed)
  }

  function Survives(doomed: set<Id>): Task -> bool { (t: Task) => !Gone(doomed, t) }

  /** The ids of every task removed by the cascade. */
  function GoneIds(ts: seq<Task>, doomed: set<Id>): set<Id> {
    set i | 0 <= i < |ts| && Gone(doomed, ts[i]) :: ts[i].id
  }

  function LinkSurvives(gone: set<Id>): TaskTag -> bool { (l: TaskTag) => l.taskId !in gone }

  /** Removes the doomed tasks, their subtasks and the links of both. */
  function RemoveTasks(d: Database, doomed: set<Id>): (r: Database)
    ensures r.workspaces == d.workspaces && r.projects == d.projects
    ensures r.sections == d.sections && r.tags == d.tags
    ensures forall t :: t in r.tasks <==> t in d.tasks && !Gone(doomed, t)
    ensures forall l :: l in r.taskTags <==> l in d.taskTags && l.taskId !in GoneIds(d.tasks, doomed)
  {
    d.(tasks := Filter(d.tasks, Survives(doomed)),
       taskTags := Filter(d.taskTags, LinkSurvives(GoneIds(d.tasks, doomed))))
  }

  /** The cascade keeps the tasks consistent: a surviving subtask's parent
      survives too, because the parent is not a subtask itself. */
  lemma RemoveTasksConsistent(ts: seq<Task>, doomed: set<Id>)
    requires TasksConsistent(ts)
    ensures TasksConsistent(Filter(ts, Survives(doomed)))
  {
    var keep := Survives(doomed);
    var r := Filter(ts, keep);
    FilterKeepsKeys(ts, TaskKey(), keep);
    forall i | 0 <= i < |r| && Linked(r[i].parentTaskId)
      ensures r[i].parentTaskId.value in TaskIds(r)
    {
      assert r[i] in ts;
      var c :| 0 <= c < |ts| && ts[c] == r[i];
      var p := r[i].parentTaskId.value;
      var j :| 0 <= j < |ts| && ts[j].id == p;
      assert !Linked(ts[j].parentTaskId);
      assert keep(ts[j]);
      assert ts[j] in r;
      var m :| 0 <= m < |r| && r[m] == ts[j];
      assert TaskKey()(r[m]) == p;
    }
    forall i, j | 0 <= i < |r| && 0 <= j < |r| &&
      Linked(r[i].parentTaskId) && r[i].parentTaskId.value == r[j].id
      ensures !Linked(r[j].parentTaskId)
    {
      assert r[i] in ts && r[j] in ts;
      var a :| 0 <= a < |ts| && ts[a] == r[i];
      var b :| 0 <= b < |ts| && ts[b] == r[j];
    }
    forall i | 0 <= i < |r| ensures r[i].id != "" {
      assert r[i] in ts;
    }
  }

  lemma RemoveTasksKeepsConsistency(d: Database, doomed: set<Id>)
    requires Consistent(d)
    ensures Consistent(RemoveTasks(d, doomed))
  {
    RemoveTasksConsistent(d.tasks, doomed);
  }

  /** Rewriting every task without touching ids or parents keeps the tasks consistent. */
  lemma MapTasksKeepsConsistency(ts: seq<Task>, f: Task -> Task)
    requires TasksConsistent(ts)
    requires forall t :: f(t).id == t.id && f(t).parentTaskId == t.parentTaskId
    ensures TasksConsistent(MapRows(ts, f))
  {
    MapKeepsKeys(ts, TaskKey(), f);
  }
}
