/**
 * The task service. Each mutator is a method on the store; its effect is the
 * step function of the same operation, whose contract states what the
 * operation promises. The queries are functions of the database.
 */
module TaskService {
  import opened Wrappers
  import opened Tables
  import opened Entities
  import opened Views
  import opened TaskSchema
  import Validation
  import Text
  import Store

  // ---------------------------------------------------------------------------
  // createTask
  // ---------------------------------------------------------------------------

  /** The sibling group a new task joins: same project, section and parent,
      null matching only null. */
  function InGroup(projectId: Id, sectionId: Option<Id>, parentTaskId: Option<Id>): Task -> bool {
    (t: Task) => t.projectId == projectId && t.sectionId == sectionId && t.parentTaskId == parentTaskId
  }

  function OrderOf(): Task -> int { (t: Task) => t.order }

  /** The order of a new task: one more than the highest order in its group,
      or 0 for an empty group. */
  function NewOrder(ts: seq<Task>, projectId: Id, sectionId: Option<Id>, parentTaskId: Option<Id>): (r: int)
    ensures forall t :: t in ts && InGroup(projectId, sectionId, parentTaskId)(t) ==> t.order < r
    ensures (forall t :: t in ts ==> !InGroup(projectId, sectionId, parentTaskId)(t)) ==> r == 0
    ensures (exists t :: t in ts && InGroup(projectId, sectionId, parentTaskId)(t)) ==>
              exists t :: t in ts && InGroup(projectId, sectionId, parentTaskId)(t) && t.order == r - 1
  {
    NextPositionIsAppend(ts, InGroup(projectId, sectionId, parentTaskId), OrderOf());
    NextPosition(ts, InGroup(projectId, sectionId, parentTaskId), OrderOf())
  }

  /** The parent check of createTask: nothing to check without a (truthy)
      parent id; otherwise the parent must exist and must not be a subtask. */
  function ParentError(ts: seq<Task>, parentTaskId: Option<Id>): (r: Option<Error>)
    ensures !Linked(parentTaskId) ==> r == None
    ensures r == Some(ParentNotFound) <==> Linked(parentTaskId) && parentTaskId.value !in TaskIds(ts)
    ensures r == Some(NestingTooDeep) ==>
      exists t :: t in ts && t.id == parentTaskId.value && Linked(t.parentTaskId)
    ensures r.None? && Linked(parentTaskId) ==>
      exists t :: t in ts && t.id == parentTaskId.value && !Linked(t.parentTaskId)
    ensures r == None || r == Some(ParentNotFound) || r == Some(NestingTooDeep)
  {
    if !Linked(parentTaskId) then None
    else
      match FindTask(ts, parentTaskId.value)
      case None => Some(ParentNotFound)
      case Some(parent) => if Linked(parent.parentTaskId) then Some(NestingTooDeep) else None
  }

  /** With unique ids the check looks at the one row carrying the parent id. */
  lemma ParentCheckExact(ts: seq<Task>, parentTaskId: Option<Id>, j: nat)
    requires UniqueKeys(ts, TaskKey()) && j < |ts|
    requires Linked(parentTaskId) && ts[j].id == parentTaskId.value
    ensures ParentError(ts, parentTaskId) == if Linked(ts[j].parentTaskId) then Some(NestingTooDeep) else None
  {
    FindUnique(ts, TaskKey(), j);
  }

  /** The three cases of the nesting tests: a top-level parent is accepted,
      a subtask parent and a missing parent are refused. */
  lemma NestingTestCases(top: Task, sub: Task)
    requires top.id == "task-1" && top.parentTaskId.None?
    requires sub.id == "subtask-1" && sub.parentTaskId == Some("task-1")
    ensures ParentError([top], Some("task-1")) == None
    ensures ParentError([top, sub], Some("subtask-1")) == Some(NestingTooDeep)
    ensures ParentError([], Some("task-1")) == Some(ParentNotFound)
  {
    ParentCheckExact([top], Some("task-1"), 0);
    assert |top.id| != |sub.id|;
    ParentCheckExact([top, sub], Some("subtask-1"), 1);
  }

  /** The row createTask stores: absent optional fields become null, the
      status starts OPEN, both timestamps are `now`. */
  function NewTaskRow(input: CreateTaskInput, id: Id, order: int, now: int): Task {
    Task(id, None, input.projectId, input.sectionId, input.parentTaskId, input.name,
         input.description, input.deadlineAt, OPEN, input.effort, order, now, now)
  }

  predicate FreshTaskId(ts: seq<Task>, id: Id) {
    id != "" && id !in TaskIds(ts)
  }

  /** One link per listed tag, in list order. */
  function NewLinks(taskId: Id, tagIds: seq<Id>): (r: seq<TaskTag>)
    ensures |r| == |tagIds| && forall i :: 0 <= i < |r| ==> r[i] == TaskTag(taskId, tagIds[i])
  {
    if tagIds == [] then [] else [TaskTag(taskId, tagIds[0])] + NewLinks(taskId, tagIds[1..])
  }

  /** The links createTask adds: only for a non-empty tag list. */
  function CreatedLinks(input: CreateTaskInput, id: Id): seq<TaskTag> {
    if input.tagIds.Some? && |input.tagIds.value| > 0 then NewLinks(id, input.tagIds.value) else []
  }

  function CreateTaskStep(d: Database, input: CreateTaskInput, id: Id, now: int): (o: Outcome<TaskWithRelations>)
    ensures o.result.Failure? <==> ParentError(d.tasks, input.parentTaskId).Some?
    ensures o.result.Failure? ==> o.db == d && ParentError(d.tasks, input.parentTaskId) == Some(o.result.error)
    ensures o.result.Success? ==>
      && o.db == d.(tasks := d.tasks + [o.result.value.task], taskTags := d.taskTags + CreatedLinks(input, id))
      && o.result.value.task ==
           NewTaskRow(input, id, NewOrder(d.tasks, input.projectId, input.sectionId, input.parentTaskId), now)
      && o.result.value == Expand(o.db, o.result.value.task)
  {
    var err := ParentError(d.tasks, input.parentTaskId);
    if err.Some? then Outcome(d, Failure(err.value))
    else
      var row := NewTaskRow(input, id, NewOrder(d.tasks, input.projectId, input.sectionId, input.parentTaskId), now);
      var d' := d.(tasks := d.tasks + [row], taskTags := d.taskTags + CreatedLinks(input, id));
      Outcome(d', Success(Expand(d', row)))
  }

  /** A created task is ordered after every sibling. */
  lemma CreatedTaskComesLast(d: Database, input: CreateTaskInput, id: Id, now: int, s: Task)
    requires CreateTaskStep(d, input, id, now).result.Success?
    requires s in d.tasks && s.projectId == input.projectId && s.sectionId == input.sectionId
    requires s.parentTaskId == input.parentTaskId
    ensures s.order < CreateTaskStep(d, input, id, now).result.value.task.order
  {
    assert InGroup(input.projectId, input.sectionId, input.parentTaskId)(s);
  }

  /** Appending a task with a fresh id whose parent, if any, is an existing
      top-level task keeps the task table consistent. */
  lemma AppendTaskConsistent(ts: seq<Task>, row: Task)
    requires TasksConsistent(ts) && row.id != "" && row.id !in TaskIds(ts)
    requires Linked(row.parentTaskId) ==>
      exists t :: t in ts && t.id == row.parentTaskId.value && !Linked(t.parentTaskId)
    ensures TasksConsistent(ts + [row])
  {
    var ts' := ts + [row];
    AppendKeepsKeys(ts, TaskKey(), row);
    assert forall i :: 0 <= i < |ts| ==> ts'[i] == ts[i];
    forall i | 0 <= i < |ts'| && Linked(ts'[i].parentTaskId)
      ensures ts'[i].parentTaskId.value in TaskIds(ts')
    {
    }
    forall i, j | 0 <= i < |ts'| && 0 <= j < |ts'| &&
      Linked(ts'[i].parentTaskId) && ts'[i].parentTaskId.value == ts'[j].id
      ensures !Linked(ts'[j].parentTaskId)
    {
      if i == |ts| && j < |ts| {
        var t :| t in ts && t.id == row.parentTaskId.value && !Linked(t.parentTaskId);
        var k :| 0 <= k < |ts| && ts[k] == t;
        assert k == j;
      }
    }
  }

  /** createTask keeps nesting at one level, whatever the input. */
  lemma CreateTaskKeepsConsistency(d: Database, input: CreateTaskInput, id: Id, now: int)
    requires Consistent(d) && FreshTaskId(d.tasks, id)
    ensures Consistent(CreateTaskStep(d, input, id, now).db)
  {
    var o := CreateTaskStep(d, input, id, now);
    if o.result.Success? {
      AppendTaskConsistent(d.tasks, o.result.value.task);
    }
  }

  method CreateTask(db: Store.Db, input: CreateTaskInput, id: Id, now: int)
    returns (r: Result<TaskWithRelations, Error>)
    requires db.Valid() && FreshTaskId(db.tasks, id)
    modifies db
    ensures db.Valid()
    ensures Outcome(db.State(), r) == CreateTaskStep(old(db.State()), input, id, now)
  {
    ghost var o := CreateTaskStep(db.State(), input, id, now);
    CreateTaskKeepsConsistency(db.State(), input, id, now);
    if Linked(input.parentTaskId) {
      var parent := FindTask(db.tasks, input.parentTaskId.value);
      if parent.None? {
        return Failure(ParentNotFound);
      }
      if Linked(parent.value.parentTaskId) {
        return Failure(NestingTooDeep);
      }
    }
    var order := NewOrder(db.tasks, input.projectId, input.sectionId, input.parentTaskId);
    var row := NewTaskRow(input, id, order, now);
    assert o.result.Success? && o.result.value.task == row;
    db.tasks := db.tasks + [row];
    db.taskTags := db.taskTags + CreatedLinks(input, id);
    assert db.State() == o.db;
    r := Success(Expand(db.State(), row));
  }

  // ---------------------------------------------------------------------------
  // the task's tag set
  // ---------------------------------------------------------------------------

  /** The tag ids linked to `taskId`, in link order. */
  function TagIdsOf(links: seq<TaskTag>, taskId: Id): seq<Id> {
    if links == [] then []
    else (if links[0].taskId == taskId then [links[0].tagId] else []) + TagIdsOf(links[1..], taskId)
  }

  function NotLinkOf(taskId: Id): TaskTag -> bool { (l: TaskTag) => l.taskId != taskId }

  /** deleteMany of the task's links, then createMany of the new list. */
  function ReplaceLinks(links: seq<TaskTag>, taskId: Id, tagIds: seq<Id>): seq<TaskTag> {
    Filter(links, NotLinkOf(taskId)) + NewLinks(taskId, tagIds)
  }

  lemma {:induction false} TagIdsOfAppend(a: seq<TaskTag>, b: seq<TaskTag>, id: Id)
    ensures TagIdsOf(a + b, id) == TagIdsOf(a, id) + TagIdsOf(b, id)
  {
    if a != [] {
      assert (a + b)[0] == a[0] && (a + b)[1..] == a[1..] + b;
      TagIdsOfAppend(a[1..], b, id);
    } else {
      assert a + b == b;
    }
  }

  lemma {:induction false} TagIdsOfNewLinks(taskId: Id, tagIds: seq<Id>, id: Id)
    ensures TagIdsOf(NewLinks(taskId, tagIds), id) == if id == taskId then tagIds else []
  {
    if tagIds != [] {
      TagIdsOfNewLinks(taskId, tagIds[1..], id);
    }
  }

  lemma {:induction false} TagIdsOfDropped(links: seq<TaskTag>, taskId: Id, id: Id)
    ensures TagIdsOf(Filter(links, NotLinkOf(taskId)), id) == if id == taskId then [] else TagIdsOf(links, id)
  {
    if links != [] {
      TagIdsOfDropped(links[1..], taskId, id);
      if NotLinkOf(taskId)(links[0]) {
        TagIdsOfAppend([links[0]], Filter(links[1..], NotLinkOf(taskId)), id);
      }
    }
  }

  /** Replacing a task's links gives it exactly the new list and leaves every
      other task's links as they were. */
  lemma ReplaceLinksExact(links: seq<TaskTag>, taskId: Id, tagIds: seq<Id>, other: Id)
    ensures TagIdsOf(ReplaceLinks(links, taskId, tagIds), taskId) == tagIds
    ensures other != taskId ==> TagIdsOf(ReplaceLinks(links, taskId, tagIds), other) == TagIdsOf(links, other)
  {
    var kept := Filter(links, NotLinkOf(taskId));
    TagIdsOfAppend(kept, NewLinks(taskId, tagIds), taskId);
    TagIdsOfAppend(kept, NewLinks(taskId, tagIds), other);
    TagIdsOfDropped(links, taskId, taskId);
    TagIdsOfDropped(links, taskId, other);
    TagIdsOfNewLinks(taskId, tagIds, taskId);
    TagIdsOfNewLinks(taskId, tagIds, other);
  }

  // ---------------------------------------------------------------------------
  // updateTask
  // ---------------------------------------------------------------------------

  /** A Prisma update of a nullable column: undefined keeps it, null clears it. */
  function Patch<T>(current: Option<T>, given: Validation.Nullish<T>): (r: Option<T>)
    ensures given.Undefined? ==> r == current
    ensures given.Null? ==> r == None
    ensures given.Defined? ==> r == Some(given.value)
  {
    match given
    case Undefined => current
    case Null => None
    case Defined(v) => Some(v)
  }

  /** The row after `update({ data })`: only the provided fields change, and
      `updatedAt` becomes `now`. */
  function ApplyUpdate(t: Task, input: UpdateTaskInput, now: int): (r: Task)
    ensures r.id == t.id && r.userId == t.userId && r.projectId == t.projectId
    ensures r.parentTaskId == t.parentTaskId && r.status == t.status && r.order == t.order
    ensures r.createdAt == t.createdAt && r.updatedAt == now
    ensures r.name == if input.name.Some? then input.name.value else t.name
    ensures r.description == Patch(t.description, input.description)
    ensures r.deadlineAt == Patch(t.deadlineAt, input.deadlineAt)
    ensures r.sectionId == Patch(t.sectionId, input.sectionId)
    ensures r.effort == Patch(t.effort, input.effort)
  {
    t.(name := if input.name.Some? then input.name.value else t.name,
       description := Patch(t.description, input.description),
       deadlineAt := Patch(t.deadlineAt, input.deadlineAt),
       sectionId := Patch(t.sectionId, input.sectionId),
       effort := Patch(t.effort, input.effort),
       updatedAt := now)
  }

  /** The links after updateTask's tag step. */
  function UpdatedLinks(links: seq<TaskTag>, input: UpdateTaskInput): seq<TaskTag> {
    if input.tagIds.Some? then ReplaceLinks(links, input.id, input.tagIds.value) else links
  }

  /** updateTask rewrites the links first, then updates the row; a missing
      row throws after the link step has been written. */
  function UpdateTaskStep(d: Database, input: UpdateTaskInput, now: int): (o: Outcome<TaskWithRelations>)
    ensures o.db.taskTags == UpdatedLinks(d.taskTags, input)
    ensures o.db.workspaces == d.workspaces && o.db.projects == d.projects
    ensures o.db.sections == d.sections && o.db.tags == d.tags
    ensures o.result.Failure? <==> input.id !in TaskIds(d.tasks)
    ensures o.result.Failure? ==> o.result.error == RecordNotFound && o.db.tasks == d.tasks
    ensures o.result.Success? ==>
      var i := IndexOf(d.tasks, TaskKey(), input.id).value;
      && o.db.tasks == d.tasks[i := ApplyUpdate(d.tasks[i], input, now)]
      && o.result.value == Expand(o.db, o.db.tasks[i])
  {
    var d1 := d.(taskTags := UpdatedLinks(d.taskTags, input));
    match IndexOf(d.tasks, TaskKey(), input.id)
    case None => Outcome(d1, Failure(RecordNotFound))
    case Some(i) =>
      var d2 := d1.(tasks := d.tasks[i := ApplyUpdate(d.tasks[i], input, now)]);
      Outcome(d2, Success(Expand(d2, d2.tasks[i])))
  }

  /** Defined tag ids replace the task's tags exactly; undefined ones leave
      every link in place. */
  lemma UpdateTaskTags(d: Database, input: UpdateTaskInput, now: int, other: Id)
    ensures input.tagIds.Some? ==>
      TagIdsOf(UpdateTaskStep(d, input, now).db.taskTags, input.id) == input.tagIds.value
    ensures input.tagIds.Some? && other != input.id ==>
      TagIdsOf(UpdateTaskStep(d, input, now).db.taskTags, other) == TagIdsOf(d.taskTags, other)
    ensures input.tagIds.None? ==> UpdateTaskStep(d, input, now).db.taskTags == d.taskTags
  {
    if input.tagIds.Some? {
      ReplaceLinksExact(d.taskTags, input.id, input.tagIds.value, other);
    }
  }

  /** Replacing a row by one with the same id and parent keeps the tasks consistent. */
  lemma SetTaskKeepsConsistency(ts: seq<Task>, i: nat, row: Task)
    requires TasksConsistent(ts) && i < |ts|
    requires row.id == ts[i].id && row.parentTaskId == ts[i].parentTaskId
    ensures TasksConsistent(ts[i := row])
  {
    UpdateKeepsKeys(ts, TaskKey(), i, row);
    var ts' := ts[i := row];
    assert forall k :: 0 <= k < |ts| ==> ts'[k].id == ts[k].id && ts'[k].parentTaskId == ts[k].parentTaskId;
  }

  method UpdateTask(db: Store.Db, input: UpdateTaskInput, now: int) returns (r: Result<TaskWithRelations, Error>)
    requires db.Valid()
    modifies db
    ensures db.Valid()
    ensures Outcome(db.State(), r) == UpdateTaskStep(old(db.State()), input, now)
  {
    var id := input.id;
    if input.tagIds.Some? {
      db.taskTags := Filter(db.taskTags, NotLinkOf(id));
      db.taskTags := db.taskTags + NewLinks(id, input.tagIds.value);
    }
    var i := IndexOf(db.tasks, TaskKey(), id);
    if i.None? {
      return Failure(RecordNotFound);
    }
    var row := ApplyUpdate(db.tasks[i.value], input, now);
    SetTaskKeepsConsistency(db.tasks, i.value, row);
    db.tasks := db.tasks[i.value := row];
    r := Success(Expand(db.State(), row));
  }

  // ---------------------------------------------------------------------------
  // deleteTask
  // ---------------------------------------------------------------------------

  /** Deleting a task takes its subtasks and the links of both with it. */
  function DeleteTaskStep(d: Database, id: Id): (o: Outcome<Task>)
    ensures o.result.Failure? <==> id !in TaskIds(d.tasks)
    ensures o.result.Failure? ==> o.result.error == RecordNotFound && o.db == d
    ensures o.result.Success? ==> o.result.value in d.tasks && o.result.value.id == id
    ensures o.result.Success? ==> o.db == RemoveTasks(d, {id})
    ensures o.result.Success? && id != "" ==>
      forall t :: t in o.db.tasks <==> t in d.tasks && t.id != id && t.parentTaskId != Some(id)
  {
    match FindTask(d.tasks, id)
    case None => Outcome(d, Failure(RecordNotFound))
    case Some(t) => Outcome(RemoveTasks(d, {id}), Success(t))
  }

  method DeleteTask(db: Store.Db, id: Id) returns (r: Result<Task, Error>)
    requires db.Valid()
    modifies db
    ensures db.Valid()
    ensures Outcome(db.State(), r) == DeleteTaskStep(old(db.State()), id)
  {
    var found := FindTask(db.tasks, id);
    if found.None? {
      return Failure(RecordNotFound);
    }
    RemoveTasksKeepsConsistency(db.State(), {id});
    var gone := GoneIds(db.tasks, {id});
    db.tasks := Filter(db.tasks, Survives({id}));
    db.taskTags := Filter(db.taskTags, LinkSurvives(gone));
    r := Success(found.value);
  }

  // ---------------------------------------------------------------------------
  // single-column updates: status, section, order
  // ---------------------------------------------------------------------------

  /** OPEN becomes COMPLETED and anything else becomes OPEN. */
  function Toggled(s: Status): (r: Status)
    ensures r != s
    ensures (s == OPEN) == (r == COMPLETED)
  {
    if s == OPEN then COMPLETED else OPEN
  }

  /** Rewrites the row with id `id` by `f`; the outcome names `missing` when
      there is no such row. */
  function UpdateRow(d: Database, id: Id, f: Task -> Task, missing: Error): (o: Outcome<Task>)
    ensures o.result.Failure? <==> id !in TaskIds(d.tasks)
    ensures o.result.Failure? ==> o.db == d && o.result.error == missing
    ensures o.result.Success? ==>
      var i := IndexOf(d.tasks, TaskKey(), id).value;
      o.db == d.(tasks := d.tasks[i := f(d.tasks[i])]) && o.result.value == f(d.tasks[i])
  {
    match IndexOf(d.tasks, TaskKey(), id)
    case None => Outcome(d, Failure(missing))
    case Some(i) => Outcome(d.(tasks := d.tasks[i := f(d.tasks[i])]), Success(f(d.tasks[i])))
  }

  function ToggleRow(now: int): Task -> Task {
    (t: Task) => t.(status := Toggled(t.status), updatedAt := now)
  }

  /** toggleTaskStatus: read the row, then write the flipped status. */
  function ToggleStep(d: Database, id: Id, now: int): (o: Outcome<Task>)
    ensures o.result.Failure? <==> id !in TaskIds(d.tasks)
    ensures o.result.Failure? ==> o.db == d && o.result.error == TaskNotFound
    ensures o.result.Success? ==>
      var i := IndexOf(d.tasks, TaskKey(), id).value;
      && o.result.value.status != d.tasks[i].status
      && (d.tasks[i].status == OPEN <==> o.result.value.status == COMPLETED)
      && o.db == d.(tasks := d.tasks[i := o.result.value])
      && o.result.value == d.tasks[i].(status := o.result.value.status, updatedAt := now)
  {
    UpdateRow(d, id, ToggleRow(now), TaskNotFound)
  }

  /** Toggling twice restores the status; only `updatedAt` records the calls. */
  lemma ToggleTwice(d: Database, id: Id, now1: int, now2: int)
    requires id in TaskIds(d.tasks)
    ensures var o1 := ToggleStep(d, id, now1);
      var o2 := ToggleStep(o1.db, id, now2);
      var i := IndexOf(d.tasks, TaskKey(), id).value;
      o2.result.Success? && o2.result.value.status == d.tasks[i].status &&
      o2.db == d.(tasks := d.tasks[i := d.tasks[i].(updatedAt := now2)])
  {
    var i := IndexOf(d.tasks, TaskKey(), id).value;
    var o1 := ToggleStep(d, id, now1);
    var ts1 := o1.db.tasks;
    assert ts1 == d.tasks[i := ToggleRow(now1)(d.tasks[i])];
    assert TaskKey()(ts1[i]) == id;
    assert id in TaskIds(ts1);
    var j := IndexOf(ts1, TaskKey(), id).value;
    assert j == i;
    assert ts1[i := ToggleRow(now2)(ts1[i])] == d.tasks[i := d.tasks[i].(updatedAt := now2)];
  }

  method ToggleTaskStatus(db: Store.Db, id: Id, now: int) returns (r: Result<Task, Error>)
    requires db.Valid()
    modifies db
    ensures db.Valid()
    ensures Outcome(db.State(), r) == ToggleStep(old(db.State()), id, now)
  {
    var i := IndexOf(db.tasks, TaskKey(), id);
    if i.None? {
      return Failure(TaskNotFound);
    }
    var task := db.tasks[i.value];
    var newStatus := if task.status == OPEN then COMPLETED else OPEN;
    var row := task.(status := newStatus, updatedAt := now);
    SetTaskKeepsConsistency(db.tasks, i.value, row);
    db.tasks := db.tasks[i.value := row];
    r := Success(row);
  }

  function AssignRow(sectionId: Option<Id>, now: int): Task -> Task {
    (t: Task) => t.(sectionId := sectionId, updatedAt := now)
  }

  /** assignTaskToSection writes only `sectionId` (and `updatedAt`). */
  function AssignStep(d: Database, taskId: Id, sectionId: Option<Id>, now: int): (o: Outcome<Task>)
    ensures o.result.Failure? <==> taskId !in TaskIds(d.tasks)
    ensures o.result.Failure? ==> o.db == d && o.result.error == RecordNotFound
    ensures o.result.Success? ==>
      var i := IndexOf(d.tasks, TaskKey(), taskId).value;
      o.db == d.(tasks := d.tasks[i := d.tasks[i].(sectionId := sectionId, updatedAt := now)])
  {
    UpdateRow(d, taskId, AssignRow(sectionId, now), RecordNotFound)
  }

  method AssignTaskToSection(db: Store.Db, taskId: Id, sectionId: Option<Id>, now: int)
    returns (r: Result<Task, Error>)
    requires db.Valid()
    modifies db
    ensures db.Valid()
    ensures Outcome(db.State(), r) == AssignStep(old(db.State()), taskId, sectionId, now)
  {
    var i := IndexOf(db.tasks, TaskKey(), taskId);
    if i.None? {
      return Failure(RecordNotFound);
    }
    var row := db.tasks[i.value].(sectionId := sectionId, updatedAt := now);
    SetTaskKeepsConsistency(db.tasks, i.value, row);
    db.tasks := db.tasks[i.value := row];
    r := Success(row);
  }

  function ReorderRow(order: int, now: int): Task -> Task {
    (t: Task) => t.(order := order, updatedAt := now)
  }

  /** reorderTask writes only `order` (and `updatedAt`). */
  function ReorderStep(d: Database, input: ReorderTaskInput, now: int): (o: Outcome<Task>)
    ensures o.result.Failure? <==> input.id !in TaskIds(d.tasks)
    ensures o.result.Failure? ==> o.db == d && o.result.error == RecordNotFound
    ensures o.result.Success? ==>
      var i := IndexOf(d.tasks, TaskKey(), input.id).value;
      o.db == d.(tasks := d.tasks[i := d.tasks[i].(order := input.order, updatedAt := now)])
  {
    UpdateRow(d, input.id, ReorderRow(input.order, now), RecordNotFound)
  }

  method ReorderTask(db: Store.Db, input: ReorderTaskInput, now: int) returns (r: Result<Task, Error>)
    requires db.Valid()
    modifies db
    ensures db.Valid()
    ensures Outcome(db.State(), r) == ReorderStep(old(db.State()), input, now)
  {
    var i := IndexOf(db.tasks, TaskKey(), input.id);
    if i.None? {
      return Failure(RecordNotFound);
    }
    var row := db.tasks[i.value].(order := input.order, updatedAt := now);
    SetTaskKeepsConsistency(db.tasks, i.value, row);
    db.tasks := db.tasks[i.value := row];
    r := Success(row);
  }

  // ---------------------------------------------------------------------------
  // queries
  // ---------------------------------------------------------------------------

  function DeadlineOf(): Task -> int { (t: Task) => if t.deadlineAt.Some? then t.deadlineAt.value else 0 }

  /** `orderBy: { deadlineAt: "asc" }` over tasks that all have a deadline. */
  function ByDeadline(): (Task, Task) -> bool { ByKey(DeadlineOf()) }

  /** `orderBy: { updatedAt: "desc" }`. */
  function ByRecentUpdate(): (Task, Task) -> bool { ByKey((t: Task) => -t.updatedAt) }

  /** Given `start < end`, the half-open window [start, end); a null deadline
      is never in it. */
  predicate InWindow(deadline: Option<int>, start: int, end: int) {
    deadline.Some? && start <= deadline.value < end
  }

  function DueToday(start: int, end: int): Task -> bool {
    (t: Task) => InWindow(t.deadlineAt, start, end) && t.status == OPEN && t.parentTaskId.None?
  }

  /** Sorts `rows` by `leq` and lists them with their relations. */
  function Listing(d: Database, rows: seq<Task>, leq: (Task, Task) -> bool): (r: seq<TaskInProject>)
    requires Total(leq)
    ensures Sorted(TasksOf(r), leq)
    ensures multiset(TasksOf(r)) == multiset(rows)
    ensures forall t :: t in TasksOf(r) <==> t in rows
    ensures forall i :: 0 <= i < |r| ==> r[i] == ExpandWithProject(d, TasksOf(r)[i])
  {
    var sorted := SortBy(rows, leq);
    assert forall t :: t in sorted <==> t in multiset(rows);
    ListTasks(d, sorted)
  }

  /** getTasksForToday, with the local day as the window [start, end). */
  function TasksForToday(d: Database, start: int, end: int): (r: seq<TaskInProject>)
    ensures Sorted(TasksOf(r), ByDeadline())
    ensures multiset(TasksOf(r)) == multiset(Filter(d.tasks, DueToday(start, end)))
    ensures forall t :: t in TasksOf(r) <==>
      t in d.tasks && t.status == OPEN && t.parentTaskId.None? && InWindow(t.deadlineAt, start, end)
  {
    ByKeyIsTotalOrder(DeadlineOf());
    Listing(d, Filter(d.tasks, DueToday(start, end)), ByDeadline())
  }

  /** The day-window cases of the Today tests, with the local day of
      10 February 2026 as [start, start + 86400000). */
  lemma TodayWindowCases(start: int)
    ensures InWindow(Some(start), start, start + 86_400_000)
    ensures InWindow(Some(start + 86_399_000), start, start + 86_400_000)
    ensures !InWindow(Some(start - 1_000), start, start + 86_400_000)
    ensures !InWindow(Some(start - 1), start, start + 86_400_000)
    ensures !InWindow(Some(start + 86_400_000), start, start + 86_400_000)
    ensures !InWindow(None, start, start + 86_400_000)
  {
  }

  /** The project filter applies only for a truthy project id. */
  function CompletedIn(projectId: Option<Id>): Task -> bool {
    (t: Task) => t.status == COMPLETED && t.parentTaskId.None? &&
      (Linked(projectId) ==> t.projectId == projectId.value)
  }

  /** getCompletedTasks(projectId?). */
  function CompletedTasks(d: Database, projectId: Option<Id>): (r: seq<TaskInProject>)
    ensures Sorted(TasksOf(r), ByRecentUpdate())
    ensures multiset(TasksOf(r)) == multiset(Filter(d.tasks, CompletedIn(projectId)))
    ensures forall t :: t in TasksOf(r) <==>
      t in d.tasks && t.status == COMPLETED && t.parentTaskId.None? &&
      (Linked(projectId) ==> t.projectId == projectId.value)
  {
    ByKeyIsTotalOrder((t: Task) => -t.updatedAt);
    Listing(d, Filter(d.tasks, CompletedIn(projectId)), ByRecentUpdate())
  }

  /** Whether `query` occurs in the name or the description, ignoring ASCII case. */
  predicate MatchesQuery(t: Task, query: string) {
    Text.ContainsInsensitive(t.name, query) ||
    (t.description.Some? && Text.ContainsInsensitive(t.description.value, query))
  }

  function SearchHit(query: string): Task -> bool {
    (t: Task) => t.parentTaskId.None? && MatchesQuery(t, query)
  }

  /** searchTasks(query). */
  function SearchTasks(d: Database, query: string): (r: seq<TaskInProject>)
    ensures Sorted(TasksOf(r), ByRecentUpdate())
    ensures multiset(TasksOf(r)) == multiset(Filter(d.tasks, SearchHit(query)))
    ensures forall t :: t in TasksOf(r) <==>
      t in d.tasks && t.parentTaskId.None? &&
      (Text.OccursIn(Text.Lower(query), Text.Lower(t.name)) ||
       (t.description.Some? && Text.OccursIn(Text.Lower(query), Text.Lower(t.description.value))))
  {
    ByKeyIsTotalOrder((t: Task) => -t.updatedAt);
    Listing(d, Filter(d.tasks, SearchHit(query)), ByRecentUpdate())
  }
}
