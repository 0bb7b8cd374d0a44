/**
 * The relations the services `include`: a task with its subtasks (ordered by
 * `order`), its tags (through the link table) and its section.
 */
module Views {
  import opened Wrappers
  import opened Tables
  import opened Entities

  datatype TaskWithRelations = TaskWithRelations(
    task: Task, subtasks: seq<Task>, tags: seq<Tag>, section: Option<Section>)

  /** A task listed together with its project (`project: true`). */
  datatype TaskInProject = TaskInProject(item: TaskWithRelations, project: Option<Project>)

  function ByOrder(): (Task, Task) -> bool { ByKey((t: Task) => t.order) }

  function IsChildOf(id: Id): Task -> bool { (t: Task) => t.parentTaskId == Some(id) }

  lemma ByOrderIsTotalOrder()
    ensures Total(ByOrder()) && Transitive(ByOrder())
  {
    ByKeyIsTotalOrder((t: Task) => t.order);
  }

  /** The subtasks of `id`, `orderBy: { order: "asc" }`. */
  function Subtasks(d: Database, id: Id): (r: seq<Task>)
    ensures Sorted(r, ByOrder())
    ensures multiset(r) == multiset(Filter(d.tasks, IsChildOf(id)))
    ensures forall s :: s in r <==> s in d.tasks && s.parentTaskId == Some(id)
  {
    ByOrderIsTotalOrder();
    var children := Filter(d.tasks, IsChildOf(id));
    var r := SortBy(children, ByOrder());
    assert forall s :: s in r <==> s in multiset(children);
    r
  }

  /** The tags linked to `taskId`, in link order; a link whose tag row is
      missing contributes nothing. */
  function LinkedTags(links: seq<TaskTag>, tags: seq<Tag>, taskId: Id): (r: seq<Tag>)
    ensures forall t :: t in r ==> t in tags && TaskTag(taskId, t.id) in links
    ensures UniqueKeys(tags, TagKey()) ==>
      forall g :: g in tags && TaskTag(taskId, g.id) in links ==> g in r
    ensures |r| <= |links|
  {
    if links == [] then []
    else
      var rest := LinkedTags(links[1..], tags, taskId);
      FindEvery(tags, TagKey());
      assert forall l :: l in links ==> l == links[0] || l in links[1..];
      if links[0].taskId != taskId then rest
      else
        match Find(tags, TagKey(), links[0].tagId)
        case None => rest
        case Some(tag) => [tag] + rest
  }

  /** `section: true`: the row the task's section id names, if any. */
  function SectionOf(d: Database, t: Task): (r: Option<Section>)
    ensures r.Some? ==> t.sectionId == Some(r.value.id) && r.value in d.sections
    ensures r.None? <==> t.sectionId.None? || t.sectionId.value !in Keys(d.sections, SectionKey())
    ensures UniqueKeys(d.sections, SectionKey()) ==>
      forall s :: s in d.sections && t.sectionId == Some(s.id) ==> r == Some(s)
  {
    FindEvery(d.sections, SectionKey());
    if t.sectionId.None? then None else Find(d.sections, SectionKey(), t.sectionId.value)
  }

  /** The include of every task-returning query. */
  function Expand(d: Database, t: Task): (r: TaskWithRelations)
    ensures r.task == t
    ensures Sorted(r.subtasks, ByOrder())
    ensures forall s :: s in r.subtasks <==> s in d.tasks && s.parentTaskId == Some(t.id)
    ensures forall g :: g in r.tags ==> g in d.tags && TaskTag(t.id, g.id) in d.taskTags
    ensures UniqueKeys(d.tags, TagKey()) ==>
      forall g :: g in d.tags && TaskTag(t.id, g.id) in d.taskTags ==> g in r.tags
    ensures r.section == SectionOf(d, t)
  {
    TaskWithRelations(t, Subtasks(d, t.id), LinkedTags(d.taskTags, d.tags, t.id), SectionOf(d, t))
  }

  function ExpandWithProject(d: Database, t: Task): (r: TaskInProject)
    ensures r.item == Expand(d, t)
    ensures r.project.Some? ==> r.project.value in d.projects && r.project.value.id == t.projectId
  {
    TaskInProject(Expand(d, t), Find(d.projects, ProjectKey(), t.projectId))
  }

  /** The task rows of a listing, in listing order. */
  function TasksOf(r: seq<TaskInProject>): (ts: seq<Task>)
    ensures |ts| == |r| && forall i :: 0 <= i < |r| ==> ts[i] == r[i].item.task
  {
    MapRows(r, (x: TaskInProject) => x.item.task)
  }

  /** A listing: the given rows, each expanded. */
  function ListTasks(d: Database, rows: seq<Task>): (r: seq<TaskInProject>)
    ensures TasksOf(r) == rows
    ensures forall i :: 0 <= i < |r| ==> r[i] == ExpandWithProject(d, rows[i])
  {
    MapRows(rows, (t: Task) => ExpandWithProject(d, t))
  }

  /** The task rows of a list of expanded tasks, in list order. */
  function ItemTasks(r: seq<TaskWithRelations>): (ts: seq<Task>)
    ensures |ts| == |r| && forall i :: 0 <= i < |r| ==> ts[i] == r[i].task
  {
    MapRows(r, (x: TaskWithRelations) => x.task)
  }

  /** `rows` ordered by `order` ascending, each expanded. */
  function ExpandedByOrder(d: Database, rows: seq<Task>): (r: seq<TaskWithRelations>)
    ensures Sorted(ItemTasks(r), ByOrder())
    ensures multiset(ItemTasks(r)) == multiset(rows)
    ensures forall t :: t in ItemTasks(r) <==> t in rows
    ensures forall i :: 0 <= i < |r| ==> r[i] == Expand(d, ItemTasks(r)[i])
  {
    ByOrderIsTotalOrder();
    var sorted := SortBy(rows, ByOrder());
    assert forall t :: t in sorted <==> t in multiset(rows);
    var r := MapRows(sorted, (t: Task) => Expand(d, t));
    assert ItemTasks(r) == sorted;
    r
  }
}
