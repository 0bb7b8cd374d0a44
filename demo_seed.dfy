/**
 * The demo fixture's builders: tags looked up in the demo tag list, tasks
 * built from overrides with a module-level counter, and the open-task count
 * shown in the demo sidebar. The fixture data itself is not modelled, apart
 * from the tag list the tag builder reads.
 */
module DemoSeed {
  import opened Wrappers
  import opened Tables
  import Entities
  import Text

  const DemoUserId := "demo-user"
  const DayMs := 24 * 60 * 60 * 1000
  const TaskIdPrefix := "demo-task-"

  /** An entry of the demo tag list. */
  datatype TagDef = TagDef(id: string, name: string, color: string)

  const TagDefs := [
    TagDef("demo-tag-1", "Frontend", "#3b82f6"),
    TagDef("demo-tag-2", "Backend", "#10b981"),
    TagDef("demo-tag-3", "Design", "#8b5cf6"),
    TagDef("demo-tag-4", "High Priority", "#ef4444"),
    TagDef("demo-tag-5", "Bug Fix", "#f97316"),
    TagDef("demo-tag-6", "Documentation", "#6b7280"),
    TagDef("demo-tag-7", "Research", "#14b8a6"),
    TagDef("demo-tag-8", "Testing", "#eab308")]

  function DefKey(): TagDef -> string { (t: TagDef) => t.id }

  /** The `{ tag }` entry a task's tag list holds. */
  datatype TagEntry = TagEntry(tag: Entities.Tag)

  // ---------------------------------------------------------------------------
  // makeTag
  // ---------------------------------------------------------------------------

  /** makeTag: a copy of the first definition with that id, owned by the demo
      user; an unknown id throws. */
  function MakeTag(defs: seq<TagDef>, tagId: string): (r: Result<TagEntry, string>)
    ensures r.Failure? <==> tagId !in Keys(defs, DefKey())
    ensures r.Failure? ==> r.error == "Unknown tag: " + tagId
    ensures r.Success? ==> exists i :: (0 <= i < |defs| && defs[i].id == tagId &&
      r.value == TagEntry(Entities.Tag(defs[i].id, Some(DemoUserId), defs[i].name, Some(defs[i].color))))
  {
    match IndexOf(defs, DefKey(), tagId)
    case None => Failure("Unknown tag: " + tagId)
    case Some(i) => Success(TagEntry(Entities.Tag(defs[i].id, Some(DemoUserId), defs[i].name, Some(defs[i].color))))
  }

  /** The demo tag ids differ in their last character. */
  lemma TagDefIdsUnique()
    ensures forall i :: 0 <= i < |TagDefs| ==> |TagDefs[i].id| == 10 && TagDefs[i].id[9] == "12345678"[i]
    ensures UniqueKeys(TagDefs, DefKey())
  {
    var last := seq(|TagDefs|, (i: int) requires 0 <= i < |TagDefs| => TagDefs[i].id[9]);
    assert last == "12345678";
    forall i, j | 0 <= i < |TagDefs| && 0 <= j < |TagDefs| && i != j
      ensures DefKey()(TagDefs[i]) != DefKey()(TagDefs[j])
    {
      assert last[i] != last[j];
    }
  }

  lemma KnownTagExample()
    ensures MakeTag(TagDefs, "demo-tag-4") ==
      Success(TagEntry(Entities.Tag("demo-tag-4", Some(DemoUserId), "High Priority", Some("#ef4444"))))
  {
    TagDefIdsUnique();
    FindUnique(TagDefs, DefKey(), 3);
  }

  lemma UnknownTagExample()
    ensures MakeTag(TagDefs, "demo-tag-9").Failure?
  {
    TagDefIdsUnique();
    forall i | 0 <= i < |TagDefs| ensures TagDefs[i].id != "demo-tag-9" {
      assert "demo-tag-9"[9] == '9';
    }
    assert "demo-tag-9" !in Keys(TagDefs, DefKey());
  }

  /** `tagIds.map(makeTag)`: stops at the first unknown id. */
  function MakeTags(defs: seq<TagDef>, ids: seq<string>): (r: Result<seq<TagEntry>, string>)
    ensures r.Success? <==> forall i :: 0 <= i < |ids| ==> ids[i] in Keys(defs, DefKey())
    ensures r.Success? ==> (|r.value| == |ids| &&
      forall i :: 0 <= i < |ids| ==> Success(r.value[i]) == MakeTag(defs, ids[i]))
    ensures r.Failure? ==> exists i :: (0 <= i < |ids| && Failure(r.error) == MakeTag(defs, ids[i]) &&
      forall j :: 0 <= j < i ==> ids[j] in Keys(defs, DefKey()))
  {
    if ids == [] then Success([])
    else match MakeTag(defs, ids[0])
      case Failure(e) => Failure(e)
      case Success(t) =>
        match MakeTags(defs, ids[1..])
        case Failure(e) =>
          ghost var k :| 0 <= k < |ids[1..]| && Failure(e) == MakeTag(defs, ids[1..][k]) &&
            forall j :: 0 <= j < k ==> ids[1..][j] in Keys(defs, DefKey());
          assert ids[k + 1] == ids[1..][k];
          Failure(e)
        case Success(ts) => Success([t] + ts)
  }

  // ---------------------------------------------------------------------------
  // makeTask
  // ---------------------------------------------------------------------------

  /** A task of the fixture with its relations; the status is the override's
      string, unchecked. */
  datatype DemoTask = DemoTask(
    id: string,
    userId: string,
    projectId: string,
    sectionId: Option<string>,
    parentTaskId: Option<string>,
    name: string,
    description: Option<string>,
    deadlineAt: Option<int>,
    status: string,
    effort: Option<int>,
    order: int,
    createdAt: int,
    updatedAt: int,
    tags: seq<TagEntry>,
    subtasks: seq<DemoTask>,
    section: Option<Entities.Section>)

  /** The overrides argument; `None` stands for an omitted field, and for
      `null` where `?? null` makes the two the same. */
  datatype Overrides = Overrides(
    id: Option<string>,
    projectId: string,
    sectionId: Option<string>,
    parentTaskId: Option<string>,
    name: string,
    description: Option<string>,
    deadlineAt: Option<int>,
    status: Option<string>,
    effort: Option<int>,
    order: Option<int>,
    tagIds: Option<seq<string>>,
    subtasks: Option<seq<DemoTask>>)

  /** The id a task built as the `counter`-th gets when none is given. */
  function DefaultTaskId(counter: nat): (r: string)
    ensures |r| > |TaskIdPrefix| && r[..|TaskIdPrefix|] == TaskIdPrefix
  {
    TaskIdPrefix + Text.Decimal(counter)
  }

  /** Different counters give different default ids. */
  lemma DefaultTaskIdInjective(m: nat, n: nat)
    requires DefaultTaskId(m) == DefaultTaskId(n)
    ensures m == n
  {
    assert DefaultTaskId(m)[|TaskIdPrefix|..] == Text.Decimal(m);
    assert DefaultTaskId(n)[|TaskIdPrefix|..] == Text.Decimal(n);
    Text.DecimalInjective(m, n);
  }

  /** The value `makeTask` returns once the counter reads `counter`, with the
      fixture's creation time `now`: each omitted field takes its default. */
  function BuildTask(o: Overrides, counter: nat, now: int): (r: Result<DemoTask, string>)
    ensures r.Failure? <==> MakeTags(TagDefs, o.tagIds.GetOr([])).Failure?
    ensures r.Failure? ==> r.error == MakeTags(TagDefs, o.tagIds.GetOr([])).error
    ensures r.Success? ==>
      var t := r.value;
      && t.id == (if o.id.Some? then o.id.value else DefaultTaskId(counter))
      && t.userId == DemoUserId
      && t.projectId == o.projectId && t.name == o.name
      && t.sectionId == o.sectionId && t.parentTaskId == o.parentTaskId
      && t.description == o.description && t.deadlineAt == o.deadlineAt
      && t.effort == o.effort
      && t.status == (if o.status.Some? then o.status.value else "OPEN")
      && t.order == (if o.order.Some? then o.order.value else counter)
      && t.createdAt == now - (14 + counter) * DayMs
      && t.updatedAt == now - (counter % 5) * DayMs
      && t.tags == MakeTags(TagDefs, o.tagIds.GetOr([])).value
      && t.subtasks == (if o.subtasks.Some? then o.subtasks.value else [])
      && t.section.None?
  {
    match MakeTags(TagDefs, o.tagIds.GetOr([]))
    case Failure(e) => Failure(e)
    case Success(tags) =>
      Success(DemoTask(
        o.id.GetOr(DefaultTaskId(counter)), DemoUserId, o.projectId,
        o.sectionId, o.parentTaskId, o.name, o.description, o.deadlineAt,
        o.status.GetOr("OPEN"), o.effort, o.order.GetOr(counter),
        now - (14 + counter) * DayMs, now - (counter % 5) * DayMs,
        tags, o.subtasks.GetOr([]), None))
  }

  /** With only a project and a name given, every optional field is null,
      the task is open, and it has no tags and no subtasks. */
  lemma MinimalOverridesDefaults(projectId: string, name: string, counter: nat, now: int)
    ensures
      var o := Overrides(None, projectId, None, None, name, None, None, None, None, None, None, None);
      var r := BuildTask(o, counter, now);
      && r.Success?
      && r.value.sectionId.None? && r.value.parentTaskId.None? && r.value.description.None?
      && r.value.deadlineAt.None? && r.value.effort.None?
      && r.value.status == "OPEN" && r.value.tags == [] && r.value.subtasks == []
      && r.value.id == DefaultTaskId(counter) && r.value.order == counter
  {
  }

  /** Two builds at different counters without an explicit id get different
      ids. */
  lemma DefaultIdsDistinct(o1: Overrides, o2: Overrides, m: nat, n: nat, now: int)
    requires o1.id.None? && o2.id.None? && m != n
    requires BuildTask(o1, m, now).Success? && BuildTask(o2, n, now).Success?
    ensures BuildTask(o1, m, now).value.id != BuildTask(o2, n, now).value.id
  {
    if BuildTask(o1, m, now).value.id == BuildTask(o2, n, now).value.id {
      DefaultTaskIdInjective(m, n);
    }
  }

  /** The fixture module's state: the task counter and the load-time clock. */
  class Seed {
    var taskCounter: nat
    const now: int

    constructor (now: int)
      ensures taskCounter == 0 && this.now == now
    {
      taskCounter := 0;
      this.now := now;
    }

    /** makeTask: bumps the counter first, then builds the task from it. An
        unknown tag id throws after the counter has moved. */
    method MakeTask(o: Overrides) returns (r: Result<DemoTask, string>)
      modifies this
      ensures taskCounter == old(taskCounter) + 1
      ensures r == BuildTask(o, taskCounter, now)
    {
      taskCounter := taskCounter + 1;
      r := BuildTask(o, taskCounter, now);
    }
  }

  /** Two successive calls without explicit ids return different ids. */
  method MakeTwoTasks(seed: Seed, o1: Overrides, o2: Overrides)
      returns (a: Result<DemoTask, string>, b: Result<DemoTask, string>)
    requires o1.id.None? && o2.id.None?
    modifies seed
    ensures seed.taskCounter == old(seed.taskCounter) + 2
    ensures a.Success? && b.Success? ==> a.value.id != b.value.id
  {
    a := seed.MakeTask(o1);
    ghost var m := seed.taskCounter;
    b := seed.MakeTask(o2);
    if a.Success? && b.Success? {
      DefaultIdsDistinct(o1, o2, m, seed.taskCounter, seed.now);
    }
  }

  // ---------------------------------------------------------------------------
  // countOpenTasks
  // ---------------------------------------------------------------------------

  datatype DemoSection = DemoSection(section: Entities.Section, tasks: seq<DemoTask>)

  /** A project of the fixture with its sections and unsectioned tasks. */
  datatype DemoProject = DemoProject(
    id: string, workspaceId: string, name: string,
    sections: seq<DemoSection>, tasks: seq<DemoTask>)

  function IsOpen(): DemoTask -> bool { (t: DemoTask) => t.status == "OPEN" }

  /** The `reduce` over the sections, a left fold from 0. */
  function SectionsOpen(ss: seq<DemoSection>): nat {
    if ss == [] then 0
    else SectionsOpen(ss[..|ss| - 1]) + Count(ss[|ss| - 1].tasks, IsOpen())
  }

  /** The tasks listed directly in the sections, in section order. */
  function SectionTasks(ss: seq<DemoSection>): seq<DemoTask> {
    if ss == [] then [] else SectionTasks(ss[..|ss| - 1]) + ss[|ss| - 1].tasks
  }

  /** The tasks countOpenTasks looks at: the unsectioned list, then each
      section's; subtasks are not among them. */
  function TopLevelTasks(p: DemoProject): seq<DemoTask> {
    p.tasks + SectionTasks(p.sections)
  }

  /** countOpenTasks: unsectioned open tasks plus each section's open tasks. */
  function CountOpenTasks(p: DemoProject): (r: nat)
    ensures r == Count(TopLevelTasks(p), IsOpen())
    ensures r <= |TopLevelTasks(p)|
  {
    SectionsOpenIsCount(p.sections);
    FilterAppend(p.tasks, SectionTasks(p.sections), IsOpen());
    Count(p.tasks, IsOpen()) + SectionsOpen(p.sections)
  }

  lemma {:induction false} SectionsOpenIsCount(ss: seq<DemoSection>)
    ensures SectionsOpen(ss) == Count(SectionTasks(ss), IsOpen())
  {
    if ss != [] {
      SectionsOpenIsCount(ss[..|ss| - 1]);
      FilterAppend(SectionTasks(ss[..|ss| - 1]), ss[|ss| - 1].tasks, IsOpen());
    }
  }

  /** Only the exact status string "OPEN" counts: a project whose listed tasks
      are all otherwise counts 0, and one whose listed tasks are all open
      counts every one. */
  lemma CountOnlyOpen(p: DemoProject)
    ensures (forall t :: t in TopLevelTasks(p) ==> t.status != "OPEN") ==> CountOpenTasks(p) == 0
    ensures (forall t :: t in TopLevelTasks(p) ==> t.status == "OPEN") ==> CountOpenTasks(p) == |TopLevelTasks(p)|
  {
    var all := TopLevelTasks(p);
    if forall t :: t in all ==> t.status != "OPEN" {
      FilterNone(all, IsOpen());
    }
    if forall t :: t in all ==> t.status == "OPEN" {
      FilterAll(all, IsOpen());
    }
  }

  /** Replacing one task of a list by another with the same status keeps the
      number of open tasks. */
  lemma CountReplace(s: seq<DemoTask>, i: nat, t: DemoTask)
    requires i < |s| && t.status == s[i].status
    ensures Count(s[i := t], IsOpen()) == Count(s, IsOpen())
  {
    var s' := s[i := t];
    assert s == s[..i] + [s[i]] + s[i + 1..];
    assert s' == s[..i] + [t] + s[i + 1..];
    FilterAppend(s[..i] + [s[i]], s[i + 1..], IsOpen());
    FilterAppend(s[..i], [s[i]], IsOpen());
    FilterAppend(s[..i] + [t], s[i + 1..], IsOpen());
    FilterAppend(s[..i], [t], IsOpen());
    assert Count([s[i]], IsOpen()) == Count([t], IsOpen());
  }

  /** The reduce over the sections sees only each section's count. */
  lemma {:induction false} SectionsOpenReplace(ss: seq<DemoSection>, j: nat, sec: DemoSection)
    requires j < |ss| && Count(sec.tasks, IsOpen()) == Count(ss[j].tasks, IsOpen())
    ensures SectionsOpen(ss[j := sec]) == SectionsOpen(ss)
  {
    var ss' := ss[j := sec];
    var n := |ss|;
    if j == n - 1 {
      assert ss'[..n - 1] == ss[..n - 1];
    } else {
      assert ss'[..n - 1] == ss[..n - 1][j := sec];
      SectionsOpenReplace(ss[..n - 1], j, sec);
    }
  }

  /** Replacing one unsectioned task by another with the same status (for
      instance one with more subtasks) keeps the count. */
  lemma CountIgnoresSubtasks(p: DemoProject, i: nat, t: DemoTask)
    requires i < |p.tasks| && t.status == p.tasks[i].status
    ensures CountOpenTasks(p.(tasks := p.tasks[i := t])) == CountOpenTasks(p)
  {
    CountReplace(p.tasks, i, t);
  }

  /** The same for a task listed in a section. */
  lemma CountIgnoresSectionSubtasks(p: DemoProject, j: nat, k: nat, t: DemoTask)
    requires j < |p.sections| && k < |p.sections[j].tasks|
    requires t.status == p.sections[j].tasks[k].status
    ensures var sec := p.sections[j].(tasks := p.sections[j].tasks[k := t]);
      CountOpenTasks(p.(sections := p.sections[j := sec])) == CountOpenTasks(p)
  {
    var sec := p.sections[j].(tasks := p.sections[j].tasks[k := t]);
    CountReplace(p.sections[j].tasks, k, t);
    SectionsOpenReplace(p.sections, j, sec);
  }
}
