/** The tag service: the tag list with link counts, tasks by tag, and three
    single-table writes. */
module TagService {
  import opened Wrappers
  import opened Tables
  import opened Entities
  import opened Views
  import opened TagSchema
  import TaskService
  import Text
  import Store

  /** A tag with `_count.tasks`: the number of links to it. */
  datatype TagWithCount = TagWithCount(tag: Tag, taskCount: nat)

  function LinksTo(tagId: Id): TaskTag -> bool { (l: TaskTag) => l.tagId == tagId }

  function WithCount(d: Database, t: Tag): (r: TagWithCount)
    ensures r.tag == t && r.taskCount == |Filter(d.taskTags, LinksTo(t.id))|
  {
    TagWithCount(t, Count(d.taskTags, LinksTo(t.id)))
  }

  function WithCountOf(d: Database): Tag -> TagWithCount { (t: Tag) => WithCount(d, t) }

  /** `orderBy: { name: "asc" }`, by code points. */
  function ByName(): (Tag, Tag) -> bool { (a: Tag, b: Tag) => Text.LexLeq(a.name, b.name) }

  lemma ByNameIsTotalOrder()
    ensures Total(ByName()) && Transitive(ByName())
  {
    forall a: Tag, b: Tag ensures ByName()(a, b) || ByName()(b, a) {
      Text.LexLeqTotal(a.name, b.name);
    }
    forall a: Tag, b: Tag, c: Tag | ByName()(a, b) && ByName()(b, c) ensures ByName()(a, c) {
      Text.LexLeqTransitive(a.name, b.name, c.name);
    }
  }

  function TagsOf(r: seq<TagWithCount>): (ts: seq<Tag>)
    ensures |ts| == |r| && forall i :: 0 <= i < |r| ==> ts[i] == r[i].tag
  {
    MapRows(r, (x: TagWithCount) => x.tag)
  }

  /** getTags: every tag by name, each with its number of task links. */
  function GetTags(d: Database): (r: seq<TagWithCount>)
    ensures Sorted(TagsOf(r), ByName())
    ensures multiset(TagsOf(r)) == multiset(d.tags)
    ensures forall i :: 0 <= i < |r| ==> r[i].taskCount == |Filter(d.taskTags, LinksTo(r[i].tag.id))|
  {
    ByNameIsTotalOrder();
    var sorted := SortBy(d.tags, ByName());
    var r := MapRows(sorted, WithCountOf(d));
    assert forall i :: 0 <= i < |r| ==> r[i] == WithCountOf(d)(sorted[i]);
    assert TagsOf(r) == sorted;
    r
  }

  /** The tasks getTasksByTag selects: top-level, linked to the tag. */
  function TaggedWith(d: Database, tagId: Id): Task -> bool {
    (t: Task) => t.parentTaskId.None? && TaskTag(t.id, tagId) in d.taskTags
  }

  /** getTasksByTag(tagId): by `updatedAt`, newest first. */
  function TasksByTag(d: Database, tagId: Id): (r: seq<TaskInProject>)
    ensures Sorted(TasksOf(r), TaskService.ByRecentUpdate())
    ensures multiset(TasksOf(r)) == multiset(Filter(d.tasks, TaggedWith(d, tagId)))
    ensures forall t :: t in TasksOf(r) <==>
      t in d.tasks && t.parentTaskId.None? && TaskTag(t.id, tagId) in d.taskTags
  {
    ByKeyIsTotalOrder((t: Task) => -t.updatedAt);
    TaskService.Listing(d, Filter(d.tasks, TaggedWith(d, tagId)), TaskService.ByRecentUpdate())
  }

  // ---------------------------------------------------------------------------
  // mutators
  // ---------------------------------------------------------------------------

  predicate FreshTagId(ts: seq<Tag>, id: Id) { id !in Keys(ts, TagKey()) }

  /** createTag stores the name and `color ?? null`; the user id stays null. */
  function CreateTagStep(d: Database, input: CreateTagInput, id: Id): (o: Outcome<Tag>)
    ensures o.result.Success?
    ensures o.result.value == Tag(id, None, input.name, input.color)
    ensures o.db == d.(tags := d.tags + [o.result.value])
  {
    var t := Tag(id, None, input.name, input.color);
    Outcome(d.(tags := d.tags + [t]), Success(t))
  }

  method CreateTag(db: Store.Db, input: CreateTagInput, id: Id) returns (r: Result<Tag, Error>)
    requires db.Valid() && FreshTagId(db.tags, id)
    modifies db
    ensures db.Valid()
    ensures Outcome(db.State(), r) == CreateTagStep(old(db.State()), input, id)
  {
    var t := Tag(id, None, input.name, input.color);
    AppendKeepsKeys(db.tags, TagKey(), t);
    db.tags := db.tags + [t];
    r := Success(t);
  }

  /** The tag after `update({ data })`: only the provided fields change. */
  function ApplyTagUpdate(t: Tag, input: UpdateTagInput): (r: Tag)
    ensures r.id == t.id && r.userId == t.userId
    ensures r.name == if input.name.Some? then input.name.value else t.name
    ensures r.color == TaskService.Patch(t.color, input.color)
  {
    t.(name := if input.name.Some? then input.name.value else t.name,
       color := TaskService.Patch(t.color, input.color))
  }

  function UpdateTagStep(d: Database, input: UpdateTagInput): (o: Outcome<Tag>)
    ensures o.result.Failure? <==> input.id !in Keys(d.tags, TagKey())
    ensures o.result.Failure? ==> o.db == d && o.result.error == RecordNotFound
    ensures o.result.Success? ==>
      var i := IndexOf(d.tags, TagKey(), input.id).value;
      o.db == d.(tags := d.tags[i := ApplyTagUpdate(d.tags[i], input)])
  {
    match IndexOf(d.tags, TagKey(), input.id)
    case None => Outcome(d, Failure(RecordNotFound))
    case Some(i) =>
      var t := ApplyTagUpdate(d.tags[i], input);
      Outcome(d.(tags := d.tags[i := t]), Success(t))
  }

  method UpdateTag(db: Store.Db, input: UpdateTagInput) returns (r: Result<Tag, Error>)
    requires db.Valid()
    modifies db
    ensures db.Valid()
    ensures Outcome(db.State(), r) == UpdateTagStep(old(db.State()), input)
  {
    var i := IndexOf(db.tags, TagKey(), input.id);
    if i.None? {
      return Failure(RecordNotFound);
    }
    var t := ApplyTagUpdate(db.tags[i.value], input);
    UpdateKeepsKeys(db.tags, TagKey(), i.value, t);
    db.tags := db.tags[i.value := t];
    r := Success(t);
  }

  function NotTag(id: Id): Tag -> bool { (t: Tag) => t.id != id }
  function NotLinkTo(id: Id): TaskTag -> bool { (l: TaskTag) => l.tagId != id }

  /** deleteTag removes the tag and takes it off every task. */
  function DeleteTagStep(d: Database, id: Id): (o: Outcome<Tag>)
    ensures o.result.Failure? <==> id !in Keys(d.tags, TagKey())
    ensures o.result.Failure? ==> o.db == d && o.result.error == RecordNotFound
    ensures o.result.Success? ==> o.result.value in d.tags && o.result.value.id == id
    ensures o.result.Success? ==>
      o.db == d.(tags := Filter(d.tags, NotTag(id)), taskTags := Filter(d.taskTags, NotLinkTo(id)))
    ensures o.result.Success? ==>
      && (forall t :: t in o.db.tags <==> t in d.tags && t.id != id)
      && (forall l :: l in o.db.taskTags <==> l in d.taskTags && l.tagId != id)
  {
    match Find(d.tags, TagKey(), id)
    case None => Outcome(d, Failure(RecordNotFound))
    case Some(t) =>
      Outcome(d.(tags := Filter(d.tags, NotTag(id)), taskTags := Filter(d.taskTags, NotLinkTo(id))), Success(t))
  }

  /** After a tag delete no task lists the tag. */
  lemma DeletedTagOnNoTask(d: Database, id: Id)
    requires DeleteTagStep(d, id).result.Success?
    ensures TasksByTag(DeleteTagStep(d, id).db, id) == []
  {
  }

  method DeleteTag(db: Store.Db, id: Id) returns (r: Result<Tag, Error>)
    requires db.Valid()
    modifies db
    ensures db.Valid()
    ensures Outcome(db.State(), r) == DeleteTagStep(old(db.State()), id)
  {
    var found := Find(db.tags, TagKey(), id);
    if found.None? {
      return Failure(RecordNotFound);
    }
    FilterKeepsKeys(db.tags, TagKey(), NotTag(id));
    db.tags := Filter(db.tags, NotTag(id));
    db.taskTags := Filter(db.taskTags, NotLinkTo(id));
    r := Success(found.value);
  }
}
