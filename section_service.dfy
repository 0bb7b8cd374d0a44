/**
 * The section service: every mutator first resolves section -> project ->
 * workspace.userId and throws the same "Not found" for a missing row and for
 * another user's row, before it writes anything.
 */
module SectionService {
  import opened Wrappers
  import opened Tables
  import opened Entities
  import opened SectionSchema
  import Store

  /** The owner of a workspace: `workspace.userId`, None when the workspace
      row is missing or its user id is null. */
  function OwnerOf(d: Database, workspaceId: Id): (r: Option<Id>)
    ensures r.Some? ==> exists w :: w in d.workspaces && w.id == workspaceId && w.userId == r
    ensures workspaceId !in Keys(d.workspaces, WorkspaceKey()) ==> r.None?
    ensures UniqueKeys(d.workspaces, WorkspaceKey()) ==>
      forall w :: w in d.workspaces && w.id == workspaceId ==> r == w.userId
  {
    FindEvery(d.workspaces, WorkspaceKey());
    match Find(d.workspaces, WorkspaceKey(), workspaceId)
    case None => None
    case Some(w) => w.userId
  }

  /** The reference reading: some project row with this id sits in some
      workspace row owned by `userId`. */
  ghost predicate OwnsProject(d: Database, projectId: Id, userId: Id) {
    exists i, j :: 0 <= i < |d.projects| && 0 <= j < |d.workspaces| &&
      d.projects[i].id == projectId && d.workspaces[j].id == d.projects[i].workspaceId &&
      d.workspaces[j].userId == Some(userId)
  }

  ghost predicate OwnsSection(d: Database, sectionId: Id, userId: Id) {
    exists k :: 0 <= k < |d.sections| && d.sections[k].id == sectionId &&
      OwnsProject(d, d.sections[k].projectId, userId)
  }

  function VerifyProjectOwnership(d: Database, projectId: Id, userId: Id): (r: Result<Project, Error>)
    ensures r.Failure? ==> r.error == NotFound
    ensures r.Success? ==> r.value in d.projects && r.value.id == projectId
    ensures r.Success? ==> OwnsProject(d, projectId, userId)
  {
    match Find(d.projects, ProjectKey(), projectId)
    case None => Failure(NotFound)
    case Some(p) =>
      if OwnerOf(d, p.workspaceId) != Some(userId) then Failure(NotFound)
      else
        OwnsProjectByRows(d, p, userId);
        Success(p)
  }

  lemma OwnsProjectByRows(d: Database, p: Project, userId: Id)
    requires p in d.projects && OwnerOf(d, p.workspaceId) == Some(userId)
    ensures OwnsProject(d, p.id, userId)
  {
    var i :| 0 <= i < |d.projects| && d.projects[i] == p;
    var w :| w in d.workspaces && w.id == p.workspaceId && w.userId == Some(userId);
    var j :| 0 <= j < |d.workspaces| && d.workspaces[j] == w;
  }

  /** With unique ids the check fails exactly when the caller does not own
      the project, and a missing project fails the same way. */
  lemma ProjectOwnershipExact(d: Database, projectId: Id, userId: Id)
    requires UniqueKeys(d.projects, ProjectKey()) && UniqueKeys(d.workspaces, WorkspaceKey())
    ensures VerifyProjectOwnership(d, projectId, userId).Success? <==> OwnsProject(d, projectId, userId)
  {
    if OwnsProject(d, projectId, userId) {
      var i, j :| 0 <= i < |d.projects| && 0 <= j < |d.workspaces| &&
        d.projects[i].id == projectId && d.workspaces[j].id == d.projects[i].workspaceId &&
        d.workspaces[j].userId == Some(userId);
      FindUnique(d.projects, ProjectKey(), i);
      FindUnique(d.workspaces, WorkspaceKey(), j);
    }
  }

  function VerifySectionOwnership(d: Database, sectionId: Id, userId: Id): (r: Result<Section, Error>)
    ensures r.Failure? ==> r.error == NotFound
    ensures r.Success? ==> r.value in d.sections && r.value.id == sectionId
    ensures r.Success? ==> OwnsSection(d, sectionId, userId)
  {
    match Find(d.sections, SectionKey(), sectionId)
    case None => Failure(NotFound)
    case Some(s) =>
      match VerifyProjectOwnership(d, s.projectId, userId)
      case Failure(e) => Failure(e)
      case Success(_) =>
        OwnsSectionByRow(d, s, userId);
        Success(s)
  }

  lemma OwnsSectionByRow(d: Database, s: Section, userId: Id)
    requires s in d.sections && OwnsProject(d, s.projectId, userId)
    ensures OwnsSection(d, s.id, userId)
  {
    var k :| 0 <= k < |d.sections| && d.sections[k] == s;
  }

  lemma SectionOwnershipExact(d: Database, sectionId: Id, userId: Id)
    requires Consistent(d)
    ensures VerifySectionOwnership(d, sectionId, userId).Success? <==> OwnsSection(d, sectionId, userId)
  {
    if OwnsSection(d, sectionId, userId) {
      var k :| 0 <= k < |d.sections| && d.sections[k].id == sectionId &&
        OwnsProject(d, d.sections[k].projectId, userId);
      FindUnique(d.sections, SectionKey(), k);
      ProjectOwnershipExact(d, d.sections[k].projectId, userId);
    }
  }

  // ---------------------------------------------------------------------------
  // mutators
  // ---------------------------------------------------------------------------

  function InProject(projectId: Id): Section -> bool { (s: Section) => s.projectId == projectId }

  function SectionOrder(): Section -> int { (s: Section) => s.order }

  /** The order of a new section: above every section of the project, or 0. */
  function NewSectionOrder(ss: seq<Section>, projectId: Id): (r: int)
    ensures forall s :: s in ss && s.projectId == projectId ==> s.order < r
    ensures (forall s :: s in ss ==> s.projectId != projectId) ==> r == 0
    ensures (exists s :: s in ss && s.projectId == projectId) ==>
              exists s :: s in ss && s.projectId == projectId && s.order == r - 1
  {
    NextPositionIsAppend(ss, InProject(projectId), SectionOrder());
    assert forall s :: InProject(projectId)(s) == (s.projectId == projectId);
    NextPosition(ss, InProject(projectId), SectionOrder())
  }

  predicate FreshSectionId(ss: seq<Section>, id: Id) { id !in Keys(ss, SectionKey()) }

  function CreateSectionStep(d: Database, userId: Id, input: CreateSectionInput, id: Id): (o: Outcome<Section>)
    ensures o.result.Failure? <==> VerifyProjectOwnership(d, input.projectId, userId).Failure?
    ensures o.result.Failure? ==> o.db == d && o.result.error == NotFound
    ensures o.result.Success? ==>
      && o.result.value == Section(id, input.projectId, input.name, NewSectionOrder(d.sections, input.projectId))
      && o.db == d.(sections := d.sections + [o.result.value])
  {
    match VerifyProjectOwnership(d, input.projectId, userId)
    case Failure(e) => Outcome(d, Failure(e))
    case Success(_) =>
      var s := Section(id, input.projectId, input.name, NewSectionOrder(d.sections, input.projectId));
      Outcome(d.(sections := d.sections + [s]), Success(s))
  }

  method CreateSection(db: Store.Db, userId: Id, input: CreateSectionInput, id: Id) returns (r: Result<Section, Error>)
    requires db.Valid() && FreshSectionId(db.sections, id)
    modifies db
    ensures db.Valid()
    ensures Outcome(db.State(), r) == CreateSectionStep(old(db.State()), userId, input, id)
  {
    var owned := VerifyProjectOwnership(db.State(), input.projectId, userId);
    if owned.Failure? {
      return Failure(owned.error);
    }
    var order := NewSectionOrder(db.sections, input.projectId);
    var s := Section(id, input.projectId, input.name, order);
    AppendKeepsKeys(db.sections, SectionKey(), s);
    db.sections := db.sections + [s];
    r := Success(s);
  }

  /** Rewrites one section after the ownership check; nothing else changes. */
  function UpdateSectionRow(d: Database, userId: Id, id: Id, f: Section -> Section): (o: Outcome<Section>)
    ensures o.result.Failure? <==> VerifySectionOwnership(d, id, userId).Failure?
    ensures o.result.Failure? ==> o.db == d && o.result.error == NotFound
    ensures o.result.Success? ==>
      var i := IndexOf(d.sections, SectionKey(), id).value;
      o.db == d.(sections := d.sections[i := f(d.sections[i])]) && o.result.value == f(d.sections[i])
  {
    match VerifySectionOwnership(d, id, userId)
    case Failure(e) => Outcome(d, Failure(e))
    case Success(_) =>
      var i := IndexOf(d.sections, SectionKey(), id).value;
      Outcome(d.(sections := d.sections[i := f(d.sections[i])]), Success(f(d.sections[i])))
  }

  function Rename(name: string): Section -> Section { (s: Section) => s.(name := name) }
  function Reposition(order: int): Section -> Section { (s: Section) => s.(order := order) }

  /** updateSection writes only the name. */
  function UpdateSectionStep(d: Database, userId: Id, input: UpdateSectionInput): (o: Outcome<Section>)
    ensures o.result.Failure? <==> VerifySectionOwnership(d, input.id, userId).Failure?
    ensures o.result.Failure? ==> o.db == d && o.result.error == NotFound
    ensures o.result.Success? ==>
      var i := IndexOf(d.sections, SectionKey(), input.id).value;
      o.db == d.(sections := d.sections[i := d.sections[i].(name := input.name)])
  {
    UpdateSectionRow(d, userId, input.id, Rename(input.name))
  }

  /** reorderSection writes only the order. */
  function ReorderSectionStep(d: Database, userId: Id, input: ReorderSectionInput): (o: Outcome<Section>)
    ensures o.result.Failure? <==> VerifySectionOwnership(d, input.id, userId).Failure?
    ensures o.result.Failure? ==> o.db == d && o.result.error == NotFound
    ensures o.result.Success? ==>
      var i := IndexOf(d.sections, SectionKey(), input.id).value;
      o.db == d.(sections := d.sections[i := d.sections[i].(order := input.order)])
  {
    UpdateSectionRow(d, userId, input.id, Reposition(input.order))
  }

  method UpdateSection(db: Store.Db, userId: Id, input: UpdateSectionInput) returns (r: Result<Section, Error>)
    requires db.Valid()
    modifies db
    ensures db.Valid()
    ensures Outcome(db.State(), r) == UpdateSectionStep(old(db.State()), userId, input)
  {
    var owned := VerifySectionOwnership(db.State(), input.id, userId);
    if owned.Failure? {
      return Failure(owned.error);
    }
    var i := IndexOf(db.sections, SectionKey(), input.id).value;
    var s := db.sections[i].(name := input.name);
    UpdateKeepsKeys(db.sections, SectionKey(), i, s);
    db.sections := db.sections[i := s];
    r := Success(s);
  }

  method ReorderSection(db: Store.Db, userId: Id, input: ReorderSectionInput) returns (r: Result<Section, Error>)
    requires db.Valid()
    modifies db
    ensures db.Valid()
    ensures Outcome(db.State(), r) == ReorderSectionStep(old(db.State()), userId, input)
  {
    var owned := VerifySectionOwnership(db.State(), input.id, userId);
    if owned.Failure? {
      return Failure(owned.error);
    }
    var i := IndexOf(db.sections, SectionKey(), input.id).value;
    var s := db.sections[i].(order := input.order);
    UpdateKeepsKeys(db.sections, SectionKey(), i, s);
    db.sections := db.sections[i := s];
    r := Success(s);
  }

  function OtherSection(id: Id): Section -> bool { (s: Section) => s.id != id }

  /** The set-null rule: a task of the deleted section becomes unsectioned. */
  function Unsection(id: Id): Task -> Task {
    (t: Task) => if t.sectionId == Some(id) then t.(sectionId := None) else t
  }

  /** deleteSection removes the section; its tasks stay, unsectioned. */
  function DeleteSectionStep(d: Database, userId: Id, id: Id): (o: Outcome<Section>)
    ensures o.result.Failure? <==> VerifySectionOwnership(d, id, userId).Failure?
    ensures o.result.Failure? ==> o.db == d && o.result.error == NotFound
    ensures o.result.Success? ==>
      && o.db.sections == Filter(d.sections, OtherSection(id))
      && o.db.tasks == MapRows(d.tasks, Unsection(id))
      && o.db == d.(sections := o.db.sections, tasks := o.db.tasks)
  {
    match VerifySectionOwnership(d, id, userId)
    case Failure(e) => Outcome(d, Failure(e))
    case Success(s) =>
      Outcome(d.(sections := Filter(d.sections, OtherSection(id)), tasks := MapRows(d.tasks, Unsection(id))),
              Success(s))
  }

  /** After a section delete no section has its id, no task points at it, and
      every task is still there with the same id, name and status. */
  lemma DeleteSectionKeepsTasks(d: Database, userId: Id, id: Id)
    requires DeleteSectionStep(d, userId, id).result.Success?
    ensures var o := DeleteSectionStep(d, userId, id);
      && (forall s :: s in o.db.sections ==> s.id != id)
      && |o.db.tasks| == |d.tasks|
      && (forall i :: 0 <= i < |d.tasks| ==>
            o.db.tasks[i].sectionId != Some(id) &&
            o.db.tasks[i] == (if d.tasks[i].sectionId == Some(id) then d.tasks[i].(sectionId := None) else d.tasks[i]))
  {
  }

  method DeleteSection(db: Store.Db, userId: Id, id: Id) returns (r: Result<Section, Error>)
    requires db.Valid()
    modifies db
    ensures db.Valid()
    ensures Outcome(db.State(), r) == DeleteSectionStep(old(db.State()), userId, id)
  {
    var owned := VerifySectionOwnership(db.State(), id, userId);
    if owned.Failure? {
      return Failure(owned.error);
    }
    FilterKeepsKeys(db.sections, SectionKey(), OtherSection(id));
    MapTasksKeepsConsistency(db.tasks, Unsection(id));
    db.sections := Filter(db.sections, OtherSection(id));
    db.tasks := MapRows(db.tasks, Unsection(id));
    r := Success(owned.value);
  }
}
