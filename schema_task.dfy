/** The task input schemas. */
module TaskSchema {
  import opened Wrappers
  import opened Validation
  import Effort

  const NameMax := 500
  const DescriptionMax := 5000

  const CreateTask: Schema := [
    FieldSpec("projectId", Str(Required, 1, None, None)),
    FieldSpec("sectionId", Str(Nullish, 0, None, None)),
    FieldSpec("parentTaskId", Str(Nullish, 0, None, None)),
    FieldSpec("name", Str(Required, 1, Some(NameMax), Some(NameRequired))),
    FieldSpec("description", Str(Optional, 0, Some(DescriptionMax), None)),
    FieldSpec("deadlineAt", Date(Nullish)),
    FieldSpec("effort", Effort(Nullish)),
    FieldSpec("tagIds", StringArray(Optional))
  ]

  const UpdateTask: Schema := [
    FieldSpec("id", Str(Required, 1, None, None)),
    FieldSpec("name", Str(Optional, 1, Some(NameMax), Some(NameRequired))),
    FieldSpec("description", Str(Nullish, 0, Some(DescriptionMax), None)),
    FieldSpec("deadlineAt", Date(Nullish)),
    FieldSpec("sectionId", Str(Nullish, 0, None, None)),
    FieldSpec("effort", Effort(Nullish)),
    FieldSpec("tagIds", StringArray(Optional))
  ]

  const ReorderTask: Schema := [
    FieldSpec("id", Str(Required, 1, None, None)),
    FieldSpec("order", Number)
  ]

  /** Create input; null and a missing key are both None (createTask stores `?? null`). */
  datatype CreateTaskInput = CreateTaskInput(
    projectId: string,
    sectionId: Option<string>,
    parentTaskId: Option<string>,
    name: string,
    description: Option<string>,
    deadlineAt: Option<int>,
    effort: Option<int>,
    tagIds: Option<seq<string>>)

  /** Update input; a missing key leaves the column alone, null clears it. */
  datatype UpdateTaskInput = UpdateTaskInput(
    id: string,
    name: Option<string>,
    description: Nullish<string>,
    deadlineAt: Nullish<int>,
    sectionId: Nullish<string>,
    effort: Nullish<int>,
    tagIds: Option<seq<string>>)

  datatype ReorderTaskInput = ReorderTaskInput(id: string, order: int)

  // the accepted inputs, field by field

  predicate NullishStr(o: Object, key: string) {
    key in o ==> o[key].JNull? || o[key].JString?
  }

  predicate NullishDate(o: Object, key: string) {
    key in o ==> o[key].JNull? || CoercesToDate(o[key])
  }

  predicate NullishEffort(o: Object, key: string) {
    key in o ==> o[key].JNull? || (o[key].JNumber? && o[key].n in Effort.EffortValues)
  }

  predicate OptionalStringArray(o: Object, key: string) {
    key in o ==>
      o[key].JArray? && forall i :: 0 <= i < |o[key].items| ==> o[key].items[i].JString?
  }

  predicate ValidCreate(o: Object) {
    && "projectId" in o && o["projectId"].JString? && o["projectId"].s != ""
    && NullishStr(o, "sectionId")
    && NullishStr(o, "parentTaskId")
    && "name" in o && o["name"].JString? && 1 <= |o["name"].s| <= NameMax
    && ("description" in o ==> o["description"].JString? && |o["description"].s| <= DescriptionMax)
    && NullishDate(o, "deadlineAt")
    && NullishEffort(o, "effort")
    && OptionalStringArray(o, "tagIds")
  }

  predicate ValidUpdate(o: Object) {
    && "id" in o && o["id"].JString? && o["id"].s != ""
    && ("name" in o ==> o["name"].JString? && 1 <= |o["name"].s| <= NameMax)
    && ("description" in o ==>
          o["description"].JNull? ||
          (o["description"].JString? && |o["description"].s| <= DescriptionMax))
    && NullishDate(o, "deadlineAt")
    && NullishStr(o, "sectionId")
    && NullishEffort(o, "effort")
    && OptionalStringArray(o, "tagIds")
  }

  /** The effort literals of the schema are exactly the effort scale. */
  lemma EffortLiteralsAreTheScale(n: int)
    ensures IsEffortLiteral(n) <==> n in Effort.EffortValues
  {
  }

  /** The create schema accepts exactly the inputs of `ValidCreate`. */
  lemma CreateAcceptsExact(o: Object)
    ensures Accepts(CreateTask, o) <==> ValidCreate(o)
  {
    assert Accepts(CreateTask, o) <==>
      FieldOk(o, CreateTask[0]) && FieldOk(o, CreateTask[1]) && FieldOk(o, CreateTask[2]) &&
      FieldOk(o, CreateTask[3]) && FieldOk(o, CreateTask[4]) && FieldOk(o, CreateTask[5]) &&
      FieldOk(o, CreateTask[6]) && FieldOk(o, CreateTask[7]);
  }

  /** The update schema accepts exactly the inputs of `ValidUpdate`. */
  lemma UpdateAcceptsExact(o: Object)
    ensures Accepts(UpdateTask, o) <==> ValidUpdate(o)
  {
    assert Accepts(UpdateTask, o) <==>
      FieldOk(o, UpdateTask[0]) && FieldOk(o, UpdateTask[1]) && FieldOk(o, UpdateTask[2]) &&
      FieldOk(o, UpdateTask[3]) && FieldOk(o, UpdateTask[4]) && FieldOk(o, UpdateTask[5]) &&
      FieldOk(o, UpdateTask[6]);
  }

  function ParseCreate(o: Object): (r: Result<CreateTaskInput, seq<Issue>>)
    ensures r.Success? <==> ValidCreate(o)
    ensures r.Success? ==> r.value == CreateTaskInput(
      o["projectId"].s, OptString(o, "sectionId"), OptString(o, "parentTaskId"),
      o["name"].s, OptString(o, "description"), OptDate(o, "deadlineAt"),
      OptNumber(o, "effort"), OptStrings(o, "tagIds"))
    ensures r.Failure? ==> r.error == Issues(CreateTask, o) && r.error != []
  {
    IssuesEmptyIffAccepts(CreateTask, o);
    CreateAcceptsExact(o);
    if Issues(CreateTask, o) == [] then
      Success(CreateTaskInput(
        o["projectId"].s, OptString(o, "sectionId"), OptString(o, "parentTaskId"),
        o["name"].s, OptString(o, "description"), OptDate(o, "deadlineAt"),
        OptNumber(o, "effort"), OptStrings(o, "tagIds")))
    else Failure(Issues(CreateTask, o))
  }

  function ParseUpdate(o: Object): (r: Result<UpdateTaskInput, seq<Issue>>)
    ensures r.Success? <==> ValidUpdate(o)
    ensures r.Success? ==> r.value == UpdateTaskInput(
      o["id"].s, OptString(o, "name"), NullishString(o, "description"),
      Validation.NullishDate(o, "deadlineAt"), NullishString(o, "sectionId"),
      NullishNumber(o, "effort"), OptStrings(o, "tagIds"))
    ensures r.Failure? ==> r.error == Issues(UpdateTask, o) && r.error != []
  {
    IssuesEmptyIffAccepts(UpdateTask, o);
    UpdateAcceptsExact(o);
    if Issues(UpdateTask, o) == [] then
      Success(UpdateTaskInput(
        o["id"].s, OptString(o, "name"), NullishString(o, "description"),
        Validation.NullishDate(o, "deadlineAt"), NullishString(o, "sectionId"),
        NullishNumber(o, "effort"), OptStrings(o, "tagIds")))
    else Failure(Issues(UpdateTask, o))
  }

  function ParseReorder(o: Object): (r: Result<ReorderTaskInput, seq<Issue>>)
    ensures r.Success? <==>
      "id" in o && o["id"].JString? && o["id"].s != "" && "order" in o && o["order"].JNumber?
    ensures r.Success? ==> r.value == ReorderTaskInput(o["id"].s, o["order"].n)
    ensures r.Failure? ==> r.error == Issues(ReorderTask, o) && r.error != []
  {
    IssuesEmptyIffAccepts(ReorderTask, o);
    assert Accepts(ReorderTask, o) <==> FieldOk(o, ReorderTask[0]) && FieldOk(o, ReorderTask[1]);
    if Issues(ReorderTask, o) == [] then Success(ReorderTaskInput(o["id"].s, o["order"].n))
    else Failure(Issues(ReorderTask, o))
  }

  /** The task cases of the schema tests; the deadline string is represented
      by the instant it parses to. */
  lemma SchemaTestCases(deadline: int)
    ensures ParseCreate(map[
      "projectId" := JString("proj-1"), "name" := JString("My Task"),
      "description" := JString("Some description"), "deadlineAt" := JDate(deadline),
      "tagIds" := JArray([JString("tag-1")])]).Success?
    ensures ParseCreate(map["projectId" := JString("proj-1"), "name" := JString("My Task")]).Success?
    ensures ParseCreate(map["projectId" := JString("proj-1"), "name" := JString("")]).Failure?
    ensures ParseCreate(map["projectId" := JString(""), "name" := JString("My Task")]).Failure?
  {
  }

  /** An effort off the scale is refused; null clears it on update. */
  lemma EffortOffScaleRefused(n: int)
    requires n !in Effort.EffortValues
    ensures ParseCreate(map["projectId" := JString("p"), "name" := JString("t"), "effort" := JNumber(n)]).Failure?
    ensures ParseUpdate(map["id" := JString("t"), "effort" := JNull]).Success?
    ensures ParseUpdate(map["id" := JString("t"), "effort" := JNull]).value.effort == Null
  {
  }
}
