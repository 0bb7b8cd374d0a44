/** The workspace input schemas: a name of 1 to 100 characters, plus the id on update. */
module WorkspaceSchema {
  import opened Wrappers
  import opened Validation
  import Text

  const NameMax := 100

  const CreateWorkspace: Schema := [
    FieldSpec("name", Str(Required, 1, Some(NameMax), Some(NameRequired)))
  ]

  const UpdateWorkspace: Schema := [
    FieldSpec("id", Str(Required, 1, None, None)),
    FieldSpec("name", Str(Required, 1, Some(NameMax), Some(NameRequired)))
  ]

  datatype CreateWorkspaceInput = CreateWorkspaceInput(name: string)
  datatype UpdateWorkspaceInput = UpdateWorkspaceInput(id: string, name: string)

  predicate ValidName(o: Object) {
    "name" in o && o["name"].JString? && 1 <= |o["name"].s| <= NameMax
  }

  predicate ValidId(o: Object) {
    "id" in o && o["id"].JString? && o["id"].s != ""
  }

  function ParseCreate(o: Object): (r: Result<CreateWorkspaceInput, seq<Issue>>)
    ensures r.Success? <==> ValidName(o)
    ensures r.Success? ==> r.value.name == o["name"].s
    ensures r.Failure? ==> r.error == Issues(CreateWorkspace, o) && r.error != []
  {
    IssuesEmptyIffAccepts(CreateWorkspace, o);
    assert Accepts(CreateWorkspace, o) <==> FieldOk(o, CreateWorkspace[0]);
    if Issues(CreateWorkspace, o) == [] then Success(CreateWorkspaceInput(o["name"].s))
    else Failure(Issues(CreateWorkspace, o))
  }

  function ParseUpdate(o: Object): (r: Result<UpdateWorkspaceInput, seq<Issue>>)
    ensures r.Success? <==> ValidId(o) && ValidName(o)
    ensures r.Success? ==> r.value == UpdateWorkspaceInput(o["id"].s, o["name"].s)
    ensures r.Failure? ==> r.error == Issues(UpdateWorkspace, o) && r.error != []
  {
    IssuesEmptyIffAccepts(UpdateWorkspace, o);
    assert Accepts(UpdateWorkspace, o) <==>
      FieldOk(o, UpdateWorkspace[0]) && FieldOk(o, UpdateWorkspace[1]);
    if Issues(UpdateWorkspace, o) == [] then
      Success(UpdateWorkspaceInput(o["id"].s, o["name"].s))
    else Failure(Issues(UpdateWorkspace, o))
  }

  /** A name is accepted at exactly 100 characters and refused at 101. */
  lemma NameLengthBoundary()
    ensures ParseCreate(map["name" := JString(Text.Repeat('a', 100))]).Success?
    ensures ParseCreate(map["name" := JString(Text.Repeat('a', 101))]).Failure?
  {
  }

  /** The workspace cases of the schema tests. */
  lemma SchemaTestCases()
    ensures ParseCreate(map["name" := JString("My Workspace")]).Success?
    ensures ParseCreate(map["name" := JString("")]).Failure?
    ensures ParseCreate(map["name" := JString(Text.Repeat('a', 101))]).Failure?
  {
  }

  /** The empty name is reported with the schema's own message. */
  lemma EmptyNameIsReported()
    ensures ParseCreate(map["name" := JString("")]).Failure?
    ensures ParseCreate(map["name" := JString("")]).error[0] == Issue("name", TooSmall(1), Some(NameRequired))
  {
  }
}
