/** The project input schemas. */
module ProjectSchema {
  import opened Wrappers
  import opened Validation

  const NameMax := 100

  const CreateProject: Schema := [
    FieldSpec("workspaceId", Str(Required, 1, None, None)),
    FieldSpec("name", Str(Required, 1, Some(NameMax), Some(NameRequired)))
  ]

  const UpdateProject: Schema := [
    FieldSpec("id", Str(Required, 1, None, None)),
    FieldSpec("name", Str(Required, 1, Some(NameMax), Some(NameRequired)))
  ]

  datatype CreateProjectInput = CreateProjectInput(workspaceId: string, name: string)
  datatype UpdateProjectInput = UpdateProjectInput(id: string, name: string)

  predicate NonEmptyString(o: Object, key: string) {
    key in o && o[key].JString? && o[key].s != ""
  }

  predicate ValidName(o: Object) {
    "name" in o && o["name"].JString? && 1 <= |o["name"].s| <= NameMax
  }

  function ParseCreate(o: Object): (r: Result<CreateProjectInput, seq<Issue>>)
    ensures r.Success? <==> NonEmptyString(o, "workspaceId") && ValidName(o)
    ensures r.Success? ==> r.value == CreateProjectInput(o["workspaceId"].s, o["name"].s)
    ensures r.Failure? ==> r.error == Issues(CreateProject, o) && r.error != []
  {
    IssuesEmptyIffAccepts(CreateProject, o);
    assert Accepts(CreateProject, o) <==>
      FieldOk(o, CreateProject[0]) && FieldOk(o, CreateProject[1]);
    if Issues(CreateProject, o) == [] then
      Success(CreateProjectInput(o["workspaceId"].s, o["name"].s))
    else Failure(Issues(CreateProject, o))
  }

  function ParseUpdate(o: Object): (r: Result<UpdateProjectInput, seq<Issue>>)
    ensures r.Success? <==> NonEmptyString(o, "id") && ValidName(o)
    ensures r.Success? ==> r.value == UpdateProjectInput(o["id"].s, o["name"].s)
    ensures r.Failure? ==> r.error == Issues(UpdateProject, o) && r.error != []
  {
    IssuesEmptyIffAccepts(UpdateProject, o);
    assert Accepts(UpdateProject, o) <==>
      FieldOk(o, UpdateProject[0]) && FieldOk(o, UpdateProject[1]);
    if Issues(UpdateProject, o) == [] then
      Success(UpdateProjectInput(o["id"].s, o["name"].s))
    else Failure(Issues(UpdateProject, o))
  }
}
