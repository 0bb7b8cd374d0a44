/** The section input schemas. */
module SectionSchema {
  import opened Wrappers
  import opened Validation

  const NameMax := 100

  const CreateSection: Schema := [
    FieldSpec("projectId", Str(Required, 1, None, None)),
    FieldSpec("name", Str(Required, 1, Some(NameMax), Some(NameRequired)))
  ]

  const UpdateSection: Schema := [
    FieldSpec("id", Str(Required, 1, None, None)),
    FieldSpec("name", Str(Required, 1, Some(NameMax), Some(NameRequired)))
  ]

  const ReorderSection: Schema := [
    FieldSpec("id", Str(Required, 1, None, None)),
    FieldSpec("order", Number)
  ]

  datatype CreateSectionInput = CreateSectionInput(projectId: string, name: string)
  datatype UpdateSectionInput = UpdateSectionInput(id: string, name: string)
  datatype ReorderSectionInput = ReorderSectionInput(id: string, order: int)

  predicate NonEmptyString(o: Object, key: string) {
    key in o && o[key].JString? && o[key].s != ""
  }

  predicate ValidName(o: Object) {
    "name" in o && o["name"].JString? && 1 <= |o["name"].s| <= NameMax
  }

  function ParseCreate(o: Object): (r: Result<CreateSectionInput, seq<Issue>>)
    ensures r.Success? <==> NonEmptyString(o, "projectId") && ValidName(o)
    ensures r.Success? ==> r.value == CreateSectionInput(o["projectId"].s, o["name"].s)
    ensures r.Failure? ==> r.error == Issues(CreateSection, o) && r.error != []
  {
    IssuesEmptyIffAccepts(CreateSection, o);
    assert Accepts(CreateSection, o) <==>
      FieldOk(o, CreateSection[0]) && FieldOk(o, CreateSection[1]);
    if Issues(CreateSection, o) == [] then
      Success(CreateSectionInput(o["projectId"].s, o["name"].s))
    else Failure(Issues(CreateSection, o))
  }

  function ParseUpdate(o: Object): (r: Result<UpdateSectionInput, seq<Issue>>)
    ensures r.Success? <==> NonEmptyString(o, "id") && ValidName(o)
    ensures r.Success? ==> r.value == UpdateSectionInput(o["id"].s, o["name"].s)
    ensures r.Failure? ==> r.error == Issues(UpdateSection, o) && r.error != []
  {
    IssuesEmptyIffAccepts(UpdateSection, o);
    assert Accepts(UpdateSection, o) <==>
      FieldOk(o, UpdateSection[0]) && FieldOk(o, UpdateSection[1]);
    if Issues(UpdateSection, o) == [] then
      Success(UpdateSectionInput(o["id"].s, o["name"].s))
    else Failure(Issues(UpdateSection, o))
  }

  function ParseReorder(o: Object): (r: Result<ReorderSectionInput, seq<Issue>>)
    ensures r.Success? <==> NonEmptyString(o, "id") && "order" in o && o["order"].JNumber?
    ensures r.Success? ==> r.value == ReorderSectionInput(o["id"].s, o["order"].n)
    ensures r.Failure? ==> r.error == Issues(ReorderSection, o) && r.error != []
  {
    IssuesEmptyIffAccepts(ReorderSection, o);
    assert Accepts(ReorderSection, o) <==>
      FieldOk(o, ReorderSection[0]) && FieldOk(o, ReorderSection[1]);
    if Issues(ReorderSection, o) == [] then
      Success(ReorderSectionInput(o["id"].s, o["order"].n))
    else Failure(Issues(ReorderSection, o))
  }
}
