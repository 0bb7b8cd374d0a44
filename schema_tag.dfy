/** The tag input schemas: a name of 1 to 50 characters and an optional,
    nullable colour of at most 7 characters. */
module TagSchema {
  import opened Wrappers
  import opened Validation

  const NameMax := 50
  const ColorMax := 7

  const CreateTag: Schema := [
    FieldSpec("name", Str(Required, 1, Some(NameMax), Some(NameRequired))),
    FieldSpec("color", Str(Nullish, 0, Some(ColorMax), None))
  ]

  const UpdateTag: Schema := [
    FieldSpec("id", Str(Required, 1, None, None)),
    FieldSpec("name", Str(Optional, 1, Some(NameMax), Some(NameRequired))),
    FieldSpec("color", Str(Nullish, 0, Some(ColorMax), None))
  ]

  /** `color` is None for both null and a missing key: createTag stores `?? null`. */
  datatype CreateTagInput = CreateTagInput(name: string, color: Option<string>)
  datatype UpdateTagInput = UpdateTagInput(id: string, name: Option<string>, color: Nullish<string>)

  predicate ValidColor(o: Object) {
    "color" in o ==> o["color"].JNull? || (o["color"].JString? && |o["color"].s| <= ColorMax)
  }

  predicate ValidCreate(o: Object) {
    && "name" in o && o["name"].JString? && 1 <= |o["name"].s| <= NameMax
    && ValidColor(o)
  }

  predicate ValidUpdate(o: Object) {
    && "id" in o && o["id"].JString? && o["id"].s != ""
    && ("name" in o ==> o["name"].JString? && 1 <= |o["name"].s| <= NameMax)
    && ValidColor(o)
  }

  function ParseCreate(o: Object): (r: Result<CreateTagInput, seq<Issue>>)
    ensures r.Success? <==> ValidCreate(o)
    ensures r.Success? ==> r.value == CreateTagInput(o["name"].s, OptString(o, "color"))
    ensures r.Failure? ==> r.error == Issues(CreateTag, o) && r.error != []
  {
    IssuesEmptyIffAccepts(CreateTag, o);
    assert Accepts(CreateTag, o) <==> FieldOk(o, CreateTag[0]) && FieldOk(o, CreateTag[1]);
    if Issues(CreateTag, o) == [] then
      Success(CreateTagInput(o["name"].s, OptString(o, "color")))
    else Failure(Issues(CreateTag, o))
  }

  function ParseUpdate(o: Object): (r: Result<UpdateTagInput, seq<Issue>>)
    ensures r.Success? <==> ValidUpdate(o)
    ensures r.Success? ==>
      r.value == UpdateTagInput(o["id"].s, OptString(o, "name"), NullishString(o, "color"))
    ensures r.Failure? ==> r.error == Issues(UpdateTag, o) && r.error != []
  {
    IssuesEmptyIffAccepts(UpdateTag, o);
    assert Accepts(UpdateTag, o) <==>
      FieldOk(o, UpdateTag[0]) && FieldOk(o, UpdateTag[1]) && FieldOk(o, UpdateTag[2]);
    if Issues(UpdateTag, o) == [] then
      Success(UpdateTagInput(o["id"].s, OptString(o, "name"), NullishString(o, "color")))
    else Failure(Issues(UpdateTag, o))
  }

  /** A colour such as "#ff0000" fits; one more character does not. */
  lemma ColorLengthBoundary()
    ensures ParseCreate(map["name" := JString("x"), "color" := JString("#ff0000")]).Success?
    ensures ParseCreate(map["name" := JString("x"), "color" := JString("#ff00000")]).Failure?
    ensures ParseCreate(map["name" := JString("x"), "color" := JNull]).Success?
  {
  }
}
