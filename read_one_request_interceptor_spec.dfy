/** The read-one interceptor's unit-test scenarios, stated as lemmas about the model. */
module ReadOneRequestInterceptorSpec {
  import opened Interface
  import opened SeqOps
  import opened ReadOneRequestInterceptor

  lemma GetFieldsScenarios()
    ensures GetFields(None, None) == []
    ensures GetFields(None, Some(["1", "2", "3"])) == ["1", "2", "3"]
    ensures GetFields(Some(["11", "12", "13"]), None) == ["11", "12", "13"]
    ensures GetFields(Some(["1", "2", "3"]), Some(["1", "3"])) == ["1", "3"]
    ensures GetFields(Some(["1", "2", "3"]), Some(["4", "5"])) == []
  {
    var a := ["1", "2", "3"];
    assert FirstIndex(a, "1") == 0;
    assert FirstIndex(a, "3") == 2;
    GetFieldsIsTheOrderedIntersection(a, ["1", "3"], ["1", "3"]);
    GetFieldsNothingShared(a, ["4", "5"]);
  }

  function Col(name: string): Column {
    Column(name, "string", false)
  }

  function Columns123(): Option<seq<Column>> {
    Some([Col("col1"), Col("col2"), Col("col3")])
  }

  lemma ColumnNames123()
    ensures ColumnNames(Columns123()) == ["col1", "col2", "col3"]
  {
    var cs := [Col("col1"), Col("col2"), Col("col3")];
    assert MapSeq(cs, (c: Column) => c.name)[0] == "col1";
    assert MapSeq(cs, (c: Column) => c.name)[1] == "col2";
    assert MapSeq(cs, (c: Column) => c.name)[2] == "col3";
  }

  lemma CheckFieldsAcceptScenarios()
    ensures CheckFields(Undefined, Columns123()) == Ok(None)
    ensures CheckFields(Str("col1"), Columns123()) == Ok(Some(["col1"]))
    ensures CheckFields(Arr([Str("col1"), Str("col2")]), Columns123()) == Ok(Some(["col1", "col2"]))
  {
    ColumnNames123();
    var fields := Arr([Str("col1"), Str("col2")]);
    var names := NormaliseFields(fields).value;
    assert names == ["col1", "col2"];
    CheckFieldsAcceptsColumns(Str("col1"), Columns123());
    CheckFieldsAcceptsColumns(fields, Columns123());
  }

  lemma CheckFieldsUnknownScenario()
    ensures CheckFields(Str("col"), Columns123()) == Err(UnprocessableEntity(Message("used Invalid name col")))
  {
    ColumnNames123();
    var names := NormaliseFields(Str("col")).value;
    assert names == ["col"];
    assert "col" in names && "col" !in ColumnNames(Columns123());
    CheckFieldsRejectsUnknown(Str("col"), Columns123());
    var unknown := Difference(names, ColumnNames(Columns123()));
    assert unknown[0] in unknown;
    assert unknown == ["col"];
    assert Join(unknown, ",") == "col";
    assert "used Invalid name " + "col" == "used Invalid name col";
  }

  lemma MalformedFieldsScenarios()
    ensures var columns, rejected := Some([]), Err(UnprocessableEntity(FieldsViolation));
      && CheckFields(Num(1), columns) == rejected
      && CheckFields(Arr([Num(1), Num(2)]), columns) == rejected
      && CheckFields(Arr([Arr([Str("col1"), Str("col2")])]), columns) == rejected
      && CheckFields(Obj(map[]), columns) == rejected
      && CheckFields(Arr([Undefined]), columns) == rejected
      && CheckFields(Arr([Null]), columns) == rejected
  {
    assert !IsFieldList(Arr([Num(1), Num(2)])) by { assert !Arr([Num(1), Num(2)]).items[0].Str?; }
    assert !IsFieldList(Arr([Arr([Str("col1"), Str("col2")])])) by {
      assert !Arr([Arr([Str("col1"), Str("col2")])]).items[0].Str?;
    }
    assert !IsFieldList(Arr([Undefined])) by { assert !Arr([Undefined]).items[0].Str?; }
    assert !IsFieldList(Arr([Null])) by { assert !Arr([Null]).items[0].Str?; }
  }

  /** The scenarios below run the interceptor on a request with an empty
      override, no query and no path parameters that `checkParams` accepts. */
  function Resolve(crudOptions: CrudOptions, crudPolicy: CrudPolicy, checkParams: ParamCheck,
                   custom: CustomRequestOptions): Result<CrudRequest> {
    ResolveReadOneRequest(crudOptions, FactoryOption(None, None), crudPolicy, checkParams, map[], Undefined, Some(custom))
  }

  lemma ResponseScenarios(crudPolicy: CrudPolicy, checkParams: ParamCheck)
    requires crudPolicy(ReadOne).response == Entity
    requires checkParams(map[], None).Some?
    ensures Resolve(CrudOptions(map[]), crudPolicy, checkParams, NoOverride).value.response == Entity
    ensures Resolve(CrudOptions(map[ReadOne := EmptyRoute.(response := Some(Id))]), crudPolicy, checkParams, NoOverride)
              .value.response == Id
  {
  }

  lemma RelationsScenarios(crudPolicy: CrudPolicy, checkParams: ParamCheck)
    requires checkParams(map[], None).Some?
    ensures Resolve(CrudOptions(map[]), crudPolicy, checkParams, NoOverride.(relations := RelationsList(["foo"])))
              .value.relations == Some(["foo"])
    ensures Resolve(CrudOptions(map[ReadOne := EmptyRoute.(relations := RelationsDisabled)]), crudPolicy, checkParams, NoOverride)
              .value.relations == Some([])
    ensures Resolve(CrudOptions(map[ReadOne := EmptyRoute.(relations := RelationsList(["bar"]))]), crudPolicy, checkParams, NoOverride)
              .value.relations == Some(["bar"])
  {
  }
}
