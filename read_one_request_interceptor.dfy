/** The read-one interceptor: validates `?fields=`, resolves soft-delete
    visibility, the response shape, the field projection and the relations,
    checks the path parameters, and stores the read-one descriptor. */
module ReadOneRequestInterceptor {
  import opened Interface
  import opened SeqOps

  const RouteMethod: Method := ReadOne

  /** Reconciles the field list an override supplies with the one the request
      asked for: either alone wins, both give their intersection. */
  function GetFields(interceptorFields: Option<seq<string>>, requestFields: Option<seq<string>>): (r: seq<string>)
    ensures forall x :: x in r ==>
      (interceptorFields.Some? ==> x in interceptorFields.value) &&
      (requestFields.Some? ==> x in requestFields.value)
  {
    if interceptorFields.None? then requestFields.GetOr([])
    else if requestFields.None? then interceptorFields.value
    else Intersection(interceptorFields.value, requestFields.value)
  }

  lemma GetFieldsOneSideAbsent(interceptorFields: seq<string>, requestFields: Option<seq<string>>)
    ensures GetFields(None, requestFields) == requestFields.GetOr([])
    ensures GetFields(Some(interceptorFields), None) == interceptorFields
  {
  }

  /** With both lists present the result is the duplicate-free list of the names
      they share, in the order of the override list. */
  lemma GetFieldsBothPresent(interceptorFields: seq<string>, requestFields: seq<string>)
    ensures var r := GetFields(Some(interceptorFields), Some(requestFields));
      (forall x :: x in r <==> x in interceptorFields && x in requestFields) &&
      NoDuplicates(r) &&
      InFirstOccurrenceOrder(r, interceptorFields)
  {
    IntersectionInOrder(interceptorFields, requestFields);
  }

  /** The three properties above determine the result completely. */
  lemma GetFieldsIsTheOrderedIntersection(interceptorFields: seq<string>, requestFields: seq<string>, r: seq<string>)
    requires forall x :: x in r <==> x in interceptorFields && x in requestFields
    requires InFirstOccurrenceOrder(r, interceptorFields)
    ensures r == GetFields(Some(interceptorFields), Some(requestFields))
  {
    var g := GetFields(Some(interceptorFields), Some(requestFields));
    GetFieldsBothPresent(interceptorFields, requestFields);
    FirstOccurrenceOrderUnique(r, g, interceptorFields);
  }

  lemma GetFieldsNothingShared(interceptorFields: seq<string>, requestFields: seq<string>)
    requires forall x :: x in interceptorFields ==> x !in requestFields
    ensures GetFields(Some(interceptorFields), Some(requestFields)) == []
  {
    IntersectionDisjoint(interceptorFields, requestFields);
  }

  /** The names of the entity's declared columns (`factoryOption.columns ?? []`). */
  function ColumnNames(columns: Option<seq<Column>>): (r: seq<string>)
    ensures columns.None? ==> r == []
    ensures columns.Some? ==>
      (|r| == |columns.value| && forall i :: 0 <= i < |r| ==> r[i] == columns.value[i].name)
  {
    MapSeq(columns.GetOr([]), (c: Column) => c.name)
  }

  /** The class-validator error list `RequestFieldsDto` produces for a malformed value. */
  const FieldsViolation := Violations([Violation("fields")])

  /** A value `RequestFieldsDto` accepts: one string, or a list of strings. */
  predicate IsFieldList(fields: JsValue) {
    fields.Str? || (fields.Arr? && forall i :: 0 <= i < |fields.items| ==> fields.items[i].Str?)
  }

  function StringOf(v: JsValue): string {
    if v.Str? then v.s else ""
  }

  /** `plainToClass(RequestFieldsDto, { fields })` followed by `validateSync`:
      a single string becomes a one-element list, a list of strings stays as
      it is, anything else is rejected on property `fields`. */
  function NormaliseFields(fields: JsValue): (r: Result<seq<string>>)
    ensures r.Ok? <==> IsFieldList(fields)
    ensures fields.Str? ==> r == Ok([fields.s])
    ensures r.Err? ==> r.error == UnprocessableEntity(FieldsViolation)
    ensures r.Ok? && fields.Arr? ==>
      (|r.value| == |fields.items| &&
       forall i :: 0 <= i < |fields.items| ==> fields.items[i] == Str(r.value[i]))
  {
    match fields
    case Str(s) => Ok([s])
    case Arr(items) =>
      if forall i :: 0 <= i < |items| ==> items[i].Str? then Ok(MapSeq(items, StringOf))
      else Err(UnprocessableEntity(FieldsViolation))
    case _ => Err(UnprocessableEntity(FieldsViolation))
  }

  /** Normalises and validates `?fields=` against the declared columns; `None`
      means that the request does not restrict the fields. */
  function CheckFields(fields: JsValue, columns: Option<seq<Column>>): (r: Result<Option<seq<string>>>)
    ensures r.Err? ==> r.error.UnprocessableEntity?
    ensures r.Ok? && r.value.Some? ==>
      r.value.value != [] && forall n :: n in r.value.value ==> n in ColumnNames(columns)
  {
    if IsFalsy(fields) || (fields.Arr? && |fields.items| == 0) then Ok(None)
    else
      match NormaliseFields(fields)
      case Err(e) => Err(e)
      case Ok(requestFields) =>
        var invalidColumns := Difference(requestFields, ColumnNames(columns));
        if |invalidColumns| > 0 then
          Err(UnprocessableEntity(Message("used Invalid name " + Join(invalidColumns, ","))))
        else
          Ok(Some(requestFields))
  }

  lemma CheckFieldsNoRestriction(fields: JsValue, columns: Option<seq<Column>>)
    requires IsFalsy(fields) || fields == Arr([])
    ensures CheckFields(fields, columns) == Ok(None)
  {
  }

  /** A field list whose every name is a column comes back normalised. */
  lemma CheckFieldsAcceptsColumns(fields: JsValue, columns: Option<seq<Column>>)
    requires !IsFalsy(fields) && fields != Arr([]) && IsFieldList(fields)
    requires forall n :: n in NormaliseFields(fields).value ==> n in ColumnNames(columns)
    ensures fields.Str? ==> CheckFields(fields, columns) == Ok(Some([fields.s]))
    ensures fields.Arr? ==> CheckFields(fields, columns) == Ok(Some(NormaliseFields(fields).value))
  {
  }

  /** A name outside the columns is rejected with every unknown name listed,
      comma-separated, in request order (repetitions kept). */
  lemma CheckFieldsRejectsUnknown(fields: JsValue, columns: Option<seq<Column>>)
    requires !IsFalsy(fields) && fields != Arr([]) && IsFieldList(fields)
    requires exists n :: n in NormaliseFields(fields).value && n !in ColumnNames(columns)
    ensures var unknown := Difference(NormaliseFields(fields).value, ColumnNames(columns));
      unknown != [] &&
      (forall n :: n in unknown <==> n in NormaliseFields(fields).value && n !in ColumnNames(columns)) &&
      CheckFields(fields, columns) == Err(UnprocessableEntity(Message("used Invalid name " + Join(unknown, ","))))
  {
  }

  /** The list in that message grows with the request: one more requested
      name adds nothing when it is a column, and otherwise is appended after
      the unknown names requested before it. */
  lemma UnknownNamesListedInRequestOrder(requested: seq<string>, n: string, columns: Option<seq<Column>>)
    requires Difference(requested, ColumnNames(columns)) != []
    ensures var names := ColumnNames(columns);
      n in names ==> Join(Difference(requested + [n], names), ",") == Join(Difference(requested, names), ",")
    ensures var names := ColumnNames(columns);
      n !in names ==> Join(Difference(requested + [n], names), ",") == Join(Difference(requested, names), ",") + "," + n
  {
    var names := ColumnNames(columns);
    DifferenceAppend(requested, [n], names);
    if n !in names {
      assert Difference([n], names) == [n];
      JoinAppend(Difference(requested, names), n, ",");
    } else {
      assert Difference([n], names) == [];
      assert Difference(requested, names) + [] == Difference(requested, names);
    }
  }

  /** A malformed value is rejected by the shape check, before the columns play any role. */
  lemma CheckFieldsMalformedFirst(fields: JsValue, columns: Option<seq<Column>>)
    requires !IsFalsy(fields) && fields != Arr([]) && !IsFieldList(fields)
    ensures CheckFields(fields, columns) == Err(UnprocessableEntity(FieldsViolation))
  {
  }

  /** Relations: an override list wins verbatim, then a route that disables
      relations (`[]`), then a route list; otherwise the entity default (`None`). */
  function GetRelations(customRequestOption: Option<CustomRequestOptions>, route: Option<RouteOption>): (r: Option<seq<string>>)
    ensures r.Some? ==>
      (customRequestOption.Some? && customRequestOption.value.relations == RelationsList(r.value)) ||
      (route.Some? && (route.value.relations == RelationsList(r.value) ||
                       (route.value.relations == RelationsDisabled && r.value == [])))
  {
    if customRequestOption.Some? && customRequestOption.value.relations.RelationsList? then
      Some(customRequestOption.value.relations.names)
    else if route.Some? && route.value.relations == RelationsDisabled then
      Some([])
    else if route.Some? && route.value.relations.RelationsList? then
      Some(route.value.relations.names)
    else
      None
  }

  /** The four rules in order; a request without an override slot resolves
      like one with an empty override. */
  lemma GetRelationsPrecedence(custom: CustomRequestOptions, route: Option<RouteOption>)
    ensures custom.relations.RelationsList? ==>
      GetRelations(Some(custom), route) == Some(custom.relations.names)
    ensures !custom.relations.RelationsList? && route.Some? && route.value.relations == RelationsDisabled ==>
      GetRelations(Some(custom), route) == Some([])
    ensures !custom.relations.RelationsList? && route.Some? && route.value.relations.RelationsList? ==>
      GetRelations(Some(custom), route) == Some(route.value.relations.names)
    ensures !custom.relations.RelationsList? && (route.None? || route.value.relations == RelationsUnset) ==>
      GetRelations(Some(custom), route) == None
    ensures GetRelations(None, route) == GetRelations(Some(NoOverride), route)
  {
  }

  /** An override of `relations: false` is not an array, so it does not
      disable relations: the route decides as if there were no override. */
  lemma GetRelationsOverrideFalseFallsThrough(custom: CustomRequestOptions, route: Option<RouteOption>)
    requires custom.relations == RelationsDisabled
    ensures GetRelations(Some(custom), route) == GetRelations(None, route)
  {
  }

  /** Soft-delete visibility: a boolean override, else the route's `softDelete`,
      else the policy default. */
  function ResolveSoftDeleted(customRequestOption: Option<CustomRequestOptions>, route: Option<RouteOption>,
                              policy: PolicyEntry): (r: Option<bool>)
    ensures policy.defaultSoftDelete.Some? ==> r.Some?
    ensures customRequestOption.Some? && customRequestOption.value.softDeleted.Some? ==>
      r == customRequestOption.value.softDeleted
  {
    if customRequestOption.Some? && customRequestOption.value.softDeleted.Some? then
      customRequestOption.value.softDeleted
    else if route.Some? && route.value.softDelete.Some? then
      route.value.softDelete
    else
      policy.defaultSoftDelete
  }

  lemma ResolveSoftDeletedFallback(custom: Option<CustomRequestOptions>, route: Option<RouteOption>, policy: PolicyEntry)
    requires custom.None? || custom.value.softDeleted.None?
    ensures route.Some? && route.value.softDelete.Some? ==>
      ResolveSoftDeleted(custom, route, policy) == route.value.softDelete
    ensures (route.None? || route.value.softDelete.None?) ==>
      ResolveSoftDeleted(custom, route, policy) == policy.defaultSoftDelete
  {
  }

  /** `customRequestOption?.fields`. */
  function OverrideFields(customRequestOption: Option<CustomRequestOptions>): (r: Option<seq<string>>)
    ensures customRequestOption.None? ==> r.None?
    ensures customRequestOption.Some? ==> r == customRequestOption.value.fields
  {
    if customRequestOption.Some? then customRequestOption.value.fields else None
  }

  /** What `intercept` computes for a request: the read-one descriptor, or the
      exception that aborts it. */
  function ResolveReadOneRequest(crudOptions: CrudOptions, factoryOption: FactoryOption, crudPolicy: CrudPolicy,
                                 checkParams: ParamCheck, reqParams: Params, queryFields: JsValue,
                                 customRequestOption: Option<CustomRequestOptions>): (r: Result<CrudRequest>)
    ensures r.Ok? <==>
      CheckFields(queryFields, factoryOption.columns).Ok? && checkParams(reqParams, factoryOption.columns).Some?
    ensures r.Ok? ==> r.value.CrudReadOneRequest?
    ensures r.Err? ==> r.error.UnprocessableEntity?
  {
    var route := RouteOf(crudOptions, RouteMethod);
    match CheckFields(queryFields, factoryOption.columns)
    case Err(e) => Err(e)
    case Ok(fieldsByRequest) =>
      var softDeleted := ResolveSoftDeleted(customRequestOption, route, crudPolicy(RouteMethod));
      match CheckParams(checkParams, reqParams, factoryOption.columns, None)
      case Err(e) => Err(e)
      case Ok(params) =>
        Ok(CrudReadOneRequest(
          params,
          GetFields(OverrideFields(customRequestOption), fieldsByRequest),
          softDeleted,
          ResponseOf(route, crudPolicy(RouteMethod)),
          GetRelations(customRequestOption, route)))
  }

  /** The fields are checked before the parameters: a bad `?fields=` is
      reported whatever the parameters are. */
  lemma FieldsCheckedBeforeParams(crudOptions: CrudOptions, factoryOption: FactoryOption, crudPolicy: CrudPolicy,
                                  checkParams: ParamCheck, reqParams: Params, queryFields: JsValue,
                                  custom: Option<CustomRequestOptions>)
    requires CheckFields(queryFields, factoryOption.columns).Err?
    ensures ResolveReadOneRequest(crudOptions, factoryOption, crudPolicy, checkParams, reqParams, queryFields, custom)
         == Err(CheckFields(queryFields, factoryOption.columns).error)
  {
  }

  /** A parameter failure (with valid fields) is the default Unprocessable Entity. */
  lemma ParamsFailureIsDefaultError(crudOptions: CrudOptions, factoryOption: FactoryOption, crudPolicy: CrudPolicy,
                                    checkParams: ParamCheck, reqParams: Params, queryFields: JsValue,
                                    custom: Option<CustomRequestOptions>)
    requires CheckFields(queryFields, factoryOption.columns).Ok?
    requires checkParams(reqParams, factoryOption.columns).None?
    ensures ResolveReadOneRequest(crudOptions, factoryOption, crudPolicy, checkParams, reqParams, queryFields, custom)
         == Err(UnprocessableEntity(Bare))
  {
  }

  /** What a stored read-one descriptor holds: the checked key, the response
      shape and soft-delete flag resolved by their precedence chains, the
      relations from GetRelations, the override fields reconciled with the
      checked request fields, and so fields that are all declared columns
      unless the override alone supplied them. */
  lemma ReadOneDescriptor(crudOptions: CrudOptions, factoryOption: FactoryOption, crudPolicy: CrudPolicy,
                          checkParams: ParamCheck, reqParams: Params, queryFields: JsValue,
                          custom: Option<CustomRequestOptions>)
    requires ResolveReadOneRequest(crudOptions, factoryOption, crudPolicy, checkParams, reqParams, queryFields, custom).Ok?
    ensures var d := ResolveReadOneRequest(crudOptions, factoryOption, crudPolicy, checkParams, reqParams, queryFields, custom).value;
      var route := RouteOf(crudOptions, ReadOne);
      var policy := crudPolicy(ReadOne);
      && Some(d.params) == checkParams(reqParams, factoryOption.columns)
      && d.response == ResponseOf(route, policy)
      && (route.Some? && route.value.response.Some? ==> d.response == route.value.response.value)
      && (policy.defaultSoftDelete.Some? ==> d.softDeleted.Some?)
      && d.softDeleted == ResolveSoftDeleted(custom, route, policy)
      && d.relations == GetRelations(custom, route)
      && d.fields == GetFields(OverrideFields(custom), CheckFields(queryFields, factoryOption.columns).value)
      && (OverrideFields(custom).None? || !(IsFalsy(queryFields) || queryFields == Arr([])) ==>
            forall n :: n in d.fields ==> n in ColumnNames(factoryOption.columns))
  {
    var route := RouteOf(crudOptions, ReadOne);
    var checked := CheckFields(queryFields, factoryOption.columns);
    var d := ResolveReadOneRequest(crudOptions, factoryOption, crudPolicy, checkParams, reqParams, queryFields, custom).value;
    assert d.fields == GetFields(OverrideFields(custom), checked.value);
    if checked.value.None? {
      assert OverrideFields(custom).None? ==> d.fields == [];
    }
  }

  /** A request without an override slot is treated as one with an empty override. */
  lemma MissingOverrideSlotIsNoOverride(crudOptions: CrudOptions, factoryOption: FactoryOption, crudPolicy: CrudPolicy,
                                        checkParams: ParamCheck, reqParams: Params, queryFields: JsValue)
    ensures ResolveReadOneRequest(crudOptions, factoryOption, crudPolicy, checkParams, reqParams, queryFields, None)
         == ResolveReadOneRequest(crudOptions, factoryOption, crudPolicy, checkParams, reqParams, queryFields, Some(NoOverride))
  {
  }

  /** The interceptor produced by `ReadOneRequestInterceptor(crudOptions, factoryOption)`. */
  class MixinInterceptor {
    const crudOptions: CrudOptions
    const factoryOption: FactoryOption
    const crudPolicy: CrudPolicy
    const checkParams: ParamCheck

    constructor (crudOptions: CrudOptions, factoryOption: FactoryOption, crudPolicy: CrudPolicy, checkParams: ParamCheck)
      ensures this.crudOptions == crudOptions && this.factoryOption == factoryOption
      ensures this.crudPolicy == crudPolicy && this.checkParams == checkParams
    {
      this.crudOptions := crudOptions;
      this.factoryOption := factoryOption;
      this.crudPolicy := crudPolicy;
      this.checkParams := checkParams;
    }

    /** Stores the read-one descriptor in `req`, or leaves `req` as it was and
        reports the exception. */
    method Intercept(req: Request) returns (r: Result<CrudRequest>)
      modifies req`crudRouteArgs
      ensures r == ResolveReadOneRequest(crudOptions, factoryOption, crudPolicy, checkParams,
                                         req.params, req.queryFields, req.customRequestOptions)
      ensures req.crudRouteArgs == if r.Ok? then Some(r.value) else old(req.crudRouteArgs)
    {
      var readOneOptions := RouteOf(crudOptions, RouteMethod);
      var customRequestOption := req.customRequestOptions;

      var fieldsByRequest := CheckFields(req.queryFields, factoryOption.columns);
      if fieldsByRequest.Err? {
        return Err(fieldsByRequest.error);
      }

      var softDeleted := ResolveSoftDeleted(customRequestOption, readOneOptions, crudPolicy(RouteMethod));

      var params := CheckParams(checkParams, req.params, factoryOption.columns, None);
      if params.Err? {
        return Err(params.error);
      }

      var crudReadOneRequest := CrudReadOneRequest(
        params.value,
        GetFields(OverrideFields(customRequestOption), fieldsByRequest.value),
        softDeleted,
        ResponseOf(readOneOptions, crudPolicy(RouteMethod)),
        GetRelations(customRequestOption, readOneOptions));
      req.crudRouteArgs := Some(crudReadOneRequest);
      return Ok(crudReadOneRequest);
    }
  }
}
