/** The upsert interceptor: checks the path parameters (reporting a failure as
    409 Conflict), guards and validates the body, and stores the upsert
    descriptor. */
module UpsertRequestInterceptor {
  import opened Interface
  import opened SeqOps

  const RouteMethod: Method := Upsert

  const PrimaryKeyMessage := "Cannot include value of primary key"

  /** The error `intercept` hands to `checkParams`. */
  const InvalidParams := Conflict("Invalid params")

  /** What class-transformer and class-validator do with the entity class for
      group UPSERT: `plainToClass(entity, body, { groups })` and
      `validate(transformed, { groups, whitelist: true, forbidNonWhitelisted: true })`. */
  datatype BodyValidator = BodyValidator(transform: JsValue -> JsValue, validate: JsValue -> seq<Violation>)

  /** lodash `_.isNil`. */
  predicate IsNil(v: JsValue) {
    v == Undefined || v == Null
  }

  /** lodash `_.isObject`: objects, arrays and functions. */
  predicate IsObject(v: JsValue) {
    v.Obj? || v.Arr? || v.Func?
  }

  function DigitChar(d: nat): (c: char)
    requires d < 10
    ensures '0' <= c <= '9' && c as int - '0' as int == d
  {
    ('0' as int + d) as char
  }

  /** The shape guard `_.isNil(body) || !_.isObject(body)` rejects exactly the
      non-objects: nil values are never objects, so the first test adds nothing. */
  lemma ShapeGuardRejectsNonObjects(v: JsValue)
    ensures IsNil(v) ==> !IsObject(v)
    ensures (IsNil(v) || !IsObject(v)) <==> (v.Undefined? || v.Null? || v.Bool? || v.Num? || v.Str?)
  {
  }

  /** The decimal spelling of an array index. */
  function DecimalString(n: nat): (r: string)
    ensures r != []
    ensures forall i :: 0 <= i < |r| ==> '0' <= r[i] <= '9'
  {
    if n < 10 then [DigitChar(n)] else DecimalString(n / 10) + [DigitChar(n % 10)]
  }

  /** The number a string of decimal digits spells. */
  function DigitsValue(s: string): nat
    requires forall i :: 0 <= i < |s| ==> '0' <= s[i] <= '9'
  {
    if s == [] then 0 else 10 * DigitsValue(s[..|s| - 1]) + (s[|s| - 1] as int - '0' as int)
  }

  /** `DecimalString(n)` spells `n`, with no leading zero: it is the canonical
      spelling, so different indices give different keys. */
  lemma {:induction false} DecimalStringSpellsIndex(n: nat)
    ensures DigitsValue(DecimalString(n)) == n
    ensures n >= 1 ==> DecimalString(n)[0] != '0'
    ensures |DecimalString(n)| > 1 ==> DecimalString(n)[0] != '0'
  {
    var r := DecimalString(n);
    if n >= 10 {
      DecimalStringSpellsIndex(n / 10);
      assert r[..|r| - 1] == DecimalString(n / 10);
      assert r[0] == DecimalString(n / 10)[0];
    }
  }

  /** Different indices have different keys. */
  lemma DecimalStringInjective(a: nat, b: nat)
    ensures DecimalString(a) == DecimalString(b) ==> a == b
  {
    DecimalStringSpellsIndex(a);
    DecimalStringSpellsIndex(b);
  }

  /** `k` is the key of one of the first `n` array indices. */
  predicate IsIndexKey(k: string, n: nat) {
    exists i :: 0 <= i < n && k == DecimalString(i)
  }

  /** The keys of an array of `n` elements: its indices, spelled in decimal. */
  function IndexKeys(n: nat): (r: set<string>)
    ensures forall k :: k in r <==> IsIndexKey(k, n)
  {
    if n == 0 then {}
    else
      var r := IndexKeys(n - 1) + {DecimalString(n - 1)};
      assert forall k :: IsIndexKey(k, n) ==> k in r by {
        forall k | IsIndexKey(k, n) ensures k in r {
          var i :| 0 <= i < n && k == DecimalString(i);
          if i < n - 1 {
            assert IsIndexKey(k, n - 1);
          }
        }
      }
      assert forall k :: k in r ==> IsIndexKey(k, n) by {
        forall k | k in r ensures IsIndexKey(k, n) {
          if k in IndexKeys(n - 1) {
            var i :| 0 <= i < n - 1 && k == DecimalString(i);
          } else {
            assert k == DecimalString(n - 1);
          }
        }
      }
      r
  }

  /** `Object.keys(v)` for a value that passed `_.isObject`: the properties of
      an object, the indices of an array, none for a function. */
  function ObjectKeys(v: JsValue): (r: set<string>)
    ensures v.Obj? ==> r == v.props.Keys
    ensures v.Arr? ==> forall k :: k in r ==> k != [] && forall i :: 0 <= i < |k| ==> '0' <= k[i] <= '9'
    ensures v.Arr? ==> forall k :: k in r <==> IsIndexKey(k, |v.items|)
    ensures !v.Obj? && !v.Arr? ==> r == {}
  {
    match v
    case Obj(props) => props.Keys
    case Arr(items) => IndexKeys(|items|)
    case _ => {}
  }

  /** `(factoryOption.primaryKeys ?? []).map(({ name }) => name)`. */
  function PrimaryKeyNames(factoryOption: FactoryOption): (r: seq<string>)
    ensures factoryOption.primaryKeys.None? ==> r == []
    ensures factoryOption.primaryKeys.Some? ==>
      (|r| == |factoryOption.primaryKeys.value| &&
       forall i :: 0 <= i < |r| ==> r[i] == factoryOption.primaryKeys.value[i].name)
  {
    MapSeq(factoryOption.primaryKeys.GetOr([]), (pk: PrimaryKey) => pk.name)
  }

  predicate ContainsPrimaryKey(body: JsValue, factoryOption: FactoryOption) {
    exists name :: name in PrimaryKeyNames(factoryOption) && name in ObjectKeys(body)
  }

  /** The primary-key guard: never triggered without declared primary keys or
      for a function; for an object, triggered exactly when one of its
      properties is named like a primary key. */
  lemma ContainsPrimaryKeyCases(body: JsValue, factoryOption: FactoryOption)
    ensures PrimaryKeyNames(factoryOption) == [] ==> !ContainsPrimaryKey(body, factoryOption)
    ensures body.Func? ==> !ContainsPrimaryKey(body, factoryOption)
    ensures body.Obj? ==> (ContainsPrimaryKey(body, factoryOption) <==>
      exists i :: 0 <= i < |PrimaryKeyNames(factoryOption)| && PrimaryKeyNames(factoryOption)[i] in body.props)
    ensures body.Arr? ==> (ContainsPrimaryKey(body, factoryOption) <==>
      exists i :: 0 <= i < |body.items| && DecimalString(i) in PrimaryKeyNames(factoryOption))
  {
    var names := PrimaryKeyNames(factoryOption);
    if body.Obj? && ContainsPrimaryKey(body, factoryOption) {
      var name :| name in names && name in ObjectKeys(body);
      var i :| 0 <= i < |names| && names[i] == name;
    }
    if body.Obj? && exists i :: 0 <= i < |names| && names[i] in body.props {
      var i :| 0 <= i < |names| && names[i] in body.props;
      assert names[i] in names && names[i] in ObjectKeys(body);
    }
    if body.Arr? && ContainsPrimaryKey(body, factoryOption) {
      var name :| name in names && name in ObjectKeys(body);
      var i :| 0 <= i < |body.items| && name == DecimalString(i);
    }
    if body.Arr? && exists i :: 0 <= i < |body.items| && DecimalString(i) in names {
      var i :| 0 <= i < |body.items| && DecimalString(i) in names;
      assert DecimalString(i) in ObjectKeys(body);
    }
  }

  /** `validateBody`: the transformed body, or the first guard that rejects it. */
  function ValidateBody(body: JsValue, factoryOption: FactoryOption, validator: BodyValidator): (r: Result<JsValue>)
    ensures r.Ok? <==>
      IsObject(body) && !ContainsPrimaryKey(body, factoryOption) &&
      validator.validate(validator.transform(body)) == []
    ensures r.Ok? ==> r.value == validator.transform(body)
    ensures r.Err? ==> r.error.UnprocessableEntity?
  {
    if IsNil(body) || !IsObject(body) then
      Err(UnprocessableEntity(Bare))
    else if ContainsPrimaryKey(body, factoryOption) then
      Err(UnprocessableEntity(Message(PrimaryKeyMessage)))
    else
      var transformed := validator.transform(body);
      var errorList := validator.validate(transformed);
      if |errorList| > 0 then Err(UnprocessableEntity(Violations(errorList)))
      else Ok(transformed)
  }

  /** An absent body or a primitive is rejected before anything else. */
  lemma RejectsNonObjectBody(body: JsValue, factoryOption: FactoryOption, validator: BodyValidator)
    requires IsNil(body) || body.Bool? || body.Num? || body.Str?
    ensures ValidateBody(body, factoryOption, validator) == Err(UnprocessableEntity(Bare))
  {
  }

  /** A body whose keys include a primary-key name is rejected with the fixed
      message, whatever its values and whatever the validation rules say. */
  lemma PrimaryKeyGuardBeforeRules(body: JsValue, factoryOption: FactoryOption, validator: BodyValidator, name: string)
    requires IsObject(body)
    requires name in PrimaryKeyNames(factoryOption) && name in ObjectKeys(body)
    ensures ValidateBody(body, factoryOption, validator) == Err(UnprocessableEntity(Message(PrimaryKeyMessage)))
  {
  }

  /** A body that passes the shape and primary-key guards is judged by the
      rules: rejected with the validator's own error list, or accepted as
      transformed. */
  lemma ObjectBodyReachesRules(body: JsValue, factoryOption: FactoryOption, validator: BodyValidator)
    requires IsObject(body) && !ContainsPrimaryKey(body, factoryOption)
    ensures var errors := validator.validate(validator.transform(body));
      ValidateBody(body, factoryOption, validator) ==
        if errors == [] then Ok(validator.transform(body)) else Err(UnprocessableEntity(Violations(errors)))
  {
  }

  /** A primary key named `"0"` is the first index of any non-empty array, so
      such a body is rejected by the primary-key guard. */
  lemma ArrayIndexNamedLikePrimaryKey(items: seq<JsValue>, factoryOption: FactoryOption, validator: BodyValidator)
    requires |items| > 0 && "0" in PrimaryKeyNames(factoryOption)
    ensures ValidateBody(Arr(items), factoryOption, validator) == Err(UnprocessableEntity(Message(PrimaryKeyMessage)))
  {
    assert DecimalString(0) == "0";
    assert IsIndexKey("0", |items|);
    PrimaryKeyGuardBeforeRules(Arr(items), factoryOption, validator, "0");
  }

  /** Arrays and functions pass the shape guard: they reach the primary-key and
      rule checks, so a function body is judged by the rules alone. */
  lemma FunctionBodyReachesRules(factoryOption: FactoryOption, validator: BodyValidator)
    ensures var errors := validator.validate(validator.transform(Func));
      ValidateBody(Func, factoryOption, validator) ==
        if errors == [] then Ok(validator.transform(Func)) else Err(UnprocessableEntity(Violations(errors)))
  {
  }

  /** Array keys are decimal indices: a primary key whose name is not all digits
      never matches one, so the rules alone judge an array body. */
  lemma ArrayBodyReachesRules(items: seq<JsValue>, factoryOption: FactoryOption, validator: BodyValidator)
    requires forall name :: name in PrimaryKeyNames(factoryOption) ==>
      exists i :: 0 <= i < |name| && !('0' <= name[i] <= '9')
    ensures var body := Arr(items);
      var errors := validator.validate(validator.transform(body));
      ValidateBody(body, factoryOption, validator) ==
        if errors == [] then Ok(validator.transform(body)) else Err(UnprocessableEntity(Violations(errors)))
  {
  }

  /** The validator honours `forbidNonWhitelisted` for the given whitelist:
      every object with a key outside it gets at least one violation. */
  ghost predicate ForbidsNonWhitelisted(validator: BodyValidator, whitelist: set<string>) {
    forall body :: IsObject(body) && !(ObjectKeys(body) <= whitelist) ==>
      validator.validate(validator.transform(body)) != []
  }

  /** Under such a validator a body with a non-whitelisted key is rejected
      with the validator's error list. */
  lemma NonWhitelistedKeyRejected(body: JsValue, factoryOption: FactoryOption, validator: BodyValidator,
                                  whitelist: set<string>, key: string)
    requires ForbidsNonWhitelisted(validator, whitelist)
    requires IsObject(body) && !ContainsPrimaryKey(body, factoryOption)
    requires key in ObjectKeys(body) && key !in whitelist
    ensures ValidateBody(body, factoryOption, validator) ==
      Err(UnprocessableEntity(Violations(validator.validate(validator.transform(body)))))
  {
    assert !(ObjectKeys(body) <= whitelist);
  }

  /** What `intercept` computes for a request: the upsert descriptor, or the
      exception that aborts it. */
  function ResolveUpsertRequest(crudOptions: CrudOptions, factoryOption: FactoryOption, crudPolicy: CrudPolicy,
                                checkParams: ParamCheck, validator: BodyValidator,
                                reqParams: Params, body: JsValue): (r: Result<CrudRequest>)
    ensures r.Ok? ==> r.value.CrudUpsertRequest?
    ensures r.Err? ==> (r.error.Conflict? <==> checkParams(reqParams, factoryOption.columns).None?)
    ensures r.Err? && r.error.Conflict? ==> r.error == InvalidParams
  {
    var upsertOptions := RouteOf(crudOptions, RouteMethod);
    match CheckParams(checkParams, reqParams, factoryOption.columns, Some(InvalidParams))
    case Err(e) => Err(e)
    case Ok(params) =>
      match ValidateBody(body, factoryOption, validator)
      case Err(e) => Err(e)
      case Ok(transformed) =>
        Ok(CrudUpsertRequest(params, transformed, ResponseOf(upsertOptions, crudPolicy(RouteMethod))))
  }

  /** Bad parameters give Conflict, even when the body is invalid too. */
  lemma ParamsCheckedBeforeBody(crudOptions: CrudOptions, factoryOption: FactoryOption, crudPolicy: CrudPolicy,
                                checkParams: ParamCheck, validator: BodyValidator, reqParams: Params, body: JsValue)
    requires checkParams(reqParams, factoryOption.columns).None?
    ensures ResolveUpsertRequest(crudOptions, factoryOption, crudPolicy, checkParams, validator, reqParams, body)
         == Err(InvalidParams)
  {
  }

  /** With good parameters the outcome is the body validation's. */
  lemma BodyDecidesAfterParams(crudOptions: CrudOptions, factoryOption: FactoryOption, crudPolicy: CrudPolicy,
                               checkParams: ParamCheck, validator: BodyValidator, reqParams: Params, body: JsValue)
    requires checkParams(reqParams, factoryOption.columns).Some?
    ensures var r := ResolveUpsertRequest(crudOptions, factoryOption, crudPolicy, checkParams, validator, reqParams, body);
      var v := ValidateBody(body, factoryOption, validator);
      (r.Ok? <==> v.Ok?) && (v.Err? ==> r == Err(v.error))
  {
  }

  /** A stored upsert descriptor holds exactly the checked key, the transformed
      body and the route-or-policy response. */
  lemma UpsertDescriptor(crudOptions: CrudOptions, factoryOption: FactoryOption, crudPolicy: CrudPolicy,
                         checkParams: ParamCheck, validator: BodyValidator, reqParams: Params, body: JsValue)
    requires ResolveUpsertRequest(crudOptions, factoryOption, crudPolicy, checkParams, validator, reqParams, body).Ok?
    ensures var route := RouteOf(crudOptions, Upsert);
      ResolveUpsertRequest(crudOptions, factoryOption, crudPolicy, checkParams, validator, reqParams, body).value ==
        CrudUpsertRequest(checkParams(reqParams, factoryOption.columns).value, validator.transform(body),
                          if route.Some? && route.value.response.Some? then route.value.response.value
                          else crudPolicy(Upsert).response)
  {
  }

  /** The interceptor produced by `UpsertRequestInterceptor(crudOptions, factoryOption)`. */
  class MixinInterceptor {
    const crudOptions: CrudOptions
    const factoryOption: FactoryOption
    const crudPolicy: CrudPolicy
    const checkParams: ParamCheck
    const validator: BodyValidator

    constructor (crudOptions: CrudOptions, factoryOption: FactoryOption, crudPolicy: CrudPolicy,
                 checkParams: ParamCheck, validator: BodyValidator)
      ensures this.crudOptions == crudOptions && this.factoryOption == factoryOption
      ensures this.crudPolicy == crudPolicy && this.checkParams == checkParams && this.validator == validator
    {
      this.crudOptions := crudOptions;
      this.factoryOption := factoryOption;
      this.crudPolicy := crudPolicy;
      this.checkParams := checkParams;
      this.validator := validator;
    }

    /** Stores the upsert descriptor in `req`, or leaves `req` as it was and
        reports the exception. */
    method Intercept(req: Request) returns (r: Result<CrudRequest>)
      modifies req`crudRouteArgs
      ensures r == ResolveUpsertRequest(crudOptions, factoryOption, crudPolicy, checkParams, validator,
                                        req.params, req.body)
      ensures req.crudRouteArgs == if r.Ok? then Some(r.value) else old(req.crudRouteArgs)
    {
      var upsertOptions := RouteOf(crudOptions, RouteMethod);

      var params := CheckParams(checkParams, req.params, factoryOption.columns, Some(InvalidParams));
      if params.Err? {
        return Err(params.error);
      }
      var body := ValidateBody(req.body, factoryOption, validator);
      if body.Err? {
        return Err(body.error);
      }

      var crudUpsertRequest := CrudUpsertRequest(
        params.value,
        body.value,
        ResponseOf(upsertOptions, crudPolicy(RouteMethod)));

      req.crudRouteArgs := Some(crudUpsertRequest);
      return Ok(crudUpsertRequest);
    }
  }
}
