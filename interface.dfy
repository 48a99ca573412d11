/** The values the interceptors exchange: untyped request input, per-resource
    configuration, the per-request override bag, the CRUD request descriptor,
    the HTTP errors, and the request record the descriptor is written into. */
module Interface {

  datatype Option<T> = None | Some(value: T) {
    function GetOr(default: T): T {
      match this
      case Some(v) => v
      case None => default
    }
  }

  /** A JavaScript value as it arrives from the query string or the body.
      Numbers are integers here (NaN and fractions play no role in the core). */
  datatype JsValue =
    | Undefined
    | Null
    | Bool(b: bool)
    | Num(n: int)
    | Str(s: string)
    | Arr(items: seq<JsValue>)
    | Obj(props: map<string, JsValue>)
    | Func

  /** JavaScript truthiness: `!v` holds for exactly these values. */
  predicate IsFalsy(v: JsValue) {
    v == Undefined || v == Null || v == Bool(false) || v == Num(0) || v == Str("")
  }

  /** One failed class-validator constraint, reduced to the property it names. */
  datatype Violation = Violation(property: string)

  /** What an `UnprocessableEntityException` was constructed with. */
  datatype ErrorDetail =
    | Bare                              // no argument
    | Message(text: string)             // a message string
    | Violations(errors: seq<Violation>) // a class-validator error list

  datatype HttpError =
    | UnprocessableEntity(detail: ErrorDetail)  // 422
    | Conflict(message: string)                 // 409

  /** A value, or the exception that aborted the interceptor. */
  datatype Result<T> = Ok(value: T) | Err(error: HttpError)

  datatype Method = Create | ReadOne | ReadMany | Search | Update | Upsert | Delete | Recover

  /** `CrudResponseOption`: what the route sends back. */
  datatype ResponseShape = Entity | Id

  /** One entry of the library-wide policy table (`CRUD_POLICY[method]`). */
  datatype PolicyEntry = PolicyEntry(response: ResponseShape, defaultSoftDelete: Option<bool>)

  /** The policy table: one entry for every method. */
  type CrudPolicy = Method -> PolicyEntry

  /** A `relations?: string[] | false` option. */
  datatype Relations = RelationsUnset | RelationsDisabled | RelationsList(names: seq<string>)

  /** The per-route part of `CrudOptions` (`crudOptions.routes[method]`). */
  datatype RouteOption = RouteOption(response: Option<ResponseShape>, softDelete: Option<bool>, relations: Relations)

  const EmptyRoute := RouteOption(None, None, RelationsUnset)

  datatype CrudOptions = CrudOptions(routes: map<Method, RouteOption>)

  /** `crudOptions.routes?.[method]`. */
  function RouteOf(crudOptions: CrudOptions, m: Method): (r: Option<RouteOption>)
    ensures r.Some? <==> m in crudOptions.routes
    ensures r.Some? ==> r.value == crudOptions.routes[m]
  {
    if m in crudOptions.routes then Some(crudOptions.routes[m]) else None
  }

  datatype Column = Column(name: string, typ: string, isPrimary: bool)
  datatype PrimaryKey = PrimaryKey(name: string, typ: string)
  datatype FactoryOption = FactoryOption(columns: Option<seq<Column>>, primaryKeys: Option<seq<PrimaryKey>>)

  /** Raw path parameters, and the typed key `checkParams` produces from them. */
  type Params = map<string, string>
  type Key = map<string, JsValue>

  /** What `checkParams` does with the entity's columns: a typed key, or a rejection. */
  type ParamCheck = (Params, Option<seq<Column>>) -> Option<Key>

  /** The override bag a custom request interceptor leaves on the request. */
  datatype CustomRequestOptions = CustomRequestOptions(
    params: Option<Params>,
    relations: Relations,
    fields: Option<seq<string>>,
    softDeleted: Option<bool>)

  const NoOverride := CustomRequestOptions(None, RelationsUnset, None, None)

  /** The canonical descriptor stored at `req[Constants.CRUD_ROUTE_ARGS]`. */
  datatype CrudRequest =
    | CrudReadOneRequest(params: Key, fields: seq<string>, softDeleted: Option<bool>,
                         response: ResponseShape, relations: Option<seq<string>>)
    | CrudUpsertRequest(params: Key, body: JsValue, response: ResponseShape)
    | CrudRecoverRequest(params: Key, response: ResponseShape)

  /** `options.response`: the route's own response, else the policy's. */
  function ResponseOf(route: Option<RouteOption>, policy: PolicyEntry): (r: ResponseShape)
    ensures route.Some? && route.value.response.Some? ==> r == route.value.response.value
    ensures (route.None? || route.value.response.None?) ==> r == policy.response
  {
    (if route.Some? then route.value else EmptyRoute).response.GetOr(policy.response)
  }

  /** `checkParams(entity, params, columns, error?)`: the typed key, or the
      caller's error, or else a bare Unprocessable Entity. */
  function CheckParams(check: ParamCheck, params: Params, columns: Option<seq<Column>>,
                       customError: Option<HttpError>): (r: Result<Key>)
    ensures r.Ok? <==> check(params, columns).Some?
    ensures r.Ok? ==> r.value == check(params, columns).value
    ensures r.Err? ==> r.error == customError.GetOr(UnprocessableEntity(Bare))
  {
    match check(params, columns)
    case Some(key) => Ok(key)
    case None => Err(customError.GetOr(UnprocessableEntity(Bare)))
  }

  /** The parts of the HTTP request the interceptors read, and the slot they write. */
  class Request {
    var params: Params
    /** `req.query?.fields`; `Undefined` when there is no query. */
    var queryFields: JsValue
    var body: JsValue
    /** `req[Constants.CUSTOM_REQUEST_OPTIONS]`; `None` when no hook ran. */
    var customRequestOptions: Option<CustomRequestOptions>
    /** `req[Constants.CRUD_ROUTE_ARGS]`. */
    var crudRouteArgs: Option<CrudRequest>

    constructor (params: Params, queryFields: JsValue, body: JsValue,
                 customRequestOptions: Option<CustomRequestOptions>)
      ensures this.params == params && this.queryFields == queryFields && this.body == body
      ensures this.customRequestOptions == customRequestOptions
      ensures crudRouteArgs == None
    {
      this.params := params;
      this.queryFields := queryFields;
      this.body := body;
      this.customRequestOptions := customRequestOptions;
      crudRouteArgs := None;
    }
  }
}
