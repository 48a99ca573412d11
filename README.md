# Request resolution of the CRUD interceptors

This project models the per-request logic of three interceptors of
`nestjs-library-crud`, plus the DTO property selection. Each interceptor takes
the raw request and the fixed per-resource configuration (`crudOptions`,
`factoryOption`) and produces a canonical CRUD request descriptor, or rejects
the request with a 422 Unprocessable Entity or a 409 Conflict.

- **Read-one** (`ReadOneRequestInterceptor`). It normalises and validates
  `?fields=` against the entity's columns. It resolves soft-delete visibility
  in the order override, then route option, then policy default. The response
  shape is the route's, else the policy's. It checks the path parameters,
  reconciles the override field list with the requested one, and resolves
  relations in the order override list, then route `false`, then route list,
  then the entity default.
- **Upsert** (`UpsertRequestInterceptor`). It checks the parameters and reports
  a failure as `Conflict('Invalid params')`. It then guards the body: the body
  must be an object, and it must not carry a primary key. Finally the
  entity's rules for the UPSERT group are applied.
- **Recover** (`RecoverRequestInterceptor`). The lookup parameters come from
  the override when it has them, otherwise from the path. They are checked and
  stored with the response shape.
- **Request DTO** (`RequestDto`). It selects the entity properties whose
  validation metadata is marked `always` or belongs to the group. The names are
  deduplicated in first-occurrence order. The DTO is named
  `<Group><Class>Dto`.

Each interceptor is a class `MixinInterceptor`. Its constants are the
configuration that the source captures in a closure. Its `Intercept` method
may change only `req.crudRouteArgs` (the slot `req[Constants.CRUD_ROUTE_ARGS]`).
The method's result equals a pure resolution function, and the method writes
the descriptor on success and leaves the slot alone on failure. The lemmas
state the properties of those functions.

Modules: `Interface` (values, errors, the request record, the shared response
default and parameter check), `SeqOps` (lodash `intersection`/`difference`,
the `Set` dedupe and `toLocaleString`), one module per interceptor,
`RequestDto`, and `ReadOneRequestInterceptorSpec` (the unit-test scenarios).

Behaviour of the code worth knowing:

- lodash `_.intersection` keeps the override list's order and drops repeats,
  and so does `GetFields`.
- An override of `relations: false` does not disable relations, because only
  an array override is honoured. The route decides instead
  (`GetRelationsOverrideFalseFallsThrough`).

## Model

| member | source | states |
|---|---|---|
| `ReadOneRequestInterceptor.GetFields` | src/lib/interceptor/read-one-request.interceptor.ts:47-55 | every returned name is in each list that was supplied |
| `ReadOneRequestInterceptor.GetFieldsOneSideAbsent` | src/lib/interceptor/read-one-request.interceptor.ts:48-53 | no override list gives the request list or `[]`; no request list gives the override list |
| `ReadOneRequestInterceptor.GetFieldsBothPresent` | src/lib/interceptor/read-one-request.interceptor.ts:54 | with both lists the result holds exactly the shared names, each once, in override-list order |
| `ReadOneRequestInterceptor.GetFieldsIsTheOrderedIntersection` | src/lib/interceptor/read-one-request.interceptor.ts:54 | any list with those properties is the result, so they define it completely |
| `ReadOneRequestInterceptor.GetFieldsNothingShared` | src/lib/interceptor/read-one-request.interceptor.ts:54 | disjoint lists, including an empty override list, give `[]` |
| `ReadOneRequestInterceptor.ColumnNames` | src/lib/interceptor/read-one-request.interceptor.ts:66 | the declared column names, one per column in declaration order; none when no columns are declared |
| `ReadOneRequestInterceptor.NormaliseFields` | src/lib/interceptor/read-one-request.interceptor.ts:61-65 | accepts exactly a string or a list of strings; a string `s` becomes `[s]`, a list of strings comes back element for element; everything else is a violation on `fields` |
| `ReadOneRequestInterceptor.CheckFields` | src/lib/interceptor/read-one-request.interceptor.ts:57-73 | failures are Unprocessable; a returned list is non-empty and holds only declared column names |
| `ReadOneRequestInterceptor.CheckFieldsNoRestriction` | src/lib/interceptor/read-one-request.interceptor.ts:58-60 | a falsy value or an empty list means no restriction |
| `ReadOneRequestInterceptor.CheckFieldsAcceptsColumns` | src/lib/interceptor/read-one-request.interceptor.ts:61-72 | when every name is a column, a single string comes back as a one-element list and a list comes back as given |
| `ReadOneRequestInterceptor.CheckFieldsRejectsUnknown` | src/lib/interceptor/read-one-request.interceptor.ts:66-70 | an unknown name gives "used Invalid name " followed by exactly the unknown names, comma-joined, in request order |
| `ReadOneRequestInterceptor.UnknownNamesListedInRequestOrder` | src/lib/interceptor/read-one-request.interceptor.ts:67-69 | one more requested name leaves the listed names unchanged when it is a column, and is appended after a comma when it is not |
| `ReadOneRequestInterceptor.CheckFieldsMalformedFirst` | src/lib/interceptor/read-one-request.interceptor.ts:61-65 | a malformed shape is rejected with the shape violation, whatever the columns |
| `ReadOneRequestInterceptor.GetRelations` | src/lib/interceptor/read-one-request.interceptor.ts:75-85 | a returned list is the override list, the route list, or `[]` from a disabling route |
| `ReadOneRequestInterceptor.GetRelationsPrecedence` | src/lib/interceptor/read-one-request.interceptor.ts:75-85 | override list wins verbatim with or without a route option, then route `false` gives `[]`, then the route list, else none; a missing override slot behaves as an empty override |
| `ReadOneRequestInterceptor.GetRelationsOverrideFalseFallsThrough` | src/lib/interceptor/read-one-request.interceptor.ts:76-78 | an override of `false` behaves as no override |
| `ReadOneRequestInterceptor.ResolveSoftDeleted` | src/lib/interceptor/read-one-request.interceptor.ts:27-29 | a boolean override wins; the flag is defined whenever the policy has a default |
| `ReadOneRequestInterceptor.ResolveSoftDeletedFallback` | src/lib/interceptor/read-one-request.interceptor.ts:27-29 | without an override, the route's `softDelete` wins, else the policy default |
| `ReadOneRequestInterceptor.OverrideFields` | src/lib/interceptor/read-one-request.interceptor.ts:35 | the override's field list, absent when there is no override slot |
| `ReadOneRequestInterceptor.ResolveReadOneRequest` | src/lib/interceptor/read-one-request.interceptor.ts:19-45 | succeeds exactly when `?fields=` and the parameters pass; success yields a read-one descriptor; every failure is Unprocessable |
| `ReadOneRequestInterceptor.FieldsCheckedBeforeParams` | src/lib/interceptor/read-one-request.interceptor.ts:25-31 | a bad `?fields=` is reported whatever the parameters |
| `ReadOneRequestInterceptor.ParamsFailureIsDefaultError` | src/lib/interceptor/read-one-request.interceptor.ts:31 | a parameter failure is the default Unprocessable error |
| `ReadOneRequestInterceptor.ReadOneDescriptor` | src/lib/interceptor/read-one-request.interceptor.ts:33-41 | the descriptor holds the checked key, the route-or-policy response, the resolved soft-delete flag and relations, and the override fields reconciled with the checked request fields, so only column names unless the override alone gave the fields |
| `ReadOneRequestInterceptor.MissingOverrideSlotIsNoOverride` | src/lib/interceptor/read-one-request.interceptor.ts:23-40 | a request without an override slot resolves like one with an empty override |
| `ReadOneRequestInterceptor.MixinInterceptor.constructor` | src/lib/interceptor/read-one-request.interceptor.ts:17-18 | the interceptor keeps the configuration it was built with |
| `ReadOneRequestInterceptor.MixinInterceptor.Intercept` | src/lib/interceptor/read-one-request.interceptor.ts:19-45 | returns the resolved outcome; stores the descriptor only on success, otherwise leaves the slot unchanged |
| `ReadOneRequestInterceptorSpec.GetFieldsScenarios` | src/lib/interceptor/read-one-request.interceptor.spec.ts:29-39 | the five field-reconciliation cases of the unit test |
| `ReadOneRequestInterceptorSpec.CheckFieldsAcceptScenarios` | src/lib/interceptor/read-one-request.interceptor.spec.ts:41-56 | no value, `'col1'` and `['col1','col2']` against columns col1..col3 |
| `ReadOneRequestInterceptorSpec.CheckFieldsUnknownScenario` | src/lib/interceptor/read-one-request.interceptor.spec.ts:57-67 | `'col'` is rejected with the message "used Invalid name col" |
| `ReadOneRequestInterceptorSpec.MalformedFieldsScenarios` | src/lib/interceptor/read-one-request.interceptor.spec.ts:70-80 | each of the six malformed values of the unit test is rejected with Unprocessable Entity on property `fields` |
| `ReadOneRequestInterceptorSpec.ResponseScenarios` | src/lib/interceptor/read-one-request.interceptor.spec.ts:82-103 | with no route the policy's ENTITY is used, and a route response of ID overrides it |
| `ReadOneRequestInterceptorSpec.RelationsScenarios` | src/lib/interceptor/read-one-request.interceptor.spec.ts:105-138 | override `['foo']`, route `false` and route `['bar']` give `['foo']`, `[]` and `['bar']` |
| `UpsertRequestInterceptor.ValidateBody` | src/lib/interceptor/upsert-request.interceptor.ts:41-58 | accepted iff the body is an object with no primary-key name among its keys and no rule violation; the value is the transformed body; every failure is Unprocessable |
| `UpsertRequestInterceptor.ShapeGuardRejectsNonObjects` | src/lib/interceptor/upsert-request.interceptor.ts:42 | the guard rejects exactly undefined, null, booleans, numbers and strings; a nil value is never an object |
| `UpsertRequestInterceptor.ObjectKeys` | src/lib/interceptor/upsert-request.interceptor.ts:45 | an object's property names; for an array, exactly the decimal spellings of its indices `0` to `n-1`; nothing for a function |
| `UpsertRequestInterceptor.IndexKeys` | src/lib/interceptor/upsert-request.interceptor.ts:45 | the keys of an array of `n` elements are exactly the spellings of the indices below `n` |
| `UpsertRequestInterceptor.PrimaryKeyNames` | src/lib/interceptor/upsert-request.interceptor.ts:46 | the names of the declared primary keys in order; none when none are declared |
| `UpsertRequestInterceptor.ContainsPrimaryKeyCases` | src/lib/interceptor/upsert-request.interceptor.ts:45-46 | no declared key or a function body never trips the guard; an object trips it exactly when it has a property named like a primary key; an array exactly when one of its index spellings is a primary-key name |
| `UpsertRequestInterceptor.ArrayIndexNamedLikePrimaryKey` | src/lib/interceptor/upsert-request.interceptor.ts:45-49 | a primary key named "0" rejects every non-empty array body with 'Cannot include value of primary key' |
| `UpsertRequestInterceptor.ObjectBodyReachesRules` | src/lib/interceptor/upsert-request.interceptor.ts:51-57 | a body past the shape and key guards is rejected with the validator's own error list, or accepted as transformed |
| `UpsertRequestInterceptor.RejectsNonObjectBody` | src/lib/interceptor/upsert-request.interceptor.ts:42-44 | nil and primitive bodies are rejected with a bare Unprocessable |
| `UpsertRequestInterceptor.PrimaryKeyGuardBeforeRules` | src/lib/interceptor/upsert-request.interceptor.ts:45-49 | a primary-key name among the keys gives 'Cannot include value of primary key', whatever the values and the rules |
| `UpsertRequestInterceptor.FunctionBodyReachesRules` | src/lib/interceptor/upsert-request.interceptor.ts:42-52 | a function passes the object guard and is judged by the rules alone |
| `UpsertRequestInterceptor.ArrayBodyReachesRules` | src/lib/interceptor/upsert-request.interceptor.ts:42-52 | an array passes the object guard; with non-numeric key names it is judged by the rules alone |
| `UpsertRequestInterceptor.DecimalString` | src/lib/interceptor/upsert-request.interceptor.ts:45 | an array's keys are non-empty strings of decimal digits |
| `UpsertRequestInterceptor.DecimalStringSpellsIndex` | src/lib/interceptor/upsert-request.interceptor.ts:45 | the key of index `n` reads back as `n` and has no leading zero |
| `UpsertRequestInterceptor.DecimalStringInjective` | src/lib/interceptor/upsert-request.interceptor.ts:45 | different indices have different keys |
| `UpsertRequestInterceptor.NonWhitelistedKeyRejected` | src/lib/interceptor/upsert-request.interceptor.ts:51-56 | if the validator forbids non-whitelisted keys, a body with one is rejected with the validator's error list |
| `UpsertRequestInterceptor.ResolveUpsertRequest` | src/lib/interceptor/upsert-request.interceptor.ts:16-39 | a failure is a Conflict exactly when the parameter check failed, and then it is 'Invalid params' |
| `UpsertRequestInterceptor.ParamsCheckedBeforeBody` | src/lib/interceptor/upsert-request.interceptor.ts:20-26 | bad parameters give Conflict even when the body is invalid too |
| `UpsertRequestInterceptor.BodyDecidesAfterParams` | src/lib/interceptor/upsert-request.interceptor.ts:26 | with good parameters the outcome is the body validation's |
| `UpsertRequestInterceptor.UpsertDescriptor` | src/lib/interceptor/upsert-request.interceptor.ts:28-36 | the stored descriptor is exactly the checked key, the transformed body and the route-or-policy response |
| `UpsertRequestInterceptor.MixinInterceptor.constructor` | src/lib/interceptor/upsert-request.interceptor.ts:14-15 | the interceptor keeps the configuration it was built with |
| `UpsertRequestInterceptor.MixinInterceptor.Intercept` | src/lib/interceptor/upsert-request.interceptor.ts:16-39 | returns the resolved outcome; stores the descriptor only on success, otherwise leaves the slot unchanged |
| `RecoverRequestInterceptor.LookupParams` | src/lib/interceptor/recover-request.interceptor.ts:17-18 | the override's params when it has them, else the path params |
| `RecoverRequestInterceptor.ResolveRecoverRequest` | src/lib/interceptor/recover-request.interceptor.ts:13-28 | succeeds iff the looked-up params pass the check; a failure is the default Unprocessable error |
| `RecoverRequestInterceptor.OverrideParamsWin` | src/lib/interceptor/recover-request.interceptor.ts:18 | with override params the path params do not matter |
| `RecoverRequestInterceptor.MissingOverrideUsesPath` | src/lib/interceptor/recover-request.interceptor.ts:17-18 | a missing override slot, or an override without params, resolves like no override |
| `RecoverRequestInterceptor.RecoverDescriptor` | src/lib/interceptor/recover-request.interceptor.ts:19-26 | the stored descriptor holds only the checked key and the route-or-policy response |
| `RecoverRequestInterceptor.MixinInterceptor.constructor` | src/lib/interceptor/recover-request.interceptor.ts:11-12 | the interceptor keeps the configuration it was built with |
| `RecoverRequestInterceptor.MixinInterceptor.Intercept` | src/lib/interceptor/recover-request.interceptor.ts:13-28 | returns the resolved outcome; stores the descriptor only on success, otherwise leaves the slot unchanged |
| `Interface.ResponseOf` | src/lib/interceptor/recover-request.interceptor.ts:15-22 | the route's response when set, else the policy's |
| `Interface.RouteOf` | src/lib/interceptor/read-one-request.interceptor.ts:21 | the route option configured for the method, absent exactly when none is configured |
| `Interface.CheckParams` | src/lib/interceptor/upsert-request.interceptor.ts:20-25 | the typed key when the check accepts, else the caller's error, else a bare Unprocessable |
| `SeqOps.Intersection` | src/lib/interceptor/read-one-request.interceptor.ts:54 | holds exactly the values common to both lists, with no repeats |
| `SeqOps.IntersectionInOrder` | src/lib/interceptor/read-one-request.interceptor.ts:54 | the common values appear in the first list's order |
| `SeqOps.Difference` | src/lib/interceptor/read-one-request.interceptor.ts:67 | holds exactly the values of the first list missing from the second, and is empty iff there are none |
| `SeqOps.DifferenceAppend` | src/lib/interceptor/read-one-request.interceptor.ts:67 | the difference is taken element by element, so order and repetitions of the first list are kept |
| `SeqOps.Join` | src/lib/interceptor/read-one-request.interceptor.ts:69 | no parts give the empty string, one part is itself, and the result starts with the first part |
| `SeqOps.JoinAppend` | src/lib/interceptor/read-one-request.interceptor.ts:69 | joining one more part appends the separator and that part |
| `SeqOps.FilterAppend` | src/lib/interceptor/read-one-request.interceptor.ts:67 | filtering distributes over concatenation, so the kept values stay in order |
| `SeqOps.Dedupe` | src/lib/dto/request.dto.ts:18-24 | same values as the input, no repeats |
| `SeqOps.DedupeInFirstOccurrenceOrder` | src/lib/dto/request.dto.ts:18-24 | values appear in the order of their first occurrence |
| `RequestDto.NoGroupsMeansAlwaysOnly` | src/lib/dto/request.dto.ts:21 | an entry with undefined groups is selected only when `always` |
| `RequestDto.AppliesToAlwaysOrListedGroup` | src/lib/dto/request.dto.ts:21 | an `always` entry applies to every group; any other entry with groups applies exactly to the groups it lists |
| `RequestDto.PropertyNamesAppliedValidation` | src/lib/dto/request.dto.ts:18-24 | a name is selected iff some entry for it is `always` or lists the group; no name twice |
| `RequestDto.PropertyNamesInFirstOccurrenceOrder` | src/lib/dto/request.dto.ts:18-24 | selected names keep the order of their first occurrence among the applying entries |
| `RequestDto.DtoNameDistinguishesClasses` | src/lib/dto/request.dto.ts:28-30 | the name ends in "Dto", and within one group different classes get different names |
| `RequestDto.DtoName` | src/lib/dto/request.dto.ts:29 | the name is the capitalised group, then the class name, then "Dto", each at its own position |
| `RequestDto.CreateRequestDto` | src/lib/dto/request.dto.ts:10-33 | the picked properties are exactly the names of the applying entries, without repeats, in first-occurrence order; the class is named by `DtoName` and ends in "Dto" |

## Left out

- ReadOneRequestInterceptor.ResolveSoftDeleted: the flag is defined only when the policy table has a default, or the route or the override supplies one; the `as boolean` cast does nothing at run time, so the descriptor's `softDeleted` is an `Option<bool>`.
- ReadOneRequestInterceptor.ReadOneDescriptor: override fields are not checked against the columns, so when only the override supplies fields the column bound is not claimed.
- NestJS and rxjs plumbing (`ExecutionContext`, `CallHandler`, `next.handle()`, `mixin`, `Observable`, async/await): each `intercept` is a sequential method over the request record, and an exception is an `Err` result.
- `checkParams` of `RequestAbstractInterceptor` is not part of this model. It is a parameter that returns a typed key or rejects. Its default error is modelled as a bare Unprocessable Entity, because its message is not visible.
- `CRUD_POLICY` is not part of this model. It is a parameter that gives one entry for every method (response shape and optional soft-delete default).
- class-transformer and class-validator on the entity are opaque: a transformed value, and a violation list that is passed through unchanged as the error. Whitelisting is a hypothesis (`ForbidsNonWhitelisted`), not a consequence.
- `RequestFieldsDto` is not part of this model. Its behaviour is stated by `NormaliseFields` as the unit test pins it down: a string `s` becomes `[s]`, a list of strings stays, anything else is one violation on `fields`. Its exact constraint messages are not modelled.
- `capitalizeFirstLetter` is not part of this model. It is a parameter of `DtoName`.
- Swagger and metadata plumbing in the DTO factory (`PickType`, `getMetadataStorage`, `Object.defineProperty`): only the name selection and the naming are modelled.
- `UpsertRequestInterceptor.ValidateBody`: a function body's own enumerable properties are taken to be none, and JavaScript numbers are integers (NaN is not modelled).
- The override's `softDeleted` is typed `Option<bool>`: a non-boolean value, which `_.isBoolean` would skip, is represented as absent.
- The custom request interceptor, its unit test and the relation fixture built on it: their source is not part of this model. Their effect enters as the `customRequestOptions` slot of the request.
- End-to-end specs that need an HTTP server, a database and the Swagger explorer.
