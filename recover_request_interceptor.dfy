/** The recover interceptor: picks the lookup parameters (override first,
    then the path), checks them, and stores the recover descriptor. */
module RecoverRequestInterceptor {
  import opened Interface

  const RouteMethod: Method := Recover

  /** `customRequestOption?.params ?? req.params`. */
  function LookupParams(customRequestOption: Option<CustomRequestOptions>, reqParams: Params): (p: Params)
    ensures customRequestOption.Some? && customRequestOption.value.params.Some? ==>
      p == customRequestOption.value.params.value
    ensures customRequestOption.None? || customRequestOption.value.params.None? ==> p == reqParams
  {
    if customRequestOption.Some? && customRequestOption.value.params.Some? then
      customRequestOption.value.params.value
    else
      reqParams
  }

  /** What `intercept` computes for a request: the recover descriptor, or the
      exception that aborts it. */
  function ResolveRecoverRequest(crudOptions: CrudOptions, factoryOption: FactoryOption, crudPolicy: CrudPolicy,
                                 checkParams: ParamCheck, reqParams: Params,
                                 customRequestOption: Option<CustomRequestOptions>): (r: Result<CrudRequest>)
    ensures r.Ok? <==> checkParams(LookupParams(customRequestOption, reqParams), factoryOption.columns).Some?
    ensures r.Ok? ==> r.value.CrudRecoverRequest?
    ensures r.Err? ==> r.error == UnprocessableEntity(Bare)
  {
    var recoverOptions := RouteOf(crudOptions, RouteMethod);
    match CheckParams(checkParams, LookupParams(customRequestOption, reqParams), factoryOption.columns, None)
    case Err(e) => Err(e)
    case Ok(params) => Ok(CrudRecoverRequest(params, ResponseOf(recoverOptions, crudPolicy(RouteMethod))))
  }

  /** Override parameters replace the path parameters entirely: the path is
      then irrelevant. */
  lemma OverrideParamsWin(crudOptions: CrudOptions, factoryOption: FactoryOption, crudPolicy: CrudPolicy,
                          checkParams: ParamCheck, reqParams1: Params, reqParams2: Params,
                          custom: CustomRequestOptions)
    requires custom.params.Some?
    ensures ResolveRecoverRequest(crudOptions, factoryOption, crudPolicy, checkParams, reqParams1, Some(custom))
         == ResolveRecoverRequest(crudOptions, factoryOption, crudPolicy, checkParams, reqParams2, Some(custom))
  {
  }

  /** A missing override slot, or an override without params, looks up by the path. */
  lemma MissingOverrideUsesPath(crudOptions: CrudOptions, factoryOption: FactoryOption, crudPolicy: CrudPolicy,
                                checkParams: ParamCheck, reqParams: Params, custom: CustomRequestOptions)
    requires custom.params.None?
    ensures ResolveRecoverRequest(crudOptions, factoryOption, crudPolicy, checkParams, reqParams, None)
         == ResolveRecoverRequest(crudOptions, factoryOption, crudPolicy, checkParams, reqParams, Some(custom))
    ensures ResolveRecoverRequest(crudOptions, factoryOption, crudPolicy, checkParams, reqParams, None)
         == ResolveRecoverRequest(crudOptions, factoryOption, crudPolicy, checkParams, reqParams, Some(NoOverride))
  {
  }

  /** A stored recover descriptor holds only the checked key and the
      route-or-policy response. */
  lemma RecoverDescriptor(crudOptions: CrudOptions, factoryOption: FactoryOption, crudPolicy: CrudPolicy,
                          checkParams: ParamCheck, reqParams: Params, custom: Option<CustomRequestOptions>)
    requires ResolveRecoverRequest(crudOptions, factoryOption, crudPolicy, checkParams, reqParams, custom).Ok?
    ensures var route := RouteOf(crudOptions, Recover);
      ResolveRecoverRequest(crudOptions, factoryOption, crudPolicy, checkParams, reqParams, custom).value ==
        CrudRecoverRequest(checkParams(LookupParams(custom, reqParams), factoryOption.columns).value,
                           if route.Some? && route.value.response.Some? then route.value.response.value
                           else crudPolicy(Recover).response)
  {
  }

  /** The interceptor produced by `RecoverRequestInterceptor(crudOptions, factoryOption)`. */
  class MixinInterceptor {
    const crudOptions: CrudOptions
    const factoryOption: FactoryOption
    const crudPolicy: CrudPolicy
    const checkParams: ParamCheck

    constructor (crudOptions: CrudOptions, factoryOption: FactoryOption, crudPolicy: CrudPolicy, checkParams: ParamCheck)
      ensures this.crudOptions == crudOptions && this.factoryOption == factoryOption
      ensures this.crudPolicy == crudPolicy && this.checkParams == checkParams
    {
      this.crudOptions := crudOptions;
      this.factoryOption := factoryOption;
      this.crudPolicy := crudPolicy;
      this.checkParams := checkParams;
    }

    /** Stores the recover descriptor in `req`, or leaves `req` as it was and
        reports the exception. */
    method Intercept(req: Request) returns (r: Result<CrudRequest>)
      modifies req`crudRouteArgs
      ensures r == ResolveRecoverRequest(crudOptions, factoryOption, crudPolicy, checkParams,
                                         req.params, req.customRequestOptions)
      ensures req.crudRouteArgs == if r.Ok? then Some(r.value) else old(req.crudRouteArgs)
    {
      var recoverOptions := RouteOf(crudOptions, RouteMethod);

      var customRequestOption := req.customRequestOptions;
      var params := CheckParams(checkParams, LookupParams(customRequestOption, req.params), factoryOption.columns, None);
      if params.Err? {
        return Err(params.error);
      }
      var crudRecoverRequest := CrudRecoverRequest(
        params.value,
        ResponseOf(recoverOptions, crudPolicy(RouteMethod)));

      req.crudRouteArgs := Some(crudRecoverRequest);
      return Ok(crudRecoverRequest);
    }
  }
}
