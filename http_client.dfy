/** The API-timeout selection chain of the HTTP client. Timeouts are in milliseconds. */
module HttpClient {
  import opened Wrappers
  import opened Context

  /** APITimeoutDefault: 12 seconds. */
  const APITimeoutDefault := 12 * 1000

  /** APITimeoutMapDefault: the built-in per-method timeouts. */
  const APITimeoutMapDefault: map<string, int> := map[
    "openapi_uploadAttachment" := 50 * 1000,
    "openapi_uploadAttachmentV2" := 50 * 1000,
    "openapi_downloadAttachment" := 50 * 1000,
    "openapi_downloadAttachmentV2" := 50 * 1000,
    "openapi_downloadAvatar" := 30 * 1000,
    "openapi_uploadAvatar" := 30 * 1000,
    "openapi_executeFlow" := 25 * 1000,
    "openapi_invokeFuncWithAuth" := 16 * 60 * 1000,
    "faasinfra_invokeFuncSync" := 16 * 60 * 1000,
    "faasinfra_invokeMicroserviceSync" := 16 * 60 * 1000,
    "faasinfra_requestFile" := 30 * 1000
  ]

  /** The per-call override the context carries for its method, when it has both a timeout map and a method. */
  function ContextOverride(ctx: Context): (r: Option<int>)
    ensures r.Some? <==>
      CtxKeyAPITimeoutMap in ctx && ctx[CtxKeyAPITimeoutMap].TimeoutMap? && StringValue(ctx, CtxKeyAPITimeoutMethod).Some?
      && StringValue(ctx, CtxKeyAPITimeoutMethod).value in ctx[CtxKeyAPITimeoutMap].m
    ensures r.Some? ==> r.value == ctx[CtxKeyAPITimeoutMap].m[StringValue(ctx, CtxKeyAPITimeoutMethod).value]
  {
    if CtxKeyAPITimeoutMap in ctx && ctx[CtxKeyAPITimeoutMap].TimeoutMap? then
      match StringValue(ctx, CtxKeyAPITimeoutMethod)
      case Some(name) =>
        if name in ctx[CtxKeyAPITimeoutMap].m then Some(ctx[CtxKeyAPITimeoutMap].m[name]) else None
      case None => None
    else None
  }

  /**
   * GetTimeoutCtx's timeout: the context's positive override for its method,
   * else the positive built-in entry for the method (the empty name when
   * the context has none), else 12 seconds.
   */
  function GetTimeout(ctx: Context): (r: int)
    ensures r > 0
  {
    var name := StringOrEmpty(ctx, CtxKeyAPITimeoutMethod);
    var override := ContextOverride(ctx);
    if override.Some? && override.value > 0 then override.value
    else if name in APITimeoutMapDefault && APITimeoutMapDefault[name] > 0 then APITimeoutMapDefault[name]
    else APITimeoutDefault
  }

  /** A positive override for the context's method wins. */
  lemma OverrideWins(ctx: Context, name: string, timeouts: map<string, int>)
    requires CtxKeyAPITimeoutMap in ctx && ctx[CtxKeyAPITimeoutMap] == TimeoutMap(timeouts) && StringValue(ctx, CtxKeyAPITimeoutMethod) == Some(name)
    requires name in timeouts && timeouts[name] > 0
    ensures GetTimeout(ctx) == timeouts[name]
  {
  }

  /** Without a positive override, a positive built-in entry for the method is used. */
  lemma DefaultTableFallback(ctx: Context)
    requires ContextOverride(ctx).None? || ContextOverride(ctx).value <= 0
    requires StringOrEmpty(ctx, CtxKeyAPITimeoutMethod) in APITimeoutMapDefault
    ensures GetTimeout(ctx) == APITimeoutMapDefault[StringOrEmpty(ctx, CtxKeyAPITimeoutMethod)]
  {
  }

  /** Otherwise the timeout is 12 seconds. */
  lemma GlobalFallback(ctx: Context)
    requires ContextOverride(ctx).None? || ContextOverride(ctx).value <= 0
    requires StringOrEmpty(ctx, CtxKeyAPITimeoutMethod) !in APITimeoutMapDefault
    ensures GetTimeout(ctx) == 12000
  {
  }

  /** The result is always one of the three sources. */
  lemma TimeoutSource(ctx: Context)
    ensures var r := GetTimeout(ctx);
      || (ContextOverride(ctx) == Some(r))
      || (exists m :: m in APITimeoutMapDefault && APITimeoutMapDefault[m] == r)
      || r == APITimeoutDefault
  {
  }

  /** The file attachment upload without an override gets 50 seconds; a method with no entry gets 12. */
  lemma TimeoutExamples()
    ensures GetTimeout(map[CtxKeyAPITimeoutMethod := Str("openapi_uploadAttachment")]) == 50000
    ensures GetTimeout(map[CtxKeyAPITimeoutMethod := Str("openapi_oql"),
                           CtxKeyAPITimeoutMap := TimeoutMap(map["openapi_oql" := 0])]) == 12000
    ensures GetTimeout(map[CtxKeyAPITimeoutMethod := Str("openapi_oql"),
                           CtxKeyAPITimeoutMap := TimeoutMap(map["openapi_oql" := 300])]) == 300
  {
  }
}
