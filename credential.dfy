/**
 * The application credential: a cached access token with its expiry time
 * and the tenant description learnt from the first successful token fetch.
 * The token endpoint is a function of the request context, app id and app
 * secret that answers with a token response or an error message.
 */
module Credential {
  import opened Wrappers
  import opened Context

  /** A cached token is reused only while more than 20 minutes (in ms) remain before it expires. */
  const AppTokenRefreshRemainTime: int := 20 * 60 * 1000

  /** The API-timeout method name under which the token fetch runs. */
  const GetAppToken: string := "openapi_getAppToken"

  datatype TenantInfo = TenantInfo(id: int, domainName: string, tenantName: string, tenantType: int, outsideDomainName: string)

  datatype AppTokenResp = AppTokenResp(accessToken: string, expireTime: int, namespace: string, tenantInfo: TenantInfo)

  datatype Tenant = Tenant(id: int, name: string, tenantType: int, namespace: string, domain: string)

  /** The tenant that a first successful refresh records. */
  function TenantOf(resp: AppTokenResp): (t: Tenant)
    ensures t.id == resp.tenantInfo.id && t.name == resp.tenantInfo.domainName
    ensures t.tenantType == resp.tenantInfo.tenantType && t.namespace == resp.namespace
    ensures t.domain == resp.tenantInfo.outsideDomainName
  {
    Tenant(resp.tenantInfo.id, resp.tenantInfo.domainName, resp.tenantInfo.tenantType, resp.namespace, resp.tenantInfo.outsideDomainName)
  }

  /** The context fetchToken hands to the endpoint: the caller's, tagged with the token method's timeout name. */
  function FetchContext(ctx: Context): (r: Context)
    ensures r.Keys == ctx.Keys + {CtxKeyAPITimeoutMethod}
    ensures StringValue(r, CtxKeyAPITimeoutMethod) == Some(GetAppToken)
    ensures forall k :: k in ctx && k != CtxKeyAPITimeoutMethod ==> r[k] == ctx[k]
  {
    ctx[CtxKeyAPITimeoutMethod := Str(GetAppToken)]
  }

  type Endpoint = (Context, string, string) -> Result<AppTokenResp, string>

  class AppCredential {
    const id: string
    const secret: string
    var tenantInfo: Option<Tenant>
    var token: Option<string>
    var expireTime: Option<int>
    var isSystem: bool
    /** The number of calls made to the token endpoint. */
    ghost var Fetches: nat

    /** NewAppCredential: nothing cached yet. */
    constructor (id: string, secret: string)
      ensures this.id == id && this.secret == secret
      ensures tenantInfo == None && token == None && expireTime == None && !isSystem && Fetches == 0
    {
      this.id := id;
      this.secret := secret;
      tenantInfo := None;
      token := None;
      expireTime := None;
      isSystem := false;
      Fetches := 0;
    }

    function GetID(): (r: string)
      ensures r == id
    {
      id
    }

    method SetSystemFlag(isSystem: bool)
      modifies this`isSystem
      ensures this.isSystem == isSystem
    {
      this.isSystem := isSystem;
    }

    /** The cached token is usable at `now`: it is stored and expires more than the margin after now. */
    predicate HasFreshToken(now: int)
      reads this
    {
      expireTime.Some? && expireTime.value - now > AppTokenRefreshRemainTime && token.Some?
    }

    /**
     * refresh: fetch a token. On failure nothing is stored and the error is
     * returned. On success token and expiry are overwritten; the tenant is
     * recorded only if none is stored, and the stored one is returned.
     */
    method Refresh(ctx: Context, endpoint: Endpoint) returns (tok: string, tenant: Option<Tenant>, err: Option<string>)
      modifies this`token, this`expireTime, this`tenantInfo, this`Fetches
      ensures Fetches == old(Fetches) + 1
      ensures endpoint(FetchContext(ctx), id, secret).Err? ==>
        && tok == "" && tenant == None && err == Some(endpoint(FetchContext(ctx), id, secret).error)
        && token == old(token) && expireTime == old(expireTime) && tenantInfo == old(tenantInfo)
      ensures endpoint(FetchContext(ctx), id, secret).Ok? ==>
        var resp := endpoint(FetchContext(ctx), id, secret).value;
        && err == None && tok == resp.accessToken
        && token == Some(resp.accessToken) && expireTime == Some(resp.expireTime)
        && tenantInfo == Some(old(tenantInfo).GetOr(TenantOf(resp))) && tenant == tenantInfo
    {
      var reply := endpoint(FetchContext(ctx), id, secret);
      Fetches := Fetches + 1;
      if reply.Err? {
        return "", None, Some(reply.error);
      }
      var resp := reply.value;
      token := Some(resp.accessToken);
      expireTime := Some(resp.expireTime);
      if tenantInfo.None? {
        tenantInfo := Some(TenantOf(resp));
      }
      return resp.accessToken, tenantInfo, None;
    }

    /** getToken at time `now`: the cached token while it is fresh, otherwise whatever a refresh gives. */
    method GetToken(ctx: Context, now: int, endpoint: Endpoint) returns (tok: string, err: Option<string>)
      modifies this`token, this`expireTime, this`tenantInfo, this`Fetches
      ensures old(HasFreshToken(now)) ==>
        && tok == old(token).value && err == None && Fetches == old(Fetches)
        && token == old(token) && expireTime == old(expireTime) && tenantInfo == old(tenantInfo)
      ensures !old(HasFreshToken(now)) ==>
        && Fetches == old(Fetches) + 1
        && match endpoint(FetchContext(ctx), id, secret)
           case Err(e) =>
             && tok == "" && err == Some(e)
             && token == old(token) && expireTime == old(expireTime) && tenantInfo == old(tenantInfo)
           case Ok(resp) =>
             && tok == resp.accessToken && err == None
             && token == Some(resp.accessToken) && expireTime == Some(resp.expireTime)
             && tenantInfo == Some(old(tenantInfo).GetOr(TenantOf(resp)))
    {
      if expireTime.Some? && expireTime.value - now > AppTokenRefreshRemainTime {
        if token.Some? {
          return token.value, None;
        }
      }
      var tenant;
      tok, tenant, err := Refresh(ctx, endpoint);
    }

    /**
     * GetTenantInfo on a non-nil credential: the stored tenant, or the one a
     * refresh records. `tag` is the request tagging applied before the
     * refresh (withPressureSdkReqTag, which is not part of this model).
     */
    method GetTenantInfo(ctx: Context, tag: Context -> Context, endpoint: Endpoint) returns (tenant: Option<Tenant>, err: Option<string>)
      modifies this`token, this`expireTime, this`tenantInfo, this`Fetches
      ensures old(tenantInfo).Some? ==>
        && tenant == old(tenantInfo) && err == None && Fetches == old(Fetches)
        && token == old(token) && expireTime == old(expireTime) && tenantInfo == old(tenantInfo)
      ensures old(tenantInfo).None? ==>
        && Fetches == old(Fetches) + 1
        && match endpoint(FetchContext(tag(ctx)), id, secret)
           case Err(e) =>
             && tenant == None && err == Some(e)
             && token == old(token) && expireTime == old(expireTime) && tenantInfo == None
           case Ok(resp) =>
             && tenant == Some(TenantOf(resp)) && tenantInfo == tenant && err == None
             && token == Some(resp.accessToken) && expireTime == Some(resp.expireTime)
    {
      if tenantInfo.Some? {
        return tenantInfo, None;
      }
      var tok;
      tok, tenant, err := Refresh(tag(ctx), endpoint);
    }
  }

  /** The process-wide FaaS credential, created on first use from the app id and secret read from the environment. */
  class FaaSCredential {
    var instance: AppCredential?

    constructor ()
      ensures instance == null
    {
      instance := null;
    }

    /** getFaaSCredential; `env` is the environment's (id, secret) or the error reading them. */
    method Get(env: Result<(string, string), string>) returns (c: AppCredential?, err: Option<string>)
      modifies this
      ensures old(instance) != null ==> c == old(instance) && instance == c && err == None
      ensures old(instance) == null && env.Err? ==> c == null && instance == null && err == Some(env.error)
      ensures old(instance) == null && env.Ok? ==>
        && c != null && fresh(c) && instance == c && err == None
        && c.id == env.value.0 && c.secret == env.value.1 && c.isSystem
        && c.token == None && c.expireTime == None && c.tenantInfo == None
    {
      if instance != null {
        return instance, None;
      }
      if env.Err? {
        return null, Some(env.error);
      }
      var credential := new AppCredential(env.value.0, env.value.1);
      credential.SetSystemFlag(true);
      instance := credential;
      return credential, None;
    }
  }

  /** SetCredentialToCtx; a nil context is None. */
  function SetCredentialToCtx(ctx: Option<Context>, credential: AppCredential?): (r: Option<Context>)
    ensures credential == null ==> r == ctx
    ensures credential != null ==>
      && r.Some? && CtxKeyCredential in r.value && r.value[CtxKeyCredential] == Ref(credential)
      && forall k :: k != CtxKeyCredential ==> (k in r.value <==> k in ctx.GetOr(Background)) && (k in r.value ==> r.value[k] == ctx.GetOr(Background)[k])
  {
    if credential == null then ctx
    else Some(ctx.GetOr(Background)[CtxKeyCredential := Ref(credential)])
  }

  /** getCredentialFromCtx: the stored *AppCredential, or nil. */
  function GetCredentialFromCtx(ctx: Option<Context>): (r: AppCredential?)
    ensures r != null ==> ctx.Some? && CtxKeyCredential in ctx.value && ctx.value[CtxKeyCredential] == Ref(r)
  {
    if ctx.None? || CtxKeyCredential !in ctx.value then null
    else match ctx.value[CtxKeyCredential]
      case Ref(o) => if o is AppCredential then o as AppCredential else null
      case _ => null
  }

  /** Storing a credential and reading it back gives the same credential. */
  lemma CredentialRoundTrip(ctx: Option<Context>, credential: AppCredential)
    ensures GetCredentialFromCtx(SetCredentialToCtx(ctx, credential)) == credential
  {
  }
}
