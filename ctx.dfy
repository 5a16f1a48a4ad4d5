/**
 * Request-context rules: the user id, the auth-type decision table applied
 * to outgoing headers and to the context, the persisted FaaS values, and
 * the runtime type.
 */
module RequestContext {
  import opened Wrappers
  import opened Strings
  import opened Context

  const HTTPHeaderKeyAuthType := "Rpc-Persist-AUTH-TYPE"
  const AuthTypeSystem := "system"
  const AuthTypeUser := "user"
  const AuthTypeMixUserSystem := "mix_user_system"
  const APaaSPersistFaaSPrefix := "x-apaas-persist-faas-"

  /** GetUserIDFromCtx: the stored int64 user id, or -1. */
  function GetUserIDFromCtx(ctx: Context): (r: int)
    ensures CtxKeyUser in ctx && ctx[CtxKeyUser].Int64? ==> r == ctx[CtxKeyUser].i
    ensures !(CtxKeyUser in ctx && ctx[CtxKeyUser].Int64?) ==> r == -1
  {
    if CtxKeyUser in ctx && ctx[CtxKeyUser].Int64? then ctx[CtxKeyUser].i else -1
  }

  /**
   * The auth type written for a user id and a (non-empty) requested auth
   * type, or none: the anonymous user (-1) and "system" give "system",
   * "user" gives "mix_user_system" in mixed mode and "user" otherwise,
   * "mix_user_system" is kept, anything else writes nothing.
   */
  function AuthDecision(userID: int, authType: string, isMix: bool): Option<string>
  {
    if authType == "" then None
    else if userID == -1 || authType == AuthTypeSystem then Some(AuthTypeSystem)
    else if authType == AuthTypeUser then Some(if isMix then AuthTypeMixUserSystem else AuthTypeUser)
    else if authType == AuthTypeMixUserSystem then Some(AuthTypeMixUserSystem)
    else None
  }

  /** The decision writes one of the three known auth types, and something exactly for a known type or the anonymous user. */
  lemma AuthDecisionSpec(userID: int, authType: string, isMix: bool)
    ensures var d := AuthDecision(userID, authType, isMix);
      && (d.Some? ==> d.value == AuthTypeSystem || d.value == AuthTypeUser || d.value == AuthTypeMixUserSystem)
      && (d.Some? <==> authType != "" && (userID == -1 || authType in {AuthTypeSystem, AuthTypeUser, AuthTypeMixUserSystem}))
      && (authType != "" && (userID == -1 || authType == AuthTypeSystem) ==> d == Some(AuthTypeSystem))
      && (d == Some(AuthTypeUser) ==> !isMix)
  {
  }

  /** Feeding a decision back in gives the same decision. */
  lemma AuthDecisionIdempotent(userID: int, authType: string, isMix: bool)
    requires AuthDecision(userID, authType, isMix).Some?
    ensures AuthDecision(userID, AuthDecision(userID, authType, isMix).value, isMix) == AuthDecision(userID, authType, isMix)
  {
  }

  /** The auth type the header writer starts from: the context's, else the global one (possibly empty). */
  function HeaderAuthType(ctx: Context, globalAuthType: string): (r: string)
    ensures StringValue(ctx, AuthTypeKey).Some? && StringValue(ctx, AuthTypeKey).value != "" ==> r == StringValue(ctx, AuthTypeKey).value
    ensures !(StringValue(ctx, AuthTypeKey).Some? && StringValue(ctx, AuthTypeKey).value != "") ==> r == globalAuthType
  {
    var authType := StringOrEmpty(ctx, AuthTypeKey);
    if authType == "" then globalAuthType else authType
  }

  /** An HTTP header map (map[string][]string) that the header writer fills in place. */
  class Headers {
    var values: map<string, seq<string>>

    constructor ()
      ensures values == map[]
    {
      values := map[];
    }
  }

  /** The header map after the user and auth-type entries are written into `h`. */
  function WithUserAndAuthType(h: map<string, seq<string>>, userID: int, authType: string, isMix: bool): map<string, seq<string>>
  {
    var h := h[HttpHeaderKeyUser := [IntToString(userID)]];
    match AuthDecision(userID, authType, isMix)
    case Some(a) => h[HTTPHeaderKeyAuthType := [a]]
    case None => h
  }

  /**
   * SetUserAndMixAuthTypeToHeaders. `globalAuthType` is the process-wide
   * auth type from the environment, "" when unset; a null `headers` is nil.
   */
  method SetUserAndMixAuthTypeToHeaders(ctx: Context, headers: Headers?, isMix: bool, globalAuthType: string) returns (h: Headers)
    modifies headers
    ensures headers != null ==> h == headers
    ensures headers == null ==> fresh(h)
    ensures h.values == WithUserAndAuthType(if headers == null then map[] else old(headers.values),
                                            GetUserIDFromCtx(ctx), HeaderAuthType(ctx, globalAuthType), isMix)
  {
    if headers == null {
      h := new Headers();
    } else {
      h := headers;
    }
    var authType := StringOrEmpty(ctx, AuthTypeKey);
    if authType == "" && globalAuthType != "" {
      authType := globalAuthType;
    }
    var userID := GetUserIDFromCtx(ctx);
    h.values := h.values[HttpHeaderKeyUser := [IntToString(userID)]];
    if authType != "" {
      if userID == -1 || authType == AuthTypeSystem {
        h.values := h.values[HTTPHeaderKeyAuthType := [AuthTypeSystem]];
      } else if authType == AuthTypeUser {
        if isMix {
          h.values := h.values[HTTPHeaderKeyAuthType := [AuthTypeMixUserSystem]];
        } else {
          h.values := h.values[HTTPHeaderKeyAuthType := [AuthTypeUser]];
        }
      } else if authType == AuthTypeMixUserSystem {
        h.values := h.values[HTTPHeaderKeyAuthType := [AuthTypeMixUserSystem]];
      }
    }
  }

  /** The header writer sets the decimal user id, the decided auth type if any, and touches no other header. */
  lemma HeadersSpec(h: map<string, seq<string>>, userID: int, authType: string, isMix: bool)
    ensures var r := WithUserAndAuthType(h, userID, authType, isMix);
      && HttpHeaderKeyUser in r && r[HttpHeaderKeyUser] == [IntToString(userID)]
      && (AuthDecision(userID, authType, isMix).Some? ==>
            HTTPHeaderKeyAuthType in r && r[HTTPHeaderKeyAuthType] == [AuthDecision(userID, authType, isMix).value])
      && (AuthDecision(userID, authType, isMix).None? ==>
            (HTTPHeaderKeyAuthType in r <==> HTTPHeaderKeyAuthType in h)
            && (HTTPHeaderKeyAuthType in h ==> r[HTTPHeaderKeyAuthType] == h[HTTPHeaderKeyAuthType]))
      && (forall k :: k != HttpHeaderKeyUser && k != HTTPHeaderKeyAuthType ==> (k in r <==> k in h) && (k in h ==> r[k] == h[k]))
  {
  }

  /** The auth type SetUserAndMixAuthTypeToCtx starts from: the argument, with nil or "" replaced by the global one. */
  function RequestedAuthType(authType: Option<string>, globalAuthType: string): string
  {
    if authType.None? || authType.value == "" then globalAuthType else authType.value
  }

  /**
   * SetUserAndMixAuthTypeToCtx; `authType` is the pointer argument, with
   * nil or "" falling back to the global auth type ("" when unset).
   */
  function SetUserAndMixAuthTypeToCtx(ctx: Context, authType: Option<string>, isMix: bool, globalAuthType: string): (r: Context)
    ensures HttpHeaderKeyUser in r && r[HttpHeaderKeyUser] == Str(IntToString(GetUserIDFromCtx(ctx)))
    ensures var d := AuthDecision(GetUserIDFromCtx(ctx), RequestedAuthType(authType, globalAuthType), isMix);
      && (d.Some? ==> AuthTypeKey in r && r[AuthTypeKey] == Str(d.value))
      && (d.None? ==> (AuthTypeKey in r <==> AuthTypeKey in ctx) && (AuthTypeKey in ctx ==> r[AuthTypeKey] == ctx[AuthTypeKey]))
    ensures forall k :: k != HttpHeaderKeyUser && k != AuthTypeKey ==> (k in r <==> k in ctx) && (k in ctx ==> r[k] == ctx[k])
  {
    var requested := RequestedAuthType(authType, globalAuthType);
    var userID := GetUserIDFromCtx(ctx);
    var ctx := ctx[HttpHeaderKeyUser := Str(IntToString(userID))];
    match AuthDecision(userID, requested, isMix)
    case Some(a) => ctx[AuthTypeKey := Str(a)]
    case None => ctx
  }

  /**
   * A context that SetUserAndMixAuthTypeToCtx gave an auth type yields
   * headers with that same auth type, in the same mode.
   */
  lemma CtxThenHeadersAgree(ctx: Context, authType: Option<string>, isMix: bool, globalAuthType: string, h: map<string, seq<string>>)
    requires AuthDecision(GetUserIDFromCtx(ctx), RequestedAuthType(authType, globalAuthType), isMix).Some?
    ensures var c := SetUserAndMixAuthTypeToCtx(ctx, authType, isMix, globalAuthType);
      var r := WithUserAndAuthType(h, GetUserIDFromCtx(c), HeaderAuthType(c, globalAuthType), isMix);
      HTTPHeaderKeyAuthType in r && Str(r[HTTPHeaderKeyAuthType][0]) == c[AuthTypeKey]
  {
    var requested := RequestedAuthType(authType, globalAuthType);
    var c := SetUserAndMixAuthTypeToCtx(ctx, authType, isMix, globalAuthType);
    var userID := GetUserIDFromCtx(ctx);
    assert GetUserIDFromCtx(c) == userID;
    var d := AuthDecision(userID, requested, isMix);
    AuthDecisionIdempotent(userID, requested, isMix);
    assert HeaderAuthType(c, globalAuthType) == d.value;
  }

  // ---- persisted FaaS values ----

  /** The persisted map the context carries, or an empty one. */
  function PersistFaaSMap(ctx: Context): map<string, string>
  {
    if PersistFaaSKeySummarized in ctx && ctx[PersistFaaSKeySummarized].StrMap? then ctx[PersistFaaSKeySummarized].sm else map[]
  }

  /** The persisted map is the stored string map, or empty; a write adds exactly its one entry and keeps the rest. */
  lemma PersistFaaSMapSpec(ctx: Context, key: string, value: string)
    ensures PersistFaaSKeySummarized in ctx && ctx[PersistFaaSKeySummarized].StrMap? ==>
      PersistFaaSMap(ctx) == ctx[PersistFaaSKeySummarized].sm
    ensures !(PersistFaaSKeySummarized in ctx && ctx[PersistFaaSKeySummarized].StrMap?) ==> PersistFaaSMap(ctx) == map[]
    ensures PersistFaaSMap(WithAPaaSPersistFaaSValue(ctx, key, value))
      == PersistFaaSMap(ctx)[APaaSPersistFaaSPrefix + TrimPrefix(key, APaaSPersistFaaSPrefix) := value]
  {
  }

  /** GetAPaaSPersistFaaSValueFromCtx. */
  function GetAPaaSPersistFaaSValueFromCtx(ctx: Context, key: string): (r: string)
    ensures key !in PersistFaaSMap(ctx) ==> r == ""
    ensures key in PersistFaaSMap(ctx) ==> r == PersistFaaSMap(ctx)[key]
  {
    var m := PersistFaaSMap(ctx);
    if key in m then m[key] else ""
  }

  /** WithAPaaSPersistFaaSValue: the entry is stored under the prefix plus the key with one leading prefix removed. */
  function WithAPaaSPersistFaaSValue(ctx: Context, key: string, value: string): (r: Context)
    ensures PersistFaaSKeySummarized in r && r[PersistFaaSKeySummarized].StrMap?
    ensures var m := PersistFaaSMap(r); var k := APaaSPersistFaaSPrefix + TrimPrefix(key, APaaSPersistFaaSPrefix);
      && m.Keys == PersistFaaSMap(ctx).Keys + {k}
      && (forall j :: j in m && j != k ==> m[j] == PersistFaaSMap(ctx)[j])
      && HasPrefix(k, APaaSPersistFaaSPrefix)
    ensures forall j :: j in ctx && j != PersistFaaSKeySummarized ==> j in r && r[j] == ctx[j]
  {
    var m := PersistFaaSMap(ctx);
    var k := APaaSPersistFaaSPrefix + TrimPrefix(key, APaaSPersistFaaSPrefix);
    ctx[PersistFaaSKeySummarized := StrMap(m[k := value])]
  }

  /** A key with or without the prefix writes the same entry. */
  lemma PersistKeyNormalised(ctx: Context, key: string, value: string)
    requires !HasPrefix(key, APaaSPersistFaaSPrefix)
    ensures WithAPaaSPersistFaaSValue(ctx, APaaSPersistFaaSPrefix + key, value) == WithAPaaSPersistFaaSValue(ctx, key, value)
  {
    assert HasPrefix(APaaSPersistFaaSPrefix + key, APaaSPersistFaaSPrefix);
    assert TrimPrefix(APaaSPersistFaaSPrefix + key, APaaSPersistFaaSPrefix) == key;
  }

  /** The stored value reads back under the prefixed key. */
  lemma PersistRoundTrip(ctx: Context, key: string, value: string)
    ensures GetAPaaSPersistFaaSValueFromCtx(WithAPaaSPersistFaaSValue(ctx, key, value),
                                            APaaSPersistFaaSPrefix + TrimPrefix(key, APaaSPersistFaaSPrefix)) == value
  {
  }

  // ---- runtime type ----

  const RuntimeTypeRuntime := "0"
  const RuntimeTypeCloudDebug := "1"
  const RuntimeTypeLocalDebug := "2"

  function SetRuntimeType(ctx: Context, runtimeType: string): (r: Context)
    ensures StringValue(r, CtxKeyRuntimeType) == Some(runtimeType)
  {
    ctx[CtxKeyRuntimeType := Str(runtimeType)]
  }

  /** GetRuntimeType: the stored string, else the runtime type "0". */
  function GetRuntimeType(ctx: Context): (r: string)
    ensures StringValue(ctx, CtxKeyRuntimeType).Some? ==> r == StringValue(ctx, CtxKeyRuntimeType).value
    ensures StringValue(ctx, CtxKeyRuntimeType).None? ==> r == RuntimeTypeRuntime
  {
    StringValue(ctx, CtxKeyRuntimeType).GetOr(RuntimeTypeRuntime)
  }

  predicate IsRuntime(ctx: Context) {
    GetRuntimeType(ctx) == RuntimeTypeRuntime
  }

  /** The runtime is reported exactly when no string runtime type is stored, or the stored one is "0". */
  lemma IsRuntimeSpec(ctx: Context)
    ensures IsRuntime(ctx) <==> !(CtxKeyRuntimeType in ctx && ctx[CtxKeyRuntimeType].Str?) || ctx[CtxKeyRuntimeType].s == "0"
  {
  }

  /** The runtime type set last is the one read back; only "0" counts as the runtime. */
  lemma RuntimeTypeRoundTrip(ctx: Context, runtimeType: string)
    ensures GetRuntimeType(SetRuntimeType(ctx, runtimeType)) == runtimeType
    ensures IsRuntime(SetRuntimeType(ctx, runtimeType)) <==> runtimeType == "0"
    ensures IsRuntime(Background) && !IsRuntime(SetRuntimeType(ctx, RuntimeTypeCloudDebug))
  {
  }
}
