/**
 * A Go context.Context seen as the values it carries: a map from string keys
 * to dynamically typed values. context.WithValue(ctx, k, v) is ctx[k := v];
 * ctx.Value(k).(T) succeeds when the key is present and the value has type T.
 * A nil context and context.Background() both carry no values.
 */
module Context {
  import opened Wrappers

  /** The dynamic types stored in contexts by the modelled code. */
  datatype Value =
    | Str(s: string)                        // string
    | Int64(i: int)                         // int64
    | Int(n: int)                           // int
    | TimeoutMap(m: map<string, int>)       // map[string]int64
    | StrMap(sm: map<string, string>)       // map[string]string
    | Ref(o: object)                        // a pointer, e.g. *AppCredential
    | Other                                 // any other type

  type Context = map<string, Value>

  const Background: Context := map[]

  // Context keys (constants/ctx.go and constants/constants.go).
  const CtxKeyUser := "KUser"
  const CtxKeyDebugType := "KDebugType"
  const CtxKeyAPITimeoutMap := "KAPITimeoutMap"
  const CtxKeyAPITimeoutMethod := "KAPITimeoutMethod"
  const CtxKeyCredential := "KCredential"
  const CtxKeyTTEnv := "KTTEnv"
  const CtxKeyKEnv := "K_ENV"
  const CtxKeyRuntimeType := "KRuntimeType"
  const HttpHeaderKeyUser := "User"
  const AuthTypeKey := "AUTH_TYPE"
  const PersistFaaSKeySummarized := "x-apaas-persist-faas-summarized"

  /** ctx.Value(k).(string), with ok == false as None. */
  function StringValue(ctx: Context, k: string): (r: Option<string>)
    ensures r.Some? <==> k in ctx && ctx[k].Str?
    ensures r.Some? ==> ctx[k] == Str(r.value)
  {
    if k in ctx && ctx[k].Str? then Some(ctx[k].s) else None
  }

  /** `cast, _ := ctx.Value(k).(string)`: the zero value "" when absent or of another type. */
  function StringOrEmpty(ctx: Context, k: string): string {
    StringValue(ctx, k).GetOr("")
  }

  /** `cast, _ := ctx.Value(k).(int)`. */
  function IntOrZero(ctx: Context, k: string): int {
    if k in ctx && ctx[k].Int? then ctx[k].n else 0
  }
}
