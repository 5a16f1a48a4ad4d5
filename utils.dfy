/** Membership, pointer-default and list-filter helpers, and the mesh and environment switches. */
module Utils {
  import opened Wrappers
  import opened Strings
  import opened Context

  /** StrInStrs, IntInInts and Int64InInt64s: an early-return scan for the value. */
  method InSlice<T(==)>(xs: seq<T>, x: T) returns (found: bool)
    ensures found <==> x in xs
  {
    for i := 0 to |xs|
      invariant x !in xs[..i]
    {
      if x == xs[i] {
        return true;
      }
    }
    assert xs[..|xs|] == xs;
    return false;
  }

  /** Int64ValueOfPtr, IntValueOfPtr, PtrToInt and StringValueOfPtr: the pointee, or the default for nil. */
  function ValueOfPtr<T>(p: Option<T>, defaultVal: T): (r: T)
    ensures p.None? ==> r == defaultVal
    ensures p.Some? ==> r == p.value
  {
    match p
    case None => defaultVal
    case Some(v) => v
  }

  /** BoolValueOfPtr: false for nil. */
  function BoolValueOfPtr(p: Option<bool>): (r: bool)
    ensures r <==> p == Some(true)
  {
    ValueOfPtr(p, false)
  }

  /** Int64Ptr, IntPtr, BoolPtr and StringPtr: a pointer to a copy of the value. */
  function Ptr<T>(v: T): (p: Option<T>)
    ensures p.Some? && p.value == v
  {
    Some(v)
  }

  /** Reading back a pointer made from a value gives the value whatever the default. */
  lemma PtrRoundTrip<T>(v: T, defaultVal: T)
    ensures ValueOfPtr(Ptr(v), defaultVal) == v
  {
  }

  /** A dynamically typed decoded value: a string, a list, or anything else. */
  datatype Any = AStr(s: string) | AList(items: seq<Any>) | AOther

  /** The string elements of a list, in order. */
  function StrElems(items: seq<Any>): seq<string>
  {
    if items == [] then []
    else StrElems(items[..|items| - 1]) + (if items[|items| - 1].AStr? then [items[|items| - 1].s] else [])
  }

  /** A string is kept exactly when it is a string element, and never more often than it occurs. */
  lemma {:induction false} StrElemsSpec(items: seq<Any>)
    ensures forall s :: s in StrElems(items) <==> AStr(s) in items
    ensures |StrElems(items)| <= |items|
    ensures (forall i :: 0 <= i < |items| ==> items[i].AStr?) ==>
      |StrElems(items)| == |items| && forall i :: 0 <= i < |items| ==> StrElems(items)[i] == items[i].s
  {
    if items != [] {
      var n := |items| - 1;
      StrElemsSpec(items[..n]);
      assert items == items[..n] + [items[n]];
      if forall i :: 0 <= i < |items| ==> items[i].AStr? {
        assert forall i :: 0 <= i < n ==> items[..n][i] == items[i];
      }
    }
  }

  /** ParseStrList as a value: nil (the empty list) unless the input is a list. */
  function ParseStrListOf(v: Any): seq<string>
  {
    if v.AList? then StrElems(v.items) else []
  }

  /** ParseStrList: the loop appending the string elements. */
  method ParseStrList(v: Any) returns (strs: seq<string>)
    ensures strs == ParseStrListOf(v)
    ensures !v.AList? ==> strs == []
  {
    strs := [];
    if !v.AList? {
      return;
    }
    var items := v.items;
    for i := 0 to |items|
      invariant strs == StrElems(items[..i])
    {
      assert items[..i+1][..i] == items[..i];
      if items[i].AStr? {
        strs := strs + [items[i].s];
      }
    }
    assert items[..|items|] == items;
  }

  /** ParseStrsList: one ParseStrList per element of a list input; nil otherwise. */
  method ParseStrsList(v: Any) returns (strsList: seq<seq<string>>)
    ensures !v.AList? ==> strsList == []
    ensures v.AList? ==> |strsList| == |v.items| && forall i :: 0 <= i < |v.items| ==> strsList[i] == ParseStrListOf(v.items[i])
  {
    strsList := [];
    if !v.AList? {
      return;
    }
    var items := v.items;
    for i := 0 to |items|
      invariant |strsList| == i
      invariant forall k :: 0 <= k < i ==> strsList[k] == ParseStrListOf(items[k])
    {
      var strs := ParseStrList(items[i]);
      strsList := strsList + [strs];
    }
  }

  /** IsTrueString: case-insensitively "true". */
  function IsTrueString(str: string): (r: bool)
    ensures r ==> |str| == 4
    ensures r <==> ToLower(str) == "true"
  {
    ToLower(str) == "true"
  }

  lemma IsTrueStringExamples()
    ensures IsTrueString("true") && IsTrueString("TRUE") && IsTrueString("True")
    ensures !IsTrueString("1") && !IsTrueString(" true") && !IsTrueString("")
  {
    assert ToLower("TRUE") == "true";
    assert ToLower("True") == "true";
    assert ToLower(" true")[0] == ' ';
  }

  /** SetKEnvToCtxForRPC: the TT env is copied to K_ENV exactly when it is a "ppe_" or "boe_" environment. */
  function SetKEnvToCtxForRPC(ctx: Context): (r: Context)
    ensures var env := StringOrEmpty(ctx, CtxKeyTTEnv);
      if HasPrefix(env, "ppe_") || HasPrefix(env, "boe_") then
        CtxKeyKEnv in r && r[CtxKeyKEnv] == Str(env) && r.Keys == ctx.Keys + {CtxKeyKEnv}
      else r == ctx
    ensures forall k :: k in ctx && k != CtxKeyKEnv ==> k in r && r[k] == ctx[k]
  {
    var env := StringOrEmpty(ctx, CtxKeyTTEnv);
    if HasPrefix(env, "ppe_") || HasPrefix(env, "boe_") then ctx[CtxKeyKEnv := Str(env)] else ctx
  }

  /** Applying it twice is the same as once. */
  lemma SetKEnvToCtxForRPCIdempotent(ctx: Context)
    ensures SetKEnvToCtxForRPC(SetKEnvToCtxForRPC(ctx)) == SetKEnvToCtxForRPC(ctx)
  {
    var env := StringOrEmpty(ctx, CtxKeyTTEnv);
    var once := SetKEnvToCtxForRPC(ctx);
    assert StringOrEmpty(once, CtxKeyTTEnv) == env;
    if HasPrefix(env, "ppe_") || HasPrefix(env, "boe_") {
      assert once[CtxKeyKEnv := Str(env)] == once;
    }
  }

  const DebugTypeOnline := 1
  const DebugTypeLocal := 2

  /** IsDebug: the context's debug type is online or local. */
  predicate IsDebug(ctx: Context) {
    IntOrZero(ctx, CtxKeyDebugType) == DebugTypeOnline || IntOrZero(ctx, CtxKeyDebugType) == DebugTypeLocal
  }

  /** The environment variables the mesh switches read; `faaSPlatform` is what GetFaaSPlatform reports. */
  datatype MeshEnv = MeshEnv(faaSPlatform: string, meshHttp: string, meshUDS: string, socketAddr: string)

  /** EnableMesh: both mesh flags are "true" and the socket address is not blank. */
  predicate EnableMesh(env: MeshEnv) {
    IsTrueString(env.meshHttp) && IsTrueString(env.meshUDS) && TrimSpace(env.socketAddr) != ""
  }

  predicate IsExternalFaaS(env: MeshEnv) {
    env.faaSPlatform != "3"
  }

  /** Debug mode is exactly an int debug type of 1 (online) or 2 (local); a missing or non-int value reads as 0. */
  lemma IsDebugSpec(ctx: Context)
    ensures IsDebug(ctx) <==> CtxKeyDebugType in ctx && ctx[CtxKeyDebugType].Int? && ctx[CtxKeyDebugType].n in {1, 2}
  {
  }

  /** The mesh is enabled exactly when both flags lower-case to "true" and the socket address has a non-space character. */
  lemma EnableMeshSpec(env: MeshEnv)
    ensures EnableMesh(env) <==> ToLower(env.meshHttp) == "true" && ToLower(env.meshUDS) == "true" && !AllSpace(env.socketAddr)
  {
    TrimSpaceEmpty(env.socketAddr);
  }

  /** Only the platform string "3" itself is internal: it is neither trimmed nor parsed. */
  lemma IsExternalFaaSExamples()
    ensures !IsExternalFaaS(MeshEnv("3", "", "", ""))
    ensures IsExternalFaaS(MeshEnv("", "", "", "")) && IsExternalFaaS(MeshEnv(" 3", "", "", "")) && IsExternalFaaS(MeshEnv("03", "", "", ""))
  {
  }

  /**
   * OpenMesh; `closeMesh` is the IsCloseMesh switch of the SDK's transient
   * config in the context.
   */
  function OpenMesh(ctx: Context, closeMesh: bool, env: MeshEnv): (r: bool)
    ensures closeMesh || IsDebug(ctx) || IsExternalFaaS(env) ==> !r
    ensures !closeMesh && !IsDebug(ctx) && !IsExternalFaaS(env) ==> (r <==> EnableMesh(env))
  {
    if closeMesh || IsDebug(ctx) || IsExternalFaaS(env) then false else EnableMesh(env)
  }

  /** The mesh is only ever opened with both flags set and a non-blank socket address. */
  lemma OpenMeshNeedsSocket(ctx: Context, closeMesh: bool, env: MeshEnv)
    requires OpenMesh(ctx, closeMesh, env)
    ensures env.faaSPlatform == "3" && ToLower(env.meshHttp) == "true" && ToLower(env.meshUDS) == "true"
    ensures !AllSpace(env.socketAddr)
  {
    TrimSpaceEmpty(env.socketAddr);
  }
}
