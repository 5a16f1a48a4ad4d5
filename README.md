# server-common-go: a verified Dafny model of its core

This project models the shared server library that backs the aPaaS cloud
functions' Go SDK. The model covers:

- the admission and back-pressure layer:
  - the pressure decelerator, a per-key cache of recommended sleep times kept fresh by a periodic tick;
  - the sliding-window rate limiter;
  - normalisation of the pressure configuration.
- the app-token credential cache, with its expiry margin;
- the in-place "unauth field" table of records and fields;
- the API-timeout selection chain;
- URL-path placeholder substitution;
- the padding, hex and retry helpers;
- the list and pointer helpers;
- the auth-type decision table for requests;
- the persist-key prefix rule;
- the log truncation and count-limit rules;
- error wrapping.

The model is organised as follows:

- **Modules.** One module per source file, plus three support modules:
  - `Wrappers`: Option and Result.
  - `Strings`: stand-ins for Go's `strings` and `strconv`.
  - `Context`: a `context.Context` modelled as a map from key to value.
- **Stateful structures are classes.** The decelerator, rate limiter, credential, unauth-field table, path builder, headers and logger are each a class. Their methods are proved against functions of the old state.
- **Pure rules are functions with lemmas.**
- **Ambient inputs become parameters.** The clock is a `now` parameter. The signal source and the token endpoint are function parameters that may fail. JSON decoding is an `Option` parameter. Environment variables are parameters.
- **Concurrency becomes sequential steps.** Each operation runs as one atomic step.

## Model

| member | source | states |
|---|---|---|
| Decelerator.MinInt32 | http/pressure_decelerator.go:184-189 | the result is the smaller of the two arguments |
| Decelerator.Clamp | http/pressure_decelerator.go:105-109 | with a positive maximum the sleep time is capped at it (and kept when below); with a non-positive maximum it is stored unclamped |
| Decelerator.Lookup | http/pressure_decelerator.go:155-157 | reading a key absent from the batch answer (or from a nil map) gives 0, otherwise the answered value |
| Decelerator.NoDupCard | http/pressure_decelerator.go:122-131 | a key list without duplicates has as many elements as its set of keys |
| Decelerator.NoDupSplit | http/pressure_decelerator.go:139-141 | cutting a duplicate-free key list at the capacity splits its keys into the kept prefix and the evicted suffix |
| Decelerator.SortedByRecencyAll | http/pressure_decelerator.go:136-138 | a list sorted by descending last request time has every earlier key at least as recent as every later one |
| Decelerator.InsertByRecencyPerm | http/pressure_decelerator.go:136-138 | inserting a key into the sorted list adds exactly that key |
| Decelerator.InsertByRecencySorted | http/pressure_decelerator.go:136-138 | inserting into a list sorted by descending recency keeps it sorted and one longer |
| Decelerator.SortByRecencySpec | http/pressure_decelerator.go:136-138 | the sort is a permutation of its input and orders it by descending last request time |
| Decelerator.NoDupByMultiset | http/pressure_decelerator.go:136-138 | a permutation of a duplicate-free list is duplicate-free |
| Decelerator.NoDupCount | http/pressure_decelerator.go:136-138 | a duplicate-free list holds each key at most once |
| Decelerator.PrefixMoreRecent | http/pressure_decelerator.go:139-141 | in a sorted list every key of the kept prefix is at least as recent as every key of the cut suffix |
| Decelerator.OrderByRecency | http/pressure_decelerator.go:136-138 | the ordered keys are the same set without duplicates, sorted by descending last request time |
| Decelerator.SortByRecencyKeys | http/pressure_decelerator.go:136-138 | sorting a duplicate-free list keeps it duplicate-free with the same keys and length |
| Decelerator.NoDupAppend | http/pressure_decelerator.go:125 | appending a new key keeps the list duplicate-free and adds the key to its set |
| Decelerator.PressureDecelerator.constructor | http/pressure_decelerator.go:34-51 | a new decelerator has an empty cache, size 0, the given config (the default when nil) and context, and is not updating |
| Decelerator.PressureDecelerator.GetContext | http/pressure_decelerator.go:53-55 | returns the stored context |
| Decelerator.PressureDecelerator.SetContext | http/pressure_decelerator.go:57-59 | replaces the context and nothing else |
| Decelerator.PressureDecelerator.GetConfig | http/pressure_decelerator.go:61-63 | returns the stored configuration |
| Decelerator.PressureDecelerator.SetConfig | http/pressure_decelerator.go:65-67 | replaces the configuration and nothing else |
| Decelerator.PressureDecelerator.UpdateOne | http/pressure_decelerator.go:99-110 | asks the signal source once for the item's key in the stored context and stores the clamped answer, even when an error came with it |
| Decelerator.PressureDecelerator.GetSleeptime | http/pressure_decelerator.go:69-97 | the empty key gives 0 and touches nothing. A miss inserts one item stamped now, fetches exactly once, returns the clamped value and adds 1 to size. A hit returns the stored value without fetching and only updates its access time. The cache stays in step with size, and the returned value respects a positive maximum |
| Decelerator.PressureDecelerator.EvictKeys | http/pressure_decelerator.go:167-173 | deletes exactly the listed keys, lowers size by the list length, keeps size equal to the cache count for duplicate-free cached keys, and leaves the other items unchanged |
| Decelerator.PressureDecelerator.Partition | http/pressure_decelerator.go:118-131 | splits the cached keys into those used within EvictThreshold of now (with their last request times) and the rest |
| Decelerator.PressureDecelerator.WriteBack | http/pressure_decelerator.go:148-159 | every listed key still cached gets the clamped batch answer (0 when missing); other items and the key set are unchanged |
| Decelerator.PressureDecelerator.Trim | http/pressure_decelerator.go:139-142 | beyond the capacity, exactly the least recent surplus is evicted; the kept prefix has min(count, capacity) keys, each at least as recent as any evicted one |
| Decelerator.PressureDecelerator.RunUpdateTick | http/pressure_decelerator.go:116-160 | while another tick holds the guard nothing changes; otherwise the cache is refreshed as RefreshedBy describes |
| Decelerator.PressureDecelerator.Refresh | http/pressure_decelerator.go:118-159 | a tick keeps only keys used within the threshold, and as many of them as capacity allows (the most recent). It makes no batch call when none is recent; otherwise one call for exactly the survivors, whose clamped answers are stored |
| Decelerator.PressureDecelerator.DropIdle | http/pressure_decelerator.go:118-132 | after eviction the cache holds exactly the keys used within the threshold, with their items unchanged |
| Decelerator.PressureDecelerator.RefreshRecent | http/pressure_decelerator.go:136-159 | on a non-empty recent set: cut to capacity by recency, one batch call for exactly the kept keys, and their clamped answers stored |
| Decelerator.PressureDecelerator.CutToCapacity | http/pressure_decelerator.go:136-142 | sorts by recency and evicts the least recent surplus; min(count, capacity) keys remain, each at least as recent as any dropped |
| Decelerator.PressureDecelerator.FetchAndWriteBack | http/pressure_decelerator.go:143-159 | one batch call for exactly the cached keys; each item's sleep time becomes the clamped value the reply holds for its key, whether or not the call reported failure; a key missing from the reply, or a failed reply with no map, gives 0 |
| Decelerator.PressureRegistry.constructor | http/pressure.go:63-66 | the package starts without a decelerator |
| Decelerator.PressureRegistry.InitPressureDecelerator | http/pressure.go:69-81 | creates the decelerator only on the first call, not updating and with empty logs; a later call keeps the same decelerator with its cache, size, updating flag and logs; on every call it installs the normalised configuration and the context |
| Decelerator.PressureRegistry.UpdatePressureConfig | http/pressure.go:83-85 | replaces the decelerator's configuration, which GetConfig then returns, and nothing else |
| Decelerator.PressureRegistry.UpdatePressureContext | http/pressure.go:87-89 | replaces the decelerator's context, which GetContext then returns, and nothing else |
| Decelerator.LeastRecentCut | http/pressure_decelerator_test.go:30-40 | when one fewer key than the recent ones survives, the strictly least recent key is the one cut |
| Decelerator.FirstUse | http/pressure_decelerator_test.go:12-23 | with max sleep time 500 and a signal of 1000 the first GetSleeptime returns 500 and caches key1 |
| Decelerator.UseFour | http/pressure_decelerator_test.go:30-35 | four GetSleeptime calls at 3200, 3210, 3220 and 3220 cache exactly key1..key4 with those access times |
| Decelerator.TickOne | http/pressure_decelerator_test.go:24-29 | a tick keeps key1 while it is at most EvictThreshold old and empties the cache after that |
| Decelerator.TickFour | http/pressure_decelerator_test.go:36-40 | with capacity 3, a tick over key1..key4 evicts key1 (least recent) and keeps key2, key3 and key4 |
| Decelerator.LifeCycleScenario | http/pressure_decelerator_test.go:11-41 | the test's sequence: 500 is returned, key1 survives the first tick and is evicted when idle, and of four keys key1 is cut while key2 stays |
| Pressure.Normalize | http/pressure.go:48-60 | MaxSleeptime 0 becomes 1000 while other values (negative included) are kept. Non-positive UpdateInterval, MaxKeyCapacity and EvictThreshold become their defaults, and positive ones are kept |
| Pressure.NewPressureConfigByJsonStr | http/pressure.go:37-61 | empty input and undecodable input both give the defaults 1000/5000/1000/60000. A non-empty input that decodes gives exactly the normalisation of the decoded config, so the result is always normalised and an already valid config passes through unchanged |
| Pressure.PartlyValidConfig | http/pressure.go:48-60 | a decoded config keeps every field the normalisation accepts, a negative MaxSleeptime included, and each other field gets its default |
| Pressure.NormalizeIdempotent | http/pressure.go:48-60 | a valid config is a fixed point, so normalising twice equals normalising once |
| RateLimiting.Purge | http/rate_limiter.go:46-53 | the purge never lengthens the list |
| RateLimiting.PurgeSpec | http/rate_limiter.go:46-53 | the purge keeps a suffix whose first entry is within the window and drops only entries older than the window |
| RateLimiting.InWindow | http/rate_limiter.go:48 | the in-window filter keeps only entries at most one window old |
| RateLimiting.AscendingAppend | http/rate_limiter.go:57 | pushing a time no earlier than the last keeps the list oldest-first |
| RateLimiting.AscendingSuffix | http/rate_limiter.go:49 | removing front entries keeps the list oldest-first |
| RateLimiting.PurgeIsWindow | http/rate_limiter.go:46-53 | on an oldest-first list, purging from the front keeps exactly the entries inside the window |
| RateLimiting.AllInWindow | http/rate_limiter.go:46-53 | when the oldest entry is within the window, nothing is purged |
| RateLimiting.InWindowAppend | http/rate_limiter.go:46-57 | the window of a concatenation is the concatenation of the windows |
| RateLimiting.InWindowNone | http/rate_limiter.go:48-49 | a list whose entries are all older than the window has an empty window |
| RateLimiting.TailLater | http/rate_limiter.go:44-48 | on a monotonic clock an entry dropped at an earlier reading stays outside the window |
| RateLimiting.PurgeStep | http/rate_limiter.go:46-53 | when the list is a tail of the admission history whose dropped front is out of the window, its purge at a later reading is exactly the history's window and again such a tail |
| RateLimiting.PurgeOfTailIsWindow | http/rate_limiter.go:46-53 | the purge of such a tail at a later reading equals the window of the whole history |
| RateLimiting.PurgeOfTailIsTail | http/rate_limiter.go:46-53 | the purged list is again a tail of the history whose dropped front is out of the window at the new reading |
| RateLimiting.AdmitStep | http/rate_limiter.go:56-58 | pushing now onto the history and onto its window keeps the list the window of the history |
| RateLimiting.AllowStep | http/rate_limiter.go:44-61 | one call under a quota: the new list is the window of the new history, and admission happens exactly when the history's window is below the quota |
| RateLimiting.PurgeRecentAscending | http/rate_limiter.go:46-53 | on a monotonic clock the purge of an oldest-first list is its window and stays oldest-first |
| RateLimiting.RateLimiter.constructor | http/rate_limiter.go:9-16 | the package limiter starts with a one-second window, quota -1 (unlimited) and no requests |
| RateLimiting.RateLimiter.ResetRateLimiter | http/rate_limiter.go:26-33 | reports a change exactly when the quota differs, sets the quota, and leaves the request list alone; raising a positive quota keeps the list within it |
| RateLimiting.RateLimiter.PurgeExpired | http/rate_limiter.go:45-53 | the loop leaves exactly the purged list |
| RateLimiting.RateLimiter.PurgeAndAdmit | http/rate_limiter.go:41-61 | under a quota: purge, then admit exactly when the purged count is below the quota and push now only then; on a monotonic clock the list stays oldest-first |
| RateLimiting.RateLimiter.RecordAdmission | http/rate_limiter.go:56-58 | the ghost history gains now exactly when the call admits |
| RateLimiting.RateLimiter.AdvanceClock | http/rate_limiter.go:41-61 | after the locked part on a monotonic clock, the list is the window of the history and the admission was decided on the history's window |
| RateLimiting.RateLimiter.AllowRequest | http/rate_limiter.go:35-62 | without a quota it admits and records nothing. With one it admits exactly when the purged count is below the quota, and appends now only on admission; an admission leaves at most quota entries. The ghost history gains exactly the admitted times. On a monotonic clock the list is exactly the history's last window, the decision is made on that window, and while the list is within the quota (kept by every call, and by every raise of a positive quota) the history's last window holds at most quota admissions |
| RateLimiting.QuotaScenario | http/rate_limiter.go:45-61 | with quota 3 four calls within a second give true, true, true, false, and a call over a second after the first gives true |
| RateLimiting.LoweredQuotaKeepsList | http/rate_limiter.go:26-33 | setting the quota does not trim the list: two admissions under quota 2, then quota 1, and a refused call leaves two entries |
| RateLimiting.AdmitTwo | http/rate_limiter.go:45-61 | from an empty list under a quota of at least 2, calls at 0 and 1 both admit and record both times |
| RateLimiting.AdmitThree | http/rate_limiter.go:45-61 | from an empty list under quota 3, calls at 0, 1 and 2 all admit and record all three times |
| Credential.TenantOf | http/credential.go:89-100 | the tenant is built from the token response's tenant id, domain name, type, namespace and outside domain |
| Credential.FetchContext | http/credential.go:105-115 | the token request runs in the caller's context with the timeout method set to openapi_getAppToken, other keys unchanged |
| Credential.AppCredential.constructor | http/credential.go:33-39 | a new credential holds its id and secret, no token, no tenant and is not a system credential |
| Credential.AppCredential.GetID | http/credential.go:41-43 | returns the app id |
| Credential.AppCredential.SetSystemFlag | http/credential.go:58-60 | sets the system flag |
| Credential.AppCredential.Refresh | http/credential.go:79-103 | fetches once. A failure returns the error and leaves token, expiry and tenant unchanged. A success stores the new token and expiry, and builds the tenant only when none was stored before; otherwise the stored tenant is kept and returned |
| Credential.AppCredential.GetToken | http/credential.go:45-56 | returns the stored token without fetching when its expiry is more than 1,200,000 ms away; otherwise returns what a refresh returns |
| Credential.AppCredential.GetTenantInfo | http/credential.go:62-77 | a stored tenant is returned without refreshing; otherwise the result of a refresh in the tagged context is returned |
| Credential.FaaSCredential.constructor | http/credential.go:117-119 | the process starts without a cached cloud-function credential |
| Credential.FaaSCredential.Get | http/credential.go:121-135 | returns the cached credential when there is one; otherwise an environment error is returned and nothing cached, or a new system credential is created and cached |
| Credential.SetCredentialToCtx | http/credential.go:145-153 | a nil credential leaves the context unchanged; otherwise it is stored under the credential key of the (possibly new) context |
| Credential.GetCredentialFromCtx | http/credential.go:137-143 | a credential is found only when the context holds one under the credential key |
| Credential.CredentialRoundTrip | http/credential.go:137-153 | reading back a stored credential gives that credential |
| Permission.FieldsOf | http/permission.go:136-140 | the stored field list of (object, record id), or none |
| Permission.AppendNoOp | http/permission.go:118-129 | an empty object name, a missing record, empty fields or a non-positive id leave the table unchanged |
| Permission.AppendWrites | http/permission.go:131-140 | otherwise (object, id) maps to the fields, with the inner map created on demand; every other entry is unchanged |
| Permission.AppendTwiceKeepsLater | http/permission.go:140 | appending twice for the same record keeps only the later non-empty list |
| Permission.AppendListMismatch | http/permission.go:155-157 | when record count and list count differ, nothing is written |
| Permission.AppendAllOtherObjects | http/permission.go:158-164 | writing a record list leaves the entries of every other object unchanged |
| Permission.AppendAllSpec | http/permission.go:158-164 | with distinct ids, the i-th record gets the i-th list when positive and non-empty, and other records of the object keep their fields |
| Permission.SelectParams | http/permission.go:75-80 | selects the input or the output parameters of the function metadata, none for another direction |
| Permission.FieldsLists | http/permission.go:95-103 | one stored field list per record id of a record list, in order |
| Permission.CollectAborts | http/permission.go:87-93 | once a record list fails to decode, the whole collection is nil whatever follows |
| Permission.CollectRecordListNonEmpty | http/permission.go:95-107 | a record-list key is reported only with at least one non-empty field list |
| Permission.CollectRecordPresent | http/permission.go:84-86 | every Record parameter gets an entry, even when its record has no unauth fields |
| Permission.UnauthFieldTable.constructor | http/permission.go:118-141 | the table starts with the given contents |
| Permission.UnauthFieldTable.AppendUnauthFieldRecord | http/permission.go:118-141 | the table becomes the single-record append of the old table |
| Permission.UnauthFieldTable.AppendUnauthFieldRecordList | http/permission.go:143-165 | the indexed loop leaves the table equal to the record-list append of the old table |
| Permission.UnauthFieldTable.ListFields | http/permission.go:95-104 | lists each record's fields in order and reports whether any list is non-empty |
| Permission.UnauthFieldTable.CalcParamsNeedPermission | http/permission.go:55-116 | the loop computes NeedPermission: nil for nil params or metadata, and a non-empty map otherwise or nil |
| Permission.GetRecordUnauthField | utils/ctx.go:478-491 | returns a newly allocated table with the context table's contents |
| Permission.AppendUnauthFieldRecordAsWritten | http/permission.go:118-141 | as written: null when a guard returns; otherwise a newly allocated table holding the single-record append of the context's table, which itself is not modified |
| Permission.WriteUnauthFieldMapWithLockAsWritten | utils/ctx.go:524-538 | as written: a newly allocated table where (object, id) holds the fields and every other entry reads as in the context's table |
| Permission.AppendLostFromContext | http/permission.go:118-141 | for every table and every write past the guards, the copy holds the fields while the context's entry reads the same before and after, so the write is lost unless the context already held those fields |
| Permission.WriteLostFromContext | utils/ctx.go:524-538 | for every input, the copy holds the fields while the context's entry reads the same before and after |
| Permission.AppendLostOnEmptyTable | http/permission.go:118-141 | on an empty table, record 5 of "obj" with fields ["f"]: the copy holds ["f"] and the context holds none |
| HttpClient.ContextOverride | http/http_client.go:372-379 | a context override exists exactly when the context holds a timeout map and a method that the map knows, and it is that entry |
| HttpClient.GetTimeout | http/http_client.go:371-385 | the selected timeout is always positive |
| HttpClient.OverrideWins | http/http_client.go:372-379 | a positive context override for the method is the timeout |
| HttpClient.DefaultTableFallback | http/http_client.go:380-383 | without a positive override, the default table's entry for the method is used |
| HttpClient.GlobalFallback | http/http_client.go:384 | with neither, the timeout is 12000 ms |
| HttpClient.TimeoutSource | http/http_client.go:371-385 | the timeout is the positive override, else the table entry, else 12000; nothing else |
| HttpClient.TimeoutExamples | constants/conf.go:86-101 | concrete methods: upload attachment gives its table value 50000; openapi_oql has no table entry, so an override of 300 gives 300 and an override of 0 falls back to the default 12000 |
| Path.PathReplace.constructor | utils/path.go:18-20 | the builder holds the given path |
| Path.PathReplace.Path | utils/path.go:22-24 | returns the current path |
| Path.PathReplace.Namespace | utils/path.go:26-29 | replaces the first ":namespace" and returns the same builder |
| Path.PathReplace.ObjectAPIName | utils/path.go:31-34 | replaces the first ":objectAPIName" and returns the same builder |
| Path.PathReplace.FieldAPIName | utils/path.go:41-44 | replaces the first ":fieldAPIName" and returns the same builder |
| Path.PathReplace.RecordID | utils/path.go:46-49 | replaces the first ":recordID" with the decimal id and returns the same builder |
| Path.PathReplace.FileID | utils/path.go:51-54 | replaces the first ":fileID" and returns the same builder |
| Path.PathReplace.FunctionAPIName | utils/path.go:56-59 | replaces the first ":functionAPIName" and returns the same builder |
| Path.PathReplace.ExecutionID | utils/path.go:61-64 | replaces the first ":executionId" with the decimal id and returns the same builder |
| Path.PathReplace.APIName | utils/path.go:66-69 | replaces the first ":apiName" and returns the same builder |
| Path.NewPathRoundTrip | utils/path.go:18-24 | a new builder's path is the one it was given |
| Path.ChainAppliesInOrder | utils/path.go:26-34 | chained setters on the same builder apply left to right |
| Path.FirstOccurrenceOnly | utils/path.go:46-49 | only the first of two ":recordID" placeholders is replaced |
| Tools.PaddingN | utils/tools.go:45-51 | exactly size bytes: the input's first bytes, then ASCII '0' fill |
| Tools.UnPaddingN | utils/tools.go:88-92 | drops as many trailing bytes as the last byte's value, keeping the prefix |
| Tools.UnPadPad | utils/tools.go:88-92 | unpadding a PKCS-style padded text restores it |
| Tools.HexValue | utils/tools.go:61-74 | a hex-digit byte decodes to a value below 16 |
| Tools.HexDigit | utils/tools.go:61-74 | a nibble encodes to a lower-case hex-digit byte that decodes back to it |
| Tools.HexEncode | utils/tools.go:61-74 | encoding doubles the byte length |
| Tools.DecodePairs | utils/tools.go:61-74 | over the string's bytes: decoding succeeds exactly when every byte is a hex digit, with one byte per pair and high nibble first; a failure names the first byte that is not a hex digit |
| Tools.Hex2Bin | utils/tools.go:61-74 | fails with the length error exactly when the byte length is odd; success decodes to half the byte length |
| Tools.Hex2BinRoundTrip | utils/tools.go:61-74 | decoding the hex encoding of bytes gives them back |
| Tools.Hex2BinNonAscii | utils/tools.go:61-74 | "é" (bytes C3 A9) fails naming byte C3, and "éa" (three bytes) fails on length |
| Tools.InvokeFuncWithRetry | utils/tools.go:102-120 | calls at least once and at most retryCount+1 times, stops at the first success, and returns the last call's error |
| Tools.RetrySucceedsIff | utils/tools.go:102-120 | nil is returned exactly when some attempt in range succeeds |
| Tools.GetLogLimitOption | utils/tools.go:206-227 | no runtime option gives 10000/10485760/10000; otherwise each zero field becomes its default and the others are kept |
| Tools.LogLimitOptionIdempotent | utils/tools.go:206-227 | a completed option is a fixed point, and every field of the result is non-zero |
| Utils.InSlice | utils/utils.go:116-141 | StrInStrs, IntInInts and Int64InInt64s: true exactly when the value occurs in the slice |
| Utils.ValueOfPtr | utils/utils.go:157-204 | nil gives the default, otherwise the pointee |
| Utils.BoolValueOfPtr | utils/utils.go:186-191 | true exactly for a pointer to true |
| Utils.Ptr | utils/utils.go:153-197 | the pointer helpers point at their argument |
| Utils.PtrRoundTrip | utils/utils.go:153-204 | dereferencing a fresh pointer gives the value back |
| Utils.StrElemsSpec | utils/utils.go:300-313 | the kept elements are exactly the string elements, never more than the list |
| Utils.ParseStrList | utils/utils.go:300-313 | nil for a non-list; otherwise the string elements in order |
| Utils.ParseStrsList | utils/utils.go:315-326 | nil for a non-list; otherwise one ParseStrList per element |
| Utils.IsTrueString | utils/utils.go:367-369 | holds exactly when the lower-cased string is "true" |
| Utils.IsTrueStringExamples | utils/utils.go:367-369 | "true", "TRUE", "True" hold; "1", " true", "" do not |
| Utils.SetKEnvToCtxForRPC | utils/utils.go:258-264 | copies the TT env into the K env only when it starts with "ppe_" or "boe_"; other keys unchanged |
| Utils.SetKEnvToCtxForRPCIdempotent | utils/utils.go:258-264 | applying it twice equals once |
| Utils.OpenMesh | utils/utils.go:350-356 | false whenever mesh is closed, debugging or external; otherwise exactly EnableMesh |
| Utils.OpenMeshNeedsSocket | utils/utils.go:350-365 | mesh is open only on platform "3" with both mesh switches true and a non-blank socket |
| Utils.IsDebugSpec | utils/utils.go:148-151 | debug exactly when the context's debug type is an int equal to 1 (online) or 2 (local); a missing or non-int value reads as 0 |
| Utils.EnableMeshSpec | utils/utils.go:359-365 | mesh enabled exactly when both switches lower-case to "true" and the socket address is not all white space |
| Utils.IsExternalFaaSExamples | utils/utils.go:371-373 | only the platform "3" itself is internal; "", " 3" and "03" are external |
| RequestContext.GetUserIDFromCtx | utils/ctx.go:94-100 | the stored int64 user id, else -1 |
| RequestContext.AuthDecisionSpec | utils/ctx.go:384-395 | user -1 or "system" gives system. "user" gives mix when mixing, else user. Mix is kept, and anything else sets no header |
| RequestContext.AuthDecisionIdempotent | utils/ctx.go:384-395 | feeding a decided type back gives the same decision |
| RequestContext.HeaderAuthType | utils/ctx.go:375-380 | the context's non-empty auth type wins, else the global setting |
| RequestContext.Headers.constructor | utils/ctx.go:371-373 | a new header map is empty |
| RequestContext.SetUserAndMixAuthTypeToHeaders | utils/ctx.go:370-398 | nil headers get a fresh map, otherwise the same map is updated; it becomes WithUserAndAuthType of the old one |
| RequestContext.HeadersSpec | utils/ctx.go:382-395 | the User header is the decimal id; the auth header follows the decision table; other headers are unchanged |
| RequestContext.SetUserAndMixAuthTypeToCtx | utils/ctx.go:336-357 | the context gets the decimal user id; when the decision table yields an auth type the AUTH_TYPE entry is that type, otherwise the AUTH_TYPE entry is as before; nil or empty input means the global type; other keys are unchanged |
| RequestContext.CtxThenHeadersAgree | utils/ctx.go:336-398 | the auth type written to the context and the one written to the headers agree |
| RequestContext.GetAPaaSPersistFaaSValueFromCtx | utils/ctx.go:313-319 | a key present in the persist map reads as its value, and an absent key reads as "" |
| RequestContext.PersistFaaSMapSpec | utils/ctx.go:285-301 | the copy of the stored string map, empty when the value is missing or of another type; a persist write adds exactly its prefixed key and keeps every other entry |
| RequestContext.WithAPaaSPersistFaaSValue | utils/ctx.go:301-311 | stores the value under the prefix plus the key with one leading prefix stripped; other entries and keys are unchanged |
| RequestContext.PersistKeyNormalised | utils/ctx.go:301-311 | "k" and prefix+"k" write the same entry |
| RequestContext.PersistRoundTrip | utils/ctx.go:301-319 | a stored value reads back under its normalised key |
| RequestContext.SetRuntimeType | utils/ctx.go:600-605 | the runtime type is stored |
| RequestContext.GetRuntimeType | utils/ctx.go:607-616 | the stored string, else "0" |
| RequestContext.RuntimeTypeRoundTrip | utils/ctx.go:600-624 | a stored type reads back; IsRuntime holds exactly for "0", and for an empty context |
| RequestContext.IsRuntimeSpec | utils/ctx.go:607-624 | the runtime exactly when no string runtime type is stored or the stored one is "0" |
| FormatLog.Truncate | utils/logger.go:36-38 | up to 10000 bytes unchanged; longer becomes the first 10000 bytes plus the truncation tip |
| FormatLog.TruncateBound | utils/logger.go:36-38 | the truncated message is bounded and keeps the original's first bytes |
| FormatLog.ShapeMessage | utils/logger.go:36-41 | the count tip follows the truncated message exactly when the count is 10000 |
| FormatLog.GetFormatLogWithMessage | utils/logger.go:35-49 | only the message is reshaped; every other field is unchanged |
| FormatLog.ShapeMessageCases | utils/logger.go:36-41 | short messages below the count limit pass unchanged; long ones are cut; the count tip comes last |
| Logging.Logger.constructor | logger/logger.go:105-128 | a new logger starts with sequence 1, empty buffer and zero counters; in debug mode tags and extra info are empty |
| Logging.Logger.GetSequence | logger/logger.go:361-363 | the sequence increases by one and the new value is returned |
| Logging.Logger.TagsAddNum | logger/logger.go:365-382 | appends infoNum, warnNum and errorNum in that order after the existing tags, nothing else changed |
| Logging.Logger.NormalEntry | logger/logger.go:290-299 | a normal entry carries the given log type, its level and sequence and the truncated content, or the count tip at the 9999th entry |
| Logging.Logger.AggregationEntry | logger/logger.go:271-289 | an aggregation entry is error-level when errors were logged. TriggerTimeCost falls back to the runtime cost when not positive, and the counters are added to its tags |
| Logging.Logger.AddLog | logger/logger.go:244-301 | disabled or a full buffer drops a normal log. An aggregation log is always appended. Below the limit each log is appended. The buffer never grows past 10000 by a non-aggregation log |
| Logging.Logger.LogAt | logger/logger.go:152-180 | debug mode only echoes; otherwise the level's counter rises by one, the log goes through addLog as a normal log, and the sequence advances by 2, or by 1 when the legacy logger is disabled or the buffer is full |
| Logging.Logger.Send | logger/logger.go:182-215 | nothing is sent when disabled, in debug mode or with an empty buffer; otherwise the buffer plus one aggregation entry is sent and the sequence advances by 2 |
| Logging.SequenceStartsAtTwo | logger/logger.go:117 | the first two sequence numbers are 2 and 3 |
| Exceptions.ErrorString | exceptions/exceptions.go:76-81 | a nil error prints ""; otherwise message, " [", code, "]" |
| Exceptions.InternalError | exceptions/exceptions.go:83-90 | carries the internal error code and the message |
| Exceptions.InvalidParamError | exceptions/exceptions.go:92-99 | carries the developer error code and the message |
| Exceptions.DeveloperError | exceptions/exceptions.go:101-108 | carries the developer error code and the message |
| Exceptions.NewErrWithCodeV2 | exceptions/exceptions.go:120-127 | keeps code and message verbatim and records the log id in the cause |
| Exceptions.WrapWith | exceptions/exceptions.go:129-163 | nil stays nil, a BaseError passes through, and any other error gets the code with its text as message |
| Exceptions.ErrWrap | exceptions/exceptions.go:129-145 | nil to nil, BaseError unchanged, others get the internal code and their text |
| Exceptions.ParseErrForUser | exceptions/exceptions.go:147-163 | the same, with the developer code |
| Exceptions.WrapIdempotent | exceptions/exceptions.go:129-163 | wrapping a wrapped error changes nothing |
| Exceptions.WrappersAgree | exceptions/exceptions.go:129-163 | the two wrappers agree except for the code given to plain errors |
| Exceptions.WrappedText | exceptions/exceptions.go:76-81 | a wrapped plain error prints its text followed by the internal code |

## Left out

- Concurrency: the ticker and its goroutine per tick, the `updating` compare-and-swap (kept as a boolean guard), `sync.Once` (a per-item `fetched` flag), `sync.Map`, the atomics and the mutexes. Each operation is one atomic step; interleavings are not modelled.
- Wall clock: `time.Now`, `getCurrentTimestampMs` and `NowMils` are a `now` parameter; `time.Duration` is an integer.
- Decelerator.Clamp: Go's int32 narrowing of the signal values is not modelled; values are mathematical integers.
- Decelerator.OrderByRecency: `sort.Slice` is modelled as a functional insertion sort into a new sequence, not an in-place sort of the slice; ties may be ordered differently.
- JSON decoding (`json.Unmarshal`, `Decode`, `getRuntimeOption`, gjson), AES, MD5, zlib and base64: their results are inputs.
- The network and HTTP plumbing: `doRequest`, the mesh dialers, middleware, the token endpoint (a function parameter) and the signal clients (function parameters).
- Environment reads (`os.Getenv`): parameters. `GetFaaSPlatform` is not part of this model; it is a field of `MeshEnv`.
- Credential.AppCredential.GetTenantInfo: the nil-receiver branch is left out; a Dafny receiver is never null. `withPressureSdkReqTag` is not part of this model; it is the `tag` parameter.
- Path.PathReplace: ObjectAPINameV3 is left out; its placeholder constant `ReplaceObjectAPINameV3` is not defined in constants/constants.go.
- Exceptions.ErrWrap: pointer identity of the returned `*BaseError` is value equality; a typed-nil `*BaseError` inside an `error` is not modelled.
- Tools.InvokeFuncWithRetry: the sleep between attempts is left out; the attempts' outcomes are an input function.
- The console echo, stream-log printing and `fmt.Println` tracing.
- `GetEventID`, `RequestToCurl` and `AppendParamsUnauthFields`: they depend on map iteration order or `http.Request`.
- RequestContext.GetAPaaSPersistFaaSValueFromCtx: the copy loop of `GetAPaaSPersistFaaSMapFromCtx` is modelled as reading the map value.
- Logging.Logger: the i18n tags and labels of logs are left out, as is `getContextInfo` (it does not compile as written).
- Permission.UnauthFieldTable: a nil context or a missing table in the context is not modelled; the table is a field.
- Strings: `strings.ToLower` is ASCII-only; `strings.TrimSpace` trims the full `unicode.IsSpace` set.
- Decelerator.PressureDecelerator.RunUpdateTick and Decelerator.PressureDecelerator.Refresh require a non-negative MaxKeyCapacity: Go panics on the slice `updateKeys[maxKeyCap:]` when the capacity is negative, which a configuration set through UpdatePressureConfig can carry.
- Decelerator.PressureRegistry.UpdatePressureConfig and Decelerator.PressureRegistry.UpdatePressureContext require an existing decelerator: Go dereferences the nil package decelerator when either is called before InitPressureDecelerator.
- Tools.PaddingN: requires a non-negative size; Go panics on a negative one.
- Tools.UnPaddingN: requires a non-empty input whose last byte is at most its length; Go panics otherwise.
- Exceptions.NewErrWithCodeV2: the `cause` keeps the message text verbatim, whereas Go builds it with `fmt.Errorf` using the message as the format, so a '%' in it would be reinterpreted; the field is unexported and `Error()` never reads it.

## Findings

| source | as written | input that shows it | evidently intended | confidence | as-written member | corrected member |
|---|---|---|---|---|---|---|
| http/permission.go:131-140 with utils/ctx.go:478-491 and utils/ctx.go:524-538 | `AppendUnauthFieldRecord` and `WriteUnauthFieldMapWithLock` write into the map returned by `GetRecordUnauthField`, which it builds by JSON-decoding the stored value into a fresh map, so the write never reaches the context's table | an empty table, object "obj", record id 5, fields ["f"]: afterwards the context's table still has no fields for ("obj", 5) | the table kept in the context maps ("obj", 5) to ["f"] | not executed | Permission.AppendUnauthFieldRecordAsWritten, Permission.WriteUnauthFieldMapWithLockAsWritten, Permission.AppendLostFromContext, Permission.WriteLostFromContext, Permission.AppendLostOnEmptyTable | Permission.UnauthFieldTable.AppendUnauthFieldRecord |
