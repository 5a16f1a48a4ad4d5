/**
 * The pressure decelerator: a per-key cache of recommended sleep times.
 * A key is fetched from the signal source once, when it is first asked for;
 * a periodic refresh tick drops keys idle for longer than EvictThreshold,
 * keeps at most MaxKeyCapacity of the most recently used ones, and refreshes
 * those in one batch call.
 *
 * Each operation runs as one atomic step. The signal source is a pair of
 * functions of the ambient context and the key(s); the ghost logs Fetches and
 * Batches record the calls made to it.
 */
module Decelerator {
  import opened Wrappers
  import opened Context
  import opened Pressure

  /** PressureDeceleratorItem; `fetched` records that its one-time fetch has run. */
  datatype Item = Item(key: string, sleeptime: int, lastReqTime: int, fetched: bool)

  /** The signal source's answer for one key: the value and whether an error came with it. */
  datatype SingleReply = SingleReply(value: int, failed: bool)

  /** The signal source's answer for a batch: a nil map on failure is the empty map. */
  datatype BatchReply = BatchReply(values: map<string, int>, failed: bool)

  function MinInt32(a: int, b: int): (r: int)
    ensures r <= a && r <= b && (r == a || r == b)
  {
    if a < b then a else b
  }

  /** The clamp both write paths apply: at most maxSleeptime when that is positive, the value itself otherwise. */
  function Clamp(st: int, maxSleeptime: int): (r: int)
    ensures maxSleeptime > 0 ==> r <= maxSleeptime && (st <= maxSleeptime ==> r == st) && (st > maxSleeptime ==> r == maxSleeptime)
    ensures maxSleeptime <= 0 ==> r == st
  {
    if maxSleeptime > 0 then MinInt32(st, maxSleeptime) else st
  }

  /** Reading a Go map: a missing key (or a nil map) gives 0. */
  function Lookup(m: map<string, int>, k: string): (r: int)
    ensures k !in m ==> r == 0
    ensures k in m ==> r == m[k]
  {
    if k in m then m[k] else 0
  }

  // ---- sequences of distinct keys ----

  ghost predicate NoDup<T>(s: seq<T>) {
    forall i, j :: 0 <= i < j < |s| ==> s[i] != s[j]
  }

  ghost function SetOf<T>(s: seq<T>): set<T> {
    set x | x in s
  }

  lemma {:induction false} NoDupCard<T>(s: seq<T>)
    requires NoDup(s)
    ensures |SetOf(s)| == |s|
  {
    if s != [] {
      var p := s[..|s| - 1];
      assert NoDup(p);
      NoDupCard(p);
      assert SetOf(s) == SetOf(p) + {s[|s| - 1]};
      assert s[|s| - 1] !in SetOf(p);
    }
  }

  lemma NoDupSplit<T>(s: seq<T>, c: nat)
    requires NoDup(s) && c <= |s|
    ensures SetOf(s) - SetOf(s[c..]) == SetOf(s[..c])
    ensures NoDup(s[..c]) && NoDup(s[c..])
  {
    forall i | 0 <= i < c ensures s[i] !in s[c..] {
      assert forall j :: 0 <= j < |s| - c ==> s[c..][j] == s[c + j] != s[i];
    }
    assert SetOf(s) == SetOf(s[..c]) + SetOf(s[c..]) by {
      assert s == s[..c] + s[c..];
    }
  }

  // ---- ordering by last access, most recent first (the sort.Slice call) ----

  /** Each key was used no later than the one before it; `t` is read as a Go map. */
  predicate SortedByRecency(s: seq<string>, t: map<string, int>) {
    forall i :: 0 < i < |s| ==> Lookup(t, s[i - 1]) >= Lookup(t, s[i])
  }

  lemma {:induction false} SortedByRecencyAll(s: seq<string>, t: map<string, int>)
    requires SortedByRecency(s, t)
    ensures forall i, j :: 0 <= i <= j < |s| ==> Lookup(t, s[i]) >= Lookup(t, s[j])
  {
    if s != [] {
      var p := s[..|s| - 1];
      assert SortedByRecency(p, t);
      SortedByRecencyAll(p, t);
      var n := |s| - 1;
      forall i | 0 <= i < n ensures Lookup(t, s[i]) >= Lookup(t, s[n]) {
        assert s[i] == p[i] && s[n - 1] == p[n - 1];
      }
    }
  }

  function InsertByRecency(k: string, s: seq<string>, t: map<string, int>): seq<string> {
    if s == [] || Lookup(t, k) >= Lookup(t, s[0]) then [k] + s
    else [s[0]] + InsertByRecency(k, s[1..], t)
  }

  /** Ordering by recency, most recently used first; ties in any order (sort.Slice is not stable). */
  function SortByRecency(s: seq<string>, t: map<string, int>): seq<string> {
    if s == [] then [] else InsertByRecency(s[0], SortByRecency(s[1..], t), t)
  }

  lemma {:induction false} InsertByRecencyPerm(k: string, s: seq<string>, t: map<string, int>)
    ensures multiset(InsertByRecency(k, s, t)) == multiset(s) + multiset{k}
  {
    if s == [] || Lookup(t, k) >= Lookup(t, s[0]) {
      assert multiset([k] + s) == multiset{k} + multiset(s);
    } else {
      var rest := InsertByRecency(k, s[1..], t);
      InsertByRecencyPerm(k, s[1..], t);
      assert multiset(s) == multiset{s[0]} + multiset(s[1..]) by {
        assert s == [s[0]] + s[1..];
      }
      assert multiset([s[0]] + rest) == multiset{s[0]} + multiset(rest);
    }
  }

  lemma {:induction false} InsertByRecencySorted(k: string, s: seq<string>, t: map<string, int>)
    requires SortedByRecency(s, t)
    ensures SortedByRecency(InsertByRecency(k, s, t), t)
    ensures |InsertByRecency(k, s, t)| == |s| + 1
    ensures InsertByRecency(k, s, t)[0] == k || (s != [] && InsertByRecency(k, s, t)[0] == s[0])
  {
    var r := InsertByRecency(k, s, t);
    if s == [] || Lookup(t, k) >= Lookup(t, s[0]) {
      forall i | 1 < i < |r| ensures Lookup(t, r[i - 1]) >= Lookup(t, r[i]) {
        assert r[i - 1] == s[i - 2] && r[i] == s[i - 1];
      }
    } else {
      var rest := InsertByRecency(k, s[1..], t);
      assert SortedByRecency(s[1..], t);
      InsertByRecencySorted(k, s[1..], t);
      assert rest[0] == k || rest[0] == s[1];
      forall i | 1 < i < |r| ensures Lookup(t, r[i - 1]) >= Lookup(t, r[i]) {
        assert r[i - 1] == rest[i - 2] && r[i] == rest[i - 1];
      }
    }
  }

  /** A permutation of the input, each key used no later than the one before it. */
  lemma {:induction false} SortByRecencySpec(s: seq<string>, t: map<string, int>)
    ensures multiset(SortByRecency(s, t)) == multiset(s)
    ensures SortedByRecency(SortByRecency(s, t), t)
  {
    if s != [] {
      SortByRecencySpec(s[1..], t);
      InsertByRecencyPerm(s[0], SortByRecency(s[1..], t), t);
      InsertByRecencySorted(s[0], SortByRecency(s[1..], t), t);
      assert s == [s[0]] + s[1..];
    }
  }

  lemma {:induction false} NoDupByMultiset<T>(s: seq<T>, r: seq<T>)
    requires multiset(s) == multiset(r) && NoDup(s)
    ensures NoDup(r)
  {
    forall i, j | 0 <= i < j < |r| ensures r[i] != r[j] {
      if r[i] == r[j] {
        assert r == r[..j] + [r[j]] + r[j + 1..];
        assert r[i] in r[..j];
        assert multiset(r)[r[i]] >= 2 by {
          assert multiset(r) == multiset(r[..j]) + multiset{r[j]} + multiset(r[j + 1..]);
        }
        NoDupCount(s, r[i]);
        assert false;
      }
    }
  }

  lemma {:induction false} NoDupCount<T>(s: seq<T>, x: T)
    requires NoDup(s)
    ensures multiset(s)[x] <= 1
  {
    if s != [] {
      var p := s[..|s| - 1];
      assert s == p + [s[|s| - 1]];
      assert NoDup(p);
      NoDupCount(p, x);
      if x == s[|s| - 1] {
        assert x !in p;
      }
    }
  }

  /** In a list ordered by recency, every key before position c was used no earlier than every key from c on. */
  lemma PrefixMoreRecent(s: seq<string>, t: map<string, int>, c: nat)
    requires SortedByRecency(s, t) && c <= |s|
    ensures forall k, d :: k in s[..c] && d in s[c..] ==> Lookup(t, k) >= Lookup(t, d)
  {
    SortedByRecencyAll(s, t);
    forall k, d | k in s[..c] && d in s[c..] ensures Lookup(t, k) >= Lookup(t, d) {
      var i :| 0 <= i < c && s[..c][i] == k;
      var j :| 0 <= j < |s| - c && s[c..][j] == d;
      assert s[i] == k && s[c + j] == d;
    }
  }

  /** The sort.Slice call of a refresh tick, on distinct keys: the same keys, most recently used first. */
  method OrderByRecency(keys: seq<string>, t: map<string, int>) returns (sorted: seq<string>)
    requires NoDup(keys)
    ensures NoDup(sorted) && SetOf(sorted) == SetOf(keys) && |sorted| == |SetOf(keys)|
    ensures SortedByRecency(sorted, t)
  {
    SortByRecencySpec(keys, t);
    SortByRecencyKeys(keys, t);
    NoDupCard(keys);
    sorted := SortByRecency(keys, t);
  }

  /** Sorting a list of distinct keys gives a list of the same distinct keys. */
  lemma SortByRecencyKeys(s: seq<string>, t: map<string, int>)
    requires NoDup(s)
    ensures NoDup(SortByRecency(s, t))
    ensures |SortByRecency(s, t)| == |s| && SetOf(SortByRecency(s, t)) == SetOf(s)
  {
    var r := SortByRecency(s, t);
    SortByRecencySpec(s, t);
    NoDupByMultiset(s, r);
    assert |r| == |s| by {
      assert |multiset(r)| == |multiset(s)|;
    }
    forall x ensures x in r <==> x in s {
      assert x in r <==> x in multiset(r);
      assert x in s <==> x in multiset(s);
    }
  }

  lemma NoDupAppend<T>(s: seq<T>, x: T)
    requires NoDup(s) && x !in s
    ensures NoDup(s + [x]) && SetOf(s + [x]) == SetOf(s) + {x}
  {
  }

  /** The keys of a cache that a tick at `now` keeps: those asked for within the threshold. */
  ghost function FreshKeys(cache: map<string, Item>, now: int, threshold: int): set<string> {
    set k | k in cache && now - cache[k].lastReqTime <= threshold
  }

  class PressureDecelerator {
    var config: PressureConfig
    var ctx: Context
    var cache: map<string, Item>
    var size: int
    var updating: bool
    /** The single-key fetches issued, in order. */
    ghost var Fetches: seq<string>
    /** The key lists of the batch calls issued, in order. */
    ghost var Batches: seq<seq<string>>

    /** The counter tracks the cache, keys are non-empty, and every cached item has been fetched. */
    ghost predicate Valid()
      reads this
    {
      && size == |cache|
      && forall k :: k in cache ==> cache[k].key == k && cache[k].fetched && k != ""
    }

    /** When MaxSleeptime is positive no stored sleep time exceeds it. */
    ghost predicate Bounded()
      reads this
    {
      config.MaxSleeptime > 0 ==> forall k :: k in cache ==> cache[k].sleeptime <= config.MaxSleeptime
    }

    /** NewPressureDecelerator; a nil configuration means the default one. */
    constructor (ctx: Context, config: Option<PressureConfig>)
      ensures Valid() && Bounded()
      ensures this.config == config.GetOr(DefaultPressureConfig) && this.ctx == ctx
      ensures cache == map[] && size == 0 && !updating && Fetches == [] && Batches == []
    {
      this.config := config.GetOr(DefaultPressureConfig);
      this.ctx := ctx;
      cache := map[];
      size := 0;
      updating := false;
      Fetches := [];
      Batches := [];
    }

    function GetContext(): (c: Context)
      reads this
      ensures c == ctx
    {
      ctx
    }

    method SetContext(c: Context)
      modifies this
      ensures ctx == c
      ensures config == old(config) && cache == old(cache) && size == old(size) && updating == old(updating)
      ensures Fetches == old(Fetches) && Batches == old(Batches)
    {
      ctx := c;
    }

    function GetConfig(): (c: PressureConfig)
      reads this
      ensures c == config
    {
      config
    }

    method SetConfig(c: PressureConfig)
      modifies this
      ensures config == c
      ensures ctx == old(ctx) && cache == old(cache) && size == old(size) && updating == old(updating)
      ensures Fetches == old(Fetches) && Batches == old(Batches)
    {
      config := c;
    }

    /** updateOne: fetch one key's sleep time and store it, clamped. A reported error is only logged: the value is used as returned. */
    method UpdateOne(item: Item, fetch: (Context, string) -> SingleReply) returns (updated: Item)
      modifies this`Fetches
      ensures updated == item.(sleeptime := Clamp(fetch(ctx, item.key).value, config.MaxSleeptime))
      ensures Fetches == old(Fetches) + [item.key]
    {
      var reply := fetch(GetContext(), item.key);
      Fetches := Fetches + [item.key];
      var st := reply.value;
      var maxSleeptime := GetConfig().MaxSleeptime;
      if maxSleeptime > 0 {
        st := MinInt32(st, maxSleeptime);
      }
      updated := item.(sleeptime := st);
    }

    /** GetSleeptime at time `now`. */
    method GetSleeptime(key: string, now: int, fetch: (Context, string) -> SingleReply) returns (st: int)
      requires Valid()
      modifies this
      ensures Valid()
      ensures config == old(config) && ctx == old(ctx) && updating == old(updating) && Batches == old(Batches)
      ensures old(Bounded()) ==> Bounded()
      ensures config.MaxSleeptime > 0 && old(Bounded()) ==> st <= config.MaxSleeptime
      // the empty key: 0, nothing touched
      ensures key == "" ==> st == 0 && cache == old(cache) && size == old(size) && Fetches == old(Fetches)
      // a miss: one new item, fetched now, stamped now
      ensures key != "" && key !in old(cache) ==>
        && Fetches == old(Fetches) + [key]
        && st == Clamp(fetch(ctx, key).value, config.MaxSleeptime)
        && cache == old(cache)[key := Item(key, st, now, true)]
        && size == old(size) + 1
      // a hit: the stored value, no fetch, only the access time changes
      ensures key != "" && key in old(cache) ==>
        && Fetches == old(Fetches)
        && st == old(cache)[key].sleeptime
        && cache == old(cache)[key := old(cache)[key].(lastReqTime := now)]
        && size == old(size)
    {
      if key == "" {
        return 0;
      }
      var item: Item;
      if key in cache {
        item := cache[key];
      } else {
        item := Item(key, 0, now, false);
        cache := cache[key := item];
        size := size + 1;
      }
      if !item.fetched {
        item := UpdateOne(item, fetch);
        item := item.(fetched := true);
      }
      item := item.(lastReqTime := now);
      cache := cache[key := item];
      st := item.sleeptime;
    }

    /** evictKeys: delete each key and decrement the counter once per key, present or not. */
    method EvictKeys(keys: seq<string>)
      modifies this`cache, this`size
      ensures cache == old(cache) - SetOf(keys)
      ensures size == old(size) - |keys|
      ensures NoDup(keys) && SetOf(keys) <= old(cache).Keys && old(size) == |old(cache)| ==> size == |cache|
      ensures cache.Keys == old(cache).Keys - SetOf(keys)
      ensures forall k :: k in cache ==> cache[k] == old(cache)[k]
    {
      var i := 0;
      while i < |keys|
        invariant 0 <= i <= |keys|
        invariant cache == old(cache) - SetOf(keys[..i])
        invariant size == old(size) - i
        invariant NoDup(keys) && SetOf(keys) <= old(cache).Keys && old(size) == |old(cache)| ==> size == |cache|
      {
        var key := keys[i];
        if NoDup(keys) && SetOf(keys) <= old(cache).Keys {
          assert key in old(cache);
          assert key !in keys[..i] by {
            assert forall j :: 0 <= j < i ==> keys[..i][j] == keys[j] != key;
          }
          assert key in cache;
          assert (cache - {key}).Keys == cache.Keys - {key};
        }
        cache := cache - {key};
        size := size - 1;
        assert keys[..i + 1] == keys[..i] + [key];
        assert SetOf(keys[..i + 1]) == SetOf(keys[..i]) + {key};
        i := i + 1;
      }
      assert keys[..i] == keys;
    }

    /**
     * The scan at the start of a refresh tick: every cached key lands in
     * exactly one of the two lists, the recent ones with their access times.
     * The visiting order of the map is not fixed.
     */
    method Partition(now: int) returns (updateKeys: seq<string>, sortKeys: map<string, int>, evict: seq<string>)
      requires Valid()
      ensures NoDup(updateKeys) && NoDup(evict)
      ensures SetOf(updateKeys) == FreshKeys(cache, now, config.EvictThreshold)
      ensures SetOf(evict) == cache.Keys - FreshKeys(cache, now, config.EvictThreshold)
      ensures sortKeys.Keys == SetOf(updateKeys)
      ensures forall k :: k in sortKeys ==> sortKeys[k] == cache[k].lastReqTime
    {
      ghost var recent := FreshKeys(cache, now, config.EvictThreshold);
      var rest := cache.Keys;
      updateKeys, sortKeys, evict := [], map[], [];
      while rest != {}
        invariant rest <= cache.Keys
        invariant NoDup(updateKeys) && NoDup(evict)
        invariant SetOf(updateKeys) == recent - rest
        invariant SetOf(evict) == (cache.Keys - recent) - rest
        invariant sortKeys.Keys == SetOf(updateKeys)
        invariant forall k :: k in sortKeys ==> sortKeys[k] == cache[k].lastReqTime
        decreases rest
      {
        var k :| k in rest;
        var item := cache[k];
        var lastReqTime := item.lastReqTime;
        if now - lastReqTime <= GetConfig().EvictThreshold {
          NoDupAppend(updateKeys, item.key);
          updateKeys := updateKeys + [item.key];
          sortKeys := sortKeys[item.key := lastReqTime];
        } else {
          NoDupAppend(evict, item.key);
          evict := evict + [item.key];
        }
        rest := rest - {k};
      }
    }

    /** The write-back at the end of a refresh tick: every listed key still cached gets its batch value, clamped. */
    method WriteBack(keys: seq<string>, values: map<string, int>)
      requires Valid()
      modifies this`cache
      ensures Valid()
      ensures cache.Keys == old(cache).Keys && |cache| == |old(cache)|
      ensures forall k :: k in cache ==>
        cache[k] == if k in keys then old(cache)[k].(sleeptime := Clamp(Lookup(values, k), config.MaxSleeptime)) else old(cache)[k]
      ensures SetOf(keys) == cache.Keys ==> forall k :: k in cache ==>
        cache[k] == old(cache)[k].(sleeptime := Clamp(Lookup(values, k), config.MaxSleeptime))
    {
      var c := cache;
      var maxSleeptime := GetConfig().MaxSleeptime;
      var i := 0;
      while i < |keys|
        invariant 0 <= i <= |keys|
        invariant c.Keys == old(cache).Keys
        invariant forall k :: k in c ==>
          c[k] == if k in keys[..i] then old(cache)[k].(sleeptime := Clamp(Lookup(values, k), maxSleeptime)) else old(cache)[k]
      {
        var key := keys[i];
        assert keys[..i + 1] == keys[..i] + [key];
        if key in c {
          var item := c[key];
          var st := if key in values then values[key] else 0;
          if maxSleeptime > 0 {
            st := MinInt32(st, maxSleeptime);
          }
          c := c[key := item.(sleeptime := st)];
        }
        i := i + 1;
      }
      cache := c;
      assert |cache| == |old(cache)| by {
        assert cache.Keys == old(cache).Keys;
      }
      assert keys[..i] == keys;
    }

    /** The capacity cut of a refresh tick: keys past the first `cap` of the ordered list are evicted. */
    method Trim(keys: seq<string>, t: map<string, int>, cap: int) returns (kept: seq<string>)
      requires Valid() && NoDup(keys) && SetOf(keys) == cache.Keys && cap >= 0
      requires SortedByRecency(keys, t)
      modifies this`cache, this`size
      ensures Valid()
      ensures kept == if |keys| > cap then keys[..cap] else keys
      ensures NoDup(kept) && cache.Keys == SetOf(kept) && |cache| == MinInt32(|keys|, cap)
      ensures forall k :: k in cache ==> cache[k] == old(cache)[k]
      ensures forall k, d :: k in cache && d in old(cache) && d !in cache ==> Lookup(t, k) >= Lookup(t, d)
    {
      NoDupCard(keys);
      kept := keys;
      if |keys| > cap {
        NoDupSplit(keys, cap);
        PrefixMoreRecent(keys, t, cap);
        EvictKeys(keys[cap..]);
        kept := keys[..cap];
      }
    }

    /**
     * One refresh tick at time `now`. While another tick holds the
     * `updating` flag nothing happens; otherwise the tick runs as one step.
     */
    method RunUpdateTick(now: int, batch: (Context, seq<string>) -> BatchReply)
      requires Valid()
      requires config.MaxKeyCapacity >= 0
      modifies this
      ensures Valid()
      ensures config == old(config) && ctx == old(ctx) && updating == old(updating) && Fetches == old(Fetches)
      ensures old(updating) ==> cache == old(cache) && size == old(size) && Batches == old(Batches)
      ensures !old(updating) ==> RefreshedBy(old(cache), old(Batches), now, batch)
    {
      if updating {
        return;
      }
      updating := true;
      Refresh(now, batch);
      updating := false;
    }

    /**
     * What a completed refresh tick at `now` leaves behind, starting from the
     * cache `before` and the batch log `batches`.
     */
    ghost predicate RefreshedBy(before: map<string, Item>, batches: seq<seq<string>>, now: int, batch: (Context, seq<string>) -> BatchReply)
      reads this
    {
      var recent := FreshKeys(before, now, config.EvictThreshold);
      && Bounded()
      // only keys used within the threshold survive, and as many of them as the capacity allows
      && cache.Keys <= recent
      && |cache| == MinInt32(|recent|, config.MaxKeyCapacity)
      // a recent key dropped for capacity was used no later than any key kept
      && (forall k, d :: k in cache && d in recent && d !in cache ==> before[k].lastReqTime >= before[d].lastReqTime)
      // no batch call when nothing is recent
      && (recent == {} ==> Batches == batches)
      // otherwise exactly one batch call, for exactly the surviving keys, whose answers are stored clamped
      && (recent != {} ==>
        && |Batches| == |batches| + 1
        && Batches[..|batches|] == batches
        && NoDup(Batches[|batches|])
        && SetOf(Batches[|batches|]) == cache.Keys
        && forall k :: k in cache ==> cache[k] == before[k].(sleeptime :=
             Clamp(Lookup(batch(ctx, Batches[|batches|]).values, k), config.MaxSleeptime)))
    }

    /** The body of a refresh tick: partition, evict the idle keys, then order, cut, fetch and write back the others. */
    method Refresh(now: int, batch: (Context, seq<string>) -> BatchReply)
      requires Valid()
      requires config.MaxKeyCapacity >= 0
      modifies this`cache, this`size, this`Batches
      ensures Valid()
      ensures RefreshedBy(old(cache), old(Batches), now, batch)
    {
      var updateKeys, sortKeys := DropIdle(now);
      if |updateKeys| != 0 {
        assert updateKeys[0] in SetOf(updateKeys);
        var sent := RefreshRecent(updateKeys, sortKeys, batch);
        assert Batches[|old(Batches)|] == sent;
      }
    }

    /** The first half of a refresh tick: scan the cache and evict the keys idle for longer than EvictThreshold. */
    method DropIdle(now: int) returns (updateKeys: seq<string>, sortKeys: map<string, int>)
      requires Valid()
      modifies this`cache, this`size
      ensures Valid()
      ensures cache.Keys == FreshKeys(old(cache), now, config.EvictThreshold)
      ensures forall k :: k in cache ==> cache[k] == old(cache)[k]
      ensures NoDup(updateKeys) && SetOf(updateKeys) == cache.Keys
      ensures sortKeys.Keys == cache.Keys && forall k :: k in sortKeys ==> sortKeys[k] == cache[k].lastReqTime
    {
      var evict;
      updateKeys, sortKeys, evict := Partition(now);
      EvictKeys(evict);
    }

    /** The part of a refresh tick after the idle keys are gone: order, cut to capacity, batch call, write-back. */
    method RefreshRecent(updateKeys: seq<string>, sortKeys: map<string, int>, batch: (Context, seq<string>) -> BatchReply)
      returns (sent: seq<string>)
      requires Valid() && config.MaxKeyCapacity >= 0
      requires updateKeys != [] && NoDup(updateKeys) && SetOf(updateKeys) == cache.Keys && sortKeys.Keys == cache.Keys
      requires forall k :: k in sortKeys ==> sortKeys[k] == cache[k].lastReqTime
      modifies this`cache, this`size, this`Batches
      ensures Valid() && Bounded()
      ensures cache.Keys <= old(cache).Keys
      ensures |cache| == MinInt32(|old(cache)|, config.MaxKeyCapacity)
      ensures forall k, d :: k in cache && d in old(cache) && d !in cache ==> old(cache)[k].lastReqTime >= old(cache)[d].lastReqTime
      ensures Batches == old(Batches) + [sent]
      ensures NoDup(sent) && SetOf(sent) == cache.Keys
      ensures forall k :: k in cache ==> cache[k] == old(cache)[k].(sleeptime :=
        Clamp(Lookup(batch(ctx, sent).values, k), config.MaxSleeptime))
    {
      sent := CutToCapacity(updateKeys, sortKeys);
      FetchAndWriteBack(sent, batch);
    }

    /** Order the recent keys by last access and evict those beyond MaxKeyCapacity; the kept keys are returned. */
    method CutToCapacity(updateKeys: seq<string>, sortKeys: map<string, int>) returns (kept: seq<string>)
      requires Valid() && config.MaxKeyCapacity >= 0
      requires NoDup(updateKeys) && SetOf(updateKeys) == cache.Keys && sortKeys.Keys == cache.Keys
      requires forall k :: k in sortKeys ==> sortKeys[k] == cache[k].lastReqTime
      modifies this`cache, this`size
      ensures Valid()
      ensures NoDup(kept) && SetOf(kept) == cache.Keys && cache.Keys <= old(cache).Keys
      ensures |cache| == MinInt32(|old(cache)|, config.MaxKeyCapacity)
      ensures forall k :: k in cache ==> cache[k] == old(cache)[k]
      ensures forall k, d :: k in cache && d in old(cache) && d !in cache ==> old(cache)[k].lastReqTime >= old(cache)[d].lastReqTime
    {
      var keys := OrderByRecency(updateKeys, sortKeys);
      assert |keys| == |cache.Keys| == |cache|;
      kept := Trim(keys, sortKeys, GetConfig().MaxKeyCapacity);
      forall k, d | k in cache && d in old(cache) && d !in cache
        ensures old(cache)[k].lastReqTime >= old(cache)[d].lastReqTime
      {
        assert Lookup(sortKeys, k) >= Lookup(sortKeys, d);
      }
    }

    /** The batch call of a refresh tick for the surviving keys, then the write-back of its answers. */
    method FetchAndWriteBack(keys: seq<string>, batch: (Context, seq<string>) -> BatchReply)
      requires Valid() && SetOf(keys) == cache.Keys
      modifies this`cache, this`Batches
      ensures Valid() && Bounded()
      ensures cache.Keys == old(cache).Keys && |cache| == |old(cache)|
      ensures Batches == old(Batches) + [keys]
      ensures forall k :: k in cache ==> cache[k] == old(cache)[k].(sleeptime :=
        Clamp(Lookup(batch(ctx, keys).values, k), config.MaxSleeptime))
    {
      var reply := batch(GetContext(), keys);
      Batches := Batches + [keys];
      WriteBack(keys, reply.values);
    }
  }

  /**
   * The package-level decelerator: created once by the first
   * InitPressureDecelerator; every call then installs the new configuration
   * and context. The refresh goroutine it starts is not modelled.
   */
  class PressureRegistry {
    var decelerator: PressureDecelerator?

    constructor ()
      ensures decelerator == null
    {
      decelerator := null;
    }

    /** InitPressureDecelerator; `data` and `decoded` are the context's pressure configuration text and its decoding. */
    method InitPressureDecelerator(ctx: Context, data: string, decoded: Option<PressureConfig>)
      modifies this, decelerator
      ensures decelerator != null
      ensures old(decelerator) == null ==> fresh(decelerator) && decelerator.cache == map[] && decelerator.size == 0
      ensures old(decelerator) == null ==> !decelerator.updating && decelerator.Fetches == [] && decelerator.Batches == []
      ensures old(decelerator) != null ==>
        && decelerator == old(decelerator) && decelerator.cache == old(decelerator.cache) && decelerator.size == old(decelerator.size)
        && decelerator.updating == old(decelerator.updating)
        && decelerator.Fetches == old(decelerator.Fetches) && decelerator.Batches == old(decelerator.Batches)
      ensures decelerator.config == NewPressureConfigByJsonStr(data, decoded) && decelerator.ctx == ctx
      ensures decelerator.Valid() == (old(decelerator) == null || old(decelerator.Valid()))
    {
      var config := NewPressureConfigByJsonStr(data, decoded);
      if decelerator == null {
        decelerator := new PressureDecelerator(ctx, Some(config));
      }
      UpdatePressureConfig(config);
      UpdatePressureContext(ctx);
    }

    /** UpdatePressureConfig: the whole stored configuration is replaced. Go dereferences a nil decelerator, so one must exist. */
    method UpdatePressureConfig(config: PressureConfig)
      requires decelerator != null
      modifies decelerator
      ensures decelerator.config == config && decelerator.GetConfig() == config
      ensures decelerator.ctx == old(decelerator.ctx) && decelerator.cache == old(decelerator.cache) && decelerator.size == old(decelerator.size)
      ensures decelerator.updating == old(decelerator.updating)
      ensures decelerator.Fetches == old(decelerator.Fetches) && decelerator.Batches == old(decelerator.Batches)
    {
      decelerator.SetConfig(config);
    }

    /** UpdatePressureContext: the stored context is replaced; the next fetch uses it. */
    method UpdatePressureContext(ctx: Context)
      requires decelerator != null
      modifies decelerator
      ensures decelerator.ctx == ctx && decelerator.GetContext() == ctx
      ensures decelerator.config == old(decelerator.config) && decelerator.cache == old(decelerator.cache) && decelerator.size == old(decelerator.size)
      ensures decelerator.updating == old(decelerator.updating)
      ensures decelerator.Fetches == old(decelerator.Fetches) && decelerator.Batches == old(decelerator.Batches)
    {
      decelerator.SetContext(ctx);
    }
  }

  /** Of the recent keys, one strictly older than all others is the first cut when the capacity is short. */
  lemma LeastRecentCut(before: map<string, Item>, kept: set<string>, recent: set<string>, oldest: string)
    requires kept <= recent <= before.Keys && |kept| < |recent| && oldest in recent
    requires forall d :: d in recent && d != oldest ==> before[oldest].lastReqTime < before[d].lastReqTime
    requires forall k, d :: k in kept && d in recent && d !in kept ==> before[k].lastReqTime >= before[d].lastReqTime
    ensures oldest !in kept
    ensures |kept| == |recent| - 1 ==> kept == recent - {oldest}
  {
    var dropped := recent - kept;
    assert |dropped| > 0;
    var d :| d in dropped;
    if d != oldest {
      assert forall k :: k in kept ==> before[k].lastReqTime >= before[d].lastReqTime;
      assert before[oldest].lastReqTime < before[d].lastReqTime;
    }
    if |kept| == |recent| - 1 {
      var others := recent - {oldest};
      assert kept <= others;
      assert |others| == |recent| - 1;
      assert |others - kept| == |others| - |kept| == 0;
      assert others - kept == {};
    }
  }

  const ScenarioConfig := PressureConfig(500, 1000, 3, 2000)

  /** The start of the life cycle: the first use of key1 fetches 1000 and stores it clamped to 500. */
  method FirstUse(fetch: (Context, string) -> SingleReply) returns (pd: PressureDecelerator, first: int)
    requires fetch(Background, "key1").value == 1000
    ensures fresh(pd) && pd.Valid() && pd.config == ScenarioConfig && pd.ctx == Background && !pd.updating
    ensures first == 500 && pd.cache == map["key1" := Item("key1", 500, 0, true)]
  {
    pd := new PressureDecelerator(Background, Some(ScenarioConfig));
    first := pd.GetSleeptime("key1", 0, fetch);
  }

  /** Four keys used at 3200, 3210, 3220 and 3220 on an empty cache. */
  method UseFour(pd: PressureDecelerator, fetch: (Context, string) -> SingleReply)
    requires pd.Valid() && pd.cache == map[]
    modifies pd
    ensures pd.Valid() && pd.config == old(pd.config) && pd.ctx == old(pd.ctx) && pd.updating == old(pd.updating)
    ensures pd.cache.Keys == {"key1", "key2", "key3", "key4"}
    ensures pd.cache["key1"].lastReqTime == 3200 && pd.cache["key2"].lastReqTime == 3210
    ensures pd.cache["key3"].lastReqTime == 3220 && pd.cache["key4"].lastReqTime == 3220
  {
    var st := pd.GetSleeptime("key1", 3200, fetch);
    st := pd.GetSleeptime("key2", 3210, fetch);
    st := pd.GetSleeptime("key3", 3220, fetch);
    st := pd.GetSleeptime("key4", 3220, fetch);
  }

  /** A tick at `now` on a cache whose only key was used at 0. */
  method TickOne(pd: PressureDecelerator, now: int, batch: (Context, seq<string>) -> BatchReply) returns (present: bool)
    requires pd.Valid() && pd.config == ScenarioConfig && !pd.updating
    requires pd.cache.Keys == {"key1"} && pd.cache["key1"].lastReqTime == 0
    modifies pd
    ensures pd.Valid() && pd.config == old(pd.config) && !pd.updating
    ensures present <==> now <= 2000
    ensures present ==> pd.cache.Keys == {"key1"} && pd.cache["key1"].lastReqTime == 0
    ensures !present ==> pd.cache == map[]
  {
    ghost var before := pd.cache;
    assert now <= 2000 ==> FreshKeys(before, now, 2000) == {"key1"};
    assert now > 2000 ==> FreshKeys(before, now, 2000) == {};
    pd.RunUpdateTick(now, batch);
    present := "key1" in pd.cache;
  }

  /** The four scenario keys are distinct. */
  lemma FourKeys()
    ensures |{"key1", "key2", "key3", "key4"}| == 4
  {
    var s: set<string> := {"key1", "key2", "key3", "key4"};
    assert "key1"[3] != "key2"[3] && "key1"[3] != "key3"[3] && "key1"[3] != "key4"[3];
    assert "key2"[3] != "key3"[3] && "key2"[3] != "key4"[3] && "key3"[3] != "key4"[3];
    assert s == {"key1"} + {"key2"} + {"key3"} + {"key4"};
  }

  /** A tick at 4220 on the four keys of UseFour keeps the three most recent. */
  method TickFour(pd: PressureDecelerator, batch: (Context, seq<string>) -> BatchReply)
    requires pd.Valid() && pd.config == ScenarioConfig && !pd.updating
    requires pd.cache.Keys == {"key1", "key2", "key3", "key4"}
    requires pd.cache["key1"].lastReqTime == 3200 && pd.cache["key2"].lastReqTime == 3210
    requires pd.cache["key3"].lastReqTime == 3220 && pd.cache["key4"].lastReqTime == 3220
    modifies pd
    ensures pd.cache.Keys == {"key2", "key3", "key4"}
  {
    ghost var before := pd.cache;
    assert FreshKeys(before, 4220, 2000) == before.Keys;
    pd.RunUpdateTick(4220, batch);
    FourRecentCut(before, pd.cache.Keys);
  }

  /** Of the four scenario keys, a kept set of three that drops no key more recent than a kept one drops key1. */
  lemma FourRecentCut(before: map<string, Item>, kept: set<string>)
    requires before.Keys == {"key1", "key2", "key3", "key4"}
    requires before["key1"].lastReqTime == 3200 && before["key2"].lastReqTime == 3210
    requires before["key3"].lastReqTime == 3220 && before["key4"].lastReqTime == 3220
    requires kept <= before.Keys && |kept| == MinInt32(|before.Keys|, 3)
    requires forall k, d :: k in kept && d in before.Keys && d !in kept ==> before[k].lastReqTime >= before[d].lastReqTime
    ensures kept == {"key2", "key3", "key4"}
  {
    FourKeys();
    assert |kept| == 3;
    LeastRecentCut(before, kept, before.Keys, "key1");
  }

  /**
   * The decelerator's life cycle with max sleep time 500, capacity 3 and
   * eviction threshold 2000: a signal of 1000 is clamped to 500, an idle key
   * is evicted, and of four recent keys the least recently used one is cut.
   */
  method LifeCycleScenario() returns (first: int, keptAtFirst: bool, evictedWhenIdle: bool, oldestCut: bool, secondKept: bool)
    ensures first == 500 && keptAtFirst && evictedWhenIdle && oldestCut && secondKept
  {
    var fetch := (c: Context, k: string) => SingleReply(1000, false);
    var batch := (c: Context, ks: seq<string>) => BatchReply(map k | k in ks :: 1000, false);
    var pd;
    pd, first := FirstUse(fetch);
    keptAtFirst := TickOne(pd, 200, batch);
    var present := TickOne(pd, 3200, batch);
    evictedWhenIdle := !present;
    UseFour(pd, fetch);
    TickFour(pd, batch);
    oldestCut := "key1" !in pd.cache;
    secondKept := "key2" in pd.cache;
  }
}
