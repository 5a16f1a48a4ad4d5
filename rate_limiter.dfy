/**
 * The sliding-window rate limiter: the acceptance times of the requests of
 * the last window, oldest first; a request is admitted while fewer than
 * maxRequest are in the window. Times are nanosecond readings of a
 * monotonic clock, passed in as `now`.
 */
module RateLimiting {

  /** time.Second, in nanoseconds. */
  const Second: int := 1_000_000_000

  /** Acceptance times in the order they were pushed: never decreasing on a monotonic clock. */
  predicate Ascending(s: seq<int>) {
    |s| < 2 || (s[0] <= s[1] && Ascending(s[1..]))
  }

  /** The purge loop: drop the oldest entries while they are more than `window` before `now`. */
  function Purge(s: seq<int>, now: int, window: int): (r: seq<int>)
    ensures |r| <= |s|
  {
    if s != [] && now - s[0] > window then Purge(s[1..], now, window) else s
  }

  /** The purge removes a prefix of entries all outside the window and stops at the first entry inside it. */
  lemma {:induction false} PurgeSpec(s: seq<int>, now: int, window: int)
    ensures Purge(s, now, window) == s[|s| - |Purge(s, now, window)|..]
    ensures Purge(s, now, window) != [] ==> now - Purge(s, now, window)[0] <= window
    ensures forall i :: 0 <= i < |s| - |Purge(s, now, window)| ==> now - s[i] > window
  {
    if s != [] && now - s[0] > window {
      PurgeSpec(s[1..], now, window);
      var r := Purge(s, now, window);
      assert s[1..][|s| - 1 - |r|..] == s[|s| - |r|..];
      forall i | 0 < i < |s| - |r| ensures now - s[i] > window {
        assert s[i] == s[1..][i - 1];
      }
    }
  }

  lemma {:induction false} AscendingAppend(s: seq<int>, x: int)
    requires Ascending(s) && (s != [] ==> s[|s| - 1] <= x)
    ensures Ascending(s + [x])
  {
    if |s| >= 2 {
      assert (s + [x])[1..] == s[1..] + [x];
      AscendingAppend(s[1..], x);
    }
  }

  /** The entries of s that lie within `window` of `now`, in order. */
  function InWindow(s: seq<int>, now: int, window: int): (r: seq<int>)
    ensures |r| <= |s|
    ensures forall i :: 0 <= i < |r| ==> now - r[i] <= window
  {
    if s == [] then []
    else if now - s[0] <= window then [s[0]] + InWindow(s[1..], now, window)
    else InWindow(s[1..], now, window)
  }

  lemma {:induction false} AscendingSuffix(s: seq<int>, k: nat)
    requires Ascending(s) && k <= |s|
    ensures Ascending(s[k..])
  {
    if k > 0 {
      AscendingSuffix(s[1..], k - 1);
      assert s[1..][k - 1..] == s[k..];
    }
  }

  /** On an ascending list everything after an entry inside the window is inside it too, so the purge keeps exactly the window. */
  lemma {:induction false} PurgeIsWindow(s: seq<int>, now: int, window: int)
    requires Ascending(s)
    ensures Purge(s, now, window) == InWindow(s, now, window)
  {
    if s != [] {
      AscendingSuffix(s, 1);
      if now - s[0] > window {
        PurgeIsWindow(s[1..], now, window);
      } else {
        AllInWindow(s, now, window);
      }
    }
  }

  lemma {:induction false} AllInWindow(s: seq<int>, now: int, window: int)
    requires Ascending(s) && s != [] && now - s[0] <= window
    ensures InWindow(s, now, window) == s
  {
    if |s| > 1 {
      AscendingSuffix(s, 1);
      AllInWindow(s[1..], now, window);
      assert s == [s[0]] + s[1..];
    }
  }

  /** The window of a concatenation is the concatenation of the windows. */
  lemma {:induction false} InWindowAppend(a: seq<int>, b: seq<int>, now: int, window: int)
    ensures InWindow(a + b, now, window) == InWindow(a, now, window) + InWindow(b, now, window)
  {
    if a == [] {
      assert a + b == b;
    } else {
      assert (a + b)[0] == a[0] && (a + b)[1..] == a[1..] + b;
      InWindowAppend(a[1..], b, now, window);
    }
  }

  /** A list whose every entry is outside the window has an empty window. */
  lemma {:induction false} InWindowNone(a: seq<int>, now: int, window: int)
    requires forall i :: 0 <= i < |a| ==> now - a[i] > window
    ensures InWindow(a, now, window) == []
  {
    if a != [] {
      assert forall i :: 0 <= i < |a| - 1 ==> a[1..][i] == a[i + 1];
      InWindowNone(a[1..], now, window);
    }
  }

  /**
   * `reqs` is a tail of the ascending admission history `adm`, no admission
   * is later than `t`, and every admission before the tail was outside the
   * window at `t`.
   */
  ghost predicate TailOf(adm: seq<int>, reqs: seq<int>, t: int, window: int)
  {
    && Ascending(adm)
    && (adm != [] ==> adm[|adm| - 1] <= t)
    && |reqs| <= |adm|
    && reqs == adm[|adm| - |reqs|..]
    && forall i :: 0 <= i < |adm| - |reqs| ==> t - adm[i] > window
  }

  /** A later clock reading keeps the relation. */
  lemma TailLater(adm: seq<int>, reqs: seq<int>, last: int, now: int, window: int)
    requires TailOf(adm, reqs, last, window) && last <= now
    ensures TailOf(adm, reqs, now, window)
  {
  }

  /**
   * At any later reading the purge of the tail is exactly the window of the
   * whole history, and the purged list is again such a tail.
   */
  lemma {:induction false} PurgeStep(adm: seq<int>, reqs: seq<int>, last: int, now: int, window: int)
    requires TailOf(adm, reqs, last, window) && last <= now
    ensures Purge(reqs, now, window) == InWindow(adm, now, window)
    ensures TailOf(adm, Purge(reqs, now, window), now, window)
  {
    PurgeOfTailIsWindow(adm, reqs, last, now, window);
    PurgeOfTailIsTail(adm, reqs, last, now, window);
  }

  lemma {:induction false} PurgeOfTailIsWindow(adm: seq<int>, reqs: seq<int>, last: int, now: int, window: int)
    requires TailOf(adm, reqs, last, window) && last <= now
    ensures Purge(reqs, now, window) == InWindow(adm, now, window)
  {
    var d := |adm| - |reqs|;
    assert adm == adm[..d] + reqs;
    forall i | 0 <= i < d ensures now - adm[..d][i] > window {
      assert adm[..d][i] == adm[i];
    }
    InWindowNone(adm[..d], now, window);
    InWindowAppend(adm[..d], reqs, now, window);
    AscendingSuffix(adm, d);
    PurgeIsWindow(reqs, now, window);
  }

  lemma {:induction false} PurgeOfTailIsTail(adm: seq<int>, reqs: seq<int>, last: int, now: int, window: int)
    requires TailOf(adm, reqs, last, window) && last <= now
    ensures TailOf(adm, Purge(reqs, now, window), now, window)
  {
    PurgeKeepsTail(adm, reqs, now, window);
    PurgeDropsStale(adm, reqs, last, now, window);
  }

  /** The purge of a tail of `adm` is again a tail of `adm`. */
  lemma {:induction false} PurgeKeepsTail(adm: seq<int>, reqs: seq<int>, now: int, window: int)
    requires |reqs| <= |adm| && reqs == adm[|adm| - |reqs|..]
    ensures var p := Purge(reqs, now, window); |p| <= |adm| && p == adm[|adm| - |p|..]
  {
    PurgeSpec(reqs, now, window);
    var p := Purge(reqs, now, window);
    var d, k := |adm| - |reqs|, |reqs| - |p|;
    assert p == reqs[k..];
    assert reqs[k..] == adm[d + k..];
  }

  /** Everything before the purged tail is out of the window at the new reading. */
  lemma {:induction false} PurgeDropsStale(adm: seq<int>, reqs: seq<int>, last: int, now: int, window: int)
    requires |reqs| <= |adm| && reqs == adm[|adm| - |reqs|..] && last <= now
    requires forall i :: 0 <= i < |adm| - |reqs| ==> last - adm[i] > window
    ensures forall i :: 0 <= i < |adm| - |Purge(reqs, now, window)| ==> now - adm[i] > window
  {
    PurgeSpec(reqs, now, window);
    var p := Purge(reqs, now, window);
    var d := |adm| - |reqs|;
    forall i | 0 <= i < |adm| - |p| ensures now - adm[i] > window {
      if i >= d {
        assert adm[i] == reqs[i - d];
      }
    }
  }

  /** Admitting `now` pushes it onto both the history and its last window. */
  lemma {:induction false} AdmitStep(adm: seq<int>, p: seq<int>, now: int, window: int)
    requires window >= 0 && TailOf(adm, p, now, window) && p == InWindow(adm, now, window)
    ensures TailOf(adm + [now], p + [now], now, window)
    ensures p + [now] == InWindow(adm + [now], now, window)
  {
    AscendingAppend(adm, now);
    AdmitWindow(adm, now, window);
    AdmitTail(adm, p, now, window);
  }

  /** A new reading is inside its own window. */
  lemma {:induction false} AdmitWindow(adm: seq<int>, now: int, window: int)
    requires window >= 0
    ensures InWindow(adm + [now], now, window) == InWindow(adm, now, window) + [now]
  {
    assert InWindow([now], now, window) == [now] by {
      assert [now][1..] == [];
    }
    InWindowAppend(adm, [now], now, window);
  }

  /** Pushing `now` onto a tail and its history keeps it a tail with the same dropped front. */
  lemma {:induction false} AdmitTail(adm: seq<int>, p: seq<int>, now: int, window: int)
    requires |p| <= |adm| && p == adm[|adm| - |p|..]
    requires forall i :: 0 <= i < |adm| - |p| ==> now - adm[i] > window
    ensures p + [now] == (adm + [now])[|adm + [now]| - |p + [now]|..]
    ensures forall i :: 0 <= i < |adm + [now]| - |p + [now]| ==> now - (adm + [now])[i] > window
  {
    var adm' := adm + [now];
    var d := |adm| - |p|;
    assert adm'[d..] == adm[d..] + [now];
    forall i | 0 <= i < d ensures now - adm'[i] > window {
      assert adm'[i] == adm[i];
    }
  }

  class RateLimiter {
    var windowSize: int
    var maxRequest: int
    var requests: seq<int>
    /** Every admission time ever recorded, oldest first. */
    ghost var Admitted: seq<int>
    /** The latest clock reading a call has seen. */
    ghost var Last: int

    /** The recorded list is the tail of the admission history described by TailOf at the latest reading. */
    ghost predicate Valid()
      reads this
    {
      windowSize >= 0 && TailOf(Admitted, requests, Last, windowSize)
    }

    /** Under a positive quota the list holds at most quota entries. */
    ghost predicate Bounded()
      reads this
    {
      maxRequest > 0 ==> |requests| <= maxRequest
    }

    /** The package's limiter: a one-second window and no limit (maxRequest -1); clock readings start at 0. */
    constructor ()
      ensures windowSize == Second && maxRequest == -1 && requests == []
      ensures Valid() && Bounded() && Admitted == [] && Last == 0
    {
      windowSize := Second;
      maxRequest := -1;
      requests := [];
      Admitted := [];
      Last := 0;
    }

    /** ResetRateLimiter: set the quota; the answer says whether it changed. */
    method ResetRateLimiter(maxRequest: int) returns (changed: bool)
      modifies this`maxRequest
      ensures changed <==> old(this.maxRequest) != maxRequest
      ensures this.maxRequest == maxRequest
      // a raised positive quota keeps the bound; a lowered one need not
      ensures old(Bounded()) && old(this.maxRequest) > 0 && maxRequest >= old(this.maxRequest) ==> Bounded()
    {
      if this.maxRequest == maxRequest {
        return false;
      }
      this.maxRequest := maxRequest;
      return true;
    }

    /** The loop at the head of AllowRequest: drop the entries older than the window. */
    method PurgeExpired(now: int)
      modifies this`requests
      ensures requests == Purge(old(requests), now, windowSize)
    {
      while |requests| > 0
        invariant Purge(requests, now, windowSize) == Purge(old(requests), now, windowSize)
      {
        var front := requests[0];
        if now - front > windowSize {
          requests := requests[1..];
        } else {
          break;
        }
      }
    }

    /** The locked part of AllowRequest under a quota: purge, then admit and record `now` while under the quota. */
    method PurgeAndAdmit(now: int) returns (ok: bool)
      requires maxRequest > 0
      modifies this`requests
      ensures ok <==> |Purge(old(requests), now, windowSize)| < maxRequest
      ensures requests == Purge(old(requests), now, windowSize) + (if ok then [now] else [])
      ensures ok ==> |requests| <= maxRequest
      ensures Ascending(old(requests)) && (old(requests) != [] ==> old(requests)[|old(requests)| - 1] <= now) ==>
        && Ascending(requests)
        && (ok <==> |InWindow(old(requests), now, windowSize)| < maxRequest)
    {
      PurgeExpired(now);
      if Ascending(old(requests)) && (old(requests) != [] ==> old(requests)[|old(requests)| - 1] <= now) {
        PurgeRecentAscending(old(requests), now, windowSize);
        if |requests| < maxRequest {
          AscendingAppend(requests, now);
        }
      }
      if |requests| < maxRequest {
        requests := requests + [now];
        return true;
      }
      return false;
    }

    /** AllowRequest at time `now`; the ghost history records each admission. */
    method AllowRequest(now: int) returns (ok: bool)
      modifies this`requests, this`Admitted, this`Last
      // no quota: admitted, nothing recorded
      ensures maxRequest <= 0 ==> ok && requests == old(requests)
      // a quota: purge, then admit and record `now` while under the quota
      ensures maxRequest > 0 ==>
        && (ok <==> |Purge(old(requests), now, windowSize)| < maxRequest)
        && requests == Purge(old(requests), now, windowSize) + (if ok then [now] else [])
      ensures ok && maxRequest > 0 ==> |requests| <= maxRequest
      // on a monotonic clock the recorded times stay ascending and the purge keeps exactly the last window
      ensures Ascending(old(requests)) && (old(requests) != [] ==> old(requests)[|old(requests)| - 1] <= now) ==>
        && Ascending(requests)
        && (maxRequest > 0 ==> (ok <==> |InWindow(old(requests), now, windowSize)| < maxRequest))
      // the history: exactly the admissions are recorded in it
      ensures Admitted == old(Admitted) + (if ok && maxRequest > 0 then [now] else [])
      // on a monotonic clock the list is the history's last window, and an admission is decided on the history
      ensures old(Valid()) && old(Last) <= now ==>
        && Valid() && Last == now
        && (maxRequest > 0 ==> requests == InWindow(Admitted, now, windowSize))
        && (maxRequest > 0 ==> (ok <==> |InWindow(old(Admitted), now, windowSize)| < maxRequest))
      // the bound is kept, so while the quota is unchanged the history's last window never exceeds it
      ensures old(Bounded()) ==> Bounded()
      ensures old(Valid()) && old(Last) <= now && old(Bounded()) && maxRequest > 0 ==>
        |InWindow(Admitted, now, windowSize)| <= maxRequest
    {
      if maxRequest <= 0 {
        if Valid() && Last <= now {
          TailLater(Admitted, requests, Last, now, windowSize);
          Last := now;
        }
        return true;
      }
      ok := PurgeAndAdmit(now);
      RecordAdmission(now, ok);
      AdvanceClock(now, ok, old(Admitted), old(requests));
    }

    /** The ghost bookkeeping of AllowRequest: record an admission in the history. */
    ghost method RecordAdmission(now: int, ok: bool)
      modifies this`Admitted
      ensures Admitted == old(Admitted) + (if ok then [now] else [])
    {
      if ok {
        Admitted := Admitted + [now];
      } else {
        assert Admitted + [] == Admitted;
      }
    }

    /**
     * The ghost bookkeeping of AllowRequest under a quota on a monotonic clock:
     * advance the clock; the list is then the window of the history.
     */
    ghost method AdvanceClock(now: int, ok: bool, adm: seq<int>, reqs: seq<int>)
      requires maxRequest > 0
      requires ok <==> |Purge(reqs, now, windowSize)| < maxRequest
      requires requests == Purge(reqs, now, windowSize) + (if ok then [now] else [])
      requires Admitted == adm + (if ok then [now] else [])
      modifies this`Last
      ensures windowSize >= 0 && TailOf(adm, reqs, old(Last), windowSize) && old(Last) <= now ==>
        && Valid() && Last == now
        && requests == InWindow(Admitted, now, windowSize)
        && (ok <==> |InWindow(adm, now, windowSize)| < maxRequest)
    {
      if windowSize >= 0 && TailOf(adm, reqs, Last, windowSize) && Last <= now {
        AllowStep(adm, reqs, Last, now, windowSize, maxRequest, ok, Admitted, requests);
        Last := now;
      }
    }
  }

  /** One call under a quota on a monotonic clock, on the history: the new list is the window of the new history. */
  lemma AllowStep(adm: seq<int>, reqs: seq<int>, last: int, now: int, window: int, quota: int, ok: bool,
                  adm': seq<int>, reqs': seq<int>)
    requires window >= 0 && TailOf(adm, reqs, last, window) && last <= now
    requires ok <==> |Purge(reqs, now, window)| < quota
    requires adm' == adm + (if ok then [now] else [])
    requires reqs' == Purge(reqs, now, window) + (if ok then [now] else [])
    ensures TailOf(adm', reqs', now, window)
    ensures reqs' == InWindow(adm', now, window)
    ensures ok <==> |InWindow(adm, now, window)| < quota
  {
    PurgeStep(adm, reqs, last, now, window);
    var p := Purge(reqs, now, window);
    if ok {
      AdmitStep(adm, p, now, window);
    } else {
      assert adm' == adm && reqs' == p;
    }
  }

  /** On a monotonic clock the purge of an ascending list is its window, still ascending and not later than `now`. */
  lemma PurgeRecentAscending(s: seq<int>, now: int, window: int)
    requires Ascending(s) && (s != [] ==> s[|s| - 1] <= now)
    ensures Purge(s, now, window) == InWindow(s, now, window)
    ensures var p := Purge(s, now, window); Ascending(p) && (p != [] ==> p[|p| - 1] <= now)
  {
    PurgeIsWindow(s, now, window);
    PurgeSpec(s, now, window);
    AscendingSuffix(s, |s| - |Purge(s, now, window)|);
  }

  /**
   * Lowering the quota does not trim the list: two admissions under quota 2,
   * then quota 1, and a refused request leaves both recorded.
   */
  method LoweredQuotaKeepsList() returns (ok: bool, recorded: int)
    ensures !ok && recorded == 2
  {
    var l := new RateLimiter();
    var changed := l.ResetRateLimiter(2);
    assert l.maxRequest == 2 && l.windowSize == Second && l.requests == [];
    var a, b := AdmitTwo(l);
    changed := l.ResetRateLimiter(1);
    assert l.maxRequest == 1 && l.requests == [0, 1];
    assert Purge([0, 1], 2, Second) == [0, 1];
    ok := l.AllowRequest(2);
    assert !ok && l.requests == [0, 1];
    recorded := |l.requests|;
  }

  /** From an empty list under a quota of at least 2, requests at 0 and 1 nanoseconds both pass and are recorded. */
  method AdmitTwo(l: RateLimiter) returns (a: bool, b: bool)
    requires l.maxRequest >= 2 && l.windowSize == Second && l.requests == []
    modifies l`requests, l`Admitted, l`Last
    ensures a && b && l.requests == [0, 1]
  {
    a := l.AllowRequest(0);
    assert a && l.requests == [0];
    assert Purge([0], 1, Second) == [0];
    b := l.AllowRequest(1);
    assert b && l.requests == [0] + [1];
    assert [0] + [1] == [0, 1];
  }

  /** From an empty list under quota 3, requests at 0, 1 and 2 nanoseconds all pass and are recorded. */
  method AdmitThree(l: RateLimiter) returns (a: bool, b: bool, c: bool)
    requires l.maxRequest == 3 && l.windowSize == Second && l.requests == []
    modifies l`requests, l`Admitted, l`Last
    ensures a && b && c && l.requests == [0, 1, 2]
  {
    a, b := AdmitTwo(l);
    assert Purge([0, 1], 2, Second) == [0, 1];
    c := l.AllowRequest(2);
    assert c && l.requests == [0, 1] + [2];
    assert [0, 1] + [2] == [0, 1, 2];
  }

  /** Three requests in one second pass and the fourth is refused; once the first is over a second old, another passes. */
  method QuotaScenario() returns (a: bool, b: bool, c: bool, d: bool, e: bool)
    ensures a && b && c && !d && e
  {
    var l := new RateLimiter();
    var changed := l.ResetRateLimiter(3);
    assert changed && l.maxRequest == 3 && l.windowSize == Second && l.requests == [];
    a, b, c := AdmitThree(l);
    assert Purge([0, 1, 2], 3, Second) == [0, 1, 2];
    d := l.AllowRequest(3);
    assert !d && l.requests == [0, 1, 2];
    assert Purge([0, 1, 2], Second + 1, Second) == [1, 2];
    e := l.AllowRequest(Second + 1);
    assert e;
  }
}
