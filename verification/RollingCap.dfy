/** At most `limit` acquisitions in any rolling window (src/aitp_playground/limits.py). */
module RollingCaps {

  datatype Cap = Cap(limit: int, window: real)

  /** The stamps left once those at least `window` old are popped from the front. */
  function DropOld(c: Cap, stamps: seq<real>, now: real): seq<real> {
    if stamps != [] && now - stamps[0] >= c.window then DropOld(c, stamps[1..], now) else stamps
  }

  /** One `try_acquire`. */
  function Acquire(c: Cap, stamps: seq<real>, now: real): (seq<real>, bool) {
    var kept := DropOld(c, stamps, now);
    if |kept| >= c.limit then (kept, false) else (kept + [now], true)
  }

  // ---- runs ----

  function After(c: Cap, times: seq<real>, k: nat): seq<real>
    requires k <= |times|
  {
    if k == 0 then [] else Acquire(c, After(c, times, k - 1), times[k - 1]).0
  }

  predicate Acquired(c: Cap, times: seq<real>, k: nat)
    requires k < |times|
  {
    Acquire(c, After(c, times, k), times[k]).1
  }

  /** How many of the calls `lo..hi` succeeded. */
  function Successes(c: Cap, times: seq<real>, lo: nat, hi: nat): nat
    requires lo <= hi <= |times|
  {
    if lo == hi then 0 else Successes(c, times, lo, hi - 1) + if Acquired(c, times, hi - 1) then 1 else 0
  }

  /** How many of the first `k` calls succeeded less than `window` before `now`. */
  function Recent(c: Cap, times: seq<real>, k: nat, now: real): nat
    requires k <= |times|
  {
    if k == 0 then 0
    else Recent(c, times, k - 1, now)
         + if Acquired(c, times, k - 1) && now - times[k - 1] < c.window then 1 else 0
  }

  ghost predicate Sorted(s: seq<real>) {
    forall i, j :: 0 <= i <= j < |s| ==> s[i] <= s[j]
  }

  // ---- the deque holds exactly the recent part of the full history ----

  /** The number of stamps in `s` less than `window` before `now`. */
  function InWindow(c: Cap, s: seq<real>, now: real): nat {
    if s == [] then 0
    else InWindow(c, s[..|s| - 1], now) + if now - s[|s| - 1] < c.window then 1 else 0
  }

  lemma {:induction false} NoneInWindow(c: Cap, s: seq<real>, now: real)
    requires forall i :: 0 <= i < |s| ==> now - s[i] >= c.window
    ensures InWindow(c, s, now) == 0
  {
    if s != [] {
      NoneInWindow(c, s[..|s| - 1], now);
    }
  }

  lemma {:induction false} AllInWindow(c: Cap, s: seq<real>, now: real)
    requires forall i :: 0 <= i < |s| ==> now - s[i] < c.window
    ensures InWindow(c, s, now) == |s|
  {
    if s != [] {
      AllInWindow(c, s[..|s| - 1], now);
    }
  }

  lemma {:induction false} InWindowConcat(c: Cap, s: seq<real>, t: seq<real>, now: real)
    ensures InWindow(c, s + t, now) == InWindow(c, s, now) + InWindow(c, t, now)
  {
    if t == [] {
      assert s + t == s;
    } else {
      assert (s + t)[..|s + t| - 1] == s + t[..|t| - 1];
      InWindowConcat(c, s, t[..|t| - 1], now);
    }
  }

  /** Popping the front of a sorted deque removes exactly the stamps outside the window. */
  lemma {:induction false} DropOldSplits(c: Cap, s: seq<real>, now: real) returns (n: nat)
    requires Sorted(s)
    ensures n <= |s| && DropOld(c, s, now) == s[n..]
    ensures forall i :: 0 <= i < n ==> now - s[i] >= c.window
    ensures forall i :: n <= i < |s| ==> now - s[i] < c.window
    decreases |s|
  {
    if s != [] && now - s[0] >= c.window {
      var rest := DropOldSplits(c, s[1..], now);
      n := rest + 1;
      forall i | 0 <= i < n
        ensures now - s[i] >= c.window
      {
        if i > 0 {
          assert s[i] == s[1..][i - 1];
        }
      }
      forall i | n <= i < |s|
        ensures now - s[i] < c.window
      {
        assert s[i] == s[1..][i - 1];
      }
    } else {
      n := 0;
    }
  }

  /** The success times among the first `k` calls, oldest first. */
  function History(c: Cap, times: seq<real>, k: nat): seq<real>
    requires k <= |times|
  {
    if k == 0 then []
    else if Acquired(c, times, k - 1) then History(c, times, k - 1) + [times[k - 1]]
    else History(c, times, k - 1)
  }

  lemma {:induction false} RecentIsHistoryInWindow(c: Cap, times: seq<real>, k: nat, now: real)
    requires k <= |times|
    ensures Recent(c, times, k, now) == InWindow(c, History(c, times, k), now)
  {
    if k > 0 {
      RecentIsHistoryInWindow(c, times, k - 1, now);
      if Acquired(c, times, k - 1) {
        assert (History(c, times, k - 1) + [times[k - 1]])[..|History(c, times, k - 1)|] == History(c, times, k - 1);
      }
    }
  }

  /** `n` stamps at the front of the history `h` are out of the window at `now`. */
  ghost predicate Gone(c: Cap, h: seq<real>, n: nat, now: real) {
    && n <= |h|
    && forall i :: 0 <= i < n ==> now - h[i] >= c.window
  }

  lemma PopsGone(c: Cap, h: seq<real>, n: nat, now: real) returns (m: nat)
    requires Sorted(h) && Gone(c, h, n, now)
    ensures Gone(c, h, m, now) && DropOld(c, h[n..], now) == h[m..]
    ensures forall i :: m <= i < |h| ==> now - h[i] < c.window
  {
    var d := DropOldSplits(c, h[n..], now);
    m := n + d;
    assert h[n..][d..] == h[m..];
    forall i | 0 <= i < m
      ensures now - h[i] >= c.window
    {
      if i >= n {
        assert h[i] == h[n..][i - n];
      }
    }
    forall i | m <= i < |h|
      ensures now - h[i] < c.window
    {
      assert h[i] == h[n..][i - n];
    }
  }

  ghost predicate NoneAfter(h: seq<real>, now: real) {
    forall i :: 0 <= i < |h| ==> h[i] <= now
  }

  /** The history after one more acquire at `last`. */
  function Extended(h: seq<real>, last: real, ok: bool): seq<real> {
    if ok then h + [last] else h
  }

  lemma AcquireKeepsSuffix(c: Cap, h: seq<real>, n: nat, last: real) returns (m: nat)
    requires Sorted(h) && NoneAfter(h, last) && Gone(c, h, n, last)
    ensures var (stamps, ok) := Acquire(c, h[n..], last);
            var h' := Extended(h, last, ok);
            Sorted(h') && NoneAfter(h', last) && Gone(c, h', m, last) && stamps == h'[m..]
  {
    hide DropOld;
    m := PopsGone(c, h, n, last);
    var g := h + [last];
    assert g[m..] == h[m..] + [last];
    assert Gone(c, g, m, last) by {
      assert forall i :: 0 <= i < m ==> g[i] == h[i];
    }
    assert Sorted(g) && NoneAfter(g, last);
    hide Gone, Sorted, NoneAfter;
  }

  lemma WaitKeepsGone(c: Cap, h: seq<real>, n: nat, last: real, now: real)
    requires Gone(c, h, n, last) && NoneAfter(h, last) && last <= now
    ensures Gone(c, h, n, now) && NoneAfter(h, now)
  {
  }

  /** The deque is the history without a prefix that has left the window for good. */
  lemma {:induction false} DequeIsSuffix(c: Cap, times: seq<real>, k: nat, now: real) returns (n: nat)
    requires Sorted(times) && k <= |times| && (k > 0 ==> times[k - 1] <= now)
    ensures Gone(c, History(c, times, k), n, now) && After(c, times, k) == History(c, times, k)[n..]
    ensures Sorted(History(c, times, k)) && NoneAfter(History(c, times, k), now)
    decreases k
  {
    if k == 0 {
      return 0;
    }
    var h, last := History(c, times, k - 1), times[k - 1];
    assert k > 1 ==> times[k - 2] <= last;
    n := DequeIsSuffix(c, times, k - 1, last);
    n := AcquireKeepsSuffix(c, h, n, last);
    assert History(c, times, k) == Extended(h, last, Acquired(c, times, k - 1));
    WaitKeepsGone(c, History(c, times, k), n, last, now);
    hide *;
  }

  /** Main result: `try_acquire` succeeds exactly when fewer than `limit` of all earlier
      successes of the whole run lie less than `window` ago. */
  lemma AcquiredIffRoom(c: Cap, times: seq<real>, k: nat)
    requires Sorted(times) && k < |times|
    ensures Acquired(c, times, k) <==> Recent(c, times, k, times[k]) < c.limit
  {
    var h, now := History(c, times, k), times[k];
    var n := DequeIsSuffix(c, times, k, now);
    n := PopsGone(c, h, n, now);
    var gone, kept := h[..n], h[n..];
    assert h == gone + kept;
    NoneInWindow(c, gone, now);
    AllInWindow(c, kept, now);
    InWindowConcat(c, gone, kept, now);
    RecentIsHistoryInWindow(c, times, k, now);
  }

  lemma {:induction false} RecentCountsWindow(c: Cap, times: seq<real>, lo: nat, hi: nat, now: real)
    requires lo <= hi <= |times|
    requires forall i :: lo <= i < hi ==> now - times[i] < c.window
    ensures Successes(c, times, lo, hi) <= Recent(c, times, hi, now)
    decreases hi
  {
    if lo < hi {
      RecentCountsWindow(c, times, lo, hi - 1, now);
    }
  }

  /** No rolling window ever holds more than `limit` successes. */
  lemma {:induction false} WindowNeverOverfull(c: Cap, times: seq<real>, lo: nat, hi: nat)
    requires Sorted(times) && lo < hi <= |times| && times[hi - 1] - times[lo] < c.window
    ensures Successes(c, times, lo, hi) <= if c.limit < 0 then 0 else c.limit
    decreases hi
  {
    AcquiredIffRoom(c, times, hi - 1);
    RecentCountsWindow(c, times, lo, hi - 1, times[hi - 1]);
    if lo < hi - 1 && !Acquired(c, times, hi - 1) {
      WindowNeverOverfull(c, times, lo, hi - 1);
    }
  }

  /** A run's verdicts depend only on the calls made so far. */
  lemma {:induction false} AfterOfPrefix(c: Cap, times: seq<real>, more: seq<real>, k: nat)
    requires k <= |times|
    ensures After(c, times + more, k) == After(c, times, k)
  {
    if k > 0 {
      AfterOfPrefix(c, times, more, k - 1);
    }
  }

  lemma AppendCall(c: Cap, times: seq<real>, t: real)
    ensures After(c, times + [t], |times| + 1) == Acquire(c, After(c, times, |times|), t).0
    ensures Acquired(c, times + [t], |times|) == Acquire(c, After(c, times, |times|), t).1
  {
    AfterOfPrefix(c, times, [t], |times|);
  }

  lemma {:induction false} CountsOfPrefix(c: Cap, times: seq<real>, more: seq<real>, lo: nat, hi: nat, now: real)
    requires lo <= hi <= |times|
    ensures Successes(c, times + more, lo, hi) == Successes(c, times, lo, hi)
    ensures Recent(c, times + more, hi, now) == Recent(c, times, hi, now)
    decreases hi
  {
    if hi > 0 {
      AfterOfPrefix(c, times, more, hi - 1);
      CountsOfPrefix(c, times, more, if lo < hi then lo else lo - 1, hi - 1, now);
    }
  }

  // ---- the limiter object ----

  class RollingCap {
    const cap: Cap
    var stamps: seq<real>

    constructor (limit: int, window: real)
      ensures cap == Cap(limit, window) && stamps == []
    {
      cap := Cap(limit, window);
      stamps := [];
    }

    method TryAcquire(now: real) returns (ok: bool)
      modifies this
      ensures (stamps, ok) == Acquire(cap, old(stamps), now)
    {
      while stamps != [] && now - stamps[0] >= cap.window
        invariant DropOld(cap, stamps, now) == DropOld(cap, old(stamps), now)
        decreases |stamps|
      {
        stamps := stamps[1..];
      }
      if |stamps| >= cap.limit {
        return false;
      }
      stamps := stamps + [now];
      ok := true;
    }
  }
}
