/** The local fixed-window rate limiter. */
module RateLimit {
  import opened Common

  datatype Window = Window(startedAt: int, count: nat)

  datatype Limits = Limits(limit: int, windowMs: int) {
    /** Requests one window lets through: its first request is never refused. */
    function PerWindow(): nat { Max(1, limit) }
  }

  /** One request against the window of its key: the window afterwards, and whether it is let through. */
  function Hit(l: Limits, w: Option<Window>, now: int): (Window, bool) {
    if w.None? || now - w.value.startedAt >= l.windowMs then (Window(now, 1), true)
    else (w.value.(count := w.value.count + 1), w.value.count + 1 <= l.limit)
  }

  function At(windows: map<string, Window>, key: string): Option<Window> {
    if key in windows then Some(windows[key]) else None
  }

  datatype Request = Request(key: string, now: int)

  /** When requests with this key were let through in a run. */
  function Admitted(l: Limits, windows: map<string, Window>, run: seq<Request>, key: string): seq<int>
    decreases |run|
  {
    if run == [] then []
    else
      var (w, ok) := Hit(l, At(windows, run[0].key), run[0].now);
      (if ok && run[0].key == key then [run[0].now] else [])
      + Admitted(l, windows[run[0].key := w], run[1..], key)
  }

  /** The clock does not run backwards. */
  predicate Monotone(run: seq<Request>) {
    forall i, j | 0 <= i < j < |run| :: run[i].now <= run[j].now
  }

  // ------------------------------------------------------------ spacing

  predicate Sorted(a: seq<int>) { forall i, j | 0 <= i < j < |a| :: a[i] <= a[j] }

  /** Any 2L requests let through, L being the window's size, span at least a whole window. */
  predicate Spaced(l: Limits, a: seq<int>) {
    forall i: nat, j: nat | j < |a| && i + 2 * l.PerWindow() - 1 <= j :: a[i] + l.windowMs <= a[j]
  }

  /** How the requests let through so far relate to the current window. */
  predicate Tracks(l: Limits, w: Option<Window>, a: seq<int>) {
    if w.None? then a == []
    else
      var m := Min(w.value.count, l.PerWindow());
      && 1 <= m <= |a|
      && a[|a| - m] == w.value.startedAt
      && forall i | 0 <= i <= |a| - m - l.PerWindow() :: a[i] + l.windowMs <= w.value.startedAt
  }

  ghost predicate Inv(l: Limits, w: Option<Window>, a: seq<int>, clock: int) {
    Sorted(a) && Spaced(l, a) && Tracks(l, w, a) && (a != [] ==> a[|a| - 1] <= clock)
  }

  lemma OpensWindow(l: Limits, w: Option<Window>, a: seq<int>, clock: int, now: int)
    requires Inv(l, w, a, clock) && clock <= now
    requires w.Some? ==> w.value.startedAt + l.windowMs <= now
    ensures Inv(l, Some(Window(now, 1)), a + [now], now)
  {
    var n, a' := l.PerWindow(), a + [now];
    if w.Some? {
      var m := Min(w.value.count, n);
      assert forall i | 0 <= i <= |a| - m :: a[i] <= w.value.startedAt;
      assert forall i | 0 <= i <= |a| - n :: a'[i] + l.windowMs <= now;
    }
    assert Sorted(a');
  }

  lemma FillsWindow(l: Limits, w: Window, a: seq<int>, clock: int, now: int)
    requires Inv(l, Some(w), a, clock) && clock <= now
    requires w.count + 1 <= l.limit
    ensures Inv(l, Some(w.(count := w.count + 1)), a + [now], now)
  {
    var n, a' := l.PerWindow(), a + [now];
    assert forall i | 0 <= i <= |a| - w.count - n :: a'[i] + l.windowMs <= w.startedAt <= now;
    assert Sorted(a');
    assert Spaced(l, a');
  }

  lemma RefusedKeeps(l: Limits, w: Window, a: seq<int>, clock: int, now: int)
    requires Inv(l, Some(w), a, clock) && clock <= now
    requires w.count + 1 > l.limit
    ensures Inv(l, Some(w.(count := w.count + 1)), a, now)
  {
  }

  lemma HitKeeps(l: Limits, w: Option<Window>, a: seq<int>, clock: int, now: int)
    requires Inv(l, w, a, clock) && clock <= now
    ensures var (w', ok) := Hit(l, w, now); Inv(l, Some(w'), if ok then a + [now] else a, now)
  {
    hide Inv;
    if w.None? || now - w.value.startedAt >= l.windowMs {
      OpensWindow(l, w, a, clock, now);
    } else if w.value.count + 1 <= l.limit {
      FillsWindow(l, w.value, a, clock, now);
    } else {
      RefusedKeeps(l, w.value, a, clock, now);
    }
  }

  lemma LaterRequest(run: seq<Request>)
    requires Monotone(run) && run != []
    ensures Monotone(run[1..])
    ensures run[1..] != [] ==> run[0].now <= run[1..][0].now
  {
  }

  lemma LaterClock(l: Limits, w: Option<Window>, a: seq<int>, clock: int, now: int)
    requires Inv(l, w, a, clock) && clock <= now
    ensures Inv(l, w, a, now)
  {
    hide Spaced, Sorted, Tracks;
  }

  lemma {:induction false} RunKeeps(l: Limits, windows: map<string, Window>, run: seq<Request>, key: string,
                                    a: seq<int>, clock: int)
    requires Inv(l, At(windows, key), a, clock)
    requires Monotone(run) && (run != [] ==> clock <= run[0].now)
    ensures Sorted(a + Admitted(l, windows, run, key)) && Spaced(l, a + Admitted(l, windows, run, key))
    decreases |run|
  {
    hide Hit, Spaced, Sorted, Tracks, Monotone;
    if run == [] {
      assert a + [] == a;
    } else {
      hide Inv;
      var now := run[0].now;
      var (w, ok) := Hit(l, At(windows, run[0].key), now);
      var windows' := windows[run[0].key := w];
      LaterRequest(run);
      var later := Admitted(l, windows', run[1..], key);
      if run[0].key == key {
        HitKeeps(l, At(windows, key), a, clock, now);
        var a' := if ok then a + [now] else a;
        RunKeeps(l, windows', run[1..], key, a', now);
        Regroup(a, now, later);
      } else {
        LaterClock(l, At(windows, key), a, clock, now);
        RunKeeps(l, windows', run[1..], key, a, now);
        assert [] + later == later;
      }
    }
  }

  lemma Regroup(a: seq<int>, x: int, b: seq<int>)
    ensures (a + [x]) + b == a + ([x] + b) && [] + b == b
  {
  }

  // ------------------------------------------------------------ the bound

  /** How many of the times lie in [from, to). */
  function CountIn(a: seq<int>, from: int, to: int): nat {
    if a == [] then 0 else CountIn(a[..|a| - 1], from, to) + if from <= a[|a| - 1] < to then 1 else 0
  }

  lemma {:induction false} CountAfter(a: seq<int>, k: nat, from: int, to: int)
    requires k <= |a| && forall i | 0 <= i < k :: a[i] < from
    ensures CountIn(a, from, to) <= |a| - k
  {
    if a != [] {
      CountAfter(a[..|a| - 1], Min(k, |a| - 1), from, to);
    }
  }

  lemma {:induction false} SpacedCount(l: Limits, a: seq<int>, from: int)
    requires Sorted(a) && Spaced(l, a)
    ensures CountIn(a, from, from + l.windowMs) <= 2 * l.PerWindow() - 1
  {
    if a != [] {
      var last := |a| - 1;
      if from <= a[last] < from + l.windowMs {
        CountAfter(a, Max(0, last - 2 * l.PerWindow() + 2), from, from + l.windowMs);
      } else {
        assert Spaced(l, a[..last]);
        SpacedCount(l, a[..last], from);
      }
    }
  }

  /** Whatever else is requested, any interval of one window's length lets through at most 2L - 1
      requests of a key, L being max(1, limit). */
  lemma WindowBound(l: Limits, run: seq<Request>, key: string, from: int)
    requires Monotone(run)
    ensures CountIn(Admitted(l, map[], run, key), from, from + l.windowMs) <= 2 * l.PerWindow() - 1
  {
    var clock := if run == [] then 0 else run[0].now;
    RunKeeps(l, map[], run, key, [], clock);
    var a := Admitted(l, map[], run, key);
    assert [] + a == a;
    SpacedCount(l, a, from);
  }

  // ------------------------------------------------------------ the bound is reached

  /** `n` requests at the same time. */
  function Burst(key: string, now: int, n: nat): (run: seq<Request>)
    ensures |run| == n && forall r | r in run :: r == Request(key, now)
  {
    if n == 0 then [] else [Request(key, now)] + Burst(key, now, n - 1)
  }

  function Times(now: int, n: nat): (a: seq<int>)
    ensures |a| == n && forall i | 0 <= i < n :: a[i] == now
  {
    if n == 0 then [] else [now] + Times(now, n - 1)
  }

  lemma FirstAdmitted(l: Limits, windows: map<string, Window>, r: Request, rest: seq<Request>)
    requires Hit(l, At(windows, r.key), r.now).1
    ensures Admitted(l, windows, [r] + rest, r.key)
            == [r.now] + Admitted(l, windows[r.key := Hit(l, At(windows, r.key), r.now).0], rest, r.key)
  {
    hide Hit, At;
    var run := [r] + rest;
    assert run[0] == r && run[1..] == rest;
  }

  /** A burst that fits into the current window is let through whole. */
  lemma {:induction false} BurstAdmitted(l: Limits, w: Window, key: string, now: int, n: nat, more: seq<Request>,
                                         windows: map<string, Window>)
    requires At(windows, key) == Some(w) && w.startedAt <= now < w.startedAt + l.windowMs && w.count + n <= l.limit
    ensures Admitted(l, windows, Burst(key, now, n) + more, key)
            == Times(now, n) + Admitted(l, windows[key := w.(count := w.count + n)], more, key)
    decreases n
  {
    hide Admitted;
    if n == 0 {
      assert Burst(key, now, 0) + more == more && windows[key := w] == windows;
      assert Times(now, 0) + Admitted(l, windows, more, key) == Admitted(l, windows, more, key);
    } else {
      var r, rest := Request(key, now), Burst(key, now, n - 1) + more;
      assert Burst(key, now, n) + more == [r] + rest;
      var w' := w.(count := w.count + 1);
      FirstAdmitted(l, windows, r, rest);
      BurstAdmitted(l, w', key, now, n - 1, more, windows[key := w']);
      var end := w.(count := w.count + n);
      assert windows[key := w'][key := end] == windows[key := end];
      var later := Admitted(l, windows[key := end], more, key);
      assert [now] + (Times(now, n - 1) + later) == Times(now, n) + later;
    }
  }

  lemma {:induction false} CountAll(a: seq<int>, from: int, to: int)
    requires forall i | 0 <= i < |a| :: from <= a[i] < to
    ensures CountIn(a, from, to) == |a|
  {
    if a != [] {
      CountAll(a[..|a| - 1], from, to);
    }
  }

  lemma {:induction false} CountConcat(a: seq<int>, b: seq<int>, from: int, to: int)
    ensures CountIn(a + b, from, to) == CountIn(a, from, to) + CountIn(b, from, to)
  {
    if b == [] {
      assert a + b == a;
    } else {
      assert (a + b)[..|a + b| - 1] == a + b[..|b| - 1];
      CountConcat(a, b[..|b| - 1], from, to);
    }
  }

  /** One request, the rest of its window's allowance at the window's end, and a full allowance as the
      next window opens. */
  function EdgeRun(l: Limits, key: string): seq<Request>
    requires l.limit >= 1
  {
    [Request(key, 0)] + Burst(key, l.windowMs - 1, l.limit - 1)
    + ([Request(key, l.windowMs)] + Burst(key, l.windowMs, l.limit - 1))
  }

  lemma EdgeRunMonotone(l: Limits, key: string)
    requires l.limit >= 1 && l.windowMs >= 1
    ensures Monotone(EdgeRun(l, key))
  {
    hide Burst;
    var n, run, end := l.limit - 1, EdgeRun(l, key), l.windowMs;
    var early, late := Burst(key, end - 1, n), Burst(key, end, n);
    forall i | 0 <= i < |run|
      ensures run[i].now == if i == 0 then 0 else if i <= n then end - 1 else end
    {
      if 1 <= i <= n {
        assert run[i] == early[i - 1] && early[i - 1] in early;
      } else if i > n + 1 {
        assert run[i] == late[i - n - 2] && late[i - n - 2] in late;
      }
    }
  }

  /** The first request of a window, and the rest of its allowance. */
  lemma WindowAdmitted(l: Limits, windows: map<string, Window>, key: string, start: int, now: int, more: seq<Request>)
    requires l.limit >= 1 && start <= now < start + l.windowMs
    requires At(windows, key).Some? ==> start - windows[key].startedAt >= l.windowMs
    ensures Admitted(l, windows, [Request(key, start)] + Burst(key, now, l.limit - 1) + more, key)
            == [start] + (Times(now, l.limit - 1) + Admitted(l, windows[key := Window(start, l.limit)], more, key))
  {
    hide Burst, Times;
    hide Admitted;
    var n, w, r := l.limit - 1, Window(start, 1), Request(key, start);
    var windows' := windows[key := w];
    FirstAdmitted(l, windows, r, Burst(key, now, n) + more);
    assert [r] + Burst(key, now, n) + more == [r] + (Burst(key, now, n) + more);
    BurstAdmitted(l, w, key, now, n, more, windows');
    assert windows'[key := w.(count := 1 + n)] == windows[key := Window(start, l.limit)];
  }

  lemma EdgeRunAdmitted(l: Limits, key: string)
    requires l.limit >= 1 && l.windowMs >= 1
    ensures Admitted(l, map[], EdgeRun(l, key), key)
            == [0] + (Times(l.windowMs - 1, l.limit - 1) + ([l.windowMs] + Times(l.windowMs, l.limit - 1)))
  {
    hide Burst, Times, Admitted;
    var n, end := l.limit - 1, l.windowMs;
    var second := [Request(key, end)] + Burst(key, end, n);
    WindowAdmitted(l, map[], key, 0, end - 1, second);
    var windows := (map[])[key := Window(0, l.limit)];
    assert second + [] == second;
    WindowAdmitted(l, windows, key, end, end, []);
    NothingAdmitted(l, windows[key := Window(end, l.limit)], key);
    assert Times(end, n) + [] == Times(end, n);
  }

  lemma NothingAdmitted(l: Limits, windows: map<string, Window>, key: string)
    ensures Admitted(l, windows, [], key) == []
  {
  }

  /** The bound cannot be improved. */
  lemma WindowBoundIsReached(l: Limits, key: string)
    requires l.limit >= 1 && l.windowMs >= 2
    ensures Monotone(EdgeRun(l, key))
    ensures CountIn(Admitted(l, map[], EdgeRun(l, key), key), l.windowMs - 1, 2 * l.windowMs - 1) == 2 * l.limit - 1
  {
    hide Admitted, EdgeRun, Monotone;
    var n, end := l.limit - 1, l.windowMs;
    EdgeRunMonotone(l, key);
    EdgeRunAdmitted(l, key);
    var rest := Times(end - 1, n) + ([end] + Times(end, n));
    CountConcat([0], rest, end - 1, 2 * end - 1);
    CountAll(rest, end - 1, 2 * end - 1);
    assert [0][..0] == [];
  }

  // ------------------------------------------------------------ when L is the bound

  /** More than L requests in a row were not let through at one time. */
  predicate Strict(l: Limits, a: seq<int>) {
    forall i: nat, j: nat | j < |a| && i + l.PerWindow() <= j :: a[i] < a[j]
  }

  /** Earlier windows ended before this one began. */
  predicate Apart(l: Limits, w: Option<Window>, a: seq<int>) {
    w.Some? ==>
      && (forall i | 0 <= i < |a| :: a[i] < w.value.startedAt + l.windowMs)
      && (forall i | 0 <= i < |a| - Min(w.value.count, l.PerWindow()) :: a[i] < w.value.startedAt)
  }

  lemma OpensStrict(l: Limits, w: Option<Window>, a: seq<int>, now: int)
    requires l.windowMs >= 1 && Tracks(l, w, a) && Strict(l, a) && Apart(l, w, a)
    requires w.Some? ==> w.value.startedAt + l.windowMs <= now
    ensures Strict(l, a + [now]) && Apart(l, Some(Window(now, 1)), a + [now])
  {
    assert forall i | 0 <= i < |a| :: a[i] < now;
  }

  lemma FillsStrict(l: Limits, w: Window, a: seq<int>, now: int)
    requires l.windowMs >= 1 && Tracks(l, Some(w), a) && Strict(l, a) && Apart(l, Some(w), a)
    requires w.startedAt <= now < w.startedAt + l.windowMs && w.count + 1 <= l.limit
    ensures Strict(l, a + [now]) && Apart(l, Some(w.(count := w.count + 1)), a + [now])
  {
    assert l.PerWindow() == l.limit && Min(w.count, l.PerWindow()) == w.count;
    assert forall i | 0 <= i <= |a| - l.limit :: a[i] < now;
  }

  lemma HitKeepsStrict(l: Limits, w: Option<Window>, a: seq<int>, clock: int, now: int)
    requires l.windowMs >= 1 && Inv(l, w, a, clock) && clock <= now && Strict(l, a) && Apart(l, w, a)
    ensures var (w', ok) := Hit(l, w, now); var a' := if ok then a + [now] else a;
            Strict(l, a') && Apart(l, Some(w'), a')
  {
    hide Strict;
    if w.None? || now - w.value.startedAt >= l.windowMs {
      OpensStrict(l, w, a, now);
    } else if w.value.count + 1 <= l.limit {
      FillsStrict(l, w.value, a, now);
    }
  }

  lemma {:induction false} RunKeepsStrict(l: Limits, windows: map<string, Window>, run: seq<Request>, key: string,
                                          a: seq<int>, clock: int)
    requires l.windowMs >= 1 && Inv(l, At(windows, key), a, clock)
    requires Strict(l, a) && Apart(l, At(windows, key), a)
    requires Monotone(run) && (run != [] ==> clock <= run[0].now)
    ensures Strict(l, a + Admitted(l, windows, run, key))
    decreases |run|
  {
    hide Hit, Strict, Apart, Monotone, Inv;
    if run == [] {
      assert a + [] == a;
    } else {
      var now := run[0].now;
      var (w, ok) := Hit(l, At(windows, run[0].key), now);
      var windows' := windows[run[0].key := w];
      LaterRequest(run);
      var later := Admitted(l, windows', run[1..], key);
      if run[0].key == key {
        HitKeeps(l, At(windows, key), a, clock, now);
        HitKeepsStrict(l, At(windows, key), a, clock, now);
        RunKeepsStrict(l, windows', run[1..], key, if ok then a + [now] else a, now);
        Regroup(a, now, later);
      } else {
        LaterClock(l, At(windows, key), a, clock, now);
        RunKeepsStrict(l, windows', run[1..], key, a, now);
        assert [] + later == later;
      }
    }
  }

  lemma {:induction false} StrictCount(l: Limits, a: seq<int>, at: int)
    requires Sorted(a) && Strict(l, a)
    ensures CountIn(a, at, at + 1) <= l.PerWindow()
  {
    if a != [] {
      var last := |a| - 1;
      if a[last] == at {
        CountAfter(a, Max(0, last - l.PerWindow() + 1), at, at + 1);
      } else {
        StrictCount(l, a[..last], at);
      }
    }
  }

  lemma {:induction false} NothingInEmpty(a: seq<int>, from: int, to: int)
    requires to <= from
    ensures CountIn(a, from, to) == 0
  {
    if a != [] {
      NothingInEmpty(a[..|a| - 1], from, to);
    }
  }

  /** At most L requests of the key in the interval of one window's length that begins at `from`. */
  predicate WithinLimit(l: Limits, run: seq<Request>, key: string, from: int) {
    CountIn(Admitted(l, map[], run, key), from, from + l.windowMs) <= l.PerWindow()
  }

  ghost predicate KeepsLimit(l: Limits) { forall run, key, from | Monotone(run) :: WithinLimit(l, run, key, from) }

  lemma NothingTracked(l: Limits, key: string, clock: int)
    ensures Inv(l, At(map[], key), [], clock) && Strict(l, []) && Apart(l, At(map[], key), [])
  {
  }

  lemma ShortWindowBound(l: Limits, run: seq<Request>, key: string, from: int)
    requires l.windowMs <= 1 && Monotone(run)
    ensures WithinLimit(l, run, key, from)
  {
    hide Admitted, CountIn, Inv, Strict, Apart, Sorted, Spaced, At, Monotone;
    var a := Admitted(l, map[], run, key);
    if l.windowMs <= 0 {
      NothingInEmpty(a, from, from + l.windowMs);
    } else {
      var clock := if run == [] then 0 else run[0].now;
      NothingTracked(l, key, clock);
      RunKeeps(l, map[], run, key, [], clock);
      RunKeepsStrict(l, map[], run, key, [], clock);
      assert [] + a == a;
      StrictCount(l, a, from);
    }
  }

  /** The limit is a bound per window length exactly when it is one, or the window is no longer than the
      clock's tick. */
  lemma LimitIsKeptIff(l: Limits)
    ensures KeepsLimit(l) <==> l.PerWindow() == 1 || l.windowMs <= 1
  {
    hide Admitted, CountIn, Monotone;
    if l.PerWindow() == 1 || l.windowMs <= 1 {
      forall run, key, from | Monotone(run) ensures WithinLimit(l, run, key, from) {
        if l.windowMs <= 1 {
          ShortWindowBound(l, run, key, from);
        } else {
          WindowBound(l, run, key, from);
        }
      }
    } else {
      WindowBoundIsReached(l, "");
      assert !WithinLimit(l, EdgeRun(l, ""), "", l.windowMs - 1);
    }
  }

  // ------------------------------------------------------------ the guard

  class RateLimitGuard {
    const limits: Limits
    var windows: map<string, Window>

    constructor (limits: Limits)
      ensures this.limits == limits && windows == map[]
    {
      this.limits := limits;
      windows := map[];
    }

    /** `shared` is the counter Redis returned, absent when Redis is disabled or failed; the result is
        false when the request is refused with status 429. */
    method CanActivate(ip: string, path: string, shared: Option<nat>, now: int) returns (ok: bool)
      modifies this
      ensures shared.Some? ==> (ok <==> shared.value <= limits.limit) && windows == old(windows)
      ensures shared.None? ==>
                var key := ip + ":" + path;
                var (w, admitted) := Hit(limits, At(old(windows), key), now);
                windows == old(windows)[key := w] && ok == admitted
      ensures shared.None? ==>
                var key := ip + ":" + path;
                var counts := key in old(windows) && now < old(windows)[key].startedAt + limits.windowMs;
                && (forall k | k != key :: At(windows, k) == At(old(windows), k))
                && key in windows
                && (!counts ==> ok && windows[key] == Window(now, 1))
                && (counts ==> var w := old(windows)[key];
                               windows[key] == Window(w.startedAt, w.count + 1) && (ok <==> w.count < limits.limit))
    {
      var key := ip + ":" + path;
      if shared.Some? {
        return shared.value <= limits.limit;
      }
      var current := At(windows, key);
      if current.None? || now - current.value.startedAt >= limits.windowMs {
        windows := windows[key := Window(now, 1)];
        return true;
      }
      var counted := current.value.(count := current.value.count + 1);
      windows := windows[key := counted];
      if counted.count > limits.limit {
        return false;
      }
      return true;
    }
  }
}
