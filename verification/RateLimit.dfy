/** The Manager's request and login limiters against their full history (internal/manager/session.go).
    Time is an integer that never decreases and is never the zero instant. */
module RateLimit {
  import opened Prelude

  // ---------------------------------------------------------------- request limiter

  datatype Window = Window(started: int, count: int)

  predicate Stale(w: Window, now: int, length: int) { now - w.started >= length }

  /** Answer of `allow` for one key and the key's window afterwards; None is a key without a window. */
  function Decide(w: Option<Window>, now: int, limit: int, length: int): (bool, Option<Window>) {
    if w.None? || Stale(w.value, now, length) then (true, Some(Window(now, 1)))
    else if w.value.count >= limit then (false, w)
    else (true, Some(w.value.(count := w.value.count + 1)))
  }

  function Get(m: map<string, Window>, key: string): Option<Window> {
    if key in m then Some(m[key]) else None
  }

  class RequestLimiter {
    var windows: map<string, Window>
    const limit: int
    const length: int

    constructor (limit: int, length: int)
      ensures this.limit == limit && this.length == length && windows == map[]
    {
      this.limit, this.length, windows := limit, length, map[];
    }

    /** Stale windows are dropped once more than 1024 keys are held. */
    method Evict(now: int)
      modifies this
      ensures forall k :: k in windows ==> k in old(windows) && windows[k] == old(windows)[k]
      ensures forall k :: k in old(windows) && k !in windows ==> Stale(old(windows)[k], now, length)
      ensures if |old(windows)| <= 1024 then windows == old(windows) else forall k :: k in windows ==> !Stale(windows[k], now, length)
    {
      if |windows| <= 1024 { return; }
      var keys := windows.Keys;
      while keys != {}
        invariant forall k :: k in windows ==> k in old(windows) && windows[k] == old(windows)[k]
        invariant forall k :: k in old(windows) && k !in windows ==> Stale(old(windows)[k], now, length)
        invariant forall k :: k in windows && k !in keys ==> !Stale(windows[k], now, length)
        decreases |keys|
      {
        var k :| k in keys;
        keys := keys - {k};
        if k in windows && Stale(windows[k], now, length) { windows := windows - {k}; }
      }
    }

    /** `allow`: eviction is invisible in the answer and in the window of the key that asks. */
    method Allow(key: string, now: int) returns (admitted: bool)
      modifies this
      ensures (admitted, Get(windows, key)) == Decide(Get(old(windows), key), now, limit, length)
      ensures forall k :: k != key && k in windows ==> k in old(windows) && windows[k] == old(windows)[k]
      ensures forall k :: k != key && k in old(windows) && k !in windows ==> Stale(old(windows)[k], now, length)
      ensures forall k :: k != key && k in old(windows) ==>
                (k in windows <==> |old(windows)| <= 1024 || !Stale(old(windows)[k], now, length))
    {
      Evict(now);
      if key !in windows || Stale(windows[key], now, length) {
        windows := windows[key := Window(now, 1)];
        return true;
      }
      if windows[key].count >= limit { return false; }
      windows := windows[key := windows[key].(count := windows[key].count + 1)];
      admitted := true;
    }
  }

  /** Windows of the real limiter and of one that never evicts: they differ only in stale entries. */
  ghost predicate Agree(w: map<string, Window>, full: map<string, Window>, now: int, length: int) {
    && (forall k :: k in w ==> k in full && full[k] == w[k])
    && (forall k :: k in full && k !in w ==> Stale(full[k], now, length))
  }

  /** A never-evicting limiter. */
  function FullStep(full: map<string, Window>, key: string, now: int, limit: int, length: int): (bool, map<string, Window>) {
    var d := Decide(Get(full, key), now, limit, length);
    (d.0, full[key := d.1.value])
  }

  /** One call: same answer, and the two stay in agreement, now and at any later time. */
  lemma EvictionInvisible(w: map<string, Window>, full: map<string, Window>, key: string, before: int, now: int,
                          limit: int, length: int, w': map<string, Window>, admitted: bool)
    requires Agree(w, full, before, length) && before <= now
    requires (admitted, Get(w', key)) == Decide(Get(w, key), now, limit, length)
    requires forall k :: k != key && k in w' ==> k in w && w'[k] == w[k]
    requires forall k :: k != key && k in w && k !in w' ==> Stale(w[k], now, length)
    ensures admitted == FullStep(full, key, now, limit, length).0
    ensures Agree(w', FullStep(full, key, now, limit, length).1, now, length)
  {
    var full' := FullStep(full, key, now, limit, length).1;
    assert Decide(Get(w, key), now, limit, length) == Decide(Get(full, key), now, limit, length);
    assert key in w' && w'[key] == full'[key];
  }

  // ---- how much one key gets through

  /** Requests of one key, in time order, through the limiter: which were admitted. */
  function Admitted(times: seq<int>, limit: int, length: int): (r: (seq<int>, Option<Window>)) {
    if times == [] then ([], None)
    else
      var before := Admitted(times[..|times| - 1], limit, length);
      var now := times[|times| - 1];
      var d := Decide(before.1, now, limit, length);
      (if d.0 then before.0 + [now] else before.0, d.1)
  }

  function CountIn(s: seq<int>, from: int, until: int): nat {
    if s == [] then 0
    else CountIn(s[..|s| - 1], from, until) + (if from <= s[|s| - 1] < until then 1 else 0)
  }

  predicate Ascending(s: seq<int>) { forall i, j :: 0 <= i < j < |s| ==> s[i] <= s[j] }

  function PerWindow(limit: int): nat { if limit > 1 then limit else 1 }

  /** Admissions in the half-open interval of one window length that starts at `t`. */
  function InInterval(s: seq<int>, t: int, length: int): nat { CountIn(s, t, t + length) }

  lemma {:induction false} CountSplits(s: seq<int>, from: int, middle: int, until: int)
    requires from <= middle <= until
    ensures CountIn(s, from, until) == CountIn(s, from, middle) + CountIn(s, middle, until)
  {
    if s != [] { CountSplits(s[..|s| - 1], from, middle, until); }
  }

  lemma {:induction false} CountMonotone(s: seq<int>, a: int, b: int, c: int, d: int)
    requires forall i :: 0 <= i < |s| && a <= s[i] < b ==> c <= s[i] < d
    ensures CountIn(s, a, b) <= CountIn(s, c, d)
  {
    if s != [] { CountMonotone(s[..|s| - 1], a, b, c, d); }
  }

  lemma CountSnoc(s: seq<int>, x: int, from: int, until: int)
    ensures CountIn(s + [x], from, until) == CountIn(s, from, until) + (if from <= x < until then 1 else 0)
  {
    assert (s + [x])[..|s|] == s;
  }

  /** What the current window says about the admissions so far. */
  ghost predicate WindowInv(admitted: seq<int>, w: Window, now: int, limit: int, length: int) {
    && w.started <= now && w.count <= PerWindow(limit)
    && (forall i :: 0 <= i < |admitted| ==> admitted[i] <= now && admitted[i] < w.started + length)
    && CountIn(admitted, w.started, now + 1) == w.count
    && CountIn(admitted, w.started + 1, now + 1) < w.count
    && (forall t :: InInterval(admitted, t, length) < 2 * PerWindow(limit))
    && (forall t :: w.started - length < t <= w.started ==> CountIn(admitted, t, w.started) < PerWindow(limit))
  }

  /** Any interval of one window length admits less than twice the limit (one request, for limits below two). */
  lemma {:induction false} LessThanTwiceTheLimit(times: seq<int>, limit: int, length: int, t: int)
    requires Ascending(times) && length > 0
    ensures CountIn(Admitted(times, limit, length).0, t, t + length) < 2 * PerWindow(limit)
  {
    if times != [] {
      AdmittedInv(times, limit, length);
      assert InInterval(Admitted(times, limit, length).0, t, length) < 2 * PerWindow(limit);
    }
  }

  lemma {:induction false} AdmittedInv(times: seq<int>, limit: int, length: int)
    requires Ascending(times) && times != [] && length > 0
    ensures var (admitted, w) := Admitted(times, limit, length);
            w.Some? && WindowInv(admitted, w.value, times[|times| - 1], limit, length)
  {
    var front, now := times[..|times| - 1], times[|times| - 1];
    var (before, w) := Admitted(front, limit, length);
    if front == [] {
      FirstInv(now, limit, length);
      assert before + [now] == [now];
    } else {
      AdmittedInv(front, limit, length);
      var last := front[|front| - 1];
      if Stale(w.value, now, length) {
        FreshWindow(before, w.value, last, now, limit, length);
      } else {
        LaterNow(before, w.value, last, now, limit, length);
        if w.value.count < limit { SameWindow(before, w.value, now, limit, length); }
      }
    }
  }

  /** A request is refused only when the limit was used up in the window length that ends with it. */
  lemma {:induction false} RefusedWhenFull(times: seq<int>, now: int, limit: int, length: int)
    requires Ascending(times + [now]) && length > 0
    requires Admitted(times + [now], limit, length).0 == Admitted(times, limit, length).0
    ensures CountIn(Admitted(times, limit, length).0, now - length + 1, now + 1) >= limit
  {
    assert (times + [now])[..|times|] == times;
    var (admitted, w) := Admitted(times, limit, length);
    if times != [] {
      assert Ascending(times) && times[|times| - 1] <= now by {
        assert forall i :: 0 <= i < |times| ==> (times + [now])[i] == times[i];
      }
      AdmittedInv(times, limit, length);
      LaterNow(admitted, w.value, times[|times| - 1], now, limit, length);
      CountMonotone(admitted, w.value.started, now + 1, now - length + 1, now + 1);
    }
  }

  lemma FirstInv(now: int, limit: int, length: int)
    requires length > 0
    ensures WindowInv([now], Window(now, 1), now, limit, length)
  {
    CountOne(now, now, now + 1);
    CountOne(now, now + 1, now + 1);
    forall t ensures InInterval([now], t, length) < 2 * PerWindow(limit) { CountOne(now, t, t + length); }
    forall t | now - length < t <= now ensures CountIn([now], t, now) < PerWindow(limit) { CountOne(now, t, now); }
  }

  lemma CountOne(x: int, from: int, until: int)
    ensures CountIn([x], from, until) == if from <= x < until then 1 else 0
  {
    CountSnoc([], x, from, until);
    assert [] + [x] == [x];
  }

  lemma LaterNow(admitted: seq<int>, w: Window, last: int, now: int, limit: int, length: int)
    requires WindowInv(admitted, w, last, limit, length) && last <= now
    ensures WindowInv(admitted, w, now, limit, length)
  {
    CountMonotone(admitted, w.started, now + 1, w.started, last + 1);
    CountMonotone(admitted, w.started, last + 1, w.started, now + 1);
    CountMonotone(admitted, w.started + 1, now + 1, w.started + 1, last + 1);
  }

  lemma SameWindow(admitted: seq<int>, w: Window, now: int, limit: int, length: int)
    requires WindowInv(admitted, w, now, limit, length) && !Stale(w, now, length) && w.count < limit && length > 0
    ensures WindowInv(admitted + [now], w.(count := w.count + 1), now, limit, length)
  {
    var more := admitted + [now];
    CountSnoc(admitted, now, w.started, now + 1);
    CountSnoc(admitted, now, w.started + 1, now + 1);
    forall t ensures InInterval(more, t, length) < 2 * PerWindow(limit) {
      CountSnoc(admitted, now, t, t + length);
      assert InInterval(admitted, t, length) < 2 * PerWindow(limit);
      if t <= now < t + length {
        CountMonotone(more, t, t + length, t, now + 1);
        if t < w.started {
          CountSplits(more, t, w.started, now + 1);
          CountSnoc(admitted, now, t, w.started);
        } else {
          CountMonotone(more, t, now + 1, w.started, now + 1);
        }
      }
    }
    forall t | w.started - length < t <= w.started ensures CountIn(more, t, w.started) < PerWindow(limit) {
      CountSnoc(admitted, now, t, w.started);
    }
  }

  lemma FreshWindow(admitted: seq<int>, w: Window, last: int, now: int, limit: int, length: int)
    requires WindowInv(admitted, w, last, limit, length) && last <= now && Stale(w, now, length) && length > 0
    ensures WindowInv(admitted + [now], Window(now, 1), now, limit, length)
  {
    var more := admitted + [now];
    LaterNow(admitted, w, last, now, limit, length);
    CountSnoc(admitted, now, now, now + 1);
    CountMonotone(admitted, now, now + 1, now, now);
    CountEmpty(admitted, now);
    CountEmpty(more, now + 1);
    forall t | now - length < t <= now ensures CountIn(more, t, now) < PerWindow(limit) {
      CountSnoc(admitted, now, t, now);
      CountMonotone(admitted, t, now, w.started + 1, now + 1);
    }
    forall t ensures InInterval(more, t, length) < 2 * PerWindow(limit) {
      CountSnoc(admitted, now, t, t + length);
      assert InInterval(admitted, t, length) < 2 * PerWindow(limit);
      if t <= now < t + length {
        SplitAtNow(more, t, now, length);
      }
    }
  }

  lemma SplitAtNow(s: seq<int>, t: int, now: int, length: int)
    requires t <= now < t + length && forall i :: 0 <= i < |s| ==> s[i] <= now
    ensures InInterval(s, t, length) <= CountIn(s, t, now) + CountIn(s, now, now + 1)
  {
    CountMonotone(s, t, t + length, t, now + 1);
    CountSplits(s, t, now, now + 1);
  }

  lemma {:induction false} CountEmpty(s: seq<int>, x: int)
    ensures CountIn(s, x, x) == 0
  {
    if s != [] { CountEmpty(s[..|s| - 1], x); }
  }

  // ---- the bound is reached

  function Repeated(x: int, n: nat): (r: seq<int>)
    ensures |r| == n
  {
    if n == 0 then [] else Repeated(x, n - 1) + [x]
  }

  lemma {:induction false} Regroup(a: seq<int>, b: seq<int>, x: int)
    ensures a + (b + [x]) == a + b + [x]
  {
  }

  lemma {:induction false} OneMoreCall(times: seq<int>, now: int, limit: int, length: int)
    ensures var before := Admitted(times, limit, length); var d := Decide(before.1, now, limit, length);
            Admitted(times + [now], limit, length) == (if d.0 then before.0 + [now] else before.0, d.1)
  {
    assert (times + [now])[..|times|] == times;
  }

  lemma {:induction false} AdmitsMore(times: seq<int>, at: int, n: nat, limit: int, length: int)
    requires var w := Admitted(times, limit, length).1; w.Some? && !Stale(w.value, at, length) && w.value.count + n <= limit
    ensures var (admitted, w) := Admitted(times, limit, length);
            Admitted(times + Repeated(at, n), limit, length) == (admitted + Repeated(at, n), Some(w.value.(count := w.value.count + n)))
  {
    var (admitted, w) := Admitted(times, limit, length);
    if n == 0 {
      assert times + [] == times && admitted + [] == admitted;
    } else {
      AdmitsMore(times, at, n - 1, limit, length);
      OneMoreCall(times + Repeated(at, n - 1), at, limit, length);
      Regroup(times, Repeated(at, n - 1), at);
      Regroup(admitted, Repeated(at, n - 1), at);
    }
  }

  lemma {:induction false} CountRepeated(s: seq<int>, x: int, n: nat, from: int, until: int)
    requires from <= x < until
    ensures CountIn(s + Repeated(x, n), from, until) == CountIn(s, from, until) + n
  {
    if n == 0 {
      assert s + [] == s;
    } else {
      CountRepeated(s, x, n - 1, from, until);
      CountSnoc(s + Repeated(x, n - 1), x, from, until);
      assert s + Repeated(x, n) == s + Repeated(x, n - 1) + [x];
    }
  }

  /** One request, the rest of the limit at the end of its window and a whole limit right after: one less than twice
      the limit within two instants. */
  lemma {:induction false} BoundIsReached(limit: nat, length: nat) returns (times: seq<int>)
    requires limit >= 1 && length >= 2
    ensures Ascending(times)
    ensures CountIn(Admitted(times, limit, length).0, length - 1, length + 1) == 2 * limit - 1
  {
    var first := [0] + Repeated(length - 1, limit - 1);
    var second := first + [length];
    times := second + Repeated(length, limit - 1);
    OneMoreCall([], 0, limit, length);
    assert [] + [0] == [0];
    AdmitsMore([0], length - 1, limit - 1, limit, length);
    OneMoreCall(first, length, limit, length);
    AdmitsMore(second, length, limit - 1, limit, length);
    CountOne(0, length - 1, length + 1);
    CountRepeated([0], length - 1, limit - 1, length - 1, length + 1);
    CountSnoc(first, length, length - 1, length + 1);
    CountRepeated(second, length, limit - 1, length - 1, length + 1);
    StepsAscend(limit - 1, length);
  }

  lemma {:induction false} RepeatedAt(x: int, n: nat, i: nat)
    requires i < n
    ensures Repeated(x, n)[i] == x
  {
    if i < n - 1 { RepeatedAt(x, n - 1, i); }
  }

  lemma {:induction false} StepsAscend(n: nat, length: nat)
    requires length >= 2
    ensures Ascending([0] + Repeated(length - 1, n) + [length] + Repeated(length, n))
  {
    var s := [0] + Repeated(length - 1, n) + [length] + Repeated(length, n);
    forall k | 0 <= k < |s| ensures s[k] == if k == 0 then 0 else if k <= n then length - 1 else length {
      if 0 < k <= n { RepeatedAt(length - 1, n, k - 1); }
      if k > n + 1 { RepeatedAt(length, n, k - n - 2); }
    }
  }

  // ---- whole runs of the real limiter

  datatype Call = Call(key: string, now: int)

  /** What `Allow` promises about one call. */
  ghost predicate AllowStep(w: map<string, Window>, c: Call, limit: int, length: int, w': map<string, Window>, admitted: bool) {
    && (admitted, Get(w', c.key)) == Decide(Get(w, c.key), c.now, limit, length)
    && (forall k :: k != c.key && k in w' ==> k in w && w'[k] == w[k])
    && (forall k :: k != c.key && k in w && k !in w' ==> Stale(w[k], c.now, length))
  }

  ghost predicate LimiterRun(calls: seq<Call>, states: seq<map<string, Window>>, answers: seq<bool>, limit: int, length: int) {
    && |states| == |calls| + 1 && |answers| == |calls| && states[0] == map[]
    && (forall i, j :: 0 <= i < j < |calls| ==> calls[i].now <= calls[j].now)
    && (forall i :: 0 <= i < |calls| ==> AllowStep(states[i], calls[i], limit, length, states[i + 1], answers[i]))
  }

  /** The same calls through a limiter that never evicts. */
  function FullRun(calls: seq<Call>, limit: int, length: int): (r: (seq<bool>, map<string, Window>))
    ensures |r.0| == |calls|
  {
    if calls == [] then ([], map[])
    else
      var before := FullRun(calls[..|calls| - 1], limit, length);
      var c := calls[|calls| - 1];
      var d := FullStep(before.1, c.key, c.now, limit, length);
      (before.0 + [d.0], d.1)
  }

  /** Evicting stale windows never changes an answer, over any run. */
  lemma {:induction false} EvictionNeverMatters(calls: seq<Call>, states: seq<map<string, Window>>, answers: seq<bool>,
                                                limit: int, length: int)
    requires LimiterRun(calls, states, answers, limit, length)
    ensures answers == FullRun(calls, limit, length).0
    ensures calls != [] ==> Agree(states[|calls|], FullRun(calls, limit, length).1, calls[|calls| - 1].now, length)
  {
    if calls != [] {
      var n := |calls| - 1;
      EvictionNeverMatters(calls[..n], states[..n + 1], answers[..n], limit, length);
      var full := FullRun(calls[..n], limit, length).1;
      var before := if n == 0 then calls[n].now else calls[n - 1].now;
      assert AllowStep(states[n], calls[n], limit, length, states[n + 1], answers[n]);
      EvictionInvisible(states[n], full, calls[n].key, before, calls[n].now, limit, length, states[n + 1], answers[n]);
      assert answers == answers[..n] + [answers[n]];
    }
  }

  function TimesOf(calls: seq<Call>, key: string): seq<int> {
    if calls == [] then []
    else
      var front := TimesOf(calls[..|calls| - 1], key);
      if calls[|calls| - 1].key == key then front + [calls[|calls| - 1].now] else front
  }

  /** Times of the calls of one key that were answered with true. */
  function AdmittedTimes(calls: seq<Call>, answers: seq<bool>, key: string): seq<int>
    requires |calls| == |answers|
  {
    if calls == [] then []
    else
      var n := |calls| - 1;
      var front := AdmittedTimes(calls[..n], answers[..n], key);
      if calls[n].key == key && answers[n] then front + [calls[n].now] else front
  }

  lemma {:induction false} OneKeyAlone(calls: seq<Call>, key: string, limit: int, length: int)
    ensures var (admitted, w) := Admitted(TimesOf(calls, key), limit, length);
      && w == Get(FullRun(calls, limit, length).1, key)
      && admitted == AdmittedTimes(calls, FullRun(calls, limit, length).0, key)
  {
    if calls != [] {
      var n := |calls| - 1;
      OneKeyAlone(calls[..n], key, limit, length);
      var (answers, _) := FullRun(calls, limit, length);
      assert answers[..n] == FullRun(calls[..n], limit, length).0;
      var front := TimesOf(calls[..n], key);
      if calls[n].key == key {
        assert (front + [calls[n].now])[..|front|] == front;
      }
    }
  }

  lemma {:induction false} TimesAscend(calls: seq<Call>, key: string)
    requires forall i, j :: 0 <= i < j < |calls| ==> calls[i].now <= calls[j].now
    ensures Ascending(TimesOf(calls, key))
    ensures calls != [] ==> forall i :: 0 <= i < |TimesOf(calls, key)| ==> TimesOf(calls, key)[i] <= calls[|calls| - 1].now
  {
    if calls != [] { TimesAscend(calls[..|calls| - 1], key); }
  }

  /** Over any run, eviction included, every half-open interval of one window length admits a key less than
      twice the limit (one request, for limits below two). */
  lemma RunBound(calls: seq<Call>, states: seq<map<string, Window>>, answers: seq<bool>, limit: int, length: int, key: string, t: int)
    requires LimiterRun(calls, states, answers, limit, length) && length > 0
    ensures CountIn(AdmittedTimes(calls, answers, key), t, t + length) < 2 * PerWindow(limit)
  {
    EvictionNeverMatters(calls, states, answers, limit, length);
    OneKeyAlone(calls, key, limit, length);
    TimesAscend(calls, key);
    LessThanTwiceTheLimit(TimesOf(calls, key), limit, length, t);
  }

  lemma RunFront(calls: seq<Call>, states: seq<map<string, Window>>, answers: seq<bool>, limit: int, length: int, n: nat)
    requires LimiterRun(calls, states, answers, limit, length) && n <= |calls|
    ensures LimiterRun(calls[..n], states[..n + 1], answers[..n], limit, length)
  {
  }

  lemma {:induction false} FullRefusal(front: seq<Call>, c: Call, limit: int, length: int)
    requires Ascending(TimesOf(front, c.key) + [c.now]) && length > 0
    requires !FullStep(FullRun(front, limit, length).1, c.key, c.now, limit, length).0
    ensures CountIn(AdmittedTimes(front, FullRun(front, limit, length).0, c.key), c.now - length + 1, c.now + 1) >= limit
  {
    OneKeyAlone(front, c.key, limit, length);
    OneMoreCall(TimesOf(front, c.key), c.now, limit, length);
    RefusedWhenFull(TimesOf(front, c.key), c.now, limit, length);
  }

  lemma {:induction false} LastFullAnswer(front: seq<Call>, c: Call, limit: int, length: int)
    ensures FullRun(front + [c], limit, length).0
         == FullRun(front, limit, length).0 + [FullStep(FullRun(front, limit, length).1, c.key, c.now, limit, length).0]
    ensures TimesOf(front + [c], c.key) == TimesOf(front, c.key) + [c.now]
  {
    assert (front + [c])[..|front|] == front;
  }

  /** And in any run a key is refused only when it was admitted as often as the limit allows in the window length that
      ends with the refused call. */
  lemma {:induction false} RunRefusal(calls: seq<Call>, states: seq<map<string, Window>>, answers: seq<bool>, limit: int, length: int, n: nat)
    requires LimiterRun(calls, states, answers, limit, length) && length > 0 && n < |calls| && !answers[n]
    ensures CountIn(AdmittedTimes(calls[..n], answers[..n], calls[n].key), calls[n].now - length + 1, calls[n].now + 1) >= limit
  {
    var front := calls[..n];
    RunFront(calls, states, answers, limit, length, n);
    RunFront(calls, states, answers, limit, length, n + 1);
    EvictionNeverMatters(front, states[..n + 1], answers[..n], limit, length);
    EvictionNeverMatters(calls[..n + 1], states[..n + 2], answers[..n + 1], limit, length);
    assert calls[..n + 1] == front + [calls[n]];
    LastFullAnswer(front, calls[n], limit, length);
    assert answers[..n + 1][n] == answers[n];
    TimesAscend(calls[..n + 1], calls[n].key);
    FullRefusal(front, calls[n], limit, length);
  }

  // ---------------------------------------------------------------- login limiter

  const LOGIN_WINDOW := 15 * 60
  const LOGIN_LIMIT := 5

  datatype LoginCall = Fail(at: int) | Reset(at: int) | Ask(at: int)

  function Recent(attempts: seq<int>, cutoff: int): (r: seq<int>) {
    if attempts == [] then []
    else
      var front := Recent(attempts[..|attempts| - 1], cutoff);
      if attempts[|attempts| - 1] > cutoff then front + [attempts[|attempts| - 1]] else front
  }

  class LoginLimiter {
    var attempts: map<string, seq<int>>

    constructor ()
      ensures attempts == map[]
    {
      attempts := map[];
    }

    function Of(key: string): seq<int>
      reads this
    {
      if key in attempts then attempts[key] else []
    }

    /** `allow` rewrites the stored slice with the attempts after the cutoff. */
    method Allow(key: string, now: int) returns (allowed: bool)
      modifies this
      ensures attempts == old(attempts)[key := Recent(old(Of(key)), now - LOGIN_WINDOW)]
      ensures allowed == (|Recent(old(Of(key)), now - LOGIN_WINDOW)| < LOGIN_LIMIT)
    {
      var old' := Of(key);
      var current: seq<int> := [];
      for i := 0 to |old'|
        invariant current == Recent(old'[..i], now - LOGIN_WINDOW)
      {
        assert old'[..i + 1][..i] == old'[..i];
        if old'[i] > now - LOGIN_WINDOW { current := current + [old'[i]]; }
      }
      assert old'[..|old'|] == old';
      attempts := attempts[key := current];
      allowed := |current| < LOGIN_LIMIT;
    }

    method RecordFailure(key: string, now: int)
      modifies this
      ensures attempts == old(attempts)[key := old(Of(key)) + [now]]
    {
      attempts := attempts[key := Of(key) + [now]];
    }

    method Clear(key: string)
      modifies this
      ensures attempts == old(attempts) - {key}
    {
      attempts := attempts - {key};
    }
  }

  /** Attempts stored for one key after a history of calls. */
  function StoredAfter(h: seq<LoginCall>): seq<int> {
    if h == [] then []
    else
      var before := StoredAfter(h[..|h| - 1]);
      match h[|h| - 1]
      case Fail(at) => before + [at]
      case Reset(_) => []
      case Ask(at) => Recent(before, at - LOGIN_WINDOW)
  }

  /** All failures since the last reset, nothing pruned. */
  function FailuresSinceReset(h: seq<LoginCall>): seq<int> {
    if h == [] then []
    else
      var before := FailuresSinceReset(h[..|h| - 1]);
      match h[|h| - 1]
      case Fail(at) => before + [at]
      case Reset(_) => []
      case Ask(_) => before
  }

  ghost predicate InOrder(h: seq<LoginCall>) { forall i, j :: 0 <= i < j < |h| ==> h[i].at <= h[j].at }

  lemma {:induction false} RecentAppend(a: seq<int>, x: int, cutoff: int)
    ensures Recent(a + [x], cutoff) == Recent(a, cutoff) + (if x > cutoff then [x] else [])
  {
    assert (a + [x])[..|a|] == a;
  }

  lemma {:induction false} RecentTwice(a: seq<int>, c: int, d: int)
    requires c <= d
    ensures Recent(Recent(a, c), d) == Recent(a, d)
  {
    if a != [] {
      var front, x := a[..|a| - 1], a[|a| - 1];
      RecentTwice(front, c, d);
      if x > c { RecentAppend(Recent(front, c), x, d); }
    }
  }

  /** Pruning never changes an answer: at any later time the stored attempts inside the last fifteen
      minutes are exactly the failures since the last reset inside them. */
  lemma {:induction false} PruningInvisible(h: seq<LoginCall>, cutoff: int)
    requires InOrder(h) && (h != [] ==> h[|h| - 1].at - LOGIN_WINDOW <= cutoff)
    ensures Recent(StoredAfter(h), cutoff) == Recent(FailuresSinceReset(h), cutoff)
  {
    if h != [] {
      var front := h[..|h| - 1];
      PruningInvisible(front, cutoff);
      match h[|h| - 1]
      case Fail(at) =>
        RecentAppend(StoredAfter(front), at, cutoff);
        RecentAppend(FailuresSinceReset(front), at, cutoff);
      case Reset(_) =>
      case Ask(at) => RecentTwice(StoredAfter(front), at - LOGIN_WINDOW, cutoff);
    }
  }

  /** The answer given at `now` after any history: fewer than five failures since the last reset in the
      last fifteen minutes. */
  lemma LoginAnswer(h: seq<LoginCall>, now: int)
    requires InOrder(h + [Ask(now)])
    ensures var answer := |Recent(StoredAfter(h), now - LOGIN_WINDOW)| < LOGIN_LIMIT;
            answer <==> |Recent(FailuresSinceReset(h), now - LOGIN_WINDOW)| < LOGIN_LIMIT
  {
    var g := h + [Ask(now)];
    assert forall i :: 0 <= i < |h| ==> g[i] == h[i];
    if h != [] { assert g[|h| - 1].at <= g[|h|].at; }
    assert InOrder(h);
    PruningInvisible(h, now - LOGIN_WINDOW);
  }
}
