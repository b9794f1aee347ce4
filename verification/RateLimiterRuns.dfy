/** What the limiter allows over whole runs under a monotone clock. */
module RateLimiterRuns {
  import opened Outcomes
  import opened StableSort
  import opened RateLimiter

  datatype Call = Call(key: string, at: int)

  datatype Rules = Rules(limit: int, windowMs: int, maxKeys: nat)

  /** The last window a key opened. */
  datatype Opened = Opened(start: int, count: nat)

  /** The limiter with nothing swept and nothing evicted: every key counts in its own window, and a call
      at or past the window's end opens the next. */
  function Remember(m: map<string, Opened>, c: Call, windowMs: int): map<string, Opened> {
    if c.key in m && c.at - m[c.key].start < windowMs then m[c.key := Opened(m[c.key].start, m[c.key].count + 1)]
    else m[c.key := Opened(c.at, 1)]
  }

  predicate Allows(m: map<string, Opened>, c: Call, r: Rules) {
    var next := Remember(m, c, r.windowMs);
    next[c.key].count <= r.limit
  }

  function Decisions(m: map<string, Opened>, calls: seq<Call>, r: Rules): seq<bool>
    decreases |calls|
  {
    if calls == [] then [] else [Allows(m, calls[0], r)] + Decisions(Remember(m, calls[0], r.windowMs), calls[1..], r)
  }

  /** The decisions of the bounded limiter. */
  function Limited(s: seq<Window>, calls: seq<Call>, r: Rules): seq<bool>
    decreases |calls|
  {
    if calls == [] then []
    else
      var next := Checked(s, calls[0].key, calls[0].at, r.windowMs, r.maxKeys);
      [HasWindow(next, calls[0].key) && WindowOf(next, calls[0].key).count <= r.limit] + Limited(next, calls[1..], r)
  }

  predicate Monotone(calls: seq<Call>, t: int)
    decreases |calls|
  {
    calls == [] || (calls[0].at >= t && Monotone(calls[1..], calls[0].at))
  }

  /** No sweep of the run had to drop a current window to stay within the key limit. */
  ghost predicate NeverEvicts(s: seq<Window>, calls: seq<Call>, r: Rules)
    decreases |calls|
  {
    calls == [] ||
      (|Current(s, r.windowMs, calls[0].at)| <= r.maxKeys
       && NeverEvicts(Checked(s, calls[0].key, calls[0].at, r.windowMs, r.maxKeys), calls[1..], r))
  }

  // --- Order and size ------------------------------------------------------

  ghost predicate Ordered(s: seq<Window>, t: int) {
    && (forall i, j :: 0 <= i < j < |s| ==> s[i].startedAt <= s[j].startedAt && s[i].key != s[j].key)
    && (forall i :: 0 <= i < |s| ==> s[i].startedAt <= t)
  }

  lemma {:induction false} CurrentIsOrdered(s: seq<Window>, windowMs: int, now: int, t: int)
    requires Ordered(s, t)
    ensures Ordered(Current(s, windowMs, now), t)
    decreases |s|
  {
    if s != [] {
      assert Ordered(s[1..], t);
      CurrentIsOrdered(s[1..], windowMs, now, t);
      var rest := Current(s[1..], windowMs, now);
      forall j | 0 <= j < |rest| ensures s[0].startedAt <= rest[j].startedAt && s[0].key != rest[j].key {
        assert rest[j] in s[1..];
      }
    }
  }

  lemma CappedIsOrdered(s: seq<Window>, max: nat, t: int)
    requires Ordered(s, t)
    ensures Ordered(Capped(s, max), t) && |Capped(s, max)| <= max
  {
  }

  lemma {:induction false} CountedIsOrdered(s: seq<Window>, key: string, now: int, t: int)
    requires Ordered(s, t) && now >= t
    ensures Ordered(Counted(s, key, now), now) && |Counted(s, key, now)| <= |s| + 1
  {
    var i := PositionOf(s, key);
    if i == |s| {
      var next := s + [Window(key, now, 1)];
      forall j | 0 <= j < |s| ensures next[j].startedAt <= now && next[j].key != key {}
    }
  }

  /** The windows stay in the order they opened, one to a key, and never more than the key limit and one. */
  lemma {:induction false} StaysOrderedAndSmall(s: seq<Window>, key: string, now: int, windowMs: int, maxKeys: nat,
          t: int)
    requires Ordered(s, t) && now >= t
    ensures Ordered(Checked(s, key, now, windowMs, maxKeys), now)
    ensures |Checked(s, key, now, windowMs, maxKeys)| <= maxKeys + 1
  {
    CurrentIsOrdered(s, windowMs, now, t);
    CappedIsOrdered(Current(s, windowMs, now), maxKeys, t);
    CountedIsOrdered(Capped(Current(s, windowMs, now), maxKeys), key, now, t);
  }

  // --- The bounded limiter decides like the unbounded one -------------------

  /** Every remembered window is held, unless it has passed; and nothing else is held. */
  ghost predicate Reflects(s: seq<Window>, m: map<string, Opened>, windowMs: int, t: int) {
    Matches(s, m) && Holds(s, m, windowMs, t)
  }

  ghost predicate Matches(s: seq<Window>, m: map<string, Opened>) {
    forall i :: 0 <= i < |s| ==> s[i].key in m && m[s[i].key] == Opened(s[i].startedAt, s[i].count)
  }

  ghost predicate Holds(s: seq<Window>, m: map<string, Opened>, windowMs: int, t: int) {
    forall k :: k in m && t - m[k].start < windowMs ==> HasWindow(s, k)
  }

  lemma {:induction false} HasWindowIff(s: seq<Window>, key: string)
    ensures HasWindow(s, key) <==> exists w :: w in s && w.key == key
  {
    if HasWindow(s, key) { assert s[PositionOf(s, key)] in s; }
  }

  lemma {:induction false} SweepReflects(s: seq<Window>, m: map<string, Opened>, windowMs: int, t: int, now: int)
    requires Reflects(s, m, windowMs, t) && now >= t
    ensures Reflects(Current(s, windowMs, now), m, windowMs, now)
    ensures forall k :: HasWindow(Current(s, windowMs, now), k) <==> k in m && now - m[k].start < windowMs
  {
    var kept := Current(s, windowMs, now);
    forall i | 0 <= i < |kept| ensures kept[i] in s && now - kept[i].startedAt < windowMs { assert kept[i] in kept; }
    forall k ensures HasWindow(kept, k) <==> k in m && now - m[k].start < windowMs {
      HasWindowIff(kept, k);
      HasWindowIff(s, k);
      if k in m && now - m[k].start < windowMs {
        var w := WindowOf(s, k);
        assert w in s;
        assert w in kept;
      }
    }
  }

  lemma {:induction false} HasWindowAppend(s: seq<Window>, w: Window, k: string)
    ensures HasWindow(s + [w], k) <==> HasWindow(s, k) || k == w.key
  {
    HasWindowIff(s + [w], k);
    HasWindowIff(s, k);
    assert w in s + [w];
    if HasWindow(s, k) { assert WindowOf(s, k) in s + [w]; }
  }

  lemma {:induction false} HasWindowUpdate(s: seq<Window>, i: nat, w: Window, k: string)
    requires i < |s| && w.key == s[i].key
    ensures HasWindow(s[i := w], k) <==> HasWindow(s, k)
  {
    HasWindowIff(s[i := w], k);
    HasWindowIff(s, k);
    if HasWindow(s, k) {
      var j := PositionOf(s, k);
      assert s[i := w][j] in s[i := w];
    }
    if HasWindow(s[i := w], k) {
      var j := PositionOf(s[i := w], k);
      assert s[j] in s;
    }
  }

  lemma OnePlace(s: seq<Window>, t: int, i: nat, j: nat)
    requires Ordered(s, t) && i < |s| && j < |s| && i != j
    ensures s[i].key != s[j].key
  {
    if i < j { assert s[i].key != s[j].key; } else { assert s[j].key != s[i].key; }
  }

  function CountedOnce(o: Opened): Opened { Opened(o.start, o.count + 1) }

  lemma {:induction false} UpdateMatches(s: seq<Window>, m: map<string, Opened>, i: nat, t: int)
    requires Ordered(s, t) && i < |s| && Matches(s, m)
    ensures Matches(s[i := s[i].(count := s[i].count + 1)], m[s[i].key := CountedOnce(m[s[i].key])])
  {
    var next := s[i := s[i].(count := s[i].count + 1)];
    forall j | 0 <= j < |next| && j != i ensures next[j].key != s[i].key { OnePlace(s, t, i, j); }
  }

  lemma {:induction false} UpdateHolds(s: seq<Window>, m: map<string, Opened>, i: nat, windowMs: int, now: int)
    requires i < |s| && Holds(s, m, windowMs, now) && s[i].key in m
    ensures Holds(s[i := s[i].(count := s[i].count + 1)], m[s[i].key := CountedOnce(m[s[i].key])], windowMs, now)
  {
    var w := s[i].(count := s[i].count + 1);
    forall k ensures HasWindow(s[i := w], k) <==> HasWindow(s, k) { HasWindowUpdate(s, i, w, k); }
    HasWindowIff(s, s[i].key);
  }

  lemma {:induction false} CountedOpen(s: seq<Window>, key: string, now: int)
    requires HasWindow(s, key)
    ensures var next := Counted(s, key, now);
      && next == s[PositionOf(s, key) := WindowOf(s, key).(count := WindowOf(s, key).count + 1)]
      && HasWindow(next, key) && WindowOf(next, key).count == WindowOf(s, key).count + 1
  {
    PositionUpdate(s, key, WindowOf(s, key).count + 1);
  }

  lemma {:induction false} CountOpenReflects(s: seq<Window>, m: map<string, Opened>, c: Call, windowMs: int, t: int)
    requires Ordered(s, t) && Reflects(s, m, windowMs, c.at) && HasWindow(s, c.key) && c.key in m
    requires c.at - m[c.key].start < windowMs
    ensures var next := Counted(s, c.key, c.at);
      && Reflects(next, Remember(m, c, windowMs), windowMs, c.at)
      && HasWindow(next, c.key) && WindowOf(next, c.key).count == Remember(m, c, windowMs)[c.key].count
  {
    var i := PositionOf(s, c.key);
    CountedOpen(s, c.key, c.at);
    assert Remember(m, c, windowMs) == m[s[i].key := CountedOnce(m[s[i].key])];
    UpdateMatches(s, m, i, t);
    UpdateHolds(s, m, i, windowMs, c.at);
  }

  lemma {:induction false} CountNewReflects(s: seq<Window>, m: map<string, Opened>, c: Call, windowMs: int)
    requires Reflects(s, m, windowMs, c.at) && !HasWindow(s, c.key) && !(c.key in m && c.at - m[c.key].start < windowMs)
    ensures var next := Counted(s, c.key, c.at);
      && Reflects(next, Remember(m, c, windowMs), windowMs, c.at)
      && HasWindow(next, c.key) && WindowOf(next, c.key).count == Remember(m, c, windowMs)[c.key].count
  {
    PositionAppend(s, Window(c.key, c.at, 1));
    forall k ensures HasWindow(s + [Window(c.key, c.at, 1)], k) <==> HasWindow(s, k) || k == c.key {
      HasWindowAppend(s, Window(c.key, c.at, 1), k);
    }
    forall j | 0 <= j < |s| ensures s[j].key != c.key { HasWindowIff(s, c.key); assert s[j] in s; }
  }

  lemma {:induction false} CountReflects(s: seq<Window>, m: map<string, Opened>, c: Call, windowMs: int, t: int)
    requires Ordered(s, t) && Reflects(s, m, windowMs, c.at)
    requires forall k :: HasWindow(s, k) <==> k in m && c.at - m[k].start < windowMs
    ensures var next := Counted(s, c.key, c.at);
      && Reflects(next, Remember(m, c, windowMs), windowMs, c.at)
      && HasWindow(next, c.key) && WindowOf(next, c.key).count == Remember(m, c, windowMs)[c.key].count
  {
    if HasWindow(s, c.key) {
      CountOpenReflects(s, m, c, windowMs, t);
    } else {
      CountNewReflects(s, m, c, windowMs);
    }
  }

  /** While nothing has to be evicted, sweeping never changes a decision. */
  lemma {:induction false} LimitsLikeUnbounded(s: seq<Window>, m: map<string, Opened>, calls: seq<Call>, r: Rules,
          t: int)
    requires Ordered(s, t) && Reflects(s, m, r.windowMs, t) && Monotone(calls, t) && NeverEvicts(s, calls, r)
    ensures Limited(s, calls, r) == Decisions(m, calls, r)
    decreases |calls|
  {
    if calls != [] {
      var c := calls[0];
      SweepReflects(s, m, r.windowMs, t, c.at);
      CurrentIsOrdered(s, r.windowMs, c.at, t);
      CountReflects(Current(s, r.windowMs, c.at), m, c, r.windowMs, t);
      StaysOrderedAndSmall(s, c.key, c.at, r.windowMs, r.maxKeys, t);
      LimitsLikeUnbounded(Checked(s, c.key, c.at, r.windowMs, r.maxKeys), Remember(m, c, r.windowMs), calls[1..], r,
          c.at);
    }
  }

  // --- What one key gets ---------------------------------------------------

  function AtLeastZero(n: int): nat {
    if n < 0 then 0 else n
  }

  /** The allowed calls of `key` at or after `from` and before `to`. */
  function AllowedWithin(m: map<string, Opened>, calls: seq<Call>, r: Rules, key: string, from: int, to: int): nat
    decreases |calls|
  {
    if calls == [] then 0
    else (if calls[0].key == key && from <= calls[0].at < to && Allows(m, calls[0], r) then 1 else 0)
         + AllowedWithin(Remember(m, calls[0], r.windowMs), calls[1..], r, key, from, to)
  }

  /** What a key's open window still allows. */
  function Left(m: map<string, Opened>, key: string, limit: int): nat {
    if key in m then AtLeastZero(limit - m[key].count) else 0
  }

  lemma {:induction false} PastIsOver(m: map<string, Opened>, calls: seq<Call>, r: Rules, key: string, from: int,
          to: int, t: int)
    requires Monotone(calls, t) && t >= to
    ensures AllowedWithin(m, calls, r, key, from, to) == 0
    decreases |calls|
  {
    if calls != [] { PastIsOver(Remember(m, calls[0], r.windowMs), calls[1..], r, key, from, to, calls[0].at); }
  }

  /** Once the key's window opened inside the interval, it is the last the interval sees. */
  lemma {:induction false} InsideOneWindow(m: map<string, Opened>, calls: seq<Call>, r: Rules, key: string, from: int,
          to: int, t: int)
    requires Monotone(calls, t) && to - from <= r.windowMs && key in m && m[key].start >= from
    ensures AllowedWithin(m, calls, r, key, from, to) <= Left(m, key, r.limit)
    decreases |calls|
  {
    if calls != [] {
      var next := Remember(m, calls[0], r.windowMs);
      if calls[0].at >= to {
        PastIsOver(next, calls[1..], r, key, from, to, calls[0].at);
      } else {
        InsideOneWindow(next, calls[1..], r, key, from, to, calls[0].at);
      }
    }
  }

  /** From the interval's start on: what the old window has left, and one window more. */
  lemma {:induction false} OldWindowAndOne(m: map<string, Opened>, calls: seq<Call>, r: Rules, key: string, from: int,
          to: int, t: int)
    requires Monotone(calls, t) && t >= from && to - from <= r.windowMs
    ensures AllowedWithin(m, calls, r, key, from, to) <= Left(m, key, r.limit) + AtLeastZero(r.limit)
    decreases |calls|
  {
    if calls != [] {
      var c := calls[0];
      var next := Remember(m, c, r.windowMs);
      if c.key == key && next[key].start >= from {
        InsideOneWindow(next, calls[1..], r, key, from, to, c.at);
      } else {
        OldWindowAndOne(next, calls[1..], r, key, from, to, c.at);
      }
    }
  }

  lemma {:induction false} TwiceTheLimitUnbounded(m: map<string, Opened>, calls: seq<Call>, r: Rules, key: string,
          from: int, to: int, t: int)
    requires Monotone(calls, t) && to - from <= r.windowMs
    ensures AllowedWithin(m, calls, r, key, from, to) <= 2 * AtLeastZero(r.limit)
    decreases |calls|
  {
    if calls != [] {
      if calls[0].at >= from {
        OldWindowAndOne(m, calls, r, key, from, to, calls[0].at);
      } else {
        TwiceTheLimitUnbounded(Remember(m, calls[0], r.windowMs), calls[1..], r, key, from, to, calls[0].at);
      }
    }
  }

  /** How many calls of `key` at or after `from` and before `to` were decided in its favour. */
  function GrantedWithin(decisions: seq<bool>, calls: seq<Call>, key: string, from: int, to: int): nat
    requires |decisions| == |calls|
    decreases |calls|
  {
    if calls == [] then 0
    else (if calls[0].key == key && from <= calls[0].at < to && decisions[0] then 1 else 0)
         + GrantedWithin(decisions[1..], calls[1..], key, from, to)
  }

  lemma {:induction false} DecisionsAreGranted(m: map<string, Opened>, calls: seq<Call>, r: Rules, key: string,
          from: int, to: int)
    ensures |Decisions(m, calls, r)| == |calls|
    ensures GrantedWithin(Decisions(m, calls, r), calls, key, from, to) == AllowedWithin(m, calls, r, key, from, to)
    decreases |calls|
  {
    if calls != [] {
      var next := Remember(m, calls[0], r.windowMs);
      DecisionsAreGranted(next, calls[1..], r, key, from, to);
      assert Decisions(m, calls, r)[1..] == Decisions(next, calls[1..], r);
    }
  }

  lemma {:induction false} EveryCallIsDecided(s: seq<Window>, calls: seq<Call>, r: Rules)
    ensures |Limited(s, calls, r)| == |calls|
    decreases |calls|
  {
    if calls != [] { EveryCallIsDecided(Checked(s, calls[0].key, calls[0].at, r.windowMs, r.maxKeys), calls[1..], r); }
  }

  /** In any interval as long as a window the limiter grants a key at most twice the limit, whatever else is
      called in between. */
  lemma {:induction false} TwiceTheLimit(calls: seq<Call>, r: Rules, key: string, from: int, to: int, t: int)
    requires Monotone(calls, t) && NeverEvicts([], calls, r) && to - from <= r.windowMs
    ensures |Limited([], calls, r)| == |calls|
    ensures GrantedWithin(Limited([], calls, r), calls, key, from, to) <= 2 * AtLeastZero(r.limit)
  {
    LimitsLikeUnbounded([], map[], calls, r, t);
    DecisionsAreGranted(map[], calls, r, key, from, to);
    TwiceTheLimitUnbounded(map[], calls, r, key, from, to, t);
  }

  // --- Exactly the first calls of each window ------------------------------

  /** The call that opened the key's last window: its first, or the first at or past the end of the window before. */
  function LastOpening(calls: seq<Call>, key: string, windowMs: int): (r: Option<nat>)
    ensures r.Some? ==> r.value < |calls| && calls[r.value].key == key
    decreases |calls|
  {
    if calls == [] then None
    else
      var before, c := calls[..|calls| - 1], calls[|calls| - 1];
      var open := LastOpening(before, key, windowMs);
      if c.key != key || (open.Some? && c.at - before[open.value].at < windowMs) then open else Some(|calls| - 1)
  }

  function CallsOf(calls: seq<Call>, key: string): nat
    decreases |calls|
  {
    if calls == [] then 0 else CallsOf(calls[..|calls| - 1], key) + (if calls[|calls| - 1].key == key then 1 else 0)
  }

  function Remembered(calls: seq<Call>, windowMs: int): map<string, Opened>
    decreases |calls|
  {
    if calls == [] then map[] else Remember(Remembered(calls[..|calls| - 1], windowMs), calls[|calls| - 1], windowMs)
  }

  /** What is remembered of a key is its last window and the calls counted in it. */
  lemma {:induction false} RememberedIs(calls: seq<Call>, key: string, windowMs: int)
    ensures var m, open := Remembered(calls, windowMs), LastOpening(calls, key, windowMs);
      && (key in m <==> open.Some?)
      && (open.Some? ==> m[key] == Opened(calls[open.value].at, CallsOf(calls[open.value..], key)))
    decreases |calls|
  {
    if calls != [] {
      var before, c := calls[..|calls| - 1], calls[|calls| - 1];
      RememberedIs(before, key, windowMs);
      var open := LastOpening(calls, key, windowMs);
      if open.Some? {
        var window := calls[open.value..];
        assert window[|window| - 1] == c && window[..|window| - 1] == before[open.value..];
      }
    }
  }

  lemma {:induction false} DecisionAt(m: map<string, Opened>, done: seq<Call>, calls: seq<Call>, r: Rules, i: nat)
    requires m == Remembered(done, r.windowMs) && i < |calls|
    ensures |Decisions(m, calls, r)| == |calls|
    ensures Decisions(m, calls, r)[i] == Allows(Remembered(done + calls[..i], r.windowMs), calls[i], r)
    decreases |calls|
  {
    var next := Remember(m, calls[0], r.windowMs);
    DecisionsAreGranted(m, calls, r, "", 0, 0);
    if i == 0 {
      assert done + calls[..0] == done;
    } else {
      assert (done + [calls[0]])[..|done|] == done;
      assert done + [calls[0]] + calls[1..][..i - 1] == done + calls[..i];
      DecisionAt(next, done + [calls[0]], calls[1..], r, i - 1);
    }
  }

  /** Whatever other keys are called in between, and however often its windows are opened anew, a call is allowed
      exactly when it is among the first `limit` calls of its key since the call that opened its window. */
  lemma {:induction false} FirstCallsOfEachWindow(calls: seq<Call>, r: Rules, t: int, i: nat)
    requires Monotone(calls, t) && NeverEvicts([], calls, r) && i < |calls|
    ensures |Limited([], calls, r)| == |calls|
    ensures var seen := calls[..i + 1];
      var open := LastOpening(seen, calls[i].key, r.windowMs);
      && open.Some? && (Limited([], calls, r)[i] <==> CallsOf(seen[open.value..], calls[i].key) <= r.limit)
  {
    LimitsLikeUnbounded([], map[], calls, r, t);
    DecisionAt(map[], [], calls, r, i);
    var seen := calls[..i + 1];
    assert [] + calls[..i] == seen[..i] && seen[|seen| - 1] == calls[i];
    RememberedIs(seen, calls[i].key, r.windowMs);
  }

  /** A key's windows are as long as the rules say and do not overlap. */
  lemma {:induction false} WindowsAreApart(calls: seq<Call>, key: string, windowMs: int)
    requires windowMs > 0 && LastOpening(calls, key, windowMs).Some?
    ensures var open := LastOpening(calls, key, windowMs).value;
      && (forall j :: open <= j < |calls| && calls[j].key == key ==> calls[j].at - calls[open].at < windowMs)
      && var earlier := LastOpening(calls[..open], key, windowMs);
         (earlier.Some? ==> calls[open].at - calls[earlier.value].at >= windowMs)
    decreases |calls|
  {
    var before, c := calls[..|calls| - 1], calls[|calls| - 1];
    var open := LastOpening(calls, key, windowMs).value;
    if open < |before| {
      WindowsAreApart(before, key, windowMs);
      assert before[..open] == calls[..open];
      forall j | open <= j < |calls| && calls[j].key == key ensures calls[j].at - calls[open].at < windowMs {
        if j < |before| { assert before[j] == calls[j]; }
      }
    }
  }
}
