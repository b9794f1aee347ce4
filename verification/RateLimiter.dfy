/** The fixed-window limiter of the public endpoints, over a bounded list of windows in insertion order. */
module RateLimiter {
  import opened Outcomes
  import opened StableSort

  datatype Window = Window(key: string, startedAt: int, count: nat)

  function IsCurrent(windowMs: int, now: int): Window -> bool {
    (w: Window) => now - w.startedAt < windowMs
  }

  function Current(s: seq<Window>, windowMs: int, now: int): seq<Window> {
    Filter(IsCurrent(windowMs, now), s)
  }

  function Capped(s: seq<Window>, max: nat): seq<Window> {
    if |s| > max then s[|s| - max..] else s
  }

  /** The position of a key, or the length. */
  function PositionOf(s: seq<Window>, key: string): (i: nat)
    ensures i <= |s|
    ensures i < |s| ==> s[i].key == key
    ensures forall j :: 0 <= j < i ==> s[j].key != key
  {
    if s == [] || s[0].key == key then 0 else 1 + PositionOf(s[1..], key)
  }

  /** One call counted in its key's window, which is opened if there is none. */
  function Counted(s: seq<Window>, key: string, now: int): seq<Window> {
    var i := PositionOf(s, key);
    if i < |s| then s[i := s[i].(count := s[i].count + 1)] else s + [Window(key, now, 1)]
  }

  function Checked(s: seq<Window>, key: string, now: int, windowMs: int, maxKeys: nat): seq<Window> {
    Counted(Capped(Current(s, windowMs, now), maxKeys), key, now)
  }

  predicate HasWindow(s: seq<Window>, key: string) {
    PositionOf(s, key) < |s|
  }

  function WindowOf(s: seq<Window>, key: string): Window
    requires HasWindow(s, key)
  {
    s[PositionOf(s, key)]
  }

  function CeilSeconds(ms: int): int {
    (ms + 999) / 1000
  }

  lemma {:induction false} PositionAppend(s: seq<Window>, w: Window)
    requires !HasWindow(s, w.key)
    ensures PositionOf(s + [w], w.key) == |s|
    decreases |s|
  {
    if s == [] {
      assert s + [w] == [w];
    } else {
      assert (s + [w])[1..] == s[1..] + [w];
      PositionAppend(s[1..], w);
    }
  }

  lemma {:induction false} PositionUpdate(s: seq<Window>, key: string, count: nat)
    requires HasWindow(s, key)
    ensures PositionOf(s[PositionOf(s, key) := WindowOf(s, key).(count := count)], key) == PositionOf(s, key)
    decreases |s|
  {
    if s[0].key != key {
      PositionUpdate(s[1..], key, count);
      var i := PositionOf(s, key);
      assert s[i := s[i].(count := count)][1..] == s[1..][i - 1 := s[i].(count := count)];
    }
  }

  method KeepCurrent(s: seq<Window>, windowMs: int, now: int) returns (kept: seq<Window>)
    ensures kept == Current(s, windowMs, now)
  {
    kept := [];
    for i := 0 to |s|
      invariant kept == Current(s[..i], windowMs, now)
    {
      assert s[..i + 1] == s[..i] + [s[i]];
      FilterAppend(IsCurrent(windowMs, now), s[..i], [s[i]]);
      assert [s[i]][1..] == [];
      if now - s[i].startedAt < windowMs { kept := kept + [s[i]]; }
    }
    assert s[..|s|] == s;
  }

  method DropOldest(all: seq<Window>, max: nat) returns (kept: seq<Window>)
    ensures kept == Capped(all, max)
  {
    kept := all;
    while |kept| > max
      invariant |kept| <= |all| && kept == all[|all| - |kept|..]
      invariant if |all| > max then |kept| >= max else kept == all
    {
      kept := kept[1..];
    }
  }

  class RateLimiter {
    const limit: int
    const windowMs: int
    const maxKeys: nat
    var windows: seq<Window>

    constructor (limit: int, windowMs: int, maxKeys: nat)
      ensures this.limit == limit && this.windowMs == windowMs && this.maxKeys == maxKeys && windows == []
    {
      this.limit := limit;
      this.windowMs := windowMs;
      this.maxKeys := maxKeys;
      windows := [];
    }

    /** A call is allowed while its window has counted no more than the limit; a refused caller is told the
        fewest whole seconds, but at least one, after which the window has passed. */
    method Check(key: string, now: int) returns (allowed: bool, retryAfterSeconds: int)
      modifies this`windows
      ensures windows == Checked(old(windows), key, now, windowMs, maxKeys) && HasWindow(windows, key)
      ensures allowed <==> WindowOf(windows, key).count <= limit
      ensures allowed ==> retryAfterSeconds == 0
      ensures !allowed ==> retryAfterSeconds >= 1 && now + 1000 * retryAfterSeconds - WindowOf(windows,
                           key).startedAt >= windowMs
      ensures retryAfterSeconds > 1 ==> now + 1000 * (retryAfterSeconds - 1) - WindowOf(windows,
                                        key).startedAt < windowMs
    {
      windows := KeepCurrent(windows, windowMs, now);
      windows := DropOldest(windows, maxKeys);
      var i := PositionOf(windows, key);
      if i == |windows| {
        PositionAppend(windows, Window(key, now, 1));
        windows := windows + [Window(key, now, 1)];
      } else {
        PositionUpdate(windows, key, windows[i].count + 1);
        windows := windows[i := windows[i].(count := windows[i].count + 1)];
      }
      allowed := windows[i].count <= limit;
      retryAfterSeconds := 0;
      if !allowed {
        retryAfterSeconds := CeilSeconds(windows[i].startedAt + windowMs - now);
        if retryAfterSeconds < 1 { retryAfterSeconds := 1; }
      }
    }
  }
}
