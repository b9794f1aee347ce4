/** What a bounded, expiring store remembers over any run of its operations under a monotone clock. */
module ExpiringStoreRuns {
  import opened Outcomes
  import opened StableSort
  import opened ExpiringStore

  function Run<V(!new)>(s: seq<Entry<V>>, ops: seq<Op<V>>, l: Limits): seq<Entry<V>>
    decreases |ops|
  {
    if ops == [] then s else Run(Apply(s, ops[0], l), ops[1..], l)
  }

  /** The same operations if nothing ever expired. */
  function ApplyForever<V(!new)>(s: seq<Entry<V>>, op: Op<V>, l: Limits): seq<Entry<V>> {
    match op
    case Store(_, _, _, _) => Stored(s, EntryOf(op, l.ttl), l.max)
    case Read(_) => s
    case Drop(keep) => Filter(keep, s)
  }

  function RunForever<V(!new)>(s: seq<Entry<V>>, ops: seq<Op<V>>, l: Limits): seq<Entry<V>>
    decreases |ops|
  {
    if ops == [] then s else RunForever(ApplyForever(s, ops[0], l), ops[1..], l)
  }

  /** The clock after an operation; a deletion does not read it. */
  function NextTime<V>(op: Op<V>, t: int): int {
    if op.Drop? then t else op.at
  }

  predicate Follows<V>(op: Op<V>, t: int) {
    match op
    case Store(_, _, swept, at) => t <= swept <= at
    case Read(at) => t <= at
    case Drop(_) => true
  }

  /** The clock never goes back from `t`. */
  predicate Monotone<V>(ops: seq<Op<V>>, t: int)
    decreases |ops|
  {
    ops == [] || (Follows(ops[0], t) && Monotone(ops[1..], NextTime(ops[0], t)))
  }

  function EndOf<V>(ops: seq<Op<V>>, t: int): int
    decreases |ops|
  {
    if ops == [] then t else EndOf(ops[1..], NextTime(ops[0], t))
  }

  // --- Order and size ------------------------------------------------------

  ghost predicate Tidy<V(!new)>(s: seq<Entry<V>>, newest: int, max: nat) {
    && |s| <= max
    && (forall i, j :: 0 <= i < j < |s| ==> s[i].expiresAt <= s[j].expiresAt && s[i].key != s[j].key)
    && (forall i :: 0 <= i < |s| ==> s[i].expiresAt <= newest)
  }

  lemma {:induction false} FilterKeepsTidy<V(!new)>(keep: Entry<V> -> bool, s: seq<Entry<V>>, newest: int, max: nat)
    requires Tidy(s, newest, max)
    ensures Tidy(Filter(keep, s), newest, max)
    decreases |s|
  {
    if s != [] {
      assert Tidy(s[1..], newest, max);
      FilterKeepsTidy(keep, s[1..], newest, max);
      var rest := Filter(keep, s[1..]);
      forall j | 0 <= j < |rest| ensures s[0].expiresAt <= rest[j].expiresAt && s[0].key != rest[j].key {
        assert rest[j] in s[1..];
      }
      assert |Filter(keep, s)| <= |s|;
    }
  }

  lemma {:induction false} StoreKeepsTidy<V(!new)>(s: seq<Entry<V>>, e: Entry<V>, newest: int, max: nat)
    requires Tidy(s, newest, max) && e.expiresAt >= newest
    ensures Tidy(Stored(s, e, max), e.expiresAt, max)
  {
    FilterKeepsTidy(IsOther(e.key), s, newest, max);
    var rest := Without(s, e.key);
    forall i | 0 <= i < |rest| ensures rest[i].key != e.key { assert rest[i] in rest; }
  }

  // --- Expiry does not disturb eviction ------------------------------------

  /** If the oldest entry is live, so is every other. */
  lemma {:induction false} OldestDiesFirst<V(!new)>(s: seq<Entry<V>>, newest: int, max: nat, now: int)
    requires Tidy(s, newest, max) && s != []
    ensures Live(s, now) == s || Live(s, now) == Live(s[1..], now)
  {
    if s[0].expiresAt > now { FilterAll(IsLive(now), s); }
  }

  lemma {:induction false} SweptFirst<V(!new)>(s: seq<Entry<V>>, newest: int, max: nat, now: int)
    requires Tidy(s, newest, max) && s != []
    ensures Live(s, now) == s ==> Live(s[1..], now) == s[1..]
    ensures Live(s, now) != s ==> |Live(s, now)| < |s| && Live(s, now) == Live(s[1..], now)
  {
    OldestDiesFirst(s, newest, max, now);
    if Live(s, now) == s {
      AllLive(s, now);
      FilterAll(IsLive(now), s[1..]);
    }
  }

  lemma {:induction false} TrimCommutes<V(!new)>(s: seq<Entry<V>>, e: Entry<V>, newest: int, max: nat, now: int)
    requires Tidy(s, newest, max) && e.expiresAt > now
    ensures Newest(Live(s, now) + [e], max) == Live(Newest(s + [e], max), now)
  {
    if |s| < max {
      AppendLive(s, e, now);
    } else if s == [] {
      assert Newest(s + [e], max) == [];
    } else {
      assert Newest(s + [e], max) == s[1..] + [e];
      AppendLive(s[1..], e, now);
      SweptFirst(s, newest, max, now);
    }
  }

  lemma {:induction false} AppendLive<V(!new)>(s: seq<Entry<V>>, e: Entry<V>, now: int)
    requires e.expiresAt > now
    ensures Live(s + [e], now) == Live(s, now) + [e] && |Live(s, now)| <= |s|
  {
    assert Live([e], now) == [e] by { assert [e][1..] == []; }
    FilterAppend(IsLive(now), s, [e]);
    FilterShrinks(IsLive(now), s);
  }

  lemma AllLive<V(!new)>(s: seq<Entry<V>>, now: int)
    requires Live(s, now) == s
    ensures forall x :: x in s ==> IsLive(now)(x)
  {
    forall x | x in s ensures IsLive(now)(x) { assert x in Live(s, now); }
  }

  /** Storing commutes with sweeping: an expired entry never costs a live one its place. */
  lemma {:induction false} StoreCommutes<V(!new)>(s: seq<Entry<V>>, e: Entry<V>, newest: int, max: nat, now: int)
    requires Tidy(s, newest, max) && e.expiresAt > now
    ensures Stored(Live(s, now), e, max) == Live(Stored(s, e, max), now)
  {
    FiltersCommute(IsOther(e.key), IsLive(now), s);
    FilterKeepsTidy(IsOther(e.key), s, newest, max);
    TrimCommutes(Without(s, e.key), e, newest, max, now);
  }

  lemma {:induction false} LiveTwice<V(!new)>(s: seq<Entry<V>>, t: int, now: int)
    requires t <= now
    ensures Live(Live(s, t), now) == Live(s, now)
    decreases |s|
  {
    if s != [] {
      LiveTwice(s[1..], t, now);
      Unfold(IsLive(t), s);
      Unfold(IsLive(now), s);
      if s[0].expiresAt > t { Unfold(IsLive(now), Live(s, t)); }
    }
  }

  lemma LaterIsTidy<V(!new)>(s: seq<Entry<V>>, newest: int, later: int, max: nat)
    requires Tidy(s, newest, max) && newest <= later
    ensures Tidy(s, later, max)
  {
  }

  /** What the store holds is what it would hold if nothing expired, less what was swept, last at `swept`. */
  ghost predicate Hides<V(!new)>(s: seq<Entry<V>>, full: seq<Entry<V>>, swept: int, t: int, l: Limits) {
    swept <= t && s == Live(full, swept) && Tidy(full, t + l.ttl, l.max)
  }

  /** When the store was last swept. */
  function SweptAt<V>(op: Op<V>, swept: int): int {
    match op
    case Store(_, _, at, _) => at
    case Read(at) => at
    case Drop(_) => swept
  }

  lemma {:induction false} StoreHides<V(!new)>(s: seq<Entry<V>>, full: seq<Entry<V>>, op: Op<V>, swept: int, t: int,
          l: Limits)
    requires l.ttl > 0 && op.Store? && Follows(op, t) && Hides(s, full, swept, t, l)
    ensures Hides(Stored(Live(s, op.swept), EntryOf(op, l.ttl), l.max), Stored(full, EntryOf(op, l.ttl), l.max),
        op.swept, op.at, l)
  {
    LiveTwice(full, swept, op.swept);
    StoreCommutes(full, EntryOf(op, l.ttl), t + l.ttl, l.max, op.swept);
    StoreKeepsTidy(full, EntryOf(op, l.ttl), t + l.ttl, l.max);
  }

  lemma {:induction false} ReadHides<V(!new)>(s: seq<Entry<V>>, full: seq<Entry<V>>, swept: int, t: int, at: int,
          l: Limits)
    requires l.ttl > 0 && at >= t && Hides(s, full, swept, t, l)
    ensures Hides(Live(s, at), full, at, at, l)
  {
    LiveTwice(full, swept, at);
    LaterIsTidy(full, t + l.ttl, at + l.ttl, l.max);
  }

  lemma {:induction false} DropHides<V(!new)>(s: seq<Entry<V>>, full: seq<Entry<V>>, keep: Entry<V> -> bool,
          swept: int, t: int, l: Limits)
    requires Hides(s, full, swept, t, l)
    ensures Hides(Filter(keep, s), Filter(keep, full), swept, t, l)
  {
    FiltersCommute(keep, IsLive(swept), full);
    FilterKeepsTidy(keep, full, t + l.ttl, l.max);
  }

  lemma {:induction false} OneStepHides<V(!new)>(s: seq<Entry<V>>, full: seq<Entry<V>>, op: Op<V>, swept: int, t: int,
          l: Limits)
    requires l.ttl > 0 && Follows(op, t) && Hides(s, full, swept, t, l)
    ensures Hides(Apply(s, op, l), ApplyForever(full, op, l), SweptAt(op, swept), NextTime(op, t), l)
  {
    match op
    case Store(_, _, _, _) => StoreHides(s, full, op, swept, t, l);
    case Read(at) => ReadHides(s, full, swept, t, at, l);
    case Drop(keep) => DropHides(s, full, keep, swept, t, l);
  }

  /** At any moment of a run, what the store shows is what it would hold if nothing expired, less what has
      expired; entries stay in the order they expire, no key is held twice, and the capacity is kept. */
  lemma {:induction false} ExpiryOnlyHides<V(!new)>(s: seq<Entry<V>>, full: seq<Entry<V>>, ops: seq<Op<V>>, swept: int,
          t: int, now: int, l: Limits)
    requires l.ttl > 0 && Monotone(ops, t) && EndOf(ops, t) <= now && Hides(s, full, swept, t, l)
    ensures Live(Run(s, ops, l), now) == Live(RunForever(full, ops, l), now)
    ensures Tidy(Run(s, ops, l), EndOf(ops, t) + l.ttl, l.max)
    decreases |ops|
  {
    if ops == [] {
      LiveTwice(full, swept, now);
      FilterKeepsTidy(IsLive(swept), full, t + l.ttl, l.max);
    } else {
      OneStepHides(s, full, ops[0], swept, t, l);
      ExpiryOnlyHides(Apply(s, ops[0], l), ApplyForever(full, ops[0], l), ops[1..], SweptAt(ops[0], swept),
          NextTime(ops[0], t), now, l);
    }
  }

  // --- What a history says about one key -----------------------------------

  /** What an operation makes of the last entry under a key. */
  function NextEntry<V(!new)>(before: Option<Entry<V>>, op: Op<V>, key: string, ttl: int): (r: Option<Entry<V>>)
    ensures (before.Some? ==> before.value.key == key) && r.Some? ==> r.value.key == key
  {
    match op
    case Store(k, _, _, _) => if k == key then Some(EntryOf(op, ttl)) else before
    case Read(_) => before
    case Drop(keep) => if before.Some? && !keep(before.value) then None else before
  }

  /** The entry of the last store under `key`, unless it was dropped since. */
  function LastEntry<V(!new)>(ops: seq<Op<V>>, key: string, ttl: int): (r: Option<Entry<V>>)
    ensures r.Some? ==> r.value.key == key
    decreases |ops|
  {
    if ops == [] then None
    else
      NextEntry(LastEntry(ops[..|ops| - 1], key, ttl), ops[|ops| - 1], key, ttl)
  }

  /** The other keys stored since the last store under `key` whose entries were not dropped since. */
  ghost function OthersSince<V(!new)>(ops: seq<Op<V>>, key: string, ttl: int): set<string>
    decreases |ops|
  {
    if ops == [] then {}
    else
      var before, op := OthersSince(ops[..|ops| - 1], key, ttl), ops[|ops| - 1];
      match op
      case Store(k, _, _, _) => if k == key then {} else before + {k}
      case Read(_) => before
      case Drop(_) => set k | k in before && LastEntry(ops, k, ttl).Some?
  }

  /** How many operations there were up to the last store under `key`. */
  function LastStoreAt<V>(ops: seq<Op<V>>, key: string): (n: nat)
    ensures n <= |ops|
    decreases |ops|
  {
    if ops == [] then 0
    else if ops[|ops| - 1].Store? && ops[|ops| - 1].key == key then |ops|
    else LastStoreAt(ops[..|ops| - 1], key)
  }

  /** At every moment since the last store under `key` fewer than `max` other keys stored since were standing. */
  ghost predicate NeverCrowdedOut<V(!new)>(ops: seq<Op<V>>, key: string, l: Limits) {
    forall j :: LastStoreAt(ops, key) <= j <= |ops| ==> |OthersSince(ops[..j], key, l.ttl)| < l.max
  }

  // --- Where a key stands --------------------------------------------------

  ghost predicate Distinct<V(!new)>(s: seq<Entry<V>>) {
    forall i, j :: 0 <= i < j < |s| ==> s[i].key != s[j].key
  }

  /** The entry under `key`. */
  function EntryAt<V>(s: seq<Entry<V>>, key: string): Option<Entry<V>> {
    if s == [] then None else if s[0].key == key then Some(s[0]) else EntryAt(s[1..], key)
  }

  /** What stands after `key`. */
  function Following<V>(s: seq<Entry<V>>, key: string): (r: seq<Entry<V>>)
    ensures |r| <= |s|
  {
    if s == [] then [] else if s[0].key == key then s[1..] else Following(s[1..], key)
  }

  ghost function KeysOf<V(!new)>(s: seq<Entry<V>>): set<string> {
    set e | e in s :: e.key
  }

  lemma {:induction false} WithoutIsDistinct<V(!new)>(s: seq<Entry<V>>, key: string)
    requires Distinct(s)
    ensures Distinct(Without(s, key)) && key !in KeysOf(Without(s, key))
    decreases |s|
  {
    if s != [] {
      WithoutIsDistinct(s[1..], key);
      Unfold(IsOther(key), s);
      var rest := Without(s[1..], key);
      forall j | 0 <= j < |rest| ensures rest[j].key != s[0].key { assert rest[j] in s[1..]; }
    }
  }

  lemma {:induction false} RunForeverAppend<V(!new)>(s: seq<Entry<V>>, ops: seq<Op<V>>, op: Op<V>, l: Limits)
    ensures RunForever(s, ops + [op], l) == ApplyForever(RunForever(s, ops, l), op, l)
    decreases |ops|
  {
    if ops == [] {
      assert ops + [op] == [op] && [op][1..] == [];
    } else {
      assert (ops + [op])[1..] == ops[1..] + [op];
      RunForeverAppend(ApplyForever(s, ops[0], l), ops[1..], op, l);
    }
  }

  /** Storing another key leaves `key` in place, and goes behind everything. */
  lemma {:induction false} StoringBehind<V(!new)>(s: seq<Entry<V>>, e: Entry<V>, key: string)
    requires EntryAt(s, key).Some? && key != e.key
    ensures EntryAt(Without(s, e.key) + [e], key) == EntryAt(s, key)
    ensures Following(Without(s, e.key) + [e], key) == Without(Following(s, key), e.key) + [e]
    decreases |s|
  {
    StoredFront(s, e);
    if s[0].key != key { StoringBehind(s[1..], e, key); }
  }

  lemma {:induction false} FollowingKeys<V(!new)>(s: seq<Entry<V>>, e: Entry<V>, key: string)
    requires key in KeysOf(s) && key != e.key
    ensures key in KeysOf(Without(s, e.key) + [e])
    ensures KeysOf(Following(Without(s, e.key) + [e], key)) == KeysOf(Following(s, key)) + {e.key}
    ensures EntryAt(Without(s, e.key) + [e], key) == EntryAt(s, key)
  {
    EntryAtIs(s, key);
    KeysWithout(s, e);
    StoringBehind(s, e, key);
    KeysWithout(Following(s, key), e);
  }

  lemma StoredFront<V(!new)>(s: seq<Entry<V>>, e: Entry<V>)
    requires s != []
    ensures s[0].key == e.key ==> Without(s, e.key) + [e] == Without(s[1..], e.key) + [e]
    ensures s[0].key != e.key ==> (Without(s, e.key) + [e])[0] == s[0]
                                  && (Without(s, e.key) + [e])[1..] == Without(s[1..], e.key) + [e]
  {
    Unfold(IsOther(e.key), s);
  }

  lemma KeysWithout<V(!new)>(s: seq<Entry<V>>, e: Entry<V>)
    ensures KeysOf(Without(s, e.key) + [e]) == KeysOf(s) + {e.key}
  {
    var all := Without(s, e.key) + [e];
    forall k ensures k in KeysOf(all) <==> k in KeysOf(s) || k == e.key {
      if k in KeysOf(s) && k != e.key {
        var x :| x in s && x.key == k;
        assert x in Without(s, e.key) && x in all;
      }
      if k == e.key { assert e in all; }
      if k in KeysOf(all) {
        var x :| x in all && x.key == k;
        if x != e { assert x in Without(s, e.key); }
      }
    }
  }

  lemma {:induction false} EntryAtIs<V(!new)>(s: seq<Entry<V>>, key: string)
    ensures EntryAt(s, key).Some? <==> key in KeysOf(s)
    ensures Find(s, key) == if EntryAt(s, key).Some? then Some(EntryAt(s, key).value.value) else None
    decreases |s|
  {
    if s != [] {
      assert s == [s[0]] + s[1..];
      EntryAtIs(s[1..], key);
    }
  }

  lemma {:induction false} EntryAtEnd<V(!new)>(s: seq<Entry<V>>, e: Entry<V>)
    requires e.key !in KeysOf(s)
    ensures EntryAt(s + [e], e.key) == Some(e) && Following(s + [e], e.key) == []
    decreases |s|
  {
    if s == [] {
      assert s + [e] == [e] && [e][1..] == [];
    } else {
      assert s == [s[0]] + s[1..];
      assert (s + [e])[1..] == s[1..] + [e];
      EntryAtEnd(s[1..], e);
    }
  }

  lemma {:induction false} FollowingCount<V(!new)>(s: seq<Entry<V>>)
    requires Distinct(s)
    ensures |KeysOf(s)| == |s|
    decreases |s|
  {
    if s == [] {
      assert KeysOf(s) == {};
    } else {
      assert s == [s[0]] + s[1..];
      FollowingCount(s[1..]);
      assert KeysOf(s) == {s[0].key} + KeysOf(s[1..]);
      assert s[0].key !in KeysOf(s[1..]);
    }
  }

  lemma {:induction false} FollowingIsDistinct<V(!new)>(s: seq<Entry<V>>, key: string)
    requires Distinct(s)
    ensures Distinct(Following(s, key))
    decreases |s|
  {
    if s != [] && s[0].key != key { FollowingIsDistinct(s[1..], key); }
  }

  lemma {:induction false} NewestShows<V(!new)>(s: seq<Entry<V>>, max: nat, key: string)
    requires Distinct(s)
    ensures EntryAt(Newest(s, max), key) == if key in KeysOf(s) && |Following(s, key)| < max then EntryAt(s, key)
        else None
    decreases |s|
  {
    EntryAtIs(s, key);
    if |s| > max {
      assert s == [s[0]] + s[1..];
      NewestShows(s[1..], max, key);
      assert Newest(s, max) == Newest(s[1..], max);
      if s[0].key == key { EntryAtIs(s[1..], key); }
    }
  }

  lemma {:induction false} NewestFollows<V(!new)>(s: seq<Entry<V>>, max: nat, key: string)
    requires Distinct(s) && EntryAt(Newest(s, max), key).Some?
    ensures Following(Newest(s, max), key) == Following(s, key)
    decreases |s|
  {
    if |s| > max {
      assert Newest(s, max) == Newest(s[1..], max);
      assert Distinct(s[1..]);
      NewestFollows(s[1..], max, key);
      EntryAtIs(s[1..], key);
      NewestShows(s[1..], max, key);
    }
  }

  /** What a filter leaves under a key and behind it. */
  lemma {:induction false} FilterShows<V(!new)>(p: Entry<V> -> bool, s: seq<Entry<V>>, key: string)
    requires Distinct(s)
    ensures EntryAt(Filter(p, s), key) == if EntryAt(s, key).Some? && p(EntryAt(s, key).value) then EntryAt(s, key)
        else None
    ensures EntryAt(Filter(p, s), key).Some? ==> Following(Filter(p, s), key) == Filter(p, Following(s, key))
    decreases |s|
  {
    if s != [] {
      FilterShows(p, s[1..], key);
      Unfold(p, s);
      if s[0].key == key { EntryAtIs(s[1..], key); }
    }
  }

  lemma {:induction false} FilterIsDistinct<V(!new)>(p: Entry<V> -> bool, s: seq<Entry<V>>)
    requires Distinct(s)
    ensures Distinct(Filter(p, s))
    decreases |s|
  {
    if s != [] {
      FilterIsDistinct(p, s[1..]);
      Unfold(p, s);
      var rest := Filter(p, s[1..]);
      forall j | 0 <= j < |rest| ensures rest[j].key != s[0].key { assert rest[j] in s[1..]; }
    }
  }

  lemma {:induction false} AppendIsDistinct<V(!new)>(s: seq<Entry<V>>, e: Entry<V>)
    requires Distinct(s)
    ensures Distinct(Without(s, e.key) + [e])
  {
    WithoutIsDistinct(s, e.key);
    var rest := Without(s, e.key);
    forall i | 0 <= i < |rest| ensures rest[i].key != e.key { assert rest[i].key in KeysOf(rest); }
  }

  lemma {:induction false} OneEntryToAKey<V(!new)>(s: seq<Entry<V>>, e: Entry<V>)
    requires Distinct(s) && e in s
    ensures EntryAt(s, e.key) == Some(e)
    decreases |s|
  {
    if s[0] != e {
      assert e in s[1..];
      OneEntryToAKey(s[1..], e);
    }
  }

  lemma {:induction false} FollowingIn<V(!new)>(s: seq<Entry<V>>, key: string)
    ensures forall e :: e in Following(s, key) ==> e in s
    decreases |s|
  {
    if s != [] && s[0].key != key { FollowingIn(s[1..], key); }
  }

  // --- The store tells the history -----------------------------------------

  /** What is held under a key is its last entry, unless it was crowded out, and behind it stand the other
      keys stored since. */
  ghost predicate AsTold<V(!new)>(s: seq<Entry<V>>, ops: seq<Op<V>>, key: string, l: Limits) {
    && EntryAt(s, key) == (if NeverCrowdedOut(ops, key, l) then LastEntry(ops, key, l.ttl) else None)
    && (EntryAt(s, key).Some? ==> KeysOf(Following(s, key)) == OthersSince(ops, key, l.ttl))
  }

  /** How the readings of a history change with its last operation. */
  lemma {:induction false} EntryUnfold<V(!new)>(before: seq<Op<V>>, op: Op<V>, key: string, ttl: int)
    ensures LastEntry(before + [op], key, ttl) == NextEntry(LastEntry(before, key, ttl), op, key, ttl)
    ensures OthersSince(before + [op], key, ttl) == match op
      case Store(k, _, _, _) => if k == key then {} else OthersSince(before, key, ttl) + {k}
      case Read(_) => OthersSince(before, key, ttl)
      case Drop(_) => set k | k in OthersSince(before, key, ttl) && LastEntry(before + [op], k, ttl).Some?
  {
    assert (before + [op])[..|before|] == before;
  }

  lemma {:induction false} CrowdUnfold<V(!new)>(before: seq<Op<V>>, op: Op<V>, key: string, l: Limits)
    requires !(op.Store? && op.key == key)
    ensures NeverCrowdedOut(before + [op], key, l) <==> NeverCrowdedOut(before, key, l)
                                                        && |OthersSince(before + [op], key, l.ttl)| < l.max
  {
    var ops := before + [op];
    assert ops[..|before|] == before && ops[..|ops|] == ops;
    assert LastStoreAt(ops, key) == LastStoreAt(before, key);
    forall j | 0 <= j <= |before| ensures ops[..j] == before[..j] {}
    if NeverCrowdedOut(ops, key, l) {
      forall j | LastStoreAt(before, key) <= j <= |before| ensures |OthersSince(before[..j], key, l.ttl)| < l.max {
        assert |OthersSince(ops[..j], key, l.ttl)| < l.max;
      }
      assert |OthersSince(ops[..|ops|], key, l.ttl)| < l.max;
    }
    if NeverCrowdedOut(before, key, l) && |OthersSince(ops, key, l.ttl)| < l.max {
      forall j | LastStoreAt(ops, key) <= j <= |ops| ensures |OthersSince(ops[..j], key, l.ttl)| < l.max {
        if j <= |before| { assert |OthersSince(before[..j], key, l.ttl)| < l.max; }
      }
    }
  }

  lemma {:induction false} OwnCrowd<V(!new)>(before: seq<Op<V>>, op: Op<V>, l: Limits)
    requires op.Store?
    ensures NeverCrowdedOut(before + [op], op.key, l) <==> 0 < l.max
  {
    var ops := before + [op];
    EntryUnfold(before, op, op.key, l.ttl);
    assert LastStoreAt(ops, op.key) == |ops| && ops[..|ops|] == ops;
    if NeverCrowdedOut(ops, op.key, l) { assert |OthersSince(ops[..|ops|], op.key, l.ttl)| < l.max; }
  }

  lemma {:induction false} HistoryUnfold<V(!new)>(before: seq<Op<V>>, op: Op<V>, key: string, l: Limits)
    ensures var ops := before + [op];
      && LastEntry(ops, key, l.ttl) == NextEntry(LastEntry(before, key, l.ttl), op, key, l.ttl)
      && OthersSince(ops, key, l.ttl) == (
          match op
          case Store(k, _, _, _) => if k == key then {} else OthersSince(before, key, l.ttl) + {k}
          case Read(_) => OthersSince(before, key, l.ttl)
          case Drop(_) => set k | k in OthersSince(before, key, l.ttl) && LastEntry(ops, k, l.ttl).Some?)
      && (NeverCrowdedOut(ops, key, l) <==>
            if op.Store? && op.key == key then 0 < l.max
            else NeverCrowdedOut(before, key, l) && |OthersSince(ops, key, l.ttl)| < l.max)
  {
    EntryUnfold(before, op, key, l.ttl);
    if op.Store? && op.key == key { OwnCrowd(before, op, l); } else { CrowdUnfold(before, op, key, l); }
  }

  lemma {:induction false} CountFollowing<V(!new)>(s: seq<Entry<V>>, key: string)
    requires Distinct(s)
    ensures |Following(s, key)| == |KeysOf(Following(s, key))|
  {
    FollowingIsDistinct(s, key);
    FollowingCount(Following(s, key));
  }

  lemma {:induction false} OwnStoreTells<V(!new)>(s: seq<Entry<V>>, before: seq<Op<V>>, op: Op<V>, l: Limits)
    requires Distinct(s) && op.Store?
    ensures AsTold(Stored(s, EntryOf(op, l.ttl), l.max), before + [op], op.key, l)
  {
    var e := EntryOf(op, l.ttl);
    var all := Without(s, e.key) + [e];
    HistoryUnfold(before, op, op.key, l);
    WithoutIsDistinct(s, e.key);
    AppendIsDistinct(s, e);
    EntryAtEnd(Without(s, e.key), e);
    EntryAtIs(all, e.key);
    NewestShows(all, l.max, e.key);
    if l.max > 0 { NewestFollows(all, l.max, e.key); }
    assert KeysOf<V>([]) == {};
  }

  lemma {:induction false} OtherStoreTells<V(!new)>(s: seq<Entry<V>>, before: seq<Op<V>>, op: Op<V>, key: string,
          l: Limits)
    requires Distinct(s) && AsTold(s, before, key, l) && op.Store? && op.key != key
    ensures AsTold(Stored(s, EntryOf(op, l.ttl), l.max), before + [op], key, l)
  {
    var e := EntryOf(op, l.ttl);
    var all := Without(s, e.key) + [e];
    HistoryUnfold(before, op, key, l);
    AppendIsDistinct(s, e);
    EntryAtIs(s, key);
    KeysWithout(s, e);
    EntryAtIs(all, key);
    NewestShows(all, l.max, key);
    if EntryAt(s, key).Some? {
      FollowingKeys(s, e, key);
      CountFollowing(all, key);
      if EntryAt(Newest(all, l.max), key).Some? { NewestFollows(all, l.max, key); }
    }
  }

  lemma {:induction false} DropTells<V(!new)>(s: seq<Entry<V>>, before: seq<Op<V>>, op: Op<V>, key: string, l: Limits)
    requires Distinct(s) && op.Drop? && forall k :: AsTold(s, before, k, l)
    ensures AsTold(Filter(op.keep, s), before + [op], key, l)
  {
    HistoryUnfold(before, op, key, l);
    FilterShows(op.keep, s, key);
    assert AsTold(s, before, key, l);
    if EntryAt(s, key).Some? {
      var others, left := OthersSince(before, key, l.ttl), OthersSince(before + [op], key, l.ttl);
      SmallerSubset(left, others);
      NotCrowdedLast(before, key, l);
      assert NeverCrowdedOut(before + [op], key, l);
      DropKeepsOthers(s, before, op, key, l);
    }
  }

  lemma SmallerSubset(a: set<string>, b: set<string>)
    requires a <= b
    ensures |a| <= |b|
  {
    assert b == a + (b - a);
    assert |a + (b - a)| == |a| + |b - a|;
  }

  lemma NotCrowdedLast<V(!new)>(ops: seq<Op<V>>, key: string, l: Limits)
    requires NeverCrowdedOut(ops, key, l)
    ensures |OthersSince(ops, key, l.ttl)| < l.max
  {
    assert ops[..|ops|] == ops;
    assert |OthersSince(ops[..|ops|], key, l.ttl)| < l.max;
  }

  /** Of the keys behind `key`, a deletion leaves those whose last entry it leaves. */
  lemma {:induction false} DropKeepsOthers<V(!new)>(s: seq<Entry<V>>, before: seq<Op<V>>, op: Op<V>, key: string,
          l: Limits)
    requires Distinct(s) && op.Drop? && EntryAt(s, key).Some? && forall k :: AsTold(s, before, k, l)
    ensures KeysOf(Filter(op.keep, Following(s, key))) == OthersSince(before + [op], key, l.ttl)
  {
    HistoryUnfold(before, op, key, l);
    assert AsTold(s, before, key, l);
    var behind := Following(s, key);
    forall k
      ensures k in KeysOf(Filter(op.keep, behind)) <==> k in KeysOf(behind) && LastEntry(before + [op], k, l.ttl).Some?
    {
      if k in KeysOf(behind) { DropKeepsIff(s, before, op, key, k, l); }
    }
  }

  lemma {:induction false} DropKeepsIff<V(!new)>(s: seq<Entry<V>>, before: seq<Op<V>>, op: Op<V>, key: string,
          k: string, l: Limits)
    requires Distinct(s) && op.Drop? && AsTold(s, before, k, l) && k in KeysOf(Following(s, key))
    ensures k in KeysOf(Filter(op.keep, Following(s, key))) <==> LastEntry(before + [op], k, l.ttl).Some?
  {
    HistoryUnfold(before, op, k, l);
    FollowingIn(s, key);
    var behind := Following(s, key);
    var x :| x in behind && x.key == k;
    OneEntryToAKey(s, x);
    if op.keep(x) { assert x in Filter(op.keep, behind); }
    if k in KeysOf(Filter(op.keep, behind)) {
      var y :| y in Filter(op.keep, behind) && y.key == k;
      OneEntryToAKey(s, y);
    }
  }

  /** Without expiry, the store holds what the history tells. */
  lemma {:induction false} RunIsAsTold<V(!new)>(ops: seq<Op<V>>, key: string, l: Limits)
    ensures Distinct(RunForever([], ops, l)) && AsTold(RunForever([], ops, l), ops, key, l)
    decreases |ops|
  {
    if ops == [] {
      assert KeysOf<V>([]) == {};
    } else {
      var before, op := ops[..|ops| - 1], ops[|ops| - 1];
      assert ops == before + [op];
      RunForeverAppend([], before, op, l);
      var s := RunForever([], before, l);
      RunIsAsTold(before, key, l);
      forall k ensures AsTold(s, before, k, l) { RunIsAsTold(before, k, l); }
      StepIsAsTold(s, before, op, key, l);
    }
  }

  lemma {:induction false} StepIsAsTold<V(!new)>(s: seq<Entry<V>>, before: seq<Op<V>>, op: Op<V>, key: string,
          l: Limits)
    requires Distinct(s) && forall k :: AsTold(s, before, k, l)
    ensures Distinct(ApplyForever(s, op, l)) && AsTold(ApplyForever(s, op, l), before + [op], key, l)
  {
    match op
    case Store(_, _, _, _) =>
      AppendIsDistinct(s, EntryOf(op, l.ttl));
      if op.key == key { OwnStoreTells(s, before, op, l); } else { OtherStoreTells(s, before, op, key, l); }
    case Read(_) =>
      HistoryUnfold(before, op, key, l);
      assert AsTold(s, before, key, l);
      if NeverCrowdedOut(before, key, l) { NotCrowdedLast(before, key, l); }
    case Drop(keep) =>
      FilterIsDistinct(keep, s);
      DropTells(s, before, op, key, l);
  }

  /** Under a monotone clock a read returns the last value stored under its key exactly when it was not dropped
      since, it has not reached its time to live, and at no moment since as many other keys as the capacity
      stood that were stored after it. */
  lemma {:induction false} RemembersTheLastStore<V(!new)>(ops: seq<Op<V>>, t: int, now: int, l: Limits, key: string)
    requires l.ttl > 0 && Monotone(ops, t) && EndOf(ops, t) <= now
    ensures Find(Live(Run([], ops, l), now), key) == match LastEntry(ops, key, l.ttl)
      case None => None
      case Some(e) => if e.expiresAt > now && NeverCrowdedOut(ops, key, l) then Some(e.value) else None
    ensures |Live(Run([], ops, l), now)| <= l.max
  {
    ExpiryOnlyHides([], [], ops, t, t, now, l);
    FilterShrinks(IsLive(now), Run([], ops, l));
    var held := RunForever([], ops, l);
    RunIsAsTold(ops, key, l);
    FilterShows(IsLive(now), held, key);
    EntryAtIs(Live(held, now), key);
  }

  // --- A store without deletions -------------------------------------------

  ghost predicate OnlyStores<V(!new)>(ops: seq<Op<V>>) {
    forall i :: 0 <= i < |ops| ==> !ops[i].Drop?
  }

  /** Without deletions it is enough to count the other keys stored since. */
  lemma {:induction false} CrowdsOnlyGrow<V(!new)>(ops: seq<Op<V>>, key: string, l: Limits)
    requires OnlyStores(ops)
    ensures NeverCrowdedOut(ops, key, l) <==> |OthersSince(ops, key, l.ttl)| < l.max
    decreases |ops|
  {
    if ops == [] {
      assert ops[..0] == ops;
    } else {
      var before, op := ops[..|ops| - 1], ops[|ops| - 1];
      assert ops == before + [op];
      CrowdsOnlyGrow(before, key, l);
      HistoryUnfold(before, op, key, l);
      if !(op.Store? && op.key == key) { SmallerSubset(OthersSince(before, key, l.ttl), OthersSince(ops, key, l.ttl)); }
    }
  }
}
