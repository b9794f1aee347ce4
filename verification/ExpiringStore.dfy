/**
 The bounded, expiring stores of the server: the relay of discovery payloads and the reveal preparations
 kept in memory.  Both keep a map in insertion order; here that map is a list of entries with distinct
 keys, oldest first.
 */
module ExpiringStore {
  import opened Outcomes
  import opened StableSort

  datatype Entry<V> = Entry(key: string, value: V, expiresAt: int)

  function IsLive<V>(now: int): Entry<V> -> bool {
    (e: Entry<V>) => e.expiresAt > now
  }

  function IsOther<V>(key: string): Entry<V> -> bool {
    (e: Entry<V>) => e.key != key
  }

  function Live<V(!new)>(s: seq<Entry<V>>, now: int): seq<Entry<V>> {
    Filter(IsLive(now), s)
  }

  function Without<V(!new)>(s: seq<Entry<V>>, key: string): seq<Entry<V>> {
    Filter(IsOther(key), s)
  }

  function Newest<V>(s: seq<Entry<V>>, max: nat): seq<Entry<V>> {
    if |s| > max then s[|s| - max..] else s
  }

  /** A stored entry goes to the end; beyond the capacity the oldest goes. */
  function Stored<V(!new)>(s: seq<Entry<V>>, e: Entry<V>, max: nat): seq<Entry<V>> {
    Newest(Without(s, e.key) + [e], max)
  }

  /** Stores, reads and deletions.  A store reads the clock twice: to sweep, and to stamp its entry. */
  datatype Op<!V> =
    | Store(key: string, value: V, swept: int, at: int)
    | Read(at: int)
    | Drop(keep: Entry<V> -> bool)

  /** Limits of a store. */
  datatype Limits = Limits(ttl: int, max: nat)

  function EntryOf<V>(op: Op<V>, ttl: int): Entry<V>
    requires op.Store?
  {
    Entry(op.key, op.value, op.at + ttl)
  }

  /** One operation, which sweeps first if it is a store or a read. */
  function Apply<V(!new)>(s: seq<Entry<V>>, op: Op<V>, l: Limits): seq<Entry<V>> {
    match op
    case Store(_, _, swept, _) => Stored(Live(s, swept), EntryOf(op, l.ttl), l.max)
    case Read(at) => Live(s, at)
    case Drop(keep) => Filter(keep, s)
  }

  function Find<V>(s: seq<Entry<V>>, key: string): (r: Option<V>)
    ensures r.None? <==> forall i :: 0 <= i < |s| ==> s[i].key != key
  {
    if s == [] then None else if s[0].key == key then Some(s[0].value) else Find(s[1..], key)
  }

  /** The loop behind every sweep: look at each entry once, in order. */
  method Keep<V(!new)>(s: seq<Entry<V>>, keep: Entry<V> -> bool) returns (kept: seq<Entry<V>>)
    ensures kept == Filter(keep, s)
  {
    kept := [];
    for i := 0 to |s|
      invariant kept == Filter(keep, s[..i])
    {
      assert s[..i + 1] == s[..i] + [s[i]];
      FilterAppend(keep, s[..i], [s[i]]);
      assert [s[i]][1..] == [];
      if keep(s[i]) { kept := kept + [s[i]]; }
    }
    assert s[..|s|] == s;
  }

  /** Delete the oldest entry while there are too many. */
  method Evict<V>(all: seq<Entry<V>>, max: nat) returns (kept: seq<Entry<V>>)
    ensures kept == Newest(all, max)
  {
    kept := all;
    while |kept| > max
      invariant |kept| <= |all| && kept == all[|all| - |kept|..]
      invariant if |all| > max then |kept| >= max else kept == all
    {
      kept := kept[1..];
    }
  }

  datatype StoreError = PayloadTooLarge

  class RelayStore<V(!new)> {
    const maxEntries: nat
    const maxPayloadBytes: int
    const ttlMs: int
    var entries: seq<Entry<V>>

    constructor (maxEntries: nat, maxPayloadBytes: int, ttlMs: int)
      ensures this.maxEntries == maxEntries && this.maxPayloadBytes == maxPayloadBytes && this.ttlMs == ttlMs
      ensures entries == []
    {
      this.maxEntries := maxEntries;
      this.maxPayloadBytes := maxPayloadBytes;
      this.ttlMs := ttlMs;
      entries := [];
    }

    method Sweep(now: int)
      modifies this`entries
      ensures entries == Live(old(entries), now)
    {
      entries := Keep(entries, IsLive(now));
    }

    /** `swept` is the clock when the call begins, `now` when it stamps the entry. */
    method Set(id: string, value: V, size: int, swept: int, now: int) returns (r: Result<(), StoreError>)
      modifies this`entries
      ensures r.Ok? <==> size <= maxPayloadBytes
      ensures entries == Apply(old(entries), if r.Ok? then Store(id, value, swept, now) else Read(swept),
          Limits(ttlMs, maxEntries))
    {
      Sweep(swept);
      if size > maxPayloadBytes { return Err(PayloadTooLarge); }
      entries := Without(entries, id) + [Entry(id, value, now + ttlMs)];
      entries := Evict(entries, maxEntries);
      return Ok(());
    }

    method Get(id: string, now: int) returns (r: Option<V>)
      modifies this`entries
      ensures entries == Apply(old(entries), Read(now), Limits(ttlMs, maxEntries)) && r == Find(entries, id)
    {
      Sweep(now);
      return Find(entries, id);
    }

    method Size(now: int) returns (n: nat)
      modifies this`entries
      ensures entries == Apply(old(entries), Read(now), Limits(ttlMs, maxEntries)) && n == |entries|
    {
      Sweep(now);
      return |entries|;
    }
  }

  /** A reveal preparation, as far as its store looks at it. */
  datatype Preparation = Preparation(game: string, body: string)

  function IsOfOther(game: string): Entry<Preparation> -> bool {
    (e: Entry<Preparation>) => e.value.game != game
  }

  class EphemeralPreparations {
    const maxEntries: nat
    const ttlMs: int
    var entries: seq<Entry<Preparation>>

    constructor (ttlMs: int, maxEntries: nat)
      ensures this.maxEntries == maxEntries && this.ttlMs == ttlMs && entries == []
    {
      this.maxEntries := maxEntries;
      this.ttlMs := ttlMs;
      entries := [];
    }

    method Save(preparedHash: string, record: Preparation, swept: int, now: int)
      modifies this`entries
      ensures entries == Apply(old(entries), Store(preparedHash, record, swept, now), Limits(ttlMs, maxEntries))
    {
      entries := Keep(entries, IsLive(swept));
      entries := Without(entries, preparedHash) + [Entry(preparedHash, record, now + ttlMs)];
      entries := Evict(entries, maxEntries);
    }

    method Load(preparedHash: string, now: int) returns (r: Option<Preparation>)
      modifies this`entries
      ensures entries == Apply(old(entries), Read(now), Limits(ttlMs, maxEntries)) && r == Find(entries, preparedHash)
    {
      entries := Keep(entries, IsLive(now));
      return Find(entries, preparedHash);
    }

    method Size(now: int) returns (n: nat)
      modifies this`entries
      ensures entries == Apply(old(entries), Read(now), Limits(ttlMs, maxEntries)) && n == |entries|
    {
      entries := Keep(entries, IsLive(now));
      return |entries|;
    }

    method Delete(preparedHash: string)
      modifies this`entries
      ensures entries == Apply(old(entries), Drop(IsOther(preparedHash)), Limits(ttlMs, maxEntries))
    {
      entries := Filter(IsOther(preparedHash), entries);
    }

    method DeleteForGame(game: string)
      modifies this`entries
      ensures entries == Apply(old(entries), Drop(IsOfOther(game)), Limits(ttlMs, maxEntries))
      ensures forall e :: e in entries <==> e in old(entries) && e.value.game != game
    {
      entries := Keep(entries, IsOfOther(game));
    }
  }
}
