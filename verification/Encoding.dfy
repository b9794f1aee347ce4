/**
 The byte strings the protocol hashes or puts into scripts, with the decoders that read them back:
 the genesis covenant preimage, the 40-byte commitment preimage, and script data pushes.
 The hash itself is injective, so equal hashes mean equal byte strings.
 */
module Encoding {
  import opened Outcomes

  type Byte = b: int | 0 <= b < 256

  // --- Fixed-width little-endian integers ----------------------------------

  function Pow256(width: nat): (p: nat)
    ensures p > 0
  {
    if width == 0 then 1 else 256 * Pow256(width - 1)
  }

  /** The low `width` bytes, least significant first: a shift drops the low byte, also of a negative. */
  function LittleEndian(value: int, width: nat): (r: seq<Byte>)
    ensures |r| == width
    decreases width
  {
    if width == 0 then [] else [value % 256] + LittleEndian(value / 256, width - 1)
  }

  function FromLittleEndian(bytes: seq<Byte>): nat {
    if bytes == [] then 0 else bytes[0] + 256 * FromLittleEndian(bytes[1..])
  }

  /** The bytes determine every value that fits. */
  lemma {:induction false} BytesReadBack(value: nat, width: nat)
    requires value < Pow256(width)
    ensures FromLittleEndian(LittleEndian(value, width)) == value
    decreases width
  {
    if width > 0 {
      BytesReadBack(value / 256, width - 1);
    }
  }

  const U16: nat := 0x1_0000
  const U32: nat := 0x1_0000_0000
  const U64: nat := 0x1_0000_0000_0000_0000

  lemma Widths()
    ensures Pow256(2) == U16 && Pow256(4) == U32 && Pow256(8) == U64
  {
    assert Pow256(1) == 256 * Pow256(0);
    assert Pow256(2) == 256 * Pow256(1);
    assert Pow256(3) == 256 * Pow256(2);
    assert Pow256(4) == 256 * Pow256(3);
    assert Pow256(5) == 256 * Pow256(4);
    assert Pow256(6) == 256 * Pow256(5);
    assert Pow256(7) == 256 * Pow256(6);
    assert Pow256(8) == 256 * Pow256(7);
  }

  /** The byte loop behind the 64-bit encodings. */
  method EncodeFixed(value: int, width: nat) returns (out: array<Byte>)
    ensures fresh(out) && out[..] == LittleEndian(value, width)
  {
    out := new Byte[width];
    var remaining := value;
    for i := 0 to width
      invariant out[..i] + LittleEndian(remaining, width - i) == LittleEndian(value, width)
    {
      ghost var done := out[..i];
      var low: Byte := remaining % 256;
      out[i] := low;
      remaining := remaining / 256;
      assert out[..i + 1] == done + [low];
      assert done + ([low] + LittleEndian(remaining, width - i - 1))
          == (done + [low]) + LittleEndian(remaining, width - i - 1);
    }
    assert out[..] == out[..width] + LittleEndian(remaining, 0);
  }

  // --- The genesis covenant preimage ---------------------------------------

  datatype Funding = Funding(txId: seq<Byte>, index: int)

  /** An authorised output: its index, its value, and its versioned script as given. */
  datatype Authorized = Authorized(index: int, value: int, scriptPublicKey: seq<Byte>)

  datatype EncodingError = InvalidTransaction | InvalidCovenantBinding | InvalidScript

  function Version(scriptPublicKey: seq<Byte>): int
    requires |scriptPublicKey| >= 2
  {
    var high: int, low: int := scriptPublicKey[0], scriptPublicKey[1];
    256 * high + low
  }

  /** The two version bytes change order on the way into the preimage. */
  function VersionBytes(scriptPublicKey: seq<Byte>): seq<Byte>
    requires |scriptPublicKey| >= 2
  {
    LittleEndian(Version(scriptPublicKey), 2)
  }

  /** 32-bit operators see only the low 32 bits of an index. */
  function Header(e: Authorized): (r: seq<Byte>)
    requires |e.scriptPublicKey| >= 2
    ensures |r| == 22
  {
    LittleEndian(e.index % U32, 4) + LittleEndian(e.value,
        8) + VersionBytes(e.scriptPublicKey) + LittleEndian(|e.scriptPublicKey| - 2, 8)
  }

  function Chunks(entries: seq<Authorized>, previous: int): Result<seq<Byte>, EncodingError>
    decreases |entries|
  {
    if entries == [] then Ok([])
    else if entries[0].index <= previous then Err(InvalidCovenantBinding)
    else if |entries[0].scriptPublicKey| < 2 || !(0 <= entries[0].value < U64) then Err(InvalidTransaction)
    else match Chunks(entries[1..], entries[0].index)
      case Err(e) => Err(e)
      case Ok(rest) => Ok(Header(entries[0]) + entries[0].scriptPublicKey[2..] + rest)
  }

  function Preimage(funding: Funding, entries: seq<Authorized>): Result<seq<Byte>, EncodingError> {
    if |funding.txId| != 32 || !(0 <= funding.index < U32) then Err(InvalidTransaction)
    else if entries == [] then Err(InvalidCovenantBinding)
    else match Chunks(entries, -1)
      case Err(e) => Err(e)
      case Ok(chunks) => Ok(funding.txId + LittleEndian(funding.index, 4) + LittleEndian(|entries|, 8) + chunks)
  }

  /** `chunks` is what the whole list has left when it comes to `rest`. */
  predicate Leaves(all: Result<seq<Byte>, EncodingError>, chunks: seq<Byte>, rest: Result<seq<Byte>, EncodingError>) {
    if all.Err? then rest == all else rest.Ok? && all.value == chunks + rest.value
  }

  lemma LeavesAppend(all: Result<seq<Byte>, EncodingError>, chunks: seq<Byte>, head: seq<Byte>, tail: seq<Byte>,
          rest: Result<seq<Byte>, EncodingError>)
    requires if all.Err? then rest == all else rest.Ok? && all.value == chunks + (head + tail + rest.value)
    ensures Leaves(all, chunks + head + tail, rest)
  {
    if all.Ok? { assert chunks + (head + tail + rest.value) == chunks + head + tail + rest.value; }
  }

  lemma ChunksUnfold(entries: seq<Authorized>, previous: int)
    requires entries != [] && entries[0].index > previous && |entries[0].scriptPublicKey| >= 2
    requires 0 <= entries[0].value < U64
    ensures var rest := Chunks(entries[1..], entries[0].index);
      Chunks(entries, previous) == if rest.Err? then rest
          else Ok(Header(entries[0]) + entries[0].scriptPublicKey[2..] + rest.value)
  {
  }

  /** The chunk-pushing loop of the source. */
  method CovenantPreimage(funding: Funding, entries: seq<Authorized>) returns (r: Result<seq<Byte>, EncodingError>)
    ensures r == Preimage(funding, entries)
  {
    if |funding.txId| != 32 || !(0 <= funding.index < U32) { return Err(InvalidTransaction); }
    if entries == [] { return Err(InvalidCovenantBinding); }
    var chunks: seq<Byte> := [];
    var previous := -1;
    for i := 0 to |entries|
      invariant Leaves(Chunks(entries, -1), chunks, Chunks(entries[i..], previous))
    {
      var entry := entries[i];
      assert entries[i..][0] == entry && entries[i..][1..] == entries[i + 1..];
      if entry.index <= previous { return Err(InvalidCovenantBinding); }
      if |entry.scriptPublicKey| < 2 || !(0 <= entry.value < U64) { return Err(InvalidTransaction); }
      ChunksUnfold(entries[i..], previous);
      LeavesAppend(Chunks(entries, -1), chunks, Header(entry), entry.scriptPublicKey[2..],
          Chunks(entries[i + 1..], entry.index));
      previous := entry.index;
      chunks := chunks + Header(entry) + entry.scriptPublicKey[2..];
    }
    assert Chunks([], previous) == Ok([]) && chunks + [] == chunks;
    return Ok(funding.txId + LittleEndian(funding.index, 4) + LittleEndian(|entries|, 8) + chunks);
  }

  // --- Reading it back -----------------------------------------------------

  function SizeIn(header: seq<Byte>): nat
    requires |header| == 22
  {
    FromLittleEndian(header[14..22])
  }

  function EntryFrom(header: seq<Byte>, script: seq<Byte>): Authorized
    requires |header| == 22
  {
    Authorized(FromLittleEndian(header[..4]), FromLittleEndian(header[4..12]), [header[13], header[12]] + script)
  }

  function ReadEntries(bytes: seq<Byte>, count: nat): Option<seq<Authorized>>
    decreases count
  {
    if count == 0 then if bytes == [] then Some([]) else None
    else if |bytes| < 22 || |bytes| < 22 + SizeIn(bytes[..22]) then None
    else
      var end := 22 + SizeIn(bytes[..22]);
      match ReadEntries(bytes[end..], count - 1)
      case None => None
      case Some(rest) => Some([EntryFrom(bytes[..22], bytes[22..end])] + rest)
  }

  function ReadPreimage(bytes: seq<Byte>): Option<(Funding, seq<Authorized>)> {
    if |bytes| < 44 then None
    else match ReadEntries(bytes[44..], FromLittleEndian(bytes[36..44]))
      case None => None
      case Some(entries) => Some((Funding(bytes[..32], FromLittleEndian(bytes[32..36])), entries))
  }

  /** What is left of an index in 32 bits. */
  function Wrapped(e: Authorized): Authorized {
    e.(index := e.index % U32)
  }

  function WrappedAll(entries: seq<Authorized>): (r: seq<Authorized>)
    ensures |r| == |entries| && forall i :: 0 <= i < |r| ==> r[i] == Wrapped(entries[i])
  {
    if entries == [] then [] else [Wrapped(entries[0])] + WrappedAll(entries[1..])
  }

  /** Lengths fit in the 64 bits they are written in. */
  predicate Sized(entries: seq<Authorized>) {
    |entries| < U64 && forall i :: 0 <= i < |entries| ==> |entries[i].scriptPublicKey| < U64
  }

  lemma VersionReadsBack(scriptPublicKey: seq<Byte>)
    requires |scriptPublicKey| >= 2
    ensures VersionBytes(scriptPublicKey) == [scriptPublicKey[1], scriptPublicKey[0]]
  {
    var v := Version(scriptPublicKey);
    assert v % 256 == scriptPublicKey[1] && v / 256 == scriptPublicKey[0];
    assert LittleEndian(v, 2) == [v % 256] + LittleEndian(v / 256, 1);
    assert LittleEndian(v / 256, 1) == [(v / 256) % 256] + LittleEndian(v / 256 / 256, 0);
  }

  lemma FieldsReadBack(e: Authorized)
    requires |e.scriptPublicKey| >= 2 && 0 <= e.value < U64 && |e.scriptPublicKey| < U64
    ensures FromLittleEndian(LittleEndian(e.index % U32, 4)) == e.index % U32
    ensures FromLittleEndian(LittleEndian(e.value, 8)) == e.value
    ensures FromLittleEndian(LittleEndian(|e.scriptPublicKey| - 2, 8)) == |e.scriptPublicKey| - 2
  {
    Widths();
    BytesReadBack(e.index % U32, 4);
    BytesReadBack(e.value, 8);
    BytesReadBack(|e.scriptPublicKey| - 2, 8);
  }

  lemma FourSlices(a: seq<Byte>, b: seq<Byte>, c: seq<Byte>, d: seq<Byte>)
    requires |a| == 4 && |b| == 8 && |c| == 2 && |d| == 8
    ensures (a + b + c + d)[..4] == a && (a + b + c + d)[4..12] == b
    ensures (a + b + c + d)[12] == c[0] && (a + b + c + d)[13] == c[1]
    ensures (a + b + c + d)[14..22] == d
  {
  }

  lemma {:induction false} PartsReadBack(a: seq<Byte>, b: seq<Byte>, c: seq<Byte>, d: seq<Byte>, script: seq<Byte>)
    requires |a| == 4 && |b| == 8 && |c| == 2 && |d| == 8
    ensures EntryFrom(a + b + c + d, script) == Authorized(FromLittleEndian(a), FromLittleEndian(b),
        [c[1], c[0]] + script)
    ensures SizeIn(a + b + c + d) == FromLittleEndian(d)
  {
    FourSlices(a, b, c, d);
  }

  lemma {:induction false} HeaderReadsBack(e: Authorized)
    requires |e.scriptPublicKey| >= 2 && 0 <= e.value < U64 && |e.scriptPublicKey| < U64
    ensures EntryFrom(Header(e), e.scriptPublicKey[2..]) == Wrapped(e)
    ensures SizeIn(Header(e)) == |e.scriptPublicKey| - 2
  {
    PartsReadBack(LittleEndian(e.index % U32, 4), LittleEndian(e.value, 8), VersionBytes(e.scriptPublicKey),
                  LittleEndian(|e.scriptPublicKey| - 2, 8), e.scriptPublicKey[2..]);
    FieldsReadBack(e);
    VersionReadsBack(e.scriptPublicKey);
    assert [e.scriptPublicKey[0], e.scriptPublicKey[1]] + e.scriptPublicKey[2..] == e.scriptPublicKey;
  }

  lemma Slices(a: seq<Byte>, b: seq<Byte>, c: seq<Byte>)
    ensures (a + b + c)[..|a|] == a
    ensures (a + b + c)[|a|..|a| + |b|] == b
    ensures (a + b + c)[|a| + |b|..] == c
  {
  }

  lemma {:induction false} OneReadsBack(header: seq<Byte>, script: seq<Byte>, rest: seq<Byte>, count: nat,
          entries: seq<Authorized>)
    requires |header| == 22 && SizeIn(header) == |script| && ReadEntries(rest, count) == Some(entries)
    ensures ReadEntries(header + script + rest, count + 1) == Some([EntryFrom(header, script)] + entries)
  {
    Slices(header, script, rest);
  }

  lemma {:induction false} EntriesReadBack(entries: seq<Authorized>, previous: int, bytes: seq<Byte>)
    requires Sized(entries) && Chunks(entries, previous) == Ok(bytes)
    ensures ReadEntries(bytes, |entries|) == Some(WrappedAll(entries))
    decreases |entries|
  {
    if entries != [] {
      var rest := TailChunks(entries, previous, bytes);
      EntriesReadBack(entries[1..], entries[0].index, rest);
      OneMoreReadsBack(entries, rest);
    }
  }

  lemma {:induction false} OneMoreReadsBack(entries: seq<Authorized>, rest: seq<Byte>)
    requires entries != [] && 2 <= |entries[0].scriptPublicKey| < U64 && 0 <= entries[0].value < U64
    requires ReadEntries(rest, |entries[1..]|) == Some(WrappedAll(entries[1..]))
    ensures ReadEntries(Header(entries[0]) + entries[0].scriptPublicKey[2..] + rest, |entries|)
        == Some(WrappedAll(entries))
  {
    EntryThenRest(entries[0], rest, |entries| - 1, WrappedAll(entries[1..]));
  }

  lemma TailChunks(entries: seq<Authorized>, previous: int, bytes: seq<Byte>) returns (rest: seq<Byte>)
    requires entries != [] && Chunks(entries, previous) == Ok(bytes)
    ensures |entries[0].scriptPublicKey| >= 2 && 0 <= entries[0].value < U64
    ensures Chunks(entries[1..], entries[0].index) == Ok(rest)
    ensures bytes == Header(entries[0]) + entries[0].scriptPublicKey[2..] + rest
  {
    rest := Chunks(entries[1..], entries[0].index).value;
  }

  lemma {:induction false} EntryThenRest(e: Authorized, rest: seq<Byte>, count: nat, entries: seq<Authorized>)
    requires 2 <= |e.scriptPublicKey| < U64 && 0 <= e.value < U64 && ReadEntries(rest, count) == Some(entries)
    ensures ReadEntries(Header(e) + e.scriptPublicKey[2..] + rest, count + 1) == Some([Wrapped(e)] + entries)
  {
    HeaderReadsBack(e);
    OneReadsBack(Header(e), e.scriptPublicKey[2..], rest, count, entries);
  }

  lemma {:induction false} FrontReadsBack(funding: Funding, count: nat, chunks: seq<Byte>)
    requires |funding.txId| == 32 && 0 <= funding.index < U32 && count < U64
    ensures var bytes := funding.txId + LittleEndian(funding.index, 4) + LittleEndian(count, 8) + chunks;
      && bytes[..32] == funding.txId && FromLittleEndian(bytes[32..36]) == funding.index
      && FromLittleEndian(bytes[36..44]) == count && bytes[44..] == chunks
  {
    Widths();
    BytesReadBack(funding.index, 4);
    BytesReadBack(count, 8);
    var front := funding.txId + LittleEndian(funding.index, 4);
    Slices(funding.txId, LittleEndian(funding.index, 4), LittleEndian(count, 8) + chunks);
    Slices(front, LittleEndian(count, 8), chunks);
    assert front + LittleEndian(count, 8) + chunks == front + (LittleEndian(count, 8) + chunks);
  }

  /** A decoder recovers the outpoint and every authorised output, its index up to 32 bits. */
  lemma {:induction false} PreimageReadsBack(funding: Funding, entries: seq<Authorized>)
    requires Sized(entries) && Preimage(funding, entries).Ok?
    ensures ReadPreimage(Preimage(funding, entries).value) == Some((funding, WrappedAll(entries)))
  {
    FrontReadsBack(funding, |entries|, Chunks(entries, -1).value);
    EntriesReadBack(entries, -1, Chunks(entries, -1).value);
  }

  lemma {:induction false} ChunksForgetHighBits(a: seq<Authorized>, p: int, b: seq<Authorized>, q: int)
    requires Chunks(a, p).Ok? && Chunks(b, q).Ok? && WrappedAll(a) == WrappedAll(b)
    ensures Chunks(a, p) == Chunks(b, q)
    decreases |a|
  {
    if a != [] {
      assert Wrapped(a[0]) == WrappedAll(a)[0] == WrappedAll(b)[0] == Wrapped(b[0]);
      assert WrappedAll(a[1..]) == WrappedAll(a)[1..] == WrappedAll(b)[1..] == WrappedAll(b[1..]);
      assert Header(a[0]) == Header(b[0]);
      ChunksForgetHighBits(a[1..], a[0].index, b[1..], b[0].index);
    }
  }

  /** Exactly when two authorisations get one covenant id: same outpoint, and the same outputs with
      indices that agree in their low 32 bits.  An index is only required to be an integer. */
  lemma {:induction false} SameCovenantIff(f: Funding, a: seq<Authorized>, g: Funding, b: seq<Authorized>)
    requires Sized(a) && Sized(b) && Preimage(f, a).Ok? && Preimage(g, b).Ok?
    ensures Preimage(f, a) == Preimage(g, b) <==> f == g && WrappedAll(a) == WrappedAll(b)
  {
    PreimageReadsBack(f, a);
    PreimageReadsBack(g, b);
    if f == g && WrappedAll(a) == WrappedAll(b) {
      ChunksForgetHighBits(a, -1, b, -1);
    }
  }

  predicate SmallIndices(entries: seq<Authorized>) {
    forall i :: 0 <= i < |entries| ==> 0 <= entries[i].index < U32
  }

  /** With indices below 2^32, different authorisations have different preimages. */
  lemma {:induction false} SmallIndicesTell(f: Funding, a: seq<Authorized>, g: Funding, b: seq<Authorized>)
    requires Sized(a) && Sized(b) && Preimage(f, a).Ok? && Preimage(g, b).Ok? && SmallIndices(a) && SmallIndices(b)
    ensures Preimage(f, a) == Preimage(g, b) <==> f == g && a == b
  {
    SameCovenantIff(f, a, g, b);
    SmallIndicesStay(a);
    SmallIndicesStay(b);
  }

  lemma WrappedSmall(e: Authorized)
    requires 0 <= e.index < U32
    ensures Wrapped(e) == e
  {
  }

  lemma {:induction false} SmallIndicesStay(entries: seq<Authorized>)
    requires SmallIndices(entries)
    ensures WrappedAll(entries) == entries
  {
    if entries != [] {
      SmallIndicesStay(entries[1..]);
      WrappedSmall(entries[0]);
      assert entries == [entries[0]] + entries[1..];
    }
  }

  /** Two different authorisations with one covenant id. */
  lemma {:induction false} CovenantIdsCollide(funding: Funding, value: int, script: seq<Byte>)
    requires |funding.txId| == 32 && 0 <= funding.index < U32 && 2 <= |script| < U64 && 0 <= value < U64
    ensures Preimage(funding, [Authorized(0, value, script)]).Ok?
    ensures Preimage(funding, [Authorized(0, value, script)]) == Preimage(funding, [Authorized(U32, value, script)])
  {
    var a, b := [Authorized(0, value, script)], [Authorized(U32, value, script)];
    assert a[1..] == [] && b[1..] == [];
    assert Chunks([], 0) == Ok([]) && Chunks([], U32) == Ok([]);
    assert Chunks(a, -1).Ok? && Chunks(b, -1).Ok?;
    SameCovenantIff(funding, a, funding, b);
  }

  /** The creation path authorises output zero only, and there the id is unique. */
  lemma {:induction false} GenesisCovenantIsUnique(f: Funding, v: int, s: seq<Byte>, g: Funding, w: int, t: seq<Byte>)
    requires Preimage(f, [Authorized(0, v, s)]).Ok? && Preimage(g, [Authorized(0, w, t)]).Ok? && |s| < U64 && |t| < U64
    ensures Preimage(f, [Authorized(0, v, s)]) == Preimage(g, [Authorized(0, w, t)]) <==> f == g && v == w && s == t
  {
    SameCovenantIff(f, [Authorized(0, v, s)], g, [Authorized(0, w, t)]);
    var a, b := WrappedAll([Authorized(0, v, s)]), WrappedAll([Authorized(0, w, t)]);
    assert a[0] == Authorized(0, v, s) && b[0] == Authorized(0, w, t);
  }

  // --- The commitment preimage ---------------------------------------------

  /** A choice as a 64-bit integer, then the 32-byte nonce. */
  function RevealPreimage(choice: int, nonce: seq<Byte>): Option<seq<Byte>> {
    if choice != 0 && choice != 1 then None
    else if |nonce| != 32 then None
    else Some(LittleEndian(choice, 8) + nonce)
  }

  lemma RevealPreimageIff(choice: int, nonce: seq<Byte>)
    ensures RevealPreimage(choice, nonce).Some? <==> (choice == 0 || choice == 1) && |nonce| == 32
  {
  }

  /** A commitment preimage is 40 bytes and binds exactly one choice and one nonce. */
  lemma {:induction false} RevealPreimageBinds(choice: int, nonce: seq<Byte>, other: int, otherNonce: seq<Byte>)
    requires RevealPreimage(choice, nonce).Some? && RevealPreimage(other, otherNonce).Some?
    ensures |RevealPreimage(choice, nonce).value| == 40
    ensures RevealPreimage(choice, nonce).value == [choice, 0, 0, 0, 0, 0, 0, 0] + nonce
    ensures choice == 0 || choice == 1
    ensures RevealPreimage(choice, nonce) == RevealPreimage(other, otherNonce) <==> choice == other
                                                                                    && nonce == otherNonce
  {
    var p, q := RevealPreimage(choice, nonce).value, RevealPreimage(other, otherNonce).value;
    SmallInteger(choice);
    SmallInteger(other);
    assert p[0] == choice && q[0] == other;
    assert p[8..] == nonce && q[8..] == otherNonce;
  }

  lemma {:induction false} ZeroBytes(width: nat)
    ensures LittleEndian(0, width) == seq(width, i => 0)
    decreases width
  {
    if width > 0 { ZeroBytes(width - 1); }
  }

  lemma {:induction false} SmallInteger(n: int)
    requires n == 0 || n == 1
    ensures LittleEndian(n, 8) == [n, 0, 0, 0, 0, 0, 0, 0]
  {
    ZeroBytes(7);
    assert LittleEndian(n, 8) == [n % 256] + LittleEndian(n / 256, 7);
  }

  // --- Script data pushes --------------------------------------------------

  const OP_PUSHDATA2: Byte := 77

  function Push(data: seq<Byte>): Result<seq<Byte>, EncodingError> {
    if data == [] then Err(InvalidScript)
    else if |data| <= 75 then Ok([|data|] + data)
    else if |data| <= 0xffff then Ok([OP_PUSHDATA2] + LittleEndian(|data|, 2) + data)
    else Err(InvalidScript)
  }

  /** How a script is read: one push off the front. */
  function ReadPush(script: seq<Byte>): Option<(seq<Byte>, seq<Byte>)> {
    if script == [] then None
    else if 1 <= script[0] <= 75 then
      if |script| < 1 + script[0] then None else Some((script[1..1 + script[0]], script[1 + script[0]..]))
    else if script[0] == OP_PUSHDATA2 && |script| >= 3 then
      var size := FromLittleEndian(script[1..3]);
      if |script| < 3 + size then None else Some((script[3..3 + size], script[3 + size..]))
    else None
  }

  /** A push is read back whole, whatever follows it; only empty and oversized data are refused. */
  lemma {:induction false} PushReadsBack(data: seq<Byte>, rest: seq<Byte>)
    ensures Push(data).Ok? <==> 1 <= |data| <= 0xffff
    ensures Push(data).Ok? ==>
      Push(data).value == (if |data| <= 75 then [|data|] else [77, |data| % 256, |data| / 256]) + data
    ensures Push(data).Ok? ==> ReadPush(Push(data).value + rest) == Some((data, rest))
  {
    if Push(data).Ok? {
      var script := Push(data).value + rest;
      if |data| <= 75 {
        assert script[1..1 + |data|] == data && script[1 + |data|..] == rest;
      } else {
        Widths();
        BytesReadBack(|data|, 2);
        assert LittleEndian(|data|, 2) == [|data| % 256] + LittleEndian(|data| / 256, 1);
        assert LittleEndian(|data| / 256, 1) == [|data| / 256 % 256] + LittleEndian(|data| / 256 / 256, 0);
        assert script[1..3] == LittleEndian(|data|, 2);
        assert script[3..3 + |data|] == data && script[3 + |data|..] == rest;
      }
    }
  }
}
