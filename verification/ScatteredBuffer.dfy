/** The chunked output stream under every protozero message: a writer that fills one contiguous range
    at a time, and the heap buffer that hands it ranges and stitches them together at the end. */
module ScatteredBuffer {
  import opened Wire

  // ---- The flat log that the slices stand for ---------------------------------------------------

  /** The used bytes of all slices, one after the other. */
  function Flatten(used: seq<seq<byte>>): seq<byte> {
    if used == [] then [] else Flatten(used[..|used| - 1]) + used[|used| - 1]
  }

  /** Where in the log slice `i` begins. */
  function Start(used: seq<seq<byte>>, i: nat): nat
    requires i <= |used|
  {
    |Flatten(used[..i])|
  }

  /** `later` is a state the stream can be in after `earlier`: no byte moves in the log. */
  predicate Keeps(earlier: seq<seq<byte>>, later: seq<seq<byte>>) {
    && |earlier| <= |later|
    && (forall i :: 0 <= i < |earlier| ==> |earlier[i]| <= |later[i]|)
    && (forall i :: 0 <= i < |earlier| - 1 ==> |earlier[i]| == |later[i]|)
  }

  lemma {:induction false} KeepsStart(earlier: seq<seq<byte>>, later: seq<seq<byte>>, i: nat)
    requires Keeps(earlier, later) && i < |earlier|
    ensures Start(earlier, i) == Start(later, i)
    decreases i
  {
    if i > 0 {
      KeepsStart(earlier, later, i - 1);
      StartStep(earlier, i - 1);
      StartStep(later, i - 1);
    }
  }

  lemma {:induction false} KeepsRefl(a: seq<seq<byte>>)
    ensures Keeps(a, a)
  {
  }

  lemma {:induction false} KeepsPush(used: seq<seq<byte>>)
    ensures Keeps(used, used + [[]])
  {
  }

  lemma {:induction false} KeepsTransitive(a: seq<seq<byte>>, b: seq<seq<byte>>, c: seq<seq<byte>>)
    requires Keeps(a, b) && Keeps(b, c)
    ensures Keeps(a, c)
  {
  }

  lemma {:induction false} StartStep(used: seq<seq<byte>>, i: nat)
    requires i < |used|
    ensures Start(used, i + 1) == Start(used, i) + |used[i]|
  {
    assert used[..i + 1][..i] == used[..i];
  }

  lemma {:induction false} StartZero(used: seq<seq<byte>>)
    ensures Start(used, 0) == 0
  {
  }

  lemma {:induction false} FlattenGrowLast(used: seq<seq<byte>>, bytes: seq<byte>)
    requires used != []
    ensures var last := |used| - 1;
            Flatten(used[last := used[last] + bytes]) == Flatten(used) + bytes
  {
    var last := |used| - 1;
    assert used[last := used[last] + bytes][..last] == used[..last];
  }

  lemma {:induction false} FlattenPushEmpty(used: seq<seq<byte>>)
    ensures Flatten(used + [[]]) == Flatten(used)
  {
    assert (used + [[]])[..|used|] == used;
  }

  /** `s` with the bytes from `at` replaced. */
  function Spliced(s: seq<byte>, at: nat, bytes: seq<byte>): (r: seq<byte>)
    requires at + |bytes| <= |s|
    ensures |r| == |s|
  {
    s[..at] + bytes + s[at + |bytes|..]
  }

  lemma {:induction false} FlattenSplice(used: seq<seq<byte>>, i: nat, offset: nat, bytes: seq<byte>)
    requires i < |used| && offset + |bytes| <= |used[i]|
    ensures Start(used, i) + offset + |bytes| <= |Flatten(used)|
    ensures Flatten(used[i := Spliced(used[i], offset, bytes)])
            == Spliced(Flatten(used), Start(used, i) + offset, bytes)
    decreases |used|
  {
    var last := |used| - 1;
    var front := used[..last];
    var used' := used[i := Spliced(used[i], offset, bytes)];
    assert Flatten(used) == Flatten(front) + used[last];
    if i == last {
      assert used'[..last] == front;
      assert Flatten(used') == Spliced(Flatten(used), Start(used, i) + offset, bytes);
    } else {
      FlattenSplice(front, i, offset, bytes);
      assert front[..i] == used[..i];
      assert used'[..last] == front[i := Spliced(front[i], offset, bytes)];
      assert Flatten(used') == Spliced(Flatten(used), Start(used, i) + offset, bytes);
    }
  }

  // ---- Addresses ------------------------------------------------------------------------------

  /** An address inside a slice. */
  datatype Pointer = Null | Pointer(mem: array<byte>, offset: nat)

  /** `p` addresses `n` contiguous bytes of one slice, which stand at offset `at` of the log. */
  ghost predicate Addresses(bufs: seq<array<byte>>, used: seq<seq<byte>>, p: Pointer, at: nat, n: nat) {
    p.Pointer? && exists i :: 0 <= i < |bufs| && InSlice(bufs, used, p, at, n, i)
  }

  ghost predicate InSlice(bufs: seq<array<byte>>, used: seq<seq<byte>>, p: Pointer, at: nat, n: nat, i: nat)
    requires p.Pointer? && i < |bufs|
  {
    |used| == |bufs| && bufs[i] == p.mem && p.offset + n <= |used[i]| && at == Start(used, i) + p.offset
  }

  /** An address stays good, for the same place in the log, whatever is written afterwards. */
  lemma {:induction false} AddressesKept(bufs: seq<array<byte>>, used: seq<seq<byte>>, bufs': seq<array<byte>>,
                                         used': seq<seq<byte>>, p: Pointer, at: nat, n: nat)
    requires Addresses(bufs, used, p, at, n)
    requires bufs <= bufs' && |bufs'| == |used'| && Keeps(used, used')
    ensures Addresses(bufs', used', p, at, n)
  {
    var i :| 0 <= i < |bufs| && InSlice(bufs, used, p, at, n, i);
    KeepsStart(used, used', i);
    assert InSlice(bufs', used', p, at, n, i);
  }

  // ---- The buffer and the writer ----------------------------------------------------------------

  /** One heap allocation and the number of bytes at its end that were never written. */
  datatype Slice = Slice(buffer: array<byte>, unused: nat)

  function NextSize(size: nat, maximum: nat): nat {
    if maximum < 2 * size then maximum else 2 * size
  }

  class ScatteredHeapBuffer {
    var slices: seq<Slice>
    var nextSliceSize: nat
    const maximumSliceSize: nat

    constructor (initialSliceSize: nat, maximumSliceSize: nat)
      requires 0 < initialSliceSize <= maximumSliceSize
      ensures slices == [] && nextSliceSize == initialSliceSize && this.maximumSliceSize == maximumSliceSize
    {
      this.slices := [];
      this.nextSliceSize := initialSliceSize;
      this.maximumSliceSize := maximumSliceSize;
    }

    /** Closes the current slice, of which the writer leaves `available` bytes unused, and allocates
        the next: twice as large, up to the maximum. */
    method GetNewBuffer(available: nat) returns (range: array<byte>)
      modifies this
      ensures fresh(range) && range.Length == old(nextSliceSize)
      ensures slices == Adjusted(old(slices), available) + [Slice(range, range.Length)]
      ensures nextSliceSize == NextSize(old(nextSliceSize), maximumSliceSize)
      ensures nextSliceSize == if maximumSliceSize < 2 * old(nextSliceSize) then maximumSliceSize
                               else 2 * old(nextSliceSize)
    {
      AdjustUsedSizeOfCurrentSlice(available);
      range := new byte[nextSliceSize];
      slices := slices + [Slice(range, range.Length)];
      nextSliceSize := if maximumSliceSize < nextSliceSize * 2 then maximumSliceSize else nextSliceSize * 2;
    }

    method AdjustUsedSizeOfCurrentSlice(available: nat)
      modifies this`slices
      ensures slices == Adjusted(old(slices), available)
    {
      if slices != [] {
        slices := slices[|slices| - 1 := slices[|slices| - 1].(unused := available)];
      }
    }
  }

  function Adjusted(slices: seq<Slice>, available: nat): (r: seq<Slice>)
    ensures |r| == |slices|
    ensures forall i :: 0 <= i < |r| ==> r[i].buffer == slices[i].buffer
  {
    if slices == [] then [] else slices[|slices| - 1 := slices[|slices| - 1].(unused := available)]
  }

  /** The slices are these pieces of memory, each with so much of it in use; only the last may still grow. */
  ghost predicate Laid(bufs: seq<array<byte>>, used: seq<seq<byte>>, slices: seq<Slice>) {
    var n := |bufs|;
    && |used| == |slices| == n
    && (forall i :: 0 <= i < n ==> slices[i].buffer == bufs[i])
    && (forall i, j :: 0 <= i < j < n ==> bufs[i] != bufs[j])
    && (forall i :: 0 <= i < n ==> |used[i]| <= bufs[i].Length)
    && (forall i :: 0 <= i < n - 1 ==> slices[i].unused == bufs[i].Length - |used[i]|)
  }

  lemma {:induction false} LaidPush(bufs: seq<array<byte>>, used: seq<seq<byte>>, slices: seq<Slice>, available: nat,
                                    range: array<byte>)
    requires Laid(bufs, used, slices) && range !in bufs
    requires bufs != [] ==> available == bufs[|bufs| - 1].Length - |used[|used| - 1]|
    ensures Laid(bufs + [range], used + [[]], Adjusted(slices, available) + [Slice(range, range.Length)])
  {
  }

  lemma {:induction false} LaidReplace(bufs: seq<array<byte>>, used: seq<seq<byte>>, slices: seq<Slice>, i: nat,
                                       bytes: seq<byte>)
    requires Laid(bufs, used, slices) && i < |bufs| && |bytes| == |used[i]|
    ensures Laid(bufs, used[i := bytes], slices) && Keeps(used, used[i := bytes])
    ensures forall j :: 0 <= j < |bufs| && j != i ==> bufs[j] != bufs[i]
    ensures |used[i]| <= bufs[i].Length
  {
  }

  class ScatteredStreamWriter {
    const delegate: ScatteredHeapBuffer
    var cur: array?<byte>
    var writePtr: nat
    var writtenPreviously: nat

    /** The memory of each slice, and the bytes of it in use. */
    ghost var bufs: seq<array<byte>>
    ghost var used: seq<seq<byte>>

    ghost predicate Shape()
      reads this, delegate
    {
      var n := |bufs|;
      && 0 < delegate.nextSliceSize <= delegate.maximumSliceSize
      && Laid(bufs, used, delegate.slices)
      && (if n == 0 then cur == null && writePtr == 0 && writtenPreviously == 0
          else cur == bufs[n - 1] && writePtr == |used[n - 1]| && writtenPreviously == Start(used, n - 1))
    }

    ghost predicate Valid()
      reads this, delegate, bufs
      ensures Valid() ==> |bufs| == |used| && (cur == null || cur in bufs)
    {
      Shape() && forall i :: 0 <= i < |bufs| ==> bufs[i][..|used[i]|] == used[i]
    }

    /** Every byte ever written or reserved, in call order. */
    ghost function Log(): seq<byte>
      reads this
    {
      Flatten(used)
    }

    constructor (delegate: ScatteredHeapBuffer)
      requires delegate.slices == [] && 0 < delegate.nextSliceSize <= delegate.maximumSliceSize
      ensures this.delegate == delegate && Valid() && Log() == [] && bufs == []
    {
      this.delegate := delegate;
      cur := null;
      writePtr := 0;
      writtenPreviously := 0;
      bufs := [];
      used := [];
    }

    method BytesAvailable() returns (n: nat)
      requires Valid()
      ensures n == (if cur == null then 0 else cur.Length) - writePtr
    {
      n := (if cur == null then 0 else cur.Length) - writePtr;
    }

    /** The count kept by the writer is the length of the log. */
    method Written() returns (n: nat)
      requires Valid()
      ensures n == |Log()|
    {
      n := writtenPreviously + writePtr;
      if |used| > 0 {
        StartStep(used, |used| - 1);
        assert used[..|used|] == used;
      }
    }

    /** Moves to a fresh range; what was written stays where it is in the log. */
    method Extend()
      requires Valid()
      modifies this, delegate
      ensures Valid() && Log() == old(Log())
      ensures Keeps(old(used), used) && old(bufs) <= bufs
      ensures cur != null && fresh(cur) && bufs == old(bufs) + [cur] && writePtr == 0
      ensures 0 < cur.Length == old(delegate.nextSliceSize)
      ensures old(delegate.nextSliceSize) <= delegate.nextSliceSize
    {
      hide Flatten, Start, Keeps, Laid, Adjusted;
      ghost var n := |bufs|;
      KeepsPush(used);
      var available := BytesAvailable();
      var range := delegate.GetNewBuffer(available);
      LaidPush(bufs, used, old(delegate.slices), available, range);
      Reset(range);
      bufs := bufs + [range];
      used := used + [[]];
      FlattenPushEmpty(old(used));
      if n == 0 {
        StartZero(used);
      } else {
        StartStep(used, n - 1);
        KeepsStart(old(used), used, n - 1);
      }
    }

    method Reset(range: array<byte>)
      modifies this`writtenPreviously, this`cur, this`writePtr
      ensures writtenPreviously == old(writtenPreviously) + old(writePtr)
      ensures cur == range && writePtr == 0
    {
      writtenPreviously := writtenPreviously + writePtr;
      cur := range;
      writePtr := 0;
    }

    /** Writes within the current range. */
    method WriteBytesUnsafe(src: seq<byte>)
      requires Valid() && |src| <= (if cur == null then 0 else cur.Length) - writePtr
      modifies this, cur
      ensures Valid() && Log() == old(Log()) + src
      ensures Keeps(old(used), used) && bufs == old(bufs) && cur == old(cur) && writePtr == old(writePtr) + |src|
    {
      hide Flatten;
      if cur != null {
        ghost var last := |bufs| - 1;
        forall k | 0 <= k < |src| {
          cur[writePtr + k] := src[k];
        }
        writePtr := writePtr + |src|;
        FlattenGrowLast(used, src);
        used := used[last := used[last] + src];
        assert used[..last] == old(used)[..last];
        assert cur[..writePtr] == used[last];
      } else {
        assert src == [];
        assert Log() + src == Log();
      }
    }

    method WriteBytes(src: seq<byte>)
      requires Valid()
      modifies this, delegate, cur
      ensures Valid() && Log() == old(Log()) + src
      ensures Keeps(old(used), used) && old(bufs) <= bufs && (forall i :: |old(bufs)| <= i < |bufs| ==> fresh(bufs[i]))
      ensures old(delegate.nextSliceSize) <= delegate.nextSliceSize
      ensures cur == null || cur == old(cur) || fresh(cur)
    {
      if writePtr + |src| <= (if cur == null then 0 else cur.Length) {
        WriteBytesUnsafe(src);
      } else {
        WriteBytesSlowPath(src);
      }
    }

    /** Spreads the bytes over as many ranges as it takes. */
    method WriteBytesSlowPath(src: seq<byte>)
      requires Valid()
      modifies this, delegate, cur
      ensures Valid() && Log() == old(Log()) + src
      ensures Keeps(old(used), used) && old(bufs) <= bufs && (forall i :: |old(bufs)| <= i < |bufs| ==> fresh(bufs[i]))
      ensures old(delegate.nextSliceSize) <= delegate.nextSliceSize
      ensures cur == null || cur == old(cur) || fresh(cur)
    {
      hide Valid, Flatten, Keeps;
      KeepsRefl(used);
      var left := src;
      assert Log() + src[..0] == Log();
      while left != []
        invariant Valid()
        invariant |left| <= |src| && left == src[|src| - |left|..]
        invariant Log() == old(Log()) + src[..|src| - |left|]
        invariant Keeps(old(used), used) && old(bufs) <= bufs
                  && (forall i :: |old(bufs)| <= i < |bufs| ==> fresh(bufs[i]))
        invariant old(delegate.nextSliceSize) <= delegate.nextSliceSize
        invariant cur == null || cur == old(cur) || fresh(cur)
        decreases |left|
      {
        ghost var before := used;
        if cur == null || writePtr >= cur.Length {
          Extend();
          KeepsTransitive(old(used), before, used);
        }
        ghost var middle := used;
        var available := BytesAvailable();
        var burst := if available < |left| then available else |left|;
        ghost var done := src[..|src| - |left|];
        WriteBytesUnsafe(left[..burst]);
        KeepsTransitive(old(used), middle, used);
        assert done + left[..burst] == src[..|src| - |left| + burst];
        left := left[burst..];
      }
      assert src[..|src|] == src;
    }

    /** Reserves contiguous bytes, whose contents are not yet decided. */
    method ReserveBytes(size: nat) returns (p: Pointer)
      requires Valid() && size <= delegate.nextSliceSize
      modifies this, delegate
      ensures Valid() && |Log()| == |old(Log())| + size && old(Log()) <= Log()
      ensures Addresses(bufs, used, p, |old(Log())|, size)
      ensures Keeps(old(used), used) && old(bufs) <= bufs && (forall i :: |old(bufs)| <= i < |bufs| ==> fresh(bufs[i]))
      ensures old(delegate.nextSliceSize) <= delegate.nextSliceSize
    {
      hide Flatten;
      KeepsRefl(used);
      if cur == null || writePtr + size > cur.Length {
        Extend();
      }
      p := ReserveBytesUnsafe(size);
    }

    method ReserveBytesUnsafe(size: nat) returns (p: Pointer)
      requires Valid() && cur != null && writePtr + size <= cur.Length
      modifies this
      ensures Valid() && |Log()| == |old(Log())| + size && old(Log()) <= Log()
      ensures Addresses(bufs, used, p, |old(Log())|, size)
      ensures Keeps(old(used), used) && bufs == old(bufs)
    {
      hide Flatten;
      ghost var last := |bufs| - 1;
      p := Pointer(cur, writePtr);
      ghost var bytes := cur[writePtr..writePtr + size];
      writePtr := writePtr + size;
      FlattenGrowLast(used, bytes);
      StartStep(used, last);
      assert used[..last + 1] == used;
      used := used[last := used[last] + bytes];
      assert used[..last] == old(used)[..last];
      assert InSlice(bufs, used, p, |old(Log())|, size, last);
    }

    /** Overwrites a reserved length: the log changes at the reserved place and nowhere else. */
    method Backfill(p: Pointer, ghost at: nat, value: nat)
      requires Valid() && Addresses(bufs, used, p, at, MESSAGE_LENGTH_FIELD_SIZE)
      modifies this, bufs
      ensures Valid() && at + MESSAGE_LENGTH_FIELD_SIZE <= |old(Log())|
      ensures Log() == Spliced(old(Log()), at, RedundantVarInt(value))
      ensures Keeps(old(used), used) && bufs == old(bufs)
    {
      hide Flatten, RedundantVarInt, Laid, Keeps;
      ghost var i :| 0 <= i < |bufs| && InSlice(bufs, used, p, at, MESSAGE_LENGTH_FIELD_SIZE, i);
      LaidReplace(bufs, used, delegate.slices, i, Spliced(used[i], p.offset, RedundantVarInt(value)));
      WriteRedundantVarInt(value, p.mem, p.offset);
      FlattenSplice(used, i, p.offset, RedundantVarInt(value));
      used := used[i := Spliced(used[i], p.offset, RedundantVarInt(value))];
      assert p.mem[..|used[i]|] == used[i];
      KeepsStart(old(used), used, |bufs| - 1);
    }

    /** All bytes of the log, without the unused tails of the slices. */
    method StitchSlices() returns (buffer: seq<byte>)
      requires Valid()
      modifies delegate`slices
      ensures Valid() && buffer == Log()
    {
      hide Start;
      var available := BytesAvailable();
      delegate.AdjustUsedSizeOfCurrentSlice(available);
      buffer := [];
      for i := 0 to |delegate.slices|
        invariant buffer == Flatten(used[..i])
      {
        var slice := delegate.slices[i];
        buffer := buffer + slice.buffer[..slice.buffer.Length - slice.unused];
        assert used[..i + 1][..i] == used[..i];
      }
      assert used[..|used|] == used;
    }
  }

  // ---- Whole runs -----------------------------------------------------------------------------

  /** What a client may do with a stream: write, reserve a length, fill an earlier reservation. */
  datatype Op = Write(bytes: seq<byte>) | Reserve | Fill(which: nat, value: nat)

  /** A byte of the flat log; a reserved byte is unset until it is filled. */
  datatype Cell = Unset | Set(b: byte)

  datatype FlatLog = FlatLog(cells: seq<Cell>, reserved: seq<nat>)

  function Cells(bytes: seq<byte>): seq<Cell> {
    seq(|bytes|, i requires 0 <= i < |bytes| => Set(bytes[i]))
  }

  function Step(f: FlatLog, op: Op): FlatLog {
    match op
    case Write(bytes) => f.(cells := f.cells + Cells(bytes))
    case Reserve =>
      FlatLog(f.cells + [Unset, Unset, Unset, Unset], f.reserved + [|f.cells|])
    case Fill(k, v) =>
      if k < |f.reserved| && f.reserved[k] + MESSAGE_LENGTH_FIELD_SIZE <= |f.cells| then
        var at := f.reserved[k];
        f.(cells := f.cells[..at] + Cells(RedundantVarInt(v)) + f.cells[at + MESSAGE_LENGTH_FIELD_SIZE..])
      else f
  }

  /** The same client run against a single growing array. */
  function Run(ops: seq<Op>): FlatLog {
    if ops == [] then FlatLog([], []) else Step(Run(ops[..|ops| - 1]), ops[|ops| - 1])
  }

  /** Only reservations made earlier in the run are filled. */
  predicate WellFormed(ops: seq<Op>) {
    forall i :: 0 <= i < |ops| && ops[i].Fill? ==> ops[i].which < |Run(ops[..i]).reserved|
  }

  predicate Matches(bytes: seq<byte>, cells: seq<Cell>) {
    |bytes| == |cells| && forall i :: 0 <= i < |bytes| && cells[i].Set? ==> bytes[i] == cells[i].b
  }

  ghost predicate Tracks(bufs: seq<array<byte>>, used: seq<seq<byte>>, ptrs: seq<Pointer>, at: seq<nat>) {
    |ptrs| == |at| &&
    forall k :: 0 <= k < |ptrs| ==> Addresses(bufs, used, ptrs[k], at[k], MESSAGE_LENGTH_FIELD_SIZE)
  }

  lemma {:induction false} TracksKept(bufs: seq<array<byte>>, used: seq<seq<byte>>, bufs': seq<array<byte>>,
                                      used': seq<seq<byte>>, ptrs: seq<Pointer>, at: seq<nat>)
    requires Tracks(bufs, used, ptrs, at)
    requires bufs <= bufs' && |bufs'| == |used'| && Keeps(used, used')
    ensures Tracks(bufs', used', ptrs, at)
  {
    forall k | 0 <= k < |ptrs|
      ensures Addresses(bufs', used', ptrs[k], at[k], MESSAGE_LENGTH_FIELD_SIZE)
    {
      AddressesKept(bufs, used, bufs', used', ptrs[k], at[k], MESSAGE_LENGTH_FIELD_SIZE);
    }
  }

  lemma {:induction false} MatchesWrite(log: seq<byte>, cells: seq<Cell>, bytes: seq<byte>)
    requires Matches(log, cells)
    ensures Matches(log + bytes, cells + Cells(bytes))
  {
  }

  lemma {:induction false} MatchesFill(log: seq<byte>, cells: seq<Cell>, at: nat, bytes: seq<byte>)
    requires Matches(log, cells) && at + |bytes| <= |log|
    ensures Matches(Spliced(log, at, bytes), cells[..at] + Cells(bytes) + cells[at + |bytes|..])
  {
  }

  lemma {:induction false} MatchesReserve(log: seq<byte>, log': seq<byte>, cells: seq<Cell>)
    requires Matches(log, cells) && log <= log' && |log'| == |log| + MESSAGE_LENGTH_FIELD_SIZE
    ensures Matches(log', cells + [Unset, Unset, Unset, Unset])
  {
  }

  lemma {:induction false} MatchesLength(log: seq<byte>, cells: seq<Cell>)
    requires Matches(log, cells)
    ensures |log| == |cells|
  {
  }

  lemma {:induction false} TracksAt(bufs: seq<array<byte>>, used: seq<seq<byte>>, ptrs: seq<Pointer>, at: seq<nat>)
    requires Tracks(bufs, used, ptrs, at)
    ensures |ptrs| == |at|
    ensures forall k :: 0 <= k < |ptrs| ==> Addresses(bufs, used, ptrs[k], at[k], MESSAGE_LENGTH_FIELD_SIZE)
  {
  }

  lemma {:induction false} TracksPush(bufs: seq<array<byte>>, used: seq<seq<byte>>, ptrs: seq<Pointer>, at: seq<nat>,
                                      p: Pointer, next: nat)
    requires Tracks(bufs, used, ptrs, at) && Addresses(bufs, used, p, next, MESSAGE_LENGTH_FIELD_SIZE)
    ensures Tracks(bufs, used, ptrs + [p], at + [next])
  {
  }

  method Perform(writer: ScatteredStreamWriter, op: Op, ptrs: seq<Pointer>, ghost flat: FlatLog)
    returns (ptrs': seq<Pointer>)
    requires writer.Valid() && MESSAGE_LENGTH_FIELD_SIZE <= writer.delegate.nextSliceSize
    requires Matches(writer.Log(), flat.cells) && Tracks(writer.bufs, writer.used, ptrs, flat.reserved)
    requires op.Fill? ==> op.which < |flat.reserved|
    modifies writer, writer.delegate, writer.bufs
    ensures writer.Valid() && MESSAGE_LENGTH_FIELD_SIZE <= writer.delegate.nextSliceSize
    ensures old(writer.bufs) <= writer.bufs
    ensures forall i :: |old(writer.bufs)| <= i < |writer.bufs| ==> fresh(writer.bufs[i])
    ensures var flat' := Step(flat, op);
            Matches(writer.Log(), flat'.cells) && Tracks(writer.bufs, writer.used, ptrs', flat'.reserved)
  {
    hide ScatteredStreamWriter.Valid, Flatten, Keeps, Addresses, RedundantVarInt, Matches, Tracks;
    MatchesLength(writer.Log(), flat.cells);
    TracksAt(writer.bufs, writer.used, ptrs, flat.reserved);
    ghost var bufs, used, log := writer.bufs, writer.used, writer.Log();
    ptrs' := ptrs;
    match op {
      case Write(bytes) =>
        writer.WriteBytes(bytes);
        MatchesWrite(log, flat.cells, bytes);
        TracksKept(bufs, used, writer.bufs, writer.used, ptrs, flat.reserved);
      case Reserve =>
        var p := writer.ReserveBytes(MESSAGE_LENGTH_FIELD_SIZE);
        TracksKept(bufs, used, writer.bufs, writer.used, ptrs, flat.reserved);
        MatchesReserve(log, writer.Log(), flat.cells);
        TracksPush(writer.bufs, writer.used, ptrs, flat.reserved, p, |log|);
        ptrs' := ptrs + [p];
      case Fill(k, v) =>
        writer.Backfill(ptrs[k], flat.reserved[k], v);
        MatchesFill(log, flat.cells, flat.reserved[k], RedundantVarInt(v));
        TracksKept(bufs, used, writer.bufs, writer.used, ptrs, flat.reserved);
    }
  }

  /** Whatever the sizes of the slices, stitching them gives the flat log. */
  method Replay(ops: seq<Op>, initialSliceSize: nat, maximumSliceSize: nat) returns (buffer: seq<byte>)
    requires MESSAGE_LENGTH_FIELD_SIZE <= initialSliceSize <= maximumSliceSize
    requires WellFormed(ops)
    ensures Matches(buffer, Run(ops).cells)
  {
    hide Matches, Tracks, Step;
    var heap := new ScatteredHeapBuffer(initialSliceSize, maximumSliceSize);
    var writer := new ScatteredStreamWriter(heap);
    var ptrs: seq<Pointer> := [];
    StartOfRun(ops);
    for n := 0 to |ops|
      invariant writer.Valid() && writer.delegate == heap
                && (forall i :: 0 <= i < |writer.bufs| ==> fresh(writer.bufs[i]))
      invariant MESSAGE_LENGTH_FIELD_SIZE <= heap.nextSliceSize
      invariant Matches(writer.Log(), Run(ops[..n]).cells)
      invariant Tracks(writer.bufs, writer.used, ptrs, Run(ops[..n]).reserved)
    {
      assert ops[..n + 1][..n] == ops[..n];
      ptrs := Perform(writer, ops[n], ptrs, Run(ops[..n]));
    }
    assert ops[..|ops|] == ops;
    buffer := writer.StitchSlices();
  }

  lemma {:induction false} StartOfRun(ops: seq<Op>)
    ensures Matches([], Run(ops[..0]).cells)
    ensures forall bufs, used :: Tracks(bufs, used, [], Run(ops[..0]).reserved)
  {
  }
}
