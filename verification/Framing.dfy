/** The framing layer of the IPC stack: frames with a four-byte length in front of them, read from a byte
    stream that arrives in pieces of any size. */
module Framing {
  import opened Powers
  import opened Options
  import opened Wire

  const HEADER_SIZE: nat := 4

  // ---- Frames in a stream -------------------------------------------------------------------------------

  /** The frames that a stream starts with, what is left after them, and whether what is left starts with
      the header of a frame that can never fit. */
  datatype Scan = Scan(frames: seq<seq<byte>>, rest: seq<byte>, rejected: bool) {
    function Before(frame: seq<byte>): Scan {
      this.(frames := [frame] + frames)
    }

    function After(more: seq<seq<byte>>): Scan {
      this.(frames := more + frames)
    }
  }

  function PayloadSize(s: seq<byte>): nat
    requires HEADER_SIZE <= |s|
  {
    FromLittleEndian(s[..HEADER_SIZE])
  }

  /** What a stream starts with: part of a frame, a frame that can never fit, or a whole frame. */
  datatype Start = Part | TooLarge | Whole(end: nat)

  function StartOf(s: seq<byte>, capacity: nat): (r: Start)
    ensures r.Whole? ==> HEADER_SIZE <= r.end <= |s|
    ensures r.TooLarge? ==> HEADER_SIZE <= |s|
  {
    if |s| < HEADER_SIZE then Part
    else if HEADER_SIZE + PayloadSize(s) > capacity then TooLarge
    else if |s| < HEADER_SIZE + PayloadSize(s) then Part
    else Whole(HEADER_SIZE + PayloadSize(s))
  }

  function Drain(s: seq<byte>, capacity: nat): Scan
    decreases |s|
  {
    match StartOf(s, capacity)
    case Part => Scan([], s, false)
    case TooLarge => Scan([], s, true)
    case Whole(end) => Drain(s[end..], capacity).Before(s[HEADER_SIZE..end])
  }

  /** More bytes do not change what a stream starts with, once that is known. */
  lemma {:induction false} StartKept(a: seq<byte>, b: seq<byte>, capacity: nat)
    ensures !StartOf(a, capacity).Part? ==> StartOf(a + b, capacity) == StartOf(a, capacity)
  {
    hide FromLittleEndian;
    if HEADER_SIZE <= |a| {
      assert (a + b)[..HEADER_SIZE] == a[..HEADER_SIZE];
    }
  }

  /** A stream that arrives in two pieces holds the same frames as in one. */
  lemma {:induction false} DrainPieces(a: seq<byte>, b: seq<byte>, capacity: nat)
    ensures var first := Drain(a, capacity);
            if first.rejected then Drain(a + b, capacity) == first.(rest := first.rest + b)
            else Drain(a + b, capacity) == Drain(first.rest + b, capacity).After(first.frames)
    decreases |a|
  {
    hide StartOf;
    StartKept(a, b, capacity);
    match StartOf(a, capacity)
    case Part =>
      assert [] + Drain(a + b, capacity).frames == Drain(a + b, capacity).frames;
    case TooLarge =>
    case Whole(end) =>
      DrainPieces(a[end..], b, capacity);
      Cuts(a, b, end);
      var tail := Drain(a[end..], capacity);
      if !tail.rejected {
        Regroup(a[HEADER_SIZE..end], tail.frames, Drain(tail.rest + b, capacity).frames);
      }
  }

  lemma {:induction false} Cuts(a: seq<byte>, b: seq<byte>, end: nat)
    requires HEADER_SIZE <= end <= |a|
    ensures (a + b)[end..] == a[end..] + b && (a + b)[HEADER_SIZE..end] == a[HEADER_SIZE..end]
  {
  }

  lemma {:induction false} Regroup(frame: seq<byte>, some: seq<seq<byte>>, more: seq<seq<byte>>)
    ensures [frame] + (some + more) == [frame] + some + more
  {
  }

  /** Taking the next whole frame in the middle of a stream. */
  lemma {:induction false} DrainNext(all: seq<byte>, n: nat, done: seq<seq<byte>>, capacity: nat)
    requires n <= |all| && StartOf(all[n..], capacity).Whole?
    requires Drain(all, capacity) == Drain(all[n..], capacity).After(done)
    ensures var end := n + StartOf(all[n..], capacity).end;
            && end <= |all|
            && Drain(all, capacity) == Drain(all[end..], capacity).After(done + [all[n + HEADER_SIZE..end]])
  {
    hide StartOf;
    var left, size := all[n..], StartOf(all[n..], capacity).end;
    assert left[HEADER_SIZE..size] == all[n + HEADER_SIZE..n + size];
    assert left[size..] == all[n + size..];
    var tail := Drain(all[n + size..], capacity);
    assert done + ([left[HEADER_SIZE..size]] + tail.frames) == done + [left[HEADER_SIZE..size]] + tail.frames;
  }

  lemma {:induction false} DrainEnds(all: seq<byte>, n: nat, done: seq<seq<byte>>, capacity: nat)
    requires n <= |all| && !StartOf(all[n..], capacity).Whole?
    requires Drain(all, capacity) == Drain(all[n..], capacity).After(done)
    ensures Drain(all, capacity) == Scan(done, all[n..], StartOf(all[n..], capacity).TooLarge?)
  {
  }

  /** The start of one frame that fits, and no more. */
  predicate Incomplete(s: seq<byte>, capacity: nat) {
    |s| < HEADER_SIZE || |s| < HEADER_SIZE + PayloadSize(s) <= capacity
  }

  lemma {:induction false} StartIncomplete(s: seq<byte>, capacity: nat)
    ensures StartOf(s, capacity).Part? <==> Incomplete(s, capacity)
  {
  }

  /** Draining takes every whole frame from the front, and stops only at the end of the bytes or at a frame
      that can never fit. */
  lemma {:induction false} DrainLeavesIncomplete(s: seq<byte>, capacity: nat)
    ensures var r := Drain(s, capacity);
            if r.rejected then StartOf(r.rest, capacity).TooLarge? else Incomplete(r.rest, capacity)
    decreases |s|
  {
    hide StartOf, Incomplete;
    StartIncomplete(s, capacity);
    if StartOf(s, capacity).Whole? {
      DrainLeavesIncomplete(s[StartOf(s, capacity).end..], capacity);
    }
  }

  // ---- Decoding ---------------------------------------------------------------------------------------

  /** The frames that parse, in order. An empty frame is no frame. */
  function Decoded<F>(frames: seq<seq<byte>>, parse: seq<byte> -> Option<F>): seq<F> {
    if frames == [] then []
    else
      var front, last := frames[..|frames| - 1], frames[|frames| - 1];
      Decoded(front, parse) + (if last == [] || parse(last).None? then [] else [parse(last).value])
  }

  lemma {:induction false} DecodedConcat<F>(a: seq<seq<byte>>, b: seq<seq<byte>>, parse: seq<byte> -> Option<F>)
    ensures Decoded(a + b, parse) == Decoded(a, parse) + Decoded(b, parse)
    decreases |b|
  {
    if b == [] {
      assert a + b == a;
    } else {
      DecodedConcat(a, b[..|b| - 1], parse);
      assert (a + b)[..|a + b| - 1] == a + b[..|b| - 1];
    }
  }

  function Serialize(payload: seq<byte>): seq<byte> {
    LittleEndian(|payload|, HEADER_SIZE) + payload
  }

  function Stream(payloads: seq<seq<byte>>): seq<byte> {
    if payloads == [] then [] else Serialize(payloads[0]) + Stream(payloads[1..])
  }

  lemma {:induction false} SerializeStart(p: seq<byte>, more: seq<byte>, capacity: nat)
    requires HEADER_SIZE + |p| <= capacity && |p| < TWO_TO_THE_32
    ensures |Serialize(p)| == HEADER_SIZE + |p|
    ensures var s := Serialize(p) + more;
            StartOf(s, capacity) == Whole(HEADER_SIZE + |p|)
            && s[HEADER_SIZE..HEADER_SIZE + |p|] == p && s[HEADER_SIZE + |p|..] == more
  {
    hide FromLittleEndian, LittleEndian;
    Pow256Values();
    LittleEndianRoundTrip(|p|, HEADER_SIZE);
    assert (Serialize(p) + more)[..HEADER_SIZE] == LittleEndian(|p|, HEADER_SIZE);
  }

  /** The four bytes in front of a frame are its length, the lowest first. */
  lemma {:induction false} HeaderBytes(p: seq<byte>)
    requires |p| < 0x1_0000_0000
    ensures Serialize(p) == [|p| % 0x100, |p| / 0x100 % 0x100, |p| / 0x1_0000 % 0x100, |p| / 0x100_0000] + p
  {
    var n := |p|;
    assert LittleEndian(n, 4) == [n % 0x100] + LittleEndian(n / 0x100, 3);
    assert LittleEndian(n / 0x100, 3) == [n / 0x100 % 0x100] + LittleEndian(n / 0x1_0000, 2);
    assert LittleEndian(n / 0x1_0000, 2) == [n / 0x1_0000 % 0x100] + LittleEndian(n / 0x100_0000, 1);
    assert LittleEndian(n / 0x100_0000, 1) == [n / 0x100_0000];
  }

  lemma {:induction false} SerializeTooLarge(p: seq<byte>, more: seq<byte>, capacity: nat)
    requires HEADER_SIZE + |p| > capacity && |p| < TWO_TO_THE_32
    ensures StartOf(Serialize(p) + more, capacity).TooLarge?
  {
    hide FromLittleEndian, LittleEndian;
    Pow256Values();
    LittleEndianRoundTrip(|p|, HEADER_SIZE);
    assert (Serialize(p) + more)[..HEADER_SIZE] == LittleEndian(|p|, HEADER_SIZE);
  }

  /** How many frames come before the first that does not fit. */
  function Fitting(payloads: seq<seq<byte>>, capacity: nat): (n: nat)
    ensures n <= |payloads| && (forall i :: 0 <= i < n ==> HEADER_SIZE + |payloads[i]| <= capacity)
    ensures n < |payloads| ==> HEADER_SIZE + |payloads[n]| > capacity
  {
    if payloads == [] || HEADER_SIZE + |payloads[0]| > capacity then 0 else 1 + Fitting(payloads[1..], capacity)
  }

  /** A stream of frames is rejected if and only if one of them does not fit, and then exactly there. */
  lemma {:induction false} DrainAnyStream(payloads: seq<seq<byte>>, capacity: nat)
    requires forall p :: p in payloads ==> |p| < TWO_TO_THE_32
    ensures var n := Fitting(payloads, capacity);
            Drain(Stream(payloads), capacity) == Scan(payloads[..n], Stream(payloads[n..]), n < |payloads|)
    decreases |payloads|
  {
    hide StartOf, Serialize;
    if payloads == [] {
      DrainNothingLeft(capacity);
    } else {
      var p, rest := payloads[0], payloads[1..];
      if HEADER_SIZE + |p| > capacity {
        SerializeTooLarge(p, Stream(rest), capacity);
      } else {
        DrainAnyStream(rest, capacity);
        SerializeStart(p, Stream(rest), capacity);
        var n := Fitting(rest, capacity);
        assert [p] + rest[..n] == payloads[..n + 1] && rest[n..] == payloads[n + 1..];
      }
    }
  }

  lemma {:induction false} DrainNothingLeft(capacity: nat)
    ensures Drain([], capacity) == Scan([], [], false)
  {
  }

  /** Serialized frames that fit come back exactly, with nothing left over. */
  lemma {:induction false} DrainStream(payloads: seq<seq<byte>>, capacity: nat)
    requires forall p :: p in payloads ==> HEADER_SIZE + |p| <= capacity && |p| < TWO_TO_THE_32
    ensures Drain(Stream(payloads), capacity) == Scan(payloads, [], false)
    decreases |payloads|
  {
    hide StartOf, Serialize;
    if payloads != [] {
      var p := payloads[0];
      DrainStream(payloads[1..], capacity);
      SerializeStart(p, Stream(payloads[1..]), capacity);
    }
  }

  // ---- The deserializer -----------------------------------------------------------------------------------

  class BufferedFrameDeserializer<F> {
    const capacity: nat
    const pageSize: nat
    const parse: seq<byte> -> Option<F>
    var buf: array?<byte>
    var size: nat
    var decodedFrames: seq<F>

    ghost predicate Valid()
      reads this, buf
    {
      && HEADER_SIZE <= pageSize < capacity
      && (buf == null ==> size == 0)
      && (buf != null ==> buf.Length == capacity && size <= capacity)
    }

    /** The bytes received and not yet consumed. */
    ghost function Live(): seq<byte>
      requires Valid()
      reads this, buf
    {
      if buf == null then [] else buf[..size]
    }

    /** Between receives: never full, so there is always room to receive. */
    ghost predicate Ready()
      reads this, buf
    {
      Valid() && Incomplete(Live(), capacity)
    }

    /** Everything in the bytes received so far is decoded, but for the part of a frame at their end. */
    ghost predicate CaughtUp(received: seq<byte>)
      requires Valid()
      reads this, buf
    {
      var r := Drain(received, capacity);
      !r.rejected && Live() == r.rest && decodedFrames == Decoded(r.frames, parse)
    }

    constructor (maxCapacity: nat, pageSize: nat, parse: seq<byte> -> Option<F>)
      requires HEADER_SIZE <= pageSize < maxCapacity
      ensures Ready() && Live() == [] && decodedFrames == [] && buf == null
      ensures capacity == maxCapacity && this.pageSize == pageSize && this.parse == parse
    {
      capacity := maxCapacity;
      this.pageSize := pageSize;
      this.parse := parse;
      buf := null;
      size := 0;
      decodedFrames := [];
    }

    /** Gives the physical memory of a range back: its contents are gone. */
    method AdviseDontNeed(begin: nat, length: nat)
      requires buf != null && begin + length <= buf.Length
      modifies buf
      ensures buf[..begin] == old(buf[..begin])
    {
      forall k | begin <= k < begin + length {
        buf[k] := 0;
      }
    }

    /** The space for the next receive, which is never empty and never overlaps what is live. */
    method BeginReceive() returns (data: nat, length: nat)
      requires Ready()
      modifies this`buf
      ensures Ready() && Live() == old(Live())
      ensures buf != null && (buf == old(buf) || fresh(buf))
      ensures data == size && data + length == capacity && 0 < length
    {
      if buf == null {
        buf := new byte[capacity];
        AdviseDontNeed(pageSize, capacity - pageSize);
      }
      data, length := size, capacity - size;
    }

    method DecodeFrame(payload: seq<byte>)
      modifies this`decodedFrames
      ensures decodedFrames == old(decodedFrames) + Decoded([payload], parse)
    {
      assert [payload][..0] == [];
      assert Decoded([payload][..0], parse) == [];
      if payload == [] {
        assert decodedFrames + [] == decodedFrames;
        return;
      }
      var frame := parse(payload);
      if frame.Some? {
        decodedFrames := decodedFrames + [frame.value];
      }
    }

    /** Takes in what was received: decodes every complete frame and keeps the rest for later. False means
        that the other end announced a frame that can never fit. */
    method EndReceive(recvSize: nat) returns (ok: bool)
      requires Valid() && buf != null && size + recvSize <= capacity
      modifies this`size, this`decodedFrames, buf
      ensures Valid()
      ensures var r := Drain(old(buf[..size + recvSize]), capacity);
              && ok == !r.rejected
              && decodedFrames == old(decodedFrames) + Decoded(r.frames, parse)
              && (ok ==> Ready() && Live() == r.rest)
    {
      hide StartOf, Incomplete, Drain, Decoded;
      size := size + recvSize;
      DrainLeavesIncomplete(buf[..size], capacity);
      var consumed := DecodeAll();
      if consumed.None? {
        return false;
      }
      if consumed.value > 0 {
        Shift(consumed.value);
      }
      ok := true;
    }

    /** Moves what is left to the front of the buffer and gives back the pages that are then unused. */
    method Shift(consumed: nat)
      requires Valid() && buf != null && consumed <= size
      modifies this`size, buf
      ensures Valid() && Live() == old(Live())[consumed..]
    {
      size := size - consumed;
      if size > 0 {
        forall k | 0 <= k < size {
          buf[k] := buf[consumed + k];
        }
      }
      if consumed > pageSize {
        var sizeRoundedUp := (size / pageSize + 1) * pageSize;
        if sizeRoundedUp < capacity {
          RoundedUp(size, pageSize);
          ghost var kept := buf[..sizeRoundedUp];
          AdviseDontNeed(sizeRoundedUp, capacity - sizeRoundedUp);
          assert buf[..size] == kept[..size];
        }
      }
    }

    /** What the bytes from an offset on start with. */
    method NextFrame(n: nat) returns (start: Start)
      requires Valid() && buf != null && n <= size
      ensures start == StartOf(Live()[n..], capacity)
    {
      hide FromLittleEndian;
      if size < n + HEADER_SIZE {
        return Part;
      }
      ghost var left, header := Live()[n..], buf[n..n + HEADER_SIZE];
      assert header == left[..HEADER_SIZE] by {
        assert forall k :: 0 <= k < HEADER_SIZE ==> header[k] == left[k];
      }
      var payloadSize := FromLittleEndian(buf[n..n + HEADER_SIZE]);
      var nextFrameSize := (if payloadSize < capacity then payloadSize else capacity) + HEADER_SIZE;
      if size < n + nextFrameSize {
        if nextFrameSize > capacity {
          return TooLarge;
        }
        return Part;
      }
      start := Whole(nextFrameSize);
    }

    /** The loop over the complete frames in the buffer: how many bytes they take, or nothing on a frame
        that is too large. */
    method DecodeAll() returns (consumed: Option<nat>)
      requires Valid() && buf != null
      modifies this`decodedFrames
      ensures var r := Drain(Live(), capacity);
              && decodedFrames == old(decodedFrames) + Decoded(r.frames, parse)
              && (r.rejected <==> consumed.None?)
              && (!r.rejected ==> consumed.value <= size && r.rest == Live()[consumed.value..])
    {
      hide StartOf, Decoded, Drain;
      ghost var all := Live();
      ghost var done: seq<seq<byte>> := [];
      var n := 0;
      DrainNothing(capacity, parse);
      assert all[0..] == all;
      assert [] + Drain(all, capacity).frames == Drain(all, capacity).frames;
      while true
        invariant n <= size
        invariant Drain(all, capacity) == Drain(all[n..], capacity).After(done)
        invariant decodedFrames == old(decodedFrames) + Decoded(done, parse)
        decreases size - n
      {
        var start := NextFrame(n);
        match start {
          case Part =>
            DrainEnds(all, n, done, capacity);
            return Some(n);
          case TooLarge =>
            DrainEnds(all, n, done, capacity);
            return None;
          case Whole(end) =>
            DrainNext(all, n, done, capacity);
            var payload := buf[n + HEADER_SIZE..n + end];
            assert payload == all[n + HEADER_SIZE..n + end];
            DecodeFrame(payload);
            DecodedConcat(done, [payload], parse);
            done := done + [payload];
            n := n + end;
        }
      }
    }

    method PopNextFrame() returns (frame: Option<F>)
      modifies this`decodedFrames
      ensures if old(decodedFrames) == [] then frame.None? && decodedFrames == []
              else frame == Some(old(decodedFrames)[0]) && decodedFrames == old(decodedFrames)[1..]
    {
      if decodedFrames == [] {
        return None;
      }
      frame := Some(decodedFrames[0]);
      decodedFrames := decodedFrames[1..];
    }
  }

  lemma {:induction false} RoundedUp(size: nat, pageSize: nat)
    requires 0 < pageSize
    ensures size < (size / pageSize + 1) * pageSize
  {
  }

  // ---- Whole connections ----------------------------------------------------------------------------------

  /** Receives a stream in pieces of any sizes, as far as the pieces go: `sizes` is what the socket is
      willing to give each time, limited by what there is and by the space offered. What is decoded, and
      whether the stream is rejected, depends only on the bytes received. There is always room for more, so
      receives that give something get to the end of the stream. */
  method Receive<F>(stream: seq<byte>, sizes: seq<nat>, capacity: nat, pageSize: nat, parse: seq<byte> -> Option<F>)
    returns (ok: bool, taken: nat, frames: seq<F>)
    requires HEADER_SIZE <= pageSize < capacity
    ensures taken <= |stream|
    ensures var r := Drain(stream[..taken], capacity);
            ok == !r.rejected && frames == Decoded(r.frames, parse)
    ensures ok && |stream| <= |sizes| && (forall i :: 0 <= i < |sizes| ==> 0 < sizes[i]) ==> taken == |stream|
  {
    hide StartOf, Incomplete, Drain, Decoded;
    DrainNothing(capacity, parse);
    var d := new BufferedFrameDeserializer(capacity, pageSize, parse);
    ok, taken := true, 0;
    assert stream[..0] == [];
    for i := 0 to |sizes|
      invariant d.Ready() && fresh(d) && (d.buf == null || fresh(d.buf)) && d.capacity == capacity && d.parse == parse
      invariant taken <= |stream| && ok && d.CaughtUp(stream[..taken])
      invariant (forall k :: 0 <= k < |sizes| ==> 0 < sizes[k]) ==> Least(i, |stream|) <= taken
    {
      var n;
      ok, n := ReceiveSome(d, stream[taken..], sizes[i], stream[..taken]);
      assert stream[..taken + n] == stream[..taken] + stream[taken..][..n];
      taken := taken + n;
      if !ok {
        break;
      }
    }
    frames := d.decodedFrames;
  }

  /** One receive: as many of the bytes on their way as the socket gives and the buffer has room for. */
  method ReceiveSome<F>(d: BufferedFrameDeserializer<F>, coming: seq<byte>, want: nat, ghost before: seq<byte>)
    returns (ok: bool, n: nat)
    requires d.Ready() && d.CaughtUp(before)
    modifies d, d.buf
    ensures d.buf == old(d.buf) || fresh(d.buf)
    ensures n <= |coming| && (0 < want && 0 < |coming| ==> 0 < n)
    ensures var r := Drain(before + coming[..n], d.capacity);
            ok == !r.rejected && d.decodedFrames == Decoded(r.frames, d.parse)
    ensures ok ==> d.Ready() && d.CaughtUp(before + coming[..n])
  {
    hide StartOf, Incomplete, Drain, Decoded;
    var data, length := d.BeginReceive();
    n := Least(want, Least(length, |coming|));
    ghost var piece := coming[..n];
    ghost var r := Drain(before, d.capacity);
    Fill(d, coming[..n]);
    DrainPieces(before, piece, d.capacity);
    DecodedConcat(r.frames, Drain(r.rest + piece, d.capacity).frames, d.parse);
    ok := d.EndReceive(n);
  }

  /** The bytes that the socket puts behind those that are live. */
  method Fill<F>(d: BufferedFrameDeserializer<F>, piece: seq<byte>)
    requires d.Valid() && d.buf != null && d.size + |piece| <= d.capacity
    modifies d.buf
    ensures d.Valid() && d.buf[..d.size + |piece|] == old(d.Live()) + piece
  {
    forall k | 0 <= k < |piece| {
      d.buf[d.size + k] := piece[k];
    }
  }

  lemma {:induction false} DrainNothing<F>(capacity: nat, parse: seq<byte> -> Option<F>)
    ensures Drain([], capacity) == Scan([], [], false) && Decoded([], parse) == []
  {
  }

  function Least(a: nat, b: nat): nat {
    if a < b then a else b
  }

  /** Frames that fit, sent whole: however they arrive, the receiver gets those that parse, in order, and never
      rejects the stream. */
  lemma {:induction false} FramesArrive<F>(payloads: seq<seq<byte>>, capacity: nat, parse: seq<byte> -> Option<F>)
    requires forall p :: p in payloads ==> HEADER_SIZE + |p| <= capacity && |p| < TWO_TO_THE_32
    ensures var r := Drain(Stream(payloads), capacity);
            !r.rejected && r.rest == [] && Decoded(r.frames, parse) == Decoded(payloads, parse)
    ensures forall n :: 0 <= n <= |Stream(payloads)| ==>
                          !Drain(Stream(payloads)[..n], capacity).rejected
    ensures forall n :: 0 <= n <= |Stream(payloads)| ==>
                          Drain(Stream(payloads)[..n], capacity).frames <= payloads
  {
    hide StartOf, Stream, Decoded;
    DrainStream(payloads, capacity);
    var s := Stream(payloads);
    forall n | 0 <= n <= |s|
      ensures !Drain(s[..n], capacity).rejected && Drain(s[..n], capacity).frames <= payloads
    {
      DrainPieces(s[..n], s[n..], capacity);
      assert s[..n] + s[n..] == s;
    }
  }

  /** If parsing undoes serializing, the receiver gets exactly the frames that were sent, in order. */
  lemma {:induction false} FramesRoundTrip<F>(fs: seq<F>, capacity: nat, serialize: F -> seq<byte>,
                                              parse: seq<byte> -> Option<F>)
    requires forall f :: f in fs ==> serialize(f) != [] && parse(serialize(f)) == Some(f)
    requires forall f :: f in fs ==> HEADER_SIZE + |serialize(f)| <= capacity && |serialize(f)| < TWO_TO_THE_32
    ensures var r := Drain(Stream(Payloads(fs, serialize)), capacity);
            !r.rejected && r.rest == [] && Decoded(r.frames, parse) == fs
  {
    hide Drain, Stream;
    FramesArrive(Payloads(fs, serialize), capacity, parse);
    ParsedBack(fs, serialize, parse);
  }

  function Payloads<F>(fs: seq<F>, serialize: F -> seq<byte>): seq<seq<byte>> {
    seq(|fs|, i requires 0 <= i < |fs| => serialize(fs[i]))
  }

  lemma {:induction false} ParsedBack<F>(fs: seq<F>, serialize: F -> seq<byte>, parse: seq<byte> -> Option<F>)
    requires forall f :: f in fs ==> serialize(f) != [] && parse(serialize(f)) == Some(f)
    ensures Decoded(Payloads(fs, serialize), parse) == fs
    decreases |fs|
  {
    if fs != [] {
      var front, last := fs[..|fs| - 1], fs[|fs| - 1];
      ParsedBack(front, serialize, parse);
      assert Payloads(fs, serialize)[..|fs| - 1] == Payloads(front, serialize);
      assert last in fs && fs == front + [last];
    }
  }
}
