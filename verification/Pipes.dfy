/** A queue of frames carried as bytes: frames are serialized into a stream, the stream arrives in pieces of any
    size, and the frames cut from it are handed out one at a time. */
module Pipes {
  import opened Powers
  import opened Options
  import opened Wire
  import opened Framing

  /** The bytes on their way, the part of a frame that the receiver has, and the frames it has not handed out. */
  datatype Pipe<F> = Pipe(flight: seq<byte>, live: seq<byte>, decoded: seq<F>)

  datatype Codec<!F> = Codec(capacity: nat, serialize: F -> seq<byte>, parse: seq<byte> -> Option<F>)

  /** A frame that fits, and that parsing gets back. */
  predicate Carriable<F(==)>(codec: Codec<F>, f: F) {
    var bytes := codec.serialize(f);
    bytes != [] && codec.parse(bytes) == Some(f) && HEADER_SIZE + |bytes| <= codec.capacity && |bytes| < TWO_TO_THE_32
  }

  predicate AllCarriable<F(==)>(codec: Codec<F>, fs: seq<F>) {
    forall i :: 0 <= i < |fs| ==> Carriable(codec, fs[i])
  }

  function Sent<F>(codec: Codec<F>, p: Pipe<F>, f: F): Pipe<F> {
    p.(flight := p.flight + Serialize(codec.serialize(f)))
  }

  function SentAll<F>(codec: Codec<F>, p: Pipe<F>, fs: seq<F>): Pipe<F> {
    if fs == [] then p else Sent(codec, SentAll(codec, p, fs[..|fs| - 1]), fs[|fs| - 1])
  }

  /** The next `n` bytes arrive, as the deserializer takes them. */
  function Moved<F>(codec: Codec<F>, p: Pipe<F>, n: nat): Pipe<F>
    requires n <= |p.flight|
  {
    var r := Drain(p.live + p.flight[..n], codec.capacity);
    Pipe(p.flight[n..], r.rest, p.decoded + Decoded(r.frames, codec.parse))
  }

  predicate CanMove<F>(codec: Codec<F>, p: Pipe<F>, pieces: seq<nat>)
    decreases |pieces|
  {
    pieces == [] || (pieces[0] <= |p.flight| && CanMove(codec, Moved(codec, p, pieces[0]), pieces[1..]))
  }

  function MovedAll<F>(codec: Codec<F>, p: Pipe<F>, pieces: seq<nat>): Pipe<F>
    requires CanMove(codec, p, pieces)
    decreases |pieces|
  {
    if pieces == [] then p else MovedAll(codec, Moved(codec, p, pieces[0]), pieces[1..])
  }

  function Popped<F>(p: Pipe<F>): Pipe<F>
    requires p.decoded != []
  {
    p.(decoded := p.decoded[1..])
  }

  /** The frames in the pipe, wherever their bytes are. No stream is refused and no bytes are left over. */
  predicate Carries<F(==)>(codec: Codec<F>, p: Pipe<F>, fs: seq<F>) {
    var r := Drain(p.live + p.flight, codec.capacity);
    && !r.rejected && r.rest == [] && fs == p.decoded + Decoded(r.frames, codec.parse)
    && Drain(p.live, codec.capacity) == Scan([], p.live, false)
  }

  lemma {:induction false} SendCarries<F>(codec: Codec<F>, p: Pipe<F>, fs: seq<F>, f: F)
    requires Carries(codec, p, fs) && Carriable(codec, f)
    ensures Carries(codec, Sent(codec, p, f), fs + [f])
  {
    hide StartOf, Drain, Serialize;
    var bytes, r := codec.serialize(f), Drain(p.live + p.flight, codec.capacity);
    OneFrame(bytes, codec.capacity);
    DrainPieces(p.live + p.flight, Serialize(bytes), codec.capacity);
    assert p.live + p.flight + Serialize(bytes) == p.live + (p.flight + Serialize(bytes));
    assert [] + Serialize(bytes) == Serialize(bytes);
    DecodedConcat(r.frames, [bytes], codec.parse);
    OneDecoded(bytes, codec.parse);
  }

  lemma {:induction false} OneFrame(bytes: seq<byte>, capacity: nat)
    requires HEADER_SIZE + |bytes| <= capacity && |bytes| < TWO_TO_THE_32
    ensures Drain(Serialize(bytes), capacity) == Scan([bytes], [], false)
  {
    DrainStream([bytes], capacity);
    assert Stream([bytes]) == Serialize(bytes);
  }

  lemma {:induction false} OneDecoded<F>(bytes: seq<byte>, parse: seq<byte> -> Option<F>)
    requires bytes != [] && parse(bytes).Some?
    ensures Decoded([bytes], parse) == [parse(bytes).value]
  {
    var one := [bytes];
    assert one[..|one| - 1] == [];
  }

  lemma {:induction false} SendAllCarries<F>(codec: Codec<F>, p: Pipe<F>, fs: seq<F>, more: seq<F>)
    requires Carries(codec, p, fs) && AllCarriable(codec, more)
    ensures Carries(codec, SentAll(codec, p, more), fs + more)
    decreases |more|
  {
    hide Carries, Carriable, Sent;
    if more == [] {
      assert fs + more == fs;
    } else {
      var front, last := more[..|more| - 1], more[|more| - 1];
      SendAllCarries(codec, p, fs, front);
      SendCarries(codec, SentAll(codec, p, front), fs + front, last);
      assert fs + front + [last] == fs + more;
    }
  }

  lemma {:induction false} MoveCarries<F>(codec: Codec<F>, p: Pipe<F>, fs: seq<F>, n: nat)
    requires Carries(codec, p, fs) && n <= |p.flight|
    ensures Carries(codec, Moved(codec, p, n), fs)
  {
    hide StartOf, Drain, Decoded;
    var here, coming := p.live + p.flight[..n], p.flight[n..];
    DrainPieces(here, coming, codec.capacity);
    assert here + coming == p.live + p.flight;
    var first := Drain(here, codec.capacity);
    DecodedConcat(first.frames, Drain(first.rest + coming, codec.capacity).frames, codec.parse);
    DrainedRest(here, codec.capacity);
  }

  /** Nothing more can be cut from what draining leaves. */
  lemma {:induction false} DrainedRest(s: seq<byte>, capacity: nat)
    requires !Drain(s, capacity).rejected
    ensures Drain(Drain(s, capacity).rest, capacity) == Scan([], Drain(s, capacity).rest, false)
  {
    DrainLeavesIncomplete(s, capacity);
    StartIncomplete(Drain(s, capacity).rest, capacity);
  }

  lemma {:induction false} MoveAllCarries<F>(codec: Codec<F>, p: Pipe<F>, fs: seq<F>, pieces: seq<nat>)
    requires Carries(codec, p, fs) && CanMove(codec, p, pieces)
    ensures Carries(codec, MovedAll(codec, p, pieces), fs)
    decreases |pieces|
  {
    hide Carries, Moved;
    if pieces != [] {
      MoveCarries(codec, p, fs, pieces[0]);
      MoveAllCarries(codec, Moved(codec, p, pieces[0]), fs, pieces[1..]);
    }
  }

  /** What is handed out is the oldest frame of the queue. */
  lemma {:induction false} PopCarries<F>(codec: Codec<F>, p: Pipe<F>, fs: seq<F>)
    requires Carries(codec, p, fs) && p.decoded != []
    ensures fs != [] && p.decoded[0] == fs[0] && Carries(codec, Popped(p), fs[1..])
  {
  }

  /** A frame that is in the pipe can be handed out once all bytes have arrived. */
  lemma {:induction false} PipeDelivers<F>(codec: Codec<F>, p: Pipe<F>, fs: seq<F>)
    requires Carries(codec, p, fs)
    ensures Moved(codec, p, |p.flight|).decoded == fs
  {
    assert p.flight[..|p.flight|] == p.flight;
  }

  /** The deserializer has what the pipe says has arrived. */
  ghost predicate At<F>(d: BufferedFrameDeserializer<F>, codec: Codec<F>, p: Pipe<F>)
    reads d, d.buf
  {
    && d.Ready() && d.capacity == codec.capacity && d.parse == codec.parse
    && d.Live() == p.live && d.decodedFrames == p.decoded
  }

  /** The deserializer takes bytes that arrive as the pipe says, as many as it has room for, and refuses none. */
  method Arrive<F(==)>(d: BufferedFrameDeserializer<F>, coming: seq<byte>, want: nat, ghost codec: Codec<F>,
                  ghost p: Pipe<F>, ghost fs: seq<F>) returns (n: nat)
    requires At(d, codec, p) && Carries(codec, p, fs) && coming == p.flight
    modifies d, d.buf
    ensures n <= |coming| && (0 < want && coming != [] ==> 0 < n)
    ensures At(d, codec, Moved(codec, p, n)) && (d.buf == old(d.buf) || fresh(d.buf))
  {
    hide StartOf, Drain, Decoded, Incomplete;
    var data, length := d.BeginReceive();
    n := Least(want, Least(length, |coming|));
    Fill(d, coming[..n]);
    NoneRefused(codec, p, fs, n);
    var ok := d.EndReceive(n);
  }

  lemma {:induction false} NoneRefused<F>(codec: Codec<F>, p: Pipe<F>, fs: seq<F>, n: nat)
    requires Carries(codec, p, fs) && n <= |p.flight|
    ensures !Drain(p.live + p.flight[..n], codec.capacity).rejected
  {
    hide StartOf, Drain, Decoded;
    DrainPieces(p.live + p.flight[..n], p.flight[n..], codec.capacity);
    assert p.live + p.flight[..n] + p.flight[n..] == p.live + p.flight;
  }

  // ---- Whole runs -----------------------------------------------------------------------------------------

  /** A queue that frames are put in, or that its oldest frame is taken from. */
  predicate Queues<F(==)>(before: seq<F>, after: seq<F>) {
    before <= after || (before != [] && after == before[1..])
  }

  /** Some bytes arrive, and then the pipe does what the queue does. To take a frame it hands out its own oldest
      one. */
  ghost predicate Follows<F>(codec: Codec<F>, p: Pipe<F>, before: seq<F>, after: seq<F>, p': Pipe<F>) {
    exists pieces: seq<nat> :: CanMove(codec, p, pieces) &&
      var q := MovedAll(codec, p, pieces);
      if before <= after then p' == SentAll(codec, q, after[|before|..])
      else q.decoded != [] && p' == Popped(q)
  }

  /** However the bytes are cut up on the way, the pipe goes on carrying exactly the frames of the queue. */
  lemma {:induction false} PipeCarries<F>(codec: Codec<F>, queues: seq<seq<F>>, pipes: seq<Pipe<F>>, k: nat)
    requires |pipes| == |queues| && k < |pipes| && queues[0] == [] && pipes[0] == Pipe([], [], [])
    requires forall i :: 0 <= i < |queues| ==> AllCarriable(codec, queues[i])
    requires forall i :: 0 <= i < |queues| - 1 ==> Queues(queues[i], queues[i + 1])
    requires forall i :: 0 <= i < |queues| - 1 ==> Follows(codec, pipes[i], queues[i], queues[i + 1], pipes[i + 1])
    ensures Carries(codec, pipes[k], queues[k])
    decreases k
  {
    hide Carries, AllCarriable, Follows, Queues;
    if k == 0 {
      EmptyCarries(codec);
    } else {
      PipeCarries(codec, queues, pipes, k - 1);
      assert Follows(codec, pipes[k - 1], queues[k - 1], queues[k - 1 + 1], pipes[k - 1 + 1]);
      FollowCarries(codec, pipes[k - 1], queues[k - 1], queues[k], pipes[k]);
    }
  }

  lemma {:induction false} EmptyCarries<F>(codec: Codec<F>)
    ensures Carries(codec, Pipe([], [], []), [])
  {
  }

  lemma {:induction false} FollowCarries<F>(codec: Codec<F>, p: Pipe<F>, before: seq<F>, after: seq<F>, p': Pipe<F>)
    requires Carries(codec, p, before) && AllCarriable(codec, after) && Queues(before, after)
    requires Follows(codec, p, before, after, p')
    ensures Carries(codec, p', after)
  {
    hide Carries, Carriable;
    var pieces: seq<nat> :| CanMove(codec, p, pieces) &&
      var q := MovedAll(codec, p, pieces);
      if before <= after then p' == SentAll(codec, q, after[|before|..]) else q.decoded != [] && p' == Popped(q);
    MoveAllCarries(codec, p, before, pieces);
    if before <= after {
      SendAllCarries(codec, MovedAll(codec, p, pieces), before, after[|before|..]);
      assert before + after[|before|..] == after;
    } else {
      PopCarries(codec, MovedAll(codec, p, pieces), before);
    }
  }
}
