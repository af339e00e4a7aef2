/** protozero's one-pass message writer. A nested message reserves four bytes for its length when it
    begins and fills them when it ends; at any time the open messages form a chain from the root. */
module Messages {
  import opened Wire
  import opened Decoder
  import opened Tree
  import opened ScatteredBuffer

  const MAX_NESTING_DEPTH: nat := 10

  // ---- How a chain of open messages lies in the log ---------------------------------------------

  /** The bytes from `start` are those of an open message that is being written to: its finished
      fields and the part of the next one already written. */
  predicate Tip(log: seq<byte>, start: nat, size: nat, fields: seq<Node>, pending: seq<byte>) {
    start + size == |log| && log[start..] == Encode(fields) + pending
  }

  /** The `size` bytes from `start` are those of an open message whose last field is a nested message
      that is still open: its finished fields, the tag of the nested message and its length field. */
  predicate Inner(log: seq<byte>, start: nat, size: nat, fields: seq<Node>, nestedId: nat) {
    && MESSAGE_LENGTH_FIELD_SIZE <= size && start + size <= |log|
    && log[start..start + size - MESSAGE_LENGTH_FIELD_SIZE]
       == Encode(fields) + Preamble(nestedId, WIRE_LENGTH_DELIMITED)
  }

  /** The length field in front of `start` is filled in. */
  predicate Filled(log: seq<byte>, start: nat, length: nat) {
    && MESSAGE_LENGTH_FIELD_SIZE <= start <= |log|
    && log[start - MESSAGE_LENGTH_FIELD_SIZE..start] == RedundantVarInt(length)
  }

  lemma {:induction false} InnerKept(log: seq<byte>, log': seq<byte>, start: nat, size: nat, fields: seq<Node>,
                                     nestedId: nat)
    requires Inner(log, start, size, fields, nestedId)
    requires |log| <= |log'|
    requires log[..start + size - MESSAGE_LENGTH_FIELD_SIZE] == log'[..start + size - MESSAGE_LENGTH_FIELD_SIZE]
    ensures Inner(log', start, size, fields, nestedId)
  {
    var end := start + size - MESSAGE_LENGTH_FIELD_SIZE;
    assert log[start..end] == log[..end][start..];
    assert log'[start..end] == log'[..end][start..];
  }

  lemma {:induction false} TipGrows(log: seq<byte>, start: nat, size: nat, fields: seq<Node>, pending: seq<byte>,
                                    bytes: seq<byte>)
    requires Tip(log, start, size, fields, pending)
    ensures Tip(log + bytes, start, size + |bytes|, fields, pending + bytes)
  {
    assert (log + bytes)[start..] == log[start..] + bytes;
    assert Encode(fields) + pending + bytes == Encode(fields) + (pending + bytes);
  }

  lemma {:induction false} TipCommits(log: seq<byte>, start: nat, size: nat, fields: seq<Node>, n: Node)
    requires Tip(log, start, size, fields, EncodeNode(n))
    ensures Tip(log, start, size, fields + [n], [])
  {
    EncodeSnoc(fields, n);
  }

  /** Once the nested message is finished, it is one more field of the message around it. */
  lemma {:induction false} NestedCommits(log: seq<byte>, start: nat, size: nat, fields: seq<Node>, id: nat,
                                         nestedSize: nat, already: nat, nested: seq<Node>)
    requires Inner(log, start, size, fields, id)
    requires Tip(log, start + size, nestedSize, nested, [])
    requires already <= nestedSize && Filled(log, start + size, nestedSize - already)
    ensures Tip(log, start, size + nestedSize, fields + [Msg(id, already, nested)], [])
  {
    hide Encode, EncodeNode, Preamble, RedundantVarInt;
    var n := Msg(id, already, nested);
    assert Encode(nested) + [] == Encode(nested);
    EncodeMsg(id, already, nested);
    EncodeSnoc(fields, n);
    ThreeParts(log, start, start + size - MESSAGE_LENGTH_FIELD_SIZE, start + size);
    Regroup(Encode(fields), Preamble(id, WIRE_LENGTH_DELIMITED), RedundantVarInt(nestedSize - already), Encode(nested));
    assert Encode(fields + [n]) + [] == Encode(fields + [n]);
  }

  lemma {:induction false} EncodeMsg(id: nat, already: nat, nested: seq<Node>)
    requires already <= |Encode(nested)|
    ensures EncodeNode(Msg(id, already, nested))
            == Preamble(id, WIRE_LENGTH_DELIMITED) + RedundantVarInt(|Encode(nested)| - already) + Encode(nested)
  {
  }

  lemma {:induction false} ThreeParts(s: seq<byte>, i: nat, j: nat, k: nat)
    requires i <= j <= k <= |s|
    ensures s[i..] == s[i..j] + s[j..k] + s[k..]
  {
  }

  lemma {:induction false} Regroup(a: seq<byte>, b: seq<byte>, c: seq<byte>, d: seq<byte>)
    ensures a + b + c + d == a + (b + c + d)
  {
  }

  lemma {:induction false} TipSpliced(log: seq<byte>, start: nat, size: nat, fields: seq<Node>, pending: seq<byte>,
                                      length: nat)
    requires Tip(log, start, size, fields, pending) && MESSAGE_LENGTH_FIELD_SIZE <= start
    ensures var log' := Spliced(log, start - MESSAGE_LENGTH_FIELD_SIZE, RedundantVarInt(length));
            Tip(log', start, size, fields, pending) && Filled(log', start, length)
  {
    var log' := Spliced(log, start - MESSAGE_LENGTH_FIELD_SIZE, RedundantVarInt(length));
    assert log'[start..] == log[start..];
  }

  // ---- Chains of open messages as values ----------------------------------------------------------

  /** What a message remembers about itself, and where and what it is in the log. A nested message has a
      length field in front of it, and so may the root. */
  datatype Link = Link(start: nat, size: nat, sizeField: Pointer, already: nat, finalized: bool,
                       id: nat, fields: seq<Node>, headed: bool)

  /** The slices of the output stream, as memory and as contents. */
  datatype Stream = Stream(bufs: seq<array<byte>>, used: seq<seq<byte>>) {
    function Log(): seq<byte> {
      Flatten(used)
    }

    /** `later` is this stream after more writes, reservations and backfills. */
    ghost predicate Before(later: Stream) {
      bufs <= later.bufs && |later.bufs| == |later.used| && Keeps(used, later.used)
    }

    ghost predicate Reserved(p: Pointer, at: nat) {
      Addresses(bufs, used, p, at, MESSAGE_LENGTH_FIELD_SIZE)
    }
  }

  /** Message `i` of the chain lies where it says. */
  ghost predicate LinkOk(ls: seq<Link>, s: Stream, pending: seq<byte>, i: nat)
    requires i < |ls|
  {
    var l := ls[i];
    && l.start <= |s.Log()|
    && (i > 0 ==> l.headed)
    && (if !l.headed then l.sizeField == Null
        else if l.finalized then
          l.sizeField == Null && l.already <= l.size && Filled(s.Log(), l.start, l.size - l.already)
        else
          MESSAGE_LENGTH_FIELD_SIZE <= l.start && s.Reserved(l.sizeField, l.start - MESSAGE_LENGTH_FIELD_SIZE))
    && (if i == |ls| - 1 then Tip(s.Log(), l.start, l.size, l.fields, pending)
        else !l.finalized && Inner(s.Log(), l.start, l.size, l.fields, ls[i + 1].id)
             && ls[i + 1].start == l.start + l.size)
  }

  /** The links of a chain from the root inwards. Only the innermost message may be finalized, and
      `pending` is the part of a field that it has written so far. */
  ghost predicate ChainOk(ls: seq<Link>, s: Stream, pending: seq<byte>) {
    ls != [] && forall i :: 0 <= i < |ls| ==> LinkOk(ls, s, pending, i)
  }

  /** No open message from `k` inwards was declared to have more bytes elsewhere than it has by now. This is asked
      when a message is closed, and of messages with a length field only. */
  predicate Covers(ls: seq<Link>, length: nat, k: nat) {
    forall j :: k <= j < |ls| && ls[j].headed && !ls[j].finalized ==> ls[j].already <= length - ls[j].start
  }

  function Last(ls: seq<Link>): Link
    requires ls != []
  {
    ls[|ls| - 1]
  }

  function WithLast(ls: seq<Link>, l: Link): (r: seq<Link>)
    requires ls != []
    ensures |r| == |ls|
  {
    ls[|ls| - 1 := l]
  }

  /** Outer messages stay in place when the log changes only from the innermost length field on. */
  lemma {:induction false} OuterKept(ls: seq<Link>, s: Stream, pending: seq<byte>, ls': seq<Link>, s': Stream,
                                     pending': seq<byte>, i: nat)
    requires ChainOk(ls, s, pending) && s.Before(s')
    requires i < |ls| - 1 && i < |ls'| - 1 && ls'[i] == ls[i]
    requires ls'[i + 1].id == ls[i + 1].id && ls'[i + 1].start == ls[i + 1].start
    requires MESSAGE_LENGTH_FIELD_SIZE <= ls[i + 1].start <= |s.Log()| <= |s'.Log()|
    requires s.Log()[..ls[i + 1].start - MESSAGE_LENGTH_FIELD_SIZE]
             == s'.Log()[..ls[i + 1].start - MESSAGE_LENGTH_FIELD_SIZE]
    ensures LinkOk(ls', s', pending', i)
  {
    hide Flatten, Keeps, Addresses, Inner;
    var l := ls[i];
    assert LinkOk(ls, s, pending, i);
    if l.headed {
      AddressesKept(s.bufs, s.used, s'.bufs, s'.used, l.sizeField,
                    l.start - MESSAGE_LENGTH_FIELD_SIZE, MESSAGE_LENGTH_FIELD_SIZE);
    }
    InnerKept(s.Log(), s'.Log(), l.start, l.size, l.fields, ls[i + 1].id);
  }

  lemma {:induction false} InnermostPlace(ls: seq<Link>, s: Stream, pending: seq<byte>, i: nat)
    requires ChainOk(ls, s, pending) && i < |ls| - 1
    ensures MESSAGE_LENGTH_FIELD_SIZE <= ls[i + 1].start <= Last(ls).start <= |s.Log()|
    decreases |ls| - i
  {
    assert LinkOk(ls, s, pending, i) && LinkOk(ls, s, pending, i + 1);
    if i + 1 < |ls| - 1 {
      InnermostPlace(ls, s, pending, i + 1);
    }
  }

  /** The innermost message may grow and its own length field may change; nothing further out moves. */
  lemma {:induction false} ChainStep(ls: seq<Link>, s: Stream, pending: seq<byte>, l': Link, s': Stream,
                                     pending': seq<byte>)
    requires ChainOk(ls, s, pending) && s.Before(s')
    requires l'.id == Last(ls).id && l'.start == Last(ls).start && l'.headed == Last(ls).headed
    requires |s.Log()| <= |s'.Log()|
    requires |ls| > 1 ==> MESSAGE_LENGTH_FIELD_SIZE <= l'.start <= |s.Log()|
                          && s.Log()[..l'.start - MESSAGE_LENGTH_FIELD_SIZE]
                               == s'.Log()[..l'.start - MESSAGE_LENGTH_FIELD_SIZE]
    requires LinkOk(WithLast(ls, l'), s', pending', |ls| - 1)
    ensures ChainOk(WithLast(ls, l'), s', pending')
  {
    hide LinkOk, Stream.Before, Stream.Log;
    var ls', cut := WithLast(ls, l'), l'.start - MESSAGE_LENGTH_FIELD_SIZE;
    forall i | 0 <= i < |ls|
      ensures LinkOk(ls', s', pending', i)
    {
      if i < |ls| - 1 {
        InnermostPlace(ls, s, pending, i);
        var c := ls[i + 1].start - MESSAGE_LENGTH_FIELD_SIZE;
        assert s.Log()[..cut][..c] == s.Log()[..c] && s'.Log()[..cut][..c] == s'.Log()[..c];
        OuterKept(ls, s, pending, ls', s', pending', i);
      }
    }
  }

  /** Writing `bytes` at the innermost message. */
  function Grown(ls: seq<Link>, n: nat): seq<Link>
    requires ls != []
  {
    WithLast(ls, Last(ls).(size := Last(ls).size + n))
  }

  lemma {:induction false} GrownOk(ls: seq<Link>, s: Stream, pending: seq<byte>, bytes: seq<byte>, s': Stream)
    requires ChainOk(ls, s, pending) && !Last(ls).finalized
    requires s.Before(s') && s'.Log() == s.Log() + bytes
    ensures ChainOk(Grown(ls, |bytes|), s', pending + bytes)
  {
    hide Flatten, Keeps, Addresses, Tip;
    var l := Last(ls);
    assert LinkOk(ls, s, pending, |ls| - 1);
    TipGrows(s.Log(), l.start, l.size, l.fields, pending, bytes);
    if l.headed {
      AddressesKept(s.bufs, s.used, s'.bufs, s'.used, l.sizeField,
                    l.start - MESSAGE_LENGTH_FIELD_SIZE, MESSAGE_LENGTH_FIELD_SIZE);
    }
    ChainStep(ls, s, pending, l.(size := l.size + |bytes|), s', pending + bytes);
  }

  /** The bytes just written are one more field. */
  function Committed(ls: seq<Link>, n: Node): seq<Link>
    requires ls != []
  {
    WithLast(ls, Last(ls).(fields := Last(ls).fields + [n]))
  }

  lemma {:induction false} CommittedOk(ls: seq<Link>, s: Stream, n: Node)
    requires ChainOk(ls, s, EncodeNode(n))
    requires |s.bufs| == |s.used|
    ensures ChainOk(Committed(ls, n), s, [])
  {
    hide Flatten, Addresses, Tip;
    var l := Last(ls);
    assert LinkOk(ls, s, EncodeNode(n), |ls| - 1);
    TipCommits(s.Log(), l.start, l.size, l.fields, n);
    KeepsRefl(s.used);
    ChainStep(ls, s, EncodeNode(n), l.(fields := l.fields + [n]), s, []);
  }

  /** The tag of a nested message has been written and its length reserved at `p`. */
  function Begun(ls: seq<Link>, id: nat, p: Pointer, end: nat): seq<Link>
    requires ls != []
  {
    Grown(ls, MESSAGE_LENGTH_FIELD_SIZE) + [Link(end, 0, p, 0, false, id, [], true)]
  }

  lemma {:induction false} BegunOk(ls: seq<Link>, s: Stream, id: nat, p: Pointer, s': Stream)
    requires ChainOk(ls, s, Preamble(id, WIRE_LENGTH_DELIMITED)) && !Last(ls).finalized
    requires s.Before(s') && s.Log() <= s'.Log() && |s'.Log()| == |s.Log()| + MESSAGE_LENGTH_FIELD_SIZE
    requires s'.Reserved(p, |s.Log()|)
    ensures ChainOk(Begun(ls, id, p, |s'.Log()|), s', [])
  {
    hide Flatten, Keeps, Addresses, Preamble;
    var tag := Preamble(id, WIRE_LENGTH_DELIMITED);
    var bytes := s'.Log()[|s.Log()|..];
    assert s'.Log() == s.Log() + bytes;
    GrownOk(ls, s, tag, bytes, s');
    var grown, ls' := Grown(ls, MESSAGE_LENGTH_FIELD_SIZE), Begun(ls, id, p, |s'.Log()|);
    forall i | 0 <= i < |ls'|
      ensures LinkOk(ls', s', [], i)
    {
      if i < |ls| {
        assert LinkOk(grown, s', tag + bytes, i);
        if i == |ls| - 1 {
          var l, end := ls'[i], |s.Log()|;
          assert s'.Log()[l.start..] == Encode(l.fields) + (tag + bytes);
          assert s'.Log()[l.start..end] == s'.Log()[l.start..][..|Encode(l.fields) + tag|];
        }
      }
    }
  }

  /** The innermost message after `Finalize`. */
  function Sealed(ls: seq<Link>): seq<Link>
    requires ls != []
  {
    WithLast(ls, Last(ls).(finalized := true, sizeField := Null))
  }

  lemma {:induction false} SealedRootOk(ls: seq<Link>, s: Stream)
    requires ChainOk(ls, s, []) && |ls| == 1 && !ls[0].headed
    ensures ChainOk(Sealed(ls), s, [])
  {
    assert LinkOk(ls, s, [], 0);
  }

  lemma {:induction false} SealedOk(ls: seq<Link>, s: Stream, s': Stream)
    requires ChainOk(ls, s, []) && Last(ls).headed && !Last(ls).finalized
    requires s.Before(s')
    requires var l := Last(ls);
             && MESSAGE_LENGTH_FIELD_SIZE <= l.start <= |s.Log()| && l.already <= l.size
             && s'.Log() == Spliced(s.Log(), l.start - MESSAGE_LENGTH_FIELD_SIZE, RedundantVarInt(l.size - l.already))
    ensures ChainOk(Sealed(ls), s', [])
  {
    hide Flatten, Keeps, Addresses, Tip, Filled, RedundantVarInt;
    var l := Last(ls);
    assert LinkOk(ls, s, [], |ls| - 1);
    TipSpliced(s.Log(), l.start, l.size, l.fields, [], l.size - l.already);
    ChainStep(ls, s, [], l.(finalized := true, sizeField := Null), s', []);
  }

  /** The chain once the innermost message, which is finalized, has become a field. */
  function Merged(ls: seq<Link>): (r: seq<Link>)
    requires |ls| > 1
    ensures |r| == |ls| - 1
  {
    var outer, l := ls[..|ls| - 1], Last(ls);
    WithLast(outer, Last(outer).(size := Last(outer).size + l.size,
                                 fields := Last(outer).fields + [Msg(l.id, l.already, l.fields)]))
  }

  lemma {:induction false} MergedOk(ls: seq<Link>, s: Stream)
    requires ChainOk(ls, s, []) && |ls| > 1 && Last(ls).finalized
    ensures ChainOk(Merged(ls), s, [])
  {
    hide Flatten, Addresses, Tip, Filled, Inner;
    var k, ls' := |ls| - 2, Merged(ls);
    var m, l := ls[k], ls[k + 1];
    assert LinkOk(ls, s, [], k) && LinkOk(ls, s, [], k + 1);
    NestedCommits(s.Log(), m.start, m.size, m.fields, l.id, l.size, l.already, l.fields);
    forall i | 0 <= i < |ls'|
      ensures LinkOk(ls', s, [], i)
    {
      assert LinkOk(ls, s, [], i);
    }
  }

  /** The chain once every message inside message `k` has been closed, innermost first. */
  function Closed(ls: seq<Link>, k: nat): (r: seq<Link>)
    requires k < |ls|
    ensures |r| == k + 1 && r[..k] == ls[..k]
    decreases |ls| - k
  {
    if k == |ls| - 1 then ls else Merged(Sealed(Closed(ls, k + 1)))
  }

  /** What the innermost message knows of its place. */
  lemma {:induction false} InnermostFacts(ls: seq<Link>, s: Stream, pending: seq<byte>)
    requires ChainOk(ls, s, pending)
    ensures var l := Last(ls);
            && l.start <= |s.Log()| && |s.Log()| - l.start == l.size
            && (!l.headed ==> |ls| == 1) && (!l.headed || l.finalized ==> l.sizeField == Null)
            && (l.headed && !l.finalized ==>
                  l.sizeField != Null && MESSAGE_LENGTH_FIELD_SIZE <= l.start
                  && s.Reserved(l.sizeField, l.start - MESSAGE_LENGTH_FIELD_SIZE))
  {
    assert LinkOk(ls, s, pending, |ls| - 1);
  }

  lemma {:induction false} OuterOpen(ls: seq<Link>, s: Stream, pending: seq<byte>, k: nat)
    requires ChainOk(ls, s, pending) && k < |ls| - 1
    ensures !ls[k].finalized
  {
    assert LinkOk(ls, s, pending, k);
  }

  // ---- The message class ------------------------------------------------------------------------

  ghost function View(w: ScatteredStreamWriter): Stream
    reads w
  {
    Stream(w.bufs, w.used)
  }

  /** What a step on the output stream may do: the stream moves on, and new memory is fresh. */
  twostate predicate MovesOn(w: ScatteredStreamWriter)
    reads w, w.delegate
  {
    && old(View(w)).Before(View(w))
    && (forall i :: |old(w.bufs)| <= i < |w.bufs| ==> fresh(w.bufs[i]))
  }

  class Message {
    var writer: ScatteredStreamWriter
    var size: nat
    var sizeField: Pointer
    var sizeAlreadyWritten: nat
    var nested: Message?
    var nestingDepth: nat
    var finalized: bool

    constructor (writer: ScatteredStreamWriter)
      ensures this.writer == writer && IsReset()
    {
      this.writer := writer;
      new;
      Reset(writer);
    }

    ghost predicate IsReset()
      reads this
    {
      && size == 0 && sizeField == Null && sizeAlreadyWritten == 0
      && nested == null && nestingDepth == 0 && !finalized
    }

    method Reset(w: ScatteredStreamWriter)
      modifies this
      ensures writer == w && IsReset()
    {
      writer := w;
      size := 0;
      sizeField := Null;
      sizeAlreadyWritten := 0;
      nested := null;
      nestingDepth := 0;
      finalized := false;
    }

    /** Bytes go to the end of the stream, and count as this message's. */
    method Put(bytes: seq<byte>)
      requires writer.Valid()
      modifies this`size, writer, writer.delegate, writer.cur
      ensures writer.Valid() && size == old(size) + |bytes| && writer.Log() == old(writer.Log()) + bytes
      ensures MovesOn(writer) && old(writer.delegate.nextSliceSize) <= writer.delegate.nextSliceSize
      ensures writer.cur == null || writer.cur == old(writer.cur) || fresh(writer.cur)
    {
      hide ScatteredStreamWriter.Valid, Flatten, Keeps;
      writer.WriteBytes(bytes);
      size := size + |bytes|;
    }

    /** Adds to the bytes of the innermost open message. */
    method WriteToStream(bytes: seq<byte>, ghost ms: seq<Message>, ghost ls: seq<Link>, ghost pending: seq<byte>)
      requires Chain(ms, ls, writer, pending) && this == ms[|ms| - 1] && !finalized
      modifies this`size, writer, writer.delegate, writer.cur
      ensures Chain(ms, Grown(ls, |bytes|), writer, pending + bytes)
      ensures MovesOn(writer) && writer.Log() == old(writer.Log()) + bytes
      ensures writer.cur == null || writer.cur == old(writer.cur) || fresh(writer.cur)
    {
      hide ScatteredStreamWriter.Valid, ChainOk, Flatten, Keeps;
      ghost var s := View(writer);
      assert Attached(ms, ls, writer, |ms| - 1);
      Put(bytes);
      GrownOk(ls, s, pending, bytes, View(writer));
      forall i | 0 <= i < |ms|
        ensures Attached(ms, Grown(ls, |bytes|), writer, i)
      {
        assert old(Attached(ms, ls, writer, i));
      }
    }

    /** Closes this message and everything inside it, filling in their lengths. Returns its size. */
    method Finalize(ghost ms: seq<Message>, ghost ls: seq<Link>, ghost k: nat) returns (total: nat)
      requires Chain(ms, ls, writer, []) && k < |ms| && this == ms[k] && Covers(ls, |writer.Log()|, k)
      modifies ms, writer, writer.bufs
      ensures writer == old(writer) && Chain(ms[..k + 1], Sealed(Closed(ls, k)), writer, [])
      ensures MovesOn(writer) && writer.bufs == old(writer.bufs) && |writer.Log()| == |old(writer.Log())|
      ensures total == size
      decreases |ms| - k, 0
    {
      hide ScatteredStreamWriter.Valid, ChainOk, Flatten, Keeps, Closed;
      assert Attached(ms, ls, writer, k);
      KeepsRefl(writer.used);
      if k == |ms| - 1 {
        assert ms[..k + 1] == ms;
        ClosedLast(ls);
        InnermostFacts(ls, View(writer), []);
      } else {
        OuterOpen(ls, View(writer), [], k);
      }
      if finalized {
        assert Sealed(ls) == ls;
        return size;
      }
      if nested != null {
        EndNestedMessage(ms, ls, k);
      }
      ghost var middle := writer.used;
      ClosedKeeps(ls, k);
      InnermostFacts(Closed(ls, k), View(writer), []);
      assert Attached(ms[..k + 1], Closed(ls, k), writer, k);
      Seal(ms[..k + 1], Closed(ls, k));
      KeepsTransitive(old(writer.used), middle, writer.used);
      total := size;
    }

    method EndNestedMessage(ghost ms: seq<Message>, ghost ls: seq<Link>, ghost k: nat)
      requires Chain(ms, ls, writer, []) && k < |ms| - 1 && this == ms[k] && Covers(ls, |writer.Log()|, k + 1)
      modifies ms, writer, writer.bufs
      ensures writer == old(writer) && Chain(ms[..k + 1], Closed(ls, k), writer, []) && !finalized
      ensures MovesOn(writer) && writer.bufs == old(writer.bufs) && |writer.Log()| == |old(writer.Log())|
      decreases |ms| - k - 1, 1
    {
      hide ScatteredStreamWriter.Valid, ChainOk, Flatten, Keeps, Closed;
      assert Attached(ms, ls, writer, k) && Attached(ms, ls, writer, k + 1);
      var nestedSize := nested.Finalize(ms, ls, k + 1);
      assert Attached(ms[..k + 2], Sealed(Closed(ls, k + 1)), old(writer), k);
      assert Attached(ms[..k + 2], Sealed(Closed(ls, k + 1)), old(writer), k + 1);
      Merge(ms[..k + 2], Sealed(Closed(ls, k + 1)), nestedSize);
      ClosedStep(ls, k);
      assert ms[..k + 2][..k + 1] == ms[..k + 1];
    }

    /** Takes over the size of the nested message, which is finalized. */
    method Merge(ghost ms: seq<Message>, ghost ls: seq<Link>, nestedSize: nat)
      requires Chain(ms, ls, writer, []) && |ms| > 1 && this == ms[|ms| - 2]
      requires ms[|ms| - 1].finalized && nestedSize == ms[|ms| - 1].size
      modifies this
      ensures writer == old(writer) && Chain(ms[..|ms| - 1], Merged(ls), writer, []) && !finalized
    {
      hide ScatteredStreamWriter.Valid, ChainOk, Flatten;
      ghost var k := |ms| - 2;
      assert Attached(ms, ls, writer, k + 1) && Attached(ms, ls, writer, k);
      OuterOpen(ls, View(writer), [], k);
      size := size + nestedSize;
      nested := null;
      MergedOk(ls, View(writer));
      ghost var outer := ms[..k + 1];
      forall i | 0 <= i < |outer|
        ensures Attached(outer, Merged(ls), writer, i)
      {
        assert old(Attached(ms, ls, writer, i));
      }
    }

    /** The innermost message fills in its own length, if it has a length field, and is done. */
    method Seal(ghost ms: seq<Message>, ghost ls: seq<Link>)
      requires Chain(ms, ls, writer, []) && this == ms[|ms| - 1] && !finalized
      requires sizeField != Null ==> sizeAlreadyWritten <= size
      modifies this, writer, writer.bufs
      ensures writer == old(writer) && size == old(size) && Chain(ms, Sealed(ls), writer, [])
      ensures MovesOn(writer) && writer.bufs == old(writer.bufs) && |writer.Log()| == |old(writer.Log())|
    {
      hide ScatteredStreamWriter.Valid, ChainOk, Flatten, Keeps, Addresses, RedundantVarInt;
      ghost var last, s := |ms| - 1, View(writer);
      assert Attached(ms, ls, writer, last);
      InnermostFacts(ls, s, []);
      KeepsRefl(writer.used);
      if sizeField != Null {
        writer.Backfill(sizeField, ls[last].start - MESSAGE_LENGTH_FIELD_SIZE, size - sizeAlreadyWritten);
        sizeField := Null;
        SealedOk(ls, s, View(writer));
      } else {
        SealedRootOk(ls, s);
      }
      finalized := true;
      forall i | 0 <= i < |ms|
        ensures Attached(ms, Sealed(ls), writer, i)
      {
        assert old(Attached(ms, ls, writer, i));
      }
    }

    /** Makes room for one more field of this message: whatever is open inside it is closed. */
    method CloseNested(ghost ms: seq<Message>, ghost ls: seq<Link>, ghost k: nat)
      requires Chain(ms, ls, writer, []) && k < |ms| && this == ms[k] && Covers(ls, |writer.Log()|, k + 1)
      modifies ms, writer, writer.bufs
      ensures writer == old(writer) && Chain(ms[..k + 1], Closed(ls, k), writer, [])
      ensures finalized == old(finalized)
      ensures MovesOn(writer) && writer.bufs == old(writer.bufs) && |writer.Log()| == |old(writer.Log())|
    {
      hide ScatteredStreamWriter.Valid, ChainOk, Flatten, Keeps, Closed;
      assert Attached(ms, ls, writer, k);
      KeepsRefl(writer.used);
      if nested != null {
        OuterOpen(ls, View(writer), [], k);
        EndNestedMessage(ms, ls, k);
      } else {
        assert ms[..k + 1] == ms;
        ClosedLast(ls);
      }
    }

    /** Writes a whole field of the innermost message, in two pieces. */
    method WriteField(preamble: seq<byte>, payload: seq<byte>, ghost n: Node, ghost ms: seq<Message>,
                      ghost ls: seq<Link>)
      requires Chain(ms, ls, writer, []) && this == ms[|ms| - 1] && !finalized
      requires preamble + payload == EncodeNode(n)
      modifies this`size, writer, writer.delegate, writer.cur
      ensures Chain(ms, Appended(ls, n), writer, []) && MovesOn(writer)
    {
      hide ScatteredStreamWriter.Valid, ChainOk, Flatten, Keeps, EncodeNode;
      ghost var s := View(writer);
      assert Attached(ms, ls, writer, |ms| - 1);
      Put(preamble);
      ghost var middle := writer.used;
      Put(payload);
      KeepsTransitive(old(writer.used), middle, writer.used);
      assert old(writer.Log()) + preamble + payload == old(writer.Log()) + EncodeNode(n);
      AppendedOk(ls, s, n, View(writer));
      forall i | 0 <= i < |ms|
        ensures Attached(ms, Appended(ls, n), writer, i)
      {
        assert old(Attached(ms, ls, writer, i));
      }
    }

    /** A varint field; a nested message that is open is closed first. */
    method AppendVarInt(id: nat, value: nat, ghost ms: seq<Message>, ghost ls: seq<Link>, ghost k: nat)
      requires Chain(ms, ls, writer, []) && k < |ms| && this == ms[k] && !finalized
      requires Covers(ls, |writer.Log()|, k + 1)
      modifies ms, writer, writer.delegate, writer.bufs
      ensures writer == old(writer) && MovesOn(writer)
      ensures Chain(ms[..k + 1], Appended(Closed(ls, k), Scalar(id, value)), writer, [])
    {
      hide ScatteredStreamWriter.Valid, ChainOk, Flatten, Keeps, Closed, VarInt, LittleEndian;
      CloseNested(ms, ls, k);
      ghost var middle := writer.used;
      var tag := WriteVarInt(Tag(id, WIRE_VARINT));
      var payload := WriteVarInt(value);
      WriteField(tag, payload, Scalar(id, value), ms[..k + 1], Closed(ls, k));
      KeepsTransitive(old(writer.used), middle, writer.used);
    }

    /** The shortcut for values of one byte writes the same field. */
    method AppendTinyVarInt(id: nat, value: nat, ghost ms: seq<Message>, ghost ls: seq<Link>, ghost k: nat)
      requires Chain(ms, ls, writer, []) && k < |ms| && this == ms[k] && !finalized
      requires Covers(ls, |writer.Log()|, k + 1)
      requires value < 0x80
      modifies ms, writer, writer.delegate, writer.bufs
      ensures writer == old(writer) && MovesOn(writer)
      ensures Chain(ms[..k + 1], Appended(Closed(ls, k), Scalar(id, value)), writer, [])
    {
      hide ScatteredStreamWriter.Valid, ChainOk, Flatten, Keeps, Closed, VarInt, LittleEndian;
      CloseNested(ms, ls, k);
      ghost var middle := writer.used;
      var tag := WriteVarInt(Tag(id, WIRE_VARINT));
      TinyVarInt(value);
      WriteField(tag, [value], Scalar(id, value), ms[..k + 1], Closed(ls, k));
      KeepsTransitive(old(writer.used), middle, writer.used);
    }

    /** A field of eight bytes, little endian. */
    method AppendFixed64(id: nat, value: nat, ghost ms: seq<Message>, ghost ls: seq<Link>, ghost k: nat)
      requires Chain(ms, ls, writer, []) && k < |ms| && this == ms[k] && !finalized
      requires Covers(ls, |writer.Log()|, k + 1)
      modifies ms, writer, writer.delegate, writer.bufs
      ensures writer == old(writer) && MovesOn(writer)
      ensures Chain(ms[..k + 1], Appended(Closed(ls, k), Fixed64(id, value)), writer, [])
    {
      hide ScatteredStreamWriter.Valid, ChainOk, Flatten, Keeps, Closed, VarInt, LittleEndian;
      CloseNested(ms, ls, k);
      ghost var middle := writer.used;
      var tag := WriteVarInt(Tag(id, WIRE_FIXED64));
      WriteField(tag, LittleEndian(value, 8), Fixed64(id, value), ms[..k + 1], Closed(ls, k));
      KeepsTransitive(old(writer.used), middle, writer.used);
    }

    /** A field of four bytes, little endian. */
    method AppendFixed32(id: nat, value: nat, ghost ms: seq<Message>, ghost ls: seq<Link>, ghost k: nat)
      requires Chain(ms, ls, writer, []) && k < |ms| && this == ms[k] && !finalized
      requires Covers(ls, |writer.Log()|, k + 1)
      modifies ms, writer, writer.delegate, writer.bufs
      ensures writer == old(writer) && MovesOn(writer)
      ensures Chain(ms[..k + 1], Appended(Closed(ls, k), Fixed32(id, value)), writer, [])
    {
      hide ScatteredStreamWriter.Valid, ChainOk, Flatten, Keeps, Closed, VarInt, LittleEndian;
      CloseNested(ms, ls, k);
      ghost var middle := writer.used;
      var tag := WriteVarInt(Tag(id, WIRE_FIXED32));
      WriteField(tag, LittleEndian(value, 4), Fixed32(id, value), ms[..k + 1], Closed(ls, k));
      KeepsTransitive(old(writer.used), middle, writer.used);
    }

    /** A string or bytes field. */
    method AppendBytes(id: nat, src: seq<byte>, ghost ms: seq<Message>, ghost ls: seq<Link>, ghost k: nat)
      requires Chain(ms, ls, writer, []) && k < |ms| && this == ms[k] && !finalized
      requires Covers(ls, |writer.Log()|, k + 1)
      modifies ms, writer, writer.delegate, writer.bufs
      ensures writer == old(writer) && MovesOn(writer)
      ensures Chain(ms[..k + 1], Appended(Closed(ls, k), Bytes(id, src)), writer, [])
    {
      hide ScatteredStreamWriter.Valid, ChainOk, Flatten, Keeps, Closed, VarInt, LittleEndian;
      CloseNested(ms, ls, k);
      ghost var middle := writer.used;
      var tag := WriteVarInt(Tag(id, WIRE_LENGTH_DELIMITED));
      var length := WriteVarInt(|src|);
      WriteField(tag + length, src, Bytes(id, src), ms[..k + 1], Closed(ls, k));
      KeepsTransitive(old(writer.used), middle, writer.used);
    }

    /** A bytes field gathered from several ranges. Unlike the other fields it does not close a nested
        message: if one is open, the field goes behind the bytes that it has so far. */
    method AppendScatteredBytes(id: nat, ranges: seq<seq<byte>>, ghost ms: seq<Message>, ghost ls: seq<Link>,
                                ghost k: nat)
      returns (total: nat)
      requires Chain(ms, ls, writer, []) && k < |ms| && this == ms[k] && !finalized
      modifies this`size, writer, writer.delegate, writer.cur
      ensures MovesOn(writer) && total == |Flatten(ranges)|
      ensures writer.Log() == old(writer.Log()) + EncodeNode(Bytes(id, Flatten(ranges)))
      ensures size == old(size) + |EncodeNode(Bytes(id, Flatten(ranges)))|
      ensures k == |ms| - 1 ==> Chain(ms, Appended(ls, Bytes(id, Flatten(ranges))), writer, [])
    {
      hide ScatteredStreamWriter.Valid, ChainOk, Flatten, Keeps, VarInt, EncodeNode;
      ghost var n, s := Bytes(id, Flatten(ranges)), View(writer);
      assert Attached(ms, ls, writer, k);
      total := TotalSize(ranges);
      var tag := WriteVarInt(Tag(id, WIRE_LENGTH_DELIMITED));
      var length := WriteVarInt(total);
      BytesParts(id, ranges);
      Put(tag + length);
      ghost var middle, header := writer.used, writer.Log();
      PutRanges(ranges);
      KeepsTransitive(old(writer.used), middle, writer.used);
      assert old(writer.Log()) + (tag + length) + Flatten(ranges)
             == old(writer.Log()) + (tag + length + Flatten(ranges));
      if k == |ms| - 1 {
        AppendedOk(ls, s, n, View(writer));
        forall i | 0 <= i < |ms|
          ensures Attached(ms, Appended(ls, n), writer, i)
        {
          assert old(Attached(ms, ls, writer, i));
        }
      }
    }

    method PutRanges(ranges: seq<seq<byte>>)
      requires writer.Valid()
      modifies this`size, writer, writer.delegate, writer.cur
      ensures writer.Valid() && size == old(size) + |Flatten(ranges)|
      ensures writer.Log() == old(writer.Log()) + Flatten(ranges)
      ensures MovesOn(writer) && old(writer.delegate.nextSliceSize) <= writer.delegate.nextSliceSize
      ensures writer.cur == null || writer.cur == old(writer.cur) || fresh(writer.cur)
    {
      hide ScatteredStreamWriter.Valid, Flatten, Keeps;
      KeepsRefl(writer.used);
      FlattenNone(ranges);
      assert writer.Log() + [] == writer.Log();
      for i := 0 to |ranges|
        invariant writer.Valid() && size == old(size) + |Flatten(ranges[..i])|
        invariant writer.Log() == old(writer.Log()) + Flatten(ranges[..i])
        invariant MovesOn(writer) && old(writer.delegate.nextSliceSize) <= writer.delegate.nextSliceSize
        invariant writer.cur == null || writer.cur == old(writer.cur) || fresh(writer.cur)
      {
        ghost var middle := writer.used;
        Put(ranges[i]);
        KeepsTransitive(old(writer.used), middle, writer.used);
        FlattenNext(ranges, i);
        assert old(writer.Log()) + Flatten(ranges[..i]) + ranges[i] == old(writer.Log()) + Flatten(ranges[..i + 1]);
      }
      assert ranges[..|ranges|] == ranges;
    }

    /** Opens a nested message: its tag is written and its length reserved. */
    method BeginNestedMessage(id: nat, ghost ms: seq<Message>, ghost ls: seq<Link>, ghost k: nat)
      returns (message: Message)
      requires Chain(ms, ls, writer, []) && k < |ms| && this == ms[k] && !finalized
      requires Covers(ls, |writer.Log()|, k + 1)
      requires nestingDepth < MAX_NESTING_DEPTH
      modifies ms, writer, writer.delegate, writer.bufs
      ensures writer == old(writer) && MovesOn(writer) && fresh(message)
      ensures message.writer == writer && !message.finalized
      ensures Chain(ms[..k + 1] + [message],
                    Begun(Grown(Closed(ls, k), |Preamble(id, WIRE_LENGTH_DELIMITED)|), id, message.sizeField,
                        |writer.Log()|),
                    writer, [])
    {
      hide ScatteredStreamWriter.Valid, ChainOk, Flatten, Keeps, Closed, VarInt;
      CloseNested(ms, ls, k);
      ghost var outer, middle := ms[..k + 1], writer.used;
      var tag := WriteVarInt(Tag(id, WIRE_LENGTH_DELIMITED));
      WriteToStream(tag, outer, Closed(ls, k), []);
      KeepsTransitive(old(writer.used), middle, writer.used);
      assert [] + tag == tag;
      message := new Message(writer);
      assert Attached(outer, Grown(Closed(ls, k), |tag|), writer, k);
      middle := writer.used;
      Nest(message, id, outer, Grown(Closed(ls, k), |tag|));
      KeepsTransitive(old(writer.used), middle, writer.used);
    }

    /** Reserves the length of `message` and makes it the open message inside this one. */
    method Nest(message: Message, ghost id: nat, ghost ms: seq<Message>, ghost ls: seq<Link>)
      requires Chain(ms, ls, writer, Preamble(id, WIRE_LENGTH_DELIMITED)) && this == ms[|ms| - 1] && !finalized
      requires message !in ms && message.writer == writer && message.IsReset()
      modifies this, message, writer, writer.delegate
      ensures writer == old(writer) && MovesOn(writer) && message.writer == writer && !message.finalized
      ensures Chain(ms + [message], Begun(ls, id, message.sizeField, |writer.Log()|), writer, [])
    {
      hide ScatteredStreamWriter.Valid, ChainOk, Flatten, Keeps, VarInt, Addresses;
      ghost var s := View(writer);
      assert Attached(ms, ls, writer, |ms| - 1);
      message.nestingDepth := nestingDepth + 1;
      var p := writer.ReserveBytes(MESSAGE_LENGTH_FIELD_SIZE);
      message.sizeField := p;
      size := size + MESSAGE_LENGTH_FIELD_SIZE;
      nested := message;
      BegunOk(ls, s, id, p, View(writer));
      ghost var ms', ls' := ms + [message], Begun(ls, id, p, |writer.Log()|);
      forall i | 0 <= i < |ms'|
        ensures Attached(ms', ls', writer, i)
      {
        if i < |ms| {
          assert old(Attached(ms, ls, writer, i));
        }
      }
    }

    /** Declares part of this message as written elsewhere, or to be, which its length field will leave out. */
    method IncSizeAlreadyWritten(n: nat, ghost ms: seq<Message>, ghost ls: seq<Link>, ghost k: nat)
      requires Chain(ms, ls, writer, []) && k < |ms| && this == ms[k] && !finalized
      modifies this`sizeAlreadyWritten
      ensures Chain(ms, ls[k := ls[k].(already := ls[k].already + n)], writer, [])
    {
      hide ScatteredStreamWriter.Valid, ChainOk, Flatten;
      sizeAlreadyWritten := sizeAlreadyWritten + n;
      ghost var ls' := ls[k := ls[k].(already := ls[k].already + n)];
      assert old(Attached(ms, ls, writer, k));
      AlreadyOk(ls, View(writer), k, n);
      forall i | 0 <= i < |ms|
        ensures Attached(ms, ls', writer, i)
      {
        assert old(Attached(ms, ls, writer, i));
      }
    }
  }

  lemma {:induction false} AlreadyOk(ls: seq<Link>, s: Stream, k: nat, n: nat)
    requires ChainOk(ls, s, []) && k < |ls| && !ls[k].finalized
    ensures ChainOk(ls[k := ls[k].(already := ls[k].already + n)], s, [])
  {
    hide Flatten, Addresses, Tip, Inner, Filled;
    var ls' := ls[k := ls[k].(already := ls[k].already + n)];
    forall i | 0 <= i < |ls'|
      ensures LinkOk(ls', s, [], i)
    {
      assert LinkOk(ls, s, [], i);
    }
  }

  lemma {:induction false} FlattenNone(ranges: seq<seq<byte>>)
    ensures Flatten(ranges[..0]) == []
  {
  }

  method TotalSize(ranges: seq<seq<byte>>) returns (total: nat)
    ensures total == |Flatten(ranges)|
  {
    total := 0;
    for i := 0 to |ranges|
      invariant total == |Flatten(ranges[..i])|
    {
      FlattenNext(ranges, i);
      total := total + |ranges[i]|;
    }
    assert ranges[..|ranges|] == ranges;
  }

  lemma {:induction false} FlattenNext(ranges: seq<seq<byte>>, i: nat)
    requires i < |ranges|
    ensures Flatten(ranges[..i + 1]) == Flatten(ranges[..i]) + ranges[i]
  {
    assert ranges[..i + 1][..i] == ranges[..i];
  }

  lemma {:induction false} BytesParts(id: nat, ranges: seq<seq<byte>>)
    ensures var data := Flatten(ranges);
            EncodeNode(Bytes(id, data)) == Preamble(id, WIRE_LENGTH_DELIMITED) + VarInt(|data|) + data
  {
  }

  lemma {:induction false} AppendedOk(ls: seq<Link>, s: Stream, n: Node, s': Stream)
    requires ls != [] && ChainOk(ls, s, []) && !Last(ls).finalized
    requires s.Before(s') && s'.Log() == s.Log() + EncodeNode(n)
    ensures ChainOk(Appended(ls, n), s', [])
  {
    hide ChainOk, Flatten, Keeps, EncodeNode;
    GrownOk(ls, s, [], EncodeNode(n), s');
    assert [] + EncodeNode(n) == EncodeNode(n);
    CommittedOk(Grown(ls, |EncodeNode(n)|), s', n);
  }

  lemma {:induction false} TinyVarInt(value: nat)
    requires value < 0x80
    ensures VarInt(value) == [value]
  {
  }

  /** One more field at the end of the innermost message. */
  function Appended(ls: seq<Link>, n: Node): seq<Link>
    requires ls != []
  {
    Committed(Grown(ls, |EncodeNode(n)|), n)
  }

  /** `ms` are the open messages from the root inwards, each knowing the next, and `ls` what they are. */
  ghost predicate Chain(ms: seq<Message>, ls: seq<Link>, w: ScatteredStreamWriter, pending: seq<byte>)
    reads ms, w, w.delegate, w.bufs
  {
    && w.Valid() && MESSAGE_LENGTH_FIELD_SIZE <= w.delegate.nextSliceSize
    && ChainOk(ls, View(w), pending)
    && ms != [] && |ms| == |ls|
    && (forall i, j :: 0 <= i < j < |ms| ==> ms[i] != ms[j])
    && (forall i :: 0 <= i < |ms| ==> Attached(ms, ls, w, i))
  }

  ghost predicate Attached(ms: seq<Message>, ls: seq<Link>, w: ScatteredStreamWriter, i: nat)
    requires i < |ms| == |ls|
    reads ms
  {
    var m := ms[i];
    && m.writer == w && m.nestingDepth == i
    && m.size == ls[i].size && m.sizeField == ls[i].sizeField
    && m.sizeAlreadyWritten == ls[i].already && m.finalized == ls[i].finalized
    && m.nested == if i == |ms| - 1 then null else ms[i + 1]
  }

  lemma {:induction false} ClosedKeeps(ls: seq<Link>, k: nat)
    requires k < |ls|
    ensures var l := Closed(ls, k)[k];
            && l.start == ls[k].start && l.already == ls[k].already
            && l.headed == ls[k].headed && l.finalized == ls[k].finalized
    decreases |ls| - k
  {
    if k < |ls| - 1 {
      ClosedKeeps(ls, k + 1);
      assert Closed(ls, k + 1)[..k + 1][k] == ls[..k + 1][k];
    }
  }

  lemma {:induction false} ClosedLast(ls: seq<Link>)
    requires ls != []
    ensures Closed(ls, |ls| - 1) == ls
  {
  }

  lemma {:induction false} ClosedStep(ls: seq<Link>, k: nat)
    requires k < |ls| - 1
    ensures Closed(ls, k) == Merged(Sealed(Closed(ls, k + 1)))
  {
  }
}
