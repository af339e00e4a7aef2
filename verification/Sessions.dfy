/** Whole write sessions on a message: any interleaving of appends, nested messages opened at any
    level and messages closed early or left to be closed by what follows. */
module Sessions {
  import opened Options
  import opened Wire
  import opened Decoder
  import opened Tree
  import opened ScatteredBuffer
  import opened Messages

  // ---- What a session means -----------------------------------------------------------------------

  /** An open message: its id in the message around it and the fields finished so far. */
  datatype Frame = Frame(id: nat, already: nat, fields: seq<Node>)

  /** The fields of message `k` if everything open inside it were closed now. */
  function Collapsed(fs: seq<Frame>, k: nat): seq<Node>
    requires k < |fs|
    decreases |fs| - k
  {
    if k == |fs| - 1 then fs[k].fields
    else fs[k].fields + [Msg(fs[k + 1].id, fs[k + 1].already, Collapsed(fs, k + 1))]
  }

  /** The open messages once those inside message `k` are closed. */
  function Folded(fs: seq<Frame>, k: nat): (r: seq<Frame>)
    requires k < |fs|
    ensures |r| == k + 1
  {
    fs[..k] + [fs[k].(fields := Collapsed(fs, k))]
  }

  /** A call on the message at some level of the chain. `Declare` says that bytes of the message have been
      written elsewhere. */
  datatype Call =
    | Append(level: nat, field: Node)
    | Scatter(level: nat, id: nat, ranges: seq<seq<byte>>)
    | Declare(level: nat, n: nat)
    | Begin(level: nat, id: nat)
    | End(level: nat)

  /** `sealed` says that the innermost message has been finalized but not yet left. */
  datatype Session = Session(frames: seq<Frame>, sealed: bool)

  const FRESH := Session([Frame(0, 0, [])], false)

  /** How many bytes message `k` has so far, with those of what is open inside it. */
  function Weight(fs: seq<Frame>, k: nat): nat
    requires k < |fs|
    decreases |fs| - k
  {
    |Encode(fs[k].fields)|
    + if k == |fs| - 1 then 0
      else |Preamble(fs[k + 1].id, WIRE_LENGTH_DELIMITED)| + MESSAGE_LENGTH_FIELD_SIZE + Weight(fs, k + 1)
  }

  /** No message from `k` inwards was declared to have more bytes elsewhere than it has. */
  predicate Covered(fs: seq<Frame>, k: nat) {
    forall j :: k <= j < |fs| ==> fs[j].already <= Weight(fs, j)
  }

  /** The calls the interface allows: on a message that is open, within the nesting limit. Scattered bytes go to
      the innermost message; what a call closes has as many bytes as were declared of it. */
  predicate Allowed(st: Session, c: Call) {
    && c.level < |st.frames|
    && (c.End? || !(st.sealed && c.level == |st.frames| - 1))
    && (c.Append? ==> !c.field.Msg?)
    && (c.Scatter? ==> c.level == |st.frames| - 1)
    && (c.Append? || c.Begin? ==> Covered(st.frames, c.level + 1))
    && (c.End? ==> Covered(st.frames, c.level))
    && (c.Begin? ==> c.level < MAX_NESTING_DEPTH)
  }

  predicate Undeclared(fs: seq<Frame>) {
    forall j :: 0 <= j < |fs| ==> fs[j].already == 0
  }

  lemma {:induction false} UndeclaredCovered(fs: seq<Frame>)
    requires Undeclared(fs)
    ensures forall k :: 0 <= k ==> Covered(fs, k)
  {
    hide Weight;
  }

  lemma {:induction false} UndeclaredAfter(st: Session, c: Call)
    requires Undeclared(st.frames) && c.level < |st.frames| && !c.Declare?
    ensures Undeclared(After(st, c).frames)
  {
    hide Collapsed, Flatten;
  }

  function After(st: Session, c: Call): Session
    requires c.level < |st.frames|
  {
    var fs := Folded(st.frames, c.level);
    match c
    case Append(k, n) => Session(fs[k := fs[k].(fields := fs[k].fields + [n])], false)
    case Scatter(k, id, ranges) => Session(fs[k := fs[k].(fields := fs[k].fields + [Bytes(id, Flatten(ranges))])],
          false)
    case Declare(k, n) => st.(frames := st.frames[k := st.frames[k].(already := st.frames[k].already + n)])
    case Begin(k, id) => Session(fs + [Frame(id, 0, [])], false)
    case End(k) => Session(fs, true)
  }

  function Run(calls: seq<Call>): (st: Session)
    ensures st.frames != []
  {
    if calls == [] then FRESH
    else
      var st, c := Run(calls[..|calls| - 1]), calls[|calls| - 1];
      if c.level < |st.frames| then After(st, c) else st
  }

  ghost predicate WellNested(calls: seq<Call>) {
    forall i :: 0 <= i < |calls| ==> Allowed(Run(calls[..i]), calls[i])
  }

  /** The tree a session describes, and what it declares of the root as written elsewhere. */
  function Meaning(calls: seq<Call>): seq<Node> {
    Collapsed(Run(calls).frames, 0)
  }

  function Declared(calls: seq<Call>): nat {
    Run(calls).frames[0].already
  }

  // ---- Links and frames -----------------------------------------------------------------------------

  function Frames(ls: seq<Link>): (fs: seq<Frame>)
    ensures |fs| == |ls|
  {
    seq(|ls|, i requires 0 <= i < |ls| => Frame(ls[i].id, ls[i].already, ls[i].fields))
  }

  /** Closing inwards messages one by one folds the frames. */
  lemma {:induction false} ClosedFrames(ls: seq<Link>, k: nat)
    requires k < |ls|
    ensures Frames(Closed(ls, k)) == Folded(Frames(ls), k)
    ensures var l := Closed(ls, k)[k];
            l.start == ls[k].start && l.finalized == ls[k].finalized && l.headed == ls[k].headed
    decreases |ls| - k
  {
    if k < |ls| - 1 {
      ClosedFrames(ls, k + 1);
      var inner := Closed(ls, k + 1);
      assert Frames(inner)[k + 1] == Folded(Frames(ls), k + 1)[k + 1];
      assert inner[k] == inner[..k + 1][k];
    } else {
      assert Folded(Frames(ls), k) == Frames(ls);
    }
  }

  // ---- Accounting ---------------------------------------------------------------------------------

  function SizeSum(ls: seq<Link>, k: nat): nat
    requires k <= |ls|
    decreases |ls| - k
  {
    if k == |ls| then 0 else ls[k].size + SizeSum(ls, k + 1)
  }

  /** At every point, the bytes written since message `k` began are the sizes along the chain from it. */
  lemma {:induction false} SizesAddUp(ls: seq<Link>, s: Stream, pending: seq<byte>, k: nat)
    requires ChainOk(ls, s, pending) && k < |ls|
    ensures |s.Log()| == ls[k].start + SizeSum(ls, k)
    decreases |ls| - k
  {
    hide Flatten;
    assert LinkOk(ls, s, pending, k);
    if k < |ls| - 1 {
      SizesAddUp(ls, s, pending, k + 1);
    } else {
      assert SizeSum(ls, k + 1) == 0;
    }
  }

  lemma {:induction false} WeightIs(ls: seq<Link>, s: Stream, k: nat)
    requires ChainOk(ls, s, []) && k < |ls|
    ensures |s.Log()| == ls[k].start + Weight(Frames(ls), k)
    decreases |ls| - k
  {
    hide Flatten, Encode, Preamble;
    assert LinkOk(ls, s, [], k);
    if k < |ls| - 1 {
      WeightIs(ls, s, k + 1);
      assert |s.Log()[ls[k].start..ls[k].start + ls[k].size - MESSAGE_LENGTH_FIELD_SIZE]|
          == |Encode(ls[k].fields)| + |Preamble(ls[k + 1].id, WIRE_LENGTH_DELIMITED)|;
    } else {
      assert |s.Log()[ls[k].start..]| == |Encode(ls[k].fields)|;
    }
  }

  lemma {:induction false} CoveredIs(ls: seq<Link>, s: Stream, k: nat)
    requires ChainOk(ls, s, []) && Covered(Frames(ls), k)
    ensures Covers(ls, |s.Log()|, k)
  {
    hide ChainOk, Weight;
    forall j | k <= j < |ls|
      ensures ls[j].already <= |s.Log()| - ls[j].start
    {
      WeightIs(ls, s, j);
      assert Frames(ls)[j].already <= Weight(Frames(ls), j);
    }
  }

  /** The length in front of a finished message is that of its encoding, less what was declared as
      written elsewhere, and the decoder reads it as such. */
  lemma {:induction false} LengthReadsBack(ls: seq<Link>, s: Stream)
    requires ChainOk(ls, s, []) && Last(ls).headed && Last(ls).finalized && Last(ls).size <= MAX_MESSAGE_LENGTH
    ensures var l := Last(ls);
            && MESSAGE_LENGTH_FIELD_SIZE <= l.start <= |s.Log()| && l.already <= l.size == |Encode(l.fields)|
            && DecodeVarInt(s.Log()[l.start - MESSAGE_LENGTH_FIELD_SIZE..])
               == Parsed(|Encode(l.fields)| - l.already, MESSAGE_LENGTH_FIELD_SIZE)
  {
    hide Flatten, RedundantVarInt, DecodeVarInt;
    var l, log := Last(ls), s.Log();
    assert LinkOk(ls, s, [], |ls| - 1);
    RedundantVarIntRoundTrip(l.size - l.already, log[l.start..]);
    assert log[l.start - MESSAGE_LENGTH_FIELD_SIZE..]
           == RedundantVarInt(l.size - l.already) + log[l.start..];
    assert Encode(l.fields) + [] == Encode(l.fields);
  }

  // ---- Running a session ------------------------------------------------------------------------------

  /** The chain stands where the session says. */
  ghost predicate Stands(ls: seq<Link>, st: Session) {
    && ls != [] && Frames(ls) == st.frames && Last(ls).finalized == st.sealed
    && ls[0].start == if ls[0].headed then MESSAGE_LENGTH_FIELD_SIZE else 0
  }

  lemma {:induction false} AppendStands(ls: seq<Link>, st: Session, k: nat, n: Node)
    requires Stands(ls, st) && Allowed(st, Append(k, n)) && !ls[k].finalized
    ensures Stands(Appended(Closed(ls, k), n), After(st, Append(k, n)))
    ensures Appended(Closed(ls, k), n)[0].headed == ls[0].headed
  {
    hide EncodeNode, Covered, Collapsed, Closed;
    ClosedFrames(ls, k);
    assert k > 0 ==> Closed(ls, k)[..k][0] == ls[..k][0];
    assert Frames(Appended(Closed(ls, k), n)) == After(st, Append(k, n)).frames;
  }

  lemma {:induction false} BeginStands(ls: seq<Link>, st: Session, k: nat, id: nat, m: nat, p: Pointer, end: nat)
    requires Stands(ls, st) && Allowed(st, Begin(k, id)) && !ls[k].finalized
    ensures Stands(Begun(Grown(Closed(ls, k), m), id, p, end), After(st, Begin(k, id)))
    ensures Begun(Grown(Closed(ls, k), m), id, p, end)[0].headed == ls[0].headed
  {
    hide Covered, Collapsed, Closed;
    ClosedFrames(ls, k);
    assert k > 0 ==> Closed(ls, k)[..k][0] == ls[..k][0];
    assert Frames(Begun(Grown(Closed(ls, k), m), id, p, end)) == After(st, Begin(k, id)).frames;
  }

  lemma {:induction false} EndStands(ls: seq<Link>, st: Session, k: nat)
    requires Stands(ls, st) && Allowed(st, End(k))
    ensures Stands(Sealed(Closed(ls, k)), After(st, End(k))) && Sealed(Closed(ls, k))[0].headed == ls[0].headed
  {
    hide Covered, Collapsed, Closed;
    ClosedFrames(ls, k);
    assert k > 0 ==> Closed(ls, k)[..k][0] == ls[..k][0];
    assert Frames(Sealed(Closed(ls, k))) == After(st, End(k)).frames;
  }

  lemma {:induction false} ScatterStands(ls: seq<Link>, st: Session, id: nat, ranges: seq<seq<byte>>)
    requires Stands(ls, st) && !st.sealed
    ensures var n, c := Bytes(id, Flatten(ranges)), Scatter(|ls| - 1, id, ranges);
            Stands(Appended(ls, n), After(st, c)) && Appended(ls, n)[0].headed == ls[0].headed
  {
    hide EncodeNode, Flatten;
    var n := Bytes(id, Flatten(ranges));
    assert Folded(st.frames, |ls| - 1) == st.frames;
    assert Frames(Appended(ls, n)) == After(st, Scatter(|ls| - 1, id, ranges)).frames;
  }

  lemma {:induction false} DeclareStands(ls: seq<Link>, st: Session, k: nat, n: nat)
    requires Stands(ls, st) && k < |ls|
    ensures var ls' := ls[k := ls[k].(already := ls[k].already + n)];
            Stands(ls', After(st, Declare(k, n))) && ls'[0].headed == ls[0].headed
  {
    var ls' := ls[k := ls[k].(already := ls[k].already + n)];
    assert Frames(ls') == After(st, Declare(k, n)).frames;
  }

  /** An open level of an allowed call is not finalized. */
  lemma {:induction false} LevelOpen(ls: seq<Link>, s: Stream, st: Session, c: Call)
    requires ChainOk(ls, s, []) && Stands(ls, st) && Allowed(st, c) && !c.End?
    ensures !ls[c.level].finalized
  {
    if c.level < |ls| - 1 {
      OuterOpen(ls, s, [], c.level);
    }
  }

  method Perform(w: ScatteredStreamWriter, c: Call, ms: seq<Message>, ghost ls: seq<Link>, ghost st: Session)
    returns (ms': seq<Message>, ghost ls': seq<Link>)
    requires Chain(ms, ls, w, []) && Stands(ls, st) && Allowed(st, c)
    modifies ms, w, w.delegate, w.bufs
    ensures Chain(ms', ls', w, []) && Stands(ls', After(st, c)) && ls'[0].headed == ls[0].headed
    ensures MovesOn(w)
    ensures forall i :: 0 <= i < |ms'| ==> (i < |ms| && ms'[i] == ms[i]) || fresh(ms'[i])
  {
    hide ScatteredStreamWriter.Valid, ChainOk, Flatten, Keeps, EncodeNode, After, Closed, Covered, Covers;
    var k := c.level;
    var m := ms[k];
    assert Attached(ms, ls, w, k);
    if !c.End? {
      LevelOpen(ls, View(w), st, c);
    }
    if c.Append? || c.Begin? {
      CoveredIs(ls, View(w), k + 1);
    } else if c.End? {
      CoveredIs(ls, View(w), k);
    }
    match c {
      case Append(_, n) =>
        match n {
          case Scalar(id, v) => m.AppendVarInt(id, v, ms, ls, k);
          case Fixed64(id, v) => m.AppendFixed64(id, v, ms, ls, k);
          case Fixed32(id, v) => m.AppendFixed32(id, v, ms, ls, k);
          case Bytes(id, data) => m.AppendBytes(id, data, ms, ls, k);
        }
        ms', ls' := ms[..k + 1], Appended(Closed(ls, k), n);
        AppendStands(ls, st, k, n);
      case Scatter(_, id, ranges) =>
        var _ := m.AppendScatteredBytes(id, ranges, ms, ls, k);
        ms', ls' := ms, Appended(ls, Bytes(id, Flatten(ranges)));
        ScatterStands(ls, st, id, ranges);
      case Declare(_, n) =>
        KeepsRefl(w.used);
        m.IncSizeAlreadyWritten(n, ms, ls, k);
        ms', ls' := ms, ls[k := ls[k].(already := ls[k].already + n)];
        DeclareStands(ls, st, k, n);
      case Begin(_, id) =>
        var message := m.BeginNestedMessage(id, ms, ls, k);
        ms' := ms[..k + 1] + [message];
        ls' := Begun(Grown(Closed(ls, k), |Preamble(id, WIRE_LENGTH_DELIMITED)|), id, message.sizeField, |w.Log()|);
        BeginStands(ls, st, k, id, |Preamble(id, WIRE_LENGTH_DELIMITED)|, message.sizeField, |w.Log()|);
      case End(_) =>
        var _ := m.Finalize(ms, ls, k);
        ms', ls' := ms[..k + 1], Sealed(Closed(ls, k));
        EndStands(ls, st, k);
    }
  }

  /** The calls of a session, and then the end of the root. */
  method RunSession(w: ScatteredStreamWriter, root: Message, calls: seq<Call>, ghost link: Link)
    requires WellNested(calls) && Chain([root], [link], w, []) && Stands([link], FRESH)
    requires Covered(Run(calls).frames, if link.headed then 0 else 1)
    modifies root, w, w.delegate, w.bufs
    ensures w.Valid()
    ensures link.headed ==> Declared(calls) <= |Encode(Meaning(calls))|
    ensures w.Log() == Header(calls, link.headed) + Encode(Meaning(calls))
  {
    hide ScatteredStreamWriter.Valid, ChainOk, Flatten, Keeps, Encode, Run, Meaning, Declared, Header, Stands,
         WellNested, Covered, Covers;
    var ms := [root];
    ghost var ls := [link];
    KeepsRefl(w.used);
    RunNone(calls);
    for n := 0 to |calls|
      invariant MovesOn(w)
      invariant forall i :: 0 <= i < |ms| ==> ms[i] == root || fresh(ms[i])
      invariant Chain(ms, ls, w, []) && Stands(ls, Run(calls[..n])) && ls[0].headed == link.headed
    {
      RunNext(calls, n);
      StandsRoot(ls, Run(calls[..n]));
      ghost var before := w.used;
      ms, ls := Perform(w, calls[n], ms, ls, Run(calls[..n]));
      KeepsTransitive(old(w.used), before, w.used);
    }
    assert calls[..|calls|] == calls;
    assert Attached(ms, ls, w, 0);
    StandsFrames(ls, Run(calls));
    CoveredIs(ls, View(w), if link.headed then 0 else 1);
    RootCovers(ls, |w.Log()|);
    var _ := ms[0].Finalize(ms, ls, 0);
    SessionBytes(calls, ls, View(w));
  }

  lemma {:induction false} RunNone(calls: seq<Call>)
    ensures Run(calls[..0]) == FRESH
  {
  }

  lemma {:induction false} RunNext(calls: seq<Call>, n: nat)
    requires n < |calls| && WellNested(calls)
    ensures var st := Run(calls[..n]);
            Allowed(st, calls[n]) && Run(calls[..n + 1]) == After(st, calls[n])
  {
    hide After;
    assert calls[..n + 1][..n] == calls[..n];
  }

  /** A root without a length field can be closed whatever was declared of it. */
  lemma {:induction false} RootCovers(ls: seq<Link>, length: nat)
    requires ls != [] && Covers(ls, length, if ls[0].headed then 0 else 1)
    ensures Covers(ls, length, 0)
  {
  }

  lemma {:induction false} StandsFrames(ls: seq<Link>, st: Session)
    requires Stands(ls, st)
    ensures Frames(ls) == st.frames
  {
  }

  lemma {:induction false} StandsRoot(ls: seq<Link>, st: Session)
    requires Stands(ls, st)
    ensures ls != []
  {
  }

  lemma {:induction false} SessionBytes(calls: seq<Call>, ls: seq<Link>, s: Stream)
    requires ls != [] && Stands(ls, Run(calls)) && ChainOk(Sealed(Closed(ls, 0)), s, [])
    ensures ls[0].headed ==> Declared(calls) <= |Encode(Meaning(calls))|
    ensures s.Log() == Header(calls, ls[0].headed) + Encode(Meaning(calls))
  {
    hide Run, Flatten, Encode, RedundantVarInt, Closed, Collapsed;
    SessionDone(ls, s, Run(calls));
    assert [] + Encode(Meaning(calls)) == Encode(Meaning(calls));
  }

  /** The length field in front of the root, if it has one. */
  function Header(calls: seq<Call>, headed: bool): seq<byte> {
    if headed && Declared(calls) <= |Encode(Meaning(calls))|
    then RedundantVarInt(|Encode(Meaning(calls))| - Declared(calls))
    else []
  }

  /** The bytes of a session are the encoding of the tree it describes, whatever the slice sizes and
      however it is interleaved, and a reader gets that tree back. */
  method Write(calls: seq<Call>, initialSliceSize: nat, maximumSliceSize: nat) returns (bytes: seq<byte>)
    requires WellNested(calls) && Covered(Run(calls).frames, 1)
    requires MESSAGE_LENGTH_FIELD_SIZE <= initialSliceSize <= maximumSliceSize
    ensures bytes == Encode(Meaning(calls))
    ensures forall schema, typ | Fits(schema, typ, Meaning(calls)) :: Decode(schema, typ, bytes) == Some(Meaning(calls))
  {
    hide ScatteredStreamWriter.Valid, ChainOk, Flatten, Keeps, Encode, Decode, Fits, Collapsed;
    var heap := new ScatteredHeapBuffer(initialSliceSize, maximumSliceSize);
    var w := new ScatteredStreamWriter(heap);
    var root := new Message(w);
    ghost var link := Link(0, 0, Null, 0, false, 0, [], false);
    RootOk(View(w));
    assert Frames([link]) == FRESH.frames;
    RunSession(w, root, calls, link);
    assert [] + Encode(Meaning(calls)) == Encode(Meaning(calls));
    bytes := w.StitchSlices();
    ReadsBack(Meaning(calls));
  }

  /** A message whose length field is reserved in front of it in the same stream, as a packet's is: the length
      filled in is that of the message, less what was declared as written elsewhere. */
  method WritePacket(calls: seq<Call>, initialSliceSize: nat, maximumSliceSize: nat) returns (bytes: seq<byte>)
    requires WellNested(calls) && Covered(Run(calls).frames, 0)
    requires MESSAGE_LENGTH_FIELD_SIZE <= initialSliceSize <= maximumSliceSize
    ensures Declared(calls) <= |Encode(Meaning(calls))|
    ensures bytes == RedundantVarInt(|Encode(Meaning(calls))| - Declared(calls)) + Encode(Meaning(calls))
  {
    hide ScatteredStreamWriter.Valid, ChainOk, Flatten, Keeps, Encode, Collapsed, Addresses, RedundantVarInt, Covered,
         WellNested, Run;
    var heap := new ScatteredHeapBuffer(initialSliceSize, maximumSliceSize);
    var w := new ScatteredStreamWriter(heap);
    var root := new Message(w);
    var p := w.ReserveBytes(MESSAGE_LENGTH_FIELD_SIZE);
    root.sizeField := p;
    ghost var link := Link(MESSAGE_LENGTH_FIELD_SIZE, 0, p, 0, false, 0, [], true);
    HeadedRootOk(View(w), p);
    assert Frames([link]) == FRESH.frames;
    RunSession(w, root, calls, link);
    bytes := w.StitchSlices();
  }

  lemma {:induction false} ReadsBack(nodes: seq<Node>)
    ensures forall schema, typ | Fits(schema, typ, nodes) :: Decode(schema, typ, Encode(nodes)) == Some(nodes)
  {
    forall schema, typ | Fits(schema, typ, nodes)
      ensures Decode(schema, typ, Encode(nodes)) == Some(nodes)
    {
      DecodeEncode(schema, typ, nodes);
    }
  }

  lemma {:induction false} RootOk(s: Stream)
    requires s.Log() == []
    ensures ChainOk([Link(0, 0, Null, 0, false, 0, [], false)], s, [])
  {
  }

  lemma {:induction false} HeadedRootOk(s: Stream, p: Pointer)
    requires |s.Log()| == MESSAGE_LENGTH_FIELD_SIZE && s.Reserved(p, 0)
    ensures ChainOk([Link(MESSAGE_LENGTH_FIELD_SIZE, 0, p, 0, false, 0, [], true)], s, [])
  {
  }

  lemma {:induction false} SessionDone(ls: seq<Link>, s: Stream, st: Session)
    requires Stands(ls, st) && ChainOk(Sealed(Closed(ls, 0)), s, [])
    ensures var fields := Collapsed(st.frames, 0);
            if ls[0].headed then
              && st.frames[0].already <= |Encode(fields)|
              && s.Log() == RedundantVarInt(|Encode(fields)| - st.frames[0].already) + Encode(fields)
            else s.Log() == Encode(fields)
  {
    hide Flatten, Encode, RedundantVarInt, Closed;
    ClosedFrames(ls, 0);
    var done, log := Sealed(Closed(ls, 0)), s.Log();
    assert LinkOk(done, s, [], 0);
    assert Frames(Closed(ls, 0))[0] == Folded(st.frames, 0)[0];
    assert Encode(done[0].fields) + [] == Encode(done[0].fields);
    if ls[0].headed {
      assert log == log[..MESSAGE_LENGTH_FIELD_SIZE] + log[MESSAGE_LENGTH_FIELD_SIZE..];
      assert log[0..MESSAGE_LENGTH_FIELD_SIZE] == log[..MESSAGE_LENGTH_FIELD_SIZE];
    } else {
      assert log[0..] == log;
    }
  }

  /** Nothing is open but the root, so every length is filled in even if the root is never finalized. */
  predicate Settled(st: Session) {
    |st.frames| == 1 || (|st.frames| == 2 && st.sealed)
  }

  lemma {:induction false} SettledLog(ls: seq<Link>, s: Stream, st: Session)
    requires Stands(ls, st) && ChainOk(ls, s, []) && Settled(st)
    requires !ls[0].headed
    ensures s.Log() == Encode(Collapsed(st.frames, 0))
  {
    hide Flatten, EncodeNode, Encode;
    var root := ls;
    if |ls| == 2 {
      MergedOk(ls, s);
      root := Merged(ls);
    }
    assert LinkOk(root, s, [], 0);
    assert Frames(ls)[0].fields == ls[0].fields;
    assert |ls| == 2 ==> Frames(ls)[1] == Frame(ls[1].id, ls[1].already, ls[1].fields);
    assert root[0].fields == Collapsed(st.frames, 0);
    assert Encode(root[0].fields) + [] == Encode(root[0].fields);
  }
}
