/** Every tree of fields can be written: the calls that name its fields in order, entering and leaving its nested
    messages, are allowed and produce its encoding. */
module SessionTrees {
  import opened Options
  import opened Wire
  import opened Tree
  import opened Messages
  import opened Sessions

  /** The calls for the fields of a message at some level. */
  function CallsFor(ns: seq<Node>, level: nat): seq<Call>
    decreases ns, 0
  {
    if ns == [] then [] else CallsOf(ns[0], level) + CallsFor(ns[1..], level)
  }

  function CallsOf(n: Node, level: nat): seq<Call>
    decreases n, 1
  {
    match n
    case Msg(id, _, fields) => [Begin(level, id)] + CallsFor(fields, level + 1) + [End(level + 1)]
    case _ => [Append(level, n)]
  }

  /** A tree that is nested no deeper than messages may be, with nothing declared as written elsewhere. */
  predicate Writable(ns: seq<Node>, level: nat)
    decreases ns, 0
  {
    ns == [] ||
    (&& (ns[0].Msg? ==> ns[0].already == 0 && level < MAX_NESTING_DEPTH && Writable(ns[0].fields, level + 1))
     && Writable(ns[1..], level))
  }

  // ---- Calls made one after another -------------------------------------------------------------------------

  function RunFrom(st: Session, calls: seq<Call>): Session {
    if calls == [] then st
    else
      var before, c := RunFrom(st, calls[..|calls| - 1]), calls[|calls| - 1];
      if c.level < |before.frames| then After(before, c) else before
  }

  lemma {:induction false} RunFromFresh(calls: seq<Call>)
    ensures RunFrom(FRESH, calls) == Run(calls)
  {
    hide After;
    if calls != [] {
      RunFromFresh(calls[..|calls| - 1]);
    }
  }

  lemma {:induction false} RunFromConcat(st: Session, a: seq<Call>, b: seq<Call>)
    ensures RunFrom(st, a + b) == RunFrom(RunFrom(st, a), b)
    decreases |b|
  {
    hide After;
    if b == [] {
      assert a + b == a;
    } else {
      RunFromConcat(st, a, b[..|b| - 1]);
      assert (a + b)[..|a + b| - 1] == a + b[..|b| - 1];
    }
  }

  ghost predicate AllAllowed(st: Session, calls: seq<Call>) {
    forall i :: 0 <= i < |calls| ==> Allowed(RunFrom(st, calls[..i]), calls[i])
  }

  lemma {:induction false} AllowedConcat(st: Session, a: seq<Call>, b: seq<Call>)
    requires AllAllowed(st, a) && AllAllowed(RunFrom(st, a), b)
    ensures AllAllowed(st, a + b)
  {
    hide RunFrom, Allowed;
    forall i | 0 <= i < |a + b|
      ensures Allowed(RunFrom(st, (a + b)[..i]), (a + b)[i])
    {
      if i < |a| {
        assert (a + b)[..i] == a[..i];
      } else {
        assert (a + b)[..i] == a + b[..i - |a|];
        RunFromConcat(st, a, b[..i - |a|]);
      }
    }
  }

  lemma {:induction false} OneCall(st: Session, c: Call)
    requires Allowed(st, c)
    ensures RunFrom(st, [c]) == After(st, c) && AllAllowed(st, [c])
  {
    hide After;
    assert [c][..0] == [] && RunFrom(st, []) == st;
  }

  // ---- Writing a tree -------------------------------------------------------------------------------------

  /** The session is in a message inside others, whose fields so far are given. */
  predicate At(st: Session, outer: seq<Frame>, id: nat, fields: seq<Node>) {
    && |outer| < |st.frames| && Undeclared(st.frames)
    && Folded(st.frames, |outer|) == outer + [Frame(id, 0, fields)]
    && !(st.sealed && |outer| == |st.frames| - 1)
  }

  lemma {:induction false} AppendAt(st: Session, outer: seq<Frame>, id: nat, fields: seq<Node>, n: Node)
    requires At(st, outer, id, fields) && !n.Msg?
    ensures Allowed(st, Append(|outer|, n))
    ensures At(After(st, Append(|outer|, n)), outer, id, fields + [n])
  {
    hide Covered;
    UndeclaredCovered(st.frames);
    var fs := After(st, Append(|outer|, n)).frames;
    assert fs == outer + [Frame(id, 0, fields + [n])];
    assert Folded(fs, |outer|) == fs;
    UndeclaredAfter(st, Append(|outer|, n));
  }

  lemma {:induction false} BeginAt(st: Session, outer: seq<Frame>, id: nat, fields: seq<Node>, nested: nat)
    requires At(st, outer, id, fields) && |outer| < MAX_NESTING_DEPTH
    ensures Allowed(st, Begin(|outer|, nested))
    ensures At(After(st, Begin(|outer|, nested)), outer + [Frame(id, 0, fields)], nested, [])
  {
    hide Covered;
    UndeclaredCovered(st.frames);
    var fs := After(st, Begin(|outer|, nested)).frames;
    assert fs == outer + [Frame(id, 0, fields)] + [Frame(nested, 0, [])];
    assert Folded(fs, |outer| + 1) == fs;
    UndeclaredAfter(st, Begin(|outer|, nested));
  }

  lemma {:induction false} EndAt(st: Session, outer: seq<Frame>, id: nat, fields: seq<Node>, nested: nat,
                                 inner: seq<Node>)
    requires At(st, outer + [Frame(id, 0, fields)], nested, inner)
    ensures Allowed(st, End(|outer| + 1))
    ensures At(After(st, End(|outer| + 1)), outer, id, fields + [Msg(nested, 0, inner)])
  {
    hide Covered;
    var k := |outer|;
    UndeclaredCovered(st.frames);
    var fs := After(st, End(k + 1)).frames;
    assert fs == outer + [Frame(id, 0, fields)] + [Frame(nested, 0, inner)];
    assert Collapsed(fs, k + 1) == inner;
    assert Collapsed(fs, k) == fields + [Msg(nested, 0, inner)];
    assert fs[..k] == outer;
    UndeclaredAfter(st, End(k + 1));
  }

  lemma {:induction false} WritesField(st: Session, outer: seq<Frame>, id: nat, fields: seq<Node>, n: Node)
    requires At(st, outer, id, fields)
    requires n.Msg? ==> n.already == 0 && |outer| < MAX_NESTING_DEPTH && Writable(n.fields, |outer| + 1)
    ensures AllAllowed(st, CallsOf(n, |outer|)) && At(RunFrom(st, CallsOf(n, |outer|)), outer, id, fields + [n])
    decreases n, 1
  {
    hide At, Allowed, After, AllAllowed, RunFrom, Writable;
    if !n.Msg? {
      AppendAt(st, outer, id, fields, n);
      OneCall(st, Append(|outer|, n));
    } else {
      var k := |outer|;
      var begin, body, end := [Begin(k, n.id)], CallsFor(n.fields, k + 1), [End(k + 1)];
      BeginAt(st, outer, id, fields, n.id);
      OneCall(st, begin[0]);
      var st1 := RunFrom(st, begin);
      WritesFields(st1, outer + [Frame(id, 0, fields)], n.id, [], n.fields);
      assert [] + n.fields == n.fields;
      var st2 := RunFrom(st1, body);
      EndAt(st2, outer, id, fields, n.id, n.fields);
      OneCall(st2, end[0]);
      RunFromConcat(st, begin, body);
      AllowedConcat(st, begin, body);
      RunFromConcat(st, begin + body, end);
      AllowedConcat(st, begin + body, end);
    }
  }

  lemma {:induction false} WritesFields(st: Session, outer: seq<Frame>, id: nat, fields: seq<Node>, ns: seq<Node>)
    requires At(st, outer, id, fields) && Writable(ns, |outer|)
    ensures AllAllowed(st, CallsFor(ns, |outer|)) && At(RunFrom(st, CallsFor(ns, |outer|)), outer, id, fields + ns)
    decreases ns, 0
  {
    hide At, Allowed, After, CallsOf;
    if ns == [] {
      assert fields + ns == fields;
    } else {
      var first, rest := CallsOf(ns[0], |outer|), CallsFor(ns[1..], |outer|);
      WritesField(st, outer, id, fields, ns[0]);
      WritesFields(RunFrom(st, first), outer, id, fields + [ns[0]], ns[1..]);
      assert fields + [ns[0]] + ns[1..] == fields + ns;
      RunFromConcat(st, first, rest);
      AllowedConcat(st, first, rest);
    }
  }

  /** The calls for a tree are allowed, leave no message open, and mean the tree. */
  lemma {:induction false} TreeIsMeant(ns: seq<Node>)
    requires Writable(ns, 0)
    ensures var calls := CallsFor(ns, 0);
            WellNested(calls) && Undeclared(Run(calls).frames) && Meaning(calls) == ns
  {
    hide Allowed, After, CallsFor, Writable, AllAllowed;
    var calls := CallsFor(ns, 0);
    StartAt();
    WritesFields(FRESH, [], 0, [], ns);
    assert [] + ns == ns;
    RunFromFresh(calls);
    AllowedFresh(calls);
    assert Folded(Run(calls).frames, 0)[0].fields == Meaning(calls);
  }

  lemma {:induction false} StartAt()
    ensures At(FRESH, [], 0, [])
  {
  }

  lemma {:induction false} AllowedFresh(calls: seq<Call>)
    requires AllAllowed(FRESH, calls)
    ensures WellNested(calls)
  {
    hide Allowed, RunFrom, Run;
    forall i | 0 <= i < |calls|
      ensures Allowed(Run(calls[..i]), calls[i])
    {
      RunFromFresh(calls[..i]);
    }
  }

  /** Writes a tree, from which a reader who knows its schema gets the tree back. */
  method WriteTree(ns: seq<Node>, initialSliceSize: nat, maximumSliceSize: nat) returns (bytes: seq<byte>)
    requires Writable(ns, 0) && MESSAGE_LENGTH_FIELD_SIZE <= initialSliceSize <= maximumSliceSize
    ensures bytes == Encode(ns)
    ensures forall schema, typ | Fits(schema, typ, ns) :: Decode(schema, typ, bytes) == Some(ns)
  {
    hide Encode, Decode, Fits, CallsFor, Writable, WellNested, Covered, Run;
    TreeIsMeant(ns);
    UndeclaredCovered(Run(CallsFor(ns, 0)).frames);
    bytes := Write(CallsFor(ns, 0), initialSliceSize, maximumSliceSize);
  }
}
