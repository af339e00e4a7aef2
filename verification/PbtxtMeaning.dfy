/** What a text config means, and that parsing its printed form makes the message writer produce exactly
    that. */
module PbtxtMeaning {
  import opened Powers
  import opened Options
  import opened Wire
  import opened Decoder
  import opened Tree
  import opened Messages
  import Sessions
  import opened PbtxtLexer
  import opened PbtxtPrinter
  import opened PbtxtDelegate

  // ---- The height of the stack ------------------------------------------------------------------------

  function Lookup(ds: Descriptors, typ: string, name: seq<Char>): Option<FieldDescriptor> {
    if typ in ds.messages then FindField(ds.messages[typ], name) else None
  }

  /** A name that is a message field of the innermost of the open messages, whose types are `types`. */
  predicate Enterable(ds: Descriptors, types: seq<string>, key: seq<Char>) {
    types != [] && Lookup(ds, types[|types| - 1], key).Some?
    && Lookup(ds, types[|types| - 1], key).value.typ == TypeMessage
  }

  /** The types of the open messages, from the schema alone: what can be entered is, and every end leaves
      whatever is innermost. */
  function Entered(ds: Descriptors, typ: string, events: seq<Event>): seq<string> {
    if events == [] then [typ]
    else
      var types, e := Entered(ds, typ, events[..|events| - 1]), events[|events| - 1];
      match e
      case BeginNestedMessage(key) =>
        if Enterable(ds, types, key) then types + [Lookup(ds, types[|types| - 1], key).value.typeName] else types
      case EndNestedMessage => if types == [] then [] else types[..|types| - 1]
      case _ => types
  }

  predicate Skips(ds: Descriptors, types: seq<string>, e: Event) {
    e.BeginNestedMessage? && !Enterable(ds, types, e.key)
  }

  /** How many of the nested messages begun are not fields of the message they are in. */
  function Skipped(ds: Descriptors, typ: string, events: seq<Event>): nat {
    if events == [] then 0
    else
      var front := events[..|events| - 1];
      Skipped(ds, typ, front) + if Skips(ds, Entered(ds, typ, front), events[|events| - 1]) then 1 else 0
  }

  /** Every nested message begun is a message field of the message it is in. */
  ghost predicate AllEntered(ds: Descriptors, typ: string, events: seq<Event>) {
    forall n :: 0 <= n < |events| ==> !Skips(ds, Entered(ds, typ, events[..n]), events[n])
  }

  lemma {:induction false} NoneSkipped(ds: Descriptors, typ: string, events: seq<Event>)
    ensures Skipped(ds, typ, events) == 0 <==> AllEntered(ds, typ, events)
  {
    hide Skips, Entered;
    if events != [] {
      var front := events[..|events| - 1];
      NoneSkipped(ds, typ, front);
      assert forall n :: 0 <= n < |front| ==> front[..n] == events[..n] && front[n] == events[n];
      if AllEntered(ds, typ, events) {
        forall n | 0 <= n < |front|
          ensures !Skips(ds, Entered(ds, typ, front[..n]), front[n])
        {
          assert !Skips(ds, Entered(ds, typ, events[..n]), events[n]);
        }
      }
    }
  }

  function TypesOf(ctx: seq<Context>): (r: seq<string>)
    ensures |r| == |ctx|
  {
    seq(|ctx|, i requires 0 <= i < |ctx| => ctx[i].typ)
  }

  lemma {:induction false} HandleHeight(ds: Descriptors, d: Delegate, e: Event)
    requires !Handle(ds, d, e).crashed
    ensures var d', skips := Handle(ds, d, e), Skips(ds, TypesOf(d.ctx), e);
            && |d'.ctx| == |d.ctx| + Delta(e) - (if skips then 1 else 0)
            && !d.crashed && |d.problems| <= |d'.problems| && (skips ==> |d.problems| < |d'.problems|)
  {
  }

  lemma {:induction false} HandleTypes(ds: Descriptors, d: Delegate, e: Event)
    requires !Handle(ds, d, e).crashed
    ensures var types, types' := TypesOf(d.ctx), TypesOf(Handle(ds, d, e).ctx);
            match e
            case BeginNestedMessage(key) =>
              if Enterable(ds, types, key) then types' == types + [Lookup(ds, types[|types| - 1], key).value.typeName]
              else types' == types
            case EndNestedMessage => types != [] && types' == types[..|types| - 1]
            case _ => types' == types
  {
  }

  /** The stack is one higher than the depth, less the messages that could not be entered: exactly as many
      ends will pop a message they do not belong to. So it is one higher if and only if the schema has every
      message that was begun, and an error has been reported otherwise. */
  lemma {:induction false} StackHeight(ds: Descriptors, typ: string, events: seq<Event>)
    requires !Drive(ds, Initial(typ), events).crashed
    ensures var d := Drive(ds, Initial(typ), events);
            && TypesOf(d.ctx) == Entered(ds, typ, events)
            && |d.ctx| == 1 + Nesting(events) - Skipped(ds, typ, events)
            && (|d.ctx| == 1 + Nesting(events) <==> AllEntered(ds, typ, events))
            && (d.problems == [] ==> AllEntered(ds, typ, events))
    decreases |events|
  {
    hide Handle, AllEntered, Enterable, Lookup;
    NoneSkipped(ds, typ, events);
    if events != [] {
      var front, e := events[..|events| - 1], events[|events| - 1];
      var d1 := Drive(ds, Initial(typ), front);
      HandleHeight(ds, d1, e);
      HandleTypes(ds, d1, e);
      StackHeight(ds, typ, front);
      NoneSkipped(ds, typ, front);
    }
  }

  /** At every character of every input the parser has survived, the stack is one higher than the number of
      braces that are open if and only if the schema has every message that was begun; so it is as long as no
      error has been reported. */
  lemma {:induction false} HeightIsDepth(ds: Descriptors, typ: string, s: seq<Char>)
    requires !Drive(ds, Initial(typ), Run(START, s, false).events).crashed
    ensures var l := Run(START, s, false); var d := Drive(ds, Initial(typ), l.events);
            && (|d.ctx| == l.depth + 1 <==> AllEntered(ds, typ, l.events))
            && (d.problems == [] ==> |d.ctx| == l.depth + 1)
  {
    hide Drive, PbtxtLexer.Run, Skipped, AllEntered;
    assert Sound(START);
    RunSound(START, s, false);
    StackHeight(ds, typ, Run(START, s, false).events);
  }

  /** Up to the first error the height is the depth plus one; from then on it can be less. Here the one
      error is an unknown message field, its end pops the root, and the next field aborts the parser. */
  lemma {:induction false} StackLost(ds: Descriptors, typ: string, key: seq<Char>, next: Event)
    requires typ in ds.messages && FindField(ds.messages[typ], key).None?
    ensures var d := Drive(ds, Initial(typ), [BeginNestedMessage(key), EndNestedMessage]);
            d.ctx == [] && d.problems == [NoSuchField(key)] && !d.crashed && Handle(ds, d, next).crashed
  {
    var es := [BeginNestedMessage(key), EndNestedMessage];
    assert es[..1] == [BeginNestedMessage(key)] && es[..1][..0] == [];
    assert Drive(ds, Initial(typ), es[..1]) == Initial(typ).Complained(NoSuchField(key));
  }

  // ---- Typed trees ------------------------------------------------------------------------------------

  /** Digits beyond 64 bits give the largest number. */
  function Kept(n: int): int {
    if -TWO_TO_THE_64 < n < TWO_TO_THE_64 then n else -1
  }

  /** The signed number with the low bits of another, in a width whose half range is given. */
  function Signed(n: int, half: int): int
    requires half > 0
  {
    var m := n % (2 * half);
    if m < half then m else m - 2 * half
  }

  /** 0, -1, 1, -2, 2, ... are numbered 0, 1, 2, 3, 4, ... */
  function Alternating(n: int): nat {
    if n >= 0 then 2 * n else -2 * n - 1
  }

  /** The field that a number stands for in a field of a type, as the wire sees it. */
  function NumberOnWire(t: FieldType, id: nat, n: int): Node {
    var k := Kept(n);
    match t
    case TypeUint32 => Scalar(id, k % TWO_TO_THE_32)
    case TypeInt32 => Scalar(id, Signed(k, TWO_TO_THE_31) % TWO_TO_THE_64)
    case TypeSint64 => Scalar(id, Alternating(Signed(k, TWO_TO_THE_63)))
    case TypeSint32 => Scalar(id, Alternating(Signed(k, TWO_TO_THE_31)))
    case TypeFixed64 => Node.Fixed64(id, k % TWO_TO_THE_64)
    case TypeSfixed64 => Node.Fixed64(id, k % TWO_TO_THE_64)
    case TypeFixed32 => Node.Fixed32(id, k % TWO_TO_THE_32)
    case TypeSfixed32 => Node.Fixed32(id, k % TWO_TO_THE_32)
    case _ => Scalar(id, k % TWO_TO_THE_64)
  }

  /** The numbers that a type has. */
  predicate Fitting(t: FieldType, n: int) {
    match t
    case TypeUint64 => 0 <= n < TWO_TO_THE_64
    case TypeFixed64 => 0 <= n < TWO_TO_THE_64
    case TypeUint32 => 0 <= n < TWO_TO_THE_32
    case TypeFixed32 => 0 <= n < TWO_TO_THE_32
    case TypeInt64 => -TWO_TO_THE_63 <= n < TWO_TO_THE_63
    case TypeSint64 => -TWO_TO_THE_63 <= n < TWO_TO_THE_63
    case TypeSfixed64 => -TWO_TO_THE_63 <= n < TWO_TO_THE_63
    case _ => -TWO_TO_THE_31 <= n < TWO_TO_THE_31
  }

  /** The number that a reader of a field of a type makes of its value on the wire. */
  function ReadNumber(t: FieldType, v: nat): int {
    match t
    case TypeInt64 => Signed(v, TWO_TO_THE_63)
    case TypeSfixed64 => Signed(v, TWO_TO_THE_63)
    case TypeInt32 => Signed(v, TWO_TO_THE_31)
    case TypeSfixed32 => Signed(v, TWO_TO_THE_31)
    case TypeSint64 => if v % 2 == 0 then v / 2 else -(v / 2) - 1
    case TypeSint32 => if v % 2 == 0 then v / 2 else -(v / 2) - 1
    case _ => v
  }

  function BytesOf(s: seq<Char>): (r: seq<byte>)
    ensures |r| == |s|
  {
    seq(|s|, i requires 0 <= i < |s| => s[i] as int)
  }

  /** A value of the kind that its field takes, in a message at a given nesting depth. */
  predicate TypedValue(ds: Descriptors, f: FieldDescriptor, v: Value, depth: nat)
    decreases v, 1
  {
    match v
    case Number(_) => f.typ in NUMERIC_TYPES
    case Word(w) =>
      || (f.typ == TypeBool && (w == "true" || w == "false"))
      || (f.typ == TypeEnum && FindEnum(ValuesOf(ds, f), w).Some?)
    case Text(_) => f.typ == TypeString || f.typ == TypeBytes
    case Sub(entries) =>
      f.typ == TypeMessage && f.typeName in ds.messages && depth < MAX_NESTING_DEPTH
      && Typed(ds, f.typeName, entries, {}, depth + 1)
  }

  /** A config tree that fits its descriptor: known fields, in any order, repeated only where allowed. */
  predicate Typed(ds: Descriptors, typ: string, entries: seq<Entry>, seen: set<seq<Char>>, depth: nat)
    decreases entries, 0
  {
    entries == [] ||
    (var e, f := entries[0], Lookup(ds, typ, entries[0].name);
     && f.Some?
     && (f.value.repeated || e.name !in seen)
     && TypedValue(ds, f.value, e.value, depth)
     && Typed(ds, typ, entries[1..], seen + {e.name}, depth))
  }

  /** A negative number goes out as its two's complement in 64 bits. */
  function OnWire(n: Int32): nat {
    if n >= 0 then n else TWO_TO_THE_64 + n
  }

  /** The number that a word stands for. */
  function WordNumber(ds: Descriptors, f: FieldDescriptor, w: seq<Char>): nat {
    if f.typ == TypeBool then if w == "true" then 1 else 0
    else
      match FindEnum(ValuesOf(ds, f), w)
      case None => 0
      case Some(number) => OnWire(number)
  }

  function NodeOf(ds: Descriptors, f: FieldDescriptor, v: Value): Node
    decreases v, 1
  {
    match v
    case Number(n) => NumberOnWire(f.typ, f.number, n)
    case Word(w) => Scalar(f.number, WordNumber(ds, f, w))
    case Text(s) => Bytes(f.number, BytesOf(s))
    case Sub(entries) => Msg(f.number, 0, NodesOf(ds, f.typeName, entries))
  }

  /** What a config tree means: its fields by number, in order. */
  function NodesOf(ds: Descriptors, typ: string, entries: seq<Entry>): seq<Node>
    decreases entries, 0
  {
    if entries == [] then []
    else
      var f := Lookup(ds, typ, entries[0].name);
      (if f.Some? then [NodeOf(ds, f.value, entries[0].value)] else []) + NodesOf(ds, typ, entries[1..])
  }

  // ---- Values survive printing and parsing --------------------------------------------------------------

  lemma {:induction false} DecimalRoundTrip(n: nat)
    ensures LeadingDigits(Decimal(n)) == Decimal(n)
    ensures DecimalValue(LeadingDigits(Decimal(n))) == n
  {
    DecimalDigits(n);
    LeadingDigitsAll(Decimal(n));
    if n >= 10 {
      DecimalRoundTrip(n / 10);
      var d := Decimal(n);
      assert d[..|d| - 1] == Decimal(n / 10);
    }
  }

  lemma {:induction false} LeadingDigitsAll(s: seq<Char>)
    requires forall c :: c in s ==> IsDigit(c)
    ensures LeadingDigits(s) == s
  {
    if s != [] {
      assert s[0] in s;
      LeadingDigitsAll(s[1..]);
      assert [s[0]] + s[1..] == s;
    }
  }

  lemma {:induction false} ParsePrinted(n: int)
    ensures ParseInteger(Numeral(n)) == Some(Kept(n) % TWO_TO_THE_64)
  {
    hide Decimal, LeadingDigits, DecimalValue;
    var v := if n < 0 then -n else n;
    DecimalDigits(v);
    var d := Decimal(v);
    assert d[0] in d && ("-" + d)[1..] == d;
    DecimalRoundTrip(v);
  }

  /** The delegate writes a number as its type asks. */
  lemma {:induction false} NumberWritten(t: FieldType, id: nat, n: int)
    requires t in NUMERIC_TYPES
    ensures NumberNode(t, id, Kept(n) % TWO_TO_THE_64) == NumberOnWire(t, id, n)
  {
    var k := Kept(n);
    assert k % TWO_TO_THE_64 % TWO_TO_THE_32 == k % TWO_TO_THE_32;
  }

  lemma {:induction false} SignedBack(n: int, half: int)
    requires half == TWO_TO_THE_31 || half == TWO_TO_THE_63
    requires -half <= n < half
    ensures Signed(n, half) == n && Signed(n % (2 * half), half) == n
    ensures n % TWO_TO_THE_64 == if n >= 0 then n else n + TWO_TO_THE_64
    ensures Signed(n % TWO_TO_THE_64, half) == n
  {
    assert n % TWO_TO_THE_64 == if n >= 0 then n else n + TWO_TO_THE_64;
    if half == TWO_TO_THE_31 {
      assert (n + TWO_TO_THE_64) % TWO_TO_THE_32 == n % TWO_TO_THE_32;
    }
  }

  lemma {:induction false} AlternatingBack(n: int)
    ensures var v := Alternating(n); n == if v % 2 == 0 then v / 2 else -(v / 2) - 1
  {
  }

  /** A reader gets every number back that the type of the field has. */
  lemma {:induction false} NumberSurvives(t: FieldType, id: nat, n: int)
    requires t in NUMERIC_TYPES && Fitting(t, n)
    ensures var node := NumberOnWire(t, id, n);
            !node.Bytes? && !node.Msg? && ReadNumber(t, node.value) == n
  {
    hide NumberOnWire, ReadNumber, Fitting;
    match t
    case TypeInt64 => SignedSurvives(t, id, n);
    case TypeInt32 => SignedSurvives(t, id, n);
    case TypeSfixed64 => SignedSurvives(t, id, n);
    case TypeSfixed32 => SignedSurvives(t, id, n);
    case TypeSint64 => AlternatingSurvives(t, id, n);
    case TypeSint32 => AlternatingSurvives(t, id, n);
    case _ => UnsignedSurvives(t, id, n);
  }

  lemma {:induction false} SignedSurvives(t: FieldType, id: nat, n: int)
    requires t in {TypeInt64, TypeInt32, TypeSfixed64, TypeSfixed32} && Fitting(t, n)
    ensures var node := NumberOnWire(t, id, n);
            !node.Bytes? && !node.Msg? && ReadNumber(t, node.value) == n
  {
    hide Signed;
    if t == TypeInt64 || t == TypeSfixed64 {
      SignedBack(n, TWO_TO_THE_63);
    } else {
      SignedBack(n, TWO_TO_THE_31);
    }
  }

  lemma {:induction false} AlternatingSurvives(t: FieldType, id: nat, n: int)
    requires t in {TypeSint64, TypeSint32} && Fitting(t, n)
    ensures var node := NumberOnWire(t, id, n);
            !node.Bytes? && !node.Msg? && ReadNumber(t, node.value) == n
  {
    hide Signed, Alternating;
    AlternatingBack(n);
    SignedBack(n, if t == TypeSint64 then TWO_TO_THE_63 else TWO_TO_THE_31);
  }

  lemma {:induction false} UnsignedSurvives(t: FieldType, id: nat, n: int)
    requires t in {TypeUint64, TypeUint32, TypeFixed64, TypeFixed32} && Fitting(t, n)
    ensures var node := NumberOnWire(t, id, n);
            !node.Bytes? && !node.Msg? && ReadNumber(t, node.value) == n
  {
  }

  lemma {:induction false} UnescapeEscape(s: seq<Char>)
    ensures Unescape(Escape(s)) == Plain(BytesOf(s))
    decreases |s|
  {
    if s != [] {
      UnescapeEscape(s[1..]);
      var e, rest := Escaped(s[0]), Escape(s[1..]);
      assert Escape(s) == e + rest;
      assert BytesOf(s) == [s[0] as int] + BytesOf(s[1..]);
      UnescapeOne(s[0], rest);
    }
  }

  lemma {:induction false} UnescapeOne(c: Char, rest: seq<Char>)
    ensures Unescape(Escaped(c) + rest) == match Unescape(rest)
                                           case Plain(bytes) => Plain([c as int] + bytes)
                                           case bad => bad
  {
  }

  // ---- The delegate builds the tree -------------------------------------------------------------------

  /** The delegate is inside message `|outer|` of the chain, of type `typ`, which has its fields so far. */
  ghost predicate Inside(d: Delegate, typ: string, seen: set<seq<Char>>, outer: seq<Sessions.Frame>, id: nat,
                         fields: seq<Node>) {
    && InStep(d) && !d.crashed
    && |d.ctx| == |outer| + 1 && d.Top() == Context(typ, seen)
    && |outer| < |Sessions.Run(d.calls).frames|
    && Sessions.Folded(Sessions.Run(d.calls).frames, |outer|) == outer + [Sessions.Frame(id, 0, fields)]
  }

  lemma {:induction false} DriveConcat(ds: Descriptors, d: Delegate, a: seq<Event>, b: seq<Event>)
    ensures Drive(ds, d, a + b) == Drive(ds, Drive(ds, d, a), b)
    decreases |b|
  {
    hide Handle;
    if b == [] {
      assert a + b == a;
    } else {
      DriveConcat(ds, d, a, b[..|b| - 1]);
      assert (a + b)[..|a + b| - 1] == a + b[..|b| - 1];
    }
  }

  lemma {:induction false} DriveOne(ds: Descriptors, d: Delegate, e: Event)
    ensures Drive(ds, d, [e]) == Handle(ds, d, e)
  {
  }

  /** One more field of the innermost message. */
  lemma {:induction false} AppendInside(d: Delegate, d': Delegate, typ: string, seen: set<seq<Char>>,
                                        seen': set<seq<Char>>, outer: seq<Sessions.Frame>, id: nat, fields: seq<Node>,
                                        n: Node)
    requires Inside(d, typ, seen, outer, id, fields) && !n.Msg?
    requires d'.calls == d.calls + [Sessions.Append(|outer|, n)] && !d'.crashed
    requires |d'.ctx| == |d.ctx| && d'.Top() == Context(typ, seen')
    ensures Inside(d', typ, seen', outer, id, fields + [n])
  {
    hide Sessions.Run, Sessions.WellNested, Sessions.Undeclared, Sessions.Covered;
    var k, st := |outer|, Sessions.Run(d.calls);
    Sessions.UndeclaredCovered(st.frames);
    Sessions.UndeclaredAfter(st, Sessions.Append(k, n));
    WellNestedSnoc(d.calls, Sessions.Append(k, n));
    var fs := Sessions.After(st, Sessions.Append(k, n)).frames;
    assert fs == outer + [Sessions.Frame(id, 0, fields + [n])];
    assert Sessions.Folded(fs, k) == fs;
  }

  lemma {:induction false} BeginInside(d: Delegate, d': Delegate, typ: string, seen: set<seq<Char>>, typ': string,
                                       outer: seq<Sessions.Frame>, id: nat, fields: seq<Node>, id': nat)
    requires Inside(d, typ, seen, outer, id, fields) && |outer| < MAX_NESTING_DEPTH
    requires d'.calls == d.calls + [Sessions.Begin(|outer|, id')] && !d'.crashed
    requires |d'.ctx| == |d.ctx| + 1 && d'.Top() == Context(typ', {})
    ensures Inside(d', typ', {}, outer + [Sessions.Frame(id, 0, fields)], id', [])
  {
    hide Sessions.Run, Sessions.WellNested, Sessions.Undeclared, Sessions.Covered;
    var k, st := |outer|, Sessions.Run(d.calls);
    Sessions.UndeclaredCovered(st.frames);
    Sessions.UndeclaredAfter(st, Sessions.Begin(k, id'));
    WellNestedSnoc(d.calls, Sessions.Begin(k, id'));
    var fs := Sessions.After(st, Sessions.Begin(k, id')).frames;
    var outer' := outer + [Sessions.Frame(id, 0, fields)];
    assert fs == outer' + [Sessions.Frame(id', 0, [])];
    assert Sessions.Folded(fs, k + 1) == fs;
  }

  lemma {:induction false} EndInside(d: Delegate, d': Delegate, typ: string, seen: set<seq<Char>>, typ': string,
                                     seen': set<seq<Char>>, outer: seq<Sessions.Frame>, id: nat, fields: seq<Node>,
                                     id': nat, fields': seq<Node>)
    requires Inside(d, typ, seen, outer + [Sessions.Frame(id, 0, fields)], id', fields')
    requires d'.calls == d.calls + [Sessions.End(|outer| + 1)] && !d'.crashed
    requires |d'.ctx| == |d.ctx| - 1 && d'.Top() == Context(typ', seen')
    ensures Inside(d', typ', seen', outer, id, fields + [Msg(id', 0, fields')])
  {
    hide Sessions.Run, Sessions.WellNested, Sessions.Undeclared, Sessions.Covered;
    var k, st := |outer|, Sessions.Run(d.calls);
    Sessions.UndeclaredCovered(st.frames);
    Sessions.UndeclaredAfter(st, Sessions.End(k + 1));
    WellNestedSnoc(d.calls, Sessions.End(k + 1));
    var fs := Sessions.After(st, Sessions.End(k + 1)).frames;
    assert fs == outer + [Sessions.Frame(id, 0, fields)] + [Sessions.Frame(id', 0, fields')];
    assert Sessions.Collapsed(fs, k + 1) == fields';
    assert Sessions.Collapsed(fs, k) == fields + [Msg(id', 0, fields')];
    assert fs[..k] == outer;
  }

  /** The lookup of a well-typed field finds it, without complaint. */
  lemma {:induction false} FindTyped(ds: Descriptors, d: Delegate, key: seq<Char>, types: set<FieldType>,
                                     f: FieldDescriptor)
    requires d.ctx != [] && Lookup(ds, d.Top().typ, key) == Some(f) && f.typ in types
    requires f.repeated || key !in d.Top().seen
    ensures var r := FindFieldByName(ds, d, key, types);
            && r.field == Some(f) && r.d.problems == d.problems
            && r.d.Top() == d.Top().(seen := d.Top().seen + {key}) && r.d.ctx[..d.Level()] == d.ctx[..d.Level()]
  {
  }

  lemma {:induction false} DriveLeaf(ds: Descriptors, d: Delegate, e: Entry, f: FieldDescriptor, typ: string,
                                     seen: set<seq<Char>>, outer: seq<Sessions.Frame>, id: nat, fields: seq<Node>)
    requires Inside(d, typ, seen, outer, id, fields)
    requires Lookup(ds, typ, e.name) == Some(f) && (f.repeated || e.name !in seen)
    requires TypedValue(ds, f, e.value, |outer|) && !e.value.Sub?
    ensures var d' := Drive(ds, d, EventsOf(e));
            && Inside(d', typ, seen + {e.name}, outer, id, fields + [NodeOf(ds, f, e.value)])
            && d'.problems == d.problems && d'.ctx[..|outer|] == d.ctx[..|outer|]
  {
    hide Sessions.Run, InStep, Sessions.Folded, FindFieldByName, Lookup, NumberNode, NumberOnWire, ParseInteger,
         Numeral, Unescape, Escape;
    var event := EventsOf(e)[0];
    DriveOne(ds, d, event);
    var n := NodeOf(ds, f, e.value);
    match e.value {
      case Number(v) =>
        FindTyped(ds, d, e.name, NUMERIC_TYPES, f);
        NumberWritten(f.typ, f.number, v);
        ParsePrinted(v);
      case Word(w) =>
        FindTyped(ds, d, e.name, {TypeBool, TypeEnum}, f);
      case Text(s) =>
        FindTyped(ds, d, e.name, {TypeString, TypeBytes}, f);
        UnescapeEscape(s);
    }
    AppendInside(d, Handle(ds, d, event), typ, seen, seen + {e.name}, outer, id, fields, n);
  }

  lemma {:induction false} DriveEntry(ds: Descriptors, d: Delegate, e: Entry, f: FieldDescriptor, typ: string,
                                      seen: set<seq<Char>>, outer: seq<Sessions.Frame>, id: nat, fields: seq<Node>)
    requires Inside(d, typ, seen, outer, id, fields)
    requires Lookup(ds, typ, e.name) == Some(f) && (f.repeated || e.name !in seen)
    requires TypedValue(ds, f, e.value, |outer|)
    ensures var d' := Drive(ds, d, EventsOf(e));
            && Inside(d', typ, seen + {e.name}, outer, id, fields + [NodeOf(ds, f, e.value)])
            && d'.problems == d.problems && d'.ctx[..|outer|] == d.ctx[..|outer|]
    decreases e, 1
  {
    hide Sessions.Run, InStep, Sessions.Folded, FindFieldByName, Lookup, Drive, SeenAfter, NodesOf, Typed,
         Sessions.WellNested;
    if !e.value.Sub? {
      DriveLeaf(ds, d, e, f, typ, seen, outer, id, fields);
    } else {
      var sub, begin, end := e.value.entries, BeginNestedMessage(e.name), EndNestedMessage;
      var inner := outer + [Sessions.Frame(id, 0, fields)];
      DriveConcat(ds, d, [begin] + Events(sub), [end]);
      DriveConcat(ds, d, [begin], Events(sub));
      DriveOne(ds, d, begin);
      FindTyped(ds, d, e.name, {TypeMessage}, f);
      var d1 := Handle(ds, d, begin);
      BeginInside(d, d1, typ, seen, f.typeName, outer, id, fields, f.number);
      DriveEntries(ds, d1, sub, f.typeName, {}, inner, f.number, []);
      var d2 := Drive(ds, d1, Events(sub));
      DriveOne(ds, d2, end);
      var d3 := Handle(ds, d2, end);
      assert [] + NodesOf(ds, f.typeName, sub) == NodesOf(ds, f.typeName, sub);
      assert d3.Top() == d2.ctx[..|inner|][|outer|];
      EndInside(d2, d3, f.typeName, SeenAfter({}, sub), typ, seen + {e.name}, outer, id, fields, f.number,
          NodesOf(ds, f.typeName, sub));
    }
  }

  function SeenAfter(seen: set<seq<Char>>, entries: seq<Entry>): set<seq<Char>>
    decreases |entries|
  {
    if entries == [] then seen else SeenAfter(seen + {entries[0].name}, entries[1..])
  }

  /** Driven by the reports of a well-typed tree, the delegate complains about nothing and adds exactly the
      fields that the tree means. */
  lemma {:induction false} DriveEntries(ds: Descriptors, d: Delegate, entries: seq<Entry>, typ: string,
                                        seen: set<seq<Char>>, outer: seq<Sessions.Frame>, id: nat, fields: seq<Node>)
    requires Inside(d, typ, seen, outer, id, fields)
    requires Typed(ds, typ, entries, seen, |outer|)
    ensures var d' := Drive(ds, d, Events(entries));
            && Inside(d', typ, SeenAfter(seen, entries), outer, id, fields + NodesOf(ds, typ, entries))
            && d'.problems == d.problems && d'.ctx[..|outer|] == d.ctx[..|outer|]
    decreases entries, 0
  {
    hide Inside, Lookup, Drive, EventsOf, NodeOf, TypedValue;
    if entries == [] {
      DriveNone(ds, d);
      assert fields + [] == fields;
    } else {
      var e := entries[0];
      var f := Lookup(ds, typ, e.name).value;
      var n := NodeOf(ds, f, e.value);
      DriveEntry(ds, d, e, f, typ, seen, outer, id, fields);
      DriveConcat(ds, d, EventsOf(e), Events(entries[1..]));
      DriveEntries(ds, Drive(ds, d, EventsOf(e)), entries[1..], typ, seen + {e.name}, outer, id, fields + [n]);
      assert fields + [n] + NodesOf(ds, typ, entries[1..]) == fields + NodesOf(ds, typ, entries);
    }
  }

  lemma {:induction false} DriveNone(ds: Descriptors, d: Delegate)
    ensures Drive(ds, d, []) == d
  {
  }

  // ---- Whole inputs ---------------------------------------------------------------------------------------

  /** `Aborted`: a check has ended the program. Otherwise the errors reported and the calls made. */
  datatype Outcome = Aborted | Parsed(problems: seq<Problem>, calls: seq<Sessions.Call>)

  /** What is wrong with an input that ends, or is given up, where the machine stands. */
  function EndProblems(l: Lexer): seq<Problem> {
    if l.status == Unmatched then [UnmatchedBrace]
    else (if l.depth > 0 then [NotClosed] else []) + (if l.mode != WaitingForKey then [UnexpectedEnd] else [])
  }

  function Parse(ds: Descriptors, typ: string, input: seq<Char>): Outcome {
    var l := Run(START, input, true);
    var d := Drive(ds, Initial(typ), l.events);
    if d.crashed || l.status == Fatal then Aborted else Outcome.Parsed(d.problems + EndProblems(l), d.calls)
  }

  lemma {:induction false} InitialInside(typ: string)
    ensures Inside(Initial(typ), typ, {}, [], 0, [])
  {
  }

  /** Every input: the calls made are ones the message interface allows. */
  lemma {:induction false} ParseWellNested(ds: Descriptors, typ: string, input: seq<Char>)
    ensures InStep(Drive(ds, Initial(typ), Run(START, input, true).events))
    ensures Parse(ds, typ, input).Parsed? ==> Sessions.WellNested(Parse(ds, typ, input).calls)
  {
    InitialInside(typ);
    DriveInStep(ds, Initial(typ), Run(START, input, true).events);
  }

  /** An input without errors ends between two fields, outside of all braces, and leaves no nested message open. */
  lemma {:induction false} CleanIsSettled(ds: Descriptors, typ: string, input: seq<Char>)
    requires var r := Parse(ds, typ, input); r.Parsed? && r.problems == []
    ensures var l := Run(START, input, true); l.status == Running && l.mode == WaitingForKey && l.depth == 0
    ensures Sessions.Settled(Sessions.Run(Parse(ds, typ, input).calls))
  {
    hide Drive, PbtxtLexer.Run, Skipped, Sessions.Run, Sessions.WellNested;
    var l := Run(START, input, true);
    assert Sound(START);
    RunSound(START, input, true);
    ParseWellNested(ds, typ, input);
    StackHeight(ds, typ, l.events);
    var d := Drive(ds, Initial(typ), l.events);
    assert |d.problems + EndProblems(l)| == |d.problems| + |EndProblems(l)|;
  }

  /** Parsing a printed config, in whatever layout, reports no error and describes exactly the tree printed. */
  lemma {:induction false} ParsePrintedTree(ds: Descriptors, typ: string, lead: seq<Char>, entries: seq<Entry>)
    requires Blank(lead) && Written(entries) && Typed(ds, typ, entries, {}, 0)
    ensures var r := Parse(ds, typ, Document(lead, entries));
            r.Parsed? && r.problems == [] && Sessions.Meaning(r.calls) == NodesOf(ds, typ, entries)
  {
    hide Drive, PbtxtLexer.Run, Document, Events, Sessions.Run, InStep;
    ReadBack(lead, entries);
    PrintedDrive(ds, typ, entries);
    assert [] + Events(entries) == Events(entries);
  }

  // ---- What each report does ------------------------------------------------------------------------------

  function FieldsOf(ds: Descriptors, typ: string): seq<FieldDescriptor> {
    if typ in ds.messages then ds.messages[typ] else []
  }

  /** A field of the innermost message is looked up by name: it is an error if there is none, if it was given
      before and may not be, and if it is of another type than those asked for. Only the last hides it. */
  ghost predicate LookedUp(ds: Descriptors, d: Delegate, key: seq<Char>, types: set<FieldType>, d': Delegate,
                           field: Option<FieldDescriptor>)
    requires d.ctx != []
  {
    var typ, seen := d.Top().typ, d.Top().seen;
    var fields := FieldsOf(ds, typ);
    && d'.calls == d.calls && d'.crashed == d.crashed && |d'.ctx| == |d.ctx|
    && d'.ctx[..d.Level()] == d.ctx[..d.Level()]
    && ((forall i :: 0 <= i < |fields| ==> fields[i].name != key) ==>
          field.None? && d'.problems == d.problems + [NoSuchField(key)] && d'.Top() == d.Top())
    && forall i: nat | FirstField(fields, key, i) ::
         var f := fields[i];
         && field == (if f.typ in types then Some(f) else None) && d'.Top() == Context(typ, seen + {key})
         && d'.problems == d.problems + (if key in seen && !f.repeated then [SeenBefore(key)] else [])
                           + (if f.typ in types then [] else [WrongType(key)])
  }

  lemma {:induction false} FindLooksUp(ds: Descriptors, d: Delegate, key: seq<Char>, types: set<FieldType>)
    requires d.ctx != []
    ensures var r := FindFieldByName(ds, d, key, types); LookedUp(ds, d, key, types, r.d, r.field)
  {
    hide FindField;
    var fields := FieldsOf(ds, d.Top().typ);
    FindFieldIs(fields, key);
    forall i: nat | FirstField(fields, key, i)
      ensures FindField(fields, key) == Some(fields[i])
    {
      OneFirst(fields, key, i);
    }
    var r := FindFieldByName(ds, d, key, types);
    assert r.d.ctx[..d.Level()] == d.ctx[..d.Level()];
    assert d.problems + [] + [] == d.problems && d.problems + [] + [WrongType(key)] == d.problems + [WrongType(key)];
    assert d.problems + [SeenBefore(key)] + [] == d.problems + [SeenBefore(key)];
  }

  lemma {:induction false} OneFirst(fields: seq<FieldDescriptor>, key: seq<Char>, i: nat)
    requires FirstField(fields, key, i)
    ensures FindField(fields, key) == Some(fields[i])
  {
    FindFieldIs(fields, key);
    var j: nat :| FirstField(fields, key, j) && Some(fields[j]) == FindField(fields, key);
  }

  /** What a word in a field comes to: the number it stands for is written, or it is an error, or it aborts the
      program, which an unknown enum value does. */
  ghost predicate WordTaken(ds: Descriptors, d: Delegate, f: FieldDescriptor, value: seq<Char>, d': Delegate)
    requires d.ctx != []
  {
    var append := (n: nat) => d.calls + [Sessions.Append(d.Level(), Scalar(f.number, n))];
    if f.typ == TypeBool then
      && !d'.crashed && (value == "true" ==> d'.calls == append(1)) && (value == "false" ==> d'.calls == append(0))
      && (value != "true" && value != "false" ==>
            d'.calls == d.calls && d'.problems != [] && d'.problems[|d'.problems| - 1].BadBoolean?)
    else
      && (d'.crashed <==> forall i :: 0 <= i < |ValuesOf(ds, f)| ==> ValuesOf(ds, f)[i].name != value)
      && (d'.crashed ==> d'.calls == d.calls)
      && forall i: nat | FirstValue(ValuesOf(ds, f), value, i) ::
           d'.calls == append(OnWire(ValuesOf(ds, f)[i].number))
  }

  lemma {:induction false} WordIsTaken(ds: Descriptors, d: Delegate, key: seq<Char>, value: seq<Char>,
                                       f: FieldDescriptor)
    requires d.ctx != [] && !d.crashed && Lookup(ds, d.Top().typ, key) == Some(f)
             && (f.typ == TypeBool || f.typ == TypeEnum)
    ensures WordTaken(ds, d, f, value, OnIdentifier(ds, d, key, value))
  {
    hide FindField, FindEnum;
    FindEnumIs(ValuesOf(ds, f), value);
  }

  /** A number is written as its type asks, a string as its bytes. */
  lemma {:induction false} NumberIsTaken(ds: Descriptors, d: Delegate, key: seq<Char>, n: int, f: FieldDescriptor)
    requires d.ctx != [] && !d.crashed && Lookup(ds, d.Top().typ, key) == Some(f) && f.typ in NUMERIC_TYPES
    ensures var d' := OnNumeric(ds, d, key, Numeral(n));
            !d'.crashed && d'.calls == d.calls + [Sessions.Append(d.Level(), NumberOnWire(f.typ, f.number, n))]
  {
    hide FindField, ParseInteger, Numeral, NumberNode, NumberOnWire;
    ParsePrinted(n);
    NumberWritten(f.typ, f.number, n);
  }

  lemma {:induction false} TextIsTaken(ds: Descriptors, d: Delegate, key: seq<Char>, s: seq<Char>,
                                       f: FieldDescriptor)
    requires d.ctx != [] && !d.crashed && Lookup(ds, d.Top().typ, key) == Some(f)
             && (f.typ == TypeString || f.typ == TypeBytes)
    ensures var d' := OnString(ds, d, key, Escape(s));
            !d'.crashed && d'.calls == d.calls + [Sessions.Append(d.Level(), Bytes(f.number, BytesOf(s)))]
  {
    hide FindField, Unescape, Escape;
    UnescapeEscape(s);
  }

  /** An escape that is not known is an error, and nothing is written; one that is left open aborts the program. */
  lemma {:induction false} BadTextIsTaken(ds: Descriptors, d: Delegate, key: seq<Char>, value: seq<Char>,
                                          f: FieldDescriptor)
    requires d.ctx != [] && !d.crashed && Lookup(ds, d.Top().typ, key) == Some(f)
             && (f.typ == TypeString || f.typ == TypeBytes) && !Unescape(value).Plain?
    ensures var d' := OnString(ds, d, key, value);
            && d'.calls == d.calls && (d'.crashed <==> Unescape(value) == Dangling)
            && (!d'.crashed ==> |d.problems| < |d'.problems| && d'.problems[|d'.problems| - 1] == BadEscape(key))
  {
    hide FindField, Unescape;
  }

  /** A number is read up to the first character that is not a digit; a sign alone is not a number, and aborts the
      program. */
  lemma {:induction false} NumberEnds(n: int, c: Char, rest: seq<Char>)
    requires !IsDigit(c)
    ensures ParseInteger(Numeral(n) + [c] + rest) == ParseInteger(Numeral(n))
    ensures ParseInteger("-") == None && (c != '-' ==> ParseInteger([c] + rest) == None)
  {
    hide Decimal, DecimalValue;
    var d := Decimal(if n < 0 then -n else n);
    DecimalDigits(if n < 0 then -n else n);
    LeadingDigitsAll(d);
    LeadingDigitsEnd(d, c, rest);
    assert d[0] in d && (d + [c] + rest)[0] == d[0];
    assert ("-" + d)[1..] == d && ("-" + d + [c] + rest)[1..] == d + [c] + rest;
    assert "-"[1..] == [];
  }

  lemma {:induction false} LeadingDigitsEnd(s: seq<Char>, c: Char, rest: seq<Char>)
    requires (forall d :: d in s ==> IsDigit(d)) && !IsDigit(c)
    ensures LeadingDigits(s + [c] + rest) == s
    decreases |s|
  {
    if s == [] {
      assert s + [c] + rest == [c] + rest;
    } else {
      assert s[0] in s && (s + [c] + rest)[1..] == s[1..] + [c] + rest;
      LeadingDigitsEnd(s[1..], c, rest);
      assert [s[0]] + s[1..] == s;
    }
  }

  // ---- Trees that do not fit ------------------------------------------------------------------------------

  /** An error has been reported, or a check has failed. */
  predicate Worse(d: Delegate, d': Delegate) {
    d'.crashed || |d.problems| < |d'.problems|
  }

  /** What was reported stays reported. */
  lemma {:induction false} DriveOn(ds: Descriptors, d: Delegate, events: seq<Event>)
    ensures var d' := Drive(ds, d, events);
            d'.crashed || (!d.crashed && |d.problems| <= |d'.problems|)
    decreases |events|
  {
    hide Handle;
    if events == [] {
      DriveNone(ds, d);
    } else {
      var front, e := events[..|events| - 1], events[|events| - 1];
      DriveOn(ds, d, front);
      if !Drive(ds, d, events).crashed {
        HandleHeight(ds, Drive(ds, d, front), e);
      }
    }
  }

  lemma {:induction false} StaysWorse(ds: Descriptors, d: Delegate, a: seq<Event>, b: seq<Event>)
    requires Worse(d, Drive(ds, d, a))
    ensures Worse(d, Drive(ds, d, a + b))
  {
    DriveConcat(ds, d, a, b);
    DriveOn(ds, Drive(ds, d, a), b);
  }

  /** The entry may stand in the message. */
  predicate Known(ds: Descriptors, typ: string, e: Entry, seen: set<seq<Char>>) {
    Lookup(ds, typ, e.name).Some? && (Lookup(ds, typ, e.name).value.repeated || e.name !in seen)
  }

  /** The kinds of fields that may take a value. */
  function KindsFor(v: Value): set<FieldType> {
    match v
    case Number(_) => NUMERIC_TYPES
    case Word(_) => {TypeBool, TypeEnum}
    case Text(_) => {TypeString, TypeBytes}
    case Sub(_) => {TypeMessage}
  }

  lemma {:induction false} NotFound(ds: Descriptors, d: Delegate, e: Entry)
    requires d.ctx != []
    requires !Known(ds, d.Top().typ, e, d.Top().seen)
               || Lookup(ds, d.Top().typ, e.name).value.typ !in KindsFor(e.value)
    ensures |d.problems| < |FindFieldByName(ds, d, e.name, KindsFor(e.value)).d.problems|
  {
    hide FindField;
  }

  lemma {:induction false} FoundSome(ds: Descriptors, d: Delegate, key: seq<Char>, types: set<FieldType>)
    requires d.ctx != []
    ensures var r := FindFieldByName(ds, d, key, types);
            && |d.problems| <= |r.d.problems| && |r.d.ctx| == |d.ctx|
            && (r.field.Some? ==> r.field == Lookup(ds, d.Top().typ, key) && r.field.value.typ in types)
  {
    hide FindField;
  }

  /** The first report of an entry that does not fit its field is an error, or fails a check. */
  lemma {:induction false} BadReport(ds: Descriptors, d: Delegate, e: Entry)
    requires d.ctx != [] && !d.crashed && EventsOf(e) != []
    requires var typ := d.Top().typ;
             !Known(ds, typ, e, d.Top().seen) || var f := Lookup(ds, typ, e.name).value;
               match e.value
               case Sub(_) => f.typ != TypeMessage || f.typeName !in ds.messages || d.Level() >= MAX_NESTING_DEPTH
               case v => !TypedValue(ds, f, v, d.Level())
    ensures Worse(d, Handle(ds, d, EventsOf(e)[0]))
  {
    hide FindFieldByName, NumberNode, ParseInteger, Unescape, Numeral, Escape;
    var typ, kinds := d.Top().typ, KindsFor(e.value);
    FoundSome(ds, d, e.name, kinds);
    if !Known(ds, typ, e, d.Top().seen) || Lookup(ds, typ, e.name).value.typ !in kinds {
      NotFound(ds, d, e);
      ReportsMore(ds, d, e);
    } else {
      FindTyped(ds, d, e.name, kinds, Lookup(ds, typ, e.name).value);
    }
  }

  /** What the lookup reports is not taken back. */
  lemma {:induction false} ReportsMore(ds: Descriptors, d: Delegate, e: Entry)
    requires d.ctx != [] && !d.crashed && EventsOf(e) != []
    ensures var d' := Handle(ds, d, EventsOf(e)[0]);
            d'.crashed || |FindFieldByName(ds, d, e.name, KindsFor(e.value)).d.problems| <= |d'.problems|
  {
    hide FindFieldByName, NumberNode, ParseInteger, Unescape, Numeral, Escape, Resolve;
  }

  lemma {:induction false} BadEntry(ds: Descriptors, d: Delegate, e: Entry, typ: string, seen: set<seq<Char>>,
                                    outer: seq<Sessions.Frame>, id: nat, fields: seq<Node>)
    requires Inside(d, typ, seen, outer, id, fields)
    requires !Known(ds, typ, e, seen) || !TypedValue(ds, Lookup(ds, typ, e.name).value, e.value, |outer|)
    ensures Worse(d, Drive(ds, d, EventsOf(e)))
    decreases e, 1
  {
    hide Sessions.Run, InStep, Sessions.Folded, FindFieldByName, Lookup, Drive, Typed, Sessions.WellNested, Handle,
         Numeral, Escape, Events;
    var first, f := EventsOf(e)[0], Lookup(ds, typ, e.name);
    DriveOne(ds, d, first);
    if Known(ds, typ, e, seen) && e.value.Sub? && f.value.typ == TypeMessage && f.value.typeName in ds.messages
      && |outer| < MAX_NESTING_DEPTH {
      BadSub(ds, d, e, f.value, typ, seen, outer, id, fields);
    } else {
      BadReport(ds, d, e);
      assert EventsOf(e) == [first] + EventsOf(e)[1..];
      StaysWorse(ds, d, [first], EventsOf(e)[1..]);
    }
  }

  lemma {:induction false} BadSub(ds: Descriptors, d: Delegate, e: Entry, f: FieldDescriptor, typ: string,
                                  seen: set<seq<Char>>, outer: seq<Sessions.Frame>, id: nat, fields: seq<Node>)
    requires Inside(d, typ, seen, outer, id, fields) && Lookup(ds, typ, e.name) == Some(f)
    requires (f.repeated || e.name !in seen) && e.value.Sub? && f.typ == TypeMessage && f.typeName in ds.messages
    requires |outer| < MAX_NESTING_DEPTH && !Typed(ds, f.typeName, e.value.entries, {}, |outer| + 1)
    ensures Worse(d, Drive(ds, d, EventsOf(e)))
    decreases e, 0
  {
    hide Sessions.Run, InStep, Sessions.Folded, FindFieldByName, Lookup, Drive, Typed, Sessions.WellNested;
    var sub, begin := e.value.entries, BeginNestedMessage(e.name);
    DriveConcat(ds, d, [begin], Events(sub));
    DriveOne(ds, d, begin);
    FindTyped(ds, d, e.name, {TypeMessage}, f);
    var d1 := Handle(ds, d, begin);
    BeginInside(d, d1, typ, seen, f.typeName, outer, id, fields, f.number);
    BadEntries(ds, d1, sub, f.typeName, {}, outer + [Sessions.Frame(id, 0, fields)], f.number, []);
    StaysWorse(ds, d, [begin] + Events(sub), [EndNestedMessage]);
  }

  lemma {:induction false} BadEntries(ds: Descriptors, d: Delegate, entries: seq<Entry>, typ: string,
                                      seen: set<seq<Char>>, outer: seq<Sessions.Frame>, id: nat, fields: seq<Node>)
    requires Inside(d, typ, seen, outer, id, fields) && !Typed(ds, typ, entries, seen, |outer|)
    ensures Worse(d, Drive(ds, d, Events(entries)))
    decreases entries, 0
  {
    hide Inside, Lookup, Drive, EventsOf, NodeOf, TypedValue;
    var e, rest := entries[0], Events(entries[1..]);
    if Known(ds, typ, e, seen) && TypedValue(ds, Lookup(ds, typ, e.name).value, e.value, |outer|) {
      var f := Lookup(ds, typ, e.name).value;
      DriveEntry(ds, d, e, f, typ, seen, outer, id, fields);
      DriveConcat(ds, d, EventsOf(e), rest);
      BadEntries(ds, Drive(ds, d, EventsOf(e)), entries[1..], typ, seen + {e.name}, outer, id,
                 fields + [NodeOf(ds, f, e.value)]);
    } else {
      BadEntry(ds, d, e, typ, seen, outer, id, fields);
      StaysWorse(ds, d, EventsOf(e), rest);
    }
  }

  /** A printed config is taken without an error if and only if it fits its descriptor. */
  lemma {:induction false} TakenIffTyped(ds: Descriptors, typ: string, lead: seq<Char>, entries: seq<Entry>)
    requires Blank(lead) && Written(entries)
    ensures var r := Parse(ds, typ, Document(lead, entries));
            r.Parsed? && r.problems == [] <==> Typed(ds, typ, entries, {}, 0)
  {
    hide Drive, PbtxtLexer.Run, Document, Events, Typed, Inside, Sessions.Meaning;
    if Typed(ds, typ, entries, {}, 0) {
      ParsePrintedTree(ds, typ, lead, entries);
    } else {
      ReadBack(lead, entries);
      InitialInside(typ);
      BadEntries(ds, Initial(typ), entries, typ, {}, [], 0, []);
      assert [] + Events(entries) == Events(entries);
    }
  }

  // ---- Texts that go wrong -------------------------------------------------------------------------------

  lemma {:induction false} RunStays(l: Lexer, s: seq<Char>, atEnd: bool)
    requires l.status != Running
    ensures Run(l, s, atEnd) == l
    decreases |s|
  {
    if s != [] {
      RunStays(l, s[1..], atEnd);
    }
  }

  /** The machine after a printed tree and one more character. */
  lemma {:induction false} RunAndOne(lead: seq<Char>, entries: seq<Entry>, c: Char, rest: seq<Char>)
    requires Blank(lead) && Written(entries)
    ensures var l := Run(START, lead + Print(entries), false);
            && Reported(START, Events(entries), l)
            && Run(START, lead + Print(entries) + ([c] + rest), true) == Run(Step(l, c, rest == []), rest, true)
  {
    hide Print, Events, PbtxtLexer.Step;
    var l := Run(START, lead + Print(entries), false);
    RunBlank(START, lead);
    RunConcatMore(START, lead, Print(entries));
    RunPrint(START, entries);
    RunConcat(START, lead + Print(entries), [c] + rest, true);
    assert ([c] + rest)[0] == c && ([c] + rest)[1..] == rest;
  }

  /** A closing brace too many ends the parse with an error, whatever follows it. */
  lemma {:induction false} UnmatchedEnds(ds: Descriptors, typ: string, lead: seq<Char>, entries: seq<Entry>,
                                         rest: seq<Char>)
    requires Blank(lead) && Written(entries) && Typed(ds, typ, entries, {}, 0)
    ensures var r := Parse(ds, typ, lead + Print(entries) + (['}'] + rest));
            r.Parsed? && r.problems == [UnmatchedBrace] && Sessions.Meaning(r.calls) == NodesOf(ds, typ, entries)
  {
    hide Drive, PbtxtLexer.Run, Print, Events, Sessions.Run, InStep;
    RunAndOne(lead, entries, '}', rest);
    var l := Run(START, lead + Print(entries), false);
    RunStays(Step(l, '}', rest == []), rest, true);
    assert [] + Events(entries) == Events(entries);
    PrintedDrive(ds, typ, entries);
  }

  lemma {:induction false} PrintedDrive(ds: Descriptors, typ: string, entries: seq<Entry>)
    requires Typed(ds, typ, entries, {}, 0)
    ensures var d := Drive(ds, Initial(typ), Events(entries));
            !d.crashed && d.problems == [] && Sessions.Meaning(d.calls) == NodesOf(ds, typ, entries)
  {
    hide Drive, Events, Sessions.Run, InStep, Typed;
    InitialInside(typ);
    DriveEntries(ds, Initial(typ), entries, typ, {}, [], 0, []);
    var d := Drive(ds, Initial(typ), Events(entries));
    assert [] + NodesOf(ds, typ, entries) == NodesOf(ds, typ, entries);
    assert Sessions.Folded(Sessions.Run(d.calls).frames, 0)[0].fields == NodesOf(ds, typ, entries);
  }

  /** Where a field could start, a character that starts none aborts the program. */
  lemma {:induction false} UnexpectedAborts(ds: Descriptors, typ: string, lead: seq<Char>, entries: seq<Entry>,
                                            c: Char, rest: seq<Char>)
    requires Blank(lead) && Written(entries)
    requires !IsSpace(c) && !IsIdentifierStart(c) && c != '#' && c != '}' && c != ';'
    ensures Parse(ds, typ, lead + Print(entries) + ([c] + rest)) == Aborted
  {
    hide Drive, PbtxtLexer.Run, Print, Events;
    RunAndOne(lead, entries, c, rest);
    var l := Run(START, lead + Print(entries), false);
    RunStays(Step(l, c, rest == []), rest, true);
  }

  // ---- Texts on which the parser aborts --------------------------------------------------------------------

  /** Nothing can be reported once the stack is empty. */
  lemma {:induction false} EmptyStackAborts(ds: Descriptors, d: Delegate, events: seq<Event>)
    requires d.ctx == [] && events != []
    ensures Drive(ds, d, events).crashed
    decreases |events|
  {
    var front := events[..|events| - 1];
    if front == [] {
      DriveNone(ds, d);
    } else {
      EmptyStackAborts(ds, d, front);
    }
  }

  lemma {:induction false} SomeEvents(entries: seq<Entry>)
    requires entries != []
    ensures Events(entries) != []
  {
  }

  /** A whole text: an empty message that the schema does not have, and then anything else. The end of the message
      pops the root, and what follows aborts the program. */
  lemma {:induction false} TextAborts(ds: Descriptors, typ: string, lead: seq<Char>, key: seq<Char>, style: Style,
                                      more: seq<Entry>)
    requires typ in ds.messages && FindField(ds.messages[typ], key).None?
    requires Blank(lead) && Identifier(key) && StyleOk(style, Sub([])) && Written(more) && more != []
    ensures Parse(ds, typ, Document(lead, [Entry(key, style, Sub([]))] + more)) == Aborted
  {
    hide Drive, PbtxtLexer.Run, Document, Events;
    var entries := [Entry(key, style, Sub([]))] + more;
    var begun := [BeginNestedMessage(key), EndNestedMessage];
    WrittenAll(key, style, more);
    ReadBack(lead, entries);
    LostEvents(key, style, more);
    assert [] + Events(entries) == begun + Events(more);
    StackLost(ds, typ, key, EndNestedMessage);
    DriveConcat(ds, Initial(typ), begun, Events(more));
    SomeEvents(more);
    EmptyStackAborts(ds, Drive(ds, Initial(typ), begun), Events(more));
  }

  lemma {:induction false} WrittenAll(key: seq<Char>, style: Style, more: seq<Entry>)
    requires Identifier(key) && StyleOk(style, Sub([])) && Written(more)
    ensures Written([Entry(key, style, Sub([]))] + more)
  {
    hide StyleOk;
    assert ([Entry(key, style, Sub([]))] + more)[1..] == more;
  }

  lemma {:induction false} LostEvents(key: seq<Char>, style: Style, more: seq<Entry>)
    ensures Events([Entry(key, style, Sub([]))] + more) == [BeginNestedMessage(key), EndNestedMessage] + Events(more)
  {
    var entries := [Entry(key, style, Sub([]))] + more;
    assert entries[1..] == more && Events([]) == [];
    assert EventsOf(entries[0]) == [BeginNestedMessage(key), EndNestedMessage];
  }

  /** Such a text, for every schema without a field of that name. */
  lemma {:induction false} SmallTextAborts(ds: Descriptors, typ: string)
    requires typ in ds.messages && FindField(ds.messages[typ], "x").None?
    ensures Parse(ds, typ, "x {}\ny: 1;\n") == Aborted
  {
    hide Parse, Identifier, Written, StyleOk;
    var style, y := SmallText();
    TextAborts(ds, typ, "", "x", style, [y]);
  }

  lemma {:induction false} SmallText() returns (style: Style, y: Entry)
    ensures Document("", [Entry("x", style, Sub([]))] + [y]) == "x {}\ny: 1;\n"
    ensures Identifier("x") && StyleOk(style, Sub([])) && Written([y]) && Blank("")
  {
    style := Style(" ", false, "", "", "\n", false, "");
    y := Entry("y", Style("", true, " ", "", "", true, ""), Number(1));
    var x := Entry("x", style, Sub([]));
    assert ([x] + [y])[1..] == [y] && [y][1..] == [];
    assert Print([]) == [];
    assert Decimal(1) == "1";
    assert Print([y]) == "y: 1;";
    assert PrintValue(x.value, []) == "{}";
    assert Print([x] + [y]) == "x {}\ny: 1;";
    assert Blank("") && Blank(" ") && Blank("\n");
  }

  // ---- Known texts ----------------------------------------------------------------------------------------

  /** The letters a, b, t, n, v, f and r stand for the bytes 7 to 13, and the quotes, the backslash and the question
      mark for themselves; no other character may follow a backslash. */
  lemma {:induction false} EscapesKnown(c: Char, s: seq<Char>)
    requires Unescape(s).Plain?
    ensures var r, more := Unescape(['\\', c] + s), Unescape(s).bytes;
            && (forall i :: 0 <= i < 7 && c == "abtnvfr"[i] ==> r == Plain([7 + i] + more))
            && (c in "\\'\"?" ==> r == Plain([c as int] + more))
            && (c !in "abtnvfr\\'\"?" ==> r == UnknownEscape)
  {
    hide Unescape;
    UnescapePair(c, s);
    assert "abtnvfr"[0] == 'a' && "abtnvfr"[1] == 'b' && "abtnvfr"[2] == 't' && "abtnvfr"[3] == 'n'
           && "abtnvfr"[4] == 'v' && "abtnvfr"[5] == 'f' && "abtnvfr"[6] == 'r';
  }

  lemma {:induction false} UnescapePair(c: Char, s: seq<Char>)
    requires Unescape(s).Plain?
    ensures Unescape(['\\', c] + s) == match EscapeValue(c)
                                       case None => UnknownEscape
                                       case Some(b) => Plain([b] + Unescape(s).bytes)
  {
    assert (['\\', c] + s)[2..] == s;
  }

  /** The characters by their codes: white space is 9 to 13 and 32; names are made of letters, digits and the
      underscore, and do not start with a digit. */
  lemma {:induction false} CharactersKnown(c: Char)
    ensures IsSpace(c) <==> 9 <= c as int <= 13 || c as int == 32
    ensures IsDigit(c) <==> 48 <= c as int <= 57
    ensures IsIdentifierStart(c) <==> 65 <= c as int <= 90 || 97 <= c as int <= 122 || c as int == 95
    ensures IsIdentifierBody(c) <==> IsIdentifierStart(c) || IsDigit(c)
  {
  }

  /** Messages are nested ten deep at most. */
  lemma {:induction false} DepthKnown(ds: Descriptors, f: FieldDescriptor, entries: seq<Entry>, depth: nat)
    ensures TypedValue(ds, f, Sub(entries), depth) ==> depth < 10
    ensures f.typ == TypeMessage && f.typeName in ds.messages && Typed(ds, f.typeName, entries, {}, depth + 1) ==>
              (TypedValue(ds, f, Sub(entries), depth) <==> depth < 10)
  {
  }

  /** Digits count as they do in decimal. */
  lemma {:induction false} DigitsKnown(s: seq<Char>, i: nat)
    requires (forall c :: c in s ==> IsDigit(c)) && i < 10
    ensures var c := "0123456789"[i];
            (forall d :: d in s + [c] ==> IsDigit(d)) && DecimalValue(s + [c]) == 10 * DecimalValue(s) + i
  {
    var c := "0123456789"[i];
    assert c as int == '0' as int + i;
    assert (s + [c])[..|s|] == s;
  }

  // ---- Reading the result back --------------------------------------------------------------------------------

  /** The schema of a reader who works from the same descriptors. */
  ghost predicate Agrees(ds: Descriptors, schema: Schema) {
    forall typ, f :: typ in ds.messages && f in ds.messages[typ] ==>
      && 0 < f.number <= MAX_FIELD_ID
      && (if f.typ == TypeMessage then (typ, f.number) in schema && schema[(typ, f.number)] == f.typeName
          else (typ, f.number) !in schema)
  }

  /** No string and no nested message is over the length limit. */
  predicate Small(ns: seq<Node>)
    decreases ns
  {
    ns == [] ||
    (&& (ns[0].Bytes? ==> |ns[0].data| <= MAX_MESSAGE_LENGTH)
     && (ns[0].Msg? ==> |Encode(ns[0].fields)| <= MAX_MESSAGE_LENGTH && Small(ns[0].fields))
     && Small(ns[1..]))
  }

  lemma {:induction false} FindFieldIn(fields: seq<FieldDescriptor>, name: seq<Char>)
    ensures FindField(fields, name).Some? ==> FindField(fields, name).value in fields
  {
    if fields != [] && fields[0].name != name {
      FindFieldIn(fields[1..], name);
    }
  }

  lemma {:induction false} TypedFits(ds: Descriptors, schema: Schema, typ: string, entries: seq<Entry>,
                                     seen: set<seq<Char>>, depth: nat)
    requires Agrees(ds, schema) && Typed(ds, typ, entries, seen, depth) && Small(NodesOf(ds, typ, entries))
    ensures Fits(schema, typ, NodesOf(ds, typ, entries))
    decreases entries
  {
    hide Encode;
    if entries != [] {
      var e, ns := entries[0], NodesOf(ds, typ, entries);
      var f := Lookup(ds, typ, e.name).value;
      FindFieldIn(ds.messages[typ], e.name);
      assert ns[1..] == NodesOf(ds, typ, entries[1..]);
      TypedFits(ds, schema, typ, entries[1..], seen + {e.name}, depth);
      if e.value.Sub? {
        TypedFits(ds, schema, f.typeName, e.value.entries, {}, depth + 1);
      }
      assert FitsNode(schema, typ, ns[0]);
    }
  }
}
