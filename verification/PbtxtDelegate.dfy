/** The parser's delegate: it looks fields up in their message descriptors, converts their values and
    calls the message writer, keeping a stack of the messages that are open. */
module PbtxtDelegate {
  import opened Powers
  import opened Options
  import opened Wire
  import opened Tree
  import opened Messages
  import Sessions
  import opened PbtxtLexer

  // ---- Descriptors ------------------------------------------------------------------------------------

  datatype FieldType =
    | TypeUint64 | TypeUint32 | TypeInt64 | TypeSint64 | TypeInt32 | TypeSint32
    | TypeFixed64 | TypeSfixed64 | TypeFixed32 | TypeSfixed32
    | TypeBool | TypeString | TypeBytes | TypeGroup | TypeMessage | TypeEnum

  datatype FieldDescriptor =
    FieldDescriptor(name: seq<Char>, number: nat, typ: FieldType, repeated: bool, typeName: string)

  type Int32 = n: int | -TWO_TO_THE_31 <= n < TWO_TO_THE_31

  datatype EnumValue = EnumValue(name: seq<Char>, number: Int32)

  /** All message and enum types by name. */
  datatype Descriptors = Descriptors(messages: map<string, seq<FieldDescriptor>>, enums: map<string, seq<EnumValue>>)

  /** The first field with a name. */
  function FindField(fields: seq<FieldDescriptor>, name: seq<Char>): Option<FieldDescriptor> {
    if fields == [] then None
    else if fields[0].name == name then Some(fields[0])
    else FindField(fields[1..], name)
  }

  function FindEnum(values: seq<EnumValue>, name: seq<Char>): Option<Int32> {
    if values == [] then None
    else if values[0].name == name then Some(values[0].number)
    else FindEnum(values[1..], name)
  }

  /** The field at a place is the first with the name. */
  predicate FirstField(fields: seq<FieldDescriptor>, name: seq<Char>, i: nat) {
    i < |fields| && fields[i].name == name && forall j :: 0 <= j < i ==> fields[j].name != name
  }

  lemma {:induction false} FindFieldIs(fields: seq<FieldDescriptor>, name: seq<Char>)
    ensures match FindField(fields, name)
            case None => forall i :: 0 <= i < |fields| ==> fields[i].name != name
            case Some(f) => exists i: nat :: FirstField(fields, name, i) && fields[i] == f
  {
    if fields != [] && fields[0].name == name {
      assert FirstField(fields, name, 0);
    } else if fields != [] {
      FindFieldIs(fields[1..], name);
      assert forall i :: 1 <= i < |fields| ==> fields[i] == fields[1..][i - 1];
      if FindField(fields, name).Some? {
        var i: nat :| FirstField(fields[1..], name, i) && fields[1..][i] == FindField(fields, name).value;
        assert FirstField(fields, name, i + 1);
      }
    }
  }

  /** The enum value at a place is the first with the name. */
  predicate FirstValue(values: seq<EnumValue>, name: seq<Char>, i: nat) {
    i < |values| && values[i].name == name && forall j :: 0 <= j < i ==> values[j].name != name
  }

  lemma {:induction false} FindEnumIs(values: seq<EnumValue>, name: seq<Char>)
    ensures match FindEnum(values, name)
            case None => forall i :: 0 <= i < |values| ==> values[i].name != name
            case Some(number) => exists i: nat :: FirstValue(values, name, i) && values[i].number == number
  {
    if values != [] && values[0].name == name {
      assert FirstValue(values, name, 0);
    } else if values != [] {
      FindEnumIs(values[1..], name);
      assert forall i :: 1 <= i < |values| ==> values[i] == values[1..][i - 1];
      if FindEnum(values, name).Some? {
        var i: nat :| FirstValue(values[1..], name, i) && values[1..][i].number == FindEnum(values, name).value;
        assert FirstValue(values, name, i + 1);
      }
    }
  }

  function ValuesOf(ds: Descriptors, f: FieldDescriptor): seq<EnumValue> {
    if f.typeName in ds.enums then ds.enums[f.typeName] else []
  }

  // ---- Values -----------------------------------------------------------------------------------------

  function LeadingDigits(s: seq<Char>): (r: seq<Char>)
    ensures forall c :: c in r ==> IsDigit(c)
  {
    if s == [] || !IsDigit(s[0]) then [] else [s[0]] + LeadingDigits(s[1..])
  }

  function DigitValue(c: Char): nat
    requires IsDigit(c)
  {
    c as int - '0' as int
  }

  function DecimalValue(s: seq<Char>): nat
    requires forall c :: c in s ==> IsDigit(c)
  {
    if s == [] then 0
    else
      assert s[|s| - 1] in s;
      10 * DecimalValue(s[..|s| - 1]) + DigitValue(s[|s| - 1])
  }

  /** What sscanf reads as an unsigned 64-bit number: an optional sign, then digits, and whatever follows
      is ignored. A negative number wraps around; digits beyond 64 bits give the largest number, whatever
      the sign. */
  function ParseInteger(s: seq<Char>): Option<nat> {
    var negative := s != [] && s[0] == '-';
    var digits := LeadingDigits(if negative then s[1..] else s);
    if digits == [] then None
    else
      var v := DecimalValue(digits);
      if v >= TWO_TO_THE_64 then Some(TWO_TO_THE_64 - 1)
      else Some(if negative then (TWO_TO_THE_64 - v) % TWO_TO_THE_64 else v)
  }

  /** A 32-bit two's complement number as the 64 bits that a varint carries. */
  function SignExtend(n: nat): nat
    requires n < TWO_TO_THE_32
  {
    if n < TWO_TO_THE_31 then n else n + TWO_TO_THE_64 - TWO_TO_THE_32
  }

  /** Zigzag: the two's complement number `n` of a width whose half range is `half`. */
  function ZigZag(n: nat, half: nat): nat
    requires n < 2 * half
  {
    if n < half then 2 * n else 2 * (2 * half - n) - 1
  }

  const NUMERIC_TYPES: set<FieldType> :=
    {TypeUint64, TypeUint32, TypeInt64, TypeSint64, TypeInt32, TypeSint32,
     TypeFixed64, TypeSfixed64, TypeFixed32, TypeSfixed32}

  /** The field that a number of a given type becomes. */
  function NumberNode(t: FieldType, id: nat, n: nat): (r: Node)
    requires t in NUMERIC_TYPES && n < TWO_TO_THE_64
    ensures !r.Msg? && r.id == id
  {
    var low := n % TWO_TO_THE_32;
    match t
    case TypeUint64 => Scalar(id, n)
    case TypeInt64 => Scalar(id, n)
    case TypeUint32 => Scalar(id, low)
    case TypeInt32 => Scalar(id, SignExtend(low))
    case TypeSint64 => Scalar(id, ZigZag(n, TWO_TO_THE_63))
    case TypeSint32 => Scalar(id, ZigZag(low, TWO_TO_THE_31))
    case TypeFixed64 => Node.Fixed64(id, n)
    case TypeSfixed64 => Node.Fixed64(id, n)
    case _ => Node.Fixed32(id, low)
  }

  datatype Unescaped = Plain(bytes: seq<byte>) | UnknownEscape | Dangling

  /** The byte that an escape letter stands for. */
  function EscapeValue(c: Char): Option<byte> {
    if c == '\\' || c == '\'' || c == '"' || c == '?' then Some(c as int)
    else if c == 'a' then Some(7)
    else if c == 'b' then Some(8)
    else if c == 'f' then Some(12)
    else if c == 'n' then Some(10)
    else if c == 'r' then Some(13)
    else if c == 't' then Some(9)
    else if c == 'v' then Some(11)
    else None
  }

  function Unescape(s: seq<Char>): Unescaped
    decreases |s|
  {
    if s == [] then Plain([])
    else if s[0] == '\\' then
      if |s| == 1 then Dangling
      else if EscapeValue(s[1]).None? then UnknownEscape
      else
        match Unescape(s[2..])
        case Plain(bytes) => Plain([EscapeValue(s[1]).value] + bytes)
        case bad => bad
    else
      match Unescape(s[1..])
      case Plain(bytes) => Plain([s[0] as int] + bytes)
      case bad => bad
  }

  // ---- The delegate -----------------------------------------------------------------------------------

  datatype Problem =
    | NoSuchField(key: seq<Char>)
    | SeenBefore(key: seq<Char>)
    | WrongType(key: seq<Char>)
    | BadBoolean(key: seq<Char>)
    | BadEscape(key: seq<Char>)
    | UnmatchedBrace
    | NotClosed
    | UnexpectedEnd

  datatype Context = Context(typ: string, seen: set<seq<Char>>)

  /** The delegate's stack, the calls it has made on the messages of the stack, the errors it has
      reported; `crashed` when one of its checks has aborted the program. */
  datatype Delegate = Delegate(ctx: seq<Context>, calls: seq<Sessions.Call>, problems: seq<Problem>, crashed: bool) {
    function Level(): nat
      requires ctx != []
    {
      |ctx| - 1
    }

    function Top(): Context
      requires ctx != []
    {
      ctx[|ctx| - 1]
    }

    function Called(c: Sessions.Call): Delegate {
      this.(calls := calls + [c])
    }

    function Complained(p: Problem): Delegate {
      this.(problems := problems + [p])
    }

    function Crash(): Delegate {
      this.(crashed := true)
    }
  }

  function Initial(typ: string): Delegate {
    Delegate([Context(typ, {})], [], [], false)
  }

  datatype Found = Found(d: Delegate, field: Option<FieldDescriptor>)

  /** Looks a field up and notes that it was seen. A field given twice is an error, but it is used all the
      same; a field of the wrong type is an error and is not used. */
  function FindFieldByName(ds: Descriptors, d: Delegate, key: seq<Char>, types: set<FieldType>): (r: Found)
    requires d.ctx != []
    ensures |r.d.ctx| == |d.ctx| && r.d.calls == d.calls && r.d.crashed == d.crashed
  {
    var top := d.Top();
    var field := if top.typ in ds.messages then FindField(ds.messages[top.typ], key) else None;
    if field.None? then Found(d.Complained(NoSuchField(key)), None)
    else
      var f := field.value;
      var d1 := d.(ctx := d.ctx[|d.ctx| - 1 := top.(seen := top.seen + {key})]);
      var d2 := if key in top.seen && !f.repeated then d1.Complained(SeenBefore(key)) else d1;
      if f.typ !in types then Found(d2.Complained(WrongType(key)), None) else Found(d2, field)
  }

  function OnNumeric(ds: Descriptors, d: Delegate, key: seq<Char>, value: seq<Char>): Delegate
    requires d.ctx != []
  {
    var r := FindFieldByName(ds, d, key, NUMERIC_TYPES);
    if r.field.None? then r.d
    else
      match ParseInteger(value)
      case None => r.d.Crash()
      case Some(n) =>
        if n < TWO_TO_THE_64 && r.field.value.typ in NUMERIC_TYPES then
          r.d.Called(Sessions.Append(d.Level(), NumberNode(r.field.value.typ, r.field.value.number, n)))
        else r.d
  }

  function OnString(ds: Descriptors, d: Delegate, key: seq<Char>, value: seq<Char>): Delegate
    requires d.ctx != []
  {
    var r := FindFieldByName(ds, d, key, {TypeString, TypeBytes});
    if r.field.None? then r.d
    else
      match Unescape(value)
      case Plain(bytes) => r.d.Called(Sessions.Append(d.Level(), Bytes(r.field.value.number, bytes)))
      case UnknownEscape => r.d.Complained(BadEscape(key))
      case Dangling => r.d.Crash()
  }

  datatype Resolved = Resolved(number: nat) | NotBoolean | NotInEnum

  /** The number that an identifier stands for in a field. */
  function Resolve(ds: Descriptors, f: FieldDescriptor, value: seq<Char>): Resolved {
    if f.typ == TypeBool then
      if value == "true" then Resolved(1) else if value == "false" then Resolved(0) else NotBoolean
    else
      match FindEnum(ValuesOf(ds, f), value)
      case None => NotInEnum
      case Some(number) => Resolved(number % TWO_TO_THE_64)
  }

  function OnIdentifier(ds: Descriptors, d: Delegate, key: seq<Char>, value: seq<Char>): Delegate
    requires d.ctx != []
  {
    var r := FindFieldByName(ds, d, key, {TypeBool, TypeEnum});
    if r.field.None? then r.d
    else
      match Resolve(ds, r.field.value, value)
      case Resolved(number) => r.d.Called(Sessions.Append(d.Level(), Scalar(r.field.value.number, number)))
      case NotBoolean => r.d.Complained(BadBoolean(key))
      case NotInEnum => r.d.Crash()
  }

  /** A field that cannot be entered is reported, and the stack stays as it is. */
  function OnBegin(ds: Descriptors, d: Delegate, key: seq<Char>): Delegate
    requires d.ctx != []
  {
    var r := FindFieldByName(ds, d, key, {TypeMessage});
    if r.field.None? then r.d
    else if r.field.value.typeName !in ds.messages || d.Level() >= MAX_NESTING_DEPTH then r.d.Crash()
    else
      var d1 := r.d.Called(Sessions.Begin(d.Level(), r.field.value.number));
      d1.(ctx := d1.ctx + [Context(r.field.value.typeName, {})])
  }

  function OnEnd(d: Delegate): Delegate
    requires d.ctx != []
  {
    d.Called(Sessions.End(d.Level())).(ctx := d.ctx[..|d.ctx| - 1])
  }

  function Handle(ds: Descriptors, d: Delegate, e: Event): Delegate {
    if d.crashed then d
    else if d.ctx == [] then d.Crash()
    else
      match e
      case NumericField(key, value) => OnNumeric(ds, d, key, value)
      case StringField(key, value) => OnString(ds, d, key, value)
      case IdentifierField(key, value) => OnIdentifier(ds, d, key, value)
      case BeginNestedMessage(key) => OnBegin(ds, d, key)
      case EndNestedMessage => OnEnd(d)
  }

  function Drive(ds: Descriptors, d: Delegate, events: seq<Event>): Delegate {
    if events == [] then d else Handle(ds, Drive(ds, d, events[..|events| - 1]), events[|events| - 1])
  }

  // ---- What the delegate keeps ------------------------------------------------------------------------

  /** The stack is the chain of open messages, except for a message just ended: that one is finalized, still
      the innermost of the chain, and no longer on the stack. */
  ghost predicate InStep(d: Delegate) {
    var st := Sessions.Run(d.calls);
    && Sessions.WellNested(d.calls) && Sessions.Undeclared(st.frames)
    && |st.frames| == |d.ctx| + (if st.sealed then 1 else 0)
  }

  lemma {:induction false} WellNestedSnoc(calls: seq<Sessions.Call>, c: Sessions.Call)
    requires Sessions.WellNested(calls) && Sessions.Allowed(Sessions.Run(calls), c)
    ensures Sessions.WellNested(calls + [c])
    ensures Sessions.Run(calls + [c]) == Sessions.After(Sessions.Run(calls), c)
  {
    hide Sessions.After;
    var cs := calls + [c];
    assert cs[..|calls|] == calls;
    forall i | 0 <= i < |cs|
      ensures Sessions.Allowed(Sessions.Run(cs[..i]), cs[i])
    {
      if i < |calls| {
        assert cs[..i] == calls[..i];
      }
    }
  }

  /** Whatever it is told, the delegate only makes calls that the message interface allows, on messages
      that are open. */
  lemma {:induction false} HandleInStep(ds: Descriptors, d: Delegate, e: Event)
    requires InStep(d)
    ensures InStep(Handle(ds, d, e))
  {
    hide Sessions.Run, Sessions.WellNested, Sessions.Collapsed, Sessions.Undeclared, Sessions.Covered, NumberNode,
         Unescape, ParseInteger, FindField, Resolve;
    var d' := Handle(ds, d, e);
    if d'.calls != d.calls {
      var c := d'.calls[|d.calls|];
      assert d'.calls == d.calls + [c];
      assert c.level == |d.ctx| - 1;
      Sessions.UndeclaredCovered(Sessions.Run(d.calls).frames);
      Sessions.UndeclaredAfter(Sessions.Run(d.calls), c);
      WellNestedSnoc(d.calls, c);
    }
  }

  lemma {:induction false} DriveInStep(ds: Descriptors, d: Delegate, events: seq<Event>)
    requires InStep(d)
    ensures InStep(Drive(ds, d, events))
    decreases |events|
  {
    if events != [] {
      DriveInStep(ds, d, events[..|events| - 1]);
      HandleInStep(ds, Drive(ds, d, events[..|events| - 1]), events[|events| - 1]);
    }
  }
}
