/** The parser as it runs: token offsets into the input, a delegate that holds the open messages, and the
    bytes that come out. */
module PbtxtCompiler {
  import opened Powers
  import opened Options
  import opened Wire
  import opened Tree
  import opened ScatteredBuffer
  import opened Messages
  import Sessions
  import opened PbtxtLexer
  import opened PbtxtPrinter
  import opened PbtxtDelegate
  import opened PbtxtMeaning

  // ---- The character loop -----------------------------------------------------------------------------

  /** The variables of the parse loop. Tokens that are being read are known by where they start. */
  datatype Cursor = Cursor(mode: Mode, depth: nat, sawColon: bool, sawSemicolon: bool, comment: bool,
                           keyOffset: nat, key: seq<Char>, valueOffset: nat)

  predicate ReadsValue(mode: Mode) {
    mode in {ReadingNumericValue, ReadingIdentifierValue, ReadingStringValue, ReadingStringEscape}
  }

  predicate InRange(cur: Cursor, i: nat) {
    && (cur.mode == ReadingKey ==> cur.keyOffset < i)
    && (ReadsValue(cur.mode) ==> cur.valueOffset < i)
    && (cur.comment ==> cur.mode == WaitingForKey || cur.mode == WaitingForValue)
  }

  /** The machine that a cursor in front of character `i` stands for, with nothing reported yet. */
  function Machine(cur: Cursor, input: seq<Char>, i: nat): Lexer
    requires i <= |input| && InRange(cur, i)
  {
    var key := if cur.mode == ReadingKey then input[cur.keyOffset..i] else cur.key;
    var value :=
      match cur.mode
      case ReadingNumericValue => input[cur.valueOffset..i]
      case ReadingIdentifierValue => input[cur.valueOffset..i]
      case ReadingStringValue => input[cur.valueOffset + 1..i]
      case ReadingStringEscape => input[cur.valueOffset + 1..i]
      case _ => [];
    Lexer(cur.mode, cur.depth, cur.sawColon, cur.sawSemicolon, cur.comment, key, value, [], Running)
  }

  /** Outcome of one character: the machine's status and its report, if any. */
  datatype Turn = Turn(cur: Cursor, report: Option<Event>, status: Status)

  ghost predicate Follows(t: Turn, input: seq<Char>, i: nat, l: Lexer)
    requires i < |input|
  {
    && t.status == l.status
    && l.events == (if t.report.None? then [] else [t.report.value])
    && (t.status == Running ==> InRange(t.cur, i + 1) && Machine(t.cur, input, i + 1) == l.(events := []))
  }

  lemma {:induction false} Slices(input: seq<Char>, from: nat, i: nat)
    requires from <= i < |input|
    ensures input[from..i + 1] == input[from..i] + [input[i]]
    ensures input[i..i + 1] == [input[i]] && input[i + 1..i + 1] == []
  {
  }

  method NextCharacter(input: seq<Char>, i: nat, cur: Cursor) returns (t: Turn)
    requires i < |input| && InRange(cur, i)
    ensures Follows(t, input, i, PbtxtLexer.Step(Machine(cur, input, i), input[i], i + 1 == |input|))
  {
    var c, last := input[i], i + 1 == |input|;
    if c == '\n' && cur.comment {
      return Turn(cur.(comment := false), None, Running);
    }
    if cur.comment {
      return Turn(cur, None, Running);
    }
    match cur.mode {
      case WaitingForKey => t := NextField(input, i, cur);
      case ReadingKey => t := NextKey(input, i, cur);
      case WaitingForValue => t := NextValue(input, i, cur);
      case ReadingNumericValue => t := NextNumber(input, i, cur);
      case ReadingStringValue => t := NextString(input, i, cur);
      case ReadingStringEscape => t := NextString(input, i, cur);
      case ReadingIdentifierValue => t := NextIdentifier(input, i, cur);
    }
  }

  method NextField(input: seq<Char>, i: nat, cur: Cursor) returns (t: Turn)
    requires i < |input| && cur.mode == WaitingForKey && !cur.comment
    ensures Follows(t, input, i, StepField(Machine(cur, input, i), input[i]))
  {
    var c := input[i];
    Slices(input, i, i);
    if IsSpace(c) {
      return Turn(cur, None, Running);
    }
    if c == '#' {
      return Turn(cur.(comment := true), None, Running);
    }
    if c == '}' {
      if cur.depth == 0 {
        return Turn(cur, None, Unmatched);
      }
      return Turn(cur.(sawSemicolon := false, depth := cur.depth - 1), Some(EndNestedMessage), Running);
    }
    if !cur.sawSemicolon && c == ';' {
      return Turn(cur.(sawSemicolon := true), None, Running);
    }
    if IsIdentifierStart(c) {
      return Turn(cur.(sawColon := false, mode := ReadingKey, keyOffset := i), None, Running);
    }
    t := Turn(cur, None, Fatal);
  }

  method NextKey(input: seq<Char>, i: nat, cur: Cursor) returns (t: Turn)
    requires i < |input| && InRange(cur, i) && cur.mode == ReadingKey && !cur.comment
    ensures Follows(t, input, i, StepKey(Machine(cur, input, i), input[i]))
  {
    Slices(input, cur.keyOffset, i);
    if IsIdentifierBody(input[i]) {
      return Turn(cur, None, Running);
    }
    t := Turn(cur.(key := input[cur.keyOffset..i], mode := WaitingForValue, comment := input[i] == '#'), None, Running);
  }

  method NextValue(input: seq<Char>, i: nat, cur: Cursor) returns (t: Turn)
    requires i < |input| && cur.mode == WaitingForValue && !cur.comment
    ensures Follows(t, input, i, StepValue(Machine(cur, input, i), input[i]))
  {
    var c := input[i];
    Slices(input, i, i);
    if IsSpace(c) {
      return Turn(cur, None, Running);
    }
    if c == '#' {
      return Turn(cur.(comment := true), None, Running);
    }
    var at := cur.(valueOffset := i);
    if c == ':' && !cur.sawColon {
      return Turn(at.(sawColon := true), None, Running);
    }
    if c == '"' {
      return Turn(at.(mode := ReadingStringValue), None, Running);
    }
    if c == '-' || IsDigit(c) {
      return Turn(at.(mode := ReadingNumericValue), None, Running);
    }
    if IsIdentifierStart(c) {
      return Turn(at.(mode := ReadingIdentifierValue), None, Running);
    }
    if c == '{' {
      return Turn(at.(mode := WaitingForKey, depth := cur.depth + 1), Some(BeginNestedMessage(cur.key)), Running);
    }
    t := Turn(at, None, Fatal);
  }

  method NextNumber(input: seq<Char>, i: nat, cur: Cursor) returns (t: Turn)
    requires i < |input| && InRange(cur, i) && cur.mode == ReadingNumericValue && !cur.comment
    ensures Follows(t, input, i, StepNumber(Machine(cur, input, i), input[i], i + 1 == |input|))
  {
    var c, last := input[i], i + 1 == |input|;
    Slices(input, cur.valueOffset, i);
    if IsSpace(c) || c == ';' || last {
      var size := i - cur.valueOffset + if last then 1 else 0;
      var value := input[cur.valueOffset..cur.valueOffset + size];
      return Turn(cur.(sawSemicolon := c == ';', mode := WaitingForKey), Some(NumericField(cur.key, value)), Running);
    }
    if IsDigit(c) {
      return Turn(cur, None, Running);
    }
    t := Turn(cur, None, Fatal);
  }

  lemma {:induction false} StringEnds(input: seq<Char>, i: nat, cur: Cursor)
    requires i < |input| && InRange(cur, i) && !cur.comment && cur.mode == ReadingStringValue && input[i] == '"'
    ensures var report := StringField(cur.key, input[cur.valueOffset + 1..i]);
            Follows(Turn(cur.(sawSemicolon := false, mode := WaitingForKey), Some(report), Running), input, i,
                    StepString(Machine(cur, input, i), input[i]))
  {
  }

  /** The string goes on, in or out of an escape. */
  lemma {:induction false} StringGoesOn(input: seq<Char>, i: nat, cur: Cursor, mode: Mode)
    requires i < |input| && InRange(cur, i) && !cur.comment
    requires cur.mode == ReadingStringValue || cur.mode == ReadingStringEscape
    requires cur.mode == ReadingStringValue ==> input[i] != '"'
    requires mode == if cur.mode == ReadingStringValue && input[i] == '\\' then ReadingStringEscape
                     else ReadingStringValue
    ensures Follows(Turn(cur.(mode := mode), None, Running), input, i, StepString(Machine(cur, input, i), input[i]))
  {
    Slices(input, cur.valueOffset + 1, i);
  }

  method NextString(input: seq<Char>, i: nat, cur: Cursor) returns (t: Turn)
    requires i < |input| && InRange(cur, i) && !cur.comment
    requires cur.mode == ReadingStringValue || cur.mode == ReadingStringEscape
    ensures Follows(t, input, i, StepString(Machine(cur, input, i), input[i]))
  {
    hide Follows, StepString, Machine;
    var c := input[i];
    if cur.mode == ReadingStringEscape {
      StringGoesOn(input, i, cur, ReadingStringValue);
      return Turn(cur.(mode := ReadingStringValue), None, Running);
    }
    if c == '\\' {
      StringGoesOn(input, i, cur, ReadingStringEscape);
      return Turn(cur.(mode := ReadingStringEscape), None, Running);
    }
    if c == '"' {
      var size := i - cur.valueOffset - 1;
      var value := input[cur.valueOffset + 1..cur.valueOffset + 1 + size];
      StringEnds(input, i, cur);
      return Turn(cur.(sawSemicolon := false, mode := WaitingForKey), Some(StringField(cur.key, value)), Running);
    }
    StringGoesOn(input, i, cur, ReadingStringValue);
    t := Turn(cur.(mode := ReadingStringValue), None, Running);
  }

  method NextIdentifier(input: seq<Char>, i: nat, cur: Cursor) returns (t: Turn)
    requires i < |input| && InRange(cur, i) && cur.mode == ReadingIdentifierValue && !cur.comment
    ensures Follows(t, input, i, StepIdentifier(Machine(cur, input, i), input[i], i + 1 == |input|))
  {
    var c, last := input[i], i + 1 == |input|;
    Slices(input, cur.valueOffset, i);
    if IsSpace(c) || c == ';' || c == '#' || last {
      var size := i - cur.valueOffset + if last then 1 else 0;
      var value := input[cur.valueOffset..cur.valueOffset + size];
      return Turn(cur.(comment := c == '#', sawSemicolon := c == ';', mode := WaitingForKey),
                  Some(IdentifierField(cur.key, value)), Running);
    }
    if IsIdentifierBody(c) {
      return Turn(cur, None, Running);
    }
    t := Turn(cur, None, Fatal);
  }

  // ---- The delegate -----------------------------------------------------------------------------------

  /** The loop that resolves the escapes of a string token. */
  method UnescapeToken(value: seq<Char>) returns (r: Unescaped)
    ensures r == Unescape(value)
  {
    var bytes: seq<byte> := [];
    var i := 0;
    while i < |value|
      invariant 0 <= i <= |value|
      invariant Unescape(value) == Prefixed(bytes, Unescape(value[i..]))
      decreases |value| - i
    {
      var c := value[i];
      ghost var rest := value[i..];
      if c == '\\' {
        if i + 1 >= |value| {
          return Dangling;
        }
        var escape := EscapeValue(value[i + 1]);
        if escape.None? {
          return UnknownEscape;
        }
        assert rest[2..] == value[i + 2..];
        PrefixedTwice(bytes, escape.value, Unescape(value[i + 2..]));
        bytes := bytes + [escape.value];
        i := i + 2;
      } else {
        assert rest[1..] == value[i + 1..];
        PrefixedTwice(bytes, c as int, Unescape(value[i + 1..]));
        bytes := bytes + [c as int];
        i := i + 1;
      }
    }
    assert value[|value|..] == [] && bytes + [] == bytes;
    r := Plain(bytes);
  }

  function Prefixed(bytes: seq<byte>, r: Unescaped): Unescaped {
    match r case Plain(more) => Plain(bytes + more) case bad => bad
  }

  lemma {:induction false} PrefixedTwice(bytes: seq<byte>, b: byte, r: Unescaped)
    ensures Prefixed(bytes + [b], r) == Prefixed(bytes, Prefixed([b], r))
  {
  }

  class ParserDelegate {
    const descriptors: Descriptors
    const writer: ScatteredStreamWriter
    var ctx: seq<Context>
    var messages: seq<Message>
    var problems: seq<Problem>
    var crashed: bool

    ghost var calls: seq<Sessions.Call>
    ghost var links: seq<Link>

    ghost function View(): Delegate
      reads this
    {
      Delegate(ctx, calls, problems, crashed)
    }

    /** The messages are the open chain that the calls so far have made. */
    ghost predicate Valid()
      reads this, messages, writer, writer.delegate, writer.bufs
    {
      && Chain(messages, links, writer, []) && links != [] && !links[0].headed
      && Sessions.Stands(links, Sessions.Run(calls))
      && InStep(View())
    }

    constructor (descriptors: Descriptors, typ: string, root: Message)
      requires root.IsReset() && root.writer.Valid() && root.writer.Log() == []
      requires MESSAGE_LENGTH_FIELD_SIZE <= root.writer.delegate.nextSliceSize
      ensures Valid() && View() == Initial(typ)
      ensures this.descriptors == descriptors && writer == root.writer && messages == [root]
    {
      this.descriptors := descriptors;
      this.writer := root.writer;
      ctx, messages, problems, crashed := [Context(typ, {})], [root], [], false;
      calls, links := [], [Link(0, 0, Null, 0, false, 0, [], false)];
      new;
      Sessions.RootOk(Messages.View(writer));
      assert Sessions.Frames(links) == Sessions.FRESH.frames;
      InitialInside(typ);
    }

    /** Makes a call on one of the open messages. */
    method Call(c: Sessions.Call)
      requires Valid() && Sessions.Allowed(Sessions.Run(calls), c)
      modifies this, messages, writer, writer.delegate, writer.bufs
      ensures Chain(messages, links, writer, []) && links != [] && !links[0].headed && calls == old(calls) + [c]
      ensures Sessions.Stands(links, Sessions.Run(calls))
      ensures ctx == old(ctx) && problems == old(problems) && crashed == old(crashed)
      ensures Extends()
    {
      hide ScatteredStreamWriter.Valid, ChainOk, Sessions.Run, InStep, Sessions.Stands, Sessions.WellNested,
           Sessions.Allowed, Sessions.After;
      messages, links := Sessions.Perform(writer, c, messages, links, Sessions.Run(calls));
      WellNestedSnocOf(View(), c);
      calls := calls + [c];
    }

    /** New messages and new memory are fresh. */
    twostate predicate Extends()
      reads this, writer
    {
      && (forall i :: 0 <= i < |messages| ==>
           (i < |old(messages)| && messages[i] == old(messages)[i]) || fresh(messages[i]))
      && (forall i :: |old(writer.bufs)| <= i < |writer.bufs| ==> fresh(writer.bufs[i]))
      && old(writer.bufs) <= writer.bufs
    }

    method FindFieldByName(key: seq<Char>, types: set<FieldType>) returns (field: Option<FieldDescriptor>)
      requires Valid() && ctx != []
      modifies this`ctx, this`problems
      ensures Valid() && Found(View(), field) == PbtxtDelegate.FindFieldByName(descriptors, old(View()), key, types)
      ensures LookedUp(descriptors, old(View()), key, types, View(), field)
    {
      hide Chain, Sessions.Stands, Sessions.Run, Sessions.WellNested, FindField, LookedUp;
      FindLooksUp(descriptors, View(), key, types);
      var top := ctx[|ctx| - 1];
      field := None;
      if top.typ in descriptors.messages {
        field := FirstNamed(descriptors.messages[top.typ], key);
      }
      if field.None? {
        problems := problems + [NoSuchField(key)];
        return;
      }
      var repeated := field.value.repeated;
      ctx := ctx[|ctx| - 1 := top.(seen := top.seen + {key})];
      if key in top.seen && !repeated {
        problems := problems + [SeenBefore(key)];
      }
      if field.value.typ !in types {
        problems := problems + [WrongType(key)];
        field := None;
      }
    }

    method Complain(p: Problem)
      requires Valid()
      modifies this`problems
      ensures Valid() && View() == old(View()).Complained(p)
    {
      hide Chain, Sessions.Stands, Sessions.Run, Sessions.WellNested;
      problems := problems + [p];
    }

    /** A check has failed. */
    method Abort()
      requires Valid()
      modifies this`crashed
      ensures Valid() && View() == old(View()).Crash()
    {
      hide Chain, Sessions.Stands, Sessions.Run, Sessions.WellNested;
      crashed := true;
    }

    /** One more field of the message on top of the stack. */
    method AppendField(n: Node)
      requires Valid() && ctx != [] && !n.Msg?
      modifies this, messages, writer, writer.delegate, writer.bufs
      ensures Valid() && Extends() && View() == old(View()).Called(Sessions.Append(old(View()).Level(), n))
    {
      hide Chain, Sessions.Stands, Sessions.Allowed, InStep, Sessions.Run;
      var c := Sessions.Append(|ctx| - 1, n);
      LevelAllowed(View(), c);
      AppendInStep(View(), n);
      Call(c);
    }

    method NumericField(key: seq<Char>, value: seq<Char>)
      requires Valid() && !crashed && ctx != []
      modifies this, messages, writer, writer.delegate, writer.bufs
      ensures Valid() && Extends() && View() == OnNumeric(descriptors, old(View()), key, value)
      ensures forall f, n | Lookup(descriptors, old(ctx)[|old(ctx)| - 1].typ, key) == Some(f) && f.typ in NUMERIC_TYPES
              && value == Numeral(n) ::
                !crashed && calls == old(calls) + [Sessions.Append(|old(ctx)| - 1, NumberOnWire(f.typ, f.number, n))]
    {
      hide ParserDelegate.Valid, PbtxtDelegate.FindFieldByName, NumberNode, ParseInteger, Numeral, NumberOnWire, Lookup,
           LookedUp;
      forall f, n | Lookup(descriptors, ctx[|ctx| - 1].typ, key) == Some(f) && f.typ in NUMERIC_TYPES
        && value == Numeral(n)
        ensures var d' := OnNumeric(descriptors, View(), key, value);
                !d'.crashed && d'.calls == calls + [Sessions.Append(|ctx| - 1, NumberOnWire(f.typ, f.number, n))]
      {
        NumberIsTaken(descriptors, View(), key, n, f);
      }
      var field := FindFieldByName(key, NUMERIC_TYPES);
      if field.None? {
        return;
      }
      var n := ParseInteger(value);
      if n.None? {
        Abort();
        return;
      }
      ParseIntegerBound(value);
      FoundType(descriptors, old(View()), key, NUMERIC_TYPES);
      AppendField(NumberNode(field.value.typ, field.value.number, n.value));
    }

    method StringField(key: seq<Char>, value: seq<Char>)
      requires Valid() && !crashed && ctx != []
      modifies this, messages, writer, writer.delegate, writer.bufs
      ensures Valid() && Extends() && View() == OnString(descriptors, old(View()), key, value)
      ensures forall f, s | Lookup(descriptors, old(ctx)[|old(ctx)| - 1].typ, key) == Some(f)
              && (f.typ == TypeString || f.typ == TypeBytes) && value == Escape(s) ::
                !crashed && calls == old(calls) + [Sessions.Append(|old(ctx)| - 1, Bytes(f.number, BytesOf(s)))]
      ensures forall f | Lookup(descriptors, old(ctx)[|old(ctx)| - 1].typ, key) == Some(f)
              && (f.typ == TypeString || f.typ == TypeBytes) && !Unescape(value).Plain? ::
                && calls == old(calls) && (crashed <==> Unescape(value) == Dangling)
                && (!crashed ==> problems != [] && problems[|problems| - 1] == BadEscape(key))
    {
      hide ParserDelegate.Valid, PbtxtDelegate.FindFieldByName, Unescape, Escape, BytesOf, Lookup, LookedUp;
      forall f, s | Lookup(descriptors, ctx[|ctx| - 1].typ, key) == Some(f)
        && (f.typ == TypeString || f.typ == TypeBytes) && value == Escape(s)
        ensures var d' := OnString(descriptors, View(), key, value);
                !d'.crashed && d'.calls == calls + [Sessions.Append(|ctx| - 1, Bytes(f.number, BytesOf(s)))]
      {
        TextIsTaken(descriptors, View(), key, s, f);
      }
      forall f | Lookup(descriptors, ctx[|ctx| - 1].typ, key) == Some(f)
        && (f.typ == TypeString || f.typ == TypeBytes) && !Unescape(value).Plain?
        ensures var d' := OnString(descriptors, View(), key, value);
                && d'.calls == calls && (d'.crashed <==> Unescape(value) == Dangling)
                && (!d'.crashed ==> d'.problems != [] && d'.problems[|d'.problems| - 1] == BadEscape(key))
      {
        BadTextIsTaken(descriptors, View(), key, value, f);
      }
      var field := FindFieldByName(key, {TypeString, TypeBytes});
      if field.None? {
        return;
      }
      var r := UnescapeToken(value);
      match r {
        case Plain(bytes) => AppendField(Bytes(field.value.number, bytes));
        case UnknownEscape => Complain(BadEscape(key));
        case Dangling => Abort();
      }
    }

    method IdentifierField(key: seq<Char>, value: seq<Char>)
      requires Valid() && !crashed && ctx != []
      modifies this, messages, writer, writer.delegate, writer.bufs
      ensures Valid() && Extends() && View() == OnIdentifier(descriptors, old(View()), key, value)
      ensures forall f | Lookup(descriptors, old(ctx)[|old(ctx)| - 1].typ, key) == Some(f)
              && (f.typ == TypeBool || f.typ == TypeEnum) ::
                WordTaken(descriptors, old(View()), f, value, View())
    {
      hide ParserDelegate.Valid, PbtxtDelegate.FindFieldByName, Resolve, WordTaken, Lookup, LookedUp;
      forall f | Lookup(descriptors, ctx[|ctx| - 1].typ, key) == Some(f) && (f.typ == TypeBool || f.typ == TypeEnum)
        ensures WordTaken(descriptors, View(), f, value, OnIdentifier(descriptors, View(), key, value))
      {
        WordIsTaken(descriptors, View(), key, value, f);
      }
      var field := FindFieldByName(key, {TypeBool, TypeEnum});
      if field.None? {
        return;
      }
      var r := ResolveIdentifier(descriptors, field.value, value);
      match r {
        case Resolved(number) => AppendField(Scalar(field.value.number, number));
        case NotBoolean => Complain(BadBoolean(key));
        case NotInEnum => Abort();
      }
    }

    method BeginNestedMessage(key: seq<Char>)
      requires Valid() && !crashed && ctx != []
      modifies this, messages, writer, writer.delegate, writer.bufs
      ensures Valid() && Extends() && View() == OnBegin(descriptors, old(View()), key)
    {
      hide Chain, Sessions.Stands, Sessions.Allowed, InStep, PbtxtDelegate.FindFieldByName, Sessions.Run,
           Sessions.WellNested;
      HandleInStep(descriptors, View(), PbtxtLexer.BeginNestedMessage(key));
      var field := FindFieldByName(key, {TypeMessage});
      if field.None? {
        return;
      }
      if field.value.typeName !in descriptors.messages || |ctx| - 1 >= MAX_NESTING_DEPTH {
        crashed := true;
        return;
      }
      var c := Sessions.Begin(|ctx| - 1, field.value.number);
      LevelAllowed(View(), c);
      Call(c);
      ctx := ctx + [Context(field.value.typeName, {})];
    }

    method EndNestedMessage()
      requires Valid() && !crashed && ctx != []
      modifies this, messages, writer, writer.delegate, writer.bufs
      ensures Valid() && Extends() && View() == OnEnd(old(View()))
    {
      hide Chain, Sessions.Stands, Sessions.Allowed, InStep;
      HandleInStep(descriptors, View(), PbtxtLexer.EndNestedMessage);
      var c := Sessions.End(|ctx| - 1);
      LevelAllowed(View(), c);
      Call(c);
      ctx := ctx[..|ctx| - 1];
    }

    /** Every report starts with a check that a message is open. */
    method Report(e: Event)
      requires Valid() && !crashed
      modifies this, messages, writer, writer.delegate, writer.bufs
      ensures Valid() && Extends() && View() == Handle(descriptors, old(View()), e)
    {
      hide Chain, Sessions.Stands, InStep, OnNumeric, OnString, OnIdentifier, OnBegin, OnEnd;
      HandleInStep(descriptors, View(), e);
      if ctx == [] {
        crashed := true;
        return;
      }
      match e {
        case NumericField(key, value) => NumericField(key, value);
        case StringField(key, value) => StringField(key, value);
        case IdentifierField(key, value) => IdentifierField(key, value);
        case BeginNestedMessage(key) => BeginNestedMessage(key);
        case EndNestedMessage => EndNestedMessage();
      }
    }
  }

  lemma {:induction false} WellNestedSnocOf(d: Delegate, c: Sessions.Call)
    requires InStep(d) && Sessions.Allowed(Sessions.Run(d.calls), c)
    ensures Sessions.Run(d.calls + [c]) == Sessions.After(Sessions.Run(d.calls), c)
  {
  }

  lemma {:induction false} AppendInStep(d: Delegate, n: Node)
    requires InStep(d) && d.ctx != [] && !n.Msg?
    ensures InStep(d.Called(Sessions.Append(d.Level(), n)))
  {
    hide Sessions.Run, Sessions.WellNested, Sessions.Undeclared, Sessions.Covered, Sessions.Collapsed;
    var c := Sessions.Append(d.Level(), n);
    LevelAllowed(d, c);
    Sessions.UndeclaredAfter(Sessions.Run(d.calls), c);
    WellNestedSnoc(d.calls, c);
  }

  lemma {:induction false} LevelAllowed(d: Delegate, c: Sessions.Call)
    requires InStep(d) && d.ctx != [] && c.level == d.Level()
    requires (c.Append? && !c.field.Msg?) || (c.Begin? && c.level < MAX_NESTING_DEPTH) || c.End?
    ensures Sessions.Allowed(Sessions.Run(d.calls), c)
  {
    hide Sessions.Run, Sessions.WellNested, Sessions.Undeclared, Sessions.Covered;
    Sessions.UndeclaredCovered(Sessions.Run(d.calls).frames);
  }

  lemma {:induction false} ParseIntegerBound(s: seq<Char>)
    ensures ParseInteger(s).Some? ==> ParseInteger(s).value < TWO_TO_THE_64
  {
  }

  lemma {:induction false} FoundType(ds: Descriptors, d: Delegate, key: seq<Char>, types: set<FieldType>)
    requires d.ctx != []
    ensures var r := PbtxtDelegate.FindFieldByName(ds, d, key, types);
            r.field.Some? ==> r.field.value.typ in types
  {
  }

  method FirstNamed(fields: seq<FieldDescriptor>, name: seq<Char>) returns (field: Option<FieldDescriptor>)
    ensures field == FindField(fields, name)
    ensures match field
            case None => forall i :: 0 <= i < |fields| ==> fields[i].name != name
            case Some(f) => exists i: nat :: FirstField(fields, name, i) && fields[i] == f
  {
    FindFieldIs(fields, name);
    var i := 0;
    assert fields[0..] == fields;
    while i < |fields|
      invariant 0 <= i <= |fields|
      invariant FindField(fields, name) == FindField(fields[i..], name)
    {
      if fields[i].name == name {
        return Some(fields[i]);
      }
      assert fields[i..][1..] == fields[i + 1..];
      i := i + 1;
    }
    field := None;
  }

  method ResolveIdentifier(ds: Descriptors, f: FieldDescriptor, value: seq<Char>) returns (r: Resolved)
    ensures r == Resolve(ds, f, value)
    ensures f.typ != TypeBool ==>
              match r
              case Resolved(number) =>
                exists i: nat :: FirstValue(ValuesOf(ds, f), value, i) && number == OnWire(ValuesOf(ds, f)[i].number)
              case _ => r == NotInEnum && forall i :: 0 <= i < |ValuesOf(ds, f)| ==> ValuesOf(ds, f)[i].name != value
  {
    FindEnumIs(ValuesOf(ds, f), value);
    if f.typ == TypeBool {
      if value != "true" && value != "false" {
        return NotBoolean;
      }
      return Resolved(if value == "true" then 1 else 0);
    }
    var values := ValuesOf(ds, f);
    var i := 0;
    assert values[0..] == values;
    while i < |values|
      invariant 0 <= i <= |values|
      invariant FindEnum(values, value) == FindEnum(values[i..], value)
    {
      if values[i].name == value {
        return Resolved(values[i].number % TWO_TO_THE_64);
      }
      assert values[i..][1..] == values[i + 1..];
      i := i + 1;
    }
    r := NotInEnum;
  }

  // ---- Parsing --------------------------------------------------------------------------------------

  /** What was reported before a step makes no difference to it. */
  lemma {:induction false} StepFrame(l: Lexer, c: Char, last: bool)
    ensures var m := PbtxtLexer.Step(l.(events := []), c, last);
            PbtxtLexer.Step(l, c, last) == m.(events := l.events + m.events)
  {
    hide StepField, StepKey, StepValue, StepNumber, StepString, StepIdentifier;
    assert l.events + [] == l.events;
    if l.status != Running {
    } else if l.comment {
    } else {
      match l.mode {
        case WaitingForKey => StepFieldFrame(l, c);
        case ReadingKey => StepKeyFrame(l, c);
        case WaitingForValue => StepValueFrame(l, c);
        case ReadingNumericValue => StepNumberFrame(l, c, last);
        case ReadingStringValue => StepStringFrame(l, c);
        case ReadingStringEscape => StepStringFrame(l, c);
        case ReadingIdentifierValue => StepIdentifierFrame(l, c, last);
      }
    }
  }

  lemma {:induction false} StepFieldFrame(l: Lexer, c: Char)
    ensures var m := StepField(l.(events := []), c);
            StepField(l, c) == m.(events := l.events + m.events)
  {
    hide IsSpace, IsDigit, IsIdentifierStart, IsIdentifierBody, Ended;
    assert l.events + [] == l.events;
    if IsSpace(c) {
    } else if c == '#' {
    } else if c == '}' {
      if l.depth > 0 {
        assert [] + [EndNestedMessage] == [EndNestedMessage];
      }
    } else if !l.sawSemicolon && c == ';' {
    } else if IsIdentifierStart(c) {
    }
  }

  lemma {:induction false} StepKeyFrame(l: Lexer, c: Char)
    ensures var m := StepKey(l.(events := []), c);
            StepKey(l, c) == m.(events := l.events + m.events)
  {
  }

  lemma {:induction false} StepValueFrame(l: Lexer, c: Char)
    ensures var m := StepValue(l.(events := []), c);
            StepValue(l, c) == m.(events := l.events + m.events)
  {
    hide IsSpace, IsDigit, IsIdentifierStart, IsIdentifierBody, Ended;
    assert l.events + [] == l.events;
    if IsSpace(c) {
    } else if c == '#' {
    } else if c == ':' && !l.sawColon {
    } else if c == '"' {
    } else if c == '-' || IsDigit(c) {
    } else if IsIdentifierStart(c) {
    } else if c == '{' {
      assert [] + [BeginNestedMessage(l.key)] == [BeginNestedMessage(l.key)];
    }
  }

  lemma {:induction false} StepNumberFrame(l: Lexer, c: Char, last: bool)
    ensures var m := StepNumber(l.(events := []), c, last);
            StepNumber(l, c, last) == m.(events := l.events + m.events)
  {
  }

  lemma {:induction false} StepStringFrame(l: Lexer, c: Char)
    ensures var m := StepString(l.(events := []), c);
            StepString(l, c) == m.(events := l.events + m.events)
  {
    hide IsSpace, IsDigit, IsIdentifierStart, IsIdentifierBody, Ended;
    assert l.events + [] == l.events;
  }

  lemma {:induction false} StepIdentifierFrame(l: Lexer, c: Char, last: bool)
    ensures var m := StepIdentifier(l.(events := []), c, last);
            StepIdentifier(l, c, last) == m.(events := l.events + m.events)
  {
  }

  lemma {:induction false} RunExtends(l: Lexer, s: seq<Char>, atEnd: bool)
    ensures l.events <= PbtxtLexer.Run(l, s, atEnd).events
    decreases |s|
  {
    if s != [] {
      StepFrame(l, s[0], atEnd && |s| == 1);
      RunExtends(PbtxtLexer.Step(l, s[0], atEnd && |s| == 1), s[1..], atEnd);
    }
  }

  lemma {:induction false} DriveCrashed(ds: Descriptors, d: Delegate, events: seq<Event>)
    requires d.crashed
    ensures Drive(ds, d, events) == d
    decreases |events|
  {
    if events != [] {
      DriveCrashed(ds, d, events[..|events| - 1]);
    }
  }

  lemma {:induction false} CrashIsFinal(ds: Descriptors, typ: string, l: Lexer, s: seq<Char>)
    requires Drive(ds, Initial(typ), l.events).crashed
    ensures Drive(ds, Initial(typ), PbtxtLexer.Run(l, s, true).events).crashed
  {
    hide PbtxtLexer.Run, Handle;
    RunExtends(l, s, true);
    var all := PbtxtLexer.Run(l, s, true).events;
    var more := all[|l.events|..];
    assert all == l.events + more;
    DriveConcat(ds, Initial(typ), l.events, more);
    DriveCrashed(ds, Drive(ds, Initial(typ), l.events), more);
  }

  /** The cursor, the delegate and what is left of the input stand for the rest of the parse. */
  ghost predicate Underway(ds: Descriptors, typ: string, input: seq<Char>, i: nat, cur: Cursor, l: Lexer, d: Delegate) {
    && i <= |input| && InRange(cur, i) && l.status == Running
    && Machine(cur, input, i) == l.(events := [])
    && PbtxtLexer.Run(START, input, true) == PbtxtLexer.Run(l, input[i..], true)
    && d == Drive(ds, Initial(typ), l.events)
  }

  lemma {:induction false} TurnTaken(ds: Descriptors, typ: string, input: seq<Char>, i: nat, cur: Cursor, l: Lexer,
                                     d: Delegate, t: Turn)
    requires Underway(ds, typ, input, i, cur, l, d) && i < |input|
    requires Follows(t, input, i, PbtxtLexer.Step(Machine(cur, input, i), input[i], i + 1 == |input|))
    ensures var l' := PbtxtLexer.Step(l, input[i], i + 1 == |input|);
            && l'.status == t.status && l'.depth == PbtxtLexer.Step(l, input[i], i + 1 == |input|).depth
            && PbtxtLexer.Run(START, input, true) == PbtxtLexer.Run(l', input[i + 1..], true)
            && Drive(ds, Initial(typ), l'.events) == (if t.report.None? then d else Handle(ds, d, t.report.value))
            && (t.status == Running ==> InRange(t.cur, i + 1) && Machine(t.cur, input, i + 1) == l'.(events := []))
  {
    hide PbtxtLexer.Step, Handle, Machine, Drive;
    var last := i + 1 == |input|;
    StepFrame(l, input[i], last);
    RunStep(l, input, i);
    if t.report.None? {
      assert l.events + [] == l.events;
    } else {
      DriveSnoc(ds, Initial(typ), l.events, t.report.value);
    }
  }

  lemma {:induction false} RunStep(l: Lexer, input: seq<Char>, i: nat)
    requires i < |input|
    ensures PbtxtLexer.Run(l, input[i..], true)
            == PbtxtLexer.Run(PbtxtLexer.Step(l, input[i], i + 1 == |input|), input[i + 1..], true)
  {
  }

  lemma {:induction false} DriveSnoc(ds: Descriptors, d: Delegate, events: seq<Event>, e: Event)
    ensures Drive(ds, d, events + [e]) == Handle(ds, Drive(ds, d, events), e)
  {
  }

  /** The parse loop. It stops early at an unmatched brace, and aborts on a failed check. */
  method ParseInput(input: seq<Char>, delegate: ParserDelegate, ghost typ: string) returns (aborted: bool)
    requires delegate.Valid() && delegate.View() == Initial(typ)
    modifies delegate, delegate.messages, delegate.writer, delegate.writer.delegate, delegate.writer.bufs
    ensures delegate.Valid()
    ensures Parse(delegate.descriptors, typ, input)
            == if aborted then Aborted else Outcome.Parsed(delegate.problems, delegate.calls)
    ensures forall i :: 0 <= i < |delegate.messages| ==>
              (i < |old(delegate.messages)| && delegate.messages[i] == old(delegate.messages)[i])
                || fresh(delegate.messages[i])
  {
    hide PbtxtLexer.Run, PbtxtLexer.Step, Drive, Handle, Machine, ParserDelegate.Valid;
    var cur := Cursor(WaitingForKey, 0, false, true, false, 0, [], 0);
    ghost var ds, l := delegate.descriptors, START;
    StartUnderway(ds, typ, input, cur);
    for i := 0 to |input|
      invariant delegate.Valid() && !delegate.crashed
      invariant Underway(ds, typ, input, i, cur, l, delegate.View())
      invariant old(delegate.writer.bufs) <= delegate.writer.bufs
      invariant forall j :: |old(delegate.writer.bufs)| <= j < |delegate.writer.bufs| ==> fresh(delegate.writer.bufs[j])
      invariant forall j :: 0 <= j < |delegate.messages| ==>
                  (j < |old(delegate.messages)| && delegate.messages[j] == old(delegate.messages)[j])
                    || fresh(delegate.messages[j])
    {
      var t := NextCharacter(input, i, cur);
      TurnTaken(ds, typ, input, i, cur, l, delegate.View(), t);
      l := PbtxtLexer.Step(l, input[i], i + 1 == |input|);
      if t.report.Some? {
        delegate.Report(t.report.value);
      }
      if delegate.crashed {
        CrashIsFinal(ds, typ, l, input[i + 1..]);
        return true;
      }
      if t.status != Running {
        RunStays(l, input[i + 1..], true);
        if t.status == Unmatched {
          delegate.Complain(UnmatchedBrace);
        }
        return t.status == Fatal;
      }
      cur := t.cur;
    }
    EndOfInput(input, l, cur);
    if cur.depth > 0 {
      delegate.Complain(NotClosed);
    }
    if cur.mode != WaitingForKey {
      delegate.Complain(UnexpectedEnd);
    }
    aborted := false;
  }

  lemma {:induction false} StartUnderway(ds: Descriptors, typ: string, input: seq<Char>, cur: Cursor)
    requires cur == Cursor(WaitingForKey, 0, false, true, false, 0, [], 0)
    ensures Underway(ds, typ, input, 0, cur, START, Initial(typ))
  {
  }

  lemma {:induction false} EndOfInput(input: seq<Char>, l: Lexer, cur: Cursor)
    requires InRange(cur, |input|) && Machine(cur, input, |input|) == l.(events := [])
    ensures PbtxtLexer.Run(l, input[|input|..], true) == l
    ensures cur.depth == l.depth && cur.mode == l.mode
  {
  }

  /** Stitches what the messages have written. The root is not finalized, so a nested message that the input
      leaves open keeps an undecided length; if none is, the bytes are the tree that the calls describe. */
  method Collect(delegate: ParserDelegate) returns (bytes: seq<byte>)
    requires delegate.Valid()
    modifies delegate.writer.delegate
    ensures Sessions.Settled(Sessions.Run(delegate.calls)) ==> bytes == Encode(Sessions.Meaning(delegate.calls))
  {
    hide ScatteredStreamWriter.Valid, ChainOk, Flatten, Encode, Sessions.Run, Sessions.Collapsed, InStep,
         Sessions.Stands;
    ghost var st := Sessions.Run(delegate.calls);
    if Sessions.Settled(st) {
      Sessions.SettledLog(delegate.links, Messages.View(delegate.writer), st);
    }
    bytes := delegate.writer.StitchSlices();
  }

  /** Compiles a text config. If the parser neither aborts nor reports an error, the bytes are the encoding
      of the tree that its calls describe. A printed tree, in whatever layout, is compiled without an error if and
      only if it fits its descriptor, and then comes out as the bytes from which any reader with the same
      descriptors gets that tree back. */
  method PbtxtToPb(descriptors: Descriptors, typ: string, input: seq<Char>, pageSize: nat, maximumSliceSize: nat)
    returns (aborted: bool, problems: seq<Problem>, bytes: seq<byte>)
    requires MESSAGE_LENGTH_FIELD_SIZE <= pageSize <= maximumSliceSize
    ensures aborted <==> Parse(descriptors, typ, input).Aborted?
    ensures !aborted ==> problems == Parse(descriptors, typ, input).problems
    ensures !aborted && problems == [] ==> bytes == Encode(Sessions.Meaning(Parse(descriptors, typ, input).calls))
    ensures forall lead, entries | Blank(lead) && Written(entries) && input == Document(lead, entries) ::
              && (!aborted && problems == [] <==> Typed(descriptors, typ, entries, {}, 0))
              && (!aborted && problems == [] ==> bytes == Encode(NodesOf(descriptors, typ, entries)))
    ensures forall lead, entries, schema |
              && Blank(lead) && Written(entries) && Typed(descriptors, typ, entries, {}, 0)
              && input == Document(lead, entries)
              && PbtxtMeaning.Agrees(descriptors, schema) && Small(NodesOf(descriptors, typ, entries)) ::
              Decode(schema, typ, bytes) == Some(NodesOf(descriptors, typ, entries))
  {
    hide ScatteredStreamWriter.Valid, ChainOk, Flatten, Encode, Decode, Parse, Sessions.Run, Sessions.Collapsed,
         Typed, Written, Small, NodesOf, Document, InStep, Sessions.Stands;
    var heap := new ScatteredHeapBuffer(pageSize, maximumSliceSize);
    var stream := new ScatteredStreamWriter(heap);
    var message := new Message(stream);
    var delegate := new ParserDelegate(descriptors, typ, message);
    aborted := ParseInput(input, delegate, typ);
    problems := delegate.problems;
    bytes := [];
    if !aborted {
      bytes := Collect(delegate);
      if problems == [] {
        CleanIsSettled(descriptors, typ, input);
      }
    }
    forall lead, entries | Blank(lead) && Written(entries) && input == Document(lead, entries)
      ensures !aborted && problems == [] <==> Typed(descriptors, typ, entries, {}, 0)
      ensures !aborted && problems == [] ==> bytes == Encode(NodesOf(descriptors, typ, entries))
    {
      TakenIffTyped(descriptors, typ, lead, entries);
      if Typed(descriptors, typ, entries, {}, 0) {
        ParsePrintedTree(descriptors, typ, lead, entries);
      }
    }
    forall lead, entries, schema | Blank(lead) && Written(entries) && Typed(descriptors, typ, entries, {}, 0)
      && input == Document(lead, entries)
      && PbtxtMeaning.Agrees(descriptors, schema) && Small(NodesOf(descriptors, typ, entries))
      ensures Decode(schema, typ, bytes) == Some(NodesOf(descriptors, typ, entries))
    {
      TypedFits(descriptors, schema, typ, entries, {}, 0);
      DecodeEncode(schema, typ, NodesOf(descriptors, typ, entries));
    }
  }
}
