/** Text configs as trees with a layout, how they are written out, and how the character machine reads them back. */
module PbtxtPrinter {
  import opened PbtxtLexer

  datatype Value =
    | Number(n: int)
    | Word(w: seq<Char>)
    | Text(s: seq<Char>)
    | Sub(entries: seq<Entry>)

  /** The white space and the comments in a field: before and after its colon, at the start of a message, and before
      and after its semicolon; and whether it has the two at all. */
  datatype Style = Style(gap: seq<Char>, colon: bool, gap1: seq<Char>, inner: seq<Char>, gap2: seq<Char>,
                         semicolon: bool, gap3: seq<Char>)

  datatype Entry = Entry(name: seq<Char>, style: Style, value: Value)

  function Digit(n: nat): (c: Char)
    requires n < 10
    ensures IsDigit(c)
  {
    '0' + n as char
  }

  function Decimal(n: nat): seq<Char> {
    if n < 10 then [Digit(n)] else Decimal(n / 10) + [Digit(n % 10)]
  }

  function Numeral(n: int): seq<Char> {
    if n < 0 then "-" + Decimal(-n) else Decimal(n)
  }

  /** The letter that stands for a character after a backslash, for those that are written so. */
  function EscapeLetter(c: Char): (r: seq<Char>)
    ensures |r| <= 1
  {
    if c == '\\' || c == '\'' || c == '"' || c == '?' then [c]
    else if c as int == 7 then "a"
    else if c as int == 8 then "b"
    else if c as int == 12 then "f"
    else if c == '\n' then "n"
    else if c == '\r' then "r"
    else if c == '\t' then "t"
    else if c as int == 11 then "v"
    else []
  }

  function Escaped(c: Char): seq<Char> {
    if EscapeLetter(c) == [] then [c] else "\\" + EscapeLetter(c)
  }

  function Escape(s: seq<Char>): seq<Char> {
    if s == [] then [] else Escaped(s[0]) + Escape(s[1..])
  }

  function Before(style: Style): seq<Char> {
    style.gap + (if style.colon then ":" else []) + style.gap1
  }

  function After(style: Style): seq<Char> {
    style.gap2 + (if style.semicolon then ";" else []) + style.gap3
  }

  function PrintValue(v: Value, inner: seq<Char>): seq<Char>
    decreases v, 1
  {
    match v
    case Number(n) => Numeral(n)
    case Word(w) => w
    case Text(s) => "\"" + Escape(s) + "\""
    case Sub(entries) => "{" + inner + Print(entries) + "}"
  }

  function Print(entries: seq<Entry>): seq<Char>
    decreases entries, 0
  {
    if entries == [] then []
    else
      var e := entries[0];
      e.name + Before(e.style) + PrintValue(e.value, e.style.inner) + After(e.style) + Print(entries[1..])
  }

  /** What the machine should report for a tree. */
  function EventsOf(e: Entry): seq<Event>
    decreases e, 1
  {
    match e.value
    case Number(n) => [NumericField(e.name, Numeral(n))]
    case Word(w) => [IdentifierField(e.name, w)]
    case Text(s) => [StringField(e.name, Escape(s))]
    case Sub(entries) => [BeginNestedMessage(e.name)] + Events(entries) + [EndNestedMessage]
  }

  function Events(entries: seq<Entry>): seq<Event>
    decreases entries, 0
  {
    if entries == [] then [] else EventsOf(entries[0]) + Events(entries[1..])
  }

  // ---- Layouts --------------------------------------------------------------------------------------

  /** White space and comments, each of which goes on to the end of its line. */
  predicate Blank(s: seq<Char>) {
    s == [] || (IsSpace(s[0]) && Blank(s[1..])) || (s[0] == '#' && Comment(s[1..]))
  }

  predicate Comment(s: seq<Char>) {
    s != [] && if s[0] == '\n' then Blank(s[1..]) else Comment(s[1..])
  }

  /** Something comes between a key and its value, and after a number or a word; a number does not end in a
      comment. */
  predicate StyleOk(style: Style, v: Value) {
    && Blank(style.gap) && Blank(style.gap1) && Blank(style.inner) && Blank(style.gap2) && Blank(style.gap3)
    && Before(style) != []
    && (v.Number? || v.Word? ==> style.gap2 != [] || style.semicolon)
    && (v.Number? && style.gap2 != [] ==> style.gap2[0] != '#')
  }

  predicate Identifier(name: seq<Char>) {
    name != [] && IsIdentifierStart(name[0]) && forall c :: c in name ==> IsIdentifierBody(c)
  }

  /** Names and words are identifiers, and the layout keeps what it must apart. */
  predicate Written(entries: seq<Entry>)
    decreases entries
  {
    entries == [] ||
    (var e := entries[0];
     && Identifier(e.name) && StyleOk(e.style, e.value)
     && (e.value.Word? ==> Identifier(e.value.w)) && (e.value.Sub? ==> Written(e.value.entries))
     && Written(entries[1..]))
  }

  /** A document may begin with a gap. The last character of an input can end up in a value token (see
      LastCharacter); a line break at the end keeps the values out of its reach. */
  function Document(lead: seq<Char>, entries: seq<Entry>): seq<Char> {
    lead + Print(entries) + "\n"
  }

  // ---- Reading gaps ---------------------------------------------------------------------------------

  predicate Idle(l: Lexer) {
    l.mode == WaitingForKey && !l.comment && l.status == Running
  }

  lemma {:induction false} RunCons(l: Lexer, c: Char, s: seq<Char>)
    ensures Run(l, [c] + s, false) == Run(Step(l, c, false), s, false)
  {
  }

  lemma {:induction false} RunNil(l: Lexer)
    ensures Run(l, [], false) == l
  {
  }

  /** Two machines that agree after the first character agree after all. */
  lemma {:induction false} SameFirst(l: Lexer, l': Lexer, s: seq<Char>)
    requires s != [] && Step(l, s[0], false) == Step(l', s[0], false)
    ensures Run(l, s, false) == Run(l', s, false)
  {
    assert s == [s[0]] + s[1..];
    RunCons(l, s[0], s[1..]);
    RunCons(l', s[0], s[1..]);
  }

  /** Between fields, and between a key and its value, white space and comments make no difference. */
  lemma {:induction false} RunBlank(l: Lexer, s: seq<Char>)
    requires (l.mode == WaitingForKey || l.mode == WaitingForValue) && !l.comment && l.status == Running && Blank(s)
    ensures Run(l, s, false) == l
    decreases |s|
  {
    if s != [] {
      assert s == [s[0]] + s[1..];
      RunCons(l, s[0], s[1..]);
      if IsSpace(s[0]) {
        RunBlank(l, s[1..]);
      } else {
        RunComment(l, s[1..]);
      }
    }
  }

  lemma {:induction false} RunComment(l: Lexer, s: seq<Char>)
    requires (l.mode == WaitingForKey || l.mode == WaitingForValue) && !l.comment && l.status == Running && Comment(s)
    ensures Run(l.(comment := true), s, false) == l
    decreases |s|
  {
    assert s == [s[0]] + s[1..];
    RunCons(l.(comment := true), s[0], s[1..]);
    if s[0] == '\n' {
      RunBlank(l, s[1..]);
    } else {
      RunComment(l, s[1..]);
    }
  }

  lemma {:induction false} BlankStart(s: seq<Char>)
    requires Blank(s) && s != []
    ensures IsSpace(s[0]) || s[0] == '#'
  {
  }

  /** From a key to its value. */
  lemma {:induction false} RunBefore(l: Lexer, style: Style, v: Value)
    requires l.mode == ReadingKey && !l.comment && l.status == Running && !l.sawColon && StyleOk(style, v)
    ensures var l' := Run(l, Before(style), false);
            l' == l.(mode := WaitingForValue, sawColon := l'.sawColon)
  {
    hide Run, Blank;
    var l1 := l.(mode := WaitingForValue);
    var colon: seq<Char> := if style.colon then ":" else [];
    RunBlank(l1, style.gap);
    RunBlank(l1, style.gap1);
    RunBlank(l1.(sawColon := true), style.gap1);
    RunConcatMore(l, style.gap + colon, style.gap1);
    if style.gap != [] {
      BlankStart(style.gap);
      SameFirst(l, l1, style.gap);
      RunConcatMore(l, style.gap, colon);
      RunColon(l1, style.colon);
    } else {
      assert style.gap + colon == colon;
      if style.colon {
        assert ":" == [':'] + [];
        RunCons(l, ':', []);
        RunNil(l1);
      } else {
        BlankStart(style.gap1);
        RunNil(l);
        SameFirst(l, l1, style.gap1);
      }
    }
  }

  lemma {:induction false} RunColon(l: Lexer, colon: bool)
    requires l.mode == WaitingForValue && !l.comment && l.status == Running && !l.sawColon
    ensures Run(l, if colon then ":" else [], false) == l.(sawColon := colon)
  {
    if colon {
      RunCons(l, ':', []);
    }
  }

  /** After a value. */
  lemma {:induction false} RunAfter(l: Lexer, style: Style, v: Value)
    requires Idle(l) && !l.sawSemicolon && StyleOk(style, v)
    ensures Run(l, After(style), false) == l.(sawSemicolon := style.semicolon)
  {
    hide Run, Blank;
    var semicolon: seq<Char> := if style.semicolon then ";" else [];
    RunConcatMore(l, style.gap2 + semicolon, style.gap3);
    RunConcatMore(l, style.gap2, semicolon);
    RunBlank(l, style.gap2);
    if style.semicolon {
      assert ";" == [';'] + [];
      RunCons(l, ';', []);
      RunNil(l.(sawSemicolon := true));
    } else {
      RunNil(l);
    }
    RunBlank(l.(sawSemicolon := style.semicolon), style.gap3);
  }

  /** What follows a number or a word ends it, and is then read as it is between fields. */
  lemma {:induction false} RunToken(l: Lexer, l': Lexer, style: Style, v: Value)
    requires StyleOk(style, v) && (v.Number? || v.Word?) && !l.comment && l.status == Running
    requires l.mode == if v.Number? then ReadingNumericValue else ReadingIdentifierValue
    requires var report := if v.Number? then NumericField(l.key, l.value) else IdentifierField(l.key, l.value);
             l' == l.(mode := WaitingForKey, sawSemicolon := false, value := [], events := l.events + [report])
    ensures Run(l, After(style), false) == l'.(sawSemicolon := style.semicolon)
  {
    hide Run, Blank;
    if style.gap2 != [] {
      BlankStart(style.gap2);
    }
    SameFirst(l, l', After(style));
    RunAfter(l', style, v);
  }

  // ---- Reading tokens -------------------------------------------------------------------------------

  lemma {:induction false} RunKeyBody(l: Lexer, s: seq<Char>)
    requires l.mode == ReadingKey && !l.comment && l.status == Running
    requires forall c :: c in s ==> IsIdentifierBody(c)
    ensures Run(l, s, false) == l.(key := l.key + s)
    decreases |s|
  {
    if s == [] {
      assert l.key + s == l.key;
    } else {
      RunKeyBody(l.(key := l.key + [s[0]]), s[1..]);
      assert l.key + [s[0]] + s[1..] == l.key + s;
    }
  }

  lemma {:induction false} RunDigits(l: Lexer, s: seq<Char>)
    requires l.mode == ReadingNumericValue && !l.comment && l.status == Running
    requires forall c :: c in s ==> IsDigit(c)
    ensures Run(l, s, false) == l.(value := l.value + s)
    decreases |s|
  {
    if s == [] {
      assert l.value + s == l.value;
    } else {
      assert s[0] in s && s == [s[0]] + s[1..];
      RunCons(l, s[0], s[1..]);
      RunDigits(l.(value := l.value + [s[0]]), s[1..]);
      assert l.value + [s[0]] + s[1..] == l.value + s;
    }
  }

  lemma {:induction false} RunEscape(l: Lexer, s: seq<Char>)
    requires l.mode == ReadingStringValue && !l.comment && l.status == Running
    ensures Run(l, Escape(s), false) == l.(value := l.value + Escape(s))
    decreases |s|
  {
    hide Run, Escaped;
    if s == [] {
      RunNil(l);
      assert l.value + [] == l.value;
    } else {
      var e := Escaped(s[0]);
      RunConcatMore(l, e, Escape(s[1..]));
      RunEscaped(l, s[0]);
      RunEscape(l.(value := l.value + e), s[1..]);
      assert l.value + e + Escape(s[1..]) == l.value + Escape(s);
    }
  }

  lemma {:induction false} RunEscaped(l: Lexer, c: Char)
    requires l.mode == ReadingStringValue && !l.comment && l.status == Running
    ensures Run(l, Escaped(c), false) == l.(value := l.value + Escaped(c))
  {
    if EscapeLetter(c) == [] {
      RunCons(l, c, []);
      assert [c] + [] == [c];
    } else {
      var e := EscapeLetter(c)[0];
      assert Escaped(c) == ['\\'] + ([e] + []);
      var l1 := l.(mode := ReadingStringEscape, value := l.value + ['\\']);
      RunCons(l, '\\', [e] + []);
      RunCons(l1, e, []);
      assert l.value + ['\\'] + [e] == l.value + Escaped(c);
    }
  }

  lemma {:induction false} DecimalDigits(n: nat)
    ensures Decimal(n) != [] && forall c :: c in Decimal(n) ==> IsDigit(c)
  {
    if n >= 10 {
      DecimalDigits(n / 10);
    }
  }

  // ---- Reading fields ---------------------------------------------------------------------------------

  /** The machine in front of the value of a field. */
  predicate AtValue(l: Lexer, name: seq<Char>, l': Lexer) {
    l' == l.(mode := WaitingForValue, key := name, sawColon := l'.sawColon)
  }

  lemma {:induction false} RunKey(l: Lexer, e: Entry)
    requires Idle(l) && Identifier(e.name) && StyleOk(e.style, e.value)
    ensures AtValue(l, e.name, Run(l, e.name + Before(e.style), false))
  {
    hide Run, StyleOk, Before;
    var name := e.name;
    var l1 := l.(sawColon := false, mode := ReadingKey, key := [name[0]]);
    assert name == [name[0]] + name[1..];
    RunConcatMore(l, name, Before(e.style));
    RunCons(l, name[0], name[1..]);
    RunKeyBody(l1, name[1..]);
    RunBefore(l1.(key := name), e.style, e.value);
  }

  /** The machine after a field and what follows it. */
  predicate Reported(l: Lexer, events: seq<Event>, l': Lexer) {
    Idle(l') && l'.depth == l.depth && l'.events == l.events + events
  }

  lemma {:induction false} NumeralStart(n: int)
    ensures var d := Numeral(n);
            && d != [] && (d[0] == '-' || IsDigit(d[0])) && (forall c :: c in d[1..] ==> IsDigit(c))
  {
    hide Decimal;
    DecimalDigits(if n < 0 then -n else n);
    var d := Decimal(if n < 0 then -n else n);
    assert d[0] in d;
    assert ("-" + d)[1..] == d;
  }

  lemma {:induction false} RunNumber(l: Lexer, e: Entry, n: int)
    requires l.mode == WaitingForValue && !l.comment && l.status == Running && l.key == e.name
    requires e.value == Number(n) && StyleOk(e.style, e.value)
    ensures Reported(l, EventsOf(e), Run(l, Numeral(n) + After(e.style), false))
  {
    hide Run, Numeral, StyleOk, After;
    var d := Numeral(n);
    NumeralStart(n);
    var l2 := l.(mode := ReadingNumericValue, value := [d[0]]);
    assert d == [d[0]] + d[1..];
    RunConcatMore(l, d, After(e.style));
    RunCons(l, d[0], d[1..]);
    RunDigits(l2, d[1..]);
    RunToken(l2.(value := d),
             l.(mode := WaitingForKey, sawSemicolon := false, value := [],
                events := l.events + [NumericField(e.name, d)]), e.style, e.value);
  }

  lemma {:induction false} RunWordBody(l: Lexer, s: seq<Char>)
    requires l.mode == ReadingIdentifierValue && !l.comment && l.status == Running
    requires forall c :: c in s ==> IsIdentifierBody(c)
    ensures Run(l, s, false) == l.(value := l.value + s)
    decreases |s|
  {
    if s == [] {
      assert l.value + s == l.value;
    } else {
      assert s[0] in s && s == [s[0]] + s[1..];
      RunCons(l, s[0], s[1..]);
      RunWordBody(l.(value := l.value + [s[0]]), s[1..]);
      assert l.value + [s[0]] + s[1..] == l.value + s;
    }
  }

  lemma {:induction false} RunWord(l: Lexer, e: Entry, w: seq<Char>)
    requires l.mode == WaitingForValue && !l.comment && l.status == Running && l.key == e.name
    requires e.value == Word(w) && StyleOk(e.style, e.value) && Identifier(w)
    ensures Reported(l, EventsOf(e), Run(l, w + After(e.style), false))
  {
    hide Run, StyleOk, After;
    var l2 := l.(mode := ReadingIdentifierValue, value := [w[0]]);
    assert w == [w[0]] + w[1..];
    RunConcatMore(l, w, After(e.style));
    RunCons(l, w[0], w[1..]);
    RunWordBody(l2, w[1..]);
    RunToken(l2.(value := w),
             l.(mode := WaitingForKey, sawSemicolon := false, value := [],
                events := l.events + [IdentifierField(e.name, w)]), e.style, e.value);
  }

  lemma {:induction false} Quotes(l: Lexer, l': Lexer)
    requires l.mode == WaitingForValue && !l.comment && l.status == Running
    requires l'.mode == ReadingStringValue && !l'.comment && l'.status == Running
    ensures Step(l, '"', false) == l.(mode := ReadingStringValue, value := [])
    ensures Step(l', '"', false) == l'.(sawSemicolon := false, mode := WaitingForKey, value := [],
                                        events := l'.events + [StringField(l'.key, l'.value)])
  {
  }

  lemma {:induction false} RunText(l: Lexer, e: Entry, s: seq<Char>)
    requires l.mode == WaitingForValue && !l.comment && l.status == Running && l.key == e.name
    requires e.value == Text(s) && StyleOk(e.style, e.value)
    ensures Reported(l, EventsOf(e), Run(l, "\"" + Escape(s) + "\"" + After(e.style), false))
  {
    hide Run, StyleOk, After, Escape, Step;
    var d := Escape(s);
    var l2 := l.(mode := ReadingStringValue, value := []);
    var l3 := l2.(value := d);
    assert "\"" + d + "\"" + After(e.style) == ['"'] + (d + (['"'] + After(e.style)));
    Quotes(l, l3);
    RunCons(l, '"', d + (['"'] + After(e.style)));
    RunConcatMore(l2, d, ['"'] + After(e.style));
    RunEscape(l2, s);
    assert [] + d == d;
    RunCons(l3, '"', After(e.style));
    RunAfter(Step(l3, '"', false), e.style, e.value);
  }

  /** The machine reports a printed tree exactly, whatever its layout, and is ready for more. */
  lemma {:induction false} RunPrint(l: Lexer, entries: seq<Entry>)
    requires Idle(l) && Written(entries)
    ensures Reported(l, Events(entries), Run(l, Print(entries), false))
    decreases entries, 0
  {
    hide Run, EventsOf, PrintValue, Identifier, StyleOk, Before, After;
    if entries == [] {
      RunNil(l);
    } else {
      var e := entries[0];
      var first := e.name + Before(e.style) + PrintValue(e.value, e.style.inner) + After(e.style);
      RunEntry(l, e);
      RunConcatMore(l, first, Print(entries[1..]));
      RunPrint(Run(l, first, false), entries[1..]);
      assert l.events + EventsOf(e) + Events(entries[1..]) == l.events + Events(entries);
    }
  }

  lemma {:induction false} RunEntry(l: Lexer, e: Entry)
    requires Idle(l) && Identifier(e.name) && StyleOk(e.style, e.value)
    requires (e.value.Word? ==> Identifier(e.value.w)) && (e.value.Sub? ==> Written(e.value.entries))
    ensures Reported(l, EventsOf(e),
                     Run(l, e.name + Before(e.style) + PrintValue(e.value, e.style.inner) + After(e.style), false))
    decreases e, 2
  {
    hide Run, Identifier, StyleOk, Before, After, Numeral, Escape, EventsOf;
    var key, rest := e.name + Before(e.style), PrintValue(e.value, e.style.inner) + After(e.style);
    assert key + PrintValue(e.value, e.style.inner) + After(e.style) == key + rest;
    RunConcatMore(l, key, rest);
    RunKey(l, e);
    var l1 := Run(l, key, false);
    match e.value {
      case Number(n) => RunNumber(l1, e, n);
      case Word(w) => RunWord(l1, e, w);
      case Text(s) => RunText(l1, e, s);
      case Sub(_) => RunSub(l1, e);
    }
  }

  lemma {:induction false} RunSub(l: Lexer, e: Entry)
    requires l.mode == WaitingForValue && !l.comment && l.status == Running && l.key == e.name
    requires e.value.Sub? && StyleOk(e.style, e.value) && Written(e.value.entries)
    ensures Reported(l, EventsOf(e), Run(l, PrintValue(e.value, e.style.inner) + After(e.style), false))
    decreases e, 1
  {
    hide Run, Before, After, Written;
    var entries, inner := e.value.entries, e.style.inner;
    var l2 := Step(l, '{', false);
    assert PrintValue(e.value, inner) + After(e.style) == ['{'] + (inner + (Print(entries) + (['}'] + After(e.style))));
    RunCons(l, '{', inner + (Print(entries) + (['}'] + After(e.style))));
    RunConcatMore(l2, inner, Print(entries) + (['}'] + After(e.style)));
    RunBlank(l2, inner);
    RunConcatMore(l2, Print(entries), ['}'] + After(e.style));
    RunPrint(l2, entries);
    var l3 := Run(l2, Print(entries), false);
    RunCons(l3, '}', After(e.style));
    RunAfter(Step(l3, '}', false), e.style, e.value);
    assert l.events + [BeginNestedMessage(e.name)] + Events(entries) + [EndNestedMessage] == l.events + EventsOf(e);
  }

  /** A printed document is read without complaint, and reported exactly. */
  lemma {:induction false} ReadBack(lead: seq<Char>, entries: seq<Entry>)
    requires Blank(lead) && Written(entries)
    ensures Reported(START, Events(entries), Run(START, Document(lead, entries), true))
  {
    hide Print, Events, Run;
    var l := Run(START, Print(entries), false);
    RunPrint(START, entries);
    RunBlank(START, lead);
    RunConcatMore(START, lead, Print(entries));
    RunConcat(START, lead + Print(entries), "\n", true);
    LineBreak(l);
  }

  lemma {:induction false} LineBreak(l: Lexer)
    requires Idle(l)
    ensures Run(l, "\n", true) == l
  {
  }

  /** Without the line break, the semicolon at the end of an input becomes part of a word. */
  lemma {:induction false} LastCharacter(name: seq<Char>, w: seq<Char>)
    requires Identifier(name) && Identifier(w)
    ensures Run(START, name + ": " + w + ";", true).events == [IdentifierField(name, w + ";")]
  {
    hide Run;
    var e := Entry(name, Style("", true, " ", "", "", true, ""), Word(w));
    RunKey(START, e);
    var l := Run(START, name + Before(e.style), false);
    var l2 := l.(mode := ReadingIdentifierValue, value := [w[0]]);
    assert name + ": " == name + Before(e.style) && w == [w[0]] + w[1..];
    RunConcatMore(START, name + ": ", w);
    RunCons(l, w[0], w[1..]);
    RunWordBody(l2, w[1..]);
    RunConcat(START, name + ": " + w, ";", true);
    LastStep(l2.(value := w));
  }

  lemma {:induction false} LastStep(l: Lexer)
    requires l.mode == ReadingIdentifierValue && !l.comment && l.status == Running
    ensures Run(l, ";", true).events == l.events + [IdentifierField(l.key, l.value + ";")]
  {
  }
}
