/** The character machine that reads a text config and reports its fields to a delegate. */
module PbtxtLexer {
  /** A byte of the input, written as a character. */
  type Char = c: char | c as int < 0x100

  predicate IsSpace(c: Char) {
    c == ' ' || '\t' <= c <= '\r'
  }

  predicate IsDigit(c: Char) {
    '0' <= c <= '9'
  }

  predicate IsIdentifierStart(c: Char) {
    'A' <= c <= 'Z' || 'a' <= c <= 'z' || c == '_'
  }

  predicate IsIdentifierBody(c: Char) {
    IsIdentifierStart(c) || IsDigit(c)
  }

  datatype Mode =
    | WaitingForKey
    | ReadingKey
    | WaitingForValue
    | ReadingStringValue
    | ReadingStringEscape
    | ReadingNumericValue
    | ReadingIdentifierValue

  /** What the machine tells its delegate. */
  datatype Event =
    | NumericField(key: seq<Char>, value: seq<Char>)
    | StringField(key: seq<Char>, value: seq<Char>)
    | IdentifierField(key: seq<Char>, value: seq<Char>)
    | BeginNestedMessage(key: seq<Char>)
    | EndNestedMessage

  /** `Unmatched`: a closing brace without an opening one ends the parse with an error.
      `Fatal`: an unexpected character aborts the program. */
  datatype Status = Running | Unmatched | Fatal

  /** The machine between two characters. `key` and `value` are the tokens read so far; the quotes of a
      string are not part of its token. */
  datatype Lexer = Lexer(mode: Mode, depth: nat, sawColon: bool, sawSemicolon: bool, comment: bool,
                         key: seq<Char>, value: seq<Char>, events: seq<Event>, status: Status)

  const START := Lexer(WaitingForKey, 0, false, true, false, [], [], [], Running)

  /** A value token that ends at `c`: the last character of the input belongs to it. */
  function Ended(value: seq<Char>, c: Char, last: bool): seq<Char> {
    if last then value + [c] else value
  }

  /** Between fields. */
  function StepField(l: Lexer, c: Char): Lexer {
    if IsSpace(c) then l
    else if c == '#' then l.(comment := true)
    else if c == '}' then
      if l.depth == 0 then l.(status := Unmatched)
      else l.(sawSemicolon := false, depth := l.depth - 1, events := l.events + [EndNestedMessage])
    else if !l.sawSemicolon && c == ';' then l.(sawSemicolon := true)
    else if IsIdentifierStart(c) then l.(sawColon := false, mode := ReadingKey, key := [c])
    else l.(status := Fatal)
  }

  /** The character that ends a key is dropped, whatever it is. */
  function StepKey(l: Lexer, c: Char): Lexer {
    if IsIdentifierBody(c) then l.(key := l.key + [c])
    else l.(mode := WaitingForValue, comment := c == '#')
  }

  /** Between a key and its value. */
  function StepValue(l: Lexer, c: Char): Lexer {
    if IsSpace(c) then l
    else if c == '#' then l.(comment := true)
    else if c == ':' && !l.sawColon then l.(sawColon := true)
    else if c == '"' then l.(mode := ReadingStringValue, value := [])
    else if c == '-' || IsDigit(c) then l.(mode := ReadingNumericValue, value := [c])
    else if IsIdentifierStart(c) then l.(mode := ReadingIdentifierValue, value := [c])
    else if c == '{' then
      l.(mode := WaitingForKey, depth := l.depth + 1, events := l.events + [BeginNestedMessage(l.key)])
    else l.(status := Fatal)
  }

  function StepNumber(l: Lexer, c: Char, last: bool): Lexer {
    if IsSpace(c) || c == ';' || last then
      l.(sawSemicolon := c == ';', mode := WaitingForKey, value := [],
         events := l.events + [NumericField(l.key, Ended(l.value, c, last))])
    else if IsDigit(c) then l.(value := l.value + [c])
    else l.(status := Fatal)
  }

  function StepString(l: Lexer, c: Char): Lexer {
    if l.mode == ReadingStringEscape then l.(mode := ReadingStringValue, value := l.value + [c])
    else if c == '\\' then l.(mode := ReadingStringEscape, value := l.value + [c])
    else if c == '"' then
      l.(sawSemicolon := false, mode := WaitingForKey, value := [], events := l.events + [StringField(l.key, l.value)])
    else l.(value := l.value + [c])
  }

  function StepIdentifier(l: Lexer, c: Char, last: bool): Lexer {
    if IsSpace(c) || c == ';' || c == '#' || last then
      l.(comment := c == '#', sawSemicolon := c == ';', mode := WaitingForKey, value := [],
         events := l.events + [IdentifierField(l.key, Ended(l.value, c, last))])
    else if IsIdentifierBody(c) then l.(value := l.value + [c])
    else l.(status := Fatal)
  }

  /** One character. `last` says that it is the last of the input. */
  function Step(l: Lexer, c: Char, last: bool): Lexer {
    if l.status != Running then l
    else if l.comment then l.(comment := c != '\n')
    else
      match l.mode
      case WaitingForKey => StepField(l, c)
      case ReadingKey => StepKey(l, c)
      case WaitingForValue => StepValue(l, c)
      case ReadingNumericValue => StepNumber(l, c, last)
      case ReadingStringValue => StepString(l, c)
      case ReadingStringEscape => StepString(l, c)
      case ReadingIdentifierValue => StepIdentifier(l, c, last)
  }

  /** The machine after the characters of `s`; `atEnd` says that nothing follows them. */
  function Run(l: Lexer, s: seq<Char>, atEnd: bool): Lexer
    decreases |s|
  {
    if s == [] then l else Run(Step(l, s[0], atEnd && |s| == 1), s[1..], atEnd)
  }

  lemma {:induction false} RunConcat(l: Lexer, a: seq<Char>, b: seq<Char>, atEnd: bool)
    requires b != []
    ensures Run(l, a + b, atEnd) == Run(Run(l, a, false), b, atEnd)
    decreases |a|
  {
    if a == [] {
      assert a + b == b;
    } else {
      assert (a + b)[0] == a[0] && (a + b)[1..] == a[1..] + b;
      RunConcat(Step(l, a[0], false), a[1..], b, atEnd);
    }
  }

  lemma {:induction false} RunConcatMore(l: Lexer, a: seq<Char>, b: seq<Char>)
    ensures Run(l, a + b, false) == Run(Run(l, a, false), b, false)
  {
    if b == [] {
      assert a + b == a;
    } else {
      RunConcat(l, a, b, false);
    }
  }

  // ---- What the machine can and cannot report ---------------------------------------------------------

  /** Escapes in a string token come in pairs, so none is left open at its end. */
  predicate Paired(value: seq<Char>) {
    if value == [] then true
    else if value[0] == '\\' then |value| >= 2 && Paired(value[2..])
    else Paired(value[1..])
  }

  lemma {:induction false} PairedEmpty()
    ensures Paired([])
  {
  }

  lemma {:induction false} PairedSnoc(value: seq<Char>, tail: seq<Char>)
    requires Paired(value)
    requires tail != [] && (if tail[0] == '\\' then |tail| == 2 else |tail| == 1)
    ensures Paired(value + tail)
    decreases |value|
  {
    if value == [] {
      assert value + tail == tail;
      assert tail[0] == '\\' ==> tail[2..] == [];
    } else if value[0] == '\\' {
      PairedSnoc(value[2..], tail);
      assert (value + tail)[2..] == value[2..] + tail;
    } else {
      PairedSnoc(value[1..], tail);
      assert (value + tail)[1..] == value[1..] + tail;
    }
  }

  /** The change of depth that goes with a report. */
  function Delta(e: Event): int {
    match e case BeginNestedMessage(_) => 1 case EndNestedMessage => -1 case _ => 0
  }

  /** How deep the nested messages reported so far leave us. */
  function Nesting(events: seq<Event>): int {
    if events == [] then 0
    else Nesting(events[..|events| - 1]) + Delta(events[|events| - 1])
  }

  /** What holds of the reports after any input. */
  ghost predicate Balanced(events: seq<Event>, depth: nat) {
    && depth == Nesting(events)
    && (forall i :: 0 <= i <= |events| ==> 0 <= Nesting(events[..i]))
    && (forall i :: 0 <= i < |events| && events[i].StringField? ==> Paired(events[i].value))
  }

  /** What holds of a string token that is being read. */
  predicate TokenPaired(l: Lexer) {
    && (l.mode == ReadingStringValue ==> Paired(l.value))
    && (l.mode == ReadingStringEscape ==>
          l.value != [] && Paired(l.value[..|l.value| - 1]) && l.value[|l.value| - 1] == '\\')
  }

  ghost predicate Sound(l: Lexer) {
    Balanced(l.events, l.depth) && TokenPaired(l)
  }

  lemma {:induction false} BalancedSnoc(events: seq<Event>, depth: nat, e: Event)
    requires Balanced(events, depth) && 0 <= depth + Delta(e)
    requires e.StringField? ==> Paired(e.value)
    ensures Balanced(events + [e], depth + Delta(e))
  {
    hide Paired;
    var es := events + [e];
    assert es[..|events|] == events && es[..|es|] == es;
    forall i | 0 <= i <= |es|
      ensures 0 <= Nesting(es[..i])
    {
      if i <= |events| {
        assert es[..i] == events[..i];
      }
    }
  }

  /** A step reports at most one thing, and moves the depth accordingly. */
  lemma {:induction false} StepReports(l: Lexer, c: Char, last: bool)
    requires TokenPaired(l)
    ensures var l' := Step(l, c, last);
            || (l'.events == l.events && l'.depth == l.depth)
            || (exists e :: l'.events == l.events + [e] && l'.depth == l.depth + Delta(e)
                            && (e.StringField? ==> Paired(e.value)))
  {
    hide Paired;
    var l' := Step(l, c, last);
    if l'.events != l.events {
      var e := l'.events[|l.events|];
      assert l'.events == l.events + [e];
    }
  }

  lemma {:induction false} StepToken(l: Lexer, c: Char, last: bool)
    requires TokenPaired(l)
    ensures TokenPaired(Step(l, c, last))
  {
    hide Paired, StepString;
    PairedEmpty();
    if l.mode == ReadingStringValue || l.mode == ReadingStringEscape {
      StepStringPaired(l, c);
    }
  }

  lemma {:induction false} StepStringPaired(l: Lexer, c: Char)
    requires TokenPaired(l) && (l.mode == ReadingStringValue || l.mode == ReadingStringEscape)
    ensures TokenPaired(StepString(l, c))
  {
    hide Paired;
    var l' := StepString(l, c);
    if l.mode == ReadingStringEscape {
      var front := l.value[..|l.value| - 1];
      PairedSnoc(front, ['\\', c]);
      assert l'.value == front + ['\\', c];
    } else if c == '\\' {
      assert l'.value[..|l'.value| - 1] == l.value;
    } else if c != '"' {
      PairedSnoc(l.value, [c]);
    }
  }

  lemma {:induction false} SoundStep(l: Lexer, c: Char, last: bool)
    requires Sound(l)
    ensures Sound(Step(l, c, last))
  {
    hide Balanced, TokenPaired, Step;
    StepToken(l, c, last);
    StepReports(l, c, last);
    var l' := Step(l, c, last);
    if l'.events != l.events {
      var e :| l'.events == l.events + [e] && l'.depth == l.depth + Delta(e) && (e.StringField? ==> Paired(e.value));
      BalancedSnoc(l.events, l.depth, e);
    }
  }

  /** On every input: begins and ends balance as the depth says, never an end too many, and no string
      token ends inside an escape, so the delegate's check for that never fires. */
  lemma {:induction false} RunSound(l: Lexer, s: seq<Char>, atEnd: bool)
    requires Sound(l)
    ensures Sound(Run(l, s, atEnd))
    decreases |s|
  {
    if s != [] {
      SoundStep(l, s[0], atEnd && |s| == 1);
      RunSound(Step(l, s[0], atEnd && |s| == 1), s[1..], atEnd);
    }
  }
}
