/** protozero's decoders: one field at a time, the first field with an id, and all fields at once
    into an indexed table with an overflow area for repeated fields. */
module Decoder {
  import opened Powers
  import opened Wire

  /** A decoded field. `data` is the byte range that a length-delimited field points to. */
  datatype Field = Field(id: nat, wireType: nat, intValue: nat, data: seq<byte>) {
    predicate Valid() {
      id != 0
    }
  }

  const INVALID_FIELD := Field(0, 0, 0, [])

  const MAX_FIELD_ID: nat := 0xFFFF

  /** `next` is the number of bytes consumed; 0 means that no field could be parsed. */
  datatype ParseFieldResult = ParseFieldResult(next: nat, field: Field)

  const NO_FIELD := ParseFieldResult(0, INVALID_FIELD)

  /** The value that follows a tag. Here `next` counts from the start of `s`; 0 means failure. */
  function ParsePayload(id: nat, wireType: nat, s: seq<byte>): (r: ParseFieldResult)
    requires 0 < id
    ensures r.next <= |s|
    ensures r.next == 0 <==> r == NO_FIELD
    ensures r.next > 0 ==> r.field.id == id
    ensures |r.field.data| < |s| || r == NO_FIELD
  {
    if wireType == WIRE_VARINT then
      match ParsedVarInt(s)
      case Truncated => NO_FIELD
      case Parsed(v, n) => ParseFieldResult(n, Field(id, wireType, v, []))
    else if wireType == WIRE_LENGTH_DELIMITED then
      match ParsedVarInt(s)
      case Truncated => NO_FIELD
      case Parsed(length, n) =>
        if length > |s| - n then NO_FIELD
        // A payload above the limit is skipped: the field is there, its bytes are not.
        else if length <= MAX_MESSAGE_LENGTH then
          ParseFieldResult(n + length, Field(id, wireType, 0, s[n..n + length]))
        else ParseFieldResult(n + length, Field(id, wireType, 0, []))
    else if wireType == WIRE_FIXED64 then
      if |s| < 8 then NO_FIELD
      else ParseFieldResult(8, Field(id, wireType, FromLittleEndian(s[..8]), []))
    else if wireType == WIRE_FIXED32 then
      if |s| < 4 then NO_FIELD
      else ParseFieldResult(4, Field(id, wireType, FromLittleEndian(s[..4]), []))
    else NO_FIELD
  }

  function ParseOneField(s: seq<byte>): (r: ParseFieldResult)
    ensures r.next <= |s|
    ensures r.next == 0 <==> r == NO_FIELD
    ensures r.field.Valid() <==> r.next > 0
    ensures r.field.id <= MAX_FIELD_ID
    ensures r.next > 0 ==> |r.field.data| < |s|
  {
    match ParsedVarInt(s)
    case Truncated => NO_FIELD
    case Parsed(preamble, pos) =>
      var id := preamble / 8 % TWO_TO_THE_32;
      if id == 0 || pos >= |s| || id > MAX_FIELD_ID then NO_FIELD
      else
        var r := ParsePayload(id, preamble % 8, s[pos..]);
        if r.next == 0 then NO_FIELD else ParseFieldResult(pos + r.next, r.field)
  }

  /** Every field that repeated reads return, in order, up to the first that cannot be parsed. */
  function ReadAll(s: seq<byte>): seq<Field>
    decreases |s|
  {
    var r := ParseOneField(s);
    if r.next == 0 then [] else [r.field] + ReadAll(s[r.next..])
  }

  /** The fields with a given id, in order. */
  function Occurrences(fs: seq<Field>, id: nat): seq<Field> {
    if fs == [] then []
    else (if fs[0].id == id then [fs[0]] else []) + Occurrences(fs[1..], id)
  }

  lemma {:induction false} OccurrencesConcat(a: seq<Field>, b: seq<Field>, id: nat)
    ensures Occurrences(a + b, id) == Occurrences(a, id) + Occurrences(b, id)
  {
    if a == [] {
      assert a + b == b;
    } else {
      var head := if a[0].id == id then [a[0]] else [];
      calc {
        Occurrences(a + b, id);
        { assert (a + b)[0] == a[0] && (a + b)[1..] == a[1..] + b; }
        head + Occurrences(a[1..] + b, id);
        { OccurrencesConcat(a[1..], b, id); }
        head + (Occurrences(a[1..], id) + Occurrences(b, id));
        Occurrences(a, id) + Occurrences(b, id);
      }
    }
  }

  lemma {:induction false} OccurrencesSnoc(a: seq<Field>, f: Field, id: nat)
    ensures Occurrences(a + [f], id) == Occurrences(a, id) + (if f.id == id then [f] else [])
  {
    OccurrencesConcat(a, [f], id);
  }

  lemma {:induction false} ReadAllValid(s: seq<byte>)
    ensures forall f :: f in ReadAll(s) ==> f.Valid() && f.id <= MAX_FIELD_ID
    decreases |s|
  {
    var r := ParseOneField(s);
    if r.next > 0 {
      ReadAllValid(s[r.next..]);
    }
  }

  /** `done` is what a linear read has returned when its cursor has reached `cur`. */
  ghost predicate ReadSoFar(s: seq<byte>, cur: nat, done: seq<Field>) {
    cur <= |s| && ReadAll(s) == done + ReadAll(s[cur..])
  }

  lemma {:induction false} ReadSoFarStep(s: seq<byte>, cur: nat, done: seq<Field>)
    requires ReadSoFar(s, cur, done)
    ensures var r := ParseOneField(s[cur..]);
            if r.next == 0 then ReadAll(s) == done && ReadAll(s[cur..]) == []
            else ReadSoFar(s, cur + r.next, done + [r.field])
  {
    hide ParseOneField;
    var r := ParseOneField(s[cur..]);
    if r.next == 0 {
      assert done + [] == done;
    } else {
      assert s[cur..][r.next..] == s[cur + r.next..];
      var rest := ReadAll(s[cur + r.next..]);
      assert done + ([r.field] + rest) == done + [r.field] + rest;
    }
  }

  class ProtoDecoder {
    const buffer: seq<byte>
    var readPtr: nat

    ghost predicate Valid()
      reads this
    {
      readPtr <= |buffer|
    }

    constructor (buffer: seq<byte>)
      ensures Valid() && this.buffer == buffer && readPtr == 0
    {
      this.buffer := buffer;
      readPtr := 0;
    }

    /** The fields still to be read. */
    ghost function Remaining(): seq<Field>
      requires Valid()
      reads this
    {
      ReadAll(buffer[readPtr..])
    }

    /** Takes the first remaining field, or leaves the cursor where it is and returns an invalid one. */
    method ReadField() returns (field: Field)
      requires Valid()
      modifies this
      ensures Valid()
      ensures if old(Remaining()) == [] then !field.Valid() && readPtr == old(readPtr)
              else field.Valid() && [field] + Remaining() == old(Remaining())
    {
      var r := ParseOneField(buffer[readPtr..]);
      assert buffer[readPtr..][r.next..] == buffer[readPtr + r.next..];
      readPtr := readPtr + r.next;
      field := r.field;
    }

    /** The first field with the id wherever the cursor stands, and the cursor stays there. */
    method FindField(id: nat) returns (res: Field)
      requires Valid() && id != 0
      modifies this
      ensures Valid() && readPtr == old(readPtr)
      ensures var found := Occurrences(ReadAll(buffer), id);
              res == if found == [] then INVALID_FIELD else found[0]
    {
      res := INVALID_FIELD;
      var oldPosition := readPtr;
      readPtr := 0;
      assert buffer[0..] == buffer;
      var f := ReadField();
      while f.Valid()
        invariant Valid()
        invariant Occurrences((if f.Valid() then [f] else []) + Remaining(), id) == Occurrences(ReadAll(buffer), id)
        invariant !f.Valid() ==> Remaining() == []
        decreases f.Valid(), |Remaining()|
      {
        assert ([f] + Remaining())[1..] == Remaining();
        if f.id == id {
          res := f;
          break;
        }
        f := ReadField();
      }
      readPtr := oldPosition;
    }
  }

  // ---- The indexed decoder ------------------------------------------------------------------

  /** The earlier values of repeated fields, which follow the `n` slots of the table. */
  function Overflow(table: seq<Field>, n: nat): seq<Field>
    requires n <= |table|
  {
    table[n..]
  }

  /** Field `i` in a table: its earlier values, then the slot. */
  function Entries(table: seq<Field>, n: nat, i: nat): seq<Field>
    requires i < n <= |table|
  {
    Occurrences(Overflow(table, n), i) + (if table[i].Valid() then [table[i]] else [])
  }

  /** A table with `n` slots agrees with a linear read that returned `fs`: each slot holds its own
      field or nothing, nothing precedes an empty slot, and the entries of each id are exactly its
      occurrences in order. */
  ghost predicate Indexes(table: seq<Field>, n: nat, fs: seq<Field>) {
    && 0 < n <= |table|
    && table[0] == INVALID_FIELD
    && (forall i :: 0 < i < n ==> table[i] == INVALID_FIELD || table[i].id == i)
    && (forall i :: 0 < i < n && !table[i].Valid() ==> Occurrences(Overflow(table, n), i) == [])
    && (forall i :: 0 < i < n ==> Entries(table, n, i) == Occurrences(fs, i))
  }

  /** Makes `f` the current value of its slot; a value already there moves to the overflow area. */
  function Stored(table: seq<Field>, f: Field): seq<Field>
    requires f.id < |table|
  {
    table[f.id := f] + (if table[f.id].Valid() then [table[f.id]] else [])
  }

  lemma {:induction false} EmptyTableIndexes(n: nat)
    requires 0 < n
    ensures Indexes(seq(n, _ => INVALID_FIELD), n, [])
  {
  }

  lemma {:induction false} StoredIndexes(table: seq<Field>, n: nat, fs: seq<Field>, f: Field)
    requires Indexes(table, n, fs)
    requires 0 < f.id < n
    ensures Indexes(Stored(table, f), n, fs + [f])
  {
    var table' := Stored(table, f);
    var last := table[f.id];
    assert Overflow(table', n) == Overflow(table, n) + (if last.Valid() then [last] else []);
    forall i | 0 < i < n
      ensures Entries(table', n, i) == Occurrences(fs + [f], i)
      ensures !table'[i].Valid() ==> Occurrences(Overflow(table', n), i) == []
    {
      OccurrencesSnoc(fs, f, i);
      if last.Valid() {
        OccurrencesSnoc(Overflow(table, n), last, i);
      } else {
        assert Overflow(table', n) == Overflow(table, n);
      }
      assert Entries(table, n, i) == Occurrences(fs, i);
    }
  }

  /** A field beyond the table is skipped without disturbing it. */
  lemma {:induction false} SkippedIndexes(table: seq<Field>, n: nat, fs: seq<Field>, f: Field)
    requires Indexes(table, n, fs)
    requires n <= f.id
    ensures Indexes(table, n, fs + [f])
  {
    forall i | 0 < i < n
      ensures Entries(table, n, i) == Occurrences(fs + [f], i)
    {
      OccurrencesSnoc(fs, f, i);
      assert Entries(table, n, i) == Occurrences(fs, i);
    }
  }

  /** The slots and the overflow area live in one array, of which `size` entries are in use. */
  class TypedProtoDecoder {
    const buffer: seq<byte>
    const numFields: nat
    var fields: array<Field>
    var size: nat
    var readPtr: nat

    ghost predicate Valid()
      reads this
    {
      0 < numFields <= size <= fields.Length && readPtr <= |buffer|
    }

    ghost function Table(): seq<Field>
      requires Valid()
      reads this, fields
    {
      fields[..size]
    }

    constructor (buffer: seq<byte>, maxFieldId: nat, capacity: nat)
      requires maxFieldId < capacity
      ensures Valid() && fresh(fields)
      ensures this.buffer == buffer && numFields == maxFieldId + 1
      ensures Indexes(Table(), numFields, ReadAll(buffer))
      ensures ReadAll(buffer[readPtr..]) == []
    {
      this.buffer := buffer;
      numFields := maxFieldId + 1;
      size := maxFieldId + 1;
      readPtr := 0;
      fields := new Field[capacity](_ => INVALID_FIELD);
      new;
      assert Table() == seq(numFields, _ => INVALID_FIELD);
      ParseAllFields();
    }

    method ParseAllFields()
      requires Valid() && readPtr == 0
      requires Table() == seq(numFields, _ => INVALID_FIELD)
      modifies this, fields
      ensures Valid() && (fields == old(fields) || fresh(fields))
      ensures Indexes(Table(), numFields, ReadAll(buffer))
      ensures ReadAll(buffer[readPtr..]) == []
    {
      hide ParseOneField;
      var cur := 0;
      ghost var done: seq<Field> := [];
      EmptyTableIndexes(numFields);
      assert buffer[0..] == buffer && done + ReadAll(buffer) == ReadAll(buffer);
      while true
        invariant Valid() && (fields == old(fields) || fresh(fields))
        invariant ReadSoFar(buffer, cur, done)
        invariant Indexes(Table(), numFields, done)
        decreases |buffer| - cur
      {
        ReadSoFarStep(buffer, cur, done);
        var res := ParseOneField(buffer[cur..]);
        if res.next == 0 {
          break;
        }
        cur := cur + res.next;
        if res.field.id < numFields {
          StoredIndexes(Table(), numFields, done, res.field);
          Store(res.field);
        } else {
          SkippedIndexes(Table(), numFields, done, res.field);
        }
        done := done + [res.field];
      }
      readPtr := cur;
    }

    method Store(f: Field)
      requires Valid() && f.id < numFields
      modifies this, fields
      ensures Valid() && Table() == Stored(old(Table()), f)
      ensures fields == old(fields) || fresh(fields)
    {
      if !fields[f.id].Valid() {
        fields[f.id] := f;
      } else {
        if size >= fields.Length {
          ExpandHeapStorage();
        }
        fields[size] := fields[f.id];
        size := size + 1;
        fields[f.id] := f;
      }
    }

    /** Doubles the storage, keeping every entry. */
    method ExpandHeapStorage()
      requires Valid()
      modifies this`fields
      ensures Valid() && Table() == old(Table())
      ensures fresh(fields) && fields.Length == 2 * old(fields.Length) && size < fields.Length
    {
      var storage := fields;
      var newStorage := new Field[storage.Length * 2](_ => INVALID_FIELD);
      for i := 0 to size
        invariant newStorage[..i] == storage[..i]
      {
        newStorage[i] := storage[i];
      }
      fields := newStorage;
    }

    /** The last occurrence, as "last one wins" asks; any id beyond the table reads as invalid. */
    method Get(id: nat) returns (f: Field)
      requires Valid() && Indexes(Table(), numFields, ReadAll(buffer))
      ensures var all := Occurrences(ReadAll(buffer), id);
              f == if 0 < id < numFields && all != [] then all[|all| - 1] else INVALID_FIELD
    {
      f := if id < numFields then fields[id] else fields[0];
      assert f == if id < numFields then Table()[id] else Table()[0];
      if 0 < id < numFields {
        assert Entries(Table(), numFields, id) == Occurrences(ReadAll(buffer), id);
      }
    }

    /** Runs the repeated-field iterator to its end: first the overflow area, then the slot. */
    method CollectRepeated(id: nat) returns (all: seq<Field>)
      requires Valid() && Indexes(Table(), numFields, ReadAll(buffer))
      requires 0 < id < numFields
      ensures all == Occurrences(ReadAll(buffer), id)
    {
      all := [];
      for iter := numFields to size
        invariant all == Occurrences(fields[numFields..iter], id)
      {
        OccurrencesSnoc(fields[numFields..iter], fields[iter], id);
        assert fields[numFields..iter + 1] == fields[numFields..iter] + [fields[iter]];
        if fields[iter].id == id {
          all := all + [fields[iter]];
        }
      }
      assert fields[numFields..size] == Overflow(Table(), numFields);
      assert Entries(Table(), numFields, id) == Occurrences(ReadAll(buffer), id);
      if fields[id].Valid() {
        all := all + [fields[id]];
      }
    }
  }
}
