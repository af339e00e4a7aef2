/** Trees of fields, their encoding on the wire as protozero writes it, and the recursive decoding
    that a reader who knows the schema performs with the field-by-field decoder. */
module Tree {
  import opened Powers
  import opened Options
  import opened Wire
  import opened Decoder

  /** A field of a message. `already` is the part of a sub-message's length that its writer declared
      as written elsewhere, which its length field leaves out; it is 0 for a message in one piece. */
  datatype Node =
    | Scalar(id: nat, value: nat)
    | Fixed64(id: nat, value: nat)
    | Fixed32(id: nat, value: nat)
    | Bytes(id: nat, data: seq<byte>)
    | Msg(id: nat, already: nat, fields: seq<Node>)

  /** The bytes of a field up to the payload. */
  function Preamble(id: nat, wireType: nat): seq<byte> {
    VarInt(Tag(id, wireType))
  }

  function EncodeNode(n: Node): seq<byte>
    decreases n, 1
  {
    match n
    case Scalar(id, v) => Preamble(id, WIRE_VARINT) + VarInt(v)
    case Fixed64(id, v) => Preamble(id, WIRE_FIXED64) + LittleEndian(v, 8)
    case Fixed32(id, v) => Preamble(id, WIRE_FIXED32) + LittleEndian(v, 4)
    case Bytes(id, data) => Preamble(id, WIRE_LENGTH_DELIMITED) + VarInt(|data|) + data
    case Msg(id, already, fields) =>
      var payload := Encode(fields);
      Preamble(id, WIRE_LENGTH_DELIMITED)
      + RedundantVarInt(if already <= |payload| then |payload| - already else 0) + payload
  }

  function Encode(ns: seq<Node>): seq<byte>
    decreases ns, 0
  {
    if ns == [] then [] else EncodeNode(ns[0]) + Encode(ns[1..])
  }

  lemma {:induction false} EncodeConcat(a: seq<Node>, b: seq<Node>)
    ensures Encode(a + b) == Encode(a) + Encode(b)
    decreases |a|
  {
    if a == [] {
      assert a + b == b;
    } else {
      assert (a + b)[0] == a[0] && (a + b)[1..] == a[1..] + b;
      EncodeConcat(a[1..], b);
    }
  }

  lemma {:induction false} EncodeSnoc(a: seq<Node>, n: Node)
    ensures Encode(a + [n]) == Encode(a) + EncodeNode(n)
  {
    EncodeConcat(a, [n]);
    assert Encode([n]) == EncodeNode(n) + [];
  }

  // ---- Reading a tree back --------------------------------------------------------------------

  /** Which fields of which message types are sub-messages, and of what type. Any other
      length-delimited field is plain bytes. */
  type Schema = map<(string, nat), string>

  /** Decodes all of `s` as a message of the given type, recursing into its sub-messages. */
  function Decode(schema: Schema, typ: string, s: seq<byte>): Option<seq<Node>>
    decreases |s|
  {
    if s == [] then Some([])
    else
      var r := ParseOneField(s);
      if r.next == 0 then None
      else
        var first := DecodeField(schema, typ, r.field, |s|);
        var rest := Decode(schema, typ, s[r.next..]);
        if first.None? || rest.None? then None else Some([first.value] + rest.value)
  }

  function DecodeField(schema: Schema, typ: string, f: Field, ghost bound: nat): Option<Node>
    requires |f.data| < bound
    decreases bound, 0
  {
    if f.wireType == WIRE_VARINT then Some(Scalar(f.id, f.intValue))
    else if f.wireType == WIRE_FIXED64 then Some(Fixed64(f.id, f.intValue))
    else if f.wireType == WIRE_FIXED32 then Some(Fixed32(f.id, f.intValue))
    else if (typ, f.id) in schema then
      var sub := Decode(schema, schema[(typ, f.id)], f.data);
      if sub.None? then None else Some(Msg(f.id, 0, sub.value))
    else Some(Bytes(f.id, f.data))
  }

  /** The fields a writer may produce for a message type: ids up to 0xFFFF, values that fit their
      width, lengths within the 28-bit limit, sub-messages in one piece and exactly where the schema
      has them. */
  predicate FitsNode(schema: Schema, typ: string, n: Node)
    decreases n, 1
  {
    && 0 < n.id <= MAX_FIELD_ID
    && match n
       case Scalar(_, v) => v < TWO_TO_THE_64
       case Fixed64(_, v) => v < TWO_TO_THE_64
       case Fixed32(_, v) => v < TWO_TO_THE_32
       case Bytes(id, data) => (typ, id) !in schema && |data| <= MAX_MESSAGE_LENGTH
       case Msg(id, already, fields) =>
         && (typ, id) in schema
         && already == 0
         && |Encode(fields)| <= MAX_MESSAGE_LENGTH
         && Fits(schema, schema[(typ, id)], fields)
  }

  predicate Fits(schema: Schema, typ: string, ns: seq<Node>)
    decreases ns, 0
  {
    ns == [] || (FitsNode(schema, typ, ns[0]) && Fits(schema, typ, ns[1..]))
  }

  lemma {:induction false} FitsConcat(schema: Schema, typ: string, a: seq<Node>, b: seq<Node>)
    ensures Fits(schema, typ, a + b) <==> Fits(schema, typ, a) && Fits(schema, typ, b)
    decreases |a|
  {
    if a == [] {
      assert a + b == b;
    } else {
      assert (a + b)[0] == a[0] && (a + b)[1..] == a[1..] + b;
      FitsConcat(schema, typ, a[1..], b);
    }
  }

  /** The field as the decoder reports it, without looking inside a sub-message. */
  function Flat(n: Node): Field
    decreases n, 2
  {
    match n
    case Scalar(id, v) => Field(id, WIRE_VARINT, v, [])
    case Fixed64(id, v) => Field(id, WIRE_FIXED64, v, [])
    case Fixed32(id, v) => Field(id, WIRE_FIXED32, v, [])
    case Bytes(id, data) => Field(id, WIRE_LENGTH_DELIMITED, 0, data)
    case Msg(id, _, fields) => Field(id, WIRE_LENGTH_DELIMITED, 0, Encode(fields))
  }

  /** A tag followed by a payload parses as that payload under that id and wire type. */
  lemma {:induction false} ParseTagged(id: nat, wireType: nat, s: seq<byte>)
    requires 0 < id <= MAX_FIELD_ID && wireType < 8 && s != []
    ensures var p := Preamble(id, wireType);
            var r := ParsePayload(id, wireType, s);
            ParseOneField(p + s) == if r.next == 0 then NO_FIELD else ParseFieldResult(|p| + r.next, r.field)
  {
    hide ParsePayload, DecodeVarInt, VarInt;
    var tag, p := Tag(id, wireType), Preamble(id, wireType);
    VarIntRoundTrip(tag, s);
    assert (p + s)[|p|..] == s;
    TagParts(id, wireType);
    assert ParsedVarInt(p + s) == Parsed(tag, |p|);
  }

  lemma {:induction false} TagParts(id: nat, wireType: nat)
    requires id <= MAX_FIELD_ID && wireType < 8
    ensures var tag := Tag(id, wireType);
            tag % TWO_TO_THE_64 == tag && tag / 8 % TWO_TO_THE_32 == id && tag % 8 == wireType
  {
  }

  lemma {:induction false} ParseLengthDelimited(id: nat, length: seq<byte>, data: seq<byte>, rest: seq<byte>)
    requires 0 < id && |data| <= MAX_MESSAGE_LENGTH
    requires DecodeVarInt(length + data + rest) == Parsed(|data|, |length|)
    ensures ParsePayload(id, WIRE_LENGTH_DELIMITED, length + data + rest)
            == ParseFieldResult(|length| + |data|, Field(id, WIRE_LENGTH_DELIMITED, 0, data))
  {
  }

  lemma {:induction false} ParseLengthField(id: nat, length: seq<byte>, data: seq<byte>, rest: seq<byte>)
    requires 0 < id <= MAX_FIELD_ID && |data| <= MAX_MESSAGE_LENGTH && length != []
    requires DecodeVarInt(length + (data + rest)) == Parsed(|data|, |length|)
    ensures var s := Preamble(id, WIRE_LENGTH_DELIMITED) + length + data;
            ParseOneField(s + rest) == ParseFieldResult(|s|, Field(id, WIRE_LENGTH_DELIMITED, 0, data))
  {
    hide ParseOneField, ParsePayload, DecodeVarInt, VarInt;
    var p := Preamble(id, WIRE_LENGTH_DELIMITED);
    assert length + (data + rest) == length + data + rest;
    assert p + length + data + rest == p + (length + data + rest);
    ParseLengthDelimited(id, length, data, rest);
    ParseTagged(id, WIRE_LENGTH_DELIMITED, length + data + rest);
  }

  /** The decoder reads one encoded field back, whatever follows it. */
  lemma {:induction false} ParseEncodedNode(schema: Schema, typ: string, n: Node, rest: seq<byte>)
    requires FitsNode(schema, typ, n)
    ensures ParseOneField(EncodeNode(n) + rest) == ParseFieldResult(|EncodeNode(n)|, Flat(n))
  {
    hide ParseOneField, ParsePayload, DecodeVarInt, Fits, VarInt, RedundantVarInt, LittleEndian, Pow256;
    Pow256Values();
    match n {
      case Scalar(id, v) =>
        ParseScalar(id, v, rest);
      case Fixed64(id, v) =>
        ParseFixed(id, WIRE_FIXED64, v, 8, rest);
      case Fixed32(id, v) =>
        ParseFixed(id, WIRE_FIXED32, v, 4, rest);
      case Bytes(id, data) =>
        VarIntRoundTrip(|data|, data + rest);
        ParseLengthField(id, VarInt(|data|), data, rest);
      case Msg(id, _, fields) =>
        var data := Encode(fields);
        RedundantVarIntRoundTrip(|data|, data + rest);
        ParseLengthField(id, RedundantVarInt(|data|), data, rest);
    }
  }

  lemma {:induction false} ParseScalar(id: nat, v: nat, rest: seq<byte>)
    requires 0 < id <= MAX_FIELD_ID && v < TWO_TO_THE_64
    ensures var s := Preamble(id, WIRE_VARINT) + VarInt(v);
            ParseOneField(s + rest) == ParseFieldResult(|s|, Field(id, WIRE_VARINT, v, []))
  {
    hide ParseOneField, VarInt, DecodeVarInt;
    VarIntRoundTrip(v, rest);
    assert Preamble(id, WIRE_VARINT) + VarInt(v) + rest == Preamble(id, WIRE_VARINT) + (VarInt(v) + rest);
    ParseTagged(id, WIRE_VARINT, VarInt(v) + rest);
  }

  lemma {:induction false} ParseFixed(id: nat, wireType: nat, v: nat, width: nat, rest: seq<byte>)
    requires 0 < id <= MAX_FIELD_ID && v < Pow256(width)
    requires (wireType == WIRE_FIXED64 && width == 8) || (wireType == WIRE_FIXED32 && width == 4)
    ensures var s := Preamble(id, wireType) + LittleEndian(v, width);
            ParseOneField(s + rest) == ParseFieldResult(|s|, Field(id, wireType, v, []))
  {
    hide ParseOneField, LittleEndian, VarInt;
    var p, le := Preamble(id, wireType), LittleEndian(v, width);
    assert p + le + rest == p + (le + rest);
    assert (le + rest)[..width] == le;
    LittleEndianRoundTrip(v, width);
    ParseTagged(id, wireType, le + rest);
  }

  /** Decoding what the writer produces returns the same tree, in the same order. */
  lemma {:induction false} DecodeEncode(schema: Schema, typ: string, ns: seq<Node>)
    requires Fits(schema, typ, ns)
    ensures Decode(schema, typ, Encode(ns)) == Some(ns)
    decreases ns, 0
  {
    if ns != [] {
      hide ParseOneField, ParsePayload, EncodeNode;
      var n, s := ns[0], Encode(ns);
      var first := EncodeNode(n);
      ParseEncodedNode(schema, typ, n, Encode(ns[1..]));
      EncodeNodeNonEmpty(n);
      assert s[|first|..] == Encode(ns[1..]);
      DecodeEncode(schema, typ, ns[1..]);
      DecodeFlat(schema, typ, n, |s|);
      assert [n] + ns[1..] == ns;
    }
  }

  lemma {:induction false} EncodeNodeNonEmpty(n: Node)
    ensures EncodeNode(n) != []
  {
  }

  lemma {:induction false} DecodeFlat(schema: Schema, typ: string, n: Node, bound: nat)
    requires FitsNode(schema, typ, n) && |Flat(n).data| < bound
    ensures DecodeField(schema, typ, Flat(n), bound) == Some(n)
    decreases n, 1
  {
    if n.Msg? {
      DecodeEncode(schema, schema[(typ, n.id)], n.fields);
    }
  }

  /** The fields of a message as the decoder reports them one after another. */
  function AllFlat(ns: seq<Node>): seq<Field> {
    if ns == [] then [] else [Flat(ns[0])] + AllFlat(ns[1..])
  }

  /** Reading a message field by field returns each field that was written, in order. */
  lemma {:induction false} ReadsAllWritten(schema: Schema, typ: string, ns: seq<Node>)
    requires Fits(schema, typ, ns)
    ensures ReadAll(Encode(ns)) == AllFlat(ns)
    decreases |ns|
  {
    hide ParseOneField, EncodeNode, Flat, FitsNode;
    if ns == [] {
      ReadsNothing();
    } else {
      var first, rest := EncodeNode(ns[0]), Encode(ns[1..]);
      ParseEncodedNode(schema, typ, ns[0], rest);
      EncodeNodeNonEmpty(ns[0]);
      assert (first + rest)[|first|..] == rest;
      ReadsAllWritten(schema, typ, ns[1..]);
    }
  }

  lemma {:induction false} ReadsNothing()
    ensures ReadAll([]) == []
  {
  }

  /** No two trees of a message type share an encoding. */
  lemma {:induction false} EncodeInjective(schema: Schema, typ: string, a: seq<Node>, b: seq<Node>)
    requires Fits(schema, typ, a) && Fits(schema, typ, b)
    requires Encode(a) == Encode(b)
    ensures a == b
  {
    DecodeEncode(schema, typ, a);
    DecodeEncode(schema, typ, b);
  }
}
