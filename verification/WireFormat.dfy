/** The wire format in plain numbers: which bytes stand for which field, said without the names and the functions that
    the writer and the reader share. */
module WireFormat {
  import opened Powers
  import opened Wire
  import opened Decoder
  import opened Tree

  // ---- Groups of bits -------------------------------------------------------------------------------------

  function Power(base: nat, n: nat): (p: nat)
    requires base > 0
    ensures p > 0
  {
    if n == 0 then 1 else base * Power(base, n - 1)
  }

  lemma {:induction false} AtLeast(d: nat, e: int)
    ensures e >= 1 ==> d * e >= d
    ensures e <= -1 ==> d * e + d <= 0
  {
    assert d * e == d + d * (e - 1) && d * e + d == d * (e + 1);
  }

  lemma {:induction false} Distribute(d: nat, q: nat, q': nat)
    ensures d * (q' - q) == d * q' - d * q
  {
  }

  lemma {:induction false} QuotientIs(a: nat, d: nat, q: nat, r: nat)
    requires r < d && a == d * q + r
    ensures a / d == q
  {
    Distribute(d, q, a / d);
    AtLeast(d, a / d - q);
  }

  lemma {:induction false} QuotientTwice(a: nat, b: nat, c: nat)
    requires (b == 0x80 || b == 0x100) && c > 0
    ensures b * c > 0 && a / b / c == a / (b * c)
  {
    var q, r := a / b, a % b;
    var k, s := q / c, q % c;
    assert q == c * k + s;
    if b == 0x80 {
      assert 0x80 * (c * k) == 0x80 * c * k;
      QuotientIs(a, 0x80 * c, k, 0x80 * s + r);
    } else {
      assert 0x100 * (c * k) == 0x100 * c * k;
      QuotientIs(a, 0x100 * c, k, 0x100 * s + r);
    }
  }

  /** Byte `i` of a varint is the i-th group of seven bits; its top bit says that there is more, and there is
      exactly while the number has more bits. */
  lemma {:induction false} VarIntAt(value: nat, i: nat)
    requires i < |VarInt(value)|
    ensures VarInt(value)[i] == value / Power(0x80, i) % 0x80 + (if i + 1 < |VarInt(value)| then 0x80 else 0)
    ensures i + 1 < |VarInt(value)| <==> value / Power(0x80, i + 1) > 0
    decreases value
  {
    assert Power(0x80, 0) == 1 && Power(0x80, 1) == 0x80;
    if i > 0 {
      VarIntAt(value / 0x80, i - 1);
      QuotientTwice(value, 0x80, Power(0x80, i - 1));
      QuotientTwice(value, 0x80, Power(0x80, i));
    }
  }

  /** Byte `i` of a fixed-width number is its i-th group of eight bits. */
  lemma {:induction false} LittleEndianAt(value: nat, width: nat, i: nat)
    requires i < width
    ensures LittleEndian(value, width)[i] == value / Power(0x100, i) % 0x100
    decreases width
  {
    assert Power(0x100, 0) == 1;
    if i > 0 {
      LittleEndianAt(value / 0x100, width - 1, i - 1);
      QuotientTwice(value, 0x100, Power(0x100, i - 1));
    }
  }

  // ---- Tags -----------------------------------------------------------------------------------------------

  function TypeNumber(n: Node): nat {
    match n
    case Scalar(_, _) => 0
    case Fixed64(_, _) => 1
    case Fixed32(_, _) => 5
    case _ => 2
  }

  /** A field starts with the varint of eight times its id and the number of its type. */
  lemma {:induction false} StartsWithTag(n: Node)
    ensures VarInt(8 * n.id + TypeNumber(n)) <= EncodeNode(n)
    ensures n.id < 16 ==> EncodeNode(n)[..1] == [8 * n.id + TypeNumber(n)]
  {
    hide VarInt, Encode, LittleEndian, RedundantVarInt;
    if n.id < 16 {
      OneByte(8 * n.id + TypeNumber(n));
    }
  }

  lemma {:induction false} OneByte(b: nat)
    requires b < 0x80
    ensures VarInt(b) == [b]
  {
  }

  /** What follows a tag of one byte, as the reader sees it: types 3, 4, 6 and 7 are not known. */
  function ReadAs(id: nat, typeNumber: nat, s: seq<byte>): ParseFieldResult {
    if typeNumber == 0 then
      match DecodeVarInt(s)
      case Truncated => NO_FIELD
      case Parsed(v, n) => ParseFieldResult(1 + n, Field(id, 0, v % 0x1_0000_0000_0000_0000, []))
    else if typeNumber == 1 && |s| >= 8 then
      ParseFieldResult(9, Field(id, 1, Four(s) + 0x1_0000_0000 * Four(s[4..]), []))
    else if typeNumber == 5 && |s| >= 4 then ParseFieldResult(5, Field(id, 5, Four(s), []))
    else if typeNumber == 2 then
      match DecodeVarInt(s)
      case Truncated => NO_FIELD
      case Parsed(v, n) =>
        var length := v % 0x1_0000_0000_0000_0000;
        if length > |s| - n then NO_FIELD
        else ParseFieldResult(1 + n + length, Field(id, 2, 0, if length < 0x1000_0000 then s[n..n + length] else []))
    else NO_FIELD
  }

  function Four(s: seq<byte>): nat
    requires |s| >= 4
  {
    var b0: nat, b1: nat, b2: nat, b3: nat := s[0], s[1], s[2], s[3];
    b0 + 0x100 * b1 + 0x1_0000 * b2 + 0x100_0000 * b3
  }

  lemma {:induction false} FourIs(s: seq<byte>)
    requires |s| >= 4
    ensures FromLittleEndian(s) == Four(s) + 0x1_0000_0000 * FromLittleEndian(s[4..])
  {
    hide FromLittleEndian;
    var s1, s2, s3, s4 := s[1..], s[2..], s[3..], s[4..];
    assert s1[1..] == s2 && s2[1..] == s3 && s3[1..] == s4;
    OneMore(s);
    OneMore(s1);
    OneMore(s2);
    OneMore(s3);
  }

  lemma {:induction false} OneMore(s: seq<byte>)
    requires s != []
    ensures FromLittleEndian(s) == s[0] + 0x100 * FromLittleEndian(s[1..])
  {
  }

  lemma {:induction false} FixedIs(s: seq<byte>)
    ensures |s| >= 4 ==> FromLittleEndian(s[..4]) == Four(s)
    ensures |s| >= 8 ==> FromLittleEndian(s[..8]) == Four(s) + 0x1_0000_0000 * Four(s[4..])
  {
    if |s| >= 4 {
      FourIs(s[..4]);
      assert FromLittleEndian([]) == 0 && s[..4][4..] == [];
    }
    if |s| >= 8 {
      FourIs(s[..8]);
      FourIs(s[..8][4..]);
      assert s[..8][4..][4..] == [] && s[..8][4..] == s[4..8];
    }
  }

  lemma {:induction false} PayloadByNumber(id: nat, typeNumber: nat, s: seq<byte>)
    requires 0 < id && typeNumber < 8
    ensures var r := ParsePayload(id, typeNumber, s);
            ReadAs(id, typeNumber, s) == if r.next == 0 then NO_FIELD else ParseFieldResult(1 + r.next, r.field)
  {
    hide FromLittleEndian, DecodeVarInt, Four;
    FixedIs(s);
  }

  /** The reader takes a field from every input that starts with a tag of one byte exactly as the numbers say. */
  lemma {:induction false} ReadByNumber(id: nat, typeNumber: nat, s: seq<byte>)
    requires 0 < id < 16 && typeNumber < 8
    ensures ParseOneField([8 * id + typeNumber] + s) == if s == [] then NO_FIELD else ReadAs(id, typeNumber, s)
  {
    hide ParsePayload, ReadAs, DecodeVarInt;
    var all := [8 * id + typeNumber] + s;
    TagParts(id, typeNumber);
    VarIntLast(8 * id + typeNumber, s);
    assert all[1..] == s;
    PayloadByNumber(id, typeNumber, s);
  }

  /** A field has an id from 1 to 65535, whatever its tag, which counts 32 bits of it. */
  lemma {:induction false} IdsRead(id: nat, rest: seq<byte>)
    requires 8 * id < TWO_TO_THE_64
    ensures var r := ParseOneField(VarInt(8 * id) + [0] + rest);
            if 0 < id % 0x1_0000_0000 <= 65535
            then r == ParseFieldResult(|VarInt(8 * id)| + 1, Field(id % 0x1_0000_0000, 0, 0, []))
            else r == NO_FIELD
  {
    hide VarInt, DecodeVarInt, ParsePayload;
    var tag := VarInt(8 * id);
    var s := tag + [0] + rest;
    assert s == tag + ([0] + rest);
    VarIntRoundTrip(8 * id, [0] + rest);
    assert s[|tag|..] == [0] + rest;
    EightTimes(id);
    if 0 < id % 0x1_0000_0000 {
      ZeroFollows(id % 0x1_0000_0000, rest);
    }
  }

  lemma {:induction false} EightTimes(id: nat)
    requires 8 * id < TWO_TO_THE_64
    ensures 8 * id % TWO_TO_THE_64 == 8 * id && 8 * id / 8 == id && 8 * id % 8 == 0
  {
  }

  lemma {:induction false} ZeroFollows(id: nat, rest: seq<byte>)
    requires 0 < id
    ensures ParsePayload(id, 0, [0] + rest) == ParseFieldResult(1, Field(id, 0, 0, []))
  {
    hide DecodeVarInt;
    VarIntLast(0, rest);
  }

  // ---- A few messages -------------------------------------------------------------------------------------

  lemma {:induction false} OneNode(n: Node)
    ensures Encode([n]) == EncodeNode(n)
  {
    assert Encode([]) == [];
  }

  /** Field 1 with the number 150. */
  lemma {:induction false} KnownScalar()
    ensures Encode([Scalar(1, 150)]) == [0x08, 0x96, 0x01]
    ensures ParseOneField([0x08, 0x96, 0x01]) == ParseFieldResult(3, Field(1, 0, 150, []))
  {
    hide ParseOneField;
    OneNode(Scalar(1, 150));
    assert VarInt(150) == [0x96] + VarInt(1);
    assert [0x96, 0x01][1..] == [0x01] && [0x08] + [0x96, 0x01] == [0x08, 0x96, 0x01];
    assert DecodeVarInt([0x96, 0x01]) == Parsed(150, 2);
    ReadByNumber(1, 0, [0x96, 0x01]);
  }

  /** Field 1 with the four bytes of the number 1. */
  lemma {:induction false} KnownFixed32()
    ensures Encode([Node.Fixed32(1, 1)]) == [0x0D, 1, 0, 0, 0]
    ensures ParseOneField([0x0D, 1, 0, 0, 0]) == ParseFieldResult(5, Field(1, 5, 1, []))
  {
    hide ParseOneField, Encode;
    OneNode(Node.Fixed32(1, 1));
    assert LittleEndian(1, 4) == [1] + LittleEndian(0, 3);
    assert LittleEndian(0, 3) == [0, 0, 0] && [0x0D] + [1, 0, 0, 0] == [0x0D, 1, 0, 0, 0];
    ReadByNumber(1, 5, [1, 0, 0, 0]);
  }

  /** Field 2 with the eight bytes of the number 258. */
  lemma {:induction false} KnownFixed64()
    ensures Encode([Node.Fixed64(2, 258)]) == [0x11, 2, 1, 0, 0, 0, 0, 0, 0]
    ensures ParseOneField([0x11, 2, 1, 0, 0, 0, 0, 0, 0]) == ParseFieldResult(9, Field(2, 1, 258, []))
  {
    hide ParseOneField, Encode, VarInt, LittleEndian, ReadAs, DecodeVarInt;
    var s := [2, 1, 0, 0, 0, 0, 0, 0];
    OneNode(Node.Fixed64(2, 258));
    OneByte(0x11);
    EightBytes();
    assert [0x11] + s == [0x11, 2, 1, 0, 0, 0, 0, 0, 0];
    ReadByNumber(2, 1, s);
    EightRead(s);
  }

  lemma {:induction false} EightBytes()
    ensures LittleEndian(258, 8) == [2, 1, 0, 0, 0, 0, 0, 0]
  {
    assert LittleEndian(258, 8) == [2] + ([1] + LittleEndian(0, 6));
    assert LittleEndian(0, 3) == [0, 0, 0] && LittleEndian(0, 6) == [0, 0, 0] + LittleEndian(0, 3);
  }

  lemma {:induction false} EightRead(s: seq<byte>)
    requires s == [2, 1, 0, 0, 0, 0, 0, 0]
    ensures ReadAs(2, 1, s) == ParseFieldResult(9, Field(2, 1, 258, []))
  {
    hide DecodeVarInt;
    assert s[4..] == [0, 0, 0, 0];
  }

  /** Field 3 with two bytes. */
  lemma {:induction false} KnownBytes()
    ensures Encode([Bytes(3, [7, 8])]) == [0x1A, 2, 7, 8]
    ensures ParseOneField([0x1A, 2, 7, 8]) == ParseFieldResult(4, Field(3, 2, 0, [7, 8]))
  {
    hide ParseOneField, Encode, DecodeVarInt, VarInt;
    OneNode(Bytes(3, [7, 8]));
    OneByte(0x1A);
    OneByte(2);
    assert [2, 7, 8][1..3] == [7, 8] && [0x1A] + [2, 7, 8] == [0x1A, 2, 7, 8];
    VarIntLast(2, [7, 8]);
    assert [2] + [7, 8] == [2, 7, 8];
    ReadByNumber(3, 2, [2, 7, 8]);
  }

  /** Field 4 with a message, whose length takes four bytes. */
  lemma {:induction false} KnownMessage()
    ensures Encode([Msg(4, 0, [Scalar(1, 5)])]) == [0x22, 0x82, 0x80, 0x80, 0x00, 0x08, 0x05]
  {
    hide Encode, VarInt;
    OneNode(Msg(4, 0, [Scalar(1, 5)]));
    OneNode(Scalar(1, 5));
    OneByte(0x22);
    OneByte(8);
    OneByte(5);
  }
}
