/** The Protocol Buffers wire primitives of protozero: base-128 varints, the fixed-size redundant
    varint used to backfill lengths, field tags and little-endian fixed-width integers. */
module Wire {
  import opened Powers

  type byte = x: int | 0 <= x < 0x100

  /** Bytes reserved for the length of a nested message, and the largest length they can hold. */
  const MESSAGE_LENGTH_FIELD_SIZE: nat := 4
  const MAX_MESSAGE_LENGTH: nat := 0xFFF_FFFF

  const WIRE_VARINT := 0
  const WIRE_FIXED64 := 1
  const WIRE_LENGTH_DELIMITED := 2
  const WIRE_FIXED32 := 5

  /** The field id sits above the three bits of the wire type. */
  function Tag(id: nat, wireType: nat): nat {
    id * 8 + wireType
  }

  // ---- Varints ------------------------------------------------------------------------------

  /** The canonical base-128 encoding, least significant group first. */
  function VarInt(value: nat): seq<byte> {
    if value < 0x80 then [value] else [0x80 + value % 0x80] + VarInt(value / 0x80)
  }

  datatype VarIntResult = Truncated | Parsed(value: nat, next: nat)

  /** What the bytes of `s` denote when read as a varint, with no bound on the width. */
  function DecodeVarInt(s: seq<byte>): (r: VarIntResult)
    ensures r.Parsed? ==> 0 < r.next <= |s|
  {
    if s == [] then Truncated
    else if s[0] < 0x80 then Parsed(s[0], 1)
    else
      match DecodeVarInt(s[1..])
      case Truncated => Truncated
      case Parsed(v, n) => Parsed(s[0] - 0x80 + 0x80 * v, n + 1)
  }

  /** The varint as the decoder sees it: 64 bits wide. */
  function ParsedVarInt(s: seq<byte>): VarIntResult {
    match DecodeVarInt(s)
    case Truncated => Truncated
    case Parsed(v, n) => Parsed(v % TWO_TO_THE_64, n)
  }

  method WriteVarInt(value: nat) returns (target: seq<byte>)
    ensures target == VarInt(value)
  {
    target := [];
    var rest := value;
    while rest >= 0x80
      invariant target + VarInt(rest) == VarInt(value)
    {
      target := target + [0x80 + rest % 0x80];
      rest := rest / 0x80;
    }
    target := target + [rest];
  }

  /** `value` shifted left by `groups` groups of seven bits. */
  function Shifted(value: nat, groups: nat): nat
    decreases groups
  {
    if groups == 0 then value else Shifted(0x80 * value, groups - 1)
  }

  lemma {:induction false} ShiftedSum(a: nat, b: nat, groups: nat)
    ensures Shifted(a + b, groups) == Shifted(a, groups) + Shifted(b, groups)
    decreases groups
  {
    if groups > 0 {
      ShiftedSum(0x80 * a, 0x80 * b, groups - 1);
    }
  }

  /** The varint whose first `n` groups add up to `sum` and whose other groups are `rest`. */
  function Joined(sum: nat, n: nat, rest: VarIntResult): VarIntResult {
    match rest
    case Truncated => Truncated
    case Parsed(v, k) => Parsed(sum + Shifted(v, n), n + k)
  }

  lemma {:induction false} JoinedStep(sum: nat, n: nat, s: seq<byte>)
    requires s != [] && 0x80 <= s[0]
    ensures Joined(sum, n, DecodeVarInt(s)) == Joined(sum + Shifted(s[0] - 0x80, n), n + 1, DecodeVarInt(s[1..]))
  {
    if DecodeVarInt(s[1..]).Parsed? {
      ShiftedSum(s[0] - 0x80, 0x80 * DecodeVarInt(s[1..]).value, n);
    }
  }

  lemma {:induction false} WrapSum(a: nat, b: nat)
    ensures (a % TWO_TO_THE_64 + b) % TWO_TO_THE_64 == (a + b) % TWO_TO_THE_64
  {
  }

  /** Reads one varint from the front of `s`. A varint that runs off the end yields value 0 and
      consumes nothing. Bits shifted beyond the 64th are lost. */
  method ParseVarInt(s: seq<byte>) returns (value: nat, next: nat)
    ensures match DecodeVarInt(s)
            case Truncated => value == 0 && next == 0
            case Parsed(v, n) => value == v % TWO_TO_THE_64 && next == n
  {
    value, next := 0, 0;
    ghost var sum: nat := 0;
    assert s[0..] == s;
    while true
      invariant next <= |s| && value == sum % TWO_TO_THE_64
      invariant DecodeVarInt(s) == Joined(sum, next, DecodeVarInt(s[next..]))
      decreases |s| - next
    {
      if next == |s| {
        value, next := 0, 0;
        return;
      }
      ghost var rest := s[next..];
      var b := s[next];
      var group := Shifted(if b < 0x80 then b else b - 0x80, next);
      WrapSum(sum, group);
      value := (value + group) % TWO_TO_THE_64;
      next := next + 1;
      if b < 0x80 {
        return;
      }
      JoinedStep(sum, next - 1, rest);
      assert rest[1..] == s[next..];
      sum := sum + group;
    }
  }

  /** Decoding undoes encoding, whatever follows the varint. */
  lemma {:induction false} VarIntRoundTrip(value: nat, rest: seq<byte>)
    ensures DecodeVarInt(VarInt(value) + rest) == Parsed(value, |VarInt(value)|)
    decreases value
  {
    var s := VarInt(value) + rest;
    if value >= 0x80 {
      VarIntRoundTrip(value / 0x80, rest);
      assert s[1..] == VarInt(value / 0x80) + rest;
    }
  }

  // ---- The redundant varint that backfills a reserved length ----------------------------------

  /** Four bytes, the first three with the continuation bit set whatever the value. */
  function RedundantVarInt(value: nat): (r: seq<byte>)
    ensures |r| == MESSAGE_LENGTH_FIELD_SIZE
  {
    [0x80 + value % 0x80,
     0x80 + value / 0x80 % 0x80,
     0x80 + value / 0x80 / 0x80 % 0x80,
     value / 0x80 / 0x80 / 0x80 % 0x100]
  }

  /** Overwrites the four reserved bytes at `pos`, touching nothing else. */
  method WriteRedundantVarInt(value: nat, buf: array<byte>, pos: nat)
    requires pos + MESSAGE_LENGTH_FIELD_SIZE <= buf.Length
    modifies buf
    ensures buf[..] == old(buf[..pos]) + RedundantVarInt(value) + old(buf[pos + MESSAGE_LENGTH_FIELD_SIZE..])
  {
    var rest := value;
    var i := 0;
    while i < MESSAGE_LENGTH_FIELD_SIZE
      invariant 0 <= i <= MESSAGE_LENGTH_FIELD_SIZE
      invariant rest == if i == 0 then value else if i == 1 then value / 0x80 else if i == 2 then value / 0x80 / 0x80
                        else if i == 3 then value / 0x80 / 0x80 / 0x80 else value / 0x80 / 0x80 / 0x80 / 0x80
      invariant forall k :: 0 <= k < i ==> buf[pos + k] == RedundantVarInt(value)[k]
      invariant forall k :: 0 <= k < buf.Length && !(pos <= k < pos + i) ==> buf[k] == old(buf[k])
    {
      buf[pos + i] := if i < MESSAGE_LENGTH_FIELD_SIZE - 1 then 0x80 + rest % 0x80 else rest % 0x100;
      rest := rest / 0x80;
      i := i + 1;
    }
    assert buf[pos..pos + 4] == RedundantVarInt(value);
    assert buf[..] == buf[..pos] + buf[pos..pos + 4] + buf[pos + 4..];
  }

  /** One more continuation byte in front of a varint. */
  lemma {:induction false} VarIntCons(b: byte, s: seq<byte>)
    requires 0x80 <= b
    ensures DecodeVarInt([b] + s) == match DecodeVarInt(s)
                                     case Truncated => Truncated
                                     case Parsed(v, n) => Parsed(b - 0x80 + 0x80 * v, n + 1)
  {
  }

  lemma {:induction false} VarIntLast(b: byte, s: seq<byte>)
    requires b < 0x80
    ensures DecodeVarInt([b] + s) == Parsed(b, 1)
  {
  }

  /** Every length a nested message may have is read back exactly, by the same decoder that reads
      canonical varints. The four bytes hold 28 bits: one value more and the round trip is lost. */
  lemma {:induction false} RedundantVarIntRoundTrip(value: nat, rest: seq<byte>)
    requires value < TWO_TO_THE_32
    ensures DecodeVarInt(RedundantVarInt(value) + rest) == Parsed(value, MESSAGE_LENGTH_FIELD_SIZE)
            <==> value <= MAX_MESSAGE_LENGTH
  {
    hide DecodeVarInt;
    var b := RedundantVarInt(value);
    var s3 := [b[3]] + rest;
    var s2 := [b[2]] + s3;
    var s1 := [b[1]] + s2;
    assert b + rest == [b[0]] + s1;
    VarIntCons(b[2], s3);
    VarIntCons(b[1], s2);
    VarIntCons(b[0], s1);
    if b[3] < 0x80 {
      VarIntLast(b[3], rest);
    } else {
      VarIntCons(b[3], rest);
    }
  }

  // ---- Little-endian fixed-width integers ---------------------------------------------------

  function LittleEndian(value: nat, width: nat): (r: seq<byte>)
    ensures |r| == width
    decreases width
  {
    if width == 0 then [] else [value % 0x100] + LittleEndian(value / 0x100, width - 1)
  }

  function FromLittleEndian(s: seq<byte>): nat {
    if s == [] then 0 else s[0] + 0x100 * FromLittleEndian(s[1..])
  }

  function Pow256(n: nat): nat {
    if n == 0 then 1 else 0x100 * Pow256(n - 1)
  }

  lemma {:induction false} LittleEndianRoundTrip(value: nat, width: nat)
    requires value < Pow256(width)
    ensures FromLittleEndian(LittleEndian(value, width)) == value
    decreases width
  {
    if width > 0 {
      LittleEndianRoundTrip(value / 0x100, width - 1);
      assert LittleEndian(value, width)[1..] == LittleEndian(value / 0x100, width - 1);
    }
  }

  lemma {:induction false} Pow256Values()
    ensures Pow256(4) == TWO_TO_THE_32 && Pow256(8) == TWO_TO_THE_64
  {
  }
}
