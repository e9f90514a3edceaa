/** Protocol-buffers wire format: varints, tags, length-delimited and fixed fields. */
module Protowire {
  import opened Bytes
  import opened Collections

  const TWO_63 := 0x8000_0000_0000_0000
  const TWO_61 := 0x2000_0000_0000_0000

  const WIRE_VARINT := 0
  const WIRE_FIXED64 := 1
  const WIRE_BYTES := 2
  const WIRE_FIXED32 := 5

  const VARINT_MAX := 10

  type uint64 = x: int | 0 <= x < TWO_64
  type FieldNumber = x: int | 0 <= x < TWO_61

  /** A value and the bytes after it. */
  datatype Read<T> = Read(value: T, rest: seq<byte>)

  datatype Tag = Tag(num: int, wire: int)

  function Int64(v: uint64): int {
    if v >= TWO_63 then v - TWO_64 else v
  }

  function Uint64(x: int): uint64
    requires -TWO_63 <= x < TWO_63
  {
    if x < 0 then x + TWO_64 else x
  }

  /** The base-128 number of at most k bytes, least significant first, that s starts with. */
  function ParseBase128(s: seq<byte>, k: nat): (r: Option<Read<nat>>)
    ensures r.Some? ==> |r.value.rest| < |s| && r.value.rest == s[|s| - |r.value.rest|..]
  {
    if k == 0 || s == [] then None
    else if s[0] < 128 then Some(Read(s[0] as int, s[1..]))
    else
      var more := ParseBase128(s[1..], k - 1);
      if more.None? then None else Some(Read(s[0] as int - 128 + 128 * more.value.value, more.value.rest))
  }

  /** Ten bytes are read at most, and bits beyond the 64th are lost. */
  function ParseVarint(s: seq<byte>): (r: Option<Read<uint64>>)
    ensures r.Some? ==> |r.value.rest| < |s| && r.value.rest == s[|s| - |r.value.rest|..]
  {
    var r := ParseBase128(s, VARINT_MAX);
    if r.None? then None else Some(Read(r.value.value % TWO_64, r.value.rest))
  }

  function ParseTag(s: seq<byte>): (r: Option<Read<Tag>>)
    ensures r.Some? ==> |r.value.rest| < |s|
  {
    var r := ParseVarint(s);
    if r.None? then None else Some(Read(Tag(r.value.value / 8, r.value.value % 8), r.value.rest))
  }

  function ParseBytes(s: seq<byte>): (r: Option<Read<seq<byte>>>)
    ensures r.Some? ==> |r.value.rest| < |s|
  {
    var r := ParseVarint(s);
    if r.None? || r.value.value > |r.value.rest| then None
    else Some(Read(r.value.rest[..r.value.value], r.value.rest[r.value.value..]))
  }

  /** Groups and the reserved wire types cannot be skipped. */
  function Skipped(s: seq<byte>, wire: int): (r: Option<seq<byte>>)
    ensures r.Some? ==> |r.value| <= |s|
  {
    if wire == WIRE_VARINT then
      var r := ParseVarint(s);
      if r.None? then None else Some(r.value.rest)
    else if wire == WIRE_FIXED64 then if |s| < 8 then None else Some(s[8..])
    else if wire == WIRE_BYTES then
      var r := ParseBytes(s);
      if r.None? then None else Some(r.value.rest)
    else if wire == WIRE_FIXED32 then if |s| < 4 then None else Some(s[4..])
    else None
  }

  function Varint(v: nat): (r: seq<byte>)
    ensures r != []
  {
    if v < 128 then [v as byte] else [(v % 128 + 128) as byte] + Varint(v / 128)
  }

  function LittleEndian(v: nat, k: nat): (r: seq<byte>)
    ensures |r| == k
  {
    if k == 0 then [] else [(v % 256) as byte] + LittleEndian(v / 256, k - 1)
  }

  datatype Field =
    | VarintField(num: FieldNumber, v: uint64)
    | Fixed64Field(num: FieldNumber, v: uint64)
    | BytesField(num: FieldNumber, bytes: seq<byte>)
    | Fixed32Field(num: FieldNumber, v32: uint64)

  function WireOf(f: Field): nat {
    if f.VarintField? then WIRE_VARINT
    else if f.Fixed64Field? then WIRE_FIXED64
    else if f.BytesField? then WIRE_BYTES
    else WIRE_FIXED32
  }

  function Payload(f: Field): seq<byte> {
    if f.VarintField? then Varint(f.v)
    else if f.Fixed64Field? then LittleEndian(f.v, 8)
    else if f.BytesField? then Varint(|f.bytes|) + f.bytes
    else LittleEndian(f.v32, 4)
  }

  function EncodeField(f: Field): seq<byte> {
    Varint(f.num * 8 + WireOf(f)) + Payload(f)
  }

  function Encode(fields: seq<Field>): seq<byte> {
    if fields == [] then [] else EncodeField(fields[0]) + Encode(fields[1..])
  }

  function Pow128(k: nat): (p: nat)
    ensures p > 0
  {
    if k == 0 then 1 else 128 * Pow128(k - 1)
  }

  lemma LastGroup(v: nat, k: nat, rest: seq<byte>)
    requires v < 128 && 0 < k
    ensures ParseBase128(Varint(v) + rest, k) == Some(Read(v, rest))
  {
    assert (Varint(v) + rest)[1..] == rest;
  }

  lemma FirstGroup(v: nat, k: nat, rest: seq<byte>)
    requires 128 <= v && 0 < k && ParseBase128(Varint(v / 128) + rest, k - 1) == Some(Read(v / 128, rest))
    ensures ParseBase128(Varint(v) + rest, k) == Some(Read(v, rest))
  {
    VarintStep(v);
    hide ParseBase128, Varint;
    var low: byte := v % 128 + 128;
    Associate([low], Varint(v / 128), rest);
    ParseStep(low, Varint(v / 128) + rest, k, v / 128, rest);
  }

  lemma VarintStep(v: nat)
    requires 128 <= v
    ensures Varint(v) == [(v % 128 + 128) as byte] + Varint(v / 128)
  {
  }

  lemma ParseStep(low: byte, s: seq<byte>, k: nat, high: nat, rest: seq<byte>)
    requires 128 <= low && 0 < k && ParseBase128(s, k - 1) == Some(Read(high, rest))
    ensures ParseBase128([low] + s, k) == Some(Read(low as int - 128 + 128 * high, rest))
  {
    assert ([low] + s)[1..] == s;
  }

  lemma {:induction false} Base128RoundTrip(v: nat, k: nat, rest: seq<byte>)
    requires 0 < k && v < Pow128(k)
    ensures ParseBase128(Varint(v) + rest, k) == Some(Read(v, rest))
    decreases k
  {
    hide *;
    if v < 128 {
      LastGroup(v, k, rest);
    } else {
      SmallerBase128(v, k);
      Base128RoundTrip(v / 128, k - 1, rest);
      FirstGroup(v, k, rest);
    }
  }

  lemma SmallerBase128(v: nat, k: nat)
    requires 128 <= v < Pow128(k)
    ensures 1 < k && v / 128 < Pow128(k - 1)
  {
    assert k > 0 && Pow128(k) == 128 * Pow128(k - 1);
  }

  /** Every uint64 is read back from its varint, and exactly its bytes are consumed. */
  lemma VarintRoundTrip(v: uint64, rest: seq<byte>)
    ensures ParseVarint(Varint(v) + rest) == Some(Read(v, rest))
  {
    hide Varint, ParseBase128, Pow128;
    TenBytesSuffice();
    Base128RoundTrip(v, VARINT_MAX, rest);
    Small(v);
  }

  lemma Small(v: uint64)
    ensures v % TWO_64 == v
  {
  }

  lemma TenBytesSuffice()
    ensures TWO_64 <= Pow128(VARINT_MAX)
  {
    assert Pow128(4) == 0x1000_0000;
    assert Pow128(8) == 0x100_0000_0000_0000;
  }

  lemma Int64RoundTrip(x: int)
    requires -TWO_63 <= x < TWO_63
    ensures Int64(Uint64(x)) == x
  {
  }

  lemma ParseBytesAfter(s: seq<byte>, n: nat, after: seq<byte>)
    requires n < TWO_64 && n <= |after| && ParseVarint(s) == Some(Read(n, after))
    ensures ParseBytes(s) == Some(Read(after[..n], after[n..]))
  {
    hide ParseVarint;
  }

  lemma BytesRoundTrip(bytes: seq<byte>, rest: seq<byte>)
    requires |bytes| < TWO_64
    ensures ParseBytes(Varint(|bytes|) + (bytes + rest)) == Some(Read(bytes, rest))
  {
    hide *;
    VarintRoundTrip(|bytes|, bytes + rest);
    ParseBytesAfter(Varint(|bytes|) + (bytes + rest), |bytes|, bytes + rest);
    TakeDrop(bytes, rest);
  }

  /** A length that Go can hold. */
  predicate Writable(f: Field) {
    && (f.BytesField? ==> |f.bytes| < TWO_63)
    && (f.Fixed32Field? ==> f.v32 < TWO_32)
  }

  /** The tag of a written field is read back, and any written field can be skipped. */
  lemma FieldRoundTrip(f: Field, rest: seq<byte>)
    requires Writable(f)
    ensures ParseTag(EncodeField(f) + rest) == Some(Read(Tag(f.num, WireOf(f)), Payload(f) + rest))
    ensures Skipped(Payload(f) + rest, WireOf(f)) == Some(rest)
    ensures f.VarintField? ==> ParseVarint(Payload(f) + rest) == Some(Read(f.v, rest))
    ensures f.BytesField? ==> ParseBytes(Payload(f) + rest) == Some(Read(f.bytes, rest))
  {
    TagRoundTrip(f, rest);
    hide Varint, ParseVarint, ParseBytes, LittleEndian, Skipped, ParseTag, EncodeField, Payload, WireOf;
    if f.VarintField? {
      VarintFieldRoundTrip(f, rest);
    } else if f.BytesField? {
      BytesFieldRoundTrip(f, rest);
    } else {
      FixedFieldIsSkipped(f, rest);
    }
  }

  lemma VarintFieldRoundTrip(f: Field, rest: seq<byte>)
    requires f.VarintField?
    ensures ParseVarint(Payload(f) + rest) == Some(Read(f.v, rest))
    ensures Skipped(Payload(f) + rest, WireOf(f)) == Some(rest)
  {
    hide Varint, ParseVarint, ParseBytes;
    VarintRoundTrip(f.v, rest);
  }

  lemma BytesFieldRoundTrip(f: Field, rest: seq<byte>)
    requires f.BytesField? && Writable(f)
    ensures ParseBytes(Payload(f) + rest) == Some(Read(f.bytes, rest))
    ensures Skipped(Payload(f) + rest, WireOf(f)) == Some(rest)
  {
    hide Varint, ParseVarint, ParseBytes;
    Associate(Varint(|f.bytes|), f.bytes, rest);
    BytesRoundTrip(f.bytes, rest);
  }

  lemma FixedFieldIsSkipped(f: Field, rest: seq<byte>)
    requires f.Fixed64Field? || f.Fixed32Field?
    ensures Skipped(Payload(f) + rest, WireOf(f)) == Some(rest)
  {
    hide Varint, ParseVarint, ParseBytes, LittleEndian;
    TakeDrop(Payload(f), rest);
  }

  lemma TagRoundTrip(f: Field, rest: seq<byte>)
    ensures ParseTag(EncodeField(f) + rest) == Some(Read(Tag(f.num, WireOf(f)), Payload(f) + rest))
  {
    hide Varint, ParseVarint, ParseBase128, LittleEndian, Payload;
    var tag := f.num * 8 + WireOf(f);
    assert EncodeField(f) + rest == Varint(tag) + (Payload(f) + rest);
    VarintRoundTrip(tag, Payload(f) + rest);
  }

  /** The tag of a rest of a message cannot be read exactly when no byte ends a varint within the first ten. */
  lemma NoTagExactly(s: seq<byte>)
    ensures ParseTag(s).None? <==> forall i :: 0 <= i < |s| && i < 10 ==> s[i] >= 128
  {
    NoBase128Exactly(s, VARINT_MAX);
  }

  lemma {:induction false} NoBase128Exactly(s: seq<byte>, k: nat)
    ensures ParseBase128(s, k).None? <==> forall i :: 0 <= i < |s| && i < k ==> s[i] >= 128
    decreases k
  {
    if k > 0 && s != [] {
      NoBase128Exactly(s[1..], k - 1);
      forall i | 0 <= i < |s[1..]| && i < k - 1
        ensures s[1..][i] == s[i + 1]
      {
      }
      if ParseBase128(s, k).None? {
        forall i | 0 <= i < |s| && i < k
          ensures s[i] >= 128
        {
          assert i > 0 ==> s[i] == s[1..][i - 1];
        }
      }
    }
  }

  /** The number of seven-bit groups, least significant first. */
  function GroupsValue(s: seq<byte>): nat {
    if s == [] then 0 else s[0] as int % 128 + 128 * GroupsValue(s[1..])
  }

  /** A varint as it stands on the wire: its groups give the value, all bytes but the last have the high bit, and the
      last group is not idle. */
  lemma {:induction false} VarintOnWire(v: nat)
    ensures var s := Varint(v);
      && GroupsValue(s) == v && s[|s| - 1] < 128
      && (forall i :: 0 <= i < |s| - 1 ==> s[i] >= 128)
      && (|s| > 1 ==> s[|s| - 1] > 0)
  {
    if v >= 128 {
      VarintOnWire(v / 128);
      VarintStep(v);
      assert Varint(v)[1..] == Varint(v / 128);
    } else {
      assert Varint(v)[1..] == [];
    }
  }

  /** A field on the wire: its key is the number and, in the low three bits, the wire type (0 varint, 1 64-bit, 2 length
      and bytes, 5 32-bit), and its payload has the width of the type. */
  lemma FieldOnWire(f: Field)
    requires Writable(f)
    ensures EncodeField(f)[TagSize(f)..] == Payload(f)
    ensures GroupsValue(EncodeField(f)[..TagSize(f)]) == f.num * 8 +
      (if f.VarintField? then 0 else if f.Fixed64Field? then 1 else if f.BytesField? then 2 else 5)
    ensures f.Fixed64Field? ==> |Payload(f)| == 8
    ensures f.Fixed32Field? ==> |Payload(f)| == 4
    ensures f.VarintField? ==> GroupsValue(Payload(f)) == f.v
    ensures f.BytesField? ==>
      exists length: seq<byte> :: length + f.bytes == Payload(f) && GroupsValue(length) == |f.bytes|
  {
    var tag := f.num * 8 + WireOf(f);
    VarintOnWire(tag);
    assert EncodeField(f)[..TagSize(f)] == Varint(tag) && EncodeField(f)[TagSize(f)..] == Payload(f);
    if f.VarintField? {
      VarintOnWire(f.v);
    } else if f.BytesField? {
      VarintOnWire(|f.bytes|);
      assert Varint(|f.bytes|) + f.bytes == Payload(f);
    }
    hide Varint, GroupsValue, LittleEndian;
  }

  /** Groups and reserved wire types cannot be skipped, whatever follows. */
  lemma ReservedIsRefused(s: seq<byte>, wire: int)
    requires wire != 0 && wire != 1 && wire != 2 && wire != 5
    ensures Skipped(s, wire).None?
  {
  }

  // ---- A message that is cut off ----

  lemma {:induction false} VarintBytes(v: nat)
    ensures forall i :: 0 <= i < |Varint(v)| - 1 ==> Varint(v)[i] >= 128
  {
    if v >= 128 {
      VarintStep(v);
      VarintBytes(v / 128);
    }
  }

  lemma VarintCut(v: nat, n: nat)
    requires n < |Varint(v)|
    ensures ParseVarint(Varint(v)[..n]).None?
  {
    VarintBytes(v);
    NoBase128Exactly(Varint(v)[..n], VARINT_MAX);
    hide ParseBase128, Varint;
  }

  lemma BytesCut(bytes: seq<byte>, n: nat)
    requires |bytes| < TWO_64 && n < |Varint(|bytes|) + bytes|
    ensures ParseBytes((Varint(|bytes|) + bytes)[..n]).None?
  {
    hide Varint, ParseVarint;
    var length := Varint(|bytes|);
    if n < |length| {
      VarintCut(|bytes|, n);
      assert (length + bytes)[..n] == length[..n];
    } else {
      VarintRoundTrip(|bytes|, bytes[..n - |length|]);
      assert (length + bytes)[..n] == length + bytes[..n - |length|];
    }
  }

  /** No reader gets past a payload whose end is missing. */
  lemma PayloadCut(f: Field, n: nat)
    requires Writable(f) && n < |Payload(f)|
    ensures Skipped(Payload(f)[..n], WireOf(f)).None?
    ensures f.VarintField? ==> ParseVarint(Payload(f)[..n]).None?
    ensures f.BytesField? ==> ParseBytes(Payload(f)[..n]).None?
  {
    hide Varint, ParseVarint, ParseBytes, LittleEndian;
    if f.VarintField? {
      VarintCut(f.v, n);
    } else if f.BytesField? {
      BytesCut(f.bytes, n);
    }
  }

  function TagSize(f: Field): nat {
    |Varint(f.num * 8 + WireOf(f))|
  }

  /** The first n bytes of a message end between two fields or before the last byte of a tag. */
  predicate OutsidePayload(fields: seq<Field>, n: nat) {
    if fields == [] then n == 0
    else
      var size := |EncodeField(fields[0])|;
      n < TagSize(fields[0]) || (size <= n && OutsidePayload(fields[1..], n - size))
  }

  /** How many fields the first n bytes hold whole. */
  function WholeFields(fields: seq<Field>, n: nat): (k: nat)
    ensures k <= |fields|
  {
    if fields == [] || n < |EncodeField(fields[0])| then 0
    else 1 + WholeFields(fields[1..], n - |EncodeField(fields[0])|)
  }

  lemma TagCut(f: Field, n: nat)
    requires n < TagSize(f)
    ensures n < |EncodeField(f)| && ParseTag(EncodeField(f)[..n]).None?
  {
    hide Varint, ParseVarint;
    VarintCut(f.num * 8 + WireOf(f), n);
    assert EncodeField(f)[..n] == Varint(f.num * 8 + WireOf(f))[..n];
  }

  lemma TagThenCut(f: Field, n: nat)
    requires TagSize(f) <= n < |EncodeField(f)|
    ensures n - TagSize(f) < |Payload(f)|
    ensures ParseTag(EncodeField(f)[..n]) == Some(Read(Tag(f.num, WireOf(f)), Payload(f)[..n - TagSize(f)]))
  {
    hide Varint, ParseVarint, Payload;
    var tag, rest := f.num * 8 + WireOf(f), Payload(f)[..n - TagSize(f)];
    assert EncodeField(f)[..n] == Varint(tag) + rest;
    VarintRoundTrip(tag, rest);
  }

  /** What a cut leaves of the first field and of the fields behind it. */
  lemma CutFirst(fields: seq<Field>, n: nat)
    requires fields != [] && n <= |Encode(fields)|
    ensures var size := |EncodeField(fields[0])|;
      if n < size then Encode(fields)[..n] == EncodeField(fields[0])[..n]
      else n - size <= |Encode(fields[1..])|
           && Encode(fields)[..n] == EncodeField(fields[0]) + Encode(fields[1..])[..n - size]
  {
    hide EncodeField;
    assert Encode(fields) == EncodeField(fields[0]) + Encode(fields[1..]);
  }

  class Writer {
    var buf: seq<byte>

    constructor ()
      ensures buf == []
    {
      buf := [];
    }

    method WriteVarint(v: uint64)
      modifies this
      ensures buf == old(buf) + Varint(v)
    {
      var x := v;
      while x >= 128
        invariant 0 <= x && buf + Varint(x) == old(buf) + Varint(v)
        decreases x
      {
        assert Varint(x) == [(x % 128 + 128) as byte] + Varint(x / 128);
        buf := buf + [(x % 128 + 128) as byte];
        x := x / 128;
      }
      buf := buf + [x as byte];
    }

    method WriteLittleEndian(v: uint64, k: nat)
      modifies this
      ensures buf == old(buf) + LittleEndian(v, k)
    {
      var x: nat := v;
      for i := 0 to k
        invariant buf + LittleEndian(x, k - i) == old(buf) + LittleEndian(v, k)
      {
        assert LittleEndian(x, k - i) == [(x % 256) as byte] + LittleEndian(x / 256, k - i - 1);
        buf := buf + [(x % 256) as byte];
        x := x / 256;
      }
    }

    method WriteField(f: Field)
      requires Writable(f)
      modifies this
      ensures buf == old(buf) + EncodeField(f)
    {
      hide Varint, LittleEndian;
      WriteVarint(f.num * 8 + WireOf(f));
      assert old(buf) + EncodeField(f) == buf + Payload(f);
      if f.VarintField? {
        WriteVarint(f.v);
      } else if f.Fixed64Field? {
        WriteLittleEndian(f.v, 8);
      } else if f.BytesField? {
        WriteVarint(|f.bytes|);
        buf := buf + f.bytes;
        assert buf == old(buf) + Varint(f.num * 8 + WireOf(f)) + (Varint(|f.bytes|) + f.bytes);
      } else {
        WriteLittleEndian(f.v32, 4);
      }
    }
  }

  /** The reader's loop: least significant group first, each weighing 128 times the one before it. */
  function Accumulate(s: seq<byte>, k: nat, sum: nat, weight: nat): Option<Read<nat>> {
    if k == 0 || s == [] then None
    else if s[0] < 128 then Some(Read(sum + s[0] as int * weight, s[1..]))
    else Accumulate(s[1..], k - 1, sum + (s[0] as int - 128) * weight, weight * 128)
  }

  lemma {:induction false} AccumulateIsBase128(s: seq<byte>, k: nat, sum: nat, weight: nat)
    ensures var r := ParseBase128(s, k);
      Accumulate(s, k, sum, weight)
        == if r.None? then None else Some(Read(sum + r.value.value * weight, r.value.rest))
    decreases k
  {
    if k > 0 && s != [] && s[0] >= 128 {
      AccumulateIsBase128(s[1..], k - 1, sum + (s[0] as int - 128) * weight, weight * 128);
      var more := ParseBase128(s[1..], k - 1);
      if more.Some? {
        Horner(s[0] as int - 128, more.value.value, weight);
      }
    }
  }

  lemma AccumulateEnds(s: seq<byte>, k: nat, sum: nat, weight: nat)
    requires k == 0 || s == []
    ensures Accumulate(s, k, sum, weight) == None
  {
  }

  lemma AccumulateStep(s: seq<byte>, k: nat, sum: nat, weight: nat)
    requires k > 0 && s != []
    ensures s[0] < 128 ==> Accumulate(s, k, sum, weight) == Some(Read(sum + s[0] as int % 128 * weight, s[1..]))
    ensures s[0] >= 128 ==>
      Accumulate(s, k, sum, weight) == Accumulate(s[1..], k - 1, sum + s[0] as int % 128 * weight, weight * 128)
  {
    assert s[0] >= 128 ==> s[0] as int % 128 == s[0] as int - 128;
  }

  lemma Horner(low: nat, high: nat, weight: nat)
    ensures (low + 128 * high) * weight == low * weight + high * (weight * 128)
  {
  }

  lemma AddModulo(sum: nat, x: nat)
    ensures (sum % TWO_64 + x) % TWO_64 == (sum + x) % TWO_64
  {
  }

  /** Walks a message one field at a time. After a failed read the position is not used again. */
  class Reader {
    const data: seq<byte>
    var pos: nat

    ghost predicate Valid()
      reads this
    {
      pos <= |data|
    }

    ghost function Rest(): seq<byte>
      requires Valid()
      reads this
    {
      data[pos..]
    }

    constructor (data: seq<byte>)
      ensures Valid() && Rest() == data
    {
      this.data, pos := data, 0;
    }

    method ReadVarint() returns (v: uint64, ok: bool)
      requires Valid()
      modifies this
      ensures Valid() && pos >= old(pos)
      ensures ok <==> ParseVarint(old(Rest())).Some?
      ensures ok ==> v == ParseVarint(old(Rest())).value.value && Rest() == ParseVarint(old(Rest())).value.rest
    {
      hide Accumulate, ParseBase128;
      var result: uint64, weight: nat, i := 0, 1, 0;
      ghost var start, sum: nat := Rest(), 0;
      AccumulateIsBase128(start, VARINT_MAX, 0, 1);
      while i < VARINT_MAX
        invariant Valid() && pos >= old(pos) && 0 <= i <= VARINT_MAX && result == sum % TWO_64
        invariant Accumulate(Rest(), VARINT_MAX - i, sum, weight) == Accumulate(start, VARINT_MAX, 0, 1)
      {
        if pos >= |data| {
          AccumulateEnds(Rest(), VARINT_MAX - i, sum, weight);
          return 0, false;
        }
        var b := data[pos];
        AccumulateStep(Rest(), VARINT_MAX - i, sum, weight);
        assert Rest()[0] == b && Rest()[1..] == data[pos + 1..];
        pos := pos + 1;
        var group := b as int % 128 * weight;
        AddModulo(sum, group);
        sum := sum + group;
        result := (result + group) % TWO_64;
        if b < 128 {
          return result, true;
        }
        weight := weight * 128;
        i := i + 1;
      }
      AccumulateEnds(Rest(), 0, sum, weight);
      return 0, false;
    }

    method TryReadTag() returns (num: int, wire: int, ok: bool)
      requires Valid()
      modifies this
      ensures Valid() && pos >= old(pos)
      ensures ok <==> ParseTag(old(Rest())).Some?
      ensures ok ==> Tag(num, wire) == ParseTag(old(Rest())).value.value && Rest() == ParseTag(old(Rest())).value.rest
    {
      num, wire := 0, 0;
      if pos >= |data| {
        return 0, 0, false;
      }
      var tag;
      tag, ok := ReadVarint();
      if ok {
        num, wire := tag / 8, tag % 8;
      }
    }

    method ReadBytes() returns (bytes: seq<byte>, ok: bool)
      requires Valid()
      modifies this
      ensures Valid() && pos >= old(pos)
      ensures ok <==> ParseBytes(old(Rest())).Some?
      ensures ok ==> bytes == ParseBytes(old(Rest())).value.value && Rest() == ParseBytes(old(Rest())).value.rest
    {
      var length;
      bytes := [];
      length, ok := ReadVarint();
      if !ok {
        return;
      }
      if length > |data| - pos {
        return [], false;
      }
      bytes := data[pos..pos + length];
      assert bytes == Rest()[..length] && data[pos + length..] == Rest()[length..];
      pos := pos + length;
    }

    method SkipField(wire: int) returns (ok: bool)
      requires Valid()
      modifies this
      ensures Valid() && pos >= old(pos)
      ensures ok <==> Skipped(old(Rest()), wire).Some?
      ensures ok ==> Rest() == Skipped(old(Rest()), wire).value
    {
      hide ParseVarint;
      if wire == WIRE_VARINT {
        var v;
        v, ok := ReadVarint();
      } else if wire == WIRE_FIXED64 {
        ok := Advance(8);
      } else if wire == WIRE_BYTES {
        var bytes;
        bytes, ok := ReadBytes();
      } else if wire == WIRE_FIXED32 {
        ok := Advance(4);
      } else {
        ok := false;
      }
    }

    method Advance(k: nat) returns (ok: bool)
      requires Valid()
      modifies this
      ensures Valid() && pos >= old(pos)
      ensures ok <==> k <= |old(Rest())|
      ensures ok ==> Rest() == old(Rest())[k..]
    {
      ok := |data| - pos >= k;
      if ok {
        assert data[pos + k..] == Rest()[k..];
        pos := pos + k;
      }
    }
  }
}
