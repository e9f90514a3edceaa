/** Bytes, big-endian fields and two's-complement 32-bit arithmetic, written out over `int`. */
module Bytes {
  type byte = b: int | 0 <= b < 256

  const TWO_32 := 0x1_0000_0000
  const TWO_64 := 0x1_0000_0000_0000_0000

  type int32 = x: int | -0x8000_0000 <= x < 0x8000_0000

  /** The int32 that Go keeps of an exact result: 2^32 is added or taken away until it fits. */
  function Wrap32(x: int): (r: int32)
    decreases if x >= 0x8000_0000 then x else if x < -0x8000_0000 then -x else 0
  {
    if x >= 0x8000_0000 then Wrap32(x - 0x1_0000_0000)
    else if x < -0x8000_0000 then Wrap32(x + 0x1_0000_0000)
    else x
  }

  /** x and y leave the same 32-bit word. */
  ghost predicate Congruent(x: int, y: int) {
    exists k: int :: x == y + 0x1_0000_0000 * k
  }

  lemma {:induction false} WrapIsCongruent(x: int)
    ensures Congruent(Wrap32(x), x) && Congruent(x, Wrap32(x))
    decreases if x >= 0x8000_0000 then x else if x < -0x8000_0000 then -x else 0
  {
    var step := if x >= 0x8000_0000 then -1 else if x < -0x8000_0000 then 1 else 0;
    var k: int := 0;
    if step != 0 {
      WrapIsCongruent(x + 0x1_0000_0000 * step);
      k :| Wrap32(x + 0x1_0000_0000 * step) == x + 0x1_0000_0000 * step + 0x1_0000_0000 * k;
    }
    assert Wrap32(x) == x + 0x1_0000_0000 * (k + step);
    assert x == Wrap32(x) + 0x1_0000_0000 * -(k + step);
  }

  /** An int32 congruent to x is the wrap of x. */
  lemma WrapUnique(x: int, r: int32)
    requires Congruent(r, x)
    ensures Wrap32(x) == r
  {
    WrapIsCongruent(x);
    var k: int :| r == x + 0x1_0000_0000 * k;
    var l: int :| Wrap32(x) == x + 0x1_0000_0000 * l;
    assert -0x1_0000_0000 < 0x1_0000_0000 * (k - l) < 0x1_0000_0000;
  }

  /** Congruent numbers wrap to the same int32. */
  lemma WrapCongruent(x: int, y: int)
    requires Congruent(x, y)
    ensures Wrap32(x) == Wrap32(y)
  {
    WrapIsCongruent(y);
    var k: int :| x == y + 0x1_0000_0000 * k;
    var l: int :| Wrap32(y) == y + 0x1_0000_0000 * l;
    assert Wrap32(y) == x + 0x1_0000_0000 * (l - k);
    WrapUnique(x, Wrap32(y));
  }

  lemma CongruentSum(a: int, b: int, c: int, d: int)
    requires Congruent(a, b) && Congruent(c, d)
    ensures Congruent(a + c, b + d) && Congruent(a - c, b - d)
  {
    var k: int :| a == b + 0x1_0000_0000 * k;
    var l: int :| c == d + 0x1_0000_0000 * l;
    assert a + c == b + d + 0x1_0000_0000 * (k + l);
    assert a - c == b - d + 0x1_0000_0000 * (k - l);
  }

  lemma CongruentSelf(a: int)
    ensures Congruent(a, a)
  {
    assert a == a + 0x1_0000_0000 * 0;
  }

  /** A wrapped difference can be taken of wrapped operands. */
  lemma WrapOfWraps(a: int, b: int)
    ensures Wrap32(Wrap32(a) - Wrap32(b)) == Wrap32(a - b)
    ensures Wrap32(Wrap32(a) + Wrap32(b)) == Wrap32(a + b)
    ensures Wrap32(a - Wrap32(b)) == Wrap32(a - b)
  {
    hide Congruent, Wrap32;
    WrapIsCongruent(a);
    WrapIsCongruent(b);
    CongruentSum(Wrap32(a), a, Wrap32(b), b);
    WrapCongruent(Wrap32(a) - Wrap32(b), a - b);
    WrapCongruent(Wrap32(a) + Wrap32(b), a + b);
    CongruentSelf(a);
    CongruentSum(a, a, Wrap32(b), b);
    WrapCongruent(a - Wrap32(b), a - b);
  }

  function U16(s: seq<byte>): (n: nat)
    requires |s| == 2
    ensures n < 0x1_0000
  {
    (s[0] as int) * 0x100 + s[1] as int
  }

  function U24(s: seq<byte>): (n: nat)
    requires |s| == 3
    ensures n < 0x100_0000
  {
    (s[0] as int) * 0x1_0000 + U16(s[1..])
  }

  function U32(s: seq<byte>): (n: nat)
    requires |s| == 4
    ensures n < TWO_32
  {
    (s[0] as int) * 0x100_0000 + U24(s[1..])
  }

  function PutU16(n: nat): (s: seq<byte>)
    requires n < 0x1_0000
    ensures |s| == 2 && U16(s) == n
  {
    [n / 0x100, n % 0x100]
  }

  function PutU24(n: nat): (s: seq<byte>)
    requires n < 0x100_0000
    ensures |s| == 3 && U24(s) == n
  {
    var s := [n / 0x1_0000] + PutU16(n % 0x1_0000);
    assert s[1..] == PutU16(n % 0x1_0000);
    s
  }

  /** The four big-endian bytes of a 32-bit word. */
  function PutU32(n: nat): (s: seq<byte>)
    requires n < TWO_32
    ensures |s| == 4 && U32(s) == n
  {
    var s := [n / 0x100_0000] + PutU24(n % 0x100_0000);
    assert s[1..] == PutU24(n % 0x100_0000);
    s
  }

  /** Most significant byte first. */
  function BigEndian(s: seq<byte>): nat {
    if s == [] then 0 else BigEndian(s[..|s| - 1]) * 0x100 + s[|s| - 1] as int
  }

  lemma BigEndianFirst(s: seq<byte>, weight: nat)
    requires 0 < |s| <= 4
    requires weight == (if |s| == 1 then 1 else if |s| == 2 then 0x100 else if |s| == 3 then 0x1_0000 else 0x100_0000)
    ensures BigEndian(s) == s[0] as int * weight + BigEndian(s[1..])
  {
    if |s| > 1 {
      BigEndianFirst(s[..|s| - 1], weight / 0x100);
      assert s[..|s| - 1][1..] == s[1..][..|s| - 2];
    } else {
      assert s[..0] == [];
    }
  }

  /** The fixed-width readers read big-endian numbers. */
  lemma ReadsBigEndian(s: seq<byte>)
    ensures |s| == 2 ==> U16(s) == BigEndian(s)
    ensures |s| == 3 ==> U24(s) == BigEndian(s)
    ensures |s| == 4 ==> U32(s) == BigEndian(s)
  {
    if |s| == 4 {
      BigEndianFirst(s, 0x100_0000);
      ReadsBigEndian(s[1..]);
    } else if |s| == 3 {
      BigEndianFirst(s, 0x1_0000);
      ReadsBigEndian(s[1..]);
    } else if |s| == 2 {
      BigEndianFirst(s, 0x100);
      BigEndianFirst(s[1..], 1);
      assert s[1..][1..] == [];
    }
  }
}
