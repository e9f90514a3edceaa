/** ISO base media boxes: reading one header, walking the top level, and finding a box in a file. */
module IsoBox {
  import opened Bytes

  const MOOF := 0x6d6f6f66
  const TRAF := 0x74726166
  const TFHD := 0x74666864
  const TFDT := 0x74666474
  const FTYP := 0x66747970
  const STYP := 0x73747970


  function U64(s: seq<byte>): (n: nat)
    requires |s| == 8
    ensures n < TWO_64
  {
    U32(s[..4]) * 0x1_0000_0000 + U32(s[4..])
  }

  function PutU64(n: nat): (s: seq<byte>)
    requires n < TWO_64
    ensures |s| == 8 && U64(s) == n
  {
    var s := PutU32(n / 0x1_0000_0000) + PutU32(n % 0x1_0000_0000);
    assert s[..4] == PutU32(n / 0x1_0000_0000) && s[4..] == PutU32(n % 0x1_0000_0000);
    s
  }

  datatype Header = Bad | Box(size: nat, kind: nat, headerLen: nat)

  /** The header at `offset`: a 32-bit size, a 64-bit size after 1, or up to the end of the data after 0. */
  function ReadHeader(data: seq<byte>, offset: nat): (h: Header)
    ensures h.Box? ==> h.headerLen >= 8 && h.headerLen <= h.size && offset + h.size <= |data|
  {
    if offset + 8 > |data| then Bad
    else
      var size32, kind := U32(data[offset..offset + 4]), U32(data[offset + 4..offset + 8]);
      if size32 == 1 && offset + 16 > |data| then Bad
      else
        var headerLen := if size32 == 1 then 16 else 8;
        var size := if size32 == 0 then |data| - offset
                    else if size32 == 1 then U64(data[offset + 8..offset + 16])
                    else size32;
        if size < headerLen || offset + size > |data| then Bad else Box(size, kind, headerLen)
  }

  lemma BigEndianSnoc(a: seq<byte>, x: byte)
    ensures BigEndian(a + [x]) == BigEndian(a) * 0x100 + x as int
  {
    assert (a + [x])[..|a|] == a;
  }

  lemma BigEndianPair(a: seq<byte>, b: seq<byte>)
    requires |b| == 4
    ensures BigEndian(a + b) == BigEndian(a) * 0x1_0000_0000 + BigEndian(b)
  {
    hide BigEndian;
    var none: seq<byte> := [];
    BigEndianSnoc(a, b[0]);
    BigEndianSnoc(a + [b[0]], b[1]);
    BigEndianSnoc(a + [b[0]] + [b[1]], b[2]);
    BigEndianSnoc(a + [b[0]] + [b[1]] + [b[2]], b[3]);
    assert a + b == a + [b[0]] + [b[1]] + [b[2]] + [b[3]];
    BigEndianSnoc(none, b[0]);
    BigEndianSnoc(none + [b[0]], b[1]);
    BigEndianSnoc(none + [b[0]] + [b[1]], b[2]);
    BigEndianSnoc(none + [b[0]] + [b[1]] + [b[2]], b[3]);
    assert b == none + [b[0]] + [b[1]] + [b[2]] + [b[3]];
    assert BigEndian(none) == 0 by {
      BigEndianNone();
    }
  }

  lemma BigEndianNone()
    ensures BigEndian([]) == 0
  {
  }

  lemma Reads64BigEndian(s: seq<byte>)
    requires |s| == 8
    ensures U64(s) == BigEndian(s)
  {
    hide BigEndian, U32;
    ReadsBigEndian(s[..4]);
    ReadsBigEndian(s[4..]);
    BigEndianPair(s[..4], s[4..]);
    assert s == s[..4] + s[4..];
  }

  /** The kinds are the four letters of the box names. */
  lemma KindsAreNames()
    ensures PutU32(MOOF) == ['m' as byte, 'o' as byte, 'o' as byte, 'f' as byte]
    ensures PutU32(TRAF) == ['t' as byte, 'r' as byte, 'a' as byte, 'f' as byte]
    ensures PutU32(TFHD) == ['t' as byte, 'f' as byte, 'h' as byte, 'd' as byte]
    ensures PutU32(TFDT) == ['t' as byte, 'f' as byte, 'd' as byte, 't' as byte]
    ensures PutU32(FTYP) == ['f' as byte, 't' as byte, 'y' as byte, 'p' as byte]
    ensures PutU32(STYP) == ['s' as byte, 't' as byte, 'y' as byte, 'p' as byte]
  {
  }

  // ---- Written headers ----

  /** How a box states its size (ISO/IEC 14496-12, section 4.2): in 32 bits, in 64 bits, or as reaching to the end. */
  datatype Form = Compact | Large | ToEnd

  function HeaderSize(form: Form): nat {
    if form.Large? then 16 else 8
  }

  /** A box with everything before and behind it. Only the last box may reach to the end. */
  predicate Fits(form: Form, bodySize: nat, behind: nat) {
    match form
    case Compact => 8 + bodySize < TWO_32
    case Large => 16 + bodySize < TWO_64
    case ToEnd => behind == 0
  }

  function WrittenHeader(form: Form, kind: nat, bodySize: nat): (b: seq<byte>)
    requires kind < TWO_32 && (form.ToEnd? || Fits(form, bodySize, 0))
    ensures |b| == HeaderSize(form)
  {
    match form
    case Compact => PutU32(8 + bodySize) + PutU32(kind)
    case Large => PutU32(1) + PutU32(kind) + PutU64(16 + bodySize)
    case ToEnd => PutU32(0) + PutU32(kind)
  }

  lemma HeaderParts(form: Form, kind: nat, bodySize: nat)
    requires kind < TWO_32 && (form.ToEnd? || Fits(form, bodySize, 0))
    ensures var h := WrittenHeader(form, kind, bodySize);
      && U32(h[..4]) == (match form case Compact => 8 + bodySize case Large => 1 case ToEnd => 0)
      && U32(h[4..8]) == kind && (form.Large? ==> U64(h[8..16]) == 16 + bodySize)
  {
    hide PutU32, PutU64, U32, U64;
    var h := WrittenHeader(form, kind, bodySize);
    match form
    case Compact => assert h[..4] == PutU32(8 + bodySize) && h[4..8] == PutU32(kind);
    case Large => assert h[..4] == PutU32(1) && h[4..8] == PutU32(kind) && h[8..16] == PutU64(16 + bodySize);
    case ToEnd => assert h[..4] == PutU32(0) && h[4..8] == PutU32(kind);
  }

  lemma SliceInside(pre: seq<byte>, h: seq<byte>, more: seq<byte>, i: nat, j: nat)
    requires i <= j <= |h|
    ensures (pre + h + more)[|pre| + i..|pre| + j] == h[i..j]
  {
  }

  /** Every written header is read back, in all three forms, wherever the box stands. */
  lemma HeaderRoundTrip(pre: seq<byte>, form: Form, kind: nat, body: seq<byte>, post: seq<byte>)
    requires kind < TWO_32 && Fits(form, |body|, |post|)
    ensures var d := pre + WrittenHeader(form, kind, |body|) + (body + post);
      ReadHeader(d, |pre|) == Box(HeaderSize(form) + |body|, kind, HeaderSize(form))
  {
    hide WrittenHeader, U32, U64;
    var h := WrittenHeader(form, kind, |body|);
    HeaderParts(form, kind, |body|);
    SliceInside(pre, h, body + post, 0, 4);
    SliceInside(pre, h, body + post, 4, 8);
    if form.Large? {
      SliceInside(pre, h, body + post, 8, 16);
    }
  }

  /** A box that claims more than there is, or less than its own header, is refused. */
  lemma BrokenHeaderIsBad(pre: seq<byte>, size: nat, rest: seq<byte>)
    requires size < TWO_32 && size != 0 && size != 1 && |rest| >= 4
    ensures ReadHeader(pre + PutU32(size) + rest, |pre|).Bad? <==> size < 8 || size > 4 + |rest|
  {
    hide PutU32;
    var d, n := pre + PutU32(size) + rest, |pre|;
    assert d[n..n + 4] == PutU32(size);
  }

  /** The kinds of the boxes a walk from `offset` steps over. */
  function Kinds(data: seq<byte>, offset: nat): seq<nat>
    decreases |data| - offset
  {
    if offset >= |data| || ReadHeader(data, offset).Bad? then []
    else
      var h := ReadHeader(data, offset);
      [h.kind] + Kinds(data, offset + h.size)
  }

  // ---- The same walk over a file ----

  datatype FileHeader = Eof | Invalid | Found(size: nat, kind: nat)

  /** The file reader checks in another order: short reads first, then the size against header and remainder. */
  function ReadFileHeader(file: seq<byte>, offset: nat): (h: FileHeader)
    ensures h.Found? ==> h.size >= 8
  {
    if offset + 8 > |file| then Eof
    else
      var size32, kind := U32(file[offset..offset + 4]), U32(file[offset + 4..offset + 8]);
      if size32 == 0 then Sized(|file| - offset, 8, |file| - offset, kind)
      else if size32 == 1 then
        if offset + 16 > |file| then Eof
        else Sized(U64(file[offset + 8..offset + 16]), 16, |file| - offset, kind)
      else Sized(size32, 8, |file| - offset, kind)
  }

  function Sized(size: nat, headerLen: nat, remain: nat, kind: nat): (h: FileHeader)
    ensures h.Found? <==> headerLen <= size <= remain
    ensures h.Found? ==> h.size == size && h.kind == kind
  {
    if size < headerLen then Invalid else if size > remain then Invalid else Found(size, kind)
  }

  /** Both readers accept the same headers and read them alike. */
  lemma ReadersAgree(data: seq<byte>, offset: nat)
    ensures ReadFileHeader(data, offset).Found? <==> ReadHeader(data, offset).Box?
    ensures var f, h := ReadFileHeader(data, offset), ReadHeader(data, offset);
      h.Box? ==> f.size == h.size && f.kind == h.kind
  {
  }

  /** The file search finds a kind exactly if the segment walk steps over a box of that kind. */
  method HasTopLevelBox(file: seq<byte>, kind: nat) returns (found: bool)
    ensures found <==> kind in Kinds(file, 0)
  {
    if |file| < 8 {
      return false;
    }
    var offset := 0;
    while offset < |file|
      invariant 0 <= offset <= |file|
      invariant kind in Kinds(file, 0) <==> kind in Kinds(file, offset)
    {
      ReadersAgree(file, offset);
      var h := ReadFileHeader(file, offset);
      if !h.Found? {
        return false;
      }
      if h.kind == kind {
        return true;
      }
      offset := offset + h.size;
    }
    return false;
  }
}
