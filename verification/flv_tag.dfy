/** FLV tags: how one is written, how a byte stream is walked tag by tag, and that the walk undoes the writing. */
module FlvTag {
  import opened Bytes
  import opened Collections

  const AUDIO: byte := 8
  const VIDEO: byte := 9

  const PREV_TAG_SIZE := 4
  const TAG_HEADER := 11
  const FLV_HEADER := 9
  /** PreviousTagSize and tag header: nothing can be parsed below this many bytes. */
  const MIN_ENTRY := PREV_TAG_SIZE + TAG_HEADER
  const MAX_TAG_DATA := 12 * 1024 * 1024

  /** A tag body: its length fits the 24-bit DataSize field. */
  type Body = d: seq<byte> | |d| < 0x100_0000

  type StreamId = s: seq<byte> | |s| == 3 witness [0, 0, 0]

  /** A complete tag. DataSize is the length of the body for every tag the parser makes. */
  datatype Tag = Tag(kind: byte, timestamp: int32, stream: StreamId, data: Body)

  /** The timestamp as the 32-bit word on the wire. */
  function Word(t: int32): (n: nat)
    ensures n < TWO_32
  {
    if t < 0 then t + TWO_32 else t
  }

  /** Tag header, body and trailing PreviousTagSize. */
  function TagBytes(t: Tag): (b: seq<byte>)
    ensures |b| == TAG_HEADER + |t.data| + PREV_TAG_SIZE
  {
    TagCore(t) + PutU32(TAG_HEADER + |t.data|)
  }

  /** Tag header and body. Bytes 4..7 hold the low 24 bits of the timestamp, byte 7 its high 8 bits. */
  function TagCore(t: Tag): (b: seq<byte>)
    ensures |b| == TAG_HEADER + |t.data|
  {
    var w := Word(t.timestamp);
    [t.kind] + PutU24(|t.data|) + PutU24(w % 0x100_0000) + [w / 0x100_0000] + t.stream + t.data
  }

  /** Where each field of a written tag stands. */
  lemma CoreFields(t: Tag)
    ensures var c, w := TagCore(t), Word(t.timestamp);
      c[0] == t.kind && c[1..4] == PutU24(|t.data|) && c[4..7] == PutU24(w % 0x100_0000) &&
      c[7] == w / 0x100_0000 && c[8..11] == t.stream && c[TAG_HEADER..] == t.data
  {
  }

  /** The fields of a written tag, byte by byte (Annex E.4.1): type, size, the low three bytes of the timestamp and then
      its high one, stream, body, and the PreviousTagSize behind it. */
  lemma TagLayout(t: Tag)
    ensures var b, n := TagBytes(t), |t.data|;
      && b[0] == t.kind && BigEndian(b[1..4]) == n
      && b[7] as int * 0x100_0000 + BigEndian(b[4..7])
         == (if t.timestamp < 0 then t.timestamp + TWO_32 else t.timestamp)
      && b[8..11] == t.stream && b[11..11 + n] == t.data && BigEndian(b[11 + n..]) == 11 + n && |b| == 15 + n
  {
    hide PutU24, PutU32, U24, U32, BigEndian;
    var b, c, n := TagBytes(t), TagCore(t), |t.data|;
    CoreFields(t);
    assert b[1..4] == c[1..4] && b[4..7] == c[4..7] && b[8..11] == c[8..11];
    assert b[11..11 + n] == c[TAG_HEADER..] && b[11 + n..] == PutU32(TAG_HEADER + n);
    ReadsBigEndian(b[1..4]);
    ReadsBigEndian(b[4..7]);
    ReadsBigEndian(b[11 + n..]);
  }

  function Print(ts: seq<Tag>): seq<byte> {
    if ts == [] then [] else TagBytes(ts[0]) + Print(ts[1..])
  }

  lemma {:induction false} PrintAppend(a: seq<Tag>, b: seq<Tag>)
    ensures Print(a + b) == Print(a) + Print(b)
  {
    hide TagBytes;
    if a == [] {
      assert a + b == b;
    } else {
      PrintAppend(a[1..], b);
      assert (a + b)[0] == a[0] && (a + b)[1..] == a[1..] + b;
      Associate(TagBytes(a[0]), Print(a[1..]), Print(b));
    }
  }

  /** The claimed body length of the tag whose PreviousTagSize starts `buf`. */
  function Claim(buf: seq<byte>): (n: nat)
    requires |buf| >= MIN_ENTRY
    ensures n < 0x100_0000
  {
    U24(buf[PREV_TAG_SIZE + 1..PREV_TAG_SIZE + 4])
  }

  predicate Complete(buf: seq<byte>) {
    |buf| >= MIN_ENTRY && |buf| >= MIN_ENTRY + Claim(buf)
  }

  /** The tag behind the PreviousTagSize that starts `buf`. */
  function Head(buf: seq<byte>): Tag
    requires Complete(buf)
  {
    var h := buf[PREV_TAG_SIZE..MIN_ENTRY];
    var w := (h[7] as int) * 0x100_0000 + U24(h[4..7]);
    Tag(h[0], if w < 0x8000_0000 then w else w - TWO_32, h[8..11], buf[MIN_ENTRY..MIN_ENTRY + Claim(buf)])
  }

  function Tail(buf: seq<byte>): (r: seq<byte>)
    requires Complete(buf)
    ensures |r| < |buf|
  {
    buf[MIN_ENTRY + Claim(buf)..]
  }

  /** All complete tags of `buf`, each behind its PreviousTagSize, in order. */
  function Tags(buf: seq<byte>): seq<Tag>
    decreases |buf|
  {
    if Complete(buf) then [Head(buf)] + Tags(Tail(buf)) else []
  }

  /** What is left once the complete tags are consumed. */
  function Rest(buf: seq<byte>): (r: seq<byte>)
    ensures !Complete(r)
    decreases |buf|
  {
    if Complete(buf) then Rest(Tail(buf)) else buf
  }

  /** The PreviousTagSize fields in front of the complete tags, and the one that ends the stream. */
  function PrevSizes(buf: seq<byte>): seq<nat>
    decreases |buf|
  {
    if |buf| < PREV_TAG_SIZE then []
    else [U32(buf[..PREV_TAG_SIZE])] + (if Complete(buf) then PrevSizes(Tail(buf)) else [])
  }

  /** Bytes that arrive later do not change a tag that is already complete. */
  lemma HeadAppend(a: seq<byte>, b: seq<byte>)
    requires Complete(a)
    ensures Complete(a + b) && Head(a + b) == Head(a) && Tail(a + b) == Tail(a) + b
  {
    assert (a + b)[PREV_TAG_SIZE + 1..PREV_TAG_SIZE + 4] == a[PREV_TAG_SIZE + 1..PREV_TAG_SIZE + 4];
    assert (a + b)[PREV_TAG_SIZE..MIN_ENTRY] == a[PREV_TAG_SIZE..MIN_ENTRY];
    assert (a + b)[MIN_ENTRY..MIN_ENTRY + Claim(a)] == a[MIN_ENTRY..MIN_ENTRY + Claim(a)];
  }

  /** Parsing in two steps is parsing at once: the core of independence from how the stream is cut. */
  lemma {:induction false} ParseAppend(a: seq<byte>, b: seq<byte>)
    ensures Tags(a + b) == Tags(a) + Tags(Rest(a) + b)
    ensures Rest(a + b) == Rest(Rest(a) + b)
    decreases |a|
  {
    if Complete(a) {
      HeadAppend(a, b);
      ParseAppend(Tail(a), b);
    }
  }

  /** The parser reads back a written tag, whatever PreviousTagSize stands before it. */
  lemma HeadOfPrinted(prev: seq<byte>, t: Tag, more: seq<byte>)
    requires |prev| == PREV_TAG_SIZE
    ensures var b := prev + TagBytes(t) + more;
      Complete(b) && Claim(b) == |t.data| && Head(b) == t && Tail(b) == PutU32(TAG_HEADER + |t.data|) + more
  {
    var b := prev + TagBytes(t) + more;
    CoreFields(t);
    assert b[PREV_TAG_SIZE + 1..PREV_TAG_SIZE + 4] == TagCore(t)[1..4];
    var h := b[PREV_TAG_SIZE..MIN_ENTRY];
    assert h == TagCore(t)[..TAG_HEADER];
    assert h[4..7] == TagCore(t)[4..7];
    assert h[8..11] == TagCore(t)[8..11];
    assert b[MIN_ENTRY..MIN_ENTRY + |t.data|] == TagCore(t)[TAG_HEADER..];
    assert b[MIN_ENTRY + |t.data|..] == PutU32(TAG_HEADER + |t.data|) + more;
  }

  /** The PreviousTagSize bytes after the last of `ts`. */
  function LastPrev(prev: seq<byte>, ts: seq<Tag>): (r: seq<byte>)
    requires |prev| == PREV_TAG_SIZE
    ensures |r| == PREV_TAG_SIZE
  {
    if ts == [] then prev else PutU32(TAG_HEADER + |ts[|ts| - 1].data|)
  }

  lemma HeadOfPrint(prev: seq<byte>, ts: seq<Tag>)
    requires |prev| == PREV_TAG_SIZE && ts != []
    ensures var b := prev + Print(ts);
      Complete(b) && Head(b) == ts[0] && Tail(b) == PutU32(TAG_HEADER + |ts[0].data|) + Print(ts[1..])
  {
    Associate(prev, TagBytes(ts[0]), Print(ts[1..]));
    HeadOfPrinted(prev, ts[0], Print(ts[1..]));
  }

  /** Round trip: printed tags parse back to themselves and only the final PreviousTagSize is left over. */
  lemma {:induction false} PrintParse(prev: seq<byte>, ts: seq<Tag>)
    requires |prev| == PREV_TAG_SIZE
    ensures Tags(prev + Print(ts)) == ts
    ensures Rest(prev + Print(ts)) == LastPrev(prev, ts)
    decreases |ts|
  {
    hide TagBytes, Tags, Rest, Head, Tail, Complete, Claim, PutU32;
    if ts == [] {
      assert prev + Print(ts) == prev;
      NoTagsInShort(prev);
    } else {
      HeadOfPrint(prev, ts);
      TagsOfComplete(prev + Print(ts));
      PrintParse(PutU32(TAG_HEADER + |ts[0].data|), ts[1..]);
      assert ts == [ts[0]] + ts[1..];
    }
  }

  lemma NoTagsInShort(buf: seq<byte>)
    requires |buf| < MIN_ENTRY
    ensures Tags(buf) == [] && Rest(buf) == buf
  {
  }

  lemma TagsOfComplete(buf: seq<byte>)
    requires Complete(buf)
    ensures Tags(buf) == [Head(buf)] + Tags(Tail(buf)) && Rest(buf) == Rest(Tail(buf))
  {
  }

  /** Every PreviousTagSize of a printed stream is 11 plus the body length of the tag before it. */
  lemma {:induction false} PrintedPrevSizes(prev: seq<byte>, ts: seq<Tag>)
    requires |prev| == PREV_TAG_SIZE
    ensures var p := PrevSizes(prev + Print(ts));
      |p| == |ts| + 1 && p[0] == U32(prev) && forall i :: 0 <= i < |ts| ==> p[i + 1] == TAG_HEADER + |ts[i].data|
    decreases |ts|
  {
    assert (prev + Print(ts))[..PREV_TAG_SIZE] == prev;
    if ts == [] {
      assert prev + Print(ts) == prev;
    } else {
      HeadOfPrint(prev, ts);
      PrintedPrevSizes(PutU32(TAG_HEADER + |ts[0].data|), ts[1..]);
    }
  }
}
