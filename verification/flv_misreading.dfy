/** Which FLV streams are read right however they are cut: those of which no part is taken for a file header. */
module FlvMisreading {
  import opened Bytes
  import opened Collections
  import opened FlvTag
  import opened FlvTimestamp
  import opened FlvDedup
  import opened FlvFixer
  import opened FlvDetector
  import opened FlvDetection
  import opened FlvChunking
  import opened FlvRecording
  import opened FlvStream

  // ---- Behind a rotation ----

  /** Behind a rotation, a PreviousTagSize that starts with "FLV" is taken for a file header, and the tag behind it is
      lost. */
  lemma LaterHeaderLosesTag(st: State, t: Tag, c: byte)
    requires st.buffer == [] && t.data == []
    ensures var chunk := ['F' as byte, 'L' as byte, 'V' as byte, c] + Print([t]);
      Tags(chunk) == [t] && Handed(Rotated(st), chunk) == []
  {
    var prev: seq<byte> := ['F' as byte, 'L' as byte, 'V' as byte, c];
    PrintParse(prev, [t]);
    assert |Print([t])| == MIN_ENTRY by {
      assert Print([t]) == TagBytes(t) + Print([]) == TagBytes(t);
    }
    ShortBehindHeader(st, prev + Print([t]));
  }

  lemma ShortBehindHeader(st: State, chunk: seq<byte>)
    requires st.buffer == [] && FLV_HEADER <= |chunk| < FLV_HEADER + MIN_ENTRY && IsMagic(chunk)
    ensures Handed(Rotated(st), chunk) == []
  {
    assert st.buffer + chunk == chunk;
  }

  type PrevSize = p: seq<byte> | |p| == PREV_TAG_SIZE witness [0, 0, 0, 0]

  /** Behind a rotation every tag sequence is read behind this PreviousTagSize. */
  ghost predicate ReadsBehind(p: PrevSize) {
    forall st: State, ts: seq<Tag> :: st.buffer == [] ==> Handed(Rotated(st), p + Print(ts)) == ts
  }

  /** The exact condition on the PreviousTagSize at which a rotation falls. */
  lemma PrevSizeExactly(p: PrevSize)
    ensures ReadsBehind(p) <==> !IsMagic(p)
  {
    if IsMagic(p) {
      var st, t := FreshState(), Tag(VIDEO, 0, [0, 0, 0], []);
      LaterHeaderLosesTag(st, t, p[3]);
      assert p == ['F' as byte, 'L' as byte, 'V' as byte, p[3]];
      assert Handed(Rotated(st), p + Print([t])) != [t];
    } else {
      forall st: State, ts: seq<Tag> | st.buffer == []
        ensures Handed(Rotated(st), p + Print(ts)) == ts
      {
        ReadBehindPlain(st, p, ts);
      }
    }
  }

  lemma ReadBehindPlain(st: State, p: PrevSize, ts: seq<Tag>)
    requires st.buffer == [] && !IsMagic(p)
    ensures Handed(Rotated(st), p + Print(ts)) == ts
  {
    hide Tags, Print;
    PrintParse(p, ts);
    assert st.buffer + (p + Print(ts)) == p + Print(ts);
  }

  // ---- A whole recording ----

  /** At some chunk of a run the detector takes the first tag it gets for a file header. */
  predicate TakesTagForHeader(hash: Tag -> nat, max: nat, r: Recorder, chunks: seq<seq<byte>>)
    decreases |chunks|
  {
    chunks != [] && (
      || Mistakes(hash, r, chunks[0])
      || TakesTagForHeader(hash, max, Receive(hash, max, r, chunks[0]), chunks[1..]))
  }

  predicate Mistakes(hash: Tag -> nat, r: Recorder, chunk: seq<byte>) {
    && !r.aborted && chunk != [] && !Refused(r.fixer, chunk)
    && r.detector.pending == [] && StartsWithMagic(Output(hash, r.fixer, chunk))
  }

  lemma PlainIsNoMistake(hash: Tag -> nat, r: Recorder, chunk: seq<byte>)
    requires Plain(hash, r, chunk)
    ensures !Mistakes(hash, r, chunk)
  {
    var us := Repair(r.fixer.store, More(hash, r, chunk));
    RepairKeepsContent(r.fixer.store, More(hash, r, chunk));
    if us != [] {
      OutputHasNoMagic(us);
    }
    hide StartsWithMagic, Repair;
  }

  lemma {:induction false} PlainTakesNone(hash: Tag -> nat, max: nat, r: Recorder, chunks: seq<seq<byte>>)
    requires PlainTags(hash, max, r, chunks)
    ensures !TakesTagForHeader(hash, max, r, chunks)
    decreases |chunks|
  {
    hide Receive, Plain, Mistakes;
    if chunks != [] {
      PlainIsNoMistake(hash, r, chunks[0]);
      PlainTakesNone(hash, max, Receive(hash, max, r, chunks[0]), chunks[1..]);
    }
  }

  /** However the stream is cut, nothing but its own start is taken for a file header. */
  ghost predicate NeverMisread(hash: Tag -> nat, max: nat, stream: seq<byte>) {
    forall chunks :: Concat(chunks) == stream ==>
      !SkipsHeader(hash, max, Started(), chunks) && !TakesTagForHeader(hash, max, Started(), chunks)
  }

  // ---- Cutting a stream so that it is misread ----

  lemma FirstEntry(buf: seq<byte>, more: seq<byte>)
    requires Complete(buf)
    ensures var first := buf[..|buf| - |Tail(buf)|];
      buf == first + Tail(buf) && Tags(first + more) == [Head(buf)] + Tags(more) && Rest(first + more) == Rest(more)
  {
    var first := buf[..|buf| - |Tail(buf)|];
    assert first[PREV_TAG_SIZE + 1..PREV_TAG_SIZE + 4] == buf[PREV_TAG_SIZE + 1..PREV_TAG_SIZE + 4];
    assert buf == first + Tail(buf);
    HeadAppend(first, Tail(buf));
    HeadAppend(first, more);
    assert Tail(first) + more == more;
  }

  /** The stream up to its first tag that looks like a file header. */
  lemma {:induction false} FindLookalike(buf: seq<byte>) returns (a: seq<byte>, b: seq<byte>)
    requires exists t :: t in Tags(buf) && LooksLikeHeader(t)
    ensures buf == a + b && Rest(a) == [] && Complete(b) && LooksLikeHeader(Head(b))
    ensures forall t :: t in Tags(a) ==> !LooksLikeHeader(t)
    decreases |buf|
  {
    hide LooksLikeHeader;
    assert Complete(buf);
    if LooksLikeHeader(Head(buf)) {
      a, b := [], buf;
    } else {
      a, b := FindLookalike(Tail(buf));
      FirstEntry(buf, a);
      var first := buf[..|buf| - |Tail(buf)|];
      Associate(first, a, b);
      a := first + a;
    }
  }

  /** The stream up to a header behind tags among which a rotation may fall. */
  lemma {:induction false} FindHeader(seen: seq<Tag>, buf: seq<byte>) returns (a: seq<byte>, b: seq<byte>)
    requires !NoLaterHeader(seen, buf)
    ensures buf == a + b && Rest(a) == [] && |b| >= FLV_HEADER && IsMagic(b) && MayRotate(seen + Tags(a))
    decreases |buf|
  {
    hide MayRotate;
    if MayRotate(seen) && |buf| >= FLV_HEADER && IsMagic(buf) {
      a, b := [], buf;
      assert seen + Tags(a) == seen;
    } else {
      a, b := FindHeader(seen + [Head(buf)], Tail(buf));
      FirstEntry(buf, a);
      var first := buf[..|buf| - |Tail(buf)|];
      Associate(first, a, b);
      assert seen + [Head(buf)] + Tags(a) == seen + Tags(first + a);
      a := first + a;
    }
  }

  /** The stream is its file header, then a, then b, and the first cut is between a and b, at a tag boundary. */
  ghost predicate CutAt(stream: seq<byte>, a: seq<byte>, b: seq<byte>) {
    && |stream| >= FLV_HEADER && IsMagic(stream)
    && stream == stream[..FLV_HEADER] + a + b && Rest(a) == []
  }

  lemma CutOf(stream: seq<byte>, a: seq<byte>, b: seq<byte>)
    requires Accepts(FreshState(), stream) && TagStream(FreshState(), stream) == a + b
    requires Rest(a) == [] && |b| >= FLV_HEADER
    ensures CutAt(stream, a, b)
    ensures Concat([stream[..FLV_HEADER] + a, b]) == stream
    ensures Tags(TagStream(FreshState(), stream)) == Tags(a) + Tags(b)
  {
    ParseAppend(a, b);
    assert stream == stream[..FLV_HEADER] + stream[FLV_HEADER..];
    Associate(stream[..FLV_HEADER], a, b);
    var cs: seq<seq<byte>> := [stream[..FLV_HEADER] + a, b];
    assert cs[1..] == [b] && cs[1..][1..] == [];
    assert Concat(cs[1..]) == b + [] == b;
    assert Rest(a) + b == b;
  }

  /** The first chunk leaves nothing in the buffer and has handed over the tags of a, all of them kept. */
  lemma FirstChunk(hash: Tag -> nat, max: nat, stream: seq<byte>, a: seq<byte>, b: seq<byte>)
    requires CutAt(stream, a, b) && AllDifferent(hash, Tags(a) + Tags(b))
    ensures var c, r := stream[..FLV_HEADER] + a, Started();
      var next := Receive(hash, max, r, c);
      && !Refused(r.fixer, c) && !next.aborted && Given(r, c) == Tags(a) && More(hash, r, c) == Tags(a)
      && Output(hash, r.fixer, c) == Print(Repair(FRESH, Tags(a)))
      && Next(hash, max, r.fixer, c).buffer == []
      && (next.fixer == Next(hash, max, r.fixer, c) || next.fixer == Rotated(Next(hash, max, r.fixer, c)))
      && AllDifferent(hash, Tags(b)) && Unseen(hash, next.fixer.cache, Tags(b))
      && Next(hash, max, r.fixer, c).headerOk
  {
    var c, r := stream[..FLV_HEADER] + a, Started();
    assert r.fixer.buffer + c == c && c[FLV_HEADER..] == a && c[..3] == stream[..3];
    NextFields(hash, max, r.fixer, c);
    ReceiveFixer(hash, max, r, c);
    NothingSeen(hash, Tags(a) + Tags(b));
    ReceiveKeepsUnseen(hash, max, r, c, Tags(b));
    hide Next, Receive, Tags, AllDifferent, Unseen, Kept, Rotated, Print, Repair;
  }

  lemma TwoChunks(hash: Tag -> nat, max: nat, c: seq<byte>, b: seq<byte>)
    ensures var next := Receive(hash, max, Started(), c);
      && (!next.aborted && SkipsLaterHeader(next.fixer, b) ==> SkipsHeader(hash, max, Started(), [c, b]))
      && (Mistakes(hash, next, b) ==> TakesTagForHeader(hash, max, Started(), [c, b]))
  {
    hide Receive, Mistakes, SkipsLaterHeader;
    assert [c, b][1..] == [b];
  }

  /** Tags none of which looks like a file header leave the detector with nothing pending. */
  lemma FirstDetector(hash: Tag -> nat, max: nat, c: seq<byte>, ts: seq<Tag>)
    requires c != [] && !Refused(FreshState(), c) && Output(hash, FreshState(), c) == Print(Repair(FRESH, ts))
    requires forall t :: t in ts ==> !LooksLikeHeader(t)
    ensures var us, next := Repair(FRESH, ts), Receive(hash, max, Started(), c);
      && next.detector.pending == []
      && (FirstChange(Memory([], []), us) < |us| ==> next.fixer == Rotated(Next(hash, max, FreshState(), c)))
  {
    hide Next, LooksLikeHeader;
    var us := Repair(FRESH, ts);
    RepairKeepsContent(FRESH, ts);
    if us != [] {
      SameLook(ts[0], us[0]);
      DetectorOnOutput(Memory([], []), us);
    }
    hide Repair, Print, FirstChange, MemoryAfter, Detected, Reports, Refused, Output;
  }

  lemma SameLook(t: Tag, u: Tag)
    requires u.kind == t.kind && u.data == t.data
    ensures LooksLikeHeader(u) <==> LooksLikeHeader(t)
  {
  }

  lemma LookalikeIsMagic(t: Tag, more: seq<byte>)
    requires LooksLikeHeader(t)
    ensures StartsWithMagic(TagBytes(t) + more)
  {
    hide TagBytes;
    PrintedEntry(t, more);
    var b := TagBytes(t) + more;
    assert BodySize(b) == b[1] as int * 0x1_0000 + b[2] as int * 0x100 + b[3] as int;
  }

  /** A chunk whose first tag looks like a file header and is kept. */
  lemma LookalikeIsMistaken(hash: Tag -> nat, r: Recorder, b: seq<byte>)
    requires !r.aborted && r.fixer.buffer == [] && (r.fixer.headerOk || r.fixer.rotation) && r.detector.pending == []
    requires Complete(b) && LooksLikeHeader(Head(b)) && Unseen(hash, r.fixer.cache, Tags(b))
    requires !SkipsLaterHeader(r.fixer, b)
    ensures Mistakes(hash, r, b)
  {
    assert r.fixer.buffer + b == b;
    assert Handed(r.fixer, b) == Tags(b) && Tags(b)[0] == Head(b);
    FirstIsKept(hash, r.fixer.cache, Tags(b));
    var kept := Kept(hash, r.fixer.cache, Tags(b));
    hide Kept, Tags, Print, LooksLikeHeader, StartsWithMagic, TagBytes;
    var us := Repair(r.fixer.store, kept);
    RepairKeepsContent(r.fixer.store, kept);
    SameLook(kept[0], us[0]);
    LookalikeIsMagic(us[0], Print(us[1..]));
    PrintFirst(us);
  }

  lemma FirstIsKept(hash: Tag -> nat, c: Cache, ts: seq<Tag>)
    requires ts != [] && Unseen(hash, c, ts)
    ensures Kept(hash, c, ts) != [] && Kept(hash, c, ts)[0] == ts[0]
  {
  }

  lemma PrintFirst(us: seq<Tag>)
    requires us != []
    ensures Print(us) == TagBytes(us[0]) + Print(us[1..])
  {
  }

  lemma LookalikeMisread(hash: Tag -> nat, max: nat, stream: seq<byte>, a: seq<byte>, b: seq<byte>)
    requires CutAt(stream, a, b) && AllDifferent(hash, Tags(a) + Tags(b))
    requires (forall t :: t in Tags(a) ==> !LooksLikeHeader(t)) && Complete(b) && LooksLikeHeader(Head(b))
    ensures var cs := [stream[..FLV_HEADER] + a, b];
      SkipsHeader(hash, max, Started(), cs) || TakesTagForHeader(hash, max, Started(), cs)
  {
    var c := stream[..FLV_HEADER] + a;
    var next := Receive(hash, max, Started(), c);
    FirstChunk(hash, max, stream, a, b);
    FirstDetector(hash, max, c, Tags(a));
    TwoChunks(hash, max, c, b);
    hide Tags, Receive, Repair, Print, LooksLikeHeader, AllDifferent, Unseen, SkipsHeader, TakesTagForHeader, Next;
    if !SkipsLaterHeader(next.fixer, b) {
      LookalikeIsMistaken(hash, next, b);
    }
  }

  /** Two video headers that differ make the detector report a change. */
  lemma DifferentHeadersChange(ts: seq<Tag>)
    requires MayRotate(ts) && forall t :: t in ts ==> !LooksLikeHeader(t)
    ensures var us := Repair(FRESH, ts); FirstChange(Memory([], []), us) < |us|
  {
    hide LooksLikeHeader, Repair, FirstChange;
    var us, none := Repair(FRESH, ts), Memory([], []);
    RepairKeepsContent(FRESH, ts);
    var t, u :| t in ts && u in ts && IsHeaderTag(t) && IsHeaderTag(u) && t.data != u.data;
    var i :| 0 <= i < |ts| && ts[i] == t;
    var j :| 0 <= j < |ts| && ts[j] == u;
    assert IsHeaderTag(us[i]) && IsHeaderTag(us[j]) && us[i].data != us[j].data;
    FirstChangeMeans(none, us);
  }

  lemma HeaderMisread(hash: Tag -> nat, max: nat, stream: seq<byte>, a: seq<byte>, b: seq<byte>)
    requires CutAt(stream, a, b) && AllDifferent(hash, Tags(a) + Tags(b))
    requires forall t :: t in Tags(a) ==> !LooksLikeHeader(t)
    requires |b| >= FLV_HEADER && IsMagic(b) && MayRotate(Tags(a))
    ensures SkipsHeader(hash, max, Started(), [stream[..FLV_HEADER] + a, b])
  {
    var c := stream[..FLV_HEADER] + a;
    FirstChunk(hash, max, stream, a, b);
    FirstDetector(hash, max, c, Tags(a));
    DifferentHeadersChange(Tags(a));
    TwoChunks(hash, max, c, b);
    hide Tags, Receive, Repair, Print, LooksLikeHeader, AllDifferent, Unseen, SkipsHeader, TakesTagForHeader, Next;
    assert [] + b == b;
  }

  /** The exact condition: for a stream that has its header and in which no tag gets stuck, and with distinct
      signatures, no cutting of it makes the recording take anything else for a file header if and only if it is
      recordable. */
  lemma RecordableExactly(hash: Tag -> nat, max: nat, stream: seq<byte>)
    requires max >= MIN_ENTRY
    requires var body := TagStream(FreshState(), stream);
      Accepts(FreshState(), stream) && NeverStuck(body, max) && AllDifferent(hash, Tags(body))
    ensures NeverMisread(hash, max, stream) <==> Recordable(max, stream)
  {
    if Recordable(max, stream) {
      RecordableIsRead(hash, max, stream);
    } else {
      var cs := Misreading(hash, max, stream);
    }
  }

  lemma RecordableIsRead(hash: Tag -> nat, max: nat, stream: seq<byte>)
    requires max >= MIN_ENTRY && Recordable(max, stream)
    ensures NeverMisread(hash, max, stream)
  {
    hide Recordable, SkipsHeader, TakesTagForHeader, PlainTags, Record, AllGiven, Tags;
    forall chunks | Concat(chunks) == stream
      ensures !SkipsHeader(hash, max, Started(), chunks) && !TakesTagForHeader(hash, max, Started(), chunks)
    {
      StreamIsRead(hash, max, chunks);
      PlainTakesNone(hash, max, Started(), chunks);
    }
  }

  /** A cutting that is misread, for every other stream. */
  lemma Misreading(hash: Tag -> nat, max: nat, stream: seq<byte>) returns (cs: seq<seq<byte>>)
    requires var body := TagStream(FreshState(), stream);
      Accepts(FreshState(), stream) && NeverStuck(body, max) && AllDifferent(hash, Tags(body))
    requires !Recordable(max, stream)
    ensures Concat(cs) == stream
    ensures SkipsHeader(hash, max, Started(), cs) || TakesTagForHeader(hash, max, Started(), cs)
  {
    hide SkipsHeader, TakesTagForHeader, LooksLikeHeader, AllDifferent, MayRotate, NeverStuck;
    var body := TagStream(FreshState(), stream);
    var a, b;
    if exists t :: t in Tags(body) && LooksLikeHeader(t) {
      a, b := FindLookalike(body);
      CutOf(stream, a, b);
      LookalikeMisread(hash, max, stream, a, b);
    } else {
      a, b := FindHeader([], body);
      CutOf(stream, a, b);
      assert [] + Tags(a) == Tags(a);
      HeaderMisread(hash, max, stream, a, b);
    }
    cs := [stream[..FLV_HEADER] + a, b];
  }
}
