/** Whole FLV recordings, told of the stream they come from: every cutting of it, every run of rotations. */
module FlvStream {
  import opened Bytes
  import opened Collections
  import opened FlvTag
  import opened FlvTimestamp
  import opened FlvDedup
  import opened FlvFixer
  import opened FlvVideo
  import opened FlvDetector
  import opened FlvDetection
  import opened FlvChunking
  import opened FlvRecording

  // ---- What the recording reads of the stream ----

  /** Among the tags seen a rotation may have fallen: two video headers differ, or a tag looks like a file header and
      can make the detector report anything. */
  ghost predicate MayRotate(seen: seq<Tag>) {
    || (exists t :: t in seen && LooksLikeHeader(t))
    || (exists t, u :: t in seen && u in seen && IsHeaderTag(t) && IsHeaderTag(u) && t.data != u.data)
  }

  /** Where a rotation may have fallen, the stream does not look like an FLV file header, which a new segment would
      skip. */
  ghost predicate NoLaterHeader(seen: seq<Tag>, buf: seq<byte>)
    decreases |buf|
  {
    && (MayRotate(seen) && |buf| >= FLV_HEADER ==> !IsMagic(buf))
    && (Complete(buf) ==> NoLaterHeader(seen + [Head(buf)], Tail(buf)))
  }

  /** A stream of FLV: it has its file header, or is too short to tell; no tag can get stuck in the parse buffer; and
      neither a tag, nor a PreviousTagSize behind a change, looks like a file header. */
  ghost predicate Recordable(max: nat, stream: seq<byte>) {
    var body := TagStream(FreshState(), stream);
    && Accepts(FreshState(), stream) && NeverStuck(body, max) && NoLaterHeader([], body)
    && forall t :: t in Tags(body) ==> !LooksLikeHeader(t)
  }

  /** All tags handed to the dedup over a recording, rotations included. */
  function AllGiven(hash: Tag -> nat, max: nat, r: Recorder, chunks: seq<seq<byte>>): seq<Tag>
    decreases |chunks|
  {
    if chunks == [] then []
    else Given(r, chunks[0]) + AllGiven(hash, max, Receive(hash, max, r, chunks[0]), chunks[1..])
  }

  /** Behind a rotation the fixer takes the next nine bytes for a file header. */
  predicate SkipsLaterHeader(st: State, c: seq<byte>) {
    st.rotation && !st.headerOk && |st.buffer + c| >= FLV_HEADER && IsMagic(st.buffer + c)
  }

  /** From this fixer, behind the tags seen, the rest of the stream can be read, and nothing complete waits in its
      buffer. */
  ghost predicate ReadsOn(max: nat, seen: seq<Tag>, st: State, more: seq<byte>) {
    var body := TagStream(st, st.buffer + more);
    && Accepts(st, st.buffer + more) && NeverStuck(body, max) && NoLaterHeader(seen, body)
    && Tags(TagStream(st, st.buffer)) == [] && !SkipsLaterHeader(st, more)
  }

  lemma {:induction false} RestHasNoHeader(seen: seq<Tag>, a: seq<byte>, b: seq<byte>)
    requires NoLaterHeader(seen, a + b)
    ensures NoLaterHeader(seen + Tags(a), Rest(a) + b)
    decreases |a|
  {
    hide IsMagic, MayRotate;
    if Complete(a) {
      HeadAppend(a, b);
      RestHasNoHeader(seen + [Head(a)], Tail(a), b);
      assert seen + [Head(a)] + Tags(Tail(a)) == seen + Tags(a);
    } else {
      assert seen + Tags(a) == seen;
    }
  }

  /** After one call the fixer reads on. */
  lemma CallReadsOn(hash: Tag -> nat, max: nat, seen: seq<Tag>, st: State, c: seq<byte>, more: seq<byte>)
    requires max >= MIN_ENTRY && ReadsOn(max, seen, st, c + more)
    ensures !Refused(st, c) && !SkipsLaterHeader(st, c)
    ensures ReadsOn(max, seen + Handed(st, c), Next(hash, max, st, c), more)
    ensures var next := Next(hash, max, st, c);
      && Tags(TagStream(st, st.buffer + (c + more))) == Handed(st, c) + Tags(TagStream(next, next.buffer + more))
      && (Handed(st, c) != [] ==> next.headerOk)
  {
    Associate(st.buffer, c, more);
    CallKeepsStream(hash, max, st, c, more);
    NothingLeft(hash, max, st, c);
    BeginSplits(st, c, more);
    NextFields(hash, max, st, c);
    var b := Begin(st, c);
    hide Begin, NeverStuck, Refused, MayRotate;
    if b.headerOk {
      RestHasNoHeader(seen, b.buffer, more);
    } else {
      assert seen + Handed(st, c) == seen;
    }
  }

  /** So does a fixer reset by a rotation: without a file header it takes the buffer for tags. */
  lemma RotationReadsOn(max: nat, seen: seq<Tag>, st: State, more: seq<byte>)
    requires ReadsOn(max, seen, st, more) && st.headerOk && MayRotate(seen)
    ensures ReadsOn(max, seen, Rotated(st), more)
    ensures TagStream(Rotated(st), st.buffer + more) == TagStream(st, st.buffer + more)
  {
    hide Tags, NeverStuck, MayRotate;
    var s := st.buffer + more;
    assert NoLaterHeader(seen, s);
    if |st.buffer| >= FLV_HEADER {
      assert s[..3] == st.buffer[..3];
    }
  }

  lemma MayRotateStays(a: seq<Tag>, b: seq<Tag>)
    ensures MayRotate(a) || MayRotate(b) ==> MayRotate(a + b)
  {
  }

  /** Unless a rotation may have fallen there was none, and the detector remembers at most a video header among the
      tags seen. */
  ghost predicate Steady(r: Recorder, seen: seq<Tag>) {
    MayRotate(seen) || (
      && !r.fixer.rotation && r.detector.pending == []
      && (var known := r.detector.memory.video;
          known == [] || exists t :: t in seen && IsHeaderTag(t) && t.data == known))
  }

  /** A changed header has one before it that it differs from. */
  lemma ChangeMayRotate(m: Memory, seen: seq<Tag>, us: seq<Tag>)
    requires m.video == [] || exists t :: t in seen && IsHeaderTag(t) && t.data == m.video
    ensures FirstChange(m, us) < |us| ==> MayRotate(seen + us)
    ensures FirstChange(m, us) == |us| ==>
      var v := MemoryAfter(m, us).video;
      v == [] || exists t :: t in seen + us && IsHeaderTag(t) && t.data == v
    decreases |us|
  {
    hide IsVideoHeader, IsAudioHeader, TagBytes, LooksLikeHeader;
    if us != [] {
      var t, m' := us[0], RememberTag(m, us[0]);
      assert seen + us == seen + [t] + us[1..];
      if Changes(m, t.kind, t.data) {
        assert t in seen + us;
      } else {
        ChangeMayRotate(m', seen + [t], us[1..]);
      }
    }
  }

  /** A tag of this type and body is among these. */
  ghost predicate Appears(u: Tag, ts: seq<Tag>) {
    exists t :: t in ts && t.kind == u.kind && t.data == u.data
  }

  lemma MoreAreGiven(hash: Tag -> nat, r: Recorder, chunk: seq<byte>)
    ensures forall t :: t in More(hash, r, chunk) ==> t in Given(r, chunk)
  {
    if r.aborted || chunk == [] || Refused(r.fixer, chunk) {
      return;
    }
    KeptAreHanded(hash, r.fixer.cache, Handed(r.fixer, chunk));
    hide Kept, Handed, Refused;
  }

  /** What is written is given, but for its timestamp. */
  lemma WrittenAppears(hash: Tag -> nat, r: Recorder, chunk: seq<byte>, u: Tag)
    requires u in Repair(r.fixer.store, More(hash, r, chunk))
    ensures Appears(u, Given(r, chunk))
  {
    hide Repair, More, Given;
    MoreAreGiven(hash, r, chunk);
    RepairKeepsContent(r.fixer.store, More(hash, r, chunk));
    var us := Repair(r.fixer.store, More(hash, r, chunk));
    var i :| 0 <= i < |us| && us[i] == u;
    assert More(hash, r, chunk)[i] in Given(r, chunk);
  }

  /** Whether a rotation may have fallen depends on types and bodies alone. */
  lemma MayRotateAppears(us: seq<Tag>, ts: seq<Tag>)
    requires MayRotate(us) && forall u :: u in us ==> Appears(u, ts)
    ensures MayRotate(ts)
  {
    if t :| t in us && LooksLikeHeader(t) {
      var t' :| t' in ts && t'.kind == t.kind && t'.data == t.data;
      assert LooksLikeHeader(t');
    } else {
      var t, u :| t in us && u in us && IsHeaderTag(t) && IsHeaderTag(u) && t.data != u.data;
      var t' :| t' in ts && t'.kind == t.kind && t'.data == t.data;
      var u' :| u' in ts && u'.kind == u.kind && u'.data == u.data;
      assert IsHeaderTag(t') && IsHeaderTag(u');
    }
  }

  lemma ReceiveSteady(hash: Tag -> nat, max: nat, r: Recorder, seen: seq<Tag>, chunk: seq<byte>)
    requires Steady(r, seen) && !r.aborted && !Refused(r.fixer, chunk)
    ensures Steady(Receive(hash, max, r, chunk), seen + Given(r, chunk))
  {
    var all, us := seen + Given(r, chunk), Repair(r.fixer.store, More(hash, r, chunk));
    if chunk != [] && !MayRotate(all) {
      MayRotateStays(seen, Given(r, chunk));
      NextFields(hash, max, r.fixer, chunk);
      if us == [] {
        assert Output(hash, r.fixer, chunk) == [];
      } else {
        forall u | u in seen + us
          ensures Appears(u, all)
        {
          WrittenMayAppear(hash, r, chunk, seen, u);
        }
        if MayRotate(seen + us) {
          MayRotateAppears(seen + us, all);
        }
        assert us[0] in seen + us;
        ChangeMayRotate(r.detector.memory, seen, us);
        DetectorOnOutput(r.detector.memory, us);
        ReceiveWritesOn(hash, max, r, chunk);
      }
    }
    hide MayRotate, Repair, More, FirstChange, MemoryAfter, Output, Next;
  }

  lemma WrittenMayAppear(hash: Tag -> nat, r: Recorder, chunk: seq<byte>, seen: seq<Tag>, u: Tag)
    requires u in seen + Repair(r.fixer.store, More(hash, r, chunk))
    ensures Appears(u, seen + Given(r, chunk))
  {
    if u !in seen {
      WrittenAppears(hash, r, chunk, u);
      var t :| t in Given(r, chunk) && t.kind == u.kind && t.data == u.data;
      assert t in seen + Given(r, chunk);
    } else {
      assert u in seen + Given(r, chunk);
    }
  }

  /** A chunk without a report is written. */
  lemma ReceiveWritesOn(hash: Tag -> nat, max: nat, r: Recorder, chunk: seq<byte>)
    requires !r.aborted && chunk != [] && !Refused(r.fixer, chunk)
    ensures var out, next := Print(Repair(r.fixer.store, More(hash, r, chunk))), Receive(hash, max, r, chunk);
      out != [] && !Reports(r.detector, out) ==>
        next.fixer == Next(hash, max, r.fixer, chunk) && next.detector == Detected(r.detector, out)
  {
    hide Next, Repair, Kept, Handed, Reports, Detected;
  }

  /** One chunk of a recording hands over the tags that it completes; a rotation changes nothing about what is still
      to be read. */
  lemma ReceiveReadsOn(hash: Tag -> nat, max: nat, r: Recorder, seen: seq<Tag>, chunk: seq<byte>, more: seq<byte>)
    requires max >= MIN_ENTRY && !r.aborted && Steady(r, seen) && ReadsOn(max, seen, r.fixer, chunk + more)
    ensures var next, all := Receive(hash, max, r, chunk), seen + Given(r, chunk);
      && !SkipsLaterHeader(r.fixer, chunk)
      && !next.aborted && Steady(next, all) && ReadsOn(max, all, next.fixer, more)
      && Tags(TagStream(r.fixer, r.fixer.buffer + (chunk + more)))
         == Given(r, chunk) + Tags(TagStream(next.fixer, next.fixer.buffer + more))
  {
    hide Steady, MayRotate;
    CallReadsOn(hash, max, seen, r.fixer, chunk, more);
    ReceiveSteady(hash, max, r, seen, chunk);
    if chunk == [] {
      assert chunk + more == more && seen + Given(r, chunk) == seen;
    } else {
      NoTagsNoOutput(hash, r.fixer, chunk);
      ReceiveFixer(hash, max, r, chunk);
      var next := Next(hash, max, r.fixer, chunk);
      if Receive(hash, max, r, chunk).fixer != next {
        RotatedMayRotate(Receive(hash, max, r, chunk), seen + Given(r, chunk));
        RotationReadsOn(max, seen + Given(r, chunk), next, more);
      }
    }
    hide ReadsOn, Receive, TagStream, Tags, SkipsLaterHeader;
  }

  lemma RotatedMayRotate(r: Recorder, seen: seq<Tag>)
    requires Steady(r, seen) && r.fixer.rotation
    ensures MayRotate(seen)
  {
  }

  lemma NoTagsNoOutput(hash: Tag -> nat, st: State, c: seq<byte>)
    ensures Handed(st, c) == [] ==> Output(hash, st, c) == []
  {
  }

  lemma ReceiveFixer(hash: Tag -> nat, max: nat, r: Recorder, chunk: seq<byte>)
    requires !r.aborted && chunk != [] && !Refused(r.fixer, chunk)
    ensures var next, fixer := Receive(hash, max, r, chunk), Next(hash, max, r.fixer, chunk);
      && !next.aborted
      && (next.fixer == fixer || (next.fixer == Rotated(fixer) && Output(hash, r.fixer, chunk) != []))
  {
    hide Next, Output, Rotated, Refused;
  }

  /** Over a whole recording, rotations included, the tags handed over are the tags of the stream, and no part of it is
      skipped as a file header. */
  lemma {:induction false} RecordingReadsStream(
      hash: Tag -> nat, max: nat, r: Recorder, seen: seq<Tag>, chunks: seq<seq<byte>>)
    requires max >= MIN_ENTRY && !r.aborted && Steady(r, seen) && ReadsOn(max, seen, r.fixer, Concat(chunks))
    ensures AllGiven(hash, max, r, chunks) == Tags(TagStream(r.fixer, r.fixer.buffer + Concat(chunks)))
    ensures !Record(hash, max, r, chunks).aborted && !SkipsHeader(hash, max, r, chunks)
    decreases |chunks|
  {
    hide Receive, Tags, TagStream, Given, ReadsOn, Steady, SkipsLaterHeader;
    if chunks == [] {
      NothingToRead(max, seen, r.fixer);
    } else {
      ReceiveReadsOn(hash, max, r, seen, chunks[0], Concat(chunks[1..]));
      RecordingReadsStream(hash, max, Receive(hash, max, r, chunks[0]), seen + Given(r, chunks[0]), chunks[1..]);
    }
  }

  /** At some chunk of a run the fixer skips nine bytes behind a rotation. */
  predicate SkipsHeader(hash: Tag -> nat, max: nat, r: Recorder, chunks: seq<seq<byte>>)
    decreases |chunks|
  {
    chunks != [] && (
      || (!r.aborted && SkipsLaterHeader(r.fixer, chunks[0]))
      || SkipsHeader(hash, max, Receive(hash, max, r, chunks[0]), chunks[1..]))
  }

  lemma NothingToRead(max: nat, seen: seq<Tag>, st: State)
    requires ReadsOn(max, seen, st, [])
    ensures Tags(TagStream(st, st.buffer + [])) == []
  {
    assert st.buffer + [] == st.buffer;
  }

  lemma {:induction false} PlainIfGivenPlain(hash: Tag -> nat, max: nat, r: Recorder, chunks: seq<seq<byte>>)
    requires forall t :: t in AllGiven(hash, max, r, chunks) ==> !LooksLikeHeader(t)
    ensures PlainTags(hash, max, r, chunks)
    decreases |chunks|
  {
    hide Receive, Given, LooksLikeHeader, More;
    if chunks != [] {
      MoreAreGiven(hash, r, chunks[0]);
      PlainIfGivenPlain(hash, max, Receive(hash, max, r, chunks[0]), chunks[1..]);
    }
  }

  /** What a recordable stream hands over from the start. */
  lemma StreamIsRead(hash: Tag -> nat, max: nat, chunks: seq<seq<byte>>)
    requires max >= MIN_ENTRY && Recordable(max, Concat(chunks))
    ensures AllGiven(hash, max, Started(), chunks) == Tags(TagStream(FreshState(), Concat(chunks)))
    ensures PlainTags(hash, max, Started(), chunks) && !Record(hash, max, Started(), chunks).aborted
    ensures !SkipsHeader(hash, max, Started(), chunks)
  {
    var none: seq<byte> := [];
    assert none + Concat(chunks) == Concat(chunks);
    StartsReading(max, Concat(chunks));
    hide ReadsOn, Recordable, AllGiven, PlainTags, Record, SkipsHeader, Steady;
    RecordingReadsStream(hash, max, Started(), [], chunks);
    AllPlain(max, Concat(chunks));
    PlainIfGivenPlain(hash, max, Started(), chunks);
  }

  lemma StartsReading(max: nat, stream: seq<byte>)
    requires Recordable(max, stream)
    ensures ReadsOn(max, [], FreshState(), stream) && Steady(Started(), [])
  {
    var none: seq<byte> := [];
    assert none + stream == stream;
    assert Tags(none) == [];
  }

  lemma AllPlain(max: nat, stream: seq<byte>)
    requires Recordable(max, stream)
    ensures forall t :: t in Tags(TagStream(FreshState(), stream)) ==> !LooksLikeHeader(t)
  {
  }

  // ---- What it keeps ----

  /** a is what is left of b when some elements are dropped. */
  ghost predicate Subsequence<T(!new)>(a: seq<T>, b: seq<T>)
    decreases |b|
  {
    a == [] || (b != [] && (Subsequence(a, b[1..]) || (a[0] == b[0] && Subsequence(a[1..], b[1..]))))
  }

  lemma {:induction false} KeptOfGiven(hash: Tag -> nat, c: Cache, ts: seq<Tag>)
    ensures Subsequence(Kept(hash, c, ts), ts)
    decreases |ts|
  {
    if ts != [] {
      var rest := Kept(hash, Offer(c, hash(ts[0]), ts[0]), ts[1..]);
      KeptOfGiven(hash, Offer(c, hash(ts[0]), ts[0]), ts[1..]);
      assert ([ts[0]] + rest)[0] == ts[0] && ([ts[0]] + rest)[1..] == rest;
      assert Kept(hash, c, ts) == rest || Kept(hash, c, ts) == [ts[0]] + rest;
    }
  }

  lemma {:induction false} SubsequenceBehind<T(!new)>(c: seq<T>, b: seq<T>, d: seq<T>)
    requires Subsequence(c, d)
    ensures Subsequence(c, b + d)
    decreases |b|
  {
    if b == [] {
      assert b + d == d;
    } else if c != [] {
      SubsequenceBehind(c, b[1..], d);
      assert (b + d)[1..] == b[1..] + d;
    }
  }

  lemma {:induction false} SubsequenceAppend<T(!new)>(a: seq<T>, b: seq<T>, c: seq<T>, d: seq<T>)
    requires Subsequence(a, b) && Subsequence(c, d)
    ensures Subsequence(a + c, b + d)
    decreases |b|
  {
    if a == [] {
      assert a + c == c;
      SubsequenceBehind(c, b, d);
    } else {
      assert (a + c)[0] == a[0] && (a + c)[1..] == a[1..] + c && (b + d)[1..] == b[1..] + d;
      if Subsequence(a, b[1..]) {
        SubsequenceAppend(a, b[1..], c, d);
      } else {
        SubsequenceAppend(a[1..], b[1..], c, d);
      }
    }
  }

  lemma MoreOfGiven(hash: Tag -> nat, r: Recorder, chunk: seq<byte>)
    ensures Subsequence(More(hash, r, chunk), Given(r, chunk))
  {
    hide Kept;
    KeptOfGiven(hash, r.fixer.cache, Given(r, chunk));
  }

  lemma {:induction false} AllKeptOfGiven(hash: Tag -> nat, max: nat, r: Recorder, chunks: seq<seq<byte>>)
    ensures Subsequence(AllKept(hash, max, r, chunks), AllGiven(hash, max, r, chunks))
    decreases |chunks|
  {
    hide Receive, More, Given, Subsequence;
    if chunks == [] {
      NothingOfNothing();
    } else {
      var next := Receive(hash, max, r, chunks[0]);
      MoreOfGiven(hash, r, chunks[0]);
      AllKeptOfGiven(hash, max, next, chunks[1..]);
      SubsequenceAppend(More(hash, r, chunks[0]), Given(r, chunks[0]),
                        AllKept(hash, max, next, chunks[1..]), AllGiven(hash, max, next, chunks[1..]));
    }
  }

  lemma NothingOfNothing()
    ensures Subsequence<Tag>([], [])
  {
  }

  /** With distinct signatures the dedup drops nothing, whatever rotations do to its cache. */
  lemma ReceiveKeepsUnseen(hash: Tag -> nat, max: nat, r: Recorder, chunk: seq<byte>, more: seq<Tag>)
    requires AllDifferent(hash, Given(r, chunk) + more) && Unseen(hash, r.fixer.cache, Given(r, chunk) + more)
    ensures More(hash, r, chunk) == Given(r, chunk)
    ensures AllDifferent(hash, more) && Unseen(hash, Receive(hash, max, r, chunk).fixer.cache, more)
  {
    hide Kept, Next, Output, AllDifferent, Reports, Detected;
    if r.aborted || chunk == [] {
      assert Given(r, chunk) + more == more;
    } else {
      CallKeepsUnseen(hash, max, r.fixer, chunk, more);
      FirstDiffer(hash, r.fixer.cache, Handed(r.fixer, chunk), more);
      DifferentAreKept(hash, r.fixer.cache, Handed(r.fixer, chunk));
      hide Handed;
    }
  }

  lemma FirstDiffer(hash: Tag -> nat, c: Cache, ts: seq<Tag>, more: seq<Tag>)
    requires AllDifferent(hash, ts + more) && Unseen(hash, c, ts + more)
    ensures AllDifferent(hash, ts) && Unseen(hash, c, ts)
  {
    assert forall i :: 0 <= i < |ts| ==> (ts + more)[i] == ts[i];
  }

  lemma {:induction false} DifferentAreAllKept(hash: Tag -> nat, max: nat, r: Recorder, chunks: seq<seq<byte>>)
    requires var ts := AllGiven(hash, max, r, chunks); AllDifferent(hash, ts) && Unseen(hash, r.fixer.cache, ts)
    ensures AllKept(hash, max, r, chunks) == AllGiven(hash, max, r, chunks)
    decreases |chunks|
  {
    hide Receive, More, Given, AllDifferent, Unseen;
    if chunks != [] {
      var next := Receive(hash, max, r, chunks[0]);
      ReceiveKeepsUnseen(hash, max, r, chunks[0], AllGiven(hash, max, next, chunks[1..]));
      DifferentAreAllKept(hash, max, next, chunks[1..]);
    }
  }

  // ---- The files ----

  /** The files of a recording: each is its injected headers followed by the repair, from a fresh store, of its tags. */
  ghost predicate FilesHold(end: Recorder, h: History) {
    && |h.files| == |h.cut| == |end.closed|
    && (forall k :: 0 <= k < |h.files| ==> end.closed[k] == FileOf(h.files[k]))
    && end.segment.bytes == FileOf(h.current)
    && (forall k :: 0 <= k < |h.cut| ==> Injects(ShapeAt(h, k), h.cut[k], ShapeAt(h, k + 1)))
  }

  /** For every recordable stream and every cutting of it: the files hold, in order, consecutive stretches of what the
      dedup leaves of the stream's tags, all of them if no two signatures are equal. What no file holds are exactly
      the tags of the chunks in which a rotation fell, before the change as well as after it; the changed header among
      them is injected into the next file. */
  lemma FilesAreTheStream(hash: Tag -> nat, max: nat, chunks: seq<seq<byte>>)
    requires max >= MIN_ENTRY && Recordable(max, Concat(chunks))
    ensures var end, h := Record(hash, max, Started(), chunks), HistoryOf(hash, max, NO_HISTORY, Started(), chunks);
      var all := Tags(TagStream(FreshState(), Concat(chunks)));
      && !end.aborted && FilesHold(end, h)
      && Subsequence(Closed(h.files, h.cut) + h.current.kept, all)
      && (AllDifferent(hash, all) ==> Closed(h.files, h.cut) + h.current.kept == all)
  {
    hide *;
    StreamIsRead(hash, max, chunks);
    FilesHoldHistory(hash, max, chunks);
    AllKeptOfGiven(hash, max, Started(), chunks);
    if AllDifferent(hash, Tags(TagStream(FreshState(), Concat(chunks)))) {
      NothingSeen(hash, AllGiven(hash, max, Started(), chunks));
      DifferentAreAllKept(hash, max, Started(), chunks);
    }
  }

  lemma NothingSeen(hash: Tag -> nat, ts: seq<Tag>)
    ensures Unseen(hash, Started().fixer.cache, ts)
  {
  }

  lemma FilesHoldHistory(hash: Tag -> nat, max: nat, chunks: seq<seq<byte>>)
    requires PlainTags(hash, max, Started(), chunks)
    ensures var end, h := Record(hash, max, Started(), chunks), HistoryOf(hash, max, NO_HISTORY, Started(), chunks);
      FilesHold(end, h) && Closed(h.files, h.cut) + h.current.kept == AllKept(hash, max, Started(), chunks)
  {
    StartTells();
    hide Tells, FilesHold, HistoryOf, Record, PlainTags, AllKept, Started, Closed;
    HistoryTells(hash, max, NO_HISTORY, Started(), chunks);
    TellingHolds(Record(hash, max, Started(), chunks), HistoryOf(hash, max, NO_HISTORY, Started(), chunks));
    var all := AllKept(hash, max, Started(), chunks);
    assert Closed(NO_HISTORY.files, NO_HISTORY.cut) + NO_HISTORY.current.kept + all == all;
  }

  lemma StartTells()
    ensures Tells(NO_HISTORY, Started()) && Closed(NO_HISTORY.files, NO_HISTORY.cut) == [] == NO_HISTORY.current.kept
  {
    StartedIsShaped();
    hide Shaped;
  }

  lemma TellingHolds(end: Recorder, h: History)
    requires Tells(h, end)
    ensures FilesHold(end, h)
  {
    ShapedFile(end, h.current);
    hide Shaped, FileOf, Injects;
  }

  /** And each of these files re-parses, has one video configuration and a smooth timeline. */
  lemma EveryFileIsGood(hash: Tag -> nat, max: nat, chunks: seq<seq<byte>>)
    requires max >= MIN_ENTRY && Recordable(max, Concat(chunks))
    ensures var end := Record(hash, max, Started(), chunks);
      Good(end.segment.bytes) && forall f :: f in end.closed ==> Good(f)
  {
    StreamIsRead(hash, max, chunks);
    StartedIsShaped();
    hide *;
    RecordKeepsGood(hash, max, Started(), NO_HISTORY.current, chunks);
  }

  // ---- Which streams are refused ----

  /** The stream has shown that it is not FLV. */
  predicate IsNotFlv(stream: seq<byte>) {
    |stream| >= 9 && stream[..3] != ['F' as byte, 'L' as byte, 'V' as byte]
  }

  /** Until nine bytes are there, all of them wait in the buffer; then the recording goes on for good. */
  ghost predicate Undecided(r: Recorder, before: seq<byte>) {
    && !r.aborted && |before| < FLV_HEADER && !r.fixer.headerOk && !r.fixer.rotation && r.fixer.buffer == before
    && r.closed == [] && r.segment.bytes == []
  }

  predicate Decided(r: Recorder) {
    !r.aborted && (r.fixer.headerOk || r.fixer.rotation)
  }

  lemma ReceiveDecided(hash: Tag -> nat, max: nat, r: Recorder, chunk: seq<byte>)
    requires Decided(r)
    ensures Decided(Receive(hash, max, r, chunk))
  {
    if chunk != [] {
      NextFields(hash, max, r.fixer, chunk);
      ReceiveFixer(hash, max, r, chunk);
    }
    hide Next, Output;
  }

  lemma ReceiveDecides(hash: Tag -> nat, max: nat, r: Recorder, before: seq<byte>, chunk: seq<byte>)
    requires max >= MIN_ENTRY && Undecided(r, before)
    ensures var next, all := Receive(hash, max, r, chunk), before + chunk;
      if |all| < FLV_HEADER then Undecided(next, all)
      else if IsNotFlv(all) then next.aborted && next.closed == [] && next.segment.bytes == []
      else Decided(next)
  {
    var all := before + chunk;
    if chunk == [] {
      assert all == before;
    } else if |all| < FLV_HEADER {
      NextFields(hash, max, r.fixer, chunk);
      ShortIsQuiet(hash, max, r.fixer, chunk);
    } else if !IsNotFlv(all) {
      NextFields(hash, max, r.fixer, chunk);
      ReceiveFixer(hash, max, r, chunk);
    }
    hide Next, Output;
  }

  lemma ShortIsQuiet(hash: Tag -> nat, max: nat, st: State, chunk: seq<byte>)
    requires max >= MIN_ENTRY && |st.buffer + chunk| < FLV_HEADER
    ensures !Refused(st, chunk) && Output(hash, st, chunk) == []
    ensures Next(hash, max, st, chunk).buffer == st.buffer + chunk
  {
    NextFields(hash, max, st, chunk);
  }

  lemma {:induction false} DecidedStays(hash: Tag -> nat, max: nat, r: Recorder, chunks: seq<seq<byte>>)
    requires Decided(r)
    ensures !Record(hash, max, r, chunks).aborted
    decreases |chunks|
  {
    hide Receive;
    if chunks != [] {
      ReceiveDecided(hash, max, r, chunks[0]);
      DecidedStays(hash, max, Receive(hash, max, r, chunks[0]), chunks[1..]);
    }
  }

  lemma {:induction false} AbortedStays(hash: Tag -> nat, max: nat, r: Recorder, chunks: seq<seq<byte>>)
    requires r.aborted
    ensures Record(hash, max, r, chunks) == r
    decreases |chunks|
  {
    if chunks != [] {
      AbortedStays(hash, max, r, chunks[1..]);
    }
  }

  lemma {:induction false} RecordDecides(
      hash: Tag -> nat, max: nat, r: Recorder, before: seq<byte>, chunks: seq<seq<byte>>)
    requires max >= MIN_ENTRY && Undecided(r, before)
    ensures var end := Record(hash, max, r, chunks);
      && (end.aborted <==> IsNotFlv(before + Concat(chunks)))
      && (end.aborted ==> end.closed == [] && end.segment.bytes == [])
    decreases |chunks|
  {
    hide Receive;
    if chunks == [] {
      assert before + Concat(chunks) == before;
    } else {
      var next, all := Receive(hash, max, r, chunks[0]), before + chunks[0];
      ReceiveDecides(hash, max, r, before, chunks[0]);
      Associate(before, chunks[0], Concat(chunks[1..]));
      if |all| < FLV_HEADER {
        RecordDecides(hash, max, next, all, chunks[1..]);
      } else {
        assert (all + Concat(chunks[1..]))[..3] == all[..3];
        if IsNotFlv(all) {
          AbortedStays(hash, max, next, chunks[1..]);
        } else {
          DecidedStays(hash, max, next, chunks[1..]);
        }
      }
    }
  }

  /** A recording is aborted, with nothing written, if and only if the stream's first nine bytes are there and do not
      start with "FLV", however it is cut and whatever follows. */
  lemma RefusedExactly(hash: Tag -> nat, max: nat, chunks: seq<seq<byte>>)
    requires max >= MIN_ENTRY
    ensures var end := Record(hash, max, Started(), chunks);
      && (end.aborted <==>
           |Concat(chunks)| >= 9 && Concat(chunks)[..3] != ['F' as byte, 'L' as byte, 'V' as byte])
      && (end.aborted ==> end.closed == [] && end.segment.bytes == [])
  {
    RecordDecides(hash, max, Started(), [], chunks);
    assert [] + Concat(chunks) == Concat(chunks);
  }
}
