/** The whole FLV chain over a live stream: fixer, split detector, header writer, and rotation to a new file. */
module FlvRecording {
  import opened Bytes
  import opened Collections
  import opened FlvTag
  import opened FlvTimestamp
  import opened FlvDedup
  import opened FlvFixer
  import opened FlvVideo
  import opened FlvDetector
  import opened FlvDetection
  import opened FlvChunking
  import opened FlvFile

  // ---- The split detector in the pipeline ----

  class FlvHeaderSplitDetector {
    const detector: HeaderChangeDetector
    const seed: seq<byte>

    constructor (seed: seq<byte>)
      ensures this.seed == seed && fresh(detector)
    {
      this.seed := seed;
      detector := new HeaderChangeDetector();
    }

    method Open()
      modifies detector
      ensures detector.View() == Opened(seed)
    {
      detector.Reset();
      if |seed| > 0 {
        detector.SeedVideoHeader(seed);
      }
    }

    /** On a change only the bytes behind the changed header are returned, with a synthetic PreviousTagSize. */
    method Process(data: seq<byte>) returns (out: seq<byte>, changed: bool, report: Report)
      modifies detector
      ensures changed == (data != [] && Reports(old(detector.View()), data))
      ensures changed ==> report == ReportOf(old(detector.View()), data)
      ensures !changed ==> out == data
      ensures changed && report.tagEnd < |data| ==> out == [0, 0, 0, 0] + data[report.tagEnd..]
      ensures changed && report.tagEnd >= |data| ==> out == []
      ensures detector.View() == (if data == [] then old(detector.View()) else Detected(old(detector.View()), data))
    {
      if |data| == 0 {
        return data, false, Report([], [], 0, 0);
      }
      changed, report := detector.DetectChange(data);
      if !changed {
        return data, false, report;
      }
      if report.tagEnd <= |data| {
        var after := data[report.tagEnd..];
        if |after| == 0 {
          return [], true, report;
        }
        return [0, 0, 0, 0] + after, true, report;
      }
      return [], true, report;
    }
  }

  function Opened(seed: seq<byte>): Detector {
    Detector(if seed == [] then Memory([], []) else Seeded(Memory([], []), seed), [])
  }

  // ---- A recording ----

  /** The file being written: its injected headers and its bytes so far. */
  datatype Segment = Segment(video: seq<byte>, audio: seq<byte>, bytes: seq<byte>)

  datatype Recorder = Recorder(
    fixer: State,
    detector: Detector,
    segment: Segment,
    closed: seq<seq<byte>>,
    aborted: bool)

  function FreshState(): State {
    State([], false, false, FRESH, Empty(MAX_CACHE, WINDOW_MS), 0, 0)
  }

  function Started(): Recorder {
    Recorder(FreshState(), Opened([]), Segment([], [], []), [], false)
  }

  /** The header writer puts its preamble in front of the first bytes of a file. */
  function Written(s: Segment, out: seq<byte>): Segment {
    s.(bytes := if s.bytes == [] then Prepended(s.video, s.audio, out) else s.bytes + out)
  }

  /** What a rotation keeps of the fixer: its parse buffer. */
  function Rotated(st: State): State {
    st.(store := FRESH, rotation := true, headerOk := false, cache := Empty(st.cache.maxSize, st.cache.window))
  }

  /** One chunk from the network. The bytes the detector returns with its error are dropped by the caller. */
  function Receive(hash: Tag -> nat, max: nat, r: Recorder, chunk: seq<byte>): Recorder {
    if r.aborted || chunk == [] then r
    else if Refused(r.fixer, chunk) then r.(fixer := Next(hash, max, r.fixer, chunk), aborted := true)
    else
      var out, fixer := Output(hash, r.fixer, chunk), Next(hash, max, r.fixer, chunk);
      if out == [] then r.(fixer := fixer)
      else if Reports(r.detector, out) then
        var report := ReportOf(r.detector, out);
        Recorder(Rotated(fixer), Opened(report.videoTag), Segment(report.videoTag, report.audioTag, []),
                 r.closed + [r.segment.bytes], false)
      else r.(fixer := fixer, detector := Detected(r.detector, out), segment := Written(r.segment, out))
  }

  function Record(hash: Tag -> nat, max: nat, r: Recorder, chunks: seq<seq<byte>>): Recorder
    decreases |chunks|
  {
    if chunks == [] then r else Record(hash, max, Receive(hash, max, r, chunks[0]), chunks[1..])
  }

  /** The tags one chunk hands to the dedup. */
  function Given(r: Recorder, chunk: seq<byte>): seq<Tag> {
    if r.aborted || chunk == [] then [] else Handed(r.fixer, chunk)
  }

  /** What the detector gets of a chunk does not start with a tag that looks like a file header. */
  predicate Plain(hash: Tag -> nat, r: Recorder, chunk: seq<byte>) {
    var more := More(hash, r, chunk);
    more == [] || !LooksLikeHeader(more[0])
  }

  /** The same at every chunk of a run. */
  predicate PlainTags(hash: Tag -> nat, max: nat, r: Recorder, chunks: seq<seq<byte>>)
    decreases |chunks|
  {
    chunks == [] || (
      && Plain(hash, r, chunks[0])
      && PlainTags(hash, max, Receive(hash, max, r, chunks[0]), chunks[1..]))
  }

  // ---- What a recorded file is ----

  ghost predicate OneConfig(ts: seq<Tag>) {
    forall i, j :: 0 <= i < |ts| && 0 <= j < |ts| && IsHeaderTag(ts[i]) && IsHeaderTag(ts[j]) ==>
      ts[i].data == ts[j].data
  }

  /** A file with at most two injected headers followed by `body`: it parses to exactly these, its sizes match,
      all its video headers carry one payload, and its timeline is smooth. */
  ghost predicate GoodFile(f: seq<byte>, injected: seq<Tag>, body: seq<Tag>) {
    && |f| >= FLV_HEADER && f[..FLV_HEADER] == SIGNATURE
    && Tags(f[FLV_HEADER..]) == injected + body && |Rest(f[FLV_HEADER..])| == PREV_TAG_SIZE
    && SizesMatch(f[FLV_HEADER..], injected + body)
    && |injected| <= 2 && (forall t :: t in injected ==> t.timestamp == 0)
    && OneConfig(injected + body)
    && (|body| <= MAX_TAGS ==> Smooth(body))
  }

  ghost predicate Good(f: seq<byte>) {
    f == [] || exists injected, body :: GoodFile(f, injected, body)
  }

  // ---- The tags behind the bytes of the current file ----

  /** The injected headers, and the tags of this segment before repair. */
  datatype Shape = Shape(video: seq<Tag>, audio: seq<Tag>, kept: seq<Tag>)

  function Known(video: seq<Tag>): Memory {
    if video == [] then Memory([], []) else Memory(video[0].data, [])
  }

  ghost predicate Shaped(r: Recorder, s: Shape) {
    var us := Repair(FRESH, s.kept);
    && |s.video| <= 1 && |s.audio| <= 1
    && (forall t :: t in s.video ==> IsHeaderTag(t) && t.data != [])
    && (forall t :: t in s.audio ==> t.kind == AUDIO)
    && r.segment.video == Print(s.video) && r.segment.audio == Print(s.audio)
    && r.segment.bytes == (if s.kept == [] then [] else Prepended(Print(s.video), Print(s.audio), Print(us)))
    && r.fixer.store == After(FRESH, s.kept)
    && r.detector == Detector(MemoryAfter(Known(s.video), us), [])
    && FirstChange(Known(s.video), us) == |us|
  }

  lemma {:induction false} NoChangeAppend(m: Memory, a: seq<Tag>, b: seq<Tag>)
    requires FirstChange(m, a) == |a|
    ensures FirstChange(m, a + b) == |a| + FirstChange(MemoryAfter(m, a), b)
    ensures MemoryAfter(m, a + b) == MemoryAfter(MemoryAfter(m, a), b)
    decreases |a|
  {
    hide TagBytes;
    if a == [] {
      assert a + b == b;
    } else {
      var t, m' := a[0], RememberTag(m, a[0]);
      NoChangeAppend(m', a[1..], b);
      assert a + b == [t] + (a[1..] + b) && a == [t] + a[1..];
      FirstChangeCons(m, t, a[1..] + b);
      FirstChangeCons(m, t, a[1..]);
    }
  }

  lemma FirstChangeCons(m: Memory, t: Tag, ts: seq<Tag>)
    ensures FirstChange(m, [t] + ts) == if Changes(m, t.kind, t.data) then 0 else 1 + FirstChange(RememberTag(m, t), ts)
    ensures MemoryAfter(m, [t] + ts) == MemoryAfter(RememberTag(m, t), ts)
  {
    assert ([t] + ts)[1..] == ts;
  }

  /** The files of a recording are good: whatever the segment's tags, one video payload and a smooth timeline. */
  lemma SegmentIsGood(r: Recorder, s: Shape)
    requires Shaped(r, s)
    ensures Good(r.segment.bytes)
  {
    hide TagBytes, Prepended, Print, FirstChange, MemoryAfter, Repair, OneConfig, Smooth;
    hide SizesMatch, Tags, Rest, Rewound;
    if s.kept != [] {
      var us := Repair(FRESH, s.kept);
      var injected := Rewound(s.video) + Rewound(s.audio);
      FileReparses(s.video, s.audio, us);
      SegmentHasOneConfig(s);
      if |us| <= MAX_TAGS {
        RepairIsSmooth(s.kept);
      }
      RewoundFields(s.video);
      RewoundFields(s.audio);
      assert GoodFile(r.segment.bytes, injected, us);
    }
  }

  lemma {:induction false} RewoundFields(ts: seq<Tag>)
    ensures |Rewound(ts)| == |ts|
    ensures forall i :: 0 <= i < |ts| ==> Rewound(ts)[i] == ts[i].(timestamp := 0)
  {
    if ts != [] {
      RewoundFields(ts[1..]);
    }
  }

  lemma SegmentHasOneConfig(s: Shape)
    requires |s.video| <= 1 && |s.audio| <= 1
    requires forall t :: t in s.video ==> IsHeaderTag(t) && t.data != []
    requires forall t :: t in s.audio ==> t.kind == AUDIO
    requires var us := Repair(FRESH, s.kept); FirstChange(Known(s.video), us) == |us|
    ensures OneConfig(Rewound(s.video) + Rewound(s.audio) + Repair(FRESH, s.kept))
  {
    hide TagBytes, Print, FirstChange, MemoryAfter, Repair;
    var us := Repair(FRESH, s.kept);
    var all := Rewound(s.video) + Rewound(s.audio) + us;
    var n := |s.video| + |s.audio|;
    FirstChangeMeans(Known(s.video), us);
    assert us[..|us|] == us;
    var known := MemoryAfter(Known(s.video), us).video;
    RewoundFields(s.video);
    RewoundFields(s.audio);
    forall i | |s.video| <= i < n
      ensures all[i].kind == AUDIO
    {
      assert all[i] == Rewound(s.audio)[i - |s.video|] && s.audio[i - |s.video|] in s.audio;
    }
    forall i | 0 <= i < |all| && IsHeaderTag(all[i])
      ensures all[i].data == known
    {
      if i < |s.video| {
        assert all[i] == Rewound(s.video)[0] && s.video[0] in s.video;
      } else {
        assert all[i] == us[i - n];
      }
    }
  }

  // ---- Every step ----

  /** The last audio header of a sequence, as a sequence of at most one. */
  function LastAudio(ts: seq<Tag>): seq<Tag>
    decreases |ts|
  {
    if ts == [] then []
    else
      var rest := LastAudio(ts[1..]);
      if rest != [] then rest
      else if ts[0].kind == AUDIO && IsAudioHeader(ts[0].data) then [ts[0]]
      else []
  }

  lemma {:induction false} AudioIsLast(m: Memory, ts: seq<Tag>)
    ensures |LastAudio(ts)| <= 1
    ensures forall t :: t in LastAudio(ts) ==> t.kind == AUDIO
    ensures MemoryAfter(m, ts).audio == if LastAudio(ts) == [] then m.audio else Print(LastAudio(ts))
    decreases |ts|
  {
    if ts != [] {
      AudioIsLast(RememberTag(m, ts[0]), ts[1..]);
      assert Print([ts[0]]) == TagBytes(ts[0]) + Print([]) == TagBytes(ts[0]);
    }
  }

  /** The tags behind the bytes after one more chunk. */
  function NextShape(hash: Tag -> nat, r: Recorder, s: Shape, chunk: seq<byte>): Shape {
    if r.aborted || chunk == [] || Refused(r.fixer, chunk) then s
    else
      var more := Kept(hash, r.fixer.cache, Handed(r.fixer, chunk));
      var us := Repair(r.fixer.store, more);
      var j := FirstChange(r.detector.memory, us);
      if j == |us| then s.(kept := s.kept + more)
      else Shape([us[j]], LastAudio(Repair(FRESH, s.kept) + us[..j]), [])
  }

  /** The tags a chunk adds: complete, handed to the dedup and kept by it. */
  function More(hash: Tag -> nat, r: Recorder, chunk: seq<byte>): seq<Tag> {
    if r.aborted || chunk == [] || Refused(r.fixer, chunk) then []
    else Kept(hash, r.fixer.cache, Handed(r.fixer, chunk))
  }

  predicate Rotates(hash: Tag -> nat, r: Recorder, chunk: seq<byte>) {
    var us := Repair(r.fixer.store, More(hash, r, chunk));
    FirstChange(r.detector.memory, us) < |us|
  }

  lemma {:induction false} KeptAreHanded(hash: Tag -> nat, c: Cache, ts: seq<Tag>)
    ensures forall t :: t in Kept(hash, c, ts) ==> t in ts
    decreases |ts|
  {
    if ts != [] {
      KeptAreHanded(hash, Offer(c, hash(ts[0]), ts[0]), ts[1..]);
    }
  }

  /** A call without output or refusal only moves the fixer, and its timestamps not at all. */
  lemma QuietCall(hash: Tag -> nat, max: nat, r: Recorder, s: Shape, chunk: seq<byte>)
    requires Shaped(r, s) && !r.aborted && chunk != [] && !Refused(r.fixer, chunk)
    requires Kept(hash, r.fixer.cache, Handed(r.fixer, chunk)) == []
    ensures Shaped(Receive(hash, max, r, chunk), s) && NextShape(hash, r, s, chunk) == s
    ensures Receive(hash, max, r, chunk).closed == r.closed
  {
    NextFields(hash, max, r.fixer, chunk);
    assert s.kept + [] == s.kept;
  }

  lemma ReceiveKeepsShape(hash: Tag -> nat, max: nat, r: Recorder, s: Shape, chunk: seq<byte>)
    requires Shaped(r, s) && Plain(hash, r, chunk)
    ensures var next := Receive(hash, max, r, chunk);
      && Shaped(next, NextShape(hash, r, s, chunk))
      && next.closed == (if Rotates(hash, r, chunk) then r.closed + [r.segment.bytes] else r.closed)
  {
    if !r.aborted && chunk != [] && !Refused(r.fixer, chunk) {
      var more := Kept(hash, r.fixer.cache, Handed(r.fixer, chunk));
      if more == [] {
        QuietCall(hash, max, r, s, chunk);
      } else {
        RepairKeepsContent(r.fixer.store, more);
        var us := Repair(r.fixer.store, more);
        assert us[0] == more[0].(timestamp := us[0].timestamp);
        DetectorOnOutput(r.detector.memory, us);
        if FirstChange(r.detector.memory, us) == |us| {
          WritingCall(hash, max, r, s, chunk, more);
        } else {
          RotatingCall(hash, max, r, s, chunk, more);
        }
      }
    }
  }

  lemma WritingCall(hash: Tag -> nat, max: nat, r: Recorder, s: Shape, chunk: seq<byte>, more: seq<Tag>)
    requires Shaped(r, s) && !r.aborted && chunk != [] && !Refused(r.fixer, chunk)
    requires more == Kept(hash, r.fixer.cache, Handed(r.fixer, chunk)) && more != []
    requires var us := Repair(r.fixer.store, more);
      && FirstChange(r.detector.memory, us) == |us|
      && Print(us) != [] && !Reports(r.detector, Print(us))
      && Detected(r.detector, Print(us)) == Detector(MemoryAfter(r.detector.memory, us), [])
    ensures var next := Receive(hash, max, r, chunk);
      Shaped(next, s.(kept := s.kept + more)) && next.closed == r.closed
  {
    hide TagBytes, Prepended;
    NextFields(hash, max, r.fixer, chunk);
    ReceiveWrites(hash, max, r, chunk);
    WritingKeepsShape(r, s, more);
  }

  lemma ReceiveWrites(hash: Tag -> nat, max: nat, r: Recorder, chunk: seq<byte>)
    requires !r.aborted && chunk != [] && !Refused(r.fixer, chunk)
    requires var out := Output(hash, r.fixer, chunk); out != [] && !Reports(r.detector, out)
    ensures var out := Output(hash, r.fixer, chunk);
      Receive(hash, max, r, chunk) ==
      Recorder(Next(hash, max, r.fixer, chunk), Detected(r.detector, out), Written(r.segment, out), r.closed, false)
  {
  }

  /** Writing the repair of more tags, none of which changes the configuration, keeps the shape. */
  lemma WritingKeepsShape(r: Recorder, s: Shape, more: seq<Tag>)
    requires Shaped(r, s) && more != []
    requires FirstChange(r.detector.memory, Repair(r.fixer.store, more)) == |more|
    ensures var us := Repair(r.fixer.store, more);
      var t := s.(kept := s.kept + more);
      var all := Repair(FRESH, t.kept);
      && Written(r.segment, Print(us)).bytes == Prepended(Print(t.video), Print(t.audio), Print(all))
      && After(FRESH, t.kept) == After(r.fixer.store, more)
      && MemoryAfter(Known(t.video), all) == MemoryAfter(r.detector.memory, us)
      && FirstChange(Known(t.video), all) == |all|
  {
    hide TagBytes;
    var before, us := Repair(FRESH, s.kept), Repair(r.fixer.store, more);
    RepairAppend(FRESH, s.kept, more);
    PrintAppend(before, us);
    NoChangeAppend(Known(s.video), before, us);
    if s.kept == [] {
      assert s.kept + more == more;
    } else {
      Associate(PREAMBLE + AtZero(Print(s.video)) + AtZero(Print(s.audio)), Print(before), Print(us));
      BytesAreWritten(r, s);
    }
  }

  /** A file that holds tags is not empty. */
  lemma BytesAreWritten(r: Recorder, s: Shape)
    requires Shaped(r, s) && s.kept != []
    ensures r.segment.bytes != []
  {
  }

  lemma RotatingCall(hash: Tag -> nat, max: nat, r: Recorder, s: Shape, chunk: seq<byte>, more: seq<Tag>)
    requires Shaped(r, s) && !r.aborted && chunk != [] && !Refused(r.fixer, chunk)
    requires more == Kept(hash, r.fixer.cache, Handed(r.fixer, chunk))
    requires var us, j := Repair(r.fixer.store, more), FirstChange(r.detector.memory, Repair(r.fixer.store, more));
      && j < |us| && Print(us) != [] && Reports(r.detector, Print(us))
      && ReportOf(r.detector, Print(us)).videoTag == TagBytes(us[j])
      && ReportOf(r.detector, Print(us)).audioTag == MemoryAfter(r.detector.memory, us[..j]).audio
    ensures var next := Receive(hash, max, r, chunk);
      Shaped(next, NextShape(hash, r, s, chunk)) && next.closed == r.closed + [r.segment.bytes]
  {
    hide *;
    var us := Repair(r.fixer.store, more);
    var j := FirstChange(r.detector.memory, us);
    ChangeIsHeader(r.detector.memory, us);
    OutputIsPrint(hash, r, chunk, more);
    ReceiveRotates(hash, max, r, chunk);
    RotationHeaders(r, s, us);
    ShapeRotates(hash, r, s, chunk, more);
    FreshShape(Next(hash, max, r.fixer, chunk), us[j], LastAudio(Repair(FRESH, s.kept) + us[..j]),
               r.closed + [r.segment.bytes]);
  }

  lemma ChangeIsHeader(m: Memory, us: seq<Tag>)
    requires FirstChange(m, us) < |us|
    ensures IsHeaderTag(us[FirstChange(m, us)])
  {
    hide MemoryAfter;
    FirstChangeMeans(m, us);
  }

  lemma OutputIsPrint(hash: Tag -> nat, r: Recorder, chunk: seq<byte>, more: seq<Tag>)
    requires more == Kept(hash, r.fixer.cache, Handed(r.fixer, chunk))
    ensures Output(hash, r.fixer, chunk) == Print(Repair(r.fixer.store, more))
  {
    hide Print, Repair, Kept, Handed;
  }

  lemma ShapeRotates(hash: Tag -> nat, r: Recorder, s: Shape, chunk: seq<byte>, more: seq<Tag>)
    requires !r.aborted && chunk != [] && !Refused(r.fixer, chunk)
    requires more == Kept(hash, r.fixer.cache, Handed(r.fixer, chunk))
    requires var us := Repair(r.fixer.store, more); FirstChange(r.detector.memory, us) < |us|
    ensures var us, j := Repair(r.fixer.store, more), FirstChange(r.detector.memory, Repair(r.fixer.store, more));
      NextShape(hash, r, s, chunk) == Shape([us[j]], LastAudio(Repair(FRESH, s.kept) + us[..j]), [])
  {
    hide Repair, Kept, Handed, LastAudio, FirstChange, Refused;
  }

  /** After a rotation nothing is written yet and the detector knows the injected video header. */
  lemma FreshShape(fixer: State, t: Tag, audio: seq<Tag>, closed: seq<seq<byte>>)
    requires IsHeaderTag(t) && Print([t]) == TagBytes(t)
    requires |audio| <= 1 && forall a :: a in audio ==> a.kind == AUDIO
    ensures Shaped(Recorder(Rotated(fixer), Opened(TagBytes(t)), Segment(TagBytes(t), Print(audio), []), closed, false),
                   Shape([t], audio, []))
  {
    hide TagBytes, Prepended, Opened, Print;
    SeededByTag(t);
    assert Repair(FRESH, []) == [] && After(FRESH, []) == FRESH;
  }

  lemma ReceiveRotates(hash: Tag -> nat, max: nat, r: Recorder, chunk: seq<byte>)
    requires !r.aborted && chunk != [] && !Refused(r.fixer, chunk)
    requires var out := Output(hash, r.fixer, chunk); out != [] && Reports(r.detector, out)
    ensures var report := ReportOf(r.detector, Output(hash, r.fixer, chunk));
      Receive(hash, max, r, chunk) ==
      Recorder(Rotated(Next(hash, max, r.fixer, chunk)), Opened(report.videoTag),
               Segment(report.videoTag, report.audioTag, []), r.closed + [r.segment.bytes], false)
  {
  }

  /** The headers a rotation injects, as tags. */
  lemma RotationHeaders(r: Recorder, s: Shape, us: seq<Tag>)
    requires Shaped(r, s) && FirstChange(r.detector.memory, us) < |us|
    ensures var j := FirstChange(r.detector.memory, us);
      var audio := LastAudio(Repair(FRESH, s.kept) + us[..j]);
      && Print([us[j]]) == TagBytes(us[j])
      && |audio| <= 1 && (forall t :: t in audio ==> t.kind == AUDIO)
      && MemoryAfter(r.detector.memory, us[..j]).audio == Print(audio)
  {
    var before, j := Repair(FRESH, s.kept), FirstChange(r.detector.memory, us);
    NoChangeAppend(Known(s.video), before, us[..j]);
    AudioIsLast(Known(s.video), before + us[..j]);
    assert Print([us[j]]) == TagBytes(us[j]) + Print([]) == TagBytes(us[j]);
  }

  /** A video header tag seeds the next detector with its payload. */
  lemma SeededByTag(t: Tag)
    requires IsHeaderTag(t)
    ensures Opened(TagBytes(t)) == Detector(Known([t]), []) && t.data != []
  {
    CoreFields(t);
    var full := TagBytes(t);
    assert full[TAG_HEADER..|full| - PREV_TAG_SIZE] == TagCore(t)[TAG_HEADER..];
  }

  // ---- Over a whole recording ----

  /** The tags of the closed files, of the chunks in which they were cut, and of the current file. */
  datatype History = History(files: seq<Shape>, cut: seq<seq<Tag>>, current: Shape)

  const NO_HISTORY := History([], [], Shape([], [], []))

  function Recorded(hash: Tag -> nat, h: History, r: Recorder, chunk: seq<byte>): History {
    var next := NextShape(hash, r, h.current, chunk);
    if Rotates(hash, r, chunk) then History(h.files + [h.current], h.cut + [More(hash, r, chunk)], next)
    else h.(current := next)
  }

  function HistoryOf(hash: Tag -> nat, max: nat, h: History, r: Recorder, chunks: seq<seq<byte>>): History
    decreases |chunks|
  {
    if chunks == [] then h
    else HistoryOf(hash, max, Recorded(hash, h, r, chunks[0]), Receive(hash, max, r, chunks[0]), chunks[1..])
  }

  /** The kept tags of a whole stream. */
  function AllKept(hash: Tag -> nat, max: nat, r: Recorder, chunks: seq<seq<byte>>): seq<Tag>
    decreases |chunks|
  {
    if chunks == [] then []
    else More(hash, r, chunks[0]) + AllKept(hash, max, Receive(hash, max, r, chunks[0]), chunks[1..])
  }

  /** Each closed file's tags, then those of the chunk in which it was cut. */
  function Closed(files: seq<Shape>, cut: seq<seq<Tag>>): seq<Tag>
    requires |files| == |cut|
  {
    if files == [] then []
    else
      var n := |files| - 1;
      Closed(files[..n], cut[..n]) + files[n].kept + cut[n]
  }

  function FileOf(s: Shape): seq<byte> {
    if s.kept == [] then [] else Prepended(Print(s.video), Print(s.audio), Print(Repair(FRESH, s.kept)))
  }

  /** The tags of file k, the current one last. */
  function ShapeAt(h: History, k: nat): Shape
    requires k <= |h.files|
  {
    if k < |h.files| then h.files[k] else h.current
  }

  predicate IsAacTag(t: Tag) {
    t.kind == AUDIO && IsAudioHeader(t.data)
  }

  /** But for its timestamp, the last AAC header of these tags, or nothing if there is none. */
  ghost predicate IsLastAac(before: seq<Tag>, audio: seq<Tag>) {
    if audio == [] then forall t :: t in before ==> !IsAacTag(t)
    else
      && |audio| == 1
      && exists i :: 0 <= i < |before| && IsAacTag(before[i]) && audio[0] == before[i].(timestamp := audio[0].timestamp)
                     && forall k :: i < k < |before| ==> !IsAacTag(before[k])
  }

  /** What the next file injects, but for timestamps: a video header c of the chunk that was cut, and the last AAC
      header of the file before and of that chunk up to c. */
  ghost predicate Injects(before: Shape, cut: seq<Tag>, next: Shape) {
    && |next.video| == 1
    && exists c :: 0 <= c < |cut| && IsHeaderTag(cut[c])
                   && next.video[0] == cut[c].(timestamp := next.video[0].timestamp)
                   && IsLastAac(before.kept + cut[..c], next.audio)
  }

  /** An AAC header that was injected is not injected again: unless the stream repeats it, the file behind the next
      rotation has none. */
  lemma AacIsForgotten(before: Shape, cut: seq<Tag>, next: Shape)
    requires Injects(before, cut, next) && forall t :: t in before.kept + cut ==> !IsAacTag(t)
    ensures next.audio == []
  {
    var c :| 0 <= c < |cut| && IsHeaderTag(cut[c]) && IsLastAac(before.kept + cut[..c], next.audio);
    assert forall t :: t in before.kept + cut[..c] ==> t in before.kept + cut;
  }

  ghost predicate Tells(h: History, r: Recorder) {
    && Shaped(r, h.current)
    && |h.files| == |h.cut| == |r.closed|
    && (forall k :: 0 <= k < |h.files| ==> r.closed[k] == FileOf(h.files[k]))
    && (forall k :: 0 <= k < |h.cut| ==> Injects(ShapeAt(h, k), h.cut[k], ShapeAt(h, k + 1)))
  }

  lemma ShapedFile(r: Recorder, s: Shape)
    requires Shaped(r, s)
    ensures r.segment.bytes == FileOf(s)
  {
  }

  lemma {:induction false} LastAudioIsLast(ts: seq<Tag>)
    ensures IsLastAac(ts, LastAudio(ts))
    decreases |ts|
  {
    if ts != [] {
      var rest := LastAudio(ts[1..]);
      LastAudioIsLast(ts[1..]);
      if rest != [] {
        var i :| 0 <= i < |ts[1..]| && IsAacTag(ts[1..][i]) && rest[0] == ts[1..][i].(timestamp := rest[0].timestamp)
                 && forall k :: i < k < |ts[1..]| ==> !IsAacTag(ts[1..][k]);
        assert ts[i + 1] == ts[1..][i];
        assert forall k :: i + 1 < k < |ts| ==> ts[k] == ts[1..][k - 1];
      } else {
        assert forall k :: 0 < k < |ts| ==> ts[k] == ts[1..][k - 1] && ts[k] in ts[1..];
      }
    }
  }

  /** Timestamps do not matter. */
  lemma LastAacBehindRepair(ts: seq<Tag>, us: seq<Tag>, audio: seq<Tag>)
    requires |us| == |ts| && forall i :: 0 <= i < |ts| ==> us[i] == ts[i].(timestamp := us[i].timestamp)
    requires IsLastAac(us, audio)
    ensures IsLastAac(ts, audio)
  {
    hide IsAudioHeader;
    if audio == [] {
      forall t | t in ts
        ensures !IsAacTag(t)
      {
        var i :| 0 <= i < |ts| && ts[i] == t;
        assert us[i] in us;
      }
    } else {
      var i :| 0 <= i < |us| && IsAacTag(us[i]) && audio[0] == us[i].(timestamp := audio[0].timestamp)
               && forall k :: i < k < |us| ==> !IsAacTag(us[k]);
      assert IsAacTag(ts[i]);
      assert forall k :: i < k < |ts| ==> (IsAacTag(ts[k]) <==> IsAacTag(us[k]));
    }
  }

  /** The changed header that closes a file is the one the next file injects, with the AAC header before it. */
  lemma RotationInjects(hash: Tag -> nat, r: Recorder, s: Shape, chunk: seq<byte>)
    requires Rotates(hash, r, chunk)
    ensures Injects(s, More(hash, r, chunk), NextShape(hash, r, s, chunk))
  {
    hide Kept, Handed, LastAudio, Refused, IsLastAac;
    var more := More(hash, r, chunk);
    var us := Repair(r.fixer.store, more);
    var j := FirstChange(r.detector.memory, us);
    RepairKeepsContent(r.fixer.store, more);
    RepairKeepsContent(FRESH, s.kept);
    ChangeIsHeader(r.detector.memory, us);
    var next := NextShape(hash, r, s, chunk);
    assert next.audio == LastAudio(Repair(FRESH, s.kept) + us[..j]);
    hide Repair, FirstChange;
    assert more[j] in more && us[j] == more[j].(timestamp := us[j].timestamp);
    LastAudioIsLast(Repair(FRESH, s.kept) + us[..j]);
    LastAacBehindRepair(s.kept + more[..j], Repair(FRESH, s.kept) + us[..j], next.audio);
  }

  lemma ReceiveTells(hash: Tag -> nat, max: nat, h: History, r: Recorder, chunk: seq<byte>)
    requires Tells(h, r) && Plain(hash, r, chunk)
    ensures Tells(Recorded(hash, h, r, chunk), Receive(hash, max, r, chunk))
  {
    hide Shaped, Receive, Rotates, NextShape, FileOf, Handed, Injects, More;
    ReceiveKeepsShape(hash, max, r, h.current, chunk);
    ShapedFile(r, h.current);
    if Rotates(hash, r, chunk) {
      RotationInjects(hash, r, h.current, chunk);
      var next, n := Recorded(hash, h, r, chunk), |h.files|;
      forall k | 0 <= k < |next.cut|
        ensures Injects(ShapeAt(next, k), next.cut[k], ShapeAt(next, k + 1))
      {
        assert ShapeAt(next, k) == ShapeAt(h, k);
        assert k < n ==> ShapeAt(next, k + 1) == ShapeAt(h, k + 1) && next.cut[k] == h.cut[k];
      }
    } else {
      SameHeaders(hash, r, h.current, chunk);
      forall k | 0 <= k < |h.cut|
        ensures Injects(ShapeAt(h, k), h.cut[k], ShapeAt(Recorded(hash, h, r, chunk), k + 1))
      {
        InjectsHeaders(ShapeAt(h, k), h.cut[k], ShapeAt(h, k + 1), ShapeAt(Recorded(hash, h, r, chunk), k + 1));
      }
    }
  }

  lemma InjectsHeaders(before: Shape, cut: seq<Tag>, a: Shape, b: Shape)
    requires Injects(before, cut, a) && b.video == a.video && b.audio == a.audio
    ensures Injects(before, cut, b)
  {
    hide IsLastAac, IsHeaderTag;
  }

  lemma SameHeaders(hash: Tag -> nat, r: Recorder, s: Shape, chunk: seq<byte>)
    requires !Rotates(hash, r, chunk)
    ensures NextShape(hash, r, s, chunk).video == s.video && NextShape(hash, r, s, chunk).audio == s.audio
  {
    hide Kept, Handed, Repair, LastAudio, Refused;
  }

  lemma RecordedKeeps(hash: Tag -> nat, h: History, r: Recorder, chunk: seq<byte>)
    requires |h.files| == |h.cut|
    ensures var next := Recorded(hash, h, r, chunk);
      && |next.files| == |next.cut|
      && Closed(next.files, next.cut) + next.current.kept
         == Closed(h.files, h.cut) + h.current.kept + More(hash, r, chunk)
  {
    hide Kept, Handed, Repair, LastAudio, FirstChange, Refused;
    var next, more := Recorded(hash, h, r, chunk), More(hash, r, chunk);
    if Rotates(hash, r, chunk) {
      assert next.files[..|h.files|] == h.files && next.cut[..|h.cut|] == h.cut;
      assert next.current.kept == [];
    } else {
      assert next.current.kept == h.current.kept + more;
    }
  }

  lemma {:induction false} HistoryTells(hash: Tag -> nat, max: nat, h: History, r: Recorder, chunks: seq<seq<byte>>)
    requires Tells(h, r) && PlainTags(hash, max, r, chunks)
    ensures var end := HistoryOf(hash, max, h, r, chunks);
      && Tells(end, Record(hash, max, r, chunks))
      && Closed(end.files, end.cut) + end.current.kept
         == Closed(h.files, h.cut) + h.current.kept + AllKept(hash, max, r, chunks)
    decreases |chunks|
  {
    hide Shaped, Receive, Recorded, More, Closed, Handed, FileOf;
    if chunks != [] {
      ReceiveTells(hash, max, h, r, chunks[0]);
      RecordedKeeps(hash, h, r, chunks[0]);
      HistoryTells(hash, max, Recorded(hash, h, r, chunks[0]), Receive(hash, max, r, chunks[0]), chunks[1..]);
    }
  }

  lemma StartedIsShaped()
    ensures Shaped(Started(), NO_HISTORY.current) && Started().closed == []
  {
  }

  lemma {:induction false} RecordKeepsGood(hash: Tag -> nat, max: nat, r: Recorder, s: Shape, chunks: seq<seq<byte>>)
    requires Shaped(r, s) && PlainTags(hash, max, r, chunks)
    requires forall f :: f in r.closed ==> Good(f)
    ensures var end := Record(hash, max, r, chunks);
      Good(end.segment.bytes) && forall f :: f in end.closed ==> Good(f)
    decreases |chunks|
  {
    SegmentIsGood(r, s);
    if chunks != [] {
      ReceiveKeepsShape(hash, max, r, s, chunks[0]);
      RecordKeepsGood(hash, max, Receive(hash, max, r, chunks[0]), NextShape(hash, r, s, chunks[0]), chunks[1..]);
    }
  }
}
