/** Over every cutting of a tag stream the detector reports exactly the first changed video header. */
module FlvDetection {
  import opened Bytes
  import opened Collections
  import opened FlvTag
  import opened FlvVideo
  import opened FlvDetector
  import opened FlvChunking

  datatype Finding = Nothing | Found(call: nat, report: Report)

  /** The first report over a series of calls. */
  function DetectAll(d: Detector, cs: seq<seq<byte>>): Finding
    decreases |cs|
  {
    if cs == [] then Nothing
    else if Reports(d, cs[0]) then Found(0, ReportOf(d, cs[0]))
    else
      var f := DetectAll(Detected(d, cs[0]), cs[1..]);
      if f.Nothing? then Nothing else Found(f.call + 1, f.report)
  }

  /** At no tag boundary does the stream look like an FLV file header. */
  predicate NoMagic(buf: seq<byte>)
    decreases |buf|
  {
    !StartsWithMagic(buf) && (Whole(buf) ==> NoMagic(Following(buf)))
  }

  lemma WholeAppend(a: seq<byte>, b: seq<byte>)
    requires Whole(a)
    ensures Whole(a + b) && BodySize(a + b) == BodySize(a) && (a + b)[0] == a[0]
    ensures Payload(a + b) == Payload(a) && WithPrevSize(a + b) == WithPrevSize(a)
    ensures Following(a + b) == Following(a) + b
  {
    assert (a + b)[1..4] == a[1..4];
    assert (a + b)[..TAG_HEADER + BodySize(a)] == a[..TAG_HEADER + BodySize(a)];
    assert (a + b)[TAG_HEADER..TAG_HEADER + BodySize(a)] == a[TAG_HEADER..TAG_HEADER + BodySize(a)];
  }

  /** Scanning in two steps is scanning at once. */
  lemma {:induction false} ScanAppend(m: Memory, a: seq<byte>, b: seq<byte>)
    ensures var o := Scan(m, a);
      if o.Quiet? then
        |o.rest| <= |a| && !Whole(o.rest) && Scan(m, a + b) == Shift(Scan(o.memory, o.rest + b), |a| - |o.rest|)
      else o.end <= |a| && Scan(m, a + b) == o
    decreases |a|
  {
    hide Remember, Payload, WithPrevSize;
    if Whole(a) {
      WholeAppend(a, b);
      hide Following, BodySize;
      ScanAppend(Remember(m, a[0], Payload(a), WithPrevSize(a)), Following(a), b);
    }
  }

  lemma {:induction false} NoMagicAppend(m: Memory, a: seq<byte>, b: seq<byte>)
    requires NoMagic(a + b) && Scan(m, a).Quiet?
    ensures NoMagic(Scan(m, a).rest + b)
    decreases |a|
  {
    if Whole(a) {
      WholeAppend(a, b);
      NoMagicAppend(Remember(m, a[0], Payload(a), WithPrevSize(a)), Following(a), b);
    }
  }

  /** A tag that was still incomplete in `p` ends behind p. */
  lemma EndsLater(m: Memory, p: seq<byte>, c: seq<byte>)
    requires !Whole(p) && Scan(m, p + c).Change?
    ensures Scan(m, p + c).end > |p|
  {
    var b := p + c;
    if |p| >= MIN_TAG {
      assert b[1..4] == p[1..4];
    }
    assert MIN_TAG + BodySize(b) > |p|;
  }

  /** One call sees what a scan of the pending and the new bytes sees, and what is still to come continues it. */
  lemma CallSeesScan(d: Detector, c: seq<byte>, more: seq<byte>)
    requires !Whole(d.pending) && NoMagic(d.pending + c + more)
    ensures var buf := d.pending + c;
      var o, whole := Scan(d.memory, buf), Scan(d.memory, buf + more);
      if o.Quiet? then
        && !Reports(d, c) && Detected(d, c) == Detector(o.memory, o.rest)
        && !Whole(o.rest) && NoMagic(o.rest + more) && |o.rest| <= |buf|
        && whole == Shift(Scan(o.memory, o.rest + more), |buf| - |o.rest|)
      else
        && whole == o && |d.pending| < o.end <= |buf|
        && Reports(d, c) && var r := ReportOf(d, c);
          r.videoTag == o.tag && r.audioTag == o.memory.audio && r.tagEnd == o.end - |d.pending|
  {
    var buf := d.pending + c;
    ScanAppend(d.memory, buf, more);
    assert StartsWithMagic(buf) ==> StartsWithMagic(buf + more);
    assert d.pending == [] ==> buf == c;
    assert buf[0..] == buf;
    ShiftNone(Scan(d.memory, buf));
    if Scan(d.memory, buf).Quiet? {
      NoMagicAppend(d.memory, buf, more);
    } else {
      EndsLater(d.memory, d.pending, c);
    }
    hide Scan, NoMagic, Whole;
  }

  /** The calls together see what one scan of everything sees, and the report's offset points just past the tag. */
  lemma {:induction false} DetectIsScan(d: Detector, cs: seq<seq<byte>>)
    requires !Whole(d.pending) && NoMagic(d.pending + Concat(cs))
    ensures var o, f := Scan(d.memory, d.pending + Concat(cs)), DetectAll(d, cs);
      if o.Quiet? then f == Nothing
      else
        && f.Found? && f.call < |cs|
        && f.report.videoTag == o.tag && f.report.audioTag == o.memory.audio
        && 0 < f.report.tagEnd <= |cs[f.call]|
        && |d.pending| + |Concat(cs[..f.call])| + f.report.tagEnd == o.end
    decreases |cs|
  {
    hide Scan, NoMagic, Whole, Examine, Detected, Reports, ReportOf;
    if cs == [] {
      assert d.pending + Concat(cs) == d.pending;
      NothingToFind(d);
    } else {
      var c, more := cs[0], Concat(cs[1..]);
      Associate(d.pending, c, more);
      CallSeesScan(d, c, more);
      if Reports(d, c) {
        assert cs[..0] == [];
      } else {
        DetectIsScan(Detected(d, c), cs[1..]);
        var f := DetectAll(Detected(d, c), cs[1..]);
        if f.Found? {
          assert cs[..f.call + 1][0] == c && cs[..f.call + 1][1..] == cs[1..][..f.call];
          assert cs[1..][f.call] == cs[f.call + 1];
        }
      }
    }
  }

  lemma NothingToFind(d: Detector)
    requires !Whole(d.pending)
    ensures Scan(d.memory, d.pending).Quiet?
  {
  }

  lemma ShiftNone(o: Outcome)
    ensures Shift(o, 0) == o
  {
  }

  // ---- On tags ----

  predicate IsHeaderTag(t: Tag) {
    t.kind == VIDEO && IsVideoHeader(t.data)
  }

  function RememberTag(m: Memory, t: Tag): Memory {
    Remember(m, t.kind, t.data, TagBytes(t))
  }

  function MemoryAfter(m: Memory, ts: seq<Tag>): Memory
    decreases |ts|
  {
    if ts == [] then m else MemoryAfter(RememberTag(m, ts[0]), ts[1..])
  }

  /** The index of the first tag that changes the video header, or |ts|. */
  function FirstChange(m: Memory, ts: seq<Tag>): (j: nat)
    ensures j <= |ts|
    decreases |ts|
  {
    if ts == [] || Changes(m, ts[0].kind, ts[0].data) then 0
    else 1 + FirstChange(RememberTag(m, ts[0]), ts[1..])
  }

  /** Up to there all video headers carry the remembered payload, or the first one's if none was remembered;
      the tag found is a video header with another payload. */
  lemma {:induction false} FirstChangeMeans(m: Memory, ts: seq<Tag>)
    ensures var j := FirstChange(m, ts);
      var known := MemoryAfter(m, ts[..j]).video;
      && (m.video != [] ==> known == m.video)
      && (forall i :: 0 <= i < j && IsHeaderTag(ts[i]) ==> ts[i].data == known)
      && (j < |ts| ==> IsHeaderTag(ts[j]) && ts[j].data != known && known != [])
    decreases |ts|
  {
    hide TagBytes, Print;
    var j := FirstChange(m, ts);
    if ts == [] || Changes(m, ts[0].kind, ts[0].data) {
      assert ts[..j] == [];
    } else {
      FirstChangeMeans(RememberTag(m, ts[0]), ts[1..]);
      PrefixStep(m, ts, j);
      forall i | 0 <= i < j && IsHeaderTag(ts[i])
        ensures ts[i].data == MemoryAfter(m, ts[..j]).video
      {
        if i > 0 {
          assert ts[i] == ts[1..][i - 1];
        }
      }
    }
  }

  lemma PrintedEntry(t: Tag, more: seq<byte>)
    ensures var b := TagBytes(t) + more;
      && Whole(b) && b[0] == t.kind && BodySize(b) == |t.data| && Payload(b) == t.data
      && WithPrevSize(b) == TagBytes(t) && Following(b) == more
  {
    var b := TagBytes(t) + more;
    CoreFields(t);
    assert b[1..4] == TagCore(t)[1..4];
    assert b[..TAG_HEADER + |t.data|] == TagCore(t);
    assert b[TAG_HEADER..TAG_HEADER + |t.data|] == TagCore(t)[TAG_HEADER..];
  }

  /** Prefixes of a tag sequence, seen from behind its first tag. */
  lemma PrefixStep(m: Memory, ts: seq<Tag>, j: nat)
    requires 0 < j <= |ts|
    ensures ts[..j][0] == ts[0] && ts[..j][1..] == ts[1..][..j - 1]
    ensures |Print(ts[..j])| == |TagBytes(ts[0])| + |Print(ts[1..][..j - 1])|
    ensures MemoryAfter(m, ts[..j]) == MemoryAfter(RememberTag(m, ts[0]), ts[1..][..j - 1])
  {
    assert ts[..j][1..] == ts[1..][..j - 1];
  }

  lemma {:induction false} ScanPrinted(m: Memory, ts: seq<Tag>, x: seq<byte>)
    requires !Whole(x)
    ensures Scan(m, Print(ts) + x) == Expected(m, ts, x)
    decreases |ts|
  {
    hide Print, TagBytes, MemoryAfter, Whole;
    if ts == [] {
      NothingToScan(m, x);
    } else {
      ScanFirst(m, ts, x);
      if !Changes(m, ts[0].kind, ts[0].data) {
        ScanPrinted(RememberTag(m, ts[0]), ts[1..], x);
      }
      OutcomeFirst(m, ts, x);
    }
  }

  /** What a scan of printed tags reports: the first change, or nothing and the rest. */
  function Expected(m: Memory, ts: seq<Tag>, x: seq<byte>): Outcome {
    var j := FirstChange(m, ts);
    if j == |ts| then Quiet(MemoryAfter(m, ts), x)
    else Change(MemoryAfter(m, ts[..j + 1]), |Print(ts[..j])|, |Print(ts[..j + 1])|, TagBytes(ts[j]))
  }

  lemma NothingToScan(m: Memory, x: seq<byte>)
    requires !Whole(x)
    ensures Scan(m, Print([]) + x) == Expected(m, [], x)
  {
    assert Print([]) + x == x;
  }

  lemma OutcomeFirst(m: Memory, ts: seq<Tag>, x: seq<byte>)
    requires ts != []
    ensures var m', n := RememberTag(m, ts[0]), |TagBytes(ts[0])|;
      Expected(m, ts, x) ==
        if Changes(m, ts[0].kind, ts[0].data) then Change(m', 0, n, TagBytes(ts[0]))
        else Shift(Expected(m', ts[1..], x), n)
  {
    hide TagBytes;
    var j := FirstChange(m, ts);
    if j < |ts| {
      PrefixStep(m, ts, j + 1);
    }
    if Changes(m, ts[0].kind, ts[0].data) {
      assert ts[1..][..0] == [] && ts[..0] == [];
    } else if j < |ts| {
      PrefixStep(m, ts, j);
    }
  }

  lemma ScanFirst(m: Memory, ts: seq<Tag>, x: seq<byte>)
    requires ts != []
    ensures var m', n, o := RememberTag(m, ts[0]), |TagBytes(ts[0])|, Scan(m, Print(ts) + x);
      o == if Changes(m, ts[0].kind, ts[0].data) then Change(m', 0, n, TagBytes(ts[0]))
           else Shift(Scan(m', Print(ts[1..]) + x), n)
  {
    Associate(TagBytes(ts[0]), Print(ts[1..]), x);
    PrintedEntry(ts[0], Print(ts[1..]) + x);
  }

  /** A tag that starts with the bytes of "FLV": its type is 'F' and its size starts with 'L' and 'V'. */
  predicate LooksLikeHeader(t: Tag) {
    t.kind == 'F' as int && |t.data| / 0x100 == 'L' as int * 0x100 + 'V' as int
  }

  lemma MagicIsLookalike(t: Tag, more: seq<byte>)
    requires StartsWithMagic(TagBytes(t) + more)
    ensures LooksLikeHeader(t)
  {
    hide TagBytes;
    PrintedEntry(t, more);
    var b := TagBytes(t) + more;
    assert BodySize(b) == b[1] as int * 0x1_0000 + b[2] as int * 0x100 + b[3] as int;
  }

  /** A tag stream none of whose tags looks like a file header never looks like one. */
  lemma {:induction false} TagsAreNoMagic(ts: seq<Tag>, x: seq<byte>)
    requires forall t :: t in ts ==> !LooksLikeHeader(t)
    requires !Whole(x) && !StartsWithMagic(x)
    ensures NoMagic(Print(ts) + x)
    decreases |ts|
  {
    if ts == [] {
      assert Print(ts) + x == x;
    } else {
      Associate(TagBytes(ts[0]), Print(ts[1..]), x);
      PrintedEntry(ts[0], Print(ts[1..]) + x);
      assert !StartsWithMagic(Print(ts) + x) by {
        assert !LooksLikeHeader(ts[0]);
        if StartsWithMagic(Print(ts) + x) {
          MagicIsLookalike(ts[0], Print(ts[1..]) + x);
        }
      }
      TagsAreNoMagic(ts[1..], x);
    }
  }

  /** For every cutting of whole tags, possibly followed by a tag begun: no report if no header changes; otherwise
      the first changed header is reported, in the call that completes it, with 0 < tagEnd <= |chunk| pointing just
      past it, together with the last audio header before it. */
  lemma DetectsFirstChange(m: Memory, ts: seq<Tag>, x: seq<byte>, cs: seq<seq<byte>>)
    requires forall t :: t in ts ==> !LooksLikeHeader(t)
    requires !Whole(x) && !StartsWithMagic(x) && Concat(cs) == Print(ts) + x
    ensures var j, f := FirstChange(m, ts), DetectAll(Detector(m, []), cs);
      if j == |ts| then f == Nothing
      else
        && f.Found? && f.call < |cs|
        && f.report.videoTag == TagBytes(ts[j]) && f.report.audioTag == MemoryAfter(m, ts[..j]).audio
        && 0 < f.report.tagEnd <= |cs[f.call]|
        && |Concat(cs[..f.call])| + f.report.tagEnd == |Print(ts[..j + 1])|
  {
    hide Print, TagBytes, Scan, Concat, MemoryAfter, FirstChange, DetectAll, Whole, StartsWithMagic, NoMagic;
    TagsAreNoMagic(ts, x);
    ScanPrinted(m, ts, x);
    EmptyIsNotWhole();
    var d := Detector(m, []);
    assert d.pending + Concat(cs) == Print(ts) + x;
    DetectIsScan(d, cs);
    ChangeKeepsAudio(m, ts);
  }

  lemma EmptyIsNotWhole()
    ensures !Whole([])
  {
  }

  /** The tag that changes the video header leaves the remembered audio header. */
  lemma ChangeKeepsAudio(m: Memory, ts: seq<Tag>)
    ensures var j := FirstChange(m, ts);
      j < |ts| ==> MemoryAfter(m, ts[..j + 1]).audio == MemoryAfter(m, ts[..j]).audio
  {
    var j := FirstChange(m, ts);
    if j < |ts| {
      MemorySnoc(m, ts, j);
      FirstChangeMeans(m, ts);
    }
  }

  lemma {:induction false} MemorySnoc(m: Memory, ts: seq<Tag>, j: nat)
    requires j < |ts|
    ensures MemoryAfter(m, ts[..j + 1]) == RememberTag(MemoryAfter(m, ts[..j]), ts[j])
    decreases |ts|
  {
    hide RememberTag;
    if j > 0 {
      MemorySnoc(RememberTag(m, ts[0]), ts[1..], j - 1);
      assert ts[..j][1..] == ts[1..][..j - 1] && ts[..j + 1][1..] == ts[1..][..j];
    }
  }

  /** The condition is needed: a chunk that starts with a tag that looks like a file header is read from the middle of
      that tag, and three bytes of its body are enough for every change in the chunk to go unnoticed. */
  lemma LookalikeHidesChanges(m: Memory, t: Tag, more: seq<Tag>)
    requires LooksLikeHeader(t) && t.data[3..6] == [0xff, 0xff, 0xff] && |t.data| + |Print(more)| < 0xff_ffff
    ensures !Reports(Detector(m, []), Print([t] + more))
  {
    hide TagBytes, Scan;
    var out, n := Print([t] + more), FLV_HEADER + PREV_TAG_SIZE;
    assert ([t] + more)[1..] == more && out == TagBytes(t) + Print(more);
    LookalikeEntry(t, Print(more));
    assert [] + out == out;
    NothingToFind(Detector(m, out[n..]));
  }

  lemma LookalikeEntry(t: Tag, more: seq<byte>)
    requires LooksLikeHeader(t) && t.data[3..6] == [0xff, 0xff, 0xff] && |t.data| + |more| < 0xff_ffff
    ensures var b := TagBytes(t) + more;
      StartsWithMagic(b) && |b| >= FLV_HEADER + PREV_TAG_SIZE && !Whole(b[FLV_HEADER + PREV_TAG_SIZE..])
  {
    PrintedEntry(t, more);
    hide TagBytes;
    var b, n := TagBytes(t) + more, FLV_HEADER + PREV_TAG_SIZE;
    assert BodySize(b) == b[1] as int * 0x1_0000 + b[2] as int * 0x100 + b[3] as int;
    var body := b[TAG_HEADER..TAG_HEADER + |t.data|];
    assert body == t.data && body[3..6] == t.data[3..6];
    forall i | 0 <= i < 3
      ensures b[n..][1..4][i] == body[3..6][i]
    {
      assert b[n..][1..4][i] == b[n + 1 + i];
      assert body[3..6][i] == b[TAG_HEADER + 3 + i];
    }
    assert b[n..][1..4] == [0xff, 0xff, 0xff];
  }

  /** What one non-empty output does to the detector. */
  lemma DetectorOnOutput(m: Memory, us: seq<Tag>)
    requires us != [] && !LooksLikeHeader(us[0])
    ensures var d, out, j := Detector(m, []), Print(us), FirstChange(m, us);
      && out != []
      && Reports(d, out) == (j < |us|)
      && (j == |us| ==> Detected(d, out) == Detector(MemoryAfter(m, us), []))
      && (j < |us| ==> ReportOf(d, out).videoTag == TagBytes(us[j]) &&
                       ReportOf(d, out).audioTag == MemoryAfter(m, us[..j]).audio)
  {
    var d, out, none := Detector(m, []), Print(us), [];
    ScanPrinted(m, us, none);
    OutputHasNoMagic(us);
    ChangeKeepsAudio(m, us);
    hide Scan, Print, TagBytes, FirstChange, MemoryAfter, StartsWithMagic;
    assert out + none == out && d.pending + out == out && out[0..] == out;
    ShiftNone(Scan(m, out));
  }

  /** The exact condition: the tags of type k and size n at the start of a chunk leave every report right, whatever is
      remembered and follows, if and only if they do not look like a file header. */
  lemma LookalikeExactly(k: byte, n: nat)
    requires n < 0x100_0000
    ensures ReportsRight(k, n) <==> !(k == 'F' as int && n / 0x100 == 'L' as int * 0x100 + 'V' as int)
  {
    if k == 'F' as int && n / 0x100 == 'L' as int * 0x100 + 'V' as int {
      LookalikeMisreports(k, n);
    } else {
      forall m: Memory, t: Tag, more: seq<Tag> | t.kind == k && |t.data| == n
        ensures Reports(Detector(m, []), Print([t] + more)) <==> FirstChange(m, [t] + more) < |[t] + more|
      {
        DetectorOnOutput(m, [t] + more);
      }
    }
  }

  ghost predicate ReportsRight(k: byte, n: nat) {
    forall m: Memory, t: Tag, more: seq<Tag> :: t.kind == k && |t.data| == n ==>
      (Reports(Detector(m, []), Print([t] + more)) <==> FirstChange(m, [t] + more) < |[t] + more|)
  }

  /** A remembered video header, and a tag that changes it. */
  const KNOWN := Memory([0x17, 0, 1], [])
  const CHANGED := Tag(VIDEO, 0, [0, 0, 0], [0x17, 0, 2])

  lemma ChangedIsChange(t: Tag)
    requires t.kind != VIDEO && t.kind != AUDIO
    ensures FirstChange(KNOWN, [t] + [CHANGED]) == 1
  {
    assert ([t] + [CHANGED])[1..] == [CHANGED];
    assert RememberTag(KNOWN, t) == KNOWN && Changes(KNOWN, CHANGED.kind, CHANGED.data);
  }

  lemma LookalikeMisreports(k: byte, n: nat)
    requires k == 'F' as int && n / 0x100 == 'L' as int * 0x100 + 'V' as int
    ensures !ReportsRight(k, n)
  {
    hide TagBytes, FirstChange, Reports;
    var t := Tag(k, 0, [0, 0, 0], seq(n, _ => 0xff));
    ChangedIsChange(t);
    assert |Print([CHANGED])| == 18 by {
      assert Print([CHANGED]) == TagBytes(CHANGED) + Print([]);
    }
    assert t.data[3..6] == [0xff, 0xff, 0xff];
    LookalikeHidesChanges(KNOWN, t, [CHANGED]);
    assert !(Reports(Detector(KNOWN, []), Print([t] + [CHANGED]))
             <==> FirstChange(KNOWN, [t] + [CHANGED]) < |[t] + [CHANGED]|);
  }

  lemma OutputHasNoMagic(us: seq<Tag>)
    requires us != [] && !LooksLikeHeader(us[0])
    ensures Print(us) != [] && !StartsWithMagic(Print(us))
  {
    hide TagBytes, LooksLikeHeader;
    PrintedEntry(us[0], Print(us[1..]));
    if StartsWithMagic(Print(us)) {
      MagicIsLookalike(us[0], Print(us[1..]));
    }
  }
}
