/** The detector that reports a changed video sequence header in the fixer's output, over any chunks. */
module FlvDetector {
  import opened Bytes
  import opened FlvTag
  import opened FlvVideo

  /** What is remembered: the last video header payload and the last audio header tag, [] when none was seen. */
  datatype Memory = Memory(video: seq<byte>, audio: seq<byte>)

  datatype Detector = Detector(memory: Memory, pending: seq<byte>)

  /** The error that asks for a rotation. */
  datatype Report = Report(videoTag: seq<byte>, audioTag: seq<byte>, tagOffset: nat, tagEnd: nat)

  /** The outcome of scanning a buffer: up to the first change, or to the first incomplete tag. */
  datatype Outcome =
    | Quiet(memory: Memory, rest: seq<byte>)
    | Change(memory: Memory, at: nat, end: nat, tag: seq<byte>)

  const MIN_TAG := TAG_HEADER + PREV_TAG_SIZE

  function BodySize(buf: seq<byte>): nat
    requires |buf| >= MIN_TAG
  {
    U24(buf[1..4])
  }

  /** A whole tag with its trailing PreviousTagSize starts the buffer. */
  predicate Whole(buf: seq<byte>) {
    |buf| >= MIN_TAG && |buf| >= MIN_TAG + BodySize(buf)
  }

  function Payload(buf: seq<byte>): seq<byte>
    requires Whole(buf)
  {
    buf[TAG_HEADER..TAG_HEADER + BodySize(buf)]
  }

  /** The tag with a recomputed PreviousTagSize. */
  function WithPrevSize(buf: seq<byte>): seq<byte>
    requires Whole(buf)
  {
    buf[..TAG_HEADER + BodySize(buf)] + PutU32(TAG_HEADER + BodySize(buf))
  }

  function Following(buf: seq<byte>): seq<byte>
    requires Whole(buf)
  {
    buf[MIN_TAG + BodySize(buf)..]
  }

  predicate Changes(m: Memory, kind: byte, payload: seq<byte>) {
    kind == VIDEO && IsVideoHeader(payload) && m.video != [] && m.video != payload
  }

  function Remember(m: Memory, kind: byte, payload: seq<byte>, tag: seq<byte>): Memory {
    if kind == VIDEO && IsVideoHeader(payload) then m.(video := payload)
    else if kind == AUDIO && IsAudioHeader(payload) then m.(audio := tag)
    else m
  }

  function Shift(o: Outcome, n: nat): Outcome {
    match o
    case Quiet(_, _) => o
    case Change(m, at, end, tag) => Change(m, at + n, end + n, tag)
  }

  function Scan(m: Memory, buf: seq<byte>): Outcome
    decreases |buf|
  {
    if !Whole(buf) then Quiet(m, buf)
    else
      var m' := Remember(m, buf[0], Payload(buf), WithPrevSize(buf));
      if Changes(m, buf[0], Payload(buf)) then Change(m', 0, MIN_TAG + BodySize(buf), WithPrevSize(buf))
      else Shift(Scan(m', Following(buf)), MIN_TAG + BodySize(buf))
  }

  predicate StartsWithMagic(buf: seq<byte>) {
    |buf| >= FLV_HEADER && buf[0] == 'F' as int && buf[1] == 'L' as int && buf[2] == 'V' as int
  }

  /** A chunk that starts with an FLV file header, nothing being pending, is scanned from behind the header. */
  function Skipped(d: Detector, data: seq<byte>): nat {
    if d.pending == [] && StartsWithMagic(data) then
      (if |data| < FLV_HEADER + PREV_TAG_SIZE then |data| else FLV_HEADER + PREV_TAG_SIZE)
    else 0
  }

  function Minus(a: nat, b: nat): nat {
    if a < b then 0 else a - b
  }

  function Examine(d: Detector, data: seq<byte>): Outcome {
    var n := Skipped(d, data);
    Shift(Scan(d.memory, (d.pending + data)[n..]), n)
  }

  function Detected(d: Detector, data: seq<byte>): Detector {
    var o := Examine(d, data);
    Detector(o.memory, if o.Quiet? then o.rest else [])
  }

  /** The report of one call, if any; offsets count from the start of `data`. */
  predicate Reports(d: Detector, data: seq<byte>) {
    Examine(d, data).Change?
  }

  function ReportOf(d: Detector, data: seq<byte>): Report
    requires Reports(d, data)
  {
    var o := Examine(d, data);
    Report(o.tag, o.memory.audio, Minus(o.at, |d.pending|), Minus(o.end, |d.pending|))
  }

  // ---- The mutable detector ----

  class HeaderChangeDetector {
    var lastVideoHeader: seq<byte>
    var lastAudioTag: seq<byte>
    var pending: seq<byte>

    constructor ()
      ensures View() == Detector(Memory([], []), [])
    {
      lastVideoHeader, lastAudioTag, pending := [], [], [];
    }

    function View(): Detector
      reads this
    {
      Detector(Memory(lastVideoHeader, lastAudioTag), pending)
    }

    method Reset()
      modifies this
      ensures View() == Detector(Memory([], []), [])
    {
      lastVideoHeader, lastAudioTag, pending := [], [], [];
    }

    method SeedVideoHeader(full: seq<byte>)
      modifies this
      ensures View() == old(View()).(memory := Seeded(old(View()).memory, full))
    {
      if |full| <= TAG_HEADER + PREV_TAG_SIZE {
        return;
      }
      var tagData := full[TAG_HEADER..|full| - PREV_TAG_SIZE];
      if !IsVideoHeader(tagData) {
        return;
      }
      lastVideoHeader := tagData;
    }

    method DetectChange(data: seq<byte>) returns (changed: bool, report: Report)
      modifies this
      ensures changed == Reports(old(View()), data)
      ensures changed ==> report == ReportOf(old(View()), data)
      ensures View() == Detected(old(View()), data)
    {
      ghost var d := View();
      var carryLen := |pending|;
      var buf := pending + data;
      var offset := 0;
      if carryLen == 0 && |buf| >= FLV_HEADER && buf[0] == 'F' as int && buf[1] == 'L' as int && buf[2] == 'V' as int {
        offset := FLV_HEADER + PREV_TAG_SIZE;
      }
      ScanStart(d, data);
      var hit, tag, at, end := ScanTags(buf, offset);
      if hit {
        pending := [];
        return true, Report(tag, lastAudioTag, Minus(at, carryLen), Minus(end, carryLen));
      }
      pending := if at < |buf| then buf[at..] else [];
      return false, Report([], [], 0, 0);
    }

    /** The loop of DetectChange over the tags of `buf`: stops at the first change, or where no whole tag is left. */
    method ScanTags(buf: seq<byte>, from: nat) returns (hit: bool, tag: seq<byte>, at: nat, end: nat)
      modifies this`lastVideoHeader, this`lastAudioTag
      ensures var o := ScanOutcome(buf, old(View()).memory, from);
        && hit == o.Change? && View().memory == o.memory
        && (hit ==> tag == o.tag && at == o.at && end == o.end)
        && (!hit ==> o.rest == if at < |buf| then buf[at..] else [])
    {
      hide ScanOutcome, Whole, Payload, BodySize, WithPrevSize, Changes, Remember, Shift;
      ghost var o := ScanOutcome(buf, View().memory, from);
      at := from;
      while at + TAG_HEADER < |buf|
        invariant ScanOutcome(buf, View().memory, at) == o
      {
        ghost var m := View().memory;
        var whole, changed, bytes, next := ScanTag(buf, at);
        if !whole {
          ScanEnds(buf, m, at);
          return false, [], at, at;
        }
        ScanTurn(buf, m, at);
        if changed {
          return true, bytes, at, next;
        }
        at := next;
      }
      ScanEnds(buf, View().memory, at);
      return false, [], at, at;
    }

    /** The tag at `offset`, if it is whole: compares and remembers its header, and returns its end. */
    method ScanTag(buf: seq<byte>, offset: nat) returns (whole: bool, hit: bool, tag: seq<byte>, next: nat)
      requires offset + TAG_HEADER < |buf|
      modifies this`lastVideoHeader, this`lastAudioTag
      ensures whole == Whole(buf[offset..])
      ensures !whole ==> View() == old(View())
      ensures whole ==> var b, m := buf[offset..], old(View()).memory;
        && hit == Changes(m, b[0], Payload(b))
        && View().memory == Remember(m, b[0], Payload(b), WithPrevSize(b))
        && tag == WithPrevSize(b) && next == offset + MIN_TAG + BodySize(b)
    {
      var tagType := buf[offset];
      var dataSize := U24(buf[offset + 1..offset + 4]);
      var tagEnd := offset + TAG_HEADER + dataSize;
      next := tagEnd + PREV_TAG_SIZE;
      EntryAt(buf, offset);
      if next > |buf| {
        return false, false, [], offset;
      }
      tag := buf[offset..tagEnd] + PutU32(tagEnd - offset);
      hit := CheckHeaders(tagType, buf[offset + TAG_HEADER..tagEnd], tag);
      whole := true;
    }

    method CheckHeaders(tagType: byte, tagData: seq<byte>, tagBytes: seq<byte>) returns (hit: bool)
      modifies this`lastVideoHeader, this`lastAudioTag
      ensures hit == Changes(old(View()).memory, tagType, tagData)
      ensures View().memory == Remember(old(View()).memory, tagType, tagData, tagBytes)
    {
      hit := false;
      if tagType == VIDEO {
        hit := CheckVideoHeader(tagData);
      } else if tagType == AUDIO {
        CheckAudioHeader(tagData, tagBytes);
      }
    }

    /** Compares with, and remembers, a video sequence header. */
    method CheckVideoHeader(tagData: seq<byte>) returns (hit: bool)
      modifies this`lastVideoHeader
      ensures hit == Changes(old(View()).memory, VIDEO, tagData)
      ensures View().memory == Remember(old(View()).memory, VIDEO, tagData, [])
    {
      if !IsVideoHeader(tagData) {
        return false;
      }
      if lastVideoHeader == [] {
        lastVideoHeader := tagData;
        return false;
      }
      if lastVideoHeader != tagData {
        lastVideoHeader := tagData;
        return true;
      }
      return false;
    }

    method CheckAudioHeader(tagData: seq<byte>, tagBytes: seq<byte>)
      modifies this`lastAudioTag
      ensures View().memory == Remember(old(View()).memory, AUDIO, tagData, tagBytes)
    {
      if |tagData| < 2 || tagData[0] / 0x10 != 10 || tagData[1] != 0 {
        return;
      }
      lastAudioTag := tagBytes;
    }
  }

  function Seeded(m: Memory, full: seq<byte>): Memory {
    if |full| <= TAG_HEADER + PREV_TAG_SIZE then m
    else
      var tagData := full[TAG_HEADER..|full| - PREV_TAG_SIZE];
      if IsVideoHeader(tagData) then m.(video := tagData) else m
  }

  /** The fields of the entry at `offset`, seen from the remaining buffer. */
  lemma EntryAt(buf: seq<byte>, offset: nat)
    requires offset + TAG_HEADER < |buf|
    ensures var b, size := buf[offset..], U24(buf[offset + 1..offset + 4]);
      && Whole(b) == (offset + MIN_TAG + size <= |buf|)
      && (Whole(b) ==>
          && BodySize(b) == size && b[0] == buf[offset]
          && Payload(b) == buf[offset + TAG_HEADER..offset + TAG_HEADER + size]
          && WithPrevSize(b) == buf[offset..offset + TAG_HEADER + size] + PutU32(TAG_HEADER + size)
          && Following(b) == buf[offset + MIN_TAG + size..])
  {
    var b := buf[offset..];
    assert b[1..4] == buf[offset + 1..offset + 4];
    if Whole(b) {
      assert b[..TAG_HEADER + BodySize(b)] == buf[offset..offset + TAG_HEADER + BodySize(b)];
    }
  }

  /** The outcome of scanning `buf` from `offset`, in offsets of buf. */
  function ScanOutcome(buf: seq<byte>, m: Memory, offset: nat): Outcome {
    if offset > |buf| then Quiet(m, []) else Shift(Scan(m, buf[offset..]), offset)
  }

  lemma ScanStart(d: Detector, data: seq<byte>)
    ensures var skip := d.pending == [] && StartsWithMagic(d.pending + data);
      Examine(d, data) == ScanOutcome(d.pending + data, d.memory, if skip then FLV_HEADER + PREV_TAG_SIZE else 0)
  {
    assert d.pending == [] ==> d.pending + data == data;
  }

  lemma ScanEnds(buf: seq<byte>, m: Memory, offset: nat)
    requires offset + TAG_HEADER >= |buf| || !Whole(buf[offset..])
    ensures ScanOutcome(buf, m, offset) == Quiet(m, if offset < |buf| then buf[offset..] else [])
  {
  }

  lemma ScanTurn(buf: seq<byte>, m: Memory, offset: nat)
    requires offset + TAG_HEADER < |buf| && Whole(buf[offset..])
    ensures var b := buf[offset..];
      var m', n := Remember(m, b[0], Payload(b), WithPrevSize(b)), MIN_TAG + BodySize(b);
      ScanOutcome(buf, m, offset) ==
        if Changes(m, b[0], Payload(b)) then Change(m', offset, offset + n, WithPrevSize(b))
        else ScanOutcome(buf, m', offset + n)
  {
    var b := buf[offset..];
    assert Following(b) == buf[offset + MIN_TAG + BodySize(b)..];
  }
}
