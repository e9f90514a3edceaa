/** FLV tag bodies as the encoders write them (Annex E.4.2 and E.4.3 of the Video File Format Specification 10.1, and
    the enhanced layout with its FourCC), and what the detector makes of a stream of them. */
module FlvMedia {
  import opened Bytes
  import opened Collections
  import opened FlvTag
  import opened FlvVideo
  import opened FlvDetector
  import opened FlvDetection
  import opened FlvChunking

  type Nibble = n: nat | n < 16
  type FourCC = s: seq<byte> | |s| == 4 witness [0, 0, 0, 0]

  // ---- Video bodies ----

  datatype Codec = Avc | Hevc | OtherCodec(id: Nibble)

  datatype Packet = SequenceStart | CodedFrames | SequenceEnd | OtherPacket(n: byte)

  /** `frame` is 1 for a key frame. The packet of the enhanced layout has four bits. */
  datatype VideoBody =
    | Legacy(frame: nat, codec: Codec, packet: Packet, rest: seq<byte>)
    | Enhanced(frame: nat, packet: Packet, fourCC: FourCC, rest: seq<byte>)

  function PacketCode(p: Packet): byte {
    match p
    case SequenceStart => 0
    case CodedFrames => 1
    case SequenceEnd => 2
    case OtherPacket(n) => n
  }

  function CodecId(c: Codec): Nibble {
    match c
    case Avc => 7
    case Hevc => 12
    case OtherCodec(id) => id
  }

  /** The codes that have a name are not used for anything else, and every field fits its bits. */
  predicate VideoOk(v: VideoBody) {
    && v.frame < 8
    && (v.packet.OtherPacket? ==> v.packet.n > 2)
    && (v.Legacy? && v.codec.OtherCodec? ==> v.codec.id != 7 && v.codec.id != 12)
    && (v.Enhanced? ==> PacketCode(v.packet) < 16)
  }

  function PrintVideo(v: VideoBody): seq<byte>
    requires VideoOk(v)
  {
    match v
    case Legacy(frame, codec, packet, rest) => [frame * 16 + CodecId(codec), PacketCode(packet)] + rest
    case Enhanced(frame, packet, fourCC, rest) => [128 + frame * 16 + PacketCode(packet)] + fourCC + rest
  }

  predicate IsHevcCC(c: FourCC) {
    || c == ['h' as byte, 'v' as byte, 'c' as byte, '1' as byte]
    || c == ['h' as byte, 'e' as byte, 'v' as byte, '1' as byte]
  }

  /** The decoder configuration of an AVC or HEVC stream. */
  predicate IsConfiguration(v: VideoBody) {
    v.packet.SequenceStart? && if v.Legacy? then !v.codec.OtherCodec? else IsHevcCC(v.fourCC)
  }

  function LayoutOf(v: VideoBody): VideoKind {
    match v
    case Legacy(_, codec, _, _) =>
      (match codec
       case Avc => VideoKind.Avc
       case Hevc => HevcLegacy
       case OtherCodec(_) => VideoKind.None)
    case Enhanced(_, _, fourCC, _) => if IsHevcCC(fourCC) then HevcEnhanced else VideoKind.None
  }

  /** A written body is classified by what it is: its layout, and whether it is a configuration or a key frame. */
  lemma PrintedVideoIsClassified(v: VideoBody)
    requires VideoOk(v)
    ensures ClassifyVideoTag(PrintVideo(v)) == VideoClass(LayoutOf(v), IsConfiguration(v), v.frame == 1)
  {
    if v.Enhanced? {
      assert PrintVideo(v)[1..5] == v.fourCC;
    }
  }

  /** Too short to be a written body. */
  predicate VideoShort(d: seq<byte>) {
    |d| < 2 || (d[0] >= 128 && |d| < 5)
  }

  function PacketOf(n: byte): Packet {
    if n == 0 then SequenceStart else if n == 1 then CodedFrames else if n == 2 then SequenceEnd else OtherPacket(n)
  }

  function BodyOf(d: seq<byte>): VideoBody
    requires !VideoShort(d)
  {
    if d[0] >= 128 then Enhanced(d[0] / 16 - 8, PacketOf(d[0] % 16), d[1..5], d[5..])
    else
      var id := d[0] % 16;
      var codec := if id == 7 then Codec.Avc else if id == 12 then Hevc else OtherCodec(id);
      Legacy(d[0] / 16, codec, PacketOf(d[1]), d[2..])
  }

  /** Any other body is a written one, so nothing else is taken for a configuration. */
  lemma EveryVideoIsPrinted(d: seq<byte>)
    ensures VideoShort(d) ==> !IsVideoHeader(d)
    ensures !VideoShort(d) ==> VideoOk(BodyOf(d)) && PrintVideo(BodyOf(d)) == d
    ensures !VideoShort(d) ==> (IsVideoHeader(d) <==> IsConfiguration(BodyOf(d)))
  {
    if !VideoShort(d) {
      assert PrintVideo(BodyOf(d)) == d;
      PrintedVideoIsClassified(BodyOf(d));
    }
  }

  // ---- Audio bodies ----

  /** `packet` is meaningful for AAC, which is sound format 10. */
  datatype AudioBody = AudioBody(format: Nibble, flags: Nibble, packet: byte, rest: seq<byte>)

  function PrintAudio(a: AudioBody): seq<byte> {
    [a.format * 16 + a.flags, a.packet] + a.rest
  }

  predicate IsAacConfiguration(a: AudioBody) {
    a.format == 10 && a.packet == 0
  }

  lemma PrintedAudioIsClassified(a: AudioBody)
    ensures IsAudioHeader(PrintAudio(a)) <==> IsAacConfiguration(a)
  {
  }

  // ---- A stream of them ----

  datatype Medium = Video(v: VideoBody) | Audio(a: AudioBody) | Script(kind: byte, bytes: seq<byte>)

  predicate MediumOk(m: Medium) {
    match m
    case Video(v) => VideoOk(v)
    case Audio(_) => true
    case Script(kind, _) => kind != AUDIO && kind != VIDEO
  }

  /** The tag carries this medium. */
  predicate Carries(t: Tag, m: Medium) {
    MediumOk(m) &&
    match m
    case Video(v) => t.kind == VIDEO && t.data == PrintVideo(v)
    case Audio(a) => t.kind == AUDIO && t.data == PrintAudio(a)
    case Script(kind, bytes) => t.kind == kind && t.data == bytes
  }

  predicate IsConfig(m: Medium) {
    m.Video? && IsConfiguration(m.v)
  }

  predicate AllCarried(ts: seq<Tag>, ms: seq<Medium>) {
    |ts| == |ms| && forall i :: 0 <= i < |ts| ==> Carries(ts[i], ms[i])
  }

  lemma ConfigIsHeader(t: Tag, m: Medium)
    requires Carries(t, m)
    ensures IsHeaderTag(t) <==> IsConfig(m)
    ensures t.kind == AUDIO && IsAudioHeader(t.data) <==> m.Audio? && IsAacConfiguration(m.a)
  {
    match m
    case Video(v) => PrintedVideoIsClassified(v);
    case Audio(a) => PrintedAudioIsClassified(a);
    case Script(_, _) =>
  }

  /** The last AAC configuration before tag j, as a tag, or nothing. */
  function LastAac(ts: seq<Tag>, ms: seq<Medium>, j: nat): seq<byte>
    requires |ts| == |ms| && j <= |ts|
  {
    if j == 0 then []
    else if ms[j - 1].Audio? && IsAacConfiguration(ms[j - 1].a) then TagBytes(ts[j - 1])
    else LastAac(ts, ms, j - 1)
  }

  lemma {:induction false} AudioRemembered(ts: seq<Tag>, ms: seq<Medium>, j: nat)
    requires AllCarried(ts, ms) && j <= |ts|
    ensures MemoryAfter(Memory([], []), ts[..j]).audio == LastAac(ts, ms, j)
  {
    hide TagBytes, IsVideoHeader, IsAudioHeader, Carries, IsAacConfiguration;
    if j > 0 {
      AudioRemembered(ts, ms, j - 1);
      MemorySnoc(Memory([], []), ts, j - 1);
      ConfigIsHeader(ts[j - 1], ms[j - 1]);
    }
  }

  /** All configurations before j are the same. */
  ghost predicate OneConfigurationBefore(ts: seq<Tag>, ms: seq<Medium>, j: nat)
    requires |ts| == |ms| && j <= |ts|
  {
    forall i, k :: 0 <= i < j && 0 <= k < j && IsConfig(ms[i]) && IsConfig(ms[k]) ==> ts[i].data == ts[k].data
  }

  /** Tag j is a configuration that differs from one before it, and no tag before it is. */
  ghost predicate FirstOther(ts: seq<Tag>, ms: seq<Medium>, j: nat)
    requires |ts| == |ms| && j < |ts|
  {
    && OneConfigurationBefore(ts, ms, j) && IsConfig(ms[j])
    && exists i :: 0 <= i < j && IsConfig(ms[i]) && ts[i].data != ts[j].data
  }

  lemma {:induction false} KnownIsConfig(ts: seq<Tag>, ms: seq<Medium>, j: nat)
    requires AllCarried(ts, ms) && j <= |ts|
    ensures var known := MemoryAfter(Memory([], []), ts[..j]).video;
      known == [] || exists i :: 0 <= i < j && IsConfig(ms[i]) && ts[i].data == known
  {
    hide TagBytes, IsVideoHeader, IsAudioHeader, Carries, IsConfiguration;
    if j > 0 {
      KnownIsConfig(ts, ms, j - 1);
      MemorySnoc(Memory([], []), ts, j - 1);
      ConfigIsHeader(ts[j - 1], ms[j - 1]);
    }
  }

  lemma FirstChangeIsFirstOther(ts: seq<Tag>, ms: seq<Medium>)
    requires AllCarried(ts, ms)
    ensures var j := FirstChange(Memory([], []), ts);
      if j == |ts| then OneConfigurationBefore(ts, ms, |ts|) else FirstOther(ts, ms, j)
  {
    hide TagBytes, IsVideoHeader, Carries, IsConfiguration, FirstChange, MemoryAfter;
    var none := Memory([], []);
    var j := FirstChange(none, ts);
    FirstChangeMeans(none, ts);
    forall i | 0 <= i < |ts|
      ensures IsHeaderTag(ts[i]) <==> IsConfig(ms[i])
    {
      ConfigIsHeader(ts[i], ms[i]);
    }
    KnownIsConfig(ts, ms, j);
  }

  /** For every cutting of a stream of media: nothing is reported if and only if all AVC and HEVC configurations in it
      are the same, whatever pictures, ends of sequences, sound and scripts stand between them. Otherwise the report
      carries the first configuration that differs, and the last AAC configuration before it. */
  lemma ReportsOtherConfiguration(ts: seq<Tag>, ms: seq<Medium>, cs: seq<seq<byte>>)
    requires AllCarried(ts, ms) && (forall t :: t in ts ==> !LooksLikeHeader(t)) && Concat(cs) == Print(ts)
    ensures var f := DetectAll(Detector(Memory([], []), []), cs);
      && (f == Nothing <==> OneConfigurationBefore(ts, ms, |ts|))
      && (f.Found? ==>
           exists j :: 0 <= j < |ts| && FirstOther(ts, ms, j) && f.report.videoTag == TagBytes(ts[j])
                       && f.report.audioTag == LastAac(ts, ms, j))
  {
    hide TagBytes, Carries, IsConfig, LooksLikeHeader, FirstChange, MemoryAfter, DetectAll, Print, Concat, LastAac;
    var none := Memory([], []);
    var j := FirstChange(none, ts);
    EmptyIsQuiet();
    assert Print(ts) + [] == Print(ts);
    DetectsFirstChange(none, ts, [], cs);
    FirstChangeIsFirstOther(ts, ms);
    if j < |ts| {
      AudioRemembered(ts, ms, j);
    }
  }

  lemma EmptyIsQuiet()
    ensures !Whole([]) && !StartsWithMagic([])
  {
  }
}
