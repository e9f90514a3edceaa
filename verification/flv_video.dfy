/** Recognising sequence headers inside FLV tag bodies. */
module FlvVideo {
  import opened Bytes
  import opened FlvTag

  datatype VideoKind = None | Avc | HevcLegacy | HevcEnhanced

  datatype VideoClass = VideoClass(kind: VideoKind, isHeader: bool, isKeyframe: bool)

  const HVC1: seq<byte> := [104, 118, 99, 49]
  const HEV1: seq<byte> := [104, 101, 118, 49]

  /** Bit 7 of the first byte (the enhanced layout) is looked at before the legacy codec id. */
  function ClassifyVideoTag(d: seq<byte>): VideoClass {
    if |d| == 0 then VideoClass(None, false, false)
    else if d[0] >= 0x80 then
      if |d| < 5 then VideoClass(None, false, false)
      else
        var key := d[0] / 0x10 % 8 == 1;
        if d[1..5] != HVC1 && d[1..5] != HEV1 then VideoClass(None, false, key)
        else VideoClass(HevcEnhanced, d[0] % 0x10 == 0, key)
    else if |d| < 2 then VideoClass(None, false, false)
    else
      var key := d[0] / 0x10 == 1;
      if d[0] % 0x10 == 7 then VideoClass(Avc, d[1] == 0, key)
      else if d[0] % 0x10 == 12 then VideoClass(HevcLegacy, d[1] == 0, key)
      else VideoClass(None, false, key)
  }

  predicate IsVideoHeader(d: seq<byte>) {
    ClassifyVideoTag(d).isHeader
  }

  /** AAC (sound format 10) with packet type 0. */
  predicate IsAudioHeader(d: seq<byte>) {
    |d| >= 2 && d[0] / 0x10 == 10 && d[1] == 0
  }
}
