/** The writer that opens an FLV file: file header, injected sequence headers, then the repaired tags. */
module FlvFile {
  import opened Bytes
  import opened FlvTag

  /** "FLV", version 1, audio and video present, header length 9. */
  const SIGNATURE: seq<byte> := [70, 76, 86, 1, 5, 0, 0, 0, 9]

  /** The signature and PreviousTagSize0. */
  const PREAMBLE: seq<byte> := SIGNATURE + [0, 0, 0, 0]

  function AtZero(tag: seq<byte>): seq<byte> {
    if |tag| < TAG_HEADER then tag else tag[..4] + [0, 0, 0, 0] + tag[8..]
  }

  function Prepended(video: seq<byte>, audio: seq<byte>, data: seq<byte>): seq<byte> {
    PREAMBLE + AtZero(video) + AtZero(audio) + data
  }

  /** Once per file: the preamble goes in front of the first data that is not empty. */
  class FlvHeaderWriter {
    const video: seq<byte>
    const audio: seq<byte>
    var written: bool

    constructor (video: seq<byte>, audio: seq<byte>)
      ensures this.video == video && this.audio == audio && !written
    {
      this.video, this.audio, written := video, audio, false;
    }

    method Process(data: seq<byte>) returns (out: seq<byte>)
      modifies this
      ensures written == (old(written) || data != [])
      ensures out == if data == [] || old(written) then data else Prepended(video, audio, data)
    {
      if |data| == 0 || written {
        return data;
      }
      written := true;
      out := Prepend(data);
    }

    method Prepend(data: seq<byte>) returns (result: seq<byte>)
      ensures result == Prepended(video, audio, data)
    {
      var vTag := NormalizeTagTimestamp(video);
      var aTag := NormalizeTagTimestamp(audio);
      result := PREAMBLE;
      if |vTag| > 0 {
        result := result + vTag;
      }
      if |aTag| > 0 {
        result := result + aTag;
      }
      result := result + data;
    }
  }

  /** Injected sequence headers start from timestamp 0. */
  method NormalizeTagTimestamp(tag: seq<byte>) returns (out: seq<byte>)
    ensures out == AtZero(tag)
    ensures |out| == |tag| && forall i :: 0 <= i < |tag| && !(4 <= i < 8) ==> out[i] == tag[i]
  {
    out := tag;
    if |out| >= TAG_HEADER {
      out := out[4 := 0];
      out := out[5 := 0];
      out := out[6 := 0];
      out := out[7 := 0];
      assert out[..4] == tag[..4] && out[4..8] == [0, 0, 0, 0] && out[8..] == tag[8..];
    }
  }

  /** The tags with timestamp 0. */
  function Rewound(ts: seq<Tag>): seq<Tag> {
    if ts == [] then [] else [ts[0].(timestamp := 0)] + Rewound(ts[1..])
  }

  /** A written tag around its four timestamp bytes. */
  lemma TagParts(t: Tag)
    ensures var w := Word(t.timestamp);
      TagBytes(t) == ([t.kind] + PutU24(|t.data|)) + (PutU24(w % 0x100_0000) + [w / 0x100_0000])
                     + (t.stream + t.data + PutU32(TAG_HEADER + |t.data|))
  {
    hide PutU24, PutU32, Word;
  }

  lemma AtZeroOfParts(a: seq<byte>, time: seq<byte>, b: seq<byte>)
    requires |a| == |time| == 4 && |b| >= 3
    ensures AtZero(a + time + b) == a + [0, 0, 0, 0] + b
  {
    var t := a + time + b;
    assert t[..4] == a && t[8..] == b;
  }

  lemma AtZeroOfTag(t: Tag)
    ensures AtZero(TagBytes(t)) == TagBytes(t.(timestamp := 0))
  {
    hide TagBytes, AtZero, PutU24, PutU32, Word;
    var z, w := t.(timestamp := 0), Word(t.timestamp);
    TagParts(t);
    TagParts(z);
    ZeroTimestamp();
    AtZeroOfParts([t.kind] + PutU24(|t.data|), PutU24(w % 0x100_0000) + [w / 0x100_0000],
                  t.stream + t.data + PutU32(TAG_HEADER + |t.data|));
  }

  lemma ZeroTimestamp()
    ensures Word(0) == 0 && PutU24(0) + [0] == [0, 0, 0, 0]
  {
  }

  lemma AtZeroOfNothing()
    ensures AtZero([]) == []
  {
  }

  /** At most one injected header of each sort. */
  lemma AtZeroOfPrint(ts: seq<Tag>)
    requires |ts| <= 1
    ensures AtZero(Print(ts)) == Print(Rewound(ts))
  {
    hide TagBytes, AtZero;
    if ts == [] {
      AtZeroOfNothing();
    } else {
      assert Print(ts) == TagBytes(ts[0]) + Print(ts[1..]) == TagBytes(ts[0]);
      AtZeroOfTag(ts[0]);
      var z := ts[0].(timestamp := 0);
      assert Rewound(ts[1..]) == [];
      assert Print([z]) == TagBytes(z) + Print([]) == TagBytes(z);
    }
  }

  const ZERO_SIZE: seq<byte> := [0, 0, 0, 0]

  lemma PrependedIsPrint(video: seq<Tag>, audio: seq<Tag>, ts: seq<Tag>)
    requires |video| <= 1 && |audio| <= 1
    ensures Prepended(Print(video), Print(audio), Print(ts)) ==
            SIGNATURE + (ZERO_SIZE + Print(Rewound(video) + Rewound(audio) + ts))
  {
    var v, a := Rewound(video), Rewound(audio);
    AtZeroOfPrint(video);
    AtZeroOfPrint(audio);
    PrintAppend(v, a);
    PrintAppend(v + a, ts);
    FourAssociate(SIGNATURE, ZERO_SIZE, Print(v), Print(a), Print(ts));
  }

  lemma FourAssociate(a: seq<byte>, b: seq<byte>, c: seq<byte>, d: seq<byte>, e: seq<byte>)
    ensures a + b + c + d + e == a + (b + (c + d + e))
  {
  }

  lemma BehindSignature(rest: seq<byte>)
    ensures |SIGNATURE + rest| >= FLV_HEADER
    ensures (SIGNATURE + rest)[..FLV_HEADER] == SIGNATURE && (SIGNATURE + rest)[FLV_HEADER..] == rest
  {
  }

  /** The PreviousTagSize fields of `body` are 0 and then 11 plus the body length of the tag before each. */
  ghost predicate SizesMatch(body: seq<byte>, all: seq<Tag>) {
    var p := PrevSizes(body);
    |p| == |all| + 1 && p[0] == 0 && forall i :: 0 <= i < |all| ==> p[i + 1] == TAG_HEADER + |all[i].data|
  }

  /** The file header (Annex E.2): signature, version 1, audio and video present, and its own length. */
  lemma HeaderFields(video: seq<byte>, audio: seq<byte>, data: seq<byte>)
    ensures var f := Prepended(video, audio, data);
      && f[..3] == ['F' as byte, 'L' as byte, 'V' as byte] && f[3] == 1
      && f[4] as int / 4 % 2 == 1 && f[4] as int % 2 == 1 && f[4] < 8 && f[4] as int / 2 % 2 == 0
      && BigEndian(f[5..9]) == 9 && BigEndian(f[9..13]) == 0
  {
    var f := Prepended(video, audio, data);
    assert f[..13] == PREAMBLE;
    assert f[5..9] == PREAMBLE[5..9] == [0, 0, 0, 9] && f[9..13] == PREAMBLE[9..13] == [0, 0, 0, 0];
    ReadsBigEndian(f[5..9]);
    ReadsBigEndian(f[9..13]);
    hide BigEndian, Prepended, AtZero;
  }

  /** A written file parses, behind its signature, to the injected headers at timestamp 0 followed by the tags;
      four bytes are left over, and every PreviousTagSize is right. */
  lemma FileReparses(video: seq<Tag>, audio: seq<Tag>, ts: seq<Tag>)
    requires |video| <= 1 && |audio| <= 1
    ensures var f := Prepended(Print(video), Print(audio), Print(ts));
      var all := Rewound(video) + Rewound(audio) + ts;
      && |f| >= FLV_HEADER && f[..FLV_HEADER] == SIGNATURE
      && Tags(f[FLV_HEADER..]) == all
      && |Rest(f[FLV_HEADER..])| == PREV_TAG_SIZE
      && SizesMatch(f[FLV_HEADER..], all)
  {
    var all := Rewound(video) + Rewound(audio) + ts;
    PrependedIsPrint(video, audio, ts);
    BehindSignature(ZERO_SIZE + Print(all));
    PrintParse(ZERO_SIZE, all);
    PrintedPrevSizes(ZERO_SIZE, all);
    assert U32(ZERO_SIZE) == 0;
  }
}
