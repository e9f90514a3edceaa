/** What the decode-time pass means on well-nested segments: a transformation of the box tree. */
module Fmp4Tree {
  import opened Bytes
  import opened Collections
  import opened IsoBox
  import opened Fmp4Fragment

  type Code = k: nat | k < TWO_32

  /** A box body that fits a 32-bit size. */
  type Body = b: seq<byte> | |b| + 8 < TWO_32

  /** Boxes inside a traf, inside a moof, and at the top level of a segment. */
  datatype Part = Part(kind: Code, body: Body)
  datatype Child = Plain(kind: Code, body: Body) | Traf(parts: seq<Part>)
  datatype Top = Other(kind: Code, body: Body) | Moof(children: seq<Child>)

  // ---- Bytes of a tree ----

  function BoxHead(kind: Code, size: nat): (b: seq<byte>)
    requires size + 8 < TWO_32
    ensures |b| == 8
  {
    PutU32(8 + size) + PutU32(kind)
  }

  function BoxBytes(kind: Code, body: Body): (b: seq<byte>)
    ensures |b| == 8 + |body|
  {
    BoxHead(kind, |body|) + body
  }

  function PartsBytes(ps: seq<Part>): seq<byte> {
    if ps == [] then [] else BoxBytes(ps[0].kind, ps[0].body) + PartsBytes(ps[1..])
  }

  predicate ChildFits(c: Child) {
    if c.Plain? then c.kind != TRAF else |PartsBytes(c.parts)| + 8 < TWO_32
  }

  function ChildBytes(c: Child): (b: seq<byte>)
    requires ChildFits(c)
  {
    if c.Plain? then BoxBytes(c.kind, c.body) else BoxBytes(TRAF, PartsBytes(c.parts))
  }

  predicate ChildrenFit(cs: seq<Child>) {
    cs == [] || (ChildFits(cs[0]) && ChildrenFit(cs[1..]))
  }

  function ChildrenBytes(cs: seq<Child>): seq<byte>
    requires ChildrenFit(cs)
  {
    if cs == [] then [] else ChildBytes(cs[0]) + ChildrenBytes(cs[1..])
  }

  predicate TopFits(t: Top) {
    if t.Other? then t.kind != MOOF else ChildrenFit(t.children) && |ChildrenBytes(t.children)| + 8 < TWO_32
  }

  function TopBytes(t: Top): (b: seq<byte>)
    requires TopFits(t)
  {
    if t.Other? then BoxBytes(t.kind, t.body) else BoxBytes(MOOF, ChildrenBytes(t.children))
  }

  predicate TopsFit(ts: seq<Top>) {
    ts == [] || (TopFits(ts[0]) && TopsFit(ts[1..]))
  }

  function TopsBytes(ts: seq<Top>): seq<byte>
    requires TopsFit(ts)
  {
    if ts == [] then [] else TopBytes(ts[0]) + TopsBytes(ts[1..])
  }

  // ---- The pass on trees ----

  datatype Out<+T> = Out(value: T, bases: Bases)

  /** The width of the decode time in a tfdt body, 0 if the body is too short. */
  function BodyWidth(body: Body): nat {
    if |body| < 8 then 0 else if body[0] == 1 then (if |body| < 12 then 0 else 8) else 4
  }

  function BodyTime(body: Body): nat
    requires BodyWidth(body) != 0
  {
    Time(body[4..4 + BodyWidth(body)])
  }

  function NormBody(body: Body, track: nat, bases: Bases): Out<Body> {
    var w := BodyWidth(body);
    if track == 0 || w == 0 then Out(body, bases)
    else
      var next := Lowered(bases, track, BodyTime(body));
      Out(Patch(body, 4, PutTime(w, BodyTime(body) - next[track])), next)
  }

  function BodyTrack(body: Body): nat {
    if |body| < 8 then 0 else U32(body[4..8])
  }

  function TrackOf(ps: seq<Part>): nat {
    if ps == [] then 0
    else if ps[0].kind == TFHD && BodyTrack(ps[0].body) != 0 then BodyTrack(ps[0].body)
    else TrackOf(ps[1..])
  }

  function NormPart(p: Part, track: nat, bases: Bases): Out<Part> {
    if p.kind == TFDT then
      var o := NormBody(p.body, track, bases);
      Out(p.(body := o.value), o.bases)
    else Out(p, bases)
  }

  function NormParts(ps: seq<Part>, track: nat, bases: Bases): Out<seq<Part>>
    decreases |ps|
  {
    if ps == [] then Out([], bases)
    else
      var o := NormPart(ps[0], track, bases);
      var r := NormParts(ps[1..], track, o.bases);
      Out([o.value] + r.value, r.bases)
  }

  function NormChild(c: Child, bases: Bases): Out<Child> {
    if c.Plain? || TrackOf(c.parts) == 0 then Out(c, bases)
    else
      var o := NormParts(c.parts, TrackOf(c.parts), bases);
      Out(Traf(o.value), o.bases)
  }

  function NormChildren(cs: seq<Child>, bases: Bases): Out<seq<Child>>
    decreases |cs|
  {
    if cs == [] then Out([], bases)
    else
      var o := NormChild(cs[0], bases);
      var r := NormChildren(cs[1..], o.bases);
      Out([o.value] + r.value, r.bases)
  }

  function NormTop(t: Top, bases: Bases): Out<Top> {
    if t.Other? then Out(t, bases)
    else
      var o := NormChildren(t.children, bases);
      Out(Moof(o.value), o.bases)
  }

  function NormTops(ts: seq<Top>, bases: Bases): Out<seq<Top>>
    decreases |ts|
  {
    if ts == [] then Out([], bases)
    else
      var o := NormTop(ts[0], bases);
      var r := NormTops(ts[1..], o.bases);
      Out([o.value] + r.value, r.bases)
  }

  // ---- What the bodies say ----

  type Flags = f: seq<byte> | |f| == 3 witness [0, 0, 0]

  /** The decode time box (section 8.8.12): 64 bits of time in version 1, 32 otherwise. */
  datatype Tfdt = Tfdt(version: byte, flags: Flags, time: nat, rest: seq<byte>)

  predicate TfdtOk(t: Tfdt) {
    (if t.version == 1 then t.time < TWO_64 else t.time < TWO_32) && |t.rest| + 20 < TWO_32
  }

  function PrintTfdt(t: Tfdt): (b: Body)
    requires TfdtOk(t)
  {
    [t.version] + t.flags + (if t.version == 1 then PutU64(t.time) else PutU32(t.time)) + t.rest
  }

  /** A written decode time is read back, lowers its track's base if it is smaller, and is rewritten as what it exceeds
      the base by; nothing else of the box changes. */
  lemma PrintedTfdt(t: Tfdt, track: nat, bases: Bases)
    requires TfdtOk(t)
    ensures var b, base := PrintTfdt(t), if track in bases && bases[track] < t.time then bases[track] else t.time;
      && BodyWidth(b) == (if t.version == 1 then 8 else 4) && BodyTime(b) == t.time
      && (track != 0 ==> NormBody(b, track, bases) == Out(PrintTfdt(t.(time := t.time - base)), bases[track := base]))
      && (track == 0 ==> NormBody(b, track, bases) == Out(b, bases))
  {
    hide PutU32, PutU64, U32, U64;
    var b, base := PrintTfdt(t), if track in bases && bases[track] < t.time then bases[track] else t.time;
    var w := if t.version == 1 then 8 else 4;
    var field := if t.version == 1 then PutU64(t.time) else PutU32(t.time);
    var head := [t.version] + t.flags;
    assert b == head + field + t.rest;
    PatchMiddle(head, field, PutTime(w, t.time - base), t.rest);
    assert Lowered(bases, track, t.time) == bases[track := base];
  }

  lemma PatchMiddle(head: seq<byte>, field: seq<byte>, after: seq<byte>, rest: seq<byte>)
    requires |head| == 4 && |field| == |after|
    ensures var b := head + field + rest;
      b[4..4 + |field|] == field && Patch(b, 4, after) == head + after + rest
  {
  }

  /** The track id stands behind version and flags of the track fragment header (section 8.8.7); a body too short for it
      names no track. */
  lemma PrintedTfhd(version: byte, flags: Flags, track: nat, rest: seq<byte>)
    requires track < TWO_32 && |rest| + 16 < TWO_32
    ensures BodyTrack([version] + flags + PutU32(track) + rest) == track
  {
    hide PutU32, U32;
    assert ([version] + flags + PutU32(track) + rest)[4..8] == PutU32(track);
  }

  /** The track of a fragment is that of its first header that names one. */
  lemma {:induction false} TrackOfIsFirst(ps: seq<Part>)
    ensures TrackOf(ps) == 0 ==> forall i :: 0 <= i < |ps| && ps[i].kind == TFHD ==> BodyTrack(ps[i].body) == 0
    ensures TrackOf(ps) != 0 ==>
      exists i :: 0 <= i < |ps| && ps[i].kind == TFHD && BodyTrack(ps[i].body) == TrackOf(ps)
                  && forall k :: 0 <= k < i && ps[k].kind == TFHD ==> BodyTrack(ps[k].body) == 0
    decreases |ps|
  {
    hide BodyTrack;
    if ps != [] {
      TrackOfIsFirst(ps[1..]);
      if TrackOf(ps) != 0 && TrackOf(ps) == TrackOf(ps[1..]) && !(ps[0].kind == TFHD && BodyTrack(ps[0].body) != 0) {
        var i :| 0 <= i < |ps[1..]| && ps[1..][i].kind == TFHD && BodyTrack(ps[1..][i].body) == TrackOf(ps[1..])
                 && forall k :: 0 <= k < i && ps[1..][k].kind == TFHD ==> BodyTrack(ps[1..][k].body) == 0;
        assert ps[i + 1] == ps[1..][i];
        assert forall k :: 0 < k < i + 1 ==> ps[k] == ps[1..][k - 1];
      } else if TrackOf(ps) == 0 {
        assert forall k :: 0 < k < |ps| ==> ps[k] == ps[1..][k - 1];
      }
    }
  }

  lemma ShortBodies(b: Body)
    ensures |b| < 8 ==> BodyTrack(b) == 0 && BodyWidth(b) == 0
    ensures 8 <= |b| < 12 && b[0] == 1 ==> BodyWidth(b) == 0
  {
  }

  // ---- A fragment with a 64-bit size ----

  lemma LargeSizeField(pre: seq<byte>, body: seq<byte>, post: seq<byte>)
    requires 16 + |body| < TWO_32
    ensures var d, off := pre + WrittenHeader(Large, MOOF, |body|) + (body + post), |pre| + 8;
      && off + 8 <= |d| && U32(d[off..off + 4]) == 0 && U32(d[off + 4..off + 8]) == 16 + |body|
  {
    hide PutU32, U32;
    var h := WrittenHeader(Large, MOOF, |body|);
    SliceInside(pre, h, body + post, 8, 12);
    SliceInside(pre, h, body + post, 12, 16);
    assert h[8..16] == PutU64(16 + |body|) && h[8..12] == h[8..16][..4] && h[12..16] == h[8..16][4..];
    assert PutU64(16 + |body|)[..4] == PutU32(0) && PutU64(16 + |body|)[4..] == PutU32(16 + |body|);
  }

  /** The pass looks for children 8 bytes behind the start of a fragment, where one with a 64-bit size has that size: it
      finds a box there that reaches to the end of the data, and leaves all decode times as they are. */
  lemma LargeFragmentIsUntouched(pre: seq<byte>, body: seq<byte>, post: seq<byte>, bases: Bases)
    requires 16 + |body| < TWO_32 && 16 + |body| != TRAF
    ensures var d := pre + WrittenHeader(Large, MOOF, |body|) + (body + post);
      && ReadHeader(d, |pre|) == Box(16 + |body|, MOOF, 16)
      && MoofPass(d, |pre| + 8, |pre| + 16 + |body|, bases) == Pass(d, bases, 0)
  {
    hide WrittenHeader, U32, U64, TrafPass;
    HeaderRoundTrip(pre, Large, MOOF, body, post);
    LargeSizeField(pre, body, post);
    var d, off := pre + WrittenHeader(Large, MOOF, |body|) + (body + post), |pre| + 8;
    assert ReadHeader(d, off) == Box(|d| - off, 16 + |body|, 8);
    assert MoofPass(d, |d|, |pre| + 16 + |body|, bases) == Pass(d, bases, 0);
  }

  // ---- The walk over the bytes is the pass on the tree ----

  lemma HeaderOfBox(pre: seq<byte>, kind: Code, body: Body, post: seq<byte>)
    ensures var d := pre + BoxBytes(kind, body) + post;
      |d| == |pre| + 8 + |body| + |post| && ReadHeader(d, |pre|) == Box(8 + |body|, kind, 8)
  {
    var d, n := pre + BoxBytes(kind, body) + post, |pre|;
    assert d[n..n + 4] == PutU32(8 + |body|);
    assert d[n + 4..n + 8] == PutU32(kind);
  }

  lemma BodyOfBox(pre: seq<byte>, kind: Code, body: Body, post: seq<byte>, i: nat, j: nat)
    requires i <= j <= |body|
    ensures var d := pre + BoxBytes(kind, body) + post;
      |pre| + 8 + j <= |d| && d[|pre| + 8 + i..|pre| + 8 + j] == body[i..j]
  {
  }

  lemma PatchInBox(pre: seq<byte>, kind: Code, body: Body, post: seq<byte>, field: seq<byte>)
    requires 4 + |field| <= |body|
    ensures Patch(pre + BoxBytes(kind, body) + post, |pre| + 12, field) ==
            pre + BoxBytes(kind, Patch(body, 4, field)) + post
  {
    hide PutU32;
  }

  lemma TfdtOnTree(pre: seq<byte>, body: Body, post: seq<byte>, track: nat, bases: Bases)
    ensures var d, o := pre + BoxBytes(TFDT, body) + post, NormBody(body, track, bases);
      |pre| + 8 + |body| <= |d| &&
      var p := TfdtPass(d, |pre|, |pre| + 8 + |body|, track, bases);
      p.data == pre + BoxBytes(TFDT, o.value) + post && p.bases == o.bases
  {
    hide BoxBytes, Patch, Time, PutTime;
    var d := pre + BoxBytes(TFDT, body) + post;
    if |body| >= 8 {
      BodyOfBox(pre, TFDT, body, post, 0, 1);
      assert d[|pre| + 8..|pre| + 9][0] == d[|pre| + 8];
      assert Width(d, |pre|, |pre| + 8 + |body|) == BodyWidth(body);
      var w := BodyWidth(body);
      if w != 0 && track != 0 {
        BodyOfBox(pre, TFDT, body, post, 4, 4 + w);
        var next := Lowered(bases, track, BodyTime(body));
        PatchInBox(pre, TFDT, body, post, PutTime(w, BodyTime(body) - next[track]));
      }
    }
  }

  lemma TrackOnTree(pre: seq<byte>, kind: Code, body: Body, post: seq<byte>)
    ensures var d := pre + BoxBytes(kind, body) + post;
      |pre| + 8 + |body| <= |d| && TfhdTrack(d, |pre|, |pre| + 8 + |body|) == BodyTrack(body)
  {
    hide BoxBytes;
    if |body| >= 8 {
      BodyOfBox(pre, kind, body, post, 4, 8);
    }
  }

  /** The bytes around the first box of a sequence, and around the rest of it. */
  lemma Regroup(pre: seq<byte>, a: seq<byte>, b: seq<byte>, post: seq<byte>)
    ensures pre + (a + b) + post == pre + a + (b + post)
    ensures pre + (a + b) + post == (pre + a) + b + post
  {
  }

  lemma {:induction false} TrackWalk(pre: seq<byte>, ps: seq<Part>, post: seq<byte>)
    ensures TrackIn(pre + PartsBytes(ps) + post, |pre|, |pre| + |PartsBytes(ps)|) == TrackOf(ps)
    decreases |ps|
  {
    hide BoxBytes, ReadHeader, TfhdTrack, BodyTrack;
    if ps != [] {
      var first, rest := BoxBytes(ps[0].kind, ps[0].body), PartsBytes(ps[1..]);
      Regroup(pre, first, rest, post);
      HeaderOfBox(pre, ps[0].kind, ps[0].body, rest + post);
      TrackOnTree(pre, ps[0].kind, ps[0].body, rest + post);
      TrackWalk(pre + first, ps[1..], post);
    }
  }

  lemma {:induction false} PartsWalk(pre: seq<byte>, ps: seq<Part>, post: seq<byte>, track: nat, bases: Bases)
    ensures var p := TfdtsPass(pre + PartsBytes(ps) + post, |pre|, |pre| + |PartsBytes(ps)|, track, bases);
      var o := NormParts(ps, track, bases);
      p.data == pre + PartsBytes(o.value) + post && p.bases == o.bases && |PartsBytes(o.value)| == |PartsBytes(ps)|
    decreases |ps|
  {
    hide BoxBytes, ReadHeader, TfdtPass, NormBody;
    if ps != [] {
      var first, rest := BoxBytes(ps[0].kind, ps[0].body), PartsBytes(ps[1..]);
      var o := NormPart(ps[0], track, bases);
      var done := BoxBytes(o.value.kind, o.value.body);
      Regroup(pre, first, rest, post);
      HeaderOfBox(pre, ps[0].kind, ps[0].body, rest + post);
      TfdtOnTree(pre, ps[0].body, rest + post, track, bases);
      NormBodySize(ps[0].body, track, bases);
      Regroup(pre, done, rest, post);
      PartsWalk(pre + done, ps[1..], post, track, o.bases);
      Regroup(pre, done, PartsBytes(NormParts(ps[1..], track, o.bases).value), post);
    }
  }

  lemma NormBodySize(body: Body, track: nat, bases: Bases)
    ensures |NormBody(body, track, bases).value| == |body|
  {
  }

  /** The body of a box, with everything around it. */
  lemma InsideBox(pre: seq<byte>, kind: Code, body: Body, post: seq<byte>)
    ensures pre + BoxBytes(kind, body) + post == (pre + BoxHead(kind, |body|)) + body + post
  {
    hide BoxHead;
  }

  lemma TrafWalk(pre: seq<byte>, parts: seq<Part>, post: seq<byte>, bases: Bases)
    requires |PartsBytes(parts)| + 8 < TWO_32
    ensures var d := pre + BoxBytes(TRAF, PartsBytes(parts)) + post;
      |pre| + 8 + |PartsBytes(parts)| <= |d| &&
      var p, o := TrafPass(d, |pre|, |pre| + 8 + |PartsBytes(parts)|, bases), NormChild(Traf(parts), bases);
      && o.value.Traf? && ChildFits(o.value) && |ChildBytes(o.value)| == 8 + |PartsBytes(parts)|
      && p.data == pre + ChildBytes(o.value) + post && p.bases == o.bases
  {
    hide ReadHeader, TrackIn, TfdtsPass, BoxHead, BoxBytes, PartsBytes, TrackOf, NormParts;
    var head := BoxHead(TRAF, |PartsBytes(parts)|);
    InsideBox(pre, TRAF, PartsBytes(parts), post);
    TrackWalk(pre + head, parts, post);
    var track := TrackOf(parts);
    if track != 0 {
      PartsWalk(pre + head, parts, post, track, bases);
      InsideBox(pre, TRAF, PartsBytes(NormParts(parts, track, bases).value), post);
    }
  }

  lemma {:induction false} ChildrenWalk(pre: seq<byte>, cs: seq<Child>, post: seq<byte>, bases: Bases)
    requires ChildrenFit(cs)
    ensures var p := MoofPass(pre + ChildrenBytes(cs) + post, |pre|, |pre| + |ChildrenBytes(cs)|, bases);
      var o := NormChildren(cs, bases);
      && ChildrenFit(o.value) && |ChildrenBytes(o.value)| == |ChildrenBytes(cs)|
      && p.data == pre + ChildrenBytes(o.value) + post && p.bases == o.bases
    decreases |cs|
  {
    hide BoxBytes, ReadHeader, MoofPass, ChildPass, NormChild, ChildBytes, ChildFits;
    if cs == [] {
      NoChildren(pre, post, bases);
    } else {
      var c, rest := cs[0], ChildrenBytes(cs[1..]);
      var d, end := pre + ChildrenBytes(cs) + post, |pre| + |ChildrenBytes(cs)|;
      var o := NormChild(c, bases);
      Regroup(pre, ChildBytes(c), rest, post);
      ChildWalk(pre, c, rest + post, bases);
      MoofStep(d, |pre|, end, bases);
      Regroup(pre, ChildBytes(o.value), rest, post);
      ChildrenWalk(pre + ChildBytes(o.value), cs[1..], post, o.bases);
      var r := NormChildren(cs[1..], o.bases);
      FirstChild(o.value, r.value);
      Regroup(pre, ChildBytes(o.value), ChildrenBytes(r.value), post);
    }
  }

  lemma NoChildren(pre: seq<byte>, post: seq<byte>, bases: Bases)
    ensures MoofPass(pre + [] + post, |pre|, |pre|, bases) == Pass(pre + [] + post, bases, 0)
  {
  }

  lemma FirstChild(c: Child, rest: seq<Child>)
    requires ChildFits(c) && ChildrenFit(rest)
    ensures ChildrenFit([c] + rest) && ChildrenBytes([c] + rest) == ChildBytes(c) + ChildrenBytes(rest)
  {
    assert ([c] + rest)[1..] == rest;
  }

  /** What the walk does to the one box at `off` of a moof. */
  function ChildPass(data: seq<byte>, off: nat, bases: Bases): Pass {
    var h := ReadHeader(data, off);
    if h.Box? && h.kind == TRAF then TrafPass(data, off, off + h.size, bases) else Pass(data, bases, 0)
  }

  lemma MoofStep(data: seq<byte>, off: nat, end: nat, bases: Bases)
    requires off < end <= |data| && ReadHeader(data, off).Box?
    requires |ChildPass(data, off, bases).data| == |data|
    ensures var h, p := ReadHeader(data, off), ChildPass(data, off, bases);
      var q, r := MoofPass(data, off, end, bases), MoofPass(p.data, off + h.size, end, p.bases);
      q.data == r.data && q.bases == r.bases
  {
    hide ReadHeader, TrafPass;
  }

  /** One box of the walk over a moof. */
  lemma ChildWalk(pre: seq<byte>, c: Child, rest: seq<byte>, bases: Bases)
    requires ChildFits(c)
    ensures var d, o := pre + ChildBytes(c) + rest, NormChild(c, bases);
      && ReadHeader(d, |pre|).Box? && ReadHeader(d, |pre|).size == |ChildBytes(c)| > 0
      && ChildFits(o.value) && |ChildBytes(o.value)| == |ChildBytes(c)|
      && ChildPass(d, |pre|, bases).data == pre + ChildBytes(o.value) + rest
      && ChildPass(d, |pre|, bases).bases == o.bases
  {
    hide BoxBytes, ReadHeader, TrafPass;
    if c.Plain? {
      HeaderOfBox(pre, c.kind, c.body, rest);
    } else {
      HeaderOfBox(pre, TRAF, PartsBytes(c.parts), rest);
      hide NormChild;
      TrafWalk(pre, c.parts, rest, bases);
    }
  }

  lemma MoofWalk(pre: seq<byte>, children: seq<Child>, post: seq<byte>, bases: Bases)
    requires ChildrenFit(children) && |ChildrenBytes(children)| + 8 < TWO_32
    ensures var d := pre + BoxBytes(MOOF, ChildrenBytes(children)) + post;
      |pre| + 8 + |ChildrenBytes(children)| <= |d| &&
      var p := MoofPass(d, |pre| + 8, |pre| + 8 + |ChildrenBytes(children)|, bases);
      var o := NormTop(Moof(children), bases);
      && TopFits(o.value) && |TopBytes(o.value)| == 8 + |ChildrenBytes(children)|
      && p.data == pre + TopBytes(o.value) + post && p.bases == o.bases
  {
    hide ReadHeader, MoofPass, BoxHead, BoxBytes;
    InsideBox(pre, MOOF, ChildrenBytes(children), post);
    ChildrenWalk(pre + BoxHead(MOOF, |ChildrenBytes(children)|), children, post, bases);
    InsideBox(pre, MOOF, ChildrenBytes(NormChildren(children, bases).value), post);
  }

  lemma {:induction false} TopsWalk(pre: seq<byte>, ts: seq<Top>, bases: Bases)
    requires TopsFit(ts)
    ensures var p, o := SegmentPass(pre + TopsBytes(ts), |pre|, bases), NormTops(ts, bases);
      && TopsFit(o.value) && |TopsBytes(o.value)| == |TopsBytes(ts)|
      && p.data == pre + TopsBytes(o.value) && p.bases == o.bases
    decreases |ts|
  {
    hide BoxBytes, ReadHeader, SegmentPass, TopPass, NormTop, TopBytes, TopFits;
    if ts == [] {
      NoTops(pre, bases);
    } else {
      var t, rest := ts[0], TopsBytes(ts[1..]);
      var o := NormTop(t, bases);
      Associate(pre, TopBytes(t), rest);
      TopWalk(pre, t, rest, bases);
      SegmentStep(pre + TopsBytes(ts), |pre|, bases);
      TopsWalk(pre + TopBytes(o.value), ts[1..], o.bases);
      var r := NormTops(ts[1..], o.bases);
      FirstTop(o.value, r.value);
      Associate(pre, TopBytes(o.value), TopsBytes(r.value));
    }
  }

  lemma NoTops(pre: seq<byte>, bases: Bases)
    ensures SegmentPass(pre + [], |pre|, bases) == Pass(pre + [], bases, 0)
  {
  }

  lemma FirstTop(t: Top, rest: seq<Top>)
    requires TopFits(t) && TopsFit(rest)
    ensures TopsFit([t] + rest) && TopsBytes([t] + rest) == TopBytes(t) + TopsBytes(rest)
  {
    assert ([t] + rest)[1..] == rest;
  }

  lemma SegmentStep(data: seq<byte>, off: nat, bases: Bases)
    requires off < |data| && ReadHeader(data, off).Box?
    ensures var h, p := ReadHeader(data, off), TopPass(data, off, bases);
      var q, r := SegmentPass(data, off, bases), SegmentPass(p.data, off + h.size, p.bases);
      q.data == r.data && q.bases == r.bases
  {
    hide ReadHeader, MoofPass;
  }

  /** One box of the walk over the top level. */
  lemma TopWalk(pre: seq<byte>, t: Top, rest: seq<byte>, bases: Bases)
    requires TopFits(t)
    ensures var d, o := pre + TopBytes(t) + rest, NormTop(t, bases);
      && ReadHeader(d, |pre|).Box? && ReadHeader(d, |pre|).size == |TopBytes(t)| > 0
      && TopFits(o.value) && |TopBytes(o.value)| == |TopBytes(t)|
      && TopPass(d, |pre|, bases).data == pre + TopBytes(o.value) + rest && TopPass(d, |pre|, bases).bases == o.bases
  {
    hide BoxBytes, ReadHeader, TopPass, NormChildren;
    if t.Other? {
      OtherWalk(pre, t.kind, t.body, rest, bases);
    } else {
      MoofTopWalk(pre, t.children, rest, bases);
    }
  }

  lemma MoofTopWalk(pre: seq<byte>, children: seq<Child>, rest: seq<byte>, bases: Bases)
    requires TopFits(Moof(children))
    ensures var d, o := pre + TopBytes(Moof(children)) + rest, NormTop(Moof(children), bases);
      && ReadHeader(d, |pre|).Box? && ReadHeader(d, |pre|).size == |TopBytes(Moof(children))|
      && TopFits(o.value) && |TopBytes(o.value)| == |TopBytes(Moof(children))|
      && TopPass(d, |pre|, bases).data == pre + TopBytes(o.value) + rest && TopPass(d, |pre|, bases).bases == o.bases
  {
    hide BoxBytes, ReadHeader, MoofPass, NormTop;
    var inner := ChildrenBytes(children);
    var d := pre + BoxBytes(MOOF, inner) + rest;
    HeaderOfBox(pre, MOOF, inner, rest);
    assert |pre| + ReadHeader(d, |pre|).size == |pre| + 8 + |inner|;
    MoofWalk(pre, children, rest, bases);
  }

  /** What the walk does to the one box at `off`. */
  function TopPass(data: seq<byte>, off: nat, bases: Bases): Pass {
    var h := ReadHeader(data, off);
    if h.Box? && h.kind == MOOF then MoofPass(data, off + 8, off + h.size, bases) else Pass(data, bases, 0)
  }

  lemma OtherWalk(pre: seq<byte>, kind: Code, body: Body, rest: seq<byte>, bases: Bases)
    requires kind != MOOF
    ensures var d := pre + BoxBytes(kind, body) + rest;
      ReadHeader(d, |pre|) == Box(8 + |body|, kind, 8) && TopPass(d, |pre|, bases) == Pass(d, bases, 0)
  {
    hide BoxBytes, ReadHeader;
    HeaderOfBox(pre, kind, body, rest);
  }

  /** On a well-nested segment the in-place walk computes the bytes of the normalised tree: the layout stays. */
  lemma SegmentIsTree(ts: seq<Top>, bases: Bases)
    requires TopsFit(ts)
    ensures var p, o := SegmentPass(TopsBytes(ts), 0, bases), NormTops(ts, bases);
      TopsFit(o.value) && p.data == TopsBytes(o.value) && p.bases == o.bases
  {
    hide SegmentPass, NormTops, TopsBytes, TopsFit;
    var none: seq<byte> := [];
    assert none + TopsBytes(ts) == TopsBytes(ts);
    TopsWalk(none, ts, bases);
    assert none + TopsBytes(NormTops(ts, bases).value) == TopsBytes(NormTops(ts, bases).value);
  }
}
