/** Decode times over a whole run of well-nested segments: relative to the running minimum of their track,
    everything else unchanged, and a second pass changes nothing. */
module Fmp4Times {
  import opened Bytes
  import opened Collections
  import opened IsoBox
  import opened Fmp4Fragment
  import opened Fmp4Tree

  // ---- A run of segments ----

  function NormRun(segs: seq<seq<Top>>, bases: Bases): Out<seq<seq<Top>>>
    decreases |segs|
  {
    if segs == [] then Out([], bases)
    else
      var o := NormTops(segs[0], bases);
      var r := NormRun(segs[1..], o.bases);
      Out([o.value] + r.value, r.bases)
  }

  /** The in-place pass over one segment after the other, the bases kept. */
  function PassRun(datas: seq<seq<byte>>, bases: Bases): Out<seq<seq<byte>>>
    decreases |datas|
  {
    if datas == [] then Out([], bases)
    else
      var p := SegmentPass(datas[0], 0, bases);
      var r := PassRun(datas[1..], p.bases);
      Out([p.data] + r.value, r.bases)
  }

  predicate RunFits(segs: seq<seq<Top>>) {
    segs == [] || (TopsFit(segs[0]) && RunFits(segs[1..]))
  }

  function RunBytes(segs: seq<seq<Top>>): seq<seq<byte>>
    requires RunFits(segs)
  {
    if segs == [] then [] else [TopsBytes(segs[0])] + RunBytes(segs[1..])
  }

  /** On well-nested segments the run over the bytes is the run over the trees. */
  lemma {:induction false} RunIsTrees(segs: seq<seq<Top>>, bases: Bases)
    requires RunFits(segs)
    ensures var o := NormRun(segs, bases);
      RunFits(o.value) && PassRun(RunBytes(segs), bases) == Out(RunBytes(o.value), o.bases)
    decreases |segs|
  {
    hide TopsBytes, SegmentPass, NormTops, TopsFit;
    if segs != [] {
      SegmentIsTree(segs[0], bases);
      RunIsTrees(segs[1..], NormTops(segs[0], bases).bases);
      var o, r := NormTops(segs[0], bases), NormRun(segs[1..], NormTops(segs[0], bases).bases);
      assert NormRun(segs, bases).value[1..] == r.value;
      assert RunBytes(segs)[1..] == RunBytes(segs[1..]);
    }
  }

  // ---- The times of a track, in order ----

  function PartTimes(p: Part): seq<nat> {
    if p.kind == TFDT && BodyWidth(p.body) != 0 then [BodyTime(p.body)] else []
  }

  function PartsTimes(ps: seq<Part>): seq<nat> {
    if ps == [] then [] else PartTimes(ps[0]) + PartsTimes(ps[1..])
  }

  function ChildTimes(c: Child, track: nat): seq<nat> {
    if c.Traf? && TrackOf(c.parts) == track then PartsTimes(c.parts) else []
  }

  function ChildrenTimes(cs: seq<Child>, track: nat): seq<nat> {
    if cs == [] then [] else ChildTimes(cs[0], track) + ChildrenTimes(cs[1..], track)
  }

  function TopsTimes(ts: seq<Top>, track: nat): seq<nat> {
    if ts == [] then []
    else (if ts[0].Moof? then ChildrenTimes(ts[0].children, track) else []) + TopsTimes(ts[1..], track)
  }

  function RunTimes(segs: seq<seq<Top>>, track: nat): seq<nat> {
    if segs == [] then [] else TopsTimes(segs[0], track) + RunTimes(segs[1..], track)
  }

  // ---- Relative to the running minimum ----

  /** `known` holds the minimum so far, if there is one. */
  function Low(known: seq<nat>, v: nat): nat {
    if known == [] || v < known[0] then v else known[0]
  }

  function Relative(vs: seq<nat>, known: seq<nat>): seq<int>
    decreases |vs|
  {
    if vs == [] then [] else [vs[0] - Low(known, vs[0])] + Relative(vs[1..], [Low(known, vs[0])])
  }

  function Lowest(vs: seq<nat>, known: seq<nat>): seq<nat>
    decreases |vs|
  {
    if vs == [] then known else Lowest(vs[1..], [Low(known, vs[0])])
  }

  function Known(bases: Bases, track: nat): seq<nat> {
    if track in bases then [bases[track]] else []
  }

  lemma {:induction false} RelativeAppend(a: seq<nat>, b: seq<nat>, known: seq<nat>)
    ensures Relative(a + b, known) == Relative(a, known) + Relative(b, Lowest(a, known))
    ensures Lowest(a + b, known) == Lowest(b, Lowest(a, known))
    decreases |a|
  {
    hide Relative, Lowest, Low;
    if a == [] {
      assert a + b == b;
      NothingRelative(known);
    } else {
      var low := [Low(known, a[0])];
      RelativeAppend(a[1..], b, low);
      assert (a + b)[0] == a[0] && (a + b)[1..] == a[1..] + b;
      RelativeFirst(a, known);
      RelativeFirst(a + b, known);
      Associate([a[0] - low[0]], Relative(a[1..], low), Relative(b, Lowest(a, known)));
    }
  }

  lemma NothingRelative(known: seq<nat>)
    ensures Relative([], known) == [] && Lowest([], known) == known
  {
  }

  lemma RelativeFirst(a: seq<nat>, known: seq<nat>)
    requires a != []
    ensures Low(known, a[0]) <= a[0]
    ensures Relative(a, known) == [a[0] - Low(known, a[0])] + Relative(a[1..], [Low(known, a[0])])
    ensures Lowest(a, known) == Lowest(a[1..], [Low(known, a[0])])
  {
  }

  /** The outputs xs and the bases after a step are those of the inputs vs relative to the running minimum. */
  ghost predicate Follows(xs: seq<nat>, vs: seq<nat>, before: seq<nat>, after: seq<nat>) {
    xs == Relative(vs, before) && after == Lowest(vs, before)
  }

  lemma FollowsAppend(x1: seq<nat>, v1: seq<nat>, k0: seq<nat>, k1: seq<nat>, x2: seq<nat>, v2: seq<nat>, k2: seq<nat>)
    requires Follows(x1, v1, k0, k1) && Follows(x2, v2, k1, k2)
    ensures Follows(x1 + x2, v1 + v2, k0, k2)
  {
    RelativeAppend(v1, v2, k0);
  }

  lemma PatchedTime(body: Body, w: nat, t: nat)
    requires BodyWidth(body) == w != 0 && t < (if w == 8 then TWO_64 else TWO_32)
    ensures var b := Patch(body, 4, PutTime(w, t)); BodyWidth(b) == w && BodyTime(b) == t
  {
    var b := Patch(body, 4, PutTime(w, t));
    assert b[0] == body[0];
    assert b[4..4 + w] == PutTime(w, t);
  }

  lemma PartFollows(p: Part, track: nat, bases: Bases, t: nat)
    requires track != 0
    ensures var o := NormPart(p, track, bases);
      && o.value.kind == p.kind
      && (t == track ==> Follows(PartTimes(o.value), PartTimes(p), Known(bases, t), Known(o.bases, t)))
      && (t != track ==> Known(o.bases, t) == Known(bases, t))
  {
    hide Patch, PutTime, Time;
    if p.kind == TFDT && BodyWidth(p.body) != 0 {
      var v := BodyTime(p.body);
      var next := Lowered(bases, track, v);
      PatchedTime(p.body, BodyWidth(p.body), v - next[track]);
      var known, none: seq<nat> := Known(bases, track), [];
      assert [v][1..] == none && next[track] == Low(known, v);
      assert Relative([v], known) == [v - Low(known, v)] + Relative(none, [Low(known, v)]) == [v - Low(known, v)];
      assert Lowest([v], known) == Lowest(none, [Low(known, v)]) == [Low(known, v)];
    }
  }

  lemma {:induction false} PartsFollow(ps: seq<Part>, track: nat, bases: Bases, t: nat)
    requires track != 0
    ensures var o := NormParts(ps, track, bases);
      && TrackOf(o.value) == TrackOf(ps)
      && (t == track ==> Follows(PartsTimes(o.value), PartsTimes(ps), Known(bases, t), Known(o.bases, t)))
      && (t != track ==> Known(o.bases, t) == Known(bases, t))
    decreases |ps|
  {
    hide NormPart, PartTimes, BodyTrack;
    if ps != [] {
      var o := NormPart(ps[0], track, bases);
      var r := NormParts(ps[1..], track, o.bases);
      PartFollows(ps[0], track, bases, t);
      PartKeepsTrack(ps[0], track, bases);
      PartsFollow(ps[1..], track, o.bases, t);
      assert NormParts(ps, track, bases).value[1..] == r.value;
      if t == track {
        FollowsAppend(PartTimes(o.value), PartTimes(ps[0]), Known(bases, t), Known(o.bases, t),
                      PartsTimes(r.value), PartsTimes(ps[1..]), Known(r.bases, t));
      }
    }
  }

  lemma PartKeepsTrack(p: Part, track: nat, bases: Bases)
    ensures p.kind == TFHD ==> NormPart(p, track, bases) == Out(p, bases)
  {
  }

  lemma {:induction false} ChildrenFollow(cs: seq<Child>, bases: Bases, t: nat)
    requires t != 0
    ensures var o := NormChildren(cs, bases);
      Follows(ChildrenTimes(o.value, t), ChildrenTimes(cs, t), Known(bases, t), Known(o.bases, t))
    decreases |cs|
  {
    hide NormParts, PartsTimes, TrackOf;
    if cs != [] {
      var c, o := cs[0], NormChild(cs[0], bases);
      if c.Traf? && TrackOf(c.parts) != 0 {
        PartsFollow(c.parts, TrackOf(c.parts), bases, t);
      }
      assert Follows(ChildTimes(o.value, t), ChildTimes(c, t), Known(bases, t), Known(o.bases, t));
      var r := NormChildren(cs[1..], o.bases);
      ChildrenFollow(cs[1..], o.bases, t);
      assert NormChildren(cs, bases).value[1..] == r.value;
      FollowsAppend(ChildTimes(o.value, t), ChildTimes(c, t), Known(bases, t), Known(o.bases, t),
                    ChildrenTimes(r.value, t), ChildrenTimes(cs[1..], t), Known(r.bases, t));
    }
  }

  lemma {:induction false} TopsFollow(ts: seq<Top>, bases: Bases, t: nat)
    requires t != 0
    ensures var o := NormTops(ts, bases);
      Follows(TopsTimes(o.value, t), TopsTimes(ts, t), Known(bases, t), Known(o.bases, t))
    decreases |ts|
  {
    hide NormChildren, ChildrenTimes;
    if ts != [] {
      var o := NormTop(ts[0], bases);
      var r := NormTops(ts[1..], o.bases);
      TopsFollow(ts[1..], o.bases, t);
      assert NormTops(ts, bases).value[1..] == r.value;
      if ts[0].Moof? {
        ChildrenFollow(ts[0].children, bases, t);
        FollowsAppend(ChildrenTimes(o.value.children, t), ChildrenTimes(ts[0].children, t),
                      Known(bases, t), Known(o.bases, t), TopsTimes(r.value, t), TopsTimes(ts[1..], t),
                      Known(r.bases, t));
      } else {
        assert [] + TopsTimes(r.value, t) == TopsTimes(r.value, t);
        assert [] + TopsTimes(ts[1..], t) == TopsTimes(ts[1..], t);
      }
    }
  }

  lemma {:induction false} RunFollows(segs: seq<seq<Top>>, bases: Bases, t: nat)
    requires t != 0
    ensures var o := NormRun(segs, bases);
      Follows(RunTimes(o.value, t), RunTimes(segs, t), Known(bases, t), Known(o.bases, t))
    decreases |segs|
  {
    hide NormTops, TopsTimes;
    if segs != [] {
      var o := NormTops(segs[0], bases);
      var r := NormRun(segs[1..], o.bases);
      TopsFollow(segs[0], bases, t);
      RunFollows(segs[1..], o.bases, t);
      assert NormRun(segs, bases).value[1..] == r.value;
      FollowsAppend(TopsTimes(o.value, t), TopsTimes(segs[0], t), Known(bases, t), Known(o.bases, t),
                    RunTimes(r.value, t), RunTimes(segs[1..], t), Known(r.bases, t));
    }
  }

  /** m is the least of vs. */
  ghost predicate IsLeast(m: nat, vs: seq<nat>) {
    m in vs && forall v :: v in vs ==> m <= v
  }

  lemma {:induction false} RelativeAt(vs: seq<nat>, known: seq<nat>, k: nat) returns (m: nat)
    requires k < |vs| && |known| <= 1
    ensures |Relative(vs, known)| == |vs| && Relative(vs, known)[k] == vs[k] - m
    ensures IsLeast(m, known + vs[..k + 1])
    decreases |vs|
  {
    var low := Low(known, vs[0]);
    RelativeSize(vs, known);
    if k == 0 {
      m := low;
      assert vs[..1] == [vs[0]];
    } else {
      m := RelativeAt(vs[1..], [low], k - 1);
      assert vs[1..][..k] == vs[1..k + 1];
      assert vs[..k + 1] == [vs[0]] + vs[1..k + 1];
      var all, rest := known + vs[..k + 1], [low] + vs[1..k + 1];
      assert low in rest && m <= low;
      forall i | 0 <= i < |all|
        ensures m <= all[i]
      {
        if i > |known| {
          assert all[i] == vs[1..k + 1][i - |known| - 1];
          assert all[i] in rest;
        }
      }
      assert m in all by {
        if m != low {
          assert m in vs[1..k + 1];
        } else {
          assert low == all[0] || low == all[|known|];
        }
      }
    }
  }

  lemma {:induction false} RelativeSize(vs: seq<nat>, known: seq<nat>)
    ensures |Relative(vs, known)| == |vs|
    decreases |vs|
  {
    if vs != [] {
      RelativeSize(vs[1..], [Low(known, vs[0])]);
    }
  }

  /** From empty bases, over all segments of a run: the k-th decode time of a track comes out as its value minus the
      least of that track's first k + 1 values. */
  lemma TimesAreRelativeToRunningMinimum(segs: seq<seq<Top>>, t: nat, k: nat) returns (m: nat)
    requires t != 0 && k < |RunTimes(segs, t)|
    ensures var xs := RunTimes(NormRun(segs, map[]).value, t);
      |xs| == |RunTimes(segs, t)| && xs[k] == RunTimes(segs, t)[k] - m
    ensures IsLeast(m, RunTimes(segs, t)[..k + 1])
  {
    RunFollows(segs, map[], t);
    m := RelativeAt(RunTimes(segs, t), [], k);
    assert [] + RunTimes(segs, t)[..k + 1] == RunTimes(segs, t)[..k + 1];
  }

  // ---- Nothing else changes ----

  /** The body with its decode time, if it has one, blanked out. */
  function BlankBody(body: Body): seq<byte> {
    var w := BodyWidth(body);
    if w == 0 then body else Patch(body, 4, seq(w, i => 0))
  }

  function BlankPart(p: Part): Part
    ensures BlankPart(p).kind == p.kind && (p.kind != TFDT ==> BlankPart(p) == p)
  {
    if p.kind == TFDT then p.(body := BlankBody(p.body)) else p
  }

  function BlankParts(ps: seq<Part>): seq<Part> {
    if ps == [] then [] else [BlankPart(ps[0])] + BlankParts(ps[1..])
  }

  function BlankChildren(cs: seq<Child>): seq<Child> {
    if cs == [] then []
    else [if cs[0].Traf? then Traf(BlankParts(cs[0].parts)) else cs[0]] + BlankChildren(cs[1..])
  }

  function BlankTops(ts: seq<Top>): seq<Top> {
    if ts == [] then []
    else [if ts[0].Moof? then Moof(BlankChildren(ts[0].children)) else ts[0]] + BlankTops(ts[1..])
  }

  lemma PartIsKept(p: Part, track: nat, bases: Bases)
    ensures BlankPart(NormPart(p, track, bases).value) == BlankPart(p)
  {
    hide PutTime, Time;
    if p.kind == TFDT && track != 0 && BodyWidth(p.body) != 0 {
      var w, body := BodyWidth(p.body), NormBody(p.body, track, bases).value;
      assert body[0] == p.body[0] && BodyWidth(body) == w;
      assert Patch(body, 4, seq(w, i => 0)) == Patch(p.body, 4, seq(w, i => 0));
    }
  }

  lemma {:induction false} PartsAreKept(ps: seq<Part>, track: nat, bases: Bases)
    ensures BlankParts(NormParts(ps, track, bases).value) == BlankParts(ps)
    decreases |ps|
  {
    hide NormPart, BlankPart;
    if ps != [] {
      var o := NormPart(ps[0], track, bases);
      PartIsKept(ps[0], track, bases);
      PartsAreKept(ps[1..], track, o.bases);
      assert NormParts(ps, track, bases).value[1..] == NormParts(ps[1..], track, o.bases).value;
    }
  }

  lemma {:induction false} ChildrenAreKept(cs: seq<Child>, bases: Bases)
    ensures BlankChildren(NormChildren(cs, bases).value) == BlankChildren(cs)
    decreases |cs|
  {
    hide NormParts, BlankParts, TrackOf;
    if cs != [] {
      var o := NormChild(cs[0], bases);
      if cs[0].Traf? {
        PartsAreKept(cs[0].parts, TrackOf(cs[0].parts), bases);
      }
      ChildrenAreKept(cs[1..], o.bases);
      assert NormChildren(cs, bases).value[1..] == NormChildren(cs[1..], o.bases).value;
    }
  }

  /** The normalised tree differs from the original only in the decode times inside tfdt boxes. */
  lemma {:induction false} OnlyTimesChange(ts: seq<Top>, bases: Bases)
    ensures BlankTops(NormTops(ts, bases).value) == BlankTops(ts)
    decreases |ts|
  {
    hide NormChildren, BlankChildren;
    if ts != [] {
      var o := NormTop(ts[0], bases);
      if ts[0].Moof? {
        ChildrenAreKept(ts[0].children, bases);
      }
      OnlyTimesChange(ts[1..], o.bases);
      assert NormTops(ts, bases).value[1..] == NormTops(ts[1..], o.bases).value;
    }
  }

  // ---- A second pass ----

  /** The bases of a second pass beside those of the first: the same tracks, all at 0. */
  ghost predicate Zeroed(first: Bases, second: Bases) {
    first.Keys == second.Keys && forall t :: t in second ==> second[t] == 0
  }

  lemma PatchTwice(body: Body, field: seq<byte>)
    requires 4 + |field| <= |body|
    ensures Patch(Patch(body, 4, field), 4, field) == Patch(body, 4, field)
  {
  }

  lemma PartAgain(p: Part, track: nat, b1: Bases, b2: Bases)
    requires Zeroed(b1, b2)
    ensures var o := NormPart(p, track, b1);
      var again := NormPart(o.value, track, b2);
      again.value == o.value && Zeroed(o.bases, again.bases)
  {
    hide Patch, PutTime, Time;
    if p.kind == TFDT && track != 0 && BodyWidth(p.body) != 0 {
      var w, v := BodyWidth(p.body), BodyTime(p.body);
      var next := Lowered(b1, track, v);
      PatchedTime(p.body, w, v - next[track]);
      PatchTwice(p.body, PutTime(w, v - next[track]));
    }
  }

  lemma {:induction false} PartsAgain(ps: seq<Part>, track: nat, b1: Bases, b2: Bases)
    requires Zeroed(b1, b2)
    ensures var o := NormParts(ps, track, b1);
      var again := NormParts(o.value, track, b2);
      again.value == o.value && Zeroed(o.bases, again.bases) && TrackOf(o.value) == TrackOf(ps)
    decreases |ps|
  {
    hide NormPart, BodyTrack;
    if ps != [] {
      var o := NormPart(ps[0], track, b1);
      PartAgain(ps[0], track, b1, b2);
      PartKeepsTrack(ps[0], track, b1);
      PartKeepsKind(ps[0], track, b1);
      PartsAgain(ps[1..], track, o.bases, NormPart(o.value, track, b2).bases);
      assert NormParts(ps, track, b1).value[1..] == NormParts(ps[1..], track, o.bases).value;
    }
  }

  lemma PartKeepsKind(p: Part, track: nat, bases: Bases)
    ensures NormPart(p, track, bases).value.kind == p.kind
  {
  }

  lemma {:induction false} ChildrenAgain(cs: seq<Child>, b1: Bases, b2: Bases)
    requires Zeroed(b1, b2)
    ensures var o := NormChildren(cs, b1);
      var again := NormChildren(o.value, b2);
      again.value == o.value && Zeroed(o.bases, again.bases)
    decreases |cs|
  {
    hide NormParts, TrackOf;
    if cs != [] {
      var o := NormChild(cs[0], b1);
      if cs[0].Traf? {
        PartsAgain(cs[0].parts, TrackOf(cs[0].parts), b1, b2);
      }
      ChildrenAgain(cs[1..], o.bases, NormChild(o.value, b2).bases);
      assert NormChildren(cs, b1).value[1..] == NormChildren(cs[1..], o.bases).value;
    }
  }

  lemma {:induction false} TopsAgain(ts: seq<Top>, b1: Bases, b2: Bases)
    requires Zeroed(b1, b2)
    ensures var o := NormTops(ts, b1);
      var again := NormTops(o.value, b2);
      again.value == o.value && Zeroed(o.bases, again.bases)
    decreases |ts|
  {
    hide NormChildren;
    if ts != [] {
      var o := NormTop(ts[0], b1);
      if ts[0].Moof? {
        ChildrenAgain(ts[0].children, b1, b2);
      }
      TopsAgain(ts[1..], o.bases, NormTop(o.value, b2).bases);
      assert NormTops(ts, b1).value[1..] == NormTops(ts[1..], o.bases).value;
    }
  }

  lemma {:induction false} RunAgain(segs: seq<seq<Top>>, b1: Bases, b2: Bases)
    requires Zeroed(b1, b2)
    ensures var o := NormRun(segs, b1); NormRun(o.value, b2).value == o.value
    decreases |segs|
  {
    hide NormTops;
    if segs != [] {
      var o := NormTops(segs[0], b1);
      TopsAgain(segs[0], b1, b2);
      RunAgain(segs[1..], o.bases, NormTops(o.value, b2).bases);
      assert NormRun(segs, b1).value[1..] == NormRun(segs[1..], o.bases).value;
    }
  }

  /** A second pass over the output of a run, with empty bases, changes no byte. */
  lemma SecondPassChangesNothing(segs: seq<seq<Top>>)
    requires RunFits(segs)
    ensures var once := PassRun(RunBytes(segs), map[]).value; PassRun(once, map[]).value == once
  {
    RunIsTrees(segs, map[]);
    RunIsTrees(NormRun(segs, map[]).value, map[]);
    RunAgain(segs, map[], map[]);
  }
}
