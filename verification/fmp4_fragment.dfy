/** In-place normalisation of the decode times (tfdt) in a fragment: the walk over arbitrary bytes. */
module Fmp4Fragment {
  import opened Bytes
  import opened IsoBox

  /** The smallest decode time seen so far, per track. */
  type Bases = map<nat, nat>

  datatype Pass = Pass(data: seq<byte>, bases: Bases, count: nat)

  function Patch(data: seq<byte>, at: nat, field: seq<byte>): (r: seq<byte>)
    requires at + |field| <= |data|
    ensures |r| == |data|
  {
    data[..at] + field + data[at + |field|..]
  }

  /** The track id of a tfhd box at [start, end), 0 if there is none. */
  function TfhdTrack(data: seq<byte>, start: nat, end: nat): nat
    requires start <= end <= |data|
  {
    if end - start < 16 then 0 else U32(data[start + 12..start + 16])
  }

  function Lowered(bases: Bases, track: nat, value: nat): Bases {
    if track in bases && bases[track] <= value then bases else bases[track := value]
  }

  /** The width of the decode time of a tfdt box: 8 in version 1, otherwise 4; 0 if the box is too short. */
  function Width(data: seq<byte>, start: nat, end: nat): nat
    requires start <= end <= |data|
  {
    if end - start < 16 then 0
    else if data[start + 8] == 1 then (if end - start < 20 then 0 else 8)
    else 4
  }

  function Time(field: seq<byte>): (t: nat)
    requires |field| == 4 || |field| == 8
    ensures t < (if |field| == 8 then TWO_64 else TWO_32)
  {
    if |field| == 8 then U64(field) else U32(field)
  }

  function PutTime(width: nat, t: nat): (s: seq<byte>)
    requires (width == 4 && t < TWO_32) || (width == 8 && t < TWO_64)
    ensures |s| == width && Time(s) == t
  {
    if width == 8 then PutU64(t) else PutU32(t)
  }

  function FieldPass(data: seq<byte>, at: nat, width: nat, track: nat, bases: Bases): (p: Pass)
    requires (width == 4 || width == 8) && at + width <= |data|
    ensures |p.data| == |data| && p.count == 1
  {
    var value := Time(data[at..at + width]);
    var next := Lowered(bases, track, value);
    Pass(Patch(data, at, PutTime(width, value - next[track])), next, 1)
  }

  function TfdtPass(data: seq<byte>, start: nat, end: nat, track: nat, bases: Bases): (p: Pass)
    requires start <= end <= |data|
    ensures |p.data| == |data|
  {
    var w := Width(data, start, end);
    if track == 0 || w == 0 then Pass(data, bases, 0) else FieldPass(data, start + 12, w, track, bases)
  }

  /** The first usable track id among the children in [off, end). */
  function TrackIn(data: seq<byte>, off: nat, end: nat): nat
    requires end <= |data|
    decreases |data| - off
  {
    if off >= end || ReadHeader(data, off).Bad? then 0
    else
      var h := ReadHeader(data, off);
      var id := if h.kind == TFHD then TfhdTrack(data, off, off + h.size) else 0;
      if id != 0 then id else TrackIn(data, off + h.size, end)
  }

  function TfdtsPass(data: seq<byte>, off: nat, end: nat, track: nat, bases: Bases): (p: Pass)
    requires end <= |data|
    ensures |p.data| == |data|
    decreases |data| - off
  {
    if off >= end || ReadHeader(data, off).Bad? then Pass(data, bases, 0)
    else
      var h := ReadHeader(data, off);
      var p := if h.kind == TFDT then TfdtPass(data, off, off + h.size, track, bases) else Pass(data, bases, 0);
      var q := TfdtsPass(p.data, off + h.size, end, track, p.bases);
      q.(count := p.count + q.count)
  }

  function TrafPass(data: seq<byte>, start: nat, end: nat, bases: Bases): (p: Pass)
    requires end <= |data|
    ensures |p.data| == |data|
  {
    var track := TrackIn(data, start + 8, end);
    if track == 0 then Pass(data, bases, 0) else TfdtsPass(data, start + 8, end, track, bases)
  }

  function MoofPass(data: seq<byte>, off: nat, end: nat, bases: Bases): (p: Pass)
    requires end <= |data|
    ensures |p.data| == |data|
    decreases |data| - off
  {
    if off >= end || ReadHeader(data, off).Bad? then Pass(data, bases, 0)
    else
      var h := ReadHeader(data, off);
      var p := if h.kind == TRAF then TrafPass(data, off, off + h.size, bases) else Pass(data, bases, 0);
      var q := MoofPass(p.data, off + h.size, end, p.bases);
      q.(count := p.count + q.count)
  }

  function SegmentPass(data: seq<byte>, off: nat, bases: Bases): (p: Pass)
    ensures |p.data| == |data|
    decreases |data| - off
  {
    if off >= |data| || ReadHeader(data, off).Bad? then Pass(data, bases, 0)
    else
      var h := ReadHeader(data, off);
      var p := if h.kind == MOOF then MoofPass(data, off + 8, off + h.size, bases) else Pass(data, bases, 0);
      var q := SegmentPass(p.data, off + h.size, p.bases);
      q.(count := p.count + q.count)
  }

  // ---- In place ----

  class Normalizer {
    var bases: Bases

    constructor ()
      ensures bases == map[]
    {
      bases := map[];
    }

    /** Overwrites data[at..at + |field|]. */
    method PutField(data: array<byte>, at: nat, field: seq<byte>)
      requires at + |field| <= data.Length
      modifies data
      ensures data[..] == Patch(old(data[..]), at, field)
    {
      var i := 0;
      while i < |field|
        invariant 0 <= i <= |field|
        invariant forall k :: 0 <= k < data.Length ==>
          data[k] == if at <= k < at + i then field[k - at] else old(data[k])
      {
        data[at + i] := field[i];
        i := i + 1;
      }
    }

    method NormalizeTfdtBox(data: array<byte>, start: nat, end: nat, track: nat) returns (done: bool)
      requires start <= end <= data.Length
      modifies this, data
      ensures Pass(data[..], bases, if done then 1 else 0) == TfdtPass(old(data[..]), start, end, track, old(bases))
    {
      hide FieldPass;
      if track == 0 || end - start < 16 {
        return false;
      }
      var version := data[start + 8];
      if version == 1 {
        if end - start < 20 {
          return false;
        }
        NormalizeField(data, start + 12, 8, track);
        return true;
      }
      NormalizeField(data, start + 12, 4, track);
      return true;
    }

    /** Rewrites the decode time at `at` relative to its track's base. */
    method NormalizeField(data: array<byte>, at: nat, width: nat, track: nat)
      requires (width == 4 || width == 8) && at + width <= data.Length
      modifies this, data
      ensures Pass(data[..], bases, 1) == FieldPass(old(data[..]), at, width, track, old(bases))
    {
      hide Patch, U32, U64;
      ghost var d := data[..];
      assert data[at..at + width] == d[at..at + width];
      var value := Time(data[at..at + width]);
      Lower(track, value);
      PutField(data, at, PutTime(width, value - bases[track]));
    }

    method Lower(track: nat, value: nat)
      modifies this
      ensures bases == Lowered(old(bases), track, value)
      ensures track in bases && bases[track] <= value
    {
      if track !in bases || value < bases[track] {
        bases := bases[track := value];
      }
    }

    method NormalizeTrafTfdt(data: array<byte>, trafStart: nat, trafEnd: nat) returns (normalized: nat)
      requires trafEnd <= data.Length
      modifies this, data
      ensures Pass(data[..], bases, normalized) == TrafPass(old(data[..]), trafStart, trafEnd, old(bases))
    {
      hide ReadHeader, TfhdTrack;
      var track := 0;
      var off := trafStart + 8;
      while off < trafEnd
        invariant track == 0 && TrackIn(data[..], trafStart + 8, trafEnd) == TrackIn(data[..], off, trafEnd)
        decreases data.Length - off
      {
        var h := ReadHeader(data[..], off);
        if h.Bad? {
          break;
        }
        if h.kind == TFHD {
          var id := TfhdTrack(data[..], off, off + h.size);
          if id != 0 {
            track := id;
            break;
          }
        }
        off := off + h.size;
      }
      if track == 0 {
        return 0;
      }
      normalized := NormalizeTfdts(data, trafStart + 8, trafEnd, track);
    }

    /** The second loop of NormalizeTrafTfdt. */
    method NormalizeTfdts(data: array<byte>, from: nat, end: nat, track: nat) returns (normalized: nat)
      requires end <= data.Length
      modifies this, data
      ensures Pass(data[..], bases, normalized) == TfdtsPass(old(data[..]), from, end, track, old(bases))
    {
      hide ReadHeader, TfdtPass;
      ghost var whole := TfdtsPass(data[..], from, end, track, bases);
      normalized := 0;
      var off := from;
      while off < end
        invariant whole == Counting(normalized, TfdtsPass(data[..], off, end, track, bases))
        decreases data.Length - off
      {
        var h := ReadHeader(data[..], off);
        if h.Bad? {
          break;
        }
        if h.kind == TFDT {
          var done := NormalizeTfdtBox(data, off, off + h.size, track);
          if done {
            normalized := normalized + 1;
          }
        }
        off := off + h.size;
      }
    }

    method NormalizeMoof(data: array<byte>, from: nat, end: nat) returns (normalized: nat)
      requires end <= data.Length
      modifies this, data
      ensures Pass(data[..], bases, normalized) == MoofPass(old(data[..]), from, end, old(bases))
    {
      hide ReadHeader, TrafPass;
      ghost var whole := MoofPass(data[..], from, end, bases);
      normalized := 0;
      var child := from;
      while child < end
        invariant whole == Counting(normalized, MoofPass(data[..], child, end, bases))
        decreases data.Length - child
      {
        var h := ReadHeader(data[..], child);
        if h.Bad? {
          break;
        }
        if h.kind == TRAF {
          var n := NormalizeTrafTfdt(data, child, child + h.size);
          normalized := normalized + n;
        }
        child := child + h.size;
      }
    }

    method NormalizeFragmentTimestamps(data: array<byte>) returns (total: nat)
      modifies this, data
      ensures Pass(data[..], bases, total) == SegmentPass(old(data[..]), 0, old(bases))
    {
      hide ReadHeader, MoofPass;
      ghost var whole := SegmentPass(data[..], 0, bases);
      total := 0;
      var off := 0;
      while off < data.Length
        invariant whole == Counting(total, SegmentPass(data[..], off, bases))
        decreases data.Length - off
      {
        var h := ReadHeader(data[..], off);
        if h.Bad? {
          break;
        }
        if h.kind == MOOF {
          var n := NormalizeMoof(data, off + 8, off + h.size);
          total := total + n;
        }
        off := off + h.size;
      }
    }
  }

  function Counting(n: nat, p: Pass): Pass {
    p.(count := n + p.count)
  }
}
