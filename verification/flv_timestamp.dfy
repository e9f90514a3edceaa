/** Timestamp repair: the per-segment state, one step of it, and what whole segments look like afterwards. */
module FlvTimestamp {
  import opened Bytes
  import opened Collections
  import opened FlvTag

  const JUMP_THRESHOLD := 500
  const AUDIO_FALLBACK := 22
  const VIDEO_FALLBACK := 33

  /** The longest segment for which the repaired timeline cannot leave int32: 500 * (MAX_TAGS - 1) + 33 < 2^31. */
  const MAX_TAGS := 4_294_968

  datatype Store = Store(first: bool, last: int32, offset: int32, next: int32)

  const FRESH := Store(true, 0, 0, 0)

  function Difference(s: Store, t: int32): int32 {
    Wrap32(t - s.last)
  }

  predicate Jumps(s: Store, t: int32) {
    var diff := Difference(s, t);
    diff < -JUMP_THRESHOLD || (s.last == 0 && diff < 0) || diff > JUMP_THRESHOLD
  }

  function Duration(kind: byte): int32 {
    if kind == AUDIO then AUDIO_FALLBACK else VIDEO_FALLBACK
  }

  /** The offset in force for a tag with timestamp t. */
  function OffsetFor(s: Store, t: int32): int32 {
    if Jumps(s, t) then Wrap32(t - s.next) else if s.first then t else s.offset
  }

  function Repaired(s: Store, t: int32): int32 {
    var raw := Wrap32(t - OffsetFor(s, t));
    if raw < 0 then 0 else raw
  }

  function Advance(s: Store, t: Tag): Store {
    Store(false, t.timestamp, OffsetFor(s, t.timestamp), Wrap32(Repaired(s, t.timestamp) + Duration(t.kind)))
  }

  function RepairTag(s: Store, t: Tag): Tag {
    t.(timestamp := Repaired(s, t.timestamp))
  }

  function Repair(s: Store, ts: seq<Tag>): (r: seq<Tag>)
    ensures |r| == |ts|
    decreases |ts|
  {
    if ts == [] then [] else [RepairTag(s, ts[0])] + Repair(Advance(s, ts[0]), ts[1..])
  }

  function After(s: Store, ts: seq<Tag>): Store
    decreases |ts|
  {
    if ts == [] then s else After(Advance(s, ts[0]), ts[1..])
  }

  lemma {:induction false} RepairAppend(s: Store, a: seq<Tag>, b: seq<Tag>)
    ensures Repair(s, a + b) == Repair(s, a) + Repair(After(s, a), b)
    ensures After(s, a + b) == After(After(s, a), b)
    decreases |a|
  {
    if a == [] {
      assert a + b == b;
    } else {
      var d := Advance(s, a[0]);
      RepairAppend(d, a[1..], b);
      assert (a + b)[1..] == a[1..] + b;
      Associate([RepairTag(s, a[0])], Repair(d, a[1..]), Repair(After(d, a[1..]), b));
    }
  }

  /** The mutable record the fixer keeps per segment. */
  class TimestampStore {
    var firstChunk: bool
    var lastOriginal: int32
    var currentOffset: int32
    var nextTarget: int32

    constructor ()
      ensures View() == FRESH
    {
      firstChunk, lastOriginal, currentOffset, nextTarget := true, 0, 0, 0;
    }

    function View(): Store
      reads this
    {
      Store(firstChunk, lastOriginal, currentOffset, nextTarget)
    }

    method Reset()
      modifies this
      ensures View() == FRESH
    {
      firstChunk, lastOriginal, currentOffset, nextTarget := true, 0, 0, 0;
    }

    method FixTimestamp(tag: Tag) returns (fixed: Tag)
      modifies this
      ensures fixed == RepairTag(old(View()), tag)
      ensures View() == Advance(old(View()), tag)
    {
      var current := tag.timestamp;
      if firstChunk {
        firstChunk := false;
        currentOffset := current;
      }
      var diff := Wrap32(current - lastOriginal);
      if diff < -JUMP_THRESHOLD || (lastOriginal == 0 && diff < 0) {
        currentOffset := Wrap32(current - nextTarget);
      } else if diff > JUMP_THRESHOLD {
        currentOffset := Wrap32(current - nextTarget);
      }
      lastOriginal := current;
      var stamp := Wrap32(current - currentOffset);
      if stamp < 0 {
        stamp := 0;
      }
      fixed := tag.(timestamp := stamp);
      nextTarget := Wrap32(stamp + Duration(tag.kind));
    }
  }

  /** How far the input is ahead of the offset: what the next output is computed from. */
  function Lead(s: Store): int32 {
    Wrap32(s.last - s.offset)
  }

  /** After n tags of a segment, the last one of this kind and with output `out`. */
  ghost predicate Running(s: Store, n: nat, out: int, kind: byte) {
    && !s.first && n > 0
    && -JUMP_THRESHOLD * (n - 1) <= Lead(s) <= JUMP_THRESHOLD * (n - 1)
    && out == (if Lead(s) < 0 then 0 else Lead(s))
    && s.next == Wrap32(out + Duration(kind))
  }

  /** Without a jump the lead moves by exactly the input's difference. */
  lemma LeadMoves(s: Store, t: int32)
    ensures Wrap32(t - s.offset) == Wrap32(Lead(s) + Difference(s, t))
  {
    WrapOfWraps(s.last - s.offset, t - s.last);
  }

  /** After a jump the output is the target. */
  lemma JumpLands(s: Store, t: int32)
    ensures Wrap32(t - Wrap32(t - s.next)) == s.next
  {
    WrapOfWraps(t, t - s.next);
  }

  lemma FirstStep(t: Tag)
    ensures Repaired(FRESH, t.timestamp) == 0 && Running(Advance(FRESH, t), 1, 0, t.kind)
  {
    JumpLands(FRESH, t.timestamp);
  }

  /** What the lead becomes: the target after a jump, otherwise the lead moved by the input's difference. */
  lemma LeadAfter(s: Store, t: Tag)
    ensures var l := Lead(Advance(s, t));
      && Repaired(s, t.timestamp) == (if l < 0 then 0 else l)
      && (Jumps(s, t.timestamp) ==> l == s.next)
      && (!s.first && !Jumps(s, t.timestamp) ==> l == Wrap32(Lead(s) + Difference(s, t.timestamp)))
  {
    JumpLands(s, t.timestamp);
    LeadMoves(s, t.timestamp);
  }

  lemma NextStep(s: Store, n: nat, out: int, kind: byte, t: Tag)
    requires Running(s, n, out, kind) && n < MAX_TAGS
    ensures var r := Repaired(s, t.timestamp);
      && 0 <= r && -JUMP_THRESHOLD <= r - out <= JUMP_THRESHOLD
      && (Jumps(s, t.timestamp) ==> r == out + Duration(kind))
      && Running(Advance(s, t), n + 1, r, t.kind)
  {
    LeadAfter(s, t);
    assert s.next == out + Duration(kind);
    hide OffsetFor;
  }

  /** The output for tag i is the repair of tag i in the state left by the tags before it. */
  lemma {:induction false} RepairAt(s: Store, ts: seq<Tag>, i: nat)
    requires i < |ts|
    ensures Repair(s, ts)[i] == RepairTag(After(s, ts[..i]), ts[i])
    ensures Repair(s, ts)[i].timestamp == Repaired(After(s, ts[..i]), ts[i].timestamp)
    ensures After(s, ts[..i + 1]) == Advance(After(s, ts[..i]), ts[i])
    decreases i
  {
    hide Repaired, Advance;
    if i > 0 {
      RepairAt(Advance(s, ts[0]), ts[1..], i - 1);
      assert ts[1..][..i - 1] == ts[..i][1..] && ts[1..][..i] == ts[..i + 1][1..];
    }
  }

  lemma {:induction false} RunningAt(ts: seq<Tag>, i: nat)
    requires i < |ts| && i < MAX_TAGS
    ensures Running(After(FRESH, ts[..i + 1]), i + 1, Repair(FRESH, ts)[i].timestamp, ts[i].kind)
  {
    RepairAt(FRESH, ts, i);
    if i == 0 {
      FirstStep(ts[0]);
    } else {
      RunningAt(ts, i - 1);
      NextStep(After(FRESH, ts[..i]), i, Repair(FRESH, ts)[i - 1].timestamp, ts[i - 1].kind, ts[i]);
    }
  }

  // ---- The same, told by steps instead of offsets ----

  function AtLeastZero(x: int): int {
    if x < 0 then 0 else x
  }

  /** The step from the tag before, as an int32 difference. */
  function InputStep(ts: seq<Tag>, i: nat): int
    requires 0 < i < |ts|
  {
    Wrap32(ts[i].timestamp - ts[i - 1].timestamp)
  }

  /** More than 500 ms either way, or backwards from 0. */
  predicate IsJump(ts: seq<Tag>, i: nat)
    requires 0 < i < |ts|
  {
    var d := InputStep(ts, i);
    d > 500 || d < -500 || (d < 0 && ts[i - 1].timestamp == 0)
  }

  /** Where the output stands: it moves as the input does, below 0 as well, where nothing is written but 0; and at a
      jump it goes on from what was written, by one frame. */
  function Level(ts: seq<Tag>, i: nat): int
    requires i < |ts|
  {
    if i == 0 then 0
    else if IsJump(ts, i) then AtLeastZero(Level(ts, i - 1)) + (if ts[i - 1].kind == 8 then 22 else 33)
    else Level(ts, i - 1) + InputStep(ts, i)
  }

  /** The repair, exactly: for every int32 input the output is the running sum of steps, or 0 while that is negative. */
  lemma {:induction false} RepairIsRunningSum(ts: seq<Tag>, i: nat)
    requires i < |ts| && i < MAX_TAGS
    ensures Repair(FRESH, ts)[i].timestamp == AtLeastZero(Level(ts, i))
    ensures Lead(After(FRESH, ts[..i + 1])) == Level(ts, i)
  {
    hide Repair, After, Wrap32, Lead, OffsetFor, Repaired;
    RunningAt(ts, i);
    if i > 0 {
      RepairIsRunningSum(ts, i - 1);
      RunningAt(ts, i - 1);
      RepairAt(FRESH, ts, i);
      RepairAt(FRESH, ts, i - 1);
      var s := After(FRESH, ts[..i]);
      LeadAfter(s, ts[i]);
      SmallSum(Lead(s), Difference(s, ts[i].timestamp));
      SmallSum(Repair(FRESH, ts)[i - 1].timestamp, Duration(ts[i - 1].kind));
    }
  }

  lemma SmallSum(a: int32, b: int32)
    ensures -0x8000_0000 <= a + b < 0x8000_0000 ==> Wrap32(a + b) == a + b
  {
  }

  ghost predicate Close(a: int, b: int) {
    -JUMP_THRESHOLD <= b - a <= JUMP_THRESHOLD
  }

  /** A timeline that starts at 0, stays non-negative and never moves by more than 500 ms. */
  ghost predicate Smooth(us: seq<Tag>) {
    && (us != [] ==> us[0].timestamp == 0)
    && (forall i :: 0 <= i < |us| ==> us[i].timestamp >= 0)
    && (forall i :: 0 < i < |us| ==> Close(us[i - 1].timestamp, us[i].timestamp))
  }

  /** Whatever the input timestamps are, a segment of up to MAX_TAGS tags is repaired to a smooth timeline. */
  lemma RepairIsSmooth(ts: seq<Tag>)
    requires |ts| <= MAX_TAGS
    ensures Smooth(Repair(FRESH, ts))
  {
    hide Repair, Close;
    var us := Repair(FRESH, ts);
    if ts != [] {
      FirstIsZero(ts);
    }
    forall i | 0 < i < |us|
      ensures us[i].timestamp >= 0 && Close(us[i - 1].timestamp, us[i].timestamp)
    {
      StepIsSmooth(ts, i);
    }
  }

  lemma StepIsSmooth(ts: seq<Tag>, i: nat)
    requires 0 < i < |ts| <= MAX_TAGS
    ensures var us := Repair(FRESH, ts); us[i].timestamp >= 0 && Close(us[i - 1].timestamp, us[i].timestamp)
  {
    hide Repair, After, Repaired, Wrap32, Jumps, Advance, Running;
    RunningAt(ts, i - 1);
    RepairAt(FRESH, ts, i);
    NextStep(After(FRESH, ts[..i]), i, Repair(FRESH, ts)[i - 1].timestamp, ts[i - 1].kind, ts[i]);
  }

  /** The output one frame after another: 22 ms after audio, 33 ms after anything else. */
  ghost predicate Continues(ts: seq<Tag>, i: nat)
    requires 0 < i < |ts|
  {
    Repair(FRESH, ts)[i].timestamp == Repair(FRESH, ts)[i - 1].timestamp + (if ts[i - 1].kind == AUDIO then 22 else 33)
  }

  /** At a jump, in a segment of any length, the timeline continues one frame after the previous output if and only if
      that still fits int32; otherwise it falls to 0. */
  lemma JumpContinuesExactly(ts: seq<Tag>, i: nat)
    requires 0 < i < |ts| && Jumps(After(FRESH, ts[..i]), ts[i].timestamp)
    ensures var target := Repair(FRESH, ts)[i - 1].timestamp + Duration(ts[i - 1].kind);
      Repair(FRESH, ts)[i].timestamp == if target < 0x8000_0000 then target else 0
  {
    RepairAt(FRESH, ts, i - 1);
    RepairAt(FRESH, ts, i);
    LeadAfter(After(FRESH, ts[..i]), ts[i]);
    TargetAfter(After(FRESH, ts[..i - 1]), ts[i - 1]);
    hide Repair, After, Advance, Jumps, Lead;
  }

  lemma TargetAfter(s: Store, t: Tag)
    ensures var target := Repaired(s, t.timestamp) + Duration(t.kind);
      Advance(s, t).next == if target < 0x8000_0000 then target else target - TWO_32
  {
    hide OffsetFor;
    var target := Repaired(s, t.timestamp) + Duration(t.kind);
    hide Repaired;
    if target >= 0x8000_0000 {
      assert Wrap32(target - 0x1_0000_0000) == target - 0x1_0000_0000;
    }
  }

  /** So it does at every jump of a segment of up to MAX_TAGS + 1 tags. */
  lemma JumpContinues(ts: seq<Tag>, i: nat)
    requires 0 < i < |ts| <= MAX_TAGS + 1
    requires Jumps(After(FRESH, ts[..i]), ts[i].timestamp)
    ensures Continues(ts, i)
  {
    JumpContinuesExactly(ts, i);
    OutputBound(ts, i - 1);
  }

  lemma OutputBound(ts: seq<Tag>, i: nat)
    requires i < |ts| && i < MAX_TAGS
    ensures 0 <= Repair(FRESH, ts)[i].timestamp <= JUMP_THRESHOLD * i
  {
    RunningAt(ts, i);
  }

  /** Nothing but timestamps is touched. */
  lemma {:induction false} RepairKeepsContent(s: Store, ts: seq<Tag>)
    ensures forall i :: 0 <= i < |ts| ==> Repair(s, ts)[i] == ts[i].(timestamp := Repair(s, ts)[i].timestamp)
    decreases |ts|
  {
    if ts != [] {
      RepairKeepsContent(Advance(s, ts[0]), ts[1..]);
    }
  }

  lemma {:induction false} SteadyIsKept(s: Store, us: seq<Tag>)
    requires !s.first && s.offset == 0 && s.last >= 0
    requires forall i :: 0 <= i < |us| ==> us[i].timestamp >= 0
    requires us != [] ==> Close(s.last, us[0].timestamp)
    requires forall i :: 0 < i < |us| ==> Close(us[i - 1].timestamp, us[i].timestamp)
    ensures Repair(s, us) == us
    decreases |us|
  {
    if us != [] {
      var rest := us[1..];
      assert rest != [] ==> rest[0] == us[1];
      SteadyStep(s, us[0]);
      hide Advance, Close;
      SteadyIsKept(Advance(s, us[0]), rest);
      assert [us[0]] + rest == us;
    }
  }

  lemma SteadyStep(s: Store, u: Tag)
    requires !s.first && s.offset == 0 && s.last >= 0 && u.timestamp >= 0 && Close(s.last, u.timestamp)
    ensures RepairTag(s, u) == u
    ensures var next := Advance(s, u); !next.first && next.offset == 0 && next.last == u.timestamp
  {
  }

  /** A smooth timeline is left alone. */
  lemma SmoothIsKept(us: seq<Tag>)
    requires Smooth(us)
    ensures Repair(FRESH, us) == us
  {
    if us != [] {
      var rest := us[1..];
      assert rest != [] ==> rest[0] == us[1];
      SteadyIsKept(Advance(FRESH, us[0]), rest);
      assert RepairTag(FRESH, us[0]) == us[0];
    }
  }

  /** The fixed points of the repair are exactly the smooth timelines, so repairing twice is repairing once. */
  lemma RepairIsIdempotent(ts: seq<Tag>)
    requires |ts| <= MAX_TAGS
    ensures Repair(FRESH, Repair(FRESH, ts)) == Repair(FRESH, ts)
    ensures Smooth(ts) <==> Repair(FRESH, ts) == ts
  {
    RepairIsSmooth(ts);
    SmoothIsKept(Repair(FRESH, ts));
    if Smooth(ts) {
      SmoothIsKept(ts);
    }
  }

  function RampTag(i: nat): Tag {
    Tag(VIDEO, Wrap32(500 * i), [0, 0, 0], [])
  }

  /** Video tags 500 ms apart, counted in int32. */
  function Ramp(n: nat): (ts: seq<Tag>)
    ensures |ts| == n
  {
    seq(n, (i: nat) => RampTag(i))
  }

  /** The state before tag i of a ramp. */
  function RampState(i: nat): Store {
    if i == 0 then FRESH else Advance(RampState(i - 1), RampTag(i - 1))
  }

  lemma RampStep(x: int)
    ensures Wrap32(Wrap32(x + 500) - Wrap32(x)) == 500
  {
    WrapOfWraps(x + 500, x);
  }

  /** While the offset is 0 and the input moves by 500, it stays 0 and the output is the input, or 0 if negative. */
  lemma SteadyOffset(s: Store, t: Tag)
    requires (s == FRESH && t.timestamp == 0) || (!s.first && s.offset == 0 && Difference(s, t.timestamp) == 500)
    ensures OffsetFor(s, t.timestamp) == 0
    ensures Repaired(s, t.timestamp) == if t.timestamp < 0 then 0 else t.timestamp
  {
  }

  lemma {:induction false} RampKeepsOffset(i: nat)
    ensures var s, w := RampState(i), Wrap32(500 * i);
      && OffsetFor(s, w) == 0
      && Repaired(s, w) == (if w < 0 then 0 else w)
    ensures i > 0 ==> !RampState(i).first && RampState(i).offset == 0
  {
    hide Wrap32, OffsetFor, Repaired;
    if i > 0 {
      RampKeepsOffset(i - 1);
      RampStep(500 * (i - 1));
    } else {
      ZeroWraps();
    }
    SteadyOffset(RampState(i), RampTag(i));
  }

  lemma ZeroWraps()
    ensures Wrap32(0) == 0
  {
  }

  lemma {:induction false} RampStates(n: nat, i: nat)
    requires i < n
    ensures After(FRESH, Ramp(n)[..i]) == RampState(i)
  {
    hide After, Advance, RampTag, Repair;
    if i > 0 {
      RampStates(n, i - 1);
      var ts := Ramp(n);
      assert ts[i - 1] == RampTag(i - 1);
      RepairAt(FRESH, ts, i - 1);
    } else {
      NothingBefore(Ramp(n));
    }
  }

  lemma RampOutput(n: nat, i: nat)
    requires i < n
    ensures var w := Wrap32(500 * i); Repair(FRESH, Ramp(n))[i].timestamp == if w < 0 then 0 else w
  {
    RampKeepsOffset(i);
    RampStates(n, i);
    RepairAt(FRESH, Ramp(n), i);
  }

  lemma RampTop()
    ensures Wrap32(500 * (MAX_TAGS - 1)) == 2_147_483_500
    ensures Wrap32(500 * MAX_TAGS) < 0
  {
    assert 500 * MAX_TAGS - TWO_32 == 500 * MAX_TAGS + 0x1_0000_0000 * -1;
    WrapUnique(500 * MAX_TAGS, 500 * MAX_TAGS - TWO_32);
  }

  /** One tag more and int32 gives way: the ramp's next output falls from 2,147,483,500 to 0. */
  lemma RampBreaks(n: nat)
    requires n > MAX_TAGS
    ensures !Smooth(Repair(FRESH, Ramp(n)))
  {
    RampOutput(n, MAX_TAGS - 1);
    RampOutput(n, MAX_TAGS);
    RampTop();
    var us := Repair(FRESH, Ramp(n));
    assert !Close(us[MAX_TAGS - 1].timestamp, us[MAX_TAGS].timestamp);
  }

  /** The exact condition: repair is smooth on all segments of n tags if and only if n <= MAX_TAGS. */
  lemma SmoothUpToExactly(n: nat)
    ensures (forall ts: seq<Tag> :: |ts| == n ==> Smooth(Repair(FRESH, ts))) <==> n <= MAX_TAGS
  {
    if n <= MAX_TAGS {
      forall ts: seq<Tag> | |ts| == n
        ensures Smooth(Repair(FRESH, ts))
      {
        RepairIsSmooth(ts);
      }
    } else {
      RampBreaks(n);
    }
  }

  lemma RepairPrefix(s: Store, ts: seq<Tag>, n: nat)
    requires n <= |ts|
    ensures Repair(s, ts)[..n] == Repair(s, ts[..n])
  {
    assert ts == ts[..n] + ts[n..];
    RepairAppend(s, ts[..n], ts[n..]);
  }

  /** If the first n tags come out unchanged, the state behind them is that of a timeline that was never touched. */
  lemma UntouchedState(ts: seq<Tag>, n: nat)
    requires 0 < n <= |ts| && Smooth(ts[..n])
    ensures var s := After(FRESH, ts[..n]);
      Repair(FRESH, ts)[n - 1] == ts[n - 1] && !s.first && s.last == ts[n - 1].timestamp
  {
    SmoothIsKept(ts[..n]);
    RepairPrefix(FRESH, ts, n);
    RepairAt(FRESH, ts, n - 1);
    hide Repair, After, Smooth;
    assert Repair(FRESH, ts)[..n][n - 1] == ts[..n][n - 1];
  }

  /** Idempotence ends with smoothness: of the longer ramp's output, the second pass turns the 0 into 2,147,483,533. */
  lemma RampIsRepairedTwice(n: nat)
    requires n > MAX_TAGS
    ensures var us := Repair(FRESH, Ramp(n));
      Repair(FRESH, us)[MAX_TAGS].timestamp == 2_147_483_533 != us[MAX_TAGS].timestamp
  {
    hide Repair, After, Ramp, Smooth, Wrap32, Jumps, Advance, Duration;
    var us, m := Repair(FRESH, Ramp(n)), MAX_TAGS;
    RampOutput(n, m - 1);
    RampOutput(n, m);
    RampTop();
    RampPrefixIsSmooth(n);
    UntouchedState(us, m);
    FarDrop(After(FRESH, us[..m]), 0);
    JumpContinuesExactly(us, m);
    RampKind(n, m - 1);
  }

  lemma RampPrefixIsSmooth(n: nat)
    requires n > MAX_TAGS
    ensures Smooth(Repair(FRESH, Ramp(n))[..MAX_TAGS])
  {
    hide Repair, Ramp, Smooth;
    RepairPrefix(FRESH, Ramp(n), MAX_TAGS);
    RepairIsSmooth(Ramp(n)[..MAX_TAGS]);
  }

  lemma RampKind(n: nat, i: nat)
    requires i < n
    ensures Repair(FRESH, Ramp(n))[i].kind == VIDEO && Duration(VIDEO) == VIDEO_FALLBACK
  {
    RepairKeepsContent(FRESH, Ramp(n));
    hide Repair;
    assert Ramp(n)[i] == RampTag(i);
  }

  lemma FarDrop(s: Store, t: int32)
    requires s.last - t > JUMP_THRESHOLD && t >= 0
    ensures Jumps(s, t)
  {
  }

  /** The exact condition: repairing twice is repairing once on all segments of n tags if and only if n <= MAX_TAGS. */
  lemma IdempotentUpToExactly(n: nat)
    ensures (forall ts: seq<Tag> :: |ts| == n ==> Repair(FRESH, Repair(FRESH, ts)) == Repair(FRESH, ts)) <==>
      n <= MAX_TAGS
  {
    hide Repair, Smooth;
    if n <= MAX_TAGS {
      forall ts: seq<Tag> | |ts| == n
        ensures Repair(FRESH, Repair(FRESH, ts)) == Repair(FRESH, ts)
      {
        RepairIsIdempotent(ts);
      }
    } else {
      RampIsRepairedTwice(n);
      assert |Ramp(n)| == n;
    }
  }

  // ---- One tag beyond: the timeline at the top of int32 ----

  function PeakTag(i: nat): Tag {
    Tag(VIDEO, if i < MAX_TAGS then 500 * i else if i == MAX_TAGS then 0x7fff_ffff else 0, [0, 0, 0], [])
  }

  /** A smooth timeline up to the largest int32, then zeros. */
  function Peak(n: nat): (ts: seq<Tag>)
    ensures |ts| == n
  {
    seq(n, (i: nat) => PeakTag(i))
  }

  lemma PeakIsSmooth(n: nat)
    requires n > MAX_TAGS
    ensures Smooth(Peak(n)[..MAX_TAGS + 1])
  {
    var us := Peak(n)[..MAX_TAGS + 1];
    assert forall i :: 0 <= i < |us| ==> us[i] == PeakTag(i);
  }

  /** Behind the peak a jump to 0 is no frame step: the target does not fit int32. */
  lemma PeakFalls(n: nat)
    requires n > MAX_TAGS + 1
    ensures var ts, i := Peak(n), MAX_TAGS + 1;
      && Jumps(After(FRESH, ts[..i]), ts[i].timestamp) && !Continues(ts, i)
      && Repair(FRESH, ts)[i].timestamp == 0
  {
    var ts, i := Peak(n), MAX_TAGS + 1;
    PeakIsSmooth(n);
    UntouchedState(ts, i);
    assert ts[i - 1] == PeakTag(i - 1) && ts[i] == PeakTag(i);
    hide Repair, After, Peak, Smooth;
    FarDrop(After(FRESH, ts[..i]), 0);
    JumpContinuesExactly(ts, i);
  }

  ghost predicate EveryJumpContinues(n: nat) {
    forall ts: seq<Tag>, i: nat :: |ts| == n && 0 < i < n && Jumps(After(FRESH, ts[..i]), ts[i].timestamp) ==>
      Continues(ts, i)
  }

  /** The exact condition: every jump of every segment of n tags continues the timeline if and only if n is at most
      MAX_TAGS + 1. */
  lemma JumpContinuesUpToExactly(n: nat)
    ensures EveryJumpContinues(n) <==> n <= MAX_TAGS + 1
  {
    hide Continues, Jumps, After;
    if n <= MAX_TAGS + 1 {
      forall ts: seq<Tag>, i: nat | |ts| == n && 0 < i < n && Jumps(After(FRESH, ts[..i]), ts[i].timestamp)
        ensures Continues(ts, i)
      {
        JumpContinues(ts, i);
      }
    } else {
      PeakFalls(n);
      assert |Peak(n)| == n;
    }
  }

  /** A fixed point of the repair moves by at most 500 ms wherever the next frame still fits int32. */
  lemma FixedPointIsClose(ts: seq<Tag>, i: nat)
    requires Repair(FRESH, ts) == ts && 0 < i < |ts|
    requires ts[i - 1].timestamp + Duration(ts[i - 1].kind) < 0x8000_0000
    ensures 0 <= ts[i].timestamp && 0 <= ts[i - 1].timestamp && Close(ts[i - 1].timestamp, ts[i].timestamp)
  {
    hide Repair, After, Jumps, Wrap32, Repaired, OffsetFor, Duration;
    var s := After(FRESH, ts[..i]);
    RepairAt(FRESH, ts, i - 1);
    RepairAt(FRESH, ts, i);
    NotNegative(After(FRESH, ts[..i - 1]), ts[i - 1].timestamp);
    NotNegative(s, ts[i].timestamp);
    if Jumps(s, ts[i].timestamp) {
      ShortDuration(ts[i - 1].kind);
      JumpContinuesExactly(ts, i);
    } else {
      CalmStep(s, ts[i].timestamp);
    }
  }

  lemma NotNegative(s: Store, t: int32)
    ensures Repaired(s, t) >= 0
  {
  }

  lemma CalmStep(s: Store, t: int32)
    requires !Jumps(s, t) && s.last >= 0 && t >= 0
    ensures Close(s.last, t)
  {
  }

  lemma FirstIsZero(ts: seq<Tag>)
    requires ts != []
    ensures Repair(FRESH, ts)[0].timestamp == 0
  {
    FirstStep(ts[0]);
  }

  lemma ShortDuration(kind: byte)
    ensures 0 < Duration(kind) <= 33
  {
  }

  /** Fixed points are smooth up to MAX_TAGS + 1 tags. */
  lemma FixedPointIsSmooth(ts: seq<Tag>)
    requires Repair(FRESH, ts) == ts && |ts| <= MAX_TAGS + 1
    ensures Smooth(ts)
  {
    hide Repair, Close, Wrap32, Duration;
    if ts != [] {
      FirstIsZero(ts);
    }
    forall i | 0 < i < |ts|
      ensures 0 <= ts[i].timestamp && Close(ts[i - 1].timestamp, ts[i].timestamp)
    {
      OutputBound(ts, i - 1);
      ShortDuration(ts[i - 1].kind);
      FixedPointIsClose(ts, i);
    }
  }

  lemma {:induction false} PeakStays(n: nat, i: nat)
    requires MAX_TAGS + 1 < i < n
    ensures Repair(FRESH, Peak(n))[i].timestamp == 0
    ensures After(FRESH, Peak(n)[..i + 1]) == Advance(After(FRESH, Peak(n)[..i]), PeakTag(i))
    ensures var s := After(FRESH, Peak(n)[..i + 1]); !s.first && s.last == 0 && s.offset == 0x7fff_ffe0
  {
    hide Repair, After, Peak, PeakTag, Advance, Repaired, RepairTag;
    var ts := Peak(n);
    PeakAt(n, i);
    RepairAt(FRESH, ts, i);
    if i == MAX_TAGS + 2 {
      PeakOffset(n);
    } else {
      PeakStays(n, i - 1);
    }
    ZeroStays(After(FRESH, ts[..i]), PeakTag(i));
  }

  lemma PeakAt(n: nat, i: nat)
    requires i < n
    ensures Peak(n)[i] == PeakTag(i) && (i > MAX_TAGS ==> PeakTag(i).timestamp == 0)
  {
  }

  lemma ZeroStays(s: Store, t: Tag)
    requires !s.first && s.last == 0 && s.offset == 0x7fff_ffe0 && t.timestamp == 0
    ensures Repaired(s, 0) == 0
    ensures var next := Advance(s, t); !next.first && next.last == 0 && next.offset == 0x7fff_ffe0
  {
  }

  lemma PeakOffset(n: nat)
    requires n > MAX_TAGS + 1
    ensures var s := After(FRESH, Peak(n)[..MAX_TAGS + 2]); !s.first && s.last == 0 && s.offset == 0x7fff_ffe0
  {
    var ts, i := Peak(n), MAX_TAGS + 1;
    PeakIsSmooth(n);
    UntouchedState(ts, i);
    RepairAt(FRESH, ts, i);
    RepairAt(FRESH, ts, i - 1);
    assert ts[i - 1] == PeakTag(i - 1) && ts[i] == PeakTag(i);
    hide Repair, After, Peak, Smooth;
    var s := After(FRESH, ts[..i]);
    FarDrop(s, 0);
    TargetAfter(After(FRESH, ts[..i - 1]), ts[i - 1]);
  }

  /** The peak is a fixed point that is not smooth. */
  lemma PeakIsFixed(n: nat)
    requires n > MAX_TAGS + 1
    ensures Repair(FRESH, Peak(n)) == Peak(n) && !Smooth(Peak(n))
  {
    hide Repair, Wrap32, Peak;
    var ts, us, m := Peak(n), Repair(FRESH, Peak(n)), MAX_TAGS + 1;
    PeakIsSmooth(n);
    SmoothIsKept(ts[..m]);
    RepairPrefix(FRESH, ts, m);
    PeakFalls(n);
    RepairKeepsContent(FRESH, ts);
    forall i | 0 <= i < n
      ensures us[i] == ts[i]
    {
      PeakAt(n, i);
      if i < m {
        assert us[..m][i] == ts[..m][i];
      } else if i > m {
        PeakStays(n, i);
      }
    }
    PeakAt(n, m - 1);
    PeakAt(n, m);
    assert !Close(ts[m - 1].timestamp, ts[m].timestamp);
  }

  ghost predicate FixedPointsAreSmooth(n: nat) {
    forall ts: seq<Tag> :: |ts| == n ==> (Repair(FRESH, ts) == ts <==> Smooth(ts))
  }

  /** The exact condition: among the segments of n tags the fixed points of the repair are the smooth timelines if and
      only if n is at most MAX_TAGS + 1. */
  lemma FixedPointsUpToExactly(n: nat)
    ensures FixedPointsAreSmooth(n) <==> n <= MAX_TAGS + 1
  {
    hide Repair, Smooth, Peak;
    if n <= MAX_TAGS + 1 {
      forall ts: seq<Tag> | |ts| == n
        ensures Repair(FRESH, ts) == ts <==> Smooth(ts)
      {
        if Smooth(ts) {
          SmoothIsKept(ts);
        }
        if Repair(FRESH, ts) == ts {
          FixedPointIsSmooth(ts);
        }
      }
    } else {
      PeakIsFixed(n);
      assert |Peak(n)| == n;
    }
  }

  ghost predicate NonNegative(ts: seq<Tag>) {
    forall i :: 0 <= i < |ts| ==> ts[i].timestamp >= 0
  }

  /** us is ts with k added to every timestamp. */
  ghost predicate Shifted(ts: seq<Tag>, us: seq<Tag>, k: int) {
    && |us| == |ts|
    && forall i :: 0 <= i < |ts| ==>
      us[i].timestamp == ts[i].timestamp + k && us[i] == ts[i].(timestamp := us[i].timestamp)
  }

  ghost predicate ShiftedStore(s: Store, u: Store, k: int) {
    && !s.first && !u.first && s.last >= 0 && u.last == s.last + k && u.last >= 0
    && u.next == s.next && Congruent(u.offset, s.offset + k)
  }

  lemma ShiftedOffset(s: Store, u: Store, t: int32, v: int32, k: int)
    requires ShiftedStore(s, u, k) && t >= 0 && v >= 0 && v == t + k
    ensures Congruent(OffsetFor(u, v), OffsetFor(s, t) + k)
  {
    assert Jumps(u, v) == Jumps(s, t);
    if Jumps(s, t) {
      WrapIsCongruent(t - s.next);
      WrapIsCongruent(v - s.next);
      var i: int :| Wrap32(t - s.next) == t - s.next + 0x1_0000_0000 * i;
      var j: int :| Wrap32(v - s.next) == v - s.next + 0x1_0000_0000 * j;
      assert Wrap32(v - s.next) == Wrap32(t - s.next) + k + 0x1_0000_0000 * (j - i);
    }
  }

  lemma ShiftStep(s: Store, u: Store, t: int32, v: int32, k: int)
    requires ShiftedStore(s, u, k) || (s == u == FRESH)
    requires t >= 0 && v >= 0 && v == t + k
    ensures Repaired(u, v) == Repaired(s, t)
    ensures Congruent(OffsetFor(u, v), OffsetFor(s, t) + k)
  {
    assert v == t + k + 0x1_0000_0000 * 0;
    if s.first {
      JumpLands(s, t);
      JumpLands(u, v);
    } else {
      ShiftedOffset(s, u, t, v, k);
      CongruentSum(v, t + k, OffsetFor(u, v), OffsetFor(s, t) + k);
      WrapCongruent(v - OffsetFor(u, v), t - OffsetFor(s, t));
    }
  }

  lemma {:induction false} ShiftRun(s: Store, u: Store, ts: seq<Tag>, us: seq<Tag>, k: int)
    requires ShiftedStore(s, u, k) || (s == u == FRESH)
    requires Shifted(ts, us, k) && NonNegative(ts) && NonNegative(us)
    ensures Repair(u, us) == Repair(s, ts)
    decreases |ts|
  {
    if ts != [] {
      ShiftStep(s, u, ts[0].timestamp, us[0].timestamp, k);
      ShiftRun(Advance(s, ts[0]), Advance(u, us[0]), ts[1..], us[1..], k);
    }
  }

  /** Only differences matter: a constant added to all timestamps, none negative, changes no output. */
  lemma RepairIsShiftInvariant(ts: seq<Tag>, us: seq<Tag>, k: int)
    requires Shifted(ts, us, k) && NonNegative(ts) && NonNegative(us)
    ensures Repair(FRESH, us) == Repair(FRESH, ts)
  {
    ShiftRun(FRESH, FRESH, ts, us, k);
  }

  /** Every sum and difference of the step that handles t fits int32 without wrapping. */
  ghost predicate Exact(s: Store, t: Tag) {
    && Difference(s, t.timestamp) == t.timestamp - s.last
    && Wrap32(t.timestamp - s.next) == t.timestamp - s.next
    && Wrap32(t.timestamp - OffsetFor(s, t.timestamp)) == t.timestamp - OffsetFor(s, t.timestamp)
    && Advance(s, t).next == Repaired(s, t.timestamp) + Duration(t.kind)
  }

  /** With non-negative input no int32 operation overflows in a segment of up to MAX_TAGS tags. */
  lemma {:induction false} NoOverflow(ts: seq<Tag>, i: nat)
    requires NonNegative(ts) && i < |ts| <= MAX_TAGS
    ensures Exact(After(FRESH, ts[..i]), ts[i])
    ensures var s := After(FRESH, ts[..i + 1]); Lead(s) == s.last - s.offset && s.last >= 0
  {
    hide Repair, After;
    RepairAt(FRESH, ts, i);
    RunningAt(ts, i);
    if i == 0 {
      FirstStep(ts[0]);
      NothingBefore(ts);
    } else {
      NoOverflow(ts, i - 1);
      RunningAt(ts, i - 1);
    }
  }

  lemma NothingBefore(ts: seq<Tag>)
    requires ts != []
    ensures After(FRESH, ts[..0]) == FRESH
  {
  }

  ghost predicate NeverOverflows(n: nat) {
    forall ts: seq<Tag>, i: nat :: |ts| == n && i < n && NonNegative(ts) ==> Exact(After(FRESH, ts[..i]), ts[i])
  }

  /** The exact condition: no operation overflows on any non-negative segment of n tags if and only if n is at most
      MAX_TAGS. */
  lemma NoOverflowUpToExactly(n: nat)
    ensures NeverOverflows(n) <==> n <= MAX_TAGS
  {
    hide Exact, After, NonNegative, Peak;
    if n <= MAX_TAGS {
      forall ts: seq<Tag>, i: nat | |ts| == n && i < n && NonNegative(ts)
        ensures Exact(After(FRESH, ts[..i]), ts[i])
      {
        NoOverflow(ts, i);
      }
    } else {
      PeakOverflows(n);
      assert |Peak(n)| == n;
    }
  }

  lemma TopOverflows(s: Store, t: Tag)
    requires Repaired(s, t.timestamp) == 0x7fff_ffff
    ensures !Exact(s, t)
  {
    hide Repaired, Wrap32, OffsetFor, Difference;
    assert Duration(t.kind) > 0;
  }

  lemma PeakIsNonNegative(n: nat)
    ensures NonNegative(Peak(n))
  {
  }

  /** At the peak the next target leaves int32. */
  lemma PeakOverflows(n: nat)
    requires n > MAX_TAGS
    ensures NonNegative(Peak(n)) && !Exact(After(FRESH, Peak(n)[..MAX_TAGS]), Peak(n)[MAX_TAGS])
  {
    hide Repair, After, Peak, Smooth, Repaired, Exact, NonNegative;
    var ts, m := Peak(n), MAX_TAGS;
    PeakIsNonNegative(n);
    PeakAt(n, m);
    PeakIsSmooth(n);
    UntouchedState(ts, m + 1);
    RepairAt(FRESH, ts, m);
    TopOverflows(After(FRESH, ts[..m]), ts[m]);
  }
}
