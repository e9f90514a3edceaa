/** Which byte ranges of a growing file are dropped from the page cache. */
module ColdRelease {
  import opened Collections

  const PAGE := 4096
  const HOT_MIN := 64 * 1024 * 1024
  const HOT_MUL := 4
  const MIN_RELEASE := 32 * 1024 * 1024

  datatype Plan = Plan(offset: int, length: int, newEnd: int)

  datatype Range = Range(off: int, length: int)

  function HotWindow(bufferSize: int): (hot: int)
    ensures hot >= HOT_MIN && hot >= HOT_MUL * bufferSize
  {
    if HOT_MUL * bufferSize < HOT_MIN then HOT_MIN else HOT_MUL * bufferSize
  }

  function PlanColdRelease(onDisk: int, releasedThrough: int, bufferSize: int): Option<Plan> {
    var coldEnd := onDisk - HotWindow(bufferSize);
    if onDisk <= 0 || coldEnd <= releasedThrough || coldEnd - releasedThrough < MIN_RELEASE then None
    else Some(Plan(releasedThrough, coldEnd - releasedThrough, coldEnd))
  }

  function AlignDown(offset: int): int {
    if offset <= 0 then 0 else offset - offset % PAGE
  }

  function AlignedColdRange(offset: int, length: int): Option<Range> {
    if length <= 0 || AlignDown(offset + length) <= AlignDown(offset) then None
    else Some(Range(AlignDown(offset), AlignDown(offset + length) - AlignDown(offset)))
  }

  /** The ranges are page-aligned and not empty, the first starts at 0, each starts where the one before it ends, and
      the last ends at `end`. */
  ghost predicate Tiles(ranges: seq<Range>, end: int) {
    if ranges == [] then end == 0
    else
      var last := ranges[|ranges| - 1];
      && last.length > 0 && last.off % 4096 == 0 && last.off + last.length == end && end % 4096 == 0
      && Tiles(ranges[..|ranges| - 1], last.off)
  }

  /** A planned release is not empty after alignment, continues the released prefix page by page and stays out of the
      hot window. */
  lemma PlannedRangeContinues(onDisk: int, releasedThrough: nat, bufferSize: int, ranges: seq<Range>)
    requires PlanColdRelease(onDisk, releasedThrough, bufferSize).Some?
    requires Tiles(ranges, AlignDown(releasedThrough))
    ensures var plan := PlanColdRelease(onDisk, releasedThrough, bufferSize).value;
      var range := AlignedColdRange(plan.offset, plan.length);
      && range.Some? && Tiles(ranges + [range.value], AlignDown(plan.newEnd))
      && range.value.off + range.value.length <= plan.newEnd == onDisk - HotWindow(bufferSize)
  {
    var plan := PlanColdRelease(onDisk, releasedThrough, bufferSize).value;
    assert plan.newEnd >= releasedThrough + PAGE;
    assert AlignDown(plan.newEnd) > AlignDown(releasedThrough);
    var range := AlignedColdRange(plan.offset, plan.length).value;
    assert (ranges + [range])[..|ranges|] == ranges;
  }

  /** A release is planned exactly when at least 32 MiB past the released prefix are colder than the hot window, which
      is 64 MiB or four buffers, whatever is more. */
  lemma PlannedExactly(onDisk: int, releasedThrough: nat, bufferSize: int)
    ensures var hot := if 4 * bufferSize < 64 * 1024 * 1024 then 64 * 1024 * 1024 else 4 * bufferSize;
      PlanColdRelease(onDisk, releasedThrough, bufferSize).Some? <==> onDisk - releasedThrough >= hot + 32 * 1024 * 1024
  {
  }

  /** Each byte of the released prefix lies in exactly one of the ranges, and no range holds any other byte. */
  lemma {:induction false} TilesCoverOnce(ranges: seq<Range>, end: int, x: int)
    requires Tiles(ranges, end)
    ensures 0 <= end
    ensures 0 <= x < end <==> exists k :: 0 <= k < |ranges| && ranges[k].off <= x < ranges[k].off + ranges[k].length
    ensures forall k, l :: 0 <= k < l < |ranges| ==> ranges[k].off + ranges[k].length <= ranges[l].off
  {
    if ranges != [] {
      var before, last := ranges[..|ranges| - 1], ranges[|ranges| - 1];
      TilesCoverOnce(before, last.off, x);
      if 0 <= x < end {
        if x < last.off {
          var k :| 0 <= k < |before| && before[k].off <= x < before[k].off + before[k].length;
          assert ranges[k] == before[k];
        } else {
          assert ranges[|ranges| - 1].off <= x;
        }
      }
      forall k | 0 <= k < |ranges| && ranges[k].off <= x < ranges[k].off + ranges[k].length
        ensures 0 <= x < end
      {
        if k < |before| {
          assert before[k] == ranges[k];
        } else {
          StartsAtZero(before, last.off);
        }
      }
      forall k, l | 0 <= k < l < |ranges|
        ensures ranges[k].off + ranges[k].length <= ranges[l].off
      {
        EndsBefore(before, last.off, k);
      }
    }
  }

  lemma {:induction false} StartsAtZero(ranges: seq<Range>, end: int)
    requires Tiles(ranges, end)
    ensures 0 <= end
  {
    if ranges != [] {
      StartsAtZero(ranges[..|ranges| - 1], ranges[|ranges| - 1].off);
    }
  }

  lemma {:induction false} EndsBefore(ranges: seq<Range>, end: int, k: nat)
    requires Tiles(ranges, end) && k < |ranges|
    ensures ranges[k].off + ranges[k].length <= end
  {
    if k < |ranges| - 1 {
      EndsBefore(ranges[..|ranges| - 1], ranges[|ranges| - 1].off, k);
    }
  }
}
