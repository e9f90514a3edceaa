/** The HLS fMP4 recording with its objects: bases and last init outlive a file, guard and init writer do not. */
module Fmp4Strategy {
  import opened Bytes
  import opened InitSettle
  import opened Fmp4Fragment
  import opened Fmp4Files

  class Fmp4Recorder {
    const normalizer: Normalizer
    var guard: Fmp4BoxGuard
    var writer: Fmp4InitWriter
    var file: seq<byte>
    var closed: seq<seq<byte>>
    ghost var current: File
    ghost var before: seq<File>

    constructor ()
      ensures Valid() && View() == NEW_RECORDER && fresh(normalizer) && fresh(guard) && fresh(writer)
    {
      normalizer := new Normalizer();
      guard := new Fmp4BoxGuard([]);
      writer := new Fmp4InitWriter([]);
      file, closed, current, before := [], [], NEW_FILE, [];
    }

    /** The files are the pieces of their segments joined. */
    ghost predicate Valid()
      reads this
    {
      && file == Joined(current.written)
      && |closed| == |before| && (forall k :: 0 <= k < |closed| ==> closed[k] == Joined(before[k].written))
    }

    ghost function View(): Recorder
      reads this, normalizer, guard, writer
    {
      Recorder(guard.View(), writer.Pending(), normalizer.bases, current, before)
    }

    /** One segment x through guard, normaliser and init writer, and the rotation for a new init behind media. */
    method ProcessSegment(data: seq<byte>, ghost x: Item)
      requires Valid() && data == Data(x)
      modifies this, normalizer, guard, writer
      ensures Valid() && View() == Receive(old(View()), x)
      ensures guard == old(guard) || fresh(guard)
      ensures writer == old(writer) || fresh(writer)
    {
      hide Judge, Joined, Put;
      var out, verdict := guard.Process(data);
      if verdict == Rotate {
        NextFile(data);
      } else if verdict == Admit && |out| > 0 {
        WriteSegment(out, x);
      }
    }

    /** Past the guard: the normaliser works in place on the segment, and the writer appends it. */
    method WriteSegment(data: seq<byte>, ghost x: Item)
      requires Valid() && data == Data(x) && data != []
      modifies this`file, this`current, normalizer, writer
      ensures Valid() && View() == Put(old(View()), x)
    {
      hide Joined, SegmentPass;
      ghost var was := View();
      PutJoins(was, x);
      var segment := new byte[|data|](i requires 0 <= i < |data| => data[i]);
      assert segment[..] == data;
      var normalized := normalizer.NormalizeFragmentTimestamps(segment);
      var out := writer.Process(segment[..]);
      file := file + out;
      current := Put(was, x).file;
    }

    method NextFile(init: seq<byte>)
      requires Valid()
      modifies this, normalizer
      ensures Valid() && fresh(guard) && fresh(writer)
      ensures var was := old(View());
        View() == Recorder(Guard(false, was.guard.lastInit), init, map[], NEW_FILE, was.closed + [was.file])
    {
      closed, before := closed + [file], before + [current];
      normalizer.bases := map[];
      guard := new Fmp4BoxGuard(guard.lastInit);
      writer := new Fmp4InitWriter(init);
      file, current := [], NEW_FILE;
    }

    /** All segments of a run. */
    method Rev(datas: seq<seq<byte>>, ghost xs: seq<Item>)
      requires Valid() && datas == Datas(xs)
      modifies this, normalizer, guard, writer
      ensures Valid() && View() == ReceiveAll(old(View()), xs)
    {
      hide Receive, Joined;
      ghost var end := ReceiveAll(View(), xs);
      for i := 0 to |datas|
        invariant Valid() && end == ReceiveAll(View(), xs[i..])
        invariant guard == old(guard) || fresh(guard)
        invariant writer == old(writer) || fresh(writer)
      {
        assert xs[i..][0] == xs[i] && xs[i..][1..] == xs[i + 1..];
        ProcessSegment(datas[i], xs[i]);
      }
    }
  }
}
