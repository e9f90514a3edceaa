/** The FLV recording with its objects: one fixer for all files, and a split detector and header writer for each. */
module FlvStrategy {
  import opened Bytes
  import opened FlvTag
  import opened FlvFixer
  import opened FlvDetector
  import opened FlvDetection
  import opened FlvFile
  import opened FlvRecording

  lemma PrependedIsNotEmpty(video: seq<byte>, audio: seq<byte>, data: seq<byte>)
    ensures Prepended(video, audio, data) != []
  {
  }

  class FlvRecorder {
    const sharedFixer: RealtimeFixer
    var detector: FlvHeaderSplitDetector
    var writer: FlvHeaderWriter
    var file: seq<byte>
    var closed: seq<seq<byte>>
    var aborted: bool

    constructor (hash: Tag -> nat, maxBufferSize: nat)
      requires maxBufferSize > 0
      ensures Valid() && View() == Started() && sharedFixer.hash == hash && sharedFixer.maxBufferSize == maxBufferSize
      ensures fresh(sharedFixer) && fresh(sharedFixer.tsStore) && fresh(sharedFixer.dedupCache)
      ensures fresh(detector.detector) && fresh(writer)
    {
      sharedFixer := new RealtimeFixer(hash, maxBufferSize);
      detector := new FlvHeaderSplitDetector([]);
      writer := new FlvHeaderWriter([], []);
      file, closed, aborted := [], [], false;
      new;
      detector.Open();
    }

    ghost predicate Valid()
      reads this, sharedFixer, sharedFixer.dedupCache, writer
    {
      sharedFixer.Valid() && (writer.written <==> file != [])
    }

    function View(): Recorder
      reads this, sharedFixer, sharedFixer.tsStore, sharedFixer.dedupCache, detector.detector, writer
    {
      Recorder(sharedFixer.View(), detector.detector.View(), Segment(writer.video, writer.audio, file), closed, aborted)
    }

    /** One chunk from the network through the pipeline, and what the recorder does with the error it may end in. */
    method ProcessChunk(chunk: seq<byte>)
      requires Valid()
      modifies this, sharedFixer, sharedFixer.tsStore, sharedFixer.dedupCache, detector.detector, writer
      ensures Valid() && View() == Receive(sharedFixer.hash, sharedFixer.maxBufferSize, old(View()), chunk)
      ensures detector.detector == old(detector.detector) || fresh(detector.detector)
      ensures writer == old(writer) || fresh(writer)
    {
      hide Next, Output, Reports, Detected, ReportOf, Refused, Prepended;
      if aborted || |chunk| == 0 {
        return;
      }
      var fixed, isFlv := sharedFixer.Fix(chunk);
      if !isFlv {
        aborted := true;
        return;
      }
      var out, changed, report := detector.Process(fixed);
      if changed {
        Rotate(report.videoTag, report.audioTag);
        return;
      }
      out := writer.Process(out);
      PrependedIsNotEmpty(writer.video, writer.audio, fixed);
      file := file + out;
    }

    /** The file is closed and the fixer reset; a new pipeline starts from the changed header. */
    method Rotate(video: seq<byte>, audio: seq<byte>)
      requires Valid()
      modifies this, sharedFixer, sharedFixer.tsStore, sharedFixer.dedupCache
      ensures Valid() && fresh(detector.detector) && fresh(writer)
      ensures var was := old(View());
        View() == Recorder(Rotated(was.fixer), Opened(video), Segment(video, audio, []),
                           was.closed + [was.segment.bytes], was.aborted)
    {
      hide Opened;
      sharedFixer.ResetTimestampStore();
      sharedFixer.ResetDedupCache();
      BuildPipeline(video, audio);
    }

    method BuildPipeline(video: seq<byte>, audio: seq<byte>)
      requires sharedFixer.Valid()
      modifies this
      ensures Valid() && fresh(detector.detector) && fresh(writer)
      ensures detector.detector.View() == Opened(video)
      ensures writer.video == video && writer.audio == audio && file == [] && closed == old(closed) + [old(file)]
      ensures aborted == old(aborted)
    {
      hide Opened;
      closed := closed + [file];
      detector := new FlvHeaderSplitDetector(video);
      detector.Open();
      writer := new FlvHeaderWriter(video, audio);
      file := [];
    }

    /** All chunks of a stream. */
    method Rev(chunks: seq<seq<byte>>)
      requires Valid()
      modifies this, sharedFixer, sharedFixer.tsStore, sharedFixer.dedupCache, detector.detector, writer
      ensures Valid() && View() == Record(sharedFixer.hash, sharedFixer.maxBufferSize, old(View()), chunks)
    {
      hide Receive;
      ghost var end := Record(sharedFixer.hash, sharedFixer.maxBufferSize, View(), chunks);
      for i := 0 to |chunks|
        invariant Valid() && end == Record(sharedFixer.hash, sharedFixer.maxBufferSize, View(), chunks[i..])
        invariant detector.detector == old(detector.detector) || fresh(detector.detector)
        invariant writer == old(writer) || fresh(writer)
      {
        assert chunks[i..][0] == chunks[i] && chunks[i..][1..] == chunks[i + 1..];
        ProcessChunk(chunks[i]);
      }
    }
  }
}
