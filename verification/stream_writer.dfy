/** The buffered stream writer: deferred file creation, byte accounting and cold-cache release. */
module StreamWriter {
  import opened Bytes
  import opened Collections
  import opened ColdRelease
  import opened FlushBuffer

  const MAX_PENDING := 100 * 1024 * 1024

  function Flatten(chunks: seq<seq<byte>>): seq<byte> {
    if chunks == [] then [] else Flatten(chunks[..|chunks| - 1]) + chunks[|chunks| - 1]
  }

  lemma FlattenNext(chunks: seq<seq<byte>>, data: seq<byte>)
    ensures Flatten(chunks + [data]) == Flatten(chunks) + data
  {
    assert (chunks + [data])[..|chunks|] == chunks;
  }

  lemma NothingPending()
    ensures Flatten([]) == []
  {
  }

  lemma WrittenInOrder(chunks: seq<seq<byte>>, k: nat)
    requires k < |chunks|
    ensures Flatten(chunks[..k + 1]) == Flatten(chunks[..k]) + chunks[k]
    ensures chunks[..k + 1] == chunks[..k] + [chunks[k]]
  {
    FlattenNext(chunks[..k], chunks[k]);
    assert chunks[..k + 1] == chunks[..k] + [chunks[k]];
  }

  /** `out` is made of beginnings of the chunks, one for each, in order, and all but at most `short` of them are whole:
      nothing is reordered, repeated or made up. */
  ghost predicate Pieces(out: seq<byte>, chunks: seq<seq<byte>>, short: nat)
    decreases |chunks|
  {
    if chunks == [] then out == []
    else
      var last := chunks[|chunks| - 1];
      exists n :: 0 <= n <= |last| && n <= |out| && out[|out| - n..] == last[..n] && (n == |last| || short > 0)
        && Pieces(out[..|out| - n], chunks[..|chunks| - 1], if n == |last| then short else short - 1)
  }

  lemma PiecesNext(out: seq<byte>, chunks: seq<seq<byte>>, short: nat, data: seq<byte>, n: nat)
    requires Pieces(out, chunks, short) && n <= |data|
    ensures Pieces(out + data[..n], chunks + [data], if n == |data| then short else short + 1)
  {
    var all := chunks + [data];
    assert all[..|all| - 1] == chunks && all[|all| - 1] == data;
    var whole := out + data[..n];
    assert whole[|whole| - n..] == data[..n] && whole[..|whole| - n] == out;
  }

  /** The last chunk and its piece, taken off. */
  lemma LastPiece(out: seq<byte>, chunks: seq<seq<byte>>, short: nat)
    returns (head: seq<byte>, init: seq<seq<byte>>, last: seq<byte>, n: nat, rest: nat)
    requires chunks != [] && Pieces(out, chunks, short)
    ensures chunks == init + [last] && n <= |last| && out == head + last[..n]
    ensures rest + (if n == |last| then 0 else 1) == short && Pieces(head, init, rest)
  {
    init, last := chunks[..|chunks| - 1], chunks[|chunks| - 1];
    n :| 0 <= n <= |last| && n <= |out| && out[|out| - n..] == last[..n] && (n == |last| || short > 0)
      && Pieces(out[..|out| - n], init, if n == |last| then short else short - 1);
    rest := if n == |last| then short else short - 1;
    head := out[..|out| - n];
    assert out == head + out[|out| - n..];
  }

  lemma NoPieces(out: seq<byte>, short: nat)
    ensures Pieces(out, [], short) <==> out == []
  {
  }

  lemma {:induction false} MoreMayBeShort(out: seq<byte>, chunks: seq<seq<byte>>, short: nat, more: nat)
    requires Pieces(out, chunks, short) && short <= more
    ensures Pieces(out, chunks, more)
    decreases |chunks|
  {
    hide Pieces;
    if chunks == [] {
      NoPieces(out, short);
      NoPieces(out, more);
    } else {
      var head, init, last, n, rest := LastPiece(out, chunks, short);
      MoreMayBeShort(head, init, rest, rest + more - short);
      PiecesNext(head, init, rest + more - short, last, n);
    }
  }

  lemma {:induction false} PiecesOfNothing(chunks: seq<seq<byte>>)
    ensures Pieces([], chunks, |chunks|)
    decreases |chunks|
  {
    hide Pieces;
    if chunks == [] {
      NoPieces([], 0);
    } else {
      var init, last := chunks[..|chunks| - 1], chunks[|chunks| - 1];
      assert chunks == init + [last];
      PiecesOfNothing(init);
      NothingNext(init, |init|, last);
    }
  }

  lemma NothingNext(chunks: seq<seq<byte>>, short: nat, data: seq<byte>)
    requires Pieces([], chunks, short)
    ensures Pieces([], chunks + [data], short + 1)
    ensures data == [] ==> Pieces([], chunks + [data], short)
  {
    hide Pieces;
    PiecesNext([], chunks, short, data, 0);
    assert [] + data[..0] == [];
    if data == [] {
      MoreMayBeShort([], chunks + [data], short, short + 1);
    }
  }

  /** Chunks in front of which nothing is left. */
  lemma {:induction false} PiecesBehind(out: seq<byte>, before: seq<seq<byte>>, chunks: seq<seq<byte>>, short: nat)
    requires Pieces(out, chunks, short)
    ensures Pieces(out, before + chunks, short + |before|)
    decreases |chunks|
  {
    hide Pieces;
    if chunks == [] {
      assert before + chunks == before;
      NoPieces(out, short);
      PiecesOfNothing(before);
      MoreMayBeShort([], before, |before|, short + |before|);
    } else {
      var head, init, last, n, rest := LastPiece(out, chunks, short);
      PiecesBehind(head, before, init, rest);
      PiecesNext(head, before + init, rest + |before|, last, n);
      assert before + chunks == before + init + [last];
    }
  }

  /** `pending` is what is left of the chunks behind at most `most` of them. */
  ghost predicate Remains(pending: seq<seq<byte>>, chunks: seq<seq<byte>>, most: nat) {
    exists m :: 0 <= m <= |chunks| && m <= most && pending == chunks[m..]
  }

  lemma RemainsNext(pending: seq<seq<byte>>, chunks: seq<seq<byte>>, most: nat, data: seq<byte>)
    requires Remains(pending, chunks, most)
    ensures Remains(pending + [data], chunks + [data], most)
  {
    var m :| 0 <= m <= |chunks| && m <= most && pending == chunks[m..];
    assert (chunks + [data])[m..] == pending + [data];
  }

  lemma RemainsPieces(pending: seq<seq<byte>>, chunks: seq<seq<byte>>, most: nat, out: seq<byte>, short: nat)
    requires Remains(pending, chunks, most) && Pieces(out, pending, short)
    ensures Pieces(out, chunks, short + most)
  {
    hide Pieces;
    var m :| 0 <= m <= |chunks| && m <= most && pending == chunks[m..];
    assert chunks == chunks[..m] + pending;
    PiecesBehind(out, chunks[..m], pending, short);
    MoreMayBeShort(out, chunks, short + m, short + most);
  }

  lemma NothingRemains(pending: seq<seq<byte>>, chunks: seq<seq<byte>>, most: nat)
    requires Remains(pending, chunks, most)
    ensures |chunks| <= most + |pending|
    ensures Remains([], chunks, most + |pending|)
  {
    assert chunks[|chunks|..] == [];
  }

  lemma {:induction false} AllEmpty(chunks: seq<seq<byte>>)
    requires Flatten(chunks) == []
    ensures Pieces([], chunks, 0)
    decreases |chunks|
  {
    hide Pieces;
    if chunks == [] {
      NoPieces([], 0);
    } else {
      var init, last := chunks[..|chunks| - 1], chunks[|chunks| - 1];
      assert chunks == init + [last];
      AllEmpty(init);
      NothingNext(init, 0, last);
    }
  }

  /** What the writer goroutine is woken by; `createFails` is the outcome of creating the file, if it is tried. */
  datatype Event = Data(bytes: seq<byte>, createFails: bool) | FlushTimer | ReleaseTimer(fails: bool)

  class BufferedStreamWriter {
    const bufferSize: int
    const threshold: int           // pending bytes before the file is created; the creation is deferred if positive
    const minFlush: int
    const file: Sink
    const writer: FlushLockedBufferedWriter
    var created: bool              // the file exists, and with it the writer
    var pendingChunks: seq<seq<byte>>
    var pendingBytes: nat
    var bytesWritten: nat
    var releasedThrough: nat
    var released: seq<Range>       // the ranges the kernel was asked to drop
    var gaveUp: nat                // pending chunks that were given up

    /** The counters are exact and the releases tile a prefix of the file that the hot window never reaches. */
    ghost predicate Valid()
      reads this, file, writer, writer.buf
    {
      && writer.Valid() && writer.w == file
      && bytesWritten == |writer.Accepted()|
      && pendingBytes == |Flatten(pendingChunks)|
      && (created ==> pendingChunks == [])
      && (!created ==> writer.Accepted() == [] && released == [])
      && Tiles(released, AlignDown(releasedThrough))
      && (releasedThrough > 0 ==> releasedThrough + HotWindow(bufferSize) <= |file.bytes|)
    }

    /** Every byte the writer still answers for, in order: on disk, buffered, pending. */
    ghost function Stream(): seq<byte>
      requires writer.Valid()
      reads this, writer.w, writer, writer.buf
    {
      writer.Accepted() + Flatten(pendingChunks)
    }

    /** Of the chunks received so far, the file and its buffer hold pieces in order, all whole but one for each sink
        error and each chunk that was given up; before there is a file, all chunks not given up are pending. */
    ghost predicate Received(chunks: seq<seq<byte>>)
      requires writer.Valid()
      reads this, file, writer.w, writer, writer.buf
    {
      if created then Pieces(writer.Accepted(), chunks, file.errors + gaveUp)
      else Remains(pendingChunks, chunks, gaveUp)
    }

    constructor (bufferSize: int, threshold: int, minFlush: int, behave: Behaviour)
      ensures Valid() && fresh(file) && fresh(writer) && fresh(writer.buf)
      ensures Stream() == [] && !created && gaveUp == 0 && file.errors == 0 && Received([])
      ensures this.bufferSize == bufferSize && this.threshold == threshold && this.minFlush == minFlush
    {
      this.bufferSize, this.threshold, this.minFlush := bufferSize, threshold, minFlush;
      var sink := new Sink(behave);
      file := sink;
      writer := new FlushLockedBufferedWriter(sink, bufferSize);
      created, pendingChunks, pendingBytes, bytesWritten, gaveUp := false, [], 0, 0, 0;
      releasedThrough, released := 0, [];
      new;
      assert pendingChunks == [][0..] && Remains([], [], 0);
    }

    /** Without a threshold the file is created at once; a failure keeps the writer from being used. */
    method Open(createFails: bool) returns (ok: bool)
      requires Valid() && !created
      modifies this`created, this`pendingChunks, this`pendingBytes
      ensures Valid() && writer.Accepted() == old(writer.Accepted())
      ensures ok <==> threshold > 0 || created
      ensures ok <==> threshold > 0 || !createFails
      ensures ok ==> pendingChunks == [] && Received([])
    {
      pendingChunks, pendingBytes := [], 0;
      if threshold <= 0 {
        created := !createFails;
      }
      ok := threshold > 0 || created;
      assert [][0..] == pendingChunks && Remains(pendingChunks, [], gaveUp);
    }

    /** The bytes on disk are the bytes accepted less the bytes buffered. */
    method OnDisk() returns (onDisk: int)
      requires Valid()
      ensures onDisk == |file.bytes|
    {
      onDisk := bytesWritten - writer.Buffered();
    }

    /** A chunk is accepted whole, or up to a sink error. */
    method WriteChunk(data: seq<byte>, ghost chunks: seq<seq<byte>>, ghost short: nat) returns (complete: bool)
      requires Valid() && created && Pieces(writer.Accepted(), chunks, short)
      modifies this`bytesWritten, file, writer, writer.buf
      ensures Valid() && old(file.bytes) <= file.bytes
      ensures file.errors == old(file.errors) + (if complete then 0 else 1)
      ensures complete ==> Stream() == old(Stream()) + data && writer.Accepted() == old(writer.Accepted()) + data
      ensures Pieces(writer.Accepted(), chunks + [data], short + (if complete then 0 else 1))
      ensures writer.View() == Wrote(file.behave, writer.buf.Length, old(writer.View()), data).0
    {
      hide Pieces, Remains, Tiles, HotWindow, AlignDown, Wrote;
      ghost var before := writer.Accepted();
      var n, err := writer.Write(data);
      bytesWritten := bytesWritten + n;
      complete := !err;
      PiecesNext(before, chunks, short, data, n);
      if err && n == |data| {
        MoreMayBeShort(writer.Accepted(), chunks + [data], short, short + 1);
      }
    }

    /** Every pending chunk goes to the writer, also after one that fails. */
    method WriteAll(chunks: seq<seq<byte>>)
      requires Valid() && created && writer.Accepted() == []
      modifies this`bytesWritten, file, writer, writer.buf
      ensures Valid() && old(file.bytes) <= file.bytes && old(file.errors) <= file.errors
      ensures file.errors == old(file.errors) ==> writer.Accepted() == Flatten(chunks)
      ensures Pieces(writer.Accepted(), chunks, file.errors - old(file.errors))
    {
      hide Flatten, Pieces, Remains, Tiles, HotWindow, AlignDown;
      NothingPending();
      NoPieces([], 0);
      assert chunks[..0] == [];
      for k := 0 to |chunks|
        invariant Valid() && old(file.bytes) <= file.bytes && old(file.errors) <= file.errors
        invariant file.errors == old(file.errors) ==> writer.Accepted() == Flatten(chunks[..k])
        invariant Pieces(writer.Accepted(), chunks[..k], file.errors - old(file.errors))
      {
        WrittenInOrder(chunks, k);
        var complete := WriteChunk(chunks[k], chunks[..k], file.errors - old(file.errors));
      }
      assert chunks[..|chunks|] == chunks;
    }

    /** The file exists now, and the pending chunks go to it. */
    method CreateFileAndWritePending(ghost seen: seq<seq<byte>>)
      requires Valid() && !created && Received(seen)
      modifies this, file, writer, writer.buf
      ensures Valid() && created && gaveUp == old(gaveUp) && writer.Valid()
      ensures old(file.bytes) <= file.bytes && old(file.errors) <= file.errors
      ensures file.errors == old(file.errors) ==> Stream() == old(Stream())
      ensures Received(seen)
    {
      hide Flatten, Pieces, Remains, Tiles, HotWindow, AlignDown;
      var chunks := pendingChunks;
      NothingPending();
      created, pendingChunks, pendingBytes := true, [], 0;
      WriteAll(chunks);
      ghost var short := file.errors - old(file.errors);
      RemainsPieces(chunks, seen, gaveUp, writer.Accepted(), short);
      MoreMayBeShort(writer.Accepted(), seen, short + gaveUp, file.errors + gaveUp);
      assert Stream() == writer.Accepted();
    }

    method ReleasePendingChunks(ghost seen: seq<seq<byte>>)
      requires Valid() && !created && Received(seen)
      modifies this`pendingChunks, this`pendingBytes, this`gaveUp
      ensures Received(seen) && gaveUp >= |seen| && gaveUp >= old(gaveUp)
      ensures old(pendingBytes) > 0 ==> gaveUp > old(gaveUp)
      ensures Valid() && pendingBytes == 0 && writer.Accepted() == old(writer.Accepted())
    {
      hide Pieces, Remains, Tiles, HotWindow, AlignDown;
      NothingRemains(pendingChunks, seen, gaveUp);
      gaveUp := gaveUp + |pendingChunks|;
      pendingChunks, pendingBytes := [], 0;
    }

    /** Nothing is lost unless the sink fails or the file cannot be created while more than 100 MiB wait for it. */
    method HandleDataChunk(data: seq<byte>, createFails: bool, ghost seen: seq<seq<byte>>)
      requires Valid() && (threshold > 0 || created) && Received(seen)
      modifies this, file, writer, writer.buf
      ensures Valid() && (old(created) ==> created)
      ensures old(file.bytes) <= file.bytes && old(file.errors) <= file.errors && old(gaveUp) <= gaveUp
      ensures file.errors == old(file.errors) && gaveUp == old(gaveUp) ==> Stream() == old(Stream()) + data
      ensures var due := threshold > 0 && !old(created) && old(pendingBytes) + |data| >= threshold;
        && (created <==> old(created) || (due && !createFails))
        && (gaveUp > old(gaveUp) <==> due && createFails && old(pendingBytes) + |data| > 100 * 1024 * 1024)
      ensures pendingBytes <= MAX_PENDING || pendingBytes < threshold
      ensures Received(seen + [data])
    {
      hide Flatten, Pieces, Remains, Tiles, HotWindow, AlignDown;
      NothingPending();
      if threshold > 0 && !created {
        Pend(data, seen);
        if pendingBytes < threshold {
          return;
        }
        if createFails {
          if pendingBytes > MAX_PENDING {
            ReleasePendingChunks(seen + [data]);
          }
          return;
        }
        CreateFileAndWritePending(seen + [data]);
        return;
      }
      var complete := WriteChunk(data, seen, file.errors + gaveUp);
    }

    method Pend(data: seq<byte>, ghost seen: seq<seq<byte>>)
      requires Valid() && !created && Received(seen)
      modifies this`pendingChunks, this`pendingBytes
      ensures Received(seen + [data])
      ensures Valid() && Stream() == old(Stream()) + data && pendingBytes == old(pendingBytes) + |data|
    {
      hide Flatten, Pieces, Remains, Tiles, HotWindow, AlignDown;
      FlattenNext(pendingChunks, data);
      RemainsNext(pendingChunks, seen, gaveUp, data);
      pendingChunks := pendingChunks + [data];
      pendingBytes := pendingBytes + |data|;
      assert Stream() == old(Stream()) + data;
    }

    method DoPeriodicFlush(ghost seen: seq<seq<byte>>)
      requires Valid() && Received(seen)
      modifies file, writer, writer.buf
      ensures Valid() && Stream() == old(Stream()) && Received(seen)
      ensures old(file.bytes) <= file.bytes && old(file.errors) <= file.errors
      ensures var due := created && old(writer.n) >= minFlush;
        && (due && file.errors == old(file.errors) ==> writer.n == 0 && file.bytes == writer.Accepted())
        && (!due ==> file.bytes == old(file.bytes) && writer.n == old(writer.n))
    {
      hide Flatten, Pieces, Remains, Tiles, HotWindow, AlignDown;
      if created && writer.Buffered() >= minFlush {
        var err := writer.Flush();
        MoreMayBeShort(writer.Accepted(), seen, old(file.errors) + gaveUp, file.errors + gaveUp);
      }
    }

    /** The released prefix grows page by page behind the hot window; after a release that did not fail, less than the
        hot window and 32 MiB of the file are unreleased. */
    method ReleaseColdPrefix(fails: bool)
      requires Valid()
      modifies this`released, this`releasedThrough
      ensures Valid() && old(released) <= released && old(releasedThrough) <= releasedThrough
      ensures !fails && created ==> |file.bytes| - releasedThrough < HotWindow(bufferSize) + MIN_RELEASE
    {
      if !created {
        return;
      }
      var onDisk := OnDisk();
      var plan := PlanColdRelease(onDisk, releasedThrough, bufferSize);
      if plan.None? || fails {
        return;
      }
      PlannedRangeContinues(onDisk, releasedThrough, bufferSize, released);
      var range := AlignedColdRange(plan.value.offset, plan.value.length);
      released := released + [range.value];
      releasedThrough := plan.value.newEnd;
    }

    /** The file ends up holding exactly the stream, unless the sink failed, the pending bytes were given up, or they
        stayed below the threshold and there is no file. */
    method Close(createFails: bool, ghost seen: seq<seq<byte>>)
      requires Valid() && (threshold > 0 || created) && Received(seen)
      modifies this, file, writer, writer.buf
      ensures Valid() && old(gaveUp) <= gaveUp && old(file.errors) <= file.errors
      ensures created && file.errors == old(file.errors) ==> file.bytes == old(Stream())
      ensures !created ==> file.bytes == [] && (old(Stream()) == [] || gaveUp > old(gaveUp))
      ensures !created && threshold > 0 && |old(Stream())| >= threshold ==> createFails
      ensures threshold > 0 && !old(created) && |old(Stream())| < threshold ==> !created
      ensures Pieces(file.bytes + writer.buf[..writer.n], seen, file.errors + gaveUp)
    {
      hide Flatten, Pieces, Remains, Tiles, HotWindow, AlignDown;
      NothingPending();
      if threshold > 0 && !created {
        assert Stream() == Flatten(pendingChunks);
        if pendingBytes == 0 {
          NothingButEmpty(seen);
          return;
        }
        if pendingBytes < threshold || createFails {
          ReleasePendingChunks(seen);
          PiecesOfNothing(seen);
          MoreMayBeShort([], seen, |seen|, file.errors + gaveUp);
          return;
        }
        CreateFileAndWritePending(seen);
      }
      if created {
        ghost var before := file.errors;
        var err := writer.Flush();
        MoreMayBeShort(writer.Accepted(), seen, before + gaveUp, file.errors + gaveUp);
      }
    }

    /** Empty pending chunks are whole. */
    lemma NothingButEmpty(seen: seq<seq<byte>>)
      requires Valid() && !created && Received(seen) && pendingBytes == 0
      ensures Pieces([], seen, file.errors + gaveUp)
    {
      hide Pieces, Remains, Tiles, HotWindow, AlignDown;
      AllEmpty(pendingChunks);
      RemainsPieces(pendingChunks, seen, gaveUp, [], 0);
      MoreMayBeShort([], seen, gaveUp, file.errors + gaveUp);
    }

    /** One turn of the writer goroutine. */
    method HandleEvent(e: Event, ghost seen: seq<seq<byte>>)
      requires Valid() && (threshold > 0 || created) && Received(seen)
      modifies this, file, writer, writer.buf
      ensures Valid() && (threshold > 0 || created)
      ensures old(file.errors) <= file.errors && old(gaveUp) <= gaveUp && old(file.bytes) <= file.bytes
      ensures file.errors == old(file.errors) && gaveUp == old(gaveUp) ==>
        Stream() == old(Stream()) + (if e.Data? then e.bytes else [])
      ensures Received(seen + (if e.Data? then [e.bytes] else []))
    {
      hide Flatten, Pieces, Remains, Tiles, HotWindow, AlignDown;
      assert seen + [] == seen && Stream() + [] == Stream();
      match e
      case Data(bytes, createFails) => HandleDataChunk(bytes, createFails, seen);
      case FlushTimer => DoPeriodicFlush(seen);
      case ReleaseTimer(fails) => ReleaseColdPrefix(fails);
    }

    /** The writer goroutine until its channel is closed. */
    method WritePeriodically(events: seq<Event>, ghost seen: seq<seq<byte>>)
      requires Valid() && (threshold > 0 || created) && Received(seen)
      modifies this, file, writer, writer.buf
      ensures Valid() && old(file.errors) <= file.errors && old(gaveUp) <= gaveUp
      ensures file.errors == old(file.errors) && gaveUp == old(gaveUp) ==>
        Stream() == old(Stream()) + Flatten(Chunks(events))
      ensures old(file.bytes) <= file.bytes
      ensures Received(seen + Chunks(events))
    {
      hide Flatten, Pieces, Remains, Tiles, HotWindow, AlignDown, Chunks;
      NoEvents(seen, Stream());
      assert events[..0] == [];
      for k := 0 to |events|
        invariant Valid() && (threshold > 0 || created)
        invariant old(file.errors) <= file.errors && old(gaveUp) <= gaveUp && old(file.bytes) <= file.bytes
        invariant file.errors == old(file.errors) && gaveUp == old(gaveUp) ==>
          Stream() == old(Stream()) + Flatten(Chunks(events[..k]))
        invariant Received(seen + Chunks(events[..k]))
      {
        ChunksSplit(events, k, seen);
        HandleEvent(events[k], seen + Chunks(events[..k]));
      }
      assert events[..|events|] == events;
    }
  }

  lemma NoEvents(seen: seq<seq<byte>>, stream: seq<byte>)
    ensures seen + Chunks([]) == seen && stream + Flatten(Chunks([])) == stream
  {
  }

  /** The chunks among the events. */
  function Chunks(events: seq<Event>): seq<seq<byte>> {
    if events == [] then []
    else
      var e := events[|events| - 1];
      Chunks(events[..|events| - 1]) + (if e.Data? then [e.bytes] else [])
  }

  lemma ChunksSplit(events: seq<Event>, k: nat, seen: seq<seq<byte>>)
    requires k < |events|
    ensures var next := if events[k].Data? then [events[k].bytes] else [];
      seen + Chunks(events[..k + 1]) == seen + Chunks(events[..k]) + next
    ensures Flatten(Chunks(events[..k + 1]))
      == Flatten(Chunks(events[..k])) + (if events[k].Data? then events[k].bytes else [])
  {
    assert events[..k + 1][..k] == events[..k];
    if events[k].Data? {
      FlattenNext(Chunks(events[..k]), events[k].bytes);
    } else {
      assert Chunks(events[..k + 1]) == Chunks(events[..k]);
    }
  }
}
