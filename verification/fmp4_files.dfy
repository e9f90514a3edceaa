/** fMP4 segments on their way into files: the box guard, rotation on a new init, and the pending init. */
module Fmp4Files {
  import opened Bytes
  import opened Collections
  import opened IsoBox
  import opened InitSettle
  import opened Fmp4Fragment
  import opened Fmp4Tree
  import opened Fmp4Times

  datatype Verdict = Admit | Drop | Rotate

  /** The guard's memory: media seen in this file, and the last init, which outlives the file. */
  datatype Guard = Guard(seenMedia: bool, lastInit: seq<byte>)

  function Leading(data: seq<byte>): nat
    requires |data| >= 8
  {
    U32(data[4..8])
  }

  function Judge(g: Guard, data: seq<byte>): Verdict {
    if data == [] then Admit
    else if |data| < 8 then Drop
    else if Leading(data) == FTYP then
      if g.seenMedia then (if g.lastInit != [] && data == g.lastInit then Drop else Rotate)
      else if ReadHeader(data, 0).Bad? then Drop else Admit
    else if Leading(data) == STYP || Leading(data) == MOOF then
      if ReadHeader(data, 0).Bad? then Drop else Admit
    else Drop
  }

  function Judged(g: Guard, data: seq<byte>): Guard {
    if |data| < 8 then g
    else if Leading(data) == FTYP then (if Judge(g, data) == Drop && g.seenMedia then g else g.(lastInit := data))
    else if Leading(data) == STYP || Leading(data) == MOOF then g.(seenMedia := true)
    else g
  }

  class Fmp4BoxGuard {
    var seenMedia: bool
    var lastInit: seq<byte>

    constructor (lastInit: seq<byte>)
      ensures View() == Guard(false, lastInit)
    {
      seenMedia, this.lastInit := false, lastInit;
    }

    function View(): Guard
      reads this
    {
      Guard(seenMedia, lastInit)
    }

    method Process(data: seq<byte>) returns (out: seq<byte>, verdict: Verdict)
      modifies this
      ensures verdict == Judge(old(View()), data)
      ensures View() == Judged(old(View()), data)
      ensures out == if verdict == Admit then data else []
    {
      if |data| == 0 {
        return data, Admit;
      }
      if |data| < 8 {
        return [], Drop;
      }
      var boxType := U32(data[4..8]);
      if boxType == FTYP {
        if seenMedia {
          if |lastInit| > 0 && data == lastInit {
            return [], Drop;
          }
          lastInit := data;
          return [], Rotate;
        }
        lastInit := data;
      } else if boxType == STYP || boxType == MOOF {
        seenMedia := true;
      } else {
        return [], Drop;
      }
      if ReadHeader(data, 0).Bad? {
        return [], Drop;
      }
      return data, Admit;
    }
  }

  class Fmp4InitWriter {
    const pendingInit: seq<byte>
    var written: bool

    constructor (pendingInit: seq<byte>)
      ensures this.pendingInit == pendingInit && !written
    {
      this.pendingInit, written := pendingInit, false;
    }

    /** The init that is still to be written. */
    function Pending(): seq<byte>
      reads this
    {
      if written then [] else pendingInit
    }

    /** The pending init goes once in front of the first data that is not empty. */
    method Process(data: seq<byte>) returns (out: seq<byte>)
      modifies this`written
      ensures out == if data == [] then data else old(Pending()) + data
      ensures Pending() == if data == [] then old(Pending()) else []
    {
      if |data| == 0 {
        return data;
      }
      if written || |pendingInit| == 0 {
        return data;
      }
      written := true;
      return pendingInit + data;
    }
  }

  // ---- A recording ----

  /** A file as the segments it was given, and as the bytes written for each of them. */
  datatype File = File(items: seq<Item>, written: seq<seq<byte>>)

  const NEW_FILE := File([], [])

  /** `pending` is the init that opens the file and is not yet written; `bases` belong to the file being written. */
  datatype Recorder = Recorder(guard: Guard, pending: seq<byte>, bases: Bases, file: File, closed: seq<File>)

  const NEW_RECORDER := Recorder(Guard(false, []), [], map[], NEW_FILE, [])

  function Data(x: Item): seq<byte> {
    if x.Init? then x.bytes else x.data
  }

  /** A segment past the guard: the timestamp normaliser, then the pending init in front of the first one. */
  function Put(r: Recorder, x: Item): Recorder {
    var p := SegmentPass(Data(x), 0, r.bases);
    var f := if r.pending == [] then r.file else Opened(r);
    r.(file := File(f.items + [x], f.written + [p.data]), pending := [], bases := p.bases)
  }

  function Opened(r: Recorder): File {
    File(r.file.items + [Init(r.pending)], r.file.written + [r.pending])
  }

  /** One segment from the reader; on a rotation the new init becomes the next file's pending init and the bases are
      forgotten. */
  function Receive(r: Recorder, x: Item): Recorder {
    var g := Judged(r.guard, Data(x));
    match Judge(r.guard, Data(x))
    case Admit => if Data(x) == [] then r else Put(r.(guard := g), x)
    case Drop => r.(guard := g)
    case Rotate => Recorder(Guard(false, g.lastInit), Data(x), map[], NEW_FILE, r.closed + [r.file])
  }

  function ReceiveAll(r: Recorder, xs: seq<Item>): Recorder
    decreases |xs|
  {
    if xs == [] then r else ReceiveAll(Receive(r, xs[0]), xs[1..])
  }

  /** Inits start with ftyp and hold no fragment, fragments start with styp or moof, and the leading box lies within
      the segment. */
  ghost predicate WellFormed(x: Item) {
    && |Data(x)| >= 8 && ReadHeader(Data(x), 0).Box?
    && (if x.Init? then Leading(Data(x)) == FTYP && MOOF !in Kinds(Data(x), 0)
        else Leading(Data(x)) == STYP || Leading(Data(x)) == MOOF)
  }

  /** The pieces of a file, one behind the other. */
  function Joined(pieces: seq<seq<byte>>): seq<byte> {
    if pieces == [] then [] else Joined(pieces[..|pieces| - 1]) + pieces[|pieces| - 1]
  }

  lemma JoinedNext(pieces: seq<seq<byte>>, piece: seq<byte>)
    ensures Joined(pieces + [piece]) == Joined(pieces) + piece
  {
    assert (pieces + [piece])[..|pieces|] == pieces;
  }

  /** A segment appends the pending init, if there is one, and its normalised bytes. */
  lemma PutJoins(r: Recorder, x: Item)
    ensures Joined(Put(r, x).file.written)
      == Joined(r.file.written) + (r.pending + SegmentPass(Data(x), 0, r.bases).data)
  {
    hide SegmentPass, Joined;
    var data := SegmentPass(Data(x), 0, r.bases).data;
    if r.pending == [] {
      JoinedNext(r.file.written, data);
      assert r.pending + data == data;
    } else {
      JoinedNext(r.file.written, r.pending);
      JoinedNext(r.file.written + [r.pending], data);
      Associate(Joined(r.file.written), r.pending, data);
    }
  }

  // ---- No init after media, whatever arrives ----

  predicate IsMedia(data: seq<byte>) {
    |data| >= 8 && (Leading(data) == STYP || Leading(data) == MOOF)
  }

  predicate IsInit(data: seq<byte>) {
    |data| >= 8 && Leading(data) == FTYP
  }

  ghost predicate InitsFirst(items: seq<Item>) {
    forall i, j :: 0 <= i < j < |items| && IsMedia(Data(items[i])) ==> !IsInit(Data(items[j]))
  }

  ghost predicate Ordered(r: Recorder) {
    && InitsFirst(r.file.items)
    && ((exists i :: 0 <= i < |r.file.items| && IsMedia(Data(r.file.items[i]))) ==> r.guard.seenMedia)
    && (r.pending != [] ==> r.file == NEW_FILE && IsInit(r.pending))
    && forall k :: 0 <= k < |r.closed| ==> InitsFirst(r.closed[k].items)
  }

  lemma ReceiveOrdered(r: Recorder, x: Item)
    requires Ordered(r)
    ensures Ordered(Receive(r, x))
  {
    hide SegmentPass, ReadHeader;
    var next, items := Receive(r, x), r.file.items;
    if Judge(r.guard, Data(x)) == Admit && Data(x) != [] {
      assert forall i :: 0 <= i < |items| ==> next.file.items[i] == items[i];
      assert next.file.items[|next.file.items| - 1] == x;
    }
  }

  /** For arbitrary segments, well-formed or not, no file has an init after media. */
  lemma {:induction false} NoInitAfterMedia(r: Recorder, xs: seq<Item>)
    requires Ordered(r)
    ensures Ordered(ReceiveAll(r, xs))
    decreases |xs|
  {
    hide Ordered, Receive;
    if xs != [] {
      ReceiveOrdered(r, xs[0]);
      NoInitAfterMedia(Receive(r, xs[0]), xs[1..]);
    }
  }

  // ---- Each fragment under its init, and inits that differ, in each file ----

  /** The file is what was sent, from its own first init on. */
  ghost predicate Following(r: Recorder, sent: seq<Item>) {
    && Governed(r.file.items)
    && (forall k :: 0 <= k < |r.closed| ==> Governed(r.closed[k].items))
    && r.guard.lastInit == LatestInit(sent)
    && (r.pending != [] ==> r.file == NEW_FILE)
    && LatestInit(sent) == (if r.pending != [] then r.pending else LatestInit(r.file.items))
  }

  /** An item that may follow what was sent. */
  ghost predicate Fits(sent: seq<Item>, x: Item) {
    && WellFormed(x)
    && (if x.Init? then LatestInit(sent) != x.bytes else LatestInit(sent) == x.under)
  }

  lemma PutGoverned(r: Recorder, x: Item)
    requires Governed(r.file.items) && (r.pending != [] ==> r.file == NEW_FILE) && Data(x) != []
    requires var last := if r.pending != [] then r.pending else LatestInit(r.file.items);
      if x.Init? then last != x.bytes else last == x.under
    ensures var items := Put(r, x).file.items;
      && Governed(items) && Put(r, x).pending == []
      && LatestInit(items) == (if x.Init? then x.bytes else x.under)
  {
    hide SegmentPass, Governed, LatestInit;
    if r.pending == [] {
      GovernedSnoc(r.file.items, x);
    } else {
      NoneLatest();
      GovernedSnoc(r.file.items, Init(r.pending));
      GovernedSnoc(r.file.items + [Init(r.pending)], x);
    }
  }

  lemma NoneLatest()
    ensures LatestInit([]) == []
  {
  }

  lemma SentNext(sent: seq<Item>, x: Item)
    ensures LatestInit(sent + [x]) == if x.Init? then x.bytes else LatestInit(sent)
  {
    var all := sent + [x];
    assert all[|all| - 1] == x && all[..|all| - 1] == sent;
  }

  lemma ReceiveFollowing(r: Recorder, sent: seq<Item>, x: Item)
    requires Following(r, sent) && Fits(sent, x)
    ensures Following(Receive(r, x), sent + [x])
  {
    SentNext(sent, x);
    if Judge(r.guard, Data(x)) == Admit {
      PutGoverned(r.(guard := Judged(r.guard, Data(x))), x);
    }
    EmptyIsGoverned();
    hide Governed, LatestInit, SegmentPass, Kinds;
  }

  lemma EmptyIsGoverned()
    ensures Governed([]) && LatestInit([]) == []
  {
  }

  lemma GovernedFits(all: seq<Item>, n: nat)
    requires Governed(all) && n < |all| && WellFormed(all[n])
    ensures Fits(all[..n], all[n])
  {
  }

  lemma {:induction false} FilesFollow(r: Recorder, sent: seq<Item>, xs: seq<Item>)
    requires Following(r, sent) && Governed(sent + xs)
    requires forall i :: 0 <= i < |xs| ==> WellFormed(xs[i])
    ensures Following(ReceiveAll(r, xs), sent + xs)
    decreases |xs|
  {
    hide Following, WellFormed, Receive, Governed, Fits;
    if xs == [] {
      assert sent + xs == sent;
    } else {
      var all := sent + xs;
      assert all[|sent|] == xs[0] && all[..|sent|] == sent;
      GovernedFits(all, |sent|);
      ReceiveFollowing(r, sent, xs[0]);
      assert sent + [xs[0]] + xs[1..] == all;
      FilesFollow(Receive(r, xs[0]), sent + [xs[0]], xs[1..]);
    }
  }

  // ---- What the normaliser makes of each file ----

  function Datas(items: seq<Item>): seq<seq<byte>> {
    seq(|items|, i requires 0 <= i < |items| => Data(items[i]))
  }

  /** The bytes of a file: its segments, normalised as one run of its own; inits are written as they came. */
  ghost predicate IsRun(f: File) {
    && |f.written| == |f.items|
    && PassRun(Datas(f.items), map[]).value == f.written
    && forall i :: 0 <= i < |f.items| && f.items[i].Init? ==> f.written[i] == f.items[i].bytes
  }

  ghost predicate Normalised(r: Recorder) {
    && IsRun(r.file) && PassRun(Datas(r.file.items), map[]).bases == r.bases
    && (forall k :: 0 <= k < |r.closed| ==> IsRun(r.closed[k]))
    && (r.pending != [] ==> MOOF !in Kinds(r.pending, 0))
  }

  lemma {:induction false} PassRunSnoc(datas: seq<seq<byte>>, data: seq<byte>, bases: Bases)
    ensures var o := PassRun(datas, bases);
      var p := SegmentPass(data, 0, o.bases);
      PassRun(datas + [data], bases) == Out(o.value + [p.data], p.bases)
    decreases |datas|
  {
    hide SegmentPass;
    if datas == [] {
      var one: seq<seq<byte>> := [data];
      assert datas + [data] == one && one[1..] == [];
      var p := SegmentPass(data, 0, bases);
      var none: seq<seq<byte>> := [];
      assert PassRun(one[1..], p.bases) == Out(none, p.bases);
      assert [p.data] + none == none + [p.data];
    } else {
      var p := SegmentPass(datas[0], 0, bases);
      var rest := PassRun(datas[1..], p.bases);
      PassRunSnoc(datas[1..], data, p.bases);
      Associate([p.data], rest.value, [SegmentPass(data, 0, rest.bases).data]);
      assert (datas + [data])[0] == datas[0] && (datas + [data])[1..] == datas[1..] + [data];
    }
  }

  /** The first k segments are written as they came, and the others are one normalised run. */
  ghost predicate RunFrom(f: File, k: nat, bases: Bases) {
    && k <= |f.items| == |f.written| && f.written[..k] == Datas(f.items)[..k]
    && PassRun(Datas(f.items)[k..], map[]) == Out(f.written[k..], bases)
  }

  /** A file opened by a pending init has that as it came in front of the run. */
  ghost predicate RunBehindInit(f: File, bases: Bases) {
    RunFrom(f, 0, bases) || (f.items != [] && f.items[0].Init? && RunFrom(f, 1, bases))
  }

  ghost predicate IsRunBehindInit(f: File) {
    exists bases :: RunBehindInit(f, bases)
  }

  ghost predicate RunsBehindInits(r: Recorder) {
    && RunBehindInit(r.file, r.bases) && (r.pending != [] ==> r.file == NEW_FILE && r.bases == map[])
    && (forall k :: 0 <= k < |r.closed| ==> IsRunBehindInit(r.closed[k]))
  }

  lemma RunFromNext(f: File, k: nat, bases: Bases, x: Item)
    requires RunFrom(f, k, bases)
    ensures var p := SegmentPass(Data(x), 0, bases);
      RunFrom(File(f.items + [x], f.written + [p.data]), k, p.bases)
  {
    hide SegmentPass, PassRun;
    var p := SegmentPass(Data(x), 0, bases);
    assert Datas(f.items + [x]) == Datas(f.items) + [Data(x)];
    assert (Datas(f.items) + [Data(x)])[k..] == Datas(f.items)[k..] + [Data(x)];
    assert (f.written + [p.data])[k..] == f.written[k..] + [p.data];
    PassRunSnoc(Datas(f.items)[k..], Data(x), map[]);
  }

  lemma NewFileRuns()
    ensures RunFrom(NEW_FILE, 0, map[])
  {
    assert Datas([]) == [];
  }

  lemma OpenedRuns(init: seq<byte>)
    ensures RunFrom(File([Init(init)], [init]), 1, map[])
  {
    assert Datas([Init(init)]) == [init] && [init][1..] == [];
  }

  lemma PutRuns(r: Recorder, x: Item)
    requires RunsBehindInits(r)
    ensures RunsBehindInits(Put(r, x))
  {
    hide SegmentPass, RunFrom, IsRunBehindInit;
    if r.pending != [] {
      OpenedRuns(r.pending);
      assert Opened(r) == File([Init(r.pending)], [r.pending]);
      RunFromNext(Opened(r), 1, r.bases, x);
    } else if RunFrom(r.file, 0, r.bases) {
      RunFromNext(r.file, 0, r.bases, x);
    } else {
      RunFromNext(r.file, 1, r.bases, x);
      assert (r.file.items + [x])[0] == r.file.items[0];
    }
  }

  lemma ReceiveRuns(r: Recorder, x: Item)
    requires RunsBehindInits(r)
    ensures RunsBehindInits(Receive(r, x))
  {
    NewFileRuns();
    assert IsRunBehindInit(r.file);
    assert RunBehindInit(NEW_FILE, map[]);
    hide RunBehindInit, IsRunBehindInit, Put, ReadHeader;
    if Judge(r.guard, Data(x)) == Admit {
      PutRuns(r.(guard := Judged(r.guard, Data(x))), x);
    }
  }

  lemma {:induction false} RunsStay(r: Recorder, xs: seq<Item>)
    requires RunsBehindInits(r)
    ensures RunsBehindInits(ReceiveAll(r, xs))
    decreases |xs|
  {
    hide RunsBehindInits, Receive;
    if xs != [] {
      ReceiveRuns(r, xs[0]);
      RunsStay(Receive(r, xs[0]), xs[1..]);
    }
  }

  /** For arbitrary segments each file is one normalised run of its segments from empty bases, behind the pending init
      that opened it, if one did, which is written as it came. */
  lemma EveryFileIsRun(xs: seq<Item>)
    ensures var end := ReceiveAll(NEW_RECORDER, xs);
      IsRunBehindInit(end.file) && forall k :: 0 <= k < |end.closed| ==> IsRunBehindInit(end.closed[k])
  {
    NewFileRuns();
    hide RunFrom, ReceiveAll;
    RunsStay(NEW_RECORDER, xs);
  }

  /** Without a moof box the normaliser changes nothing. */
  lemma {:induction false} NothingToNormalise(data: seq<byte>, off: nat, bases: Bases)
    requires MOOF !in Kinds(data, off)
    ensures SegmentPass(data, off, bases) == Pass(data, bases, 0)
    decreases |data| - off
  {
    hide ReadHeader;
    if off < |data| && ReadHeader(data, off).Box? {
      var h := ReadHeader(data, off);
      assert Kinds(data, off) == [h.kind] + Kinds(data, off + h.size);
      assert forall k :: k in Kinds(data, off + h.size) ==> k in Kinds(data, off);
      NothingToNormalise(data, off + h.size, bases);
    }
  }

  /** One more segment of a run. */
  lemma RunNext(f: File, bases: Bases, x: Item)
    requires IsRun(f) && PassRun(Datas(f.items), map[]).bases == bases
    requires x.Init? ==> MOOF !in Kinds(x.bytes, 0)
    ensures var p := SegmentPass(Data(x), 0, bases);
      var next := File(f.items + [x], f.written + [p.data]);
      IsRun(next) && PassRun(Datas(next.items), map[]).bases == p.bases && (x.Init? ==> p.data == x.bytes)
  {
    assert Datas(f.items + [x]) == Datas(f.items) + [Data(x)];
    PassRunSnoc(Datas(f.items), Data(x), map[]);
    if x.Init? {
      NothingToNormalise(x.bytes, 0, bases);
    }
    hide SegmentPass, PassRun, Kinds;
  }

  lemma PutNormalised(r: Recorder, x: Item)
    requires Normalised(r) && (r.pending != [] ==> r.file == NEW_FILE) && (x.Init? ==> MOOF !in Kinds(x.bytes, 0))
    ensures Normalised(Put(r, x))
  {
    if r.pending != [] {
      RunNext(r.file, r.bases, Init(r.pending));
      NothingToNormalise(r.pending, 0, r.bases);
      hide SegmentPass, PassRun, Kinds, IsRun;
      RunNext(Opened(r), r.bases, x);
    } else {
      hide SegmentPass, PassRun, Kinds, IsRun;
      RunNext(r.file, r.bases, x);
    }
  }

  lemma ReceiveNormalised(r: Recorder, x: Item)
    requires Normalised(r) && (r.pending != [] ==> r.file == NEW_FILE) && WellFormed(x)
    ensures Normalised(Receive(r, x))
  {
    NewFileIsRun();
    if Judge(r.guard, Data(x)) == Admit {
      PutNormalised(r.(guard := Judged(r.guard, Data(x))), x);
    }
    hide PassRun, Kinds, IsRun, Put, ReadHeader;
  }

  lemma NewFileIsRun()
    ensures IsRun(NEW_FILE) && PassRun(Datas(NEW_FILE.items), map[]).bases == map[]
  {
    assert Datas([]) == [];
  }

  lemma {:induction false} FilesAreRuns(r: Recorder, xs: seq<Item>)
    requires Normalised(r) && Ordered(r) && forall i :: 0 <= i < |xs| ==> WellFormed(xs[i])
    ensures Normalised(ReceiveAll(r, xs))
    decreases |xs|
  {
    hide Normalised, WellFormed, Receive, InitsFirst;
    if xs != [] {
      ReceiveNormalised(r, xs[0]);
      ReceiveOrdered(r, xs[0]);
      FilesAreRuns(Receive(r, xs[0]), xs[1..]);
    }
  }

  // ---- From the reader to the files ----

  /** The segments the reader hands over are well formed. */
  ghost predicate WellFormedEvent(e: Event) {
    && (e.Map? ==> WellFormed(Init(e.content)))
    && (e.Media? ==> WellFormed(Fragment(e.data, [])))
  }

  ghost predicate HoldsWellFormed(r: Runner) {
    && (forall i :: 0 <= i < |r.sent| ==> WellFormed(r.sent[i]))
    && (forall i :: 0 <= i < |r.hold.pending| ==> WellFormed(Init(r.hold.pending[i].bytes)))
    && (forall i :: 0 <= i < |r.hold.buf| ==> WellFormed(Fragment(r.hold.buf[i].bytes, [])))
  }

  lemma UnderDoesNotMatter(data: seq<byte>, under: seq<byte>)
    ensures WellFormed(Fragment(data, under)) == WellFormed(Fragment(data, []))
  {
  }

  lemma MapHoldsWellFormed(r: Runner, id: nat, content: seq<byte>)
    requires HoldsWellFormed(r) && WellFormed(Init(content))
    ensures HoldsWellFormed(Step(r, Map(id, content)))
  {
    hide WellFormed;
  }

  lemma MediaHoldsWellFormed(r: Runner, id: nat, data: seq<byte>)
    requires HoldsWellFormed(r) && WellFormed(Fragment(data, []))
    ensures HoldsWellFormed(Step(r, Media(id, data)))
  {
    UnderDoesNotMatter(data, r.last);
    hide WellFormed;
  }

  lemma TimerHoldsWellFormed(r: Runner)
    requires HoldsWellFormed(r)
    ensures HoldsWellFormed(Step(r, Timer))
  {
    forall i | 0 <= i < |r.hold.buf|
      ensures WellFormed(Fragment(r.hold.buf[i].bytes, r.hold.buf[i].under))
    {
      UnderDoesNotMatter(r.hold.buf[i].bytes, r.hold.buf[i].under);
    }
    hide WellFormed;
  }

  lemma StepHoldsWellFormed(r: Runner, e: Event)
    requires HoldsWellFormed(r) && WellFormedEvent(e)
    ensures HoldsWellFormed(Step(r, e))
  {
    hide HoldsWellFormed, Step, WellFormed;
    match e
    case Map(id, content) => MapHoldsWellFormed(r, id, content);
    case Media(id, data) => MediaHoldsWellFormed(r, id, data);
    case Timer => TimerHoldsWellFormed(r);
  }

  lemma {:induction false} SentIsWellFormed(r: Runner, es: seq<Event>)
    requires HoldsWellFormed(r) && forall i :: 0 <= i < |es| ==> WellFormedEvent(es[i])
    ensures HoldsWellFormed(Run(r, es))
    decreases |es|
  {
    hide HoldsWellFormed, WellFormedEvent, Step;
    if es != [] {
      StepHoldsWellFormed(r, es[0]);
      SentIsWellFormed(Step(r, es[0]), es[1..]);
    }
  }

  /** A file of a recording: each fragment has as its latest preceding init the content that was last accepted when it
      arrived, consecutive inits differ, no init follows media, and the bytes are the normalised run of the file. */
  ghost predicate GoodFile(f: File) {
    Governed(f.items) && InitsFirst(f.items) && IsRun(f)
  }

  /** From the reader to the files: over every run of init fetches, media arrivals and timer firings with well-formed
      segments, every file is good. */
  lemma EveryFileIsGoverned(es: seq<Event>)
    requires forall i :: 0 <= i < |es| ==> WellFormedEvent(es[i])
    ensures var end := ReceiveAll(NEW_RECORDER, Run(BEGINNING, es).sent);
      GoodFile(end.file) && forall k :: 0 <= k < |end.closed| ==> GoodFile(end.closed[k])
  {
    hide *;
    var sent := Run(BEGINNING, es).sent;
    SentFitsFiles(es);
    NewRecorderIsClean();
    assert [] + sent == sent;
    FilesFollow(NEW_RECORDER, [], sent);
    NoInitAfterMedia(NEW_RECORDER, sent);
    FilesAreRuns(NEW_RECORDER, sent);
    GoodFiles(ReceiveAll(NEW_RECORDER, sent), sent);
  }

  lemma SentFitsFiles(es: seq<Event>)
    requires forall i :: 0 <= i < |es| ==> WellFormedEvent(es[i])
    ensures Governed(Run(BEGINNING, es).sent)
    ensures forall i :: 0 <= i < |Run(BEGINNING, es).sent| ==> WellFormed(Run(BEGINNING, es).sent[i])
  {
    hide WellFormed, Governed, Run;
    forall i | 0 <= i < |es| && es[i].Map?
      ensures es[i].content != []
    {
      InitIsNotEmpty(es[i]);
    }
    SentIsWellFormed(BEGINNING, es);
    DeliveryIsGoverned(es);
  }

  lemma InitIsNotEmpty(e: Event)
    requires WellFormedEvent(e) && e.Map?
    ensures e.content != []
  {
  }

  lemma NewRecorderIsClean()
    ensures Following(NEW_RECORDER, []) && Ordered(NEW_RECORDER) && Normalised(NEW_RECORDER)
  {
    NewFileIsRun();
  }

  lemma GoodFiles(r: Recorder, sent: seq<Item>)
    requires Following(r, sent) && Ordered(r) && Normalised(r)
    ensures GoodFile(r.file) && forall k :: 0 <= k < |r.closed| ==> GoodFile(r.closed[k])
  {
    hide Governed, InitsFirst, IsRun;
  }

  // ---- Every segment is in a file ----

  function ItemsOf(fs: seq<File>): seq<Item> {
    if fs == [] then [] else ItemsOf(fs[..|fs| - 1]) + fs[|fs| - 1].items
  }

  lemma ItemsOfNext(fs: seq<File>, f: File)
    ensures ItemsOf(fs + [f]) == ItemsOf(fs) + f.items
  {
    assert (fs + [f])[..|fs|] == fs;
  }

  /** Everything the files hold, in order, and the init that is to open the next one. */
  function FileItems(r: Recorder): seq<Item> {
    ItemsOf(r.closed) + r.file.items
  }

  function PendingItems(r: Recorder): seq<Item> {
    if r.pending == [] then [] else [Init(r.pending)]
  }

  function AllItems(r: Recorder): seq<Item> {
    FileItems(r) + PendingItems(r)
  }

  /** What the files gain by an arbitrary segment, and what is pending then: what passes goes to the current file behind
      the pending init, what is dropped nowhere, and a rotation replaces the pending init. */
  lemma ReceiveAdds(r: Recorder, x: Item)
    requires r.pending != [] ==> r.file == NEW_FILE
    ensures var next, v := Receive(r, x), Judge(r.guard, Data(x));
      && (v == Admit && Data(x) != [] ==> FileItems(next) == FileItems(r) + PendingItems(r) + [x] && next.pending == [])
      && (v == Drop || Data(x) == [] ==> FileItems(next) == FileItems(r) && next.pending == r.pending)
      && (v == Rotate ==> FileItems(next) == FileItems(r) && next.pending == Data(x) != [])
  {
    hide SegmentPass, ReadHeader, ItemsOf;
    ItemsOfNext(r.closed, r.file);
    Associate(ItemsOf(r.closed), r.file.items, [x]);
    if r.pending != [] {
      Associate(ItemsOf(r.closed), [Init(r.pending)], [x]);
    }
  }

  /** The four letters behind the size of the leading box. */
  function Letters(data: seq<byte>): seq<byte>
    requires |data| >= 8
  {
    data[4..8]
  }

  const LETTERS_FTYP: seq<byte> := ['f' as byte, 't' as byte, 'y' as byte, 'p' as byte]
  const LETTERS_STYP: seq<byte> := ['s' as byte, 't' as byte, 'y' as byte, 'p' as byte]
  const LETTERS_MOOF: seq<byte> := ['m' as byte, 'o' as byte, 'o' as byte, 'f' as byte]

  lemma LeadingLetters(data: seq<byte>)
    requires |data| >= 8
    ensures Leading(data) == FTYP <==> Letters(data) == LETTERS_FTYP
    ensures Leading(data) == STYP <==> Letters(data) == LETTERS_STYP
    ensures Leading(data) == MOOF <==> Letters(data) == LETTERS_MOOF
  {
    U32Injective(Letters(data), PutU32(FTYP));
    U32Injective(Letters(data), PutU32(STYP));
    U32Injective(Letters(data), PutU32(MOOF));
    KindsAreNames();
    hide U32, PutU32;
  }

  lemma U32Injective(a: seq<byte>, b: seq<byte>)
    requires |a| == |b| == 4
    ensures U32(a) == U32(b) <==> a == b
  {
    assert a == [a[0], a[1], a[2], a[3]] && b == [b[0], b[1], b[2], b[3]];
  }

  /** The guard's verdict on an arbitrary segment, and its memory. A sound segment passes if it is media, or an init
      before any media; an init behind media rotates unless it repeats the last one, sound or not; a segment with
      another leading box, or with a broken one, is dropped. */
  lemma GuardExactly(g: Guard, data: seq<byte>)
    ensures var media := |data| >= 8 && (Letters(data) == LETTERS_STYP || Letters(data) == LETTERS_MOOF);
      var init := |data| >= 8 && Letters(data) == LETTERS_FTYP;
      var repeated := data == g.lastInit;
      && (Judge(g, data) == Admit <==>
           data == [] || ((media || (init && !g.seenMedia)) && ReadHeader(data, 0).Box?))
      && (Judge(g, data) == Rotate <==> init && g.seenMedia && !repeated)
      && Judged(g, data) == Guard(g.seenMedia || media, if init then data else g.lastInit)
  {
    if |data| >= 8 {
      LeadingLetters(data);
    }
    hide ReadHeader, Letters, Leading;
  }

  lemma {:induction false} ReceiveAllAdds(r: Recorder, sent: seq<Item>, xs: seq<Item>)
    requires Following(r, sent) && Governed(sent + xs) && AllItems(r) == sent
    requires r.pending != [] ==> !r.guard.seenMedia
    requires forall i :: 0 <= i < |xs| ==> WellFormed(xs[i])
    ensures AllItems(ReceiveAll(r, xs)) == sent + xs
    decreases |xs|
  {
    hide Following, WellFormed, Receive, Governed, Fits, AllItems;
    if xs == [] {
      assert sent + xs == sent;
    } else {
      var all := sent + xs;
      assert all[|sent|] == xs[0] && all[..|sent|] == sent;
      GovernedFits(all, |sent|);
      ReceiveFollowing(r, sent, xs[0]);
      ReceiveFitting(r, sent, xs[0]);
      assert sent + [xs[0]] + xs[1..] == all;
      ReceiveAllAdds(Receive(r, xs[0]), sent + [xs[0]], xs[1..]);
    }
  }

  lemma ReceiveFitting(r: Recorder, sent: seq<Item>, x: Item)
    requires Following(r, sent) && Fits(sent, x) && (r.pending != [] ==> !r.guard.seenMedia)
    ensures AllItems(Receive(r, x)) == AllItems(r) + [x]
    ensures Receive(r, x).pending != [] ==> !Receive(r, x).guard.seenMedia
  {
    ReceiveAdds(r, x);
    hide SegmentPass, ReadHeader, FileItems, Governed, LatestInit, Kinds, Put;
    assert x.Init? ==> x == Init(Data(x));
  }

  /** From the reader to the files nothing is lost, repeated or reordered: with well-formed segments the files hold, one
      behind the other and with the pending init behind them, exactly what the runner sent. */
  lemma EverythingIsInFiles(es: seq<Event>)
    requires forall i :: 0 <= i < |es| ==> WellFormedEvent(es[i])
    ensures AllItems(ReceiveAll(NEW_RECORDER, Run(BEGINNING, es).sent)) == Run(BEGINNING, es).sent
  {
    hide *;
    var sent := Run(BEGINNING, es).sent;
    SentFitsFiles(es);
    NewRecorderIsClean();
    NewRecorderIsEmpty();
    assert [] + sent == sent;
    ReceiveAllAdds(NEW_RECORDER, [], sent);
  }

  lemma NewRecorderIsEmpty()
    ensures AllItems(NEW_RECORDER) == [] && NEW_RECORDER.pending == []
  {
  }

  /** With broken segments an init can be lost: a media segment with a broken leading box is dropped, but counts as
      media seen, so that the next init rotates although the pending one is in no file yet. */
  lemma BrokenMediaLosesInit(r: Recorder, broken: Item, x: Item)
    requires r.pending != [] && r.file == NEW_FILE && !r.guard.seenMedia && r.guard.lastInit == r.pending
    requires |Data(broken)| >= 8 && Letters(Data(broken)) == LETTERS_MOOF && ReadHeader(Data(broken), 0).Bad?
    requires |Data(x)| >= 8 && Letters(Data(x)) == LETTERS_FTYP && Data(x) != r.pending
    ensures var end := Receive(Receive(r, broken), x);
      FileItems(end) == FileItems(r) && end.pending == Data(x)
  {
    GuardExactly(r.guard, Data(broken));
    ReceiveAdds(r, broken);
    var mid := Receive(r, broken);
    hide Judge, Judged, Put, ReadHeader;
    assert mid == r.(guard := Judged(r.guard, Data(broken)));
    GuardExactly(mid.guard, Data(x));
    ReceiveAdds(mid, x);
    hide FileItems, Receive;
  }

  /** What of a segment the guard lets on: all of it, or, as the reason of a rotation, the init it is. */
  function Passed(r: Recorder, x: Item): seq<Item> {
    match Judge(r.guard, Data(x))
    case Admit => if Data(x) == [] then [] else [x]
    case Drop => []
    case Rotate => [Init(Data(x))]
  }

  function AllPassed(r: Recorder, xs: seq<Item>): seq<Item>
    decreases |xs|
  {
    if xs == [] then [] else Passed(r, xs[0]) + AllPassed(Receive(r, xs[0]), xs[1..])
  }

  /** How often a rotation finds its file not begun. */
  function EarlyRotations(r: Recorder, xs: seq<Item>): nat
    decreases |xs|
  {
    if xs == [] then 0
    else
      (if r.pending != [] && Judge(r.guard, Data(xs[0])) == Rotate then 1 else 0)
      + EarlyRotations(Receive(r, xs[0]), xs[1..])
  }

  lemma ReceivePasses(r: Recorder, x: Item)
    requires r.pending != [] ==> r.file == NEW_FILE
    ensures var next, early := Receive(r, x), r.pending != [] && Judge(r.guard, Data(x)) == Rotate;
      && (next.pending != [] ==> next.file == NEW_FILE)
      && |AllItems(next)| + (if early then 1 else 0) == |AllItems(r)| + |Passed(r, x)|
      && (!early ==> AllItems(next) == AllItems(r) + Passed(r, x))
  {
    ReceiveAdds(r, x);
    hide SegmentPass, ReadHeader, FileItems;
  }

  /** For arbitrary segments: the files and the pending init hold exactly what the guard let on, in order, if and only
      if no rotation came before its file was begun; each that did lost one init. */
  lemma {:induction false} LosesInitsExactly(r: Recorder, xs: seq<Item>)
    requires r.pending != [] ==> r.file == NEW_FILE
    ensures var end := ReceiveAll(r, xs);
      && |AllItems(end)| + EarlyRotations(r, xs) == |AllItems(r)| + |AllPassed(r, xs)|
      && (AllItems(end) == AllItems(r) + AllPassed(r, xs) <==> EarlyRotations(r, xs) == 0)
    decreases |xs|
  {
    hide AllItems, Passed, Receive, Judge;
    if xs == [] {
      assert AllItems(r) + [] == AllItems(r);
    } else {
      var next := Receive(r, xs[0]);
      ReceivePasses(r, xs[0]);
      LosesInitsExactly(next, xs[1..]);
      Associate(AllItems(r), Passed(r, xs[0]), AllPassed(next, xs[1..]));
    }
  }
}
