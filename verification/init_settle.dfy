/** Hold-and-settle of fMP4 init changes: what is delivered, under which init, and who owns which buffer. */
module InitSettle {
  import opened Bytes
  import opened Collections

  /** A buffer handed over by the reader. `under` records, for a media fragment, the init content that was last
      accepted when it arrived ([] when there was none); the code never looks at it. */
  datatype Slice = Slice(id: nat, bytes: seq<byte>, under: seq<byte>)

  /** `pending` holds at most one slice; `released` lists the calls of the release function. */
  datatype Hold = Hold(confirmed: seq<byte>, active: bool, pending: seq<Slice>, buf: seq<Slice>, released: seq<Slice>)

  datatype Accepted = Accepted(deliverNow: seq<Slice>, armTimer: bool, stopTimer: bool)

  const IDLE := Hold([], false, [], [], [])

  function Cancelled(s: Hold): Hold {
    if s.active then Hold(s.confirmed, false, [], [], s.released + s.buf + s.pending) else s
  }

  function AcceptedHold(s: Hold, init: Slice): Hold {
    if s.active then
      if s.confirmed != [] && init.bytes == s.confirmed then
        var c := Cancelled(s);
        c.(released := c.released + [init])
      else if s.pending != [] && init.bytes == s.pending[0].bytes then s.(released := s.released + [init])
      else s.(buf := [], pending := [init], released := s.released + s.buf + s.pending)
    else if s.confirmed != [] && init.bytes == s.confirmed then s.(released := s.released + [init])
    else if s.confirmed == [] then s.(confirmed := init.bytes)
    else s.(pending := [init], active := true, buf := [])
  }

  function AcceptedResult(s: Hold, init: Slice): Accepted {
    if s.active then
      if s.confirmed != [] && init.bytes == s.confirmed then Accepted([], false, true) else Accepted([], true, false)
    else if s.confirmed != [] && init.bytes == s.confirmed then Accepted([], false, false)
    else if s.confirmed == [] then Accepted([init], false, false)
    else Accepted([], true, false)
  }

  function Buffered(s: Hold, media: Slice): Hold {
    if s.active then s.(buf := s.buf + [media]) else s
  }

  function Settled(s: Hold): Hold {
    if s.active && s.pending != [] then Hold(s.pending[0].bytes, false, [], [], s.released) else s
  }

  /** Inactive holds nothing; active holds one pending init that differs from the confirmed one. */
  ghost predicate Ok(s: Hold) {
    if s.active then s.confirmed != [] && |s.pending| == 1 && s.pending[0].bytes != s.confirmed
    else s.pending == [] && s.buf == []
  }

  class InitSettle {
    var confirmed: seq<byte>
    var active: bool
    var pending: seq<Slice>
    var buf: seq<Slice>
    var released: seq<Slice>

    constructor ()
      ensures View() == IDLE && Valid()
    {
      confirmed, active, pending, buf, released := [], false, [], [], [];
    }

    function View(): Hold
      reads this
    {
      Hold(confirmed, active, pending, buf, released)
    }

    ghost predicate Valid()
      reads this
    {
      Ok(View())
    }

    method BufferMedia(data: Slice)
      requires Valid()
      modifies this`buf
      ensures Valid() && View() == Buffered(old(View()), data)
    {
      if !active {
        return;
      }
      buf := buf + [data];
    }

    method Cancel()
      requires Valid()
      modifies this
      ensures Valid() && View() == Cancelled(old(View()))
    {
      if !active {
        return;
      }
      DropBuf();
      active := false;
      released := released + pending;
      pending := [];
    }

    method Reset()
      requires Valid()
      modifies this
      ensures Valid() && View() == Cancelled(old(View())).(confirmed := [])
    {
      Cancel();
      confirmed := [];
    }

    /** Releases the buffered fragments in order. */
    method DropBuf()
      modifies this`buf, this`released
      ensures buf == [] && released == old(released) + old(buf)
    {
      var i := 0;
      while i < |buf|
        invariant 0 <= i <= |buf| && buf == old(buf)
        invariant released == old(released) + buf[..i]
      {
        released := released + [buf[i]];
        i := i + 1;
      }
      assert buf[..i] == buf;
      buf := [];
    }

    method AcceptMap(mapData: Slice) returns (result: Accepted)
      requires Valid()
      modifies this
      ensures Valid() && View() == AcceptedHold(old(View()), mapData)
      ensures result == AcceptedResult(old(View()), mapData)
    {
      if active {
        if |confirmed| > 0 && mapData.bytes == confirmed {
          Cancel();
          released := released + [mapData];
          return Accepted([], false, true);
        }
        if mapData.bytes == pending[0].bytes {
          released := released + [mapData];
          return Accepted([], true, false);
        }
        DropBuf();
        released := released + pending;
        pending := [mapData];
        return Accepted([], true, false);
      }
      if |confirmed| > 0 && mapData.bytes == confirmed {
        released := released + [mapData];
        return Accepted([], false, false);
      }
      if |confirmed| == 0 {
        confirmed := mapData.bytes;
        return Accepted([mapData], false, false);
      }
      pending := [mapData];
      active := true;
      buf := [];
      return Accepted([], true, false);
    }

    method Settle() returns (init: seq<Slice>, media: seq<Slice>)
      requires Valid()
      modifies this
      ensures Valid() && View() == Settled(old(View()))
      ensures init == old(pending) && media == old(buf)
    {
      if !active {
        return [], [];
      }
      init, media := pending, buf;
      active := false;
      pending := [];
      buf := [];
      confirmed := init[0].bytes;
    }
  }

  // ---- Ownership ----

  datatype Call = Accept(init: Slice) | Buffer(media: Slice) | Settle | Cancel | Reset

  function Do(s: Hold, c: Call): Hold {
    match c
    case Accept(init) => AcceptedHold(s, init)
    case Buffer(media) => Buffered(s, media)
    case Settle => Settled(s)
    case Cancel => Cancelled(s)
    case Reset => Cancelled(s).(confirmed := [])
  }

  /** What a call hands over, and what it hands back. */
  function Given(c: Call): seq<Slice> {
    match c
    case Accept(init) => [init]
    case Buffer(media) => [media]
    case _ => []
  }

  function Returned(s: Hold, c: Call): seq<Slice> {
    match c
    case Accept(init) => AcceptedResult(s, init).deliverNow
    case Settle => s.pending + s.buf
    case _ => []
  }

  function DoAll(s: Hold, cs: seq<Call>): Hold
    decreases |cs|
  {
    if cs == [] then s else DoAll(Do(s, cs[0]), cs[1..])
  }

  function AllGiven(cs: seq<Call>): seq<Slice> {
    if cs == [] then [] else Given(cs[0]) + AllGiven(cs[1..])
  }

  function AllReturned(s: Hold, cs: seq<Call>): seq<Slice>
    decreases |cs|
  {
    if cs == [] then [] else Returned(s, cs[0]) + AllReturned(Do(s, cs[0]), cs[1..])
  }

  /** What a call leaves nowhere: media that is buffered while no change is held. */
  function Dropped(s: Hold, c: Call): seq<Slice> {
    if c.Buffer? && !s.active then [c.media] else []
  }

  function AllDropped(s: Hold, cs: seq<Call>): seq<Slice>
    decreases |cs|
  {
    if cs == [] then [] else Dropped(s, cs[0]) + AllDropped(Do(s, cs[0]), cs[1..])
  }

  function Count(ss: seq<Slice>, b: Slice): nat {
    if ss == [] then 0 else (if ss[0] == b then 1 else 0) + Count(ss[1..], b)
  }

  lemma {:induction false} CountAppend(x: seq<Slice>, y: seq<Slice>, b: Slice)
    ensures Count(x + y, b) == Count(x, b) + Count(y, b)
  {
    if x == [] {
      assert x + y == y;
    } else {
      CountAppend(x[1..], y, b);
      assert (x + y)[1..] == x[1..] + y;
    }
  }

  lemma DoKeepsOk(s: Hold, c: Call)
    requires Ok(s)
    ensures Ok(Do(s, c))
  {
  }

  /** The debounce timer is armed exactly while a change is held, and stopped exactly when a hold ends. */
  lemma TimerFollowsHold(s: Hold, init: Slice)
    ensures AcceptedResult(s, init).armTimer <==> AcceptedHold(s, init).active
    ensures AcceptedResult(s, init).stopTimer <==> s.active && !AcceptedHold(s, init).active
  {
  }

  /** How often b is held or was released. */
  function Inside(s: Hold, b: Slice): nat {
    Count(s.pending, b) + Count(s.buf, b) + Count(s.released, b)
  }

  lemma ReleaseCounts(s: Hold, init: Slice, b: Slice)
    ensures Count(s.released + [init], b) == Count(s.released, b) + Count([init], b)
    ensures Count(s.released + s.buf + s.pending, b) == Inside(s, b)
    ensures Count(s.released + s.buf + s.pending + [init], b) == Inside(s, b) + Count([init], b)
  {
    CountAppend(s.released, [init], b);
    CountAppend(s.released, s.buf, b);
    CountAppend(s.released + s.buf, s.pending, b);
    CountAppend(s.released + s.buf + s.pending, [init], b);
  }

  lemma DoConserves(s: Hold, c: Call, b: Slice)
    requires Ok(s)
    ensures Inside(s, b) + Count(Given(c), b)
      == Inside(Do(s, c), b) + Count(Returned(s, c), b) + Count(Dropped(s, c), b)
  {
    match c
    case Accept(init) => ReleaseCounts(s, init, b);
    case Buffer(media) => CountAppend(s.buf, [media], b);
    case Settle => CountAppend(s.pending, s.buf, b);
    case _ =>
      CountAppend(s.released, s.buf, b);
      CountAppend(s.released + s.buf, s.pending, b);
  }

  /** Over every run of calls each buffer is held, released, returned or dropped exactly as often as it was handed
      over; and the holder stays well shaped. */
  lemma {:induction false} BuffersAreConserved(s: Hold, cs: seq<Call>, b: Slice)
    requires Ok(s)
    ensures Ok(DoAll(s, cs))
    ensures Inside(s, b) + Count(AllGiven(cs), b)
      == Inside(DoAll(s, cs), b) + Count(AllReturned(s, cs), b) + Count(AllDropped(s, cs), b)
    decreases |cs|
  {
    hide Do, Inside, Returned, Given, Dropped, Ok, Count;
    if cs == [] {
      NothingCounts(b);
    } else {
      var next := Do(s, cs[0]);
      DoKeepsOk(s, cs[0]);
      DoConserves(s, cs[0], b);
      BuffersAreConserved(next, cs[1..], b);
      CountAppend(Given(cs[0]), AllGiven(cs[1..]), b);
      CountAppend(Returned(s, cs[0]), AllReturned(next, cs[1..]), b);
      CountAppend(Dropped(s, cs[0]), AllDropped(next, cs[1..]), b);
    }
  }

  lemma NothingCounts(b: Slice)
    ensures Count([], b) == 0
  {
  }

  /** So a buffer handed over once is in exactly one place, pending, buffered, released once or returned once, if and
      only if it was not buffered while no change was held. */
  lemma OwnedExactlyOnce(cs: seq<Call>, b: Slice)
    requires Count(AllGiven(cs), b) == 1
    ensures var e := DoAll(IDLE, cs);
      Count(e.pending, b) + Count(e.buf, b) + Count(e.released, b) + Count(AllReturned(IDLE, cs), b) == 1
      <==> Count(AllDropped(IDLE, cs), b) == 0
  {
    BuffersAreConserved(IDLE, cs, b);
  }

  /** Such a buffer is nowhere: a fragment buffered while inactive is neither held, released nor returned. */
  lemma BufferedWhileInactiveIsLost(b: Slice)
    ensures var e := DoAll(IDLE, [Buffer(b)]);
      Count(AllGiven([Buffer(b)]), b) == 1 && Inside(e, b) + Count(AllReturned(IDLE, [Buffer(b)]), b) == 0
  {
    assert [Buffer(b)][1..] == [];
    assert Count([b], b) == 1 + Count([b][1..], b);
  }

  // ---- What is delivered under which init ----

  datatype Event = Map(id: nat, content: seq<byte>) | Media(id: nat, data: seq<byte>) | Timer

  datatype Item = Init(bytes: seq<byte>) | Fragment(data: seq<byte>, under: seq<byte>)

  /** The runner: the holder, the content last accepted, and everything sent so far. */
  datatype Runner = Runner(hold: Hold, last: seq<byte>, sent: seq<Item>)

  function Fragments(ss: seq<Slice>): seq<Item> {
    seq(|ss|, i requires 0 <= i < |ss| => Fragment(ss[i].bytes, ss[i].under))
  }

  function Inits(ss: seq<Slice>): seq<Item> {
    seq(|ss|, i requires 0 <= i < |ss| => Init(ss[i].bytes))
  }

  function Step(r: Runner, e: Event): Runner {
    match e
    case Map(id, content) =>
      var s := Slice(id, content, []);
      Runner(AcceptedHold(r.hold, s), content, r.sent + Inits(AcceptedResult(r.hold, s).deliverNow))
    case Media(id, data) =>
      if r.hold.active then r.(hold := Buffered(r.hold, Slice(id, data, r.last)))
      else r.(sent := r.sent + [Fragment(data, r.last)])
    case Timer =>
      Runner(Settled(r.hold), r.last, r.sent + Inits(r.hold.pending) + Fragments(r.hold.buf))
  }

  function Run(r: Runner, es: seq<Event>): Runner
    decreases |es|
  {
    if es == [] then r else Run(Step(r, es[0]), es[1..])
  }

  const BEGINNING := Runner(IDLE, [], [])

  /** The content of the last init of a sequence of items, [] if there is none. */
  function LatestInit(items: seq<Item>): seq<byte> {
    if items == [] then []
    else
      var x := items[|items| - 1];
      if x.Init? then x.bytes else LatestInit(items[..|items| - 1])
  }

  /** Every fragment stands under the init that was last accepted when it arrived, and an init that repeats the one
      before it is empty. */
  ghost predicate GovernedButEmpty(items: seq<Item>) {
    && (forall i :: 0 <= i < |items| && items[i].Fragment? ==> LatestInit(items[..i]) == items[i].under)
    && (forall i :: 0 <= i < |items| && items[i].Init? && items[i].bytes != [] ==>
         LatestInit(items[..i]) != items[i].bytes)
  }

  predicate NoEmptyInit(items: seq<Item>) {
    forall i :: 0 <= i < |items| && items[i].Init? ==> items[i].bytes != []
  }

  /** Every fragment stands under its init, and consecutive inits differ. */
  ghost predicate Governed(items: seq<Item>) {
    GovernedButEmpty(items) && NoEmptyInit(items)
  }

  ghost predicate Consistent(r: Runner) {
    && Ok(r.hold)
    && GovernedButEmpty(r.sent)
    && r.hold.confirmed == LatestInit(r.sent)
    && r.last == (if r.hold.active then r.hold.pending[0].bytes else r.hold.confirmed)
    && forall i :: 0 <= i < |r.hold.buf| ==> r.hold.buf[i].under == r.last
  }

  /** Appending one item keeps a sequence governed if the item fits its end. */
  lemma ButEmptySnoc(items: seq<Item>, x: Item)
    requires GovernedButEmpty(items)
    requires x.Fragment? ==> LatestInit(items) == x.under
    requires x.Init? && x.bytes != [] ==> x.bytes != LatestInit(items)
    ensures GovernedButEmpty(items + [x])
    ensures LatestInit(items + [x]) == if x.Init? then x.bytes else LatestInit(items)
  {
    var all := items + [x];
    assert all[..|items|] == items;
    assert forall i :: 0 <= i < |items| ==> all[..i] == items[..i];
  }

  lemma GovernedSnoc(items: seq<Item>, x: Item)
    requires Governed(items)
    requires if x.Init? then x.bytes != [] && x.bytes != LatestInit(items) else LatestInit(items) == x.under
    ensures Governed(items + [x])
    ensures LatestInit(items + [x]) == if x.Init? then x.bytes else LatestInit(items)
  {
    hide GovernedButEmpty, LatestInit;
    ButEmptySnoc(items, x);
  }

  lemma {:induction false} GovernedFragments(items: seq<Item>, ss: seq<Slice>)
    requires GovernedButEmpty(items) && forall i :: 0 <= i < |ss| ==> ss[i].under == LatestInit(items)
    ensures GovernedButEmpty(items + Fragments(ss)) && LatestInit(items + Fragments(ss)) == LatestInit(items)
    decreases |ss|
  {
    hide GovernedButEmpty, LatestInit;
    if ss == [] {
      assert items + Fragments(ss) == items;
    } else {
      var n := |ss| - 1;
      GovernedFragments(items, ss[..n]);
      var last := Fragment(ss[n].bytes, ss[n].under);
      assert Fragments(ss) == Fragments(ss[..n]) + [last];
      Associate(items, Fragments(ss[..n]), [last]);
      ButEmptySnoc(items + Fragments(ss[..n]), last);
    }
  }

  lemma MapConsistent(r: Runner, id: nat, content: seq<byte>)
    requires Consistent(r)
    ensures Consistent(Step(r, Map(id, content)))
  {
    var s := Slice(id, content, []);
    var now := AcceptedResult(r.hold, s).deliverNow;
    DoKeepsOk(r.hold, Accept(s));
    if now == [] {
      assert r.sent + Inits(now) == r.sent;
    } else {
      assert Inits(now) == [Init(content)];
      ButEmptySnoc(r.sent, Init(content));
    }
  }

  lemma MediaConsistent(r: Runner, id: nat, data: seq<byte>)
    requires Consistent(r)
    ensures Consistent(Step(r, Media(id, data)))
  {
    if !r.hold.active {
      ButEmptySnoc(r.sent, Fragment(data, r.last));
    }
  }

  lemma TimerConsistent(r: Runner)
    requires Consistent(r)
    ensures Consistent(Step(r, Timer))
  {
    if r.hold.active {
      var init := Init(r.hold.pending[0].bytes);
      assert Inits(r.hold.pending) == [init];
      ButEmptySnoc(r.sent, init);
      GovernedFragments(r.sent + [init], r.hold.buf);
    } else {
      assert r.sent + Inits(r.hold.pending) + Fragments(r.hold.buf) == r.sent;
    }
  }

  lemma StepConsistent(r: Runner, e: Event)
    requires Consistent(r)
    ensures Consistent(Step(r, e))
  {
    match e
    case Map(id, content) => MapConsistent(r, id, content);
    case Media(id, data) => MediaConsistent(r, id, data);
    case Timer => TimerConsistent(r);
  }

  /** The step sends an empty init: one that is fetched while no init is confirmed, or one that was held and settles. */
  predicate SendsEmptyInit(r: Runner, e: Event) {
    || (e.Map? && e.content == [] && !r.hold.active && r.hold.confirmed == [])
    || (e.Timer? && r.hold.pending != [] && r.hold.pending[0].bytes == [])
  }

  predicate NeverSendsEmptyInit(r: Runner, es: seq<Event>)
    decreases |es|
  {
    es == [] || (!SendsEmptyInit(r, es[0]) && NeverSendsEmptyInit(Step(r, es[0]), es[1..]))
  }

  lemma StepSends(r: Runner, e: Event)
    requires Ok(r.hold)
    ensures NoEmptyInit(Step(r, e).sent) <==> NoEmptyInit(r.sent) && !SendsEmptyInit(r, e)
  {
    var more := Sent(r, e);
    assert Step(r, e).sent == r.sent + more;
    if SendsEmptyInit(r, e) {
      assert more[0] == Init([]);
    }
    NoEmptyInitAppend(r.sent, more);
  }

  /** What a step adds to what was sent. */
  function Sent(r: Runner, e: Event): seq<Item> {
    match e
    case Map(id, content) => Inits(AcceptedResult(r.hold, Slice(id, content, [])).deliverNow)
    case Media(id, data) => if r.hold.active then [] else [Fragment(data, r.last)]
    case Timer => Inits(r.hold.pending) + Fragments(r.hold.buf)
  }

  lemma NoEmptyInitAppend(a: seq<Item>, b: seq<Item>)
    ensures NoEmptyInit(a + b) <==> NoEmptyInit(a) && NoEmptyInit(b)
  {
    assert forall i :: 0 <= i < |a| ==> (a + b)[i] == a[i];
    assert forall i :: 0 <= i < |b| ==> (a + b)[|a| + i] == b[i];
  }

  /** Over every run, whatever the inits, each fragment stands under the init last accepted, and an init that repeats
      the one before it is empty. */
  lemma {:induction false} RunConsistent(r: Runner, es: seq<Event>)
    requires Consistent(r)
    ensures Consistent(Run(r, es))
    ensures NoEmptyInit(Run(r, es).sent) <==> NoEmptyInit(r.sent) && NeverSendsEmptyInit(r, es)
    decreases |es|
  {
    hide Step, GovernedButEmpty, NoEmptyInit, SendsEmptyInit;
    if es != [] {
      StepConsistent(r, es[0]);
      StepSends(r, es[0]);
      RunConsistent(Step(r, es[0]), es[1..]);
    }
  }

  /** Governing init, exactly: what a run sends is governed if and only if no step of it sends an empty init. */
  lemma DeliveryIsGovernedExactly(es: seq<Event>)
    ensures GovernedButEmpty(Run(BEGINNING, es).sent)
    ensures Governed(Run(BEGINNING, es).sent) <==> NeverSendsEmptyInit(BEGINNING, es)
  {
    RunConsistent(BEGINNING, es);
  }

  lemma {:induction false} NonEmptyRun(r: Runner, es: seq<Event>)
    requires forall i :: 0 <= i < |es| && es[i].Map? ==> es[i].content != []
    requires Ok(r.hold) && (r.hold.active ==> r.hold.pending[0].bytes != [])
    ensures NeverSendsEmptyInit(r, es)
    decreases |es|
  {
    if es != [] {
      var next := Step(r, es[0]);
      assert Ok(next.hold) && (next.hold.active ==> next.hold.pending[0].bytes != []);
      NonEmptyRun(next, es[1..]);
    }
  }

  /** So it is over every run with non-empty inits. */
  lemma DeliveryIsGoverned(es: seq<Event>)
    requires forall i :: 0 <= i < |es| && es[i].Map? ==> es[i].content != []
    ensures Governed(Run(BEGINNING, es).sent)
  {
    NonEmptyRun(BEGINNING, es);
    DeliveryIsGovernedExactly(es);
  }

  /** An empty init is never confirmed, so it is delivered every time it is fetched. */
  lemma EmptyInitIsRepeated()
    ensures Run(BEGINNING, [Map(0, []), Map(1, [])]).sent == [Init([]), Init([])]
  {
    var es := [Map(0, []), Map(1, [])];
    assert es[1..] == [Map(1, [])] && es[1..][1..] == [];
    var one := Step(BEGINNING, es[0]);
    assert one.sent == [Init([])];
    assert Step(one, es[1]).sent == [Init([]), Init([])];
  }

  // ---- The same, told from the events alone ----

  /** The content of the last init fetched. */
  function LastMap(es: seq<Event>): seq<byte> {
    if es == [] then []
    else
      var e := es[|es| - 1];
      if e.Map? then e.content else LastMap(es[..|es| - 1])
  }

  /** The content the reader has settled on: the first one, and at each timer the last one fetched. */
  function SettledOn(es: seq<Event>): seq<byte> {
    if es == [] then []
    else
      var before, e := es[..|es| - 1], es[|es| - 1];
      if e.Timer? then LastMap(before)
      else if e.Map? && SettledOn(before) == [] then e.content
      else SettledOn(before)
  }

  /** The media that waits for an init to settle: all that arrived since that init was first fetched, while it is not
      the one settled on. Fetching it again changes nothing; another init, or the old one, lets the media go. */
  function WaitingFor(es: seq<Event>): seq<seq<byte>> {
    if es == [] then []
    else
      var before, e := es[..|es| - 1], es[|es| - 1];
      if e.Timer? || (e.Map? && e.content != LastMap(before)) then []
      else if e.Media? && LastMap(before) != SettledOn(before) then WaitingFor(before) + [e.data]
      else WaitingFor(before)
  }

  function Under(datas: seq<seq<byte>>, init: seq<byte>): seq<Item> {
    seq(|datas|, i requires 0 <= i < |datas| => Fragment(datas[i], init))
  }

  /** What is sent: the first init at once, media at once while nothing is held, and when an init settles it and all the
      media that waited for it. */
  function History(es: seq<Event>): seq<Item> {
    if es == [] then []
    else
      var before, e := es[..|es| - 1], es[|es| - 1];
      History(before) +
      match e
      case Map(_, content) => if SettledOn(before) == [] then [Init(content)] else []
      case Media(_, data) => if LastMap(before) == SettledOn(before) then [Fragment(data, LastMap(before))] else []
      case Timer =>
        if LastMap(before) == SettledOn(before) then []
        else [Init(LastMap(before))] + Under(WaitingFor(before), LastMap(before))
  }

  /** The runner stands where the events say. */
  ghost predicate Tells(r: Runner, es: seq<Event>) {
    && Consistent(r) && r.sent == History(es) && r.last == LastMap(es) && r.hold.confirmed == SettledOn(es)
    && (r.hold.active <==> LastMap(es) != SettledOn(es))
    && |r.hold.buf| == |WaitingFor(es)|
    && forall i :: 0 <= i < |r.hold.buf| ==> r.hold.buf[i].bytes == WaitingFor(es)[i]
  }

  lemma FragmentsUnder(ss: seq<Slice>, datas: seq<seq<byte>>, init: seq<byte>)
    requires |ss| == |datas| && forall i :: 0 <= i < |ss| ==> ss[i].bytes == datas[i] && ss[i].under == init
    ensures Fragments(ss) == Under(datas, init)
  {
  }

  lemma MapTells(r: Runner, es: seq<Event>, id: nat, content: seq<byte>)
    requires Tells(r, es)
    ensures Tells(Step(r, Map(id, content)), es + [Map(id, content)])
  {
    hide GovernedButEmpty, History, LatestInit;
    var all := es + [Map(id, content)];
    assert all[..|all| - 1] == es && all[|all| - 1] == Map(id, content);
    MapConsistent(r, id, content);
    HistoryNext(es, Map(id, content));
    var now := AcceptedResult(r.hold, Slice(id, content, [])).deliverNow;
    assert Inits(now) == if now == [] then [] else [Init(content)];
  }

  lemma HistoryNext(es: seq<Event>, e: Event)
    ensures History(es + [e]) == History(es) +
      match e
      case Map(_, content) => if SettledOn(es) == [] then [Init(content)] else []
      case Media(_, data) => if LastMap(es) == SettledOn(es) then [Fragment(data, LastMap(es))] else []
      case Timer =>
        if LastMap(es) == SettledOn(es) then [] else [Init(LastMap(es))] + Under(WaitingFor(es), LastMap(es))
  {
    assert (es + [e])[..|es|] == es;
  }

  lemma MediaTells(r: Runner, es: seq<Event>, id: nat, data: seq<byte>)
    requires Tells(r, es)
    ensures Tells(Step(r, Media(id, data)), es + [Media(id, data)])
  {
    hide GovernedButEmpty, History, LatestInit;
    var all := es + [Media(id, data)];
    assert all[..|all| - 1] == es && all[|all| - 1] == Media(id, data);
    MediaConsistent(r, id, data);
    HistoryNext(es, Media(id, data));
  }

  lemma TimerTells(r: Runner, es: seq<Event>)
    requires Tells(r, es)
    ensures Tells(Step(r, Timer), es + [Timer])
  {
    hide GovernedButEmpty, History, LatestInit;
    var all := es + [Timer];
    assert all[..|all| - 1] == es && all[|all| - 1] == Timer;
    TimerConsistent(r);
    HistoryNext(es, Timer);
    if r.hold.active {
      FragmentsUnder(r.hold.buf, WaitingFor(es), LastMap(es));
      assert Inits(r.hold.pending) == [Init(LastMap(es))];
      Associate(r.sent, [Init(LastMap(es))], Fragments(r.hold.buf));
    } else {
      assert r.sent + Inits(r.hold.pending) + Fragments(r.hold.buf) == r.sent + [];
    }
  }

  lemma {:induction false} RunTells(r: Runner, done: seq<Event>, es: seq<Event>)
    requires Tells(r, done)
    ensures Tells(Run(r, es), done + es)
    decreases |es|
  {
    hide Tells, Step;
    if es == [] {
      assert done + es == done;
    } else {
      match es[0] {
        case Map(id, content) => MapTells(r, done, id, content);
        case Media(id, data) => MediaTells(r, done, id, data);
        case Timer => TimerTells(r, done);
      }
      RunTells(Step(r, es[0]), done + [es[0]], es[1..]);
      assert done + [es[0]] + es[1..] == done + es;
    }
  }

  /** Over every run exactly this is sent, and exactly the media that waits is held: nothing that waits for the init
      that settles is lost, and nothing of an init that was given up is sent. */
  lemma RunIsHistory(es: seq<Event>)
    ensures Run(BEGINNING, es).sent == History(es)
    ensures var held := Run(BEGINNING, es).hold.buf;
      |held| == |WaitingFor(es)| && forall i :: 0 <= i < |held| ==> held[i].bytes == WaitingFor(es)[i]
  {
    BeginningTells();
    hide Tells, Run, History, WaitingFor;
    RunTells(BEGINNING, [], es);
    assert [] + es == es;
    TellsSent(Run(BEGINNING, es), es);
  }

  lemma BeginningTells()
    ensures Tells(BEGINNING, [])
  {
  }

  lemma TellsSent(r: Runner, es: seq<Event>)
    requires Tells(r, es)
    ensures r.sent == History(es) && |r.hold.buf| == |WaitingFor(es)|
    ensures forall i :: 0 <= i < |r.hold.buf| ==> r.hold.buf[i].bytes == WaitingFor(es)[i]
  {
  }
}
