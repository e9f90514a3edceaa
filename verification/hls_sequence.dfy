/** Which segment numbers an HLS runner takes, loses and prefetches, for every sequence of playlist windows. */
module HlsSequence {
  import opened Collections

  const PREFETCH_AHEAD := 2
  const MAX_PLAYLIST_FAILURES := 3
  const REFRESH_EVERY := 3

  /** A playlist window: segment k has number base + k. */
  datatype Window = Window(base: int, uris: seq<string>)

  /** What happens at a segment of the window. Due or not, a held init that settles there may be cancelled while it is
      sent. If the segment is due, it is not reached (init fetch or cancellation), its fetch fails, or it is taken, and
      then sent or dropped on cancellation. `fatal` ends the runner, and so does a cancelled settling. */
  datatype Outcome = SettleCancelled | Interrupted(fatal: bool) | FetchFailed(fatal: bool) | Fetched(sent: bool)

  /** `Lost` reports the numbers in [from, to). */
  datatype Event = Taken(number: int, uri: string) | Lost(from: int, to: int) | Reset(to: int)

  datatype Request = Request(number: int, uri: string)

  /** `failures` counts failed segment rounds in a row, `lastWait` is the last base that was waited for. */
  datatype State = State(next: int, prevBase: int, failures: nat, log: seq<Event>, requests: seq<Request>,
                         playlistFailures: nat, lastWait: int)

  /** How a fetch of the playlist ends; without a URL left, or cancelled, the runner ends too. */
  datatype Fetch = NoUrl | Cancelled | Failed | Got(w: Window)

  datatype Refresh = NotRefreshed | Refreshed(pl: Fetch)

  /** Everything the outside decides in one poll: the fetch and its immediate retry, whether the backoff or the sync
      wait is cancelled, the refresh of the URL after every third failed round, and the segments. */
  datatype Poll = Poll(first: Fetch, retry: Fetch, backoffCancelled: bool, refresh: Refresh, waitCancelled: bool,
                       segments: int -> Outcome)

  /** What a poll has to work with. */
  datatype Obtained = End(s: State) | Skip(s: State) | Use(s: State, w: Window)

  function ShouldResetSequenceOnRollback(prevBase: int, base: int, count: nat, next: int): bool {
    count > 0 && base < next && next >= base + count && base < prevBase
  }

  function Jumped(s: State, w: Window): State {
    if w.base > s.next then s.(next := w.base, log := s.log + [Lost(s.next, w.base)]) else s
  }

  function RolledBack(s: State, w: Window): State {
    if ShouldResetSequenceOnRollback(s.prevBase, w.base, |w.uris|, s.next)
    then s.(next := w.base, log := s.log + [Reset(w.base)])
    else s
  }

  function EndOf(w: Window): int {
    w.base + |w.uris|
  }

  function RequestFor(w: Window, number: int): Request
    requires w.base <= number < EndOf(w)
  {
    Request(number, w.uris[number - w.base])
  }

  /** One request for each number in [from, to), in order. */
  function Requests(w: Window, lo: int, hi: int): (r: seq<Request>)
    requires w.base <= lo && hi <= EndOf(w)
    decreases hi - lo
  {
    if lo >= hi then [] else Requests(w, lo, hi - 1) + [RequestFor(w, hi - 1)]
  }

  function Min(a: int, b: int): int {
    if a < b then a else b
  }

  /** What one segment leaves: the round ends, or goes on with `horizon` as the next number to prefetch. */
  datatype Segmented = Ended(s: State, running: bool) | Continued(s: State, horizon: int)

  function Asked(s: State, w: Window, horizon: int): State
    requires w.base <= horizon
  {
    if horizon < EndOf(w) then s.(requests := s.requests + [RequestFor(w, horizon)]) else s
  }

  function TookOne(s: State, number: int, uri: string): State {
    s.(next := number + 1, log := s.log + [Taken(number, uri)])
  }

  function Segment(s: State, w: Window, fetch: int -> Outcome, i: nat, horizon: int): (r: Segmented)
    requires i < |w.uris| && w.base <= horizon
    ensures r.Continued? ==> horizon <= r.horizon
  {
    var number := w.base + i;
    var due := fetch(number);
    if due.SettleCancelled? then Ended(s, false)
    else if number < s.next then Continued(s, horizon)
    else if due.Interrupted? then Ended(s, !due.fatal)
    else
      var asked := Asked(s, w, horizon);
      if due.FetchFailed? then Ended(asked.(failures := if due.fatal then s.failures else s.failures + 1), !due.fatal)
      else
        var taken := TookOne(asked, number, w.uris[i]);
        if due.sent then Continued(taken, if horizon < EndOf(w) then horizon + 1 else horizon) else Ended(taken, false)
  }

  /** The state after the segments from index i on. */
  function Delivered(s: State, w: Window, fetch: int -> Outcome, i: nat, horizon: int): (r: (State, bool))
    requires i <= |w.uris| && w.base <= horizon
    decreases |w.uris| - i
  {
    if i == |w.uris| then (s, true)
    else
      match Segment(s, w, fetch, i, horizon)
      case Ended(done, running) => (done, running)
      case Continued(after, next) => Delivered(after, w, fetch, i + 1, next)
  }

  function Ahead(s: State): nat {
    if s.failures > 0 then 0 else PREFETCH_AHEAD
  }

  function Primed(s: State, w: Window): State
    requires w.base <= s.next
  {
    s.(requests := s.requests + Requests(w, s.next, Min(s.next + Ahead(s) + 1, EndOf(w))))
  }

  function Resynced(s: State, w: Window): (r: State)
    ensures w.base <= r.next
  {
    RolledBack(Jumped(s, w), w)
  }

  predicate ShouldApplyManifestSyncWait(base: int, next: int, lastWait: int) {
    next == base && base > lastWait
  }

  predicate Waits(s: State, w: Window) {
    w.uris != [] && ShouldApplyManifestSyncWait(w.base, s.next, s.lastWait)
  }

  function Waited(s: State, w: Window): (r: State)
    ensures r.next == s.next && r.log == s.log && r.requests == s.requests
  {
    if Waits(s, w) then s.(lastWait := w.base) else s
  }

  /** The work on one window; false ends the runner. */
  function Tick(s: State, w: Window, waitCancelled: bool, fetch: int -> Outcome): (State, bool) {
    var synced := Resynced(s, w);
    if Waits(synced, w) && waitCancelled then (synced, false)
    else
      var ready := Waited(synced, w);
      var (done, running) := Delivered(Primed(ready, w), w, fetch, 0, ready.next + Ahead(ready) + 1);
      if !running then (done, false)
      else (done.(failures := if done.next > ready.next then 0 else done.failures, prevBase := w.base), true)
  }

  /** After failed rounds: back off, and after every third one look at a new URL first. */
  function Settled(s: State, p: Poll, w: Window): Obtained {
    if s.failures == 0 then Use(s, w)
    else if p.backoffCancelled then End(s)
    else if s.failures % REFRESH_EVERY != 0 || p.refresh.NotRefreshed? then Use(s, w)
    else if p.refresh.pl.NoUrl? || p.refresh.pl.Cancelled? then End(s)
    else if p.refresh.pl.Failed? then Skip(s)
    else Use(s, p.refresh.pl.w)
  }

  function Obtain(s: State, p: Poll): Obtained {
    if p.first.Got? then Settled(s.(playlistFailures := 0), p, p.first.w)
    else if !p.first.Failed? then End(s)
    else
      var once := s.(playlistFailures := s.playlistFailures + 1);
      if p.retry.Got? then Settled(once.(playlistFailures := 0), p, p.retry.w)
      else if !p.retry.Failed? then End(once)
      else
        var twice := once.(playlistFailures := once.playlistFailures + 1);
        if twice.playlistFailures >= MAX_PLAYLIST_FAILURES then End(twice) else Skip(twice)
  }

  function Polled(s: State, p: Poll): (State, bool) {
    var o := Obtain(s, p);
    if o.End? then (o.s, false)
    else if o.Skip? then (o.s, true)
    else Tick(o.s, o.w, p.waitCancelled, p.segments)
  }

  class StreamRunner {
    var nextSeq: int
    var prevBaseSeq: int
    var segmentFailures: nat
    var playlistFailures: nat
    var lastSyncWaitBaseSeq: int
    var log: seq<Event>
    var requests: seq<Request>

    constructor (nextSeq: int, prevBaseSeq: int)
      ensures View() == State(nextSeq, prevBaseSeq, 0, [], [], 0, -1)
    {
      this.nextSeq, this.prevBaseSeq, segmentFailures, log, requests := nextSeq, prevBaseSeq, 0, [], [];
      playlistFailures, lastSyncWaitBaseSeq := 0, -1;
    }

    ghost function View(): State
      reads this
    {
      State(nextSeq, prevBaseSeq, segmentFailures, log, requests, playlistFailures, lastSyncWaitBaseSeq)
    }

    method OnTick(p: Poll) returns (running: bool)
      modifies this
      ensures (View(), running) == Polled(old(View()), p)
    {
      hide Tick, Settled;
      var ended, used, w := FetchPlaylist(p);
      if ended {
        return false;
      }
      if !used {
        return true;
      }
      ended, used, w := RefreshAfterFailures(p, w);
      if ended {
        return false;
      }
      if !used {
        return true;
      }
      running := WorkOnWindow(w, p.waitCancelled, p.segments);
    }

    /** The playlist, fetched at once or on the immediate retry. */
    method FetchPlaylist(p: Poll) returns (ended: bool, used: bool, w: Window)
      modifies this`playlistFailures
      ensures !ended && used ==> Obtain(old(View()), p) == Settled(View(), p, w)
      ensures ended ==> Obtain(old(View()), p) == End(View())
      ensures !ended && !used ==> Obtain(old(View()), p) == Skip(View())
    {
      hide Settled;
      w := Window(0, []);
      var pl := p.first;
      if pl.NoUrl? || pl.Cancelled? {
        return true, false, w;
      }
      if pl.Failed? {
        playlistFailures := playlistFailures + 1;
        pl := p.retry;
        if pl.NoUrl? || pl.Cancelled? {
          return true, false, w;
        }
        if pl.Failed? {
          playlistFailures := playlistFailures + 1;
          return playlistFailures >= MAX_PLAYLIST_FAILURES, false, w;
        }
      }
      playlistFailures := 0;
      return false, true, pl.w;
    }

    method RefreshAfterFailures(p: Poll, pl: Window) returns (ended: bool, used: bool, w: Window)
      ensures Settled(View(), p, pl) == if ended then End(View()) else if used then Use(View(), w) else Skip(View())
    {
      w := pl;
      if segmentFailures > 0 {
        if p.backoffCancelled {
          return true, false, w;
        }
        if segmentFailures % REFRESH_EVERY == 0 && p.refresh.Refreshed? {
          var refreshed := p.refresh.pl;
          if refreshed.NoUrl? || refreshed.Cancelled? {
            return true, false, w;
          }
          if refreshed.Failed? {
            return false, false, w;
          }
          w := refreshed.w;
        }
      }
      return false, true, w;
    }

    method WorkOnWindow(w: Window, waitCancelled: bool, fetch: int -> Outcome) returns (running: bool)
      modifies this
      ensures (View(), running) == Tick(old(View()), w, waitCancelled, fetch)
    {
      hide Delivered, Segment;
      if w.base > nextSeq {
        log := log + [Lost(nextSeq, w.base)];
        nextSeq := w.base;
      }
      if ShouldResetSequenceOnRollback(prevBaseSeq, w.base, |w.uris|, nextSeq) {
        nextSeq := w.base;
        log := log + [Reset(w.base)];
      }
      assert View() == Resynced(old(View()), w);
      if |w.uris| > 0 && ShouldApplyManifestSyncWait(w.base, nextSeq, lastSyncWaitBaseSeq) {
        if waitCancelled {
          return false;
        }
        lastSyncWaitBaseSeq := w.base;
      }
      running := DeliverWindow(w, fetch);
      if running {
        prevBaseSeq := w.base;
      }
    }

    method DeliverWindow(w: Window, fetch: int -> Outcome) returns (running: bool)
      requires w.base <= nextSeq
      modifies this
      ensures var s := old(View());
        var (done, go) := Delivered(Primed(s, w), w, fetch, 0, s.next + Ahead(s) + 1);
        && running == go
        && View() == (if go && done.next > s.next then done.(failures := 0) else done)
    {
      hide Segment;
      var maxSeqInWindow := w.base + |w.uris| - 1;
      var prefetchAhead := if segmentFailures > 0 then 0 else PREFETCH_AHEAD;
      Prime(w, prefetchAhead, maxSeqInWindow);
      assert View() == Primed(old(View()), w);
      var nextPrefetchSeq := nextSeq + prefetchAhead + 1;
      var started, i := nextSeq, 0;
      ghost var result := Delivered(View(), w, fetch, 0, nextPrefetchSeq);
      while i < |w.uris|
        invariant 0 <= i <= |w.uris| && w.base <= nextPrefetchSeq && started <= nextSeq
        invariant Delivered(View(), w, fetch, i, nextPrefetchSeq) == result
      {
        var ended;
        ended, running, nextPrefetchSeq := DeliverSegment(w, fetch, i, nextPrefetchSeq);
        if ended && !running {
          return false;
        }
        if ended {
          break;
        }
        i := i + 1;
      }
      running := true;
      if nextSeq > started {
        segmentFailures := 0;
      }
    }

    /** One round of the loop; `ended` leaves it. */
    method DeliverSegment(w: Window, fetch: int -> Outcome, i: nat, horizon: int)
      returns (ended: bool, running: bool, nextPrefetchSeq: int)
      requires i < |w.uris| && w.base <= horizon
      modifies this
      ensures nextSeq >= old(nextSeq)
      ensures Segment(old(View()), w, fetch, i, horizon)
        == if ended then Ended(View(), running) else Continued(View(), nextPrefetchSeq)
    {
      nextPrefetchSeq := horizon;
      var segSeq := w.base + i;
      var due := fetch(segSeq);
      if due.SettleCancelled? {
        return true, false, nextPrefetchSeq;
      }
      if segSeq < nextSeq {
        return false, true, nextPrefetchSeq;
      }
      if due.Interrupted? {
        return true, !due.fatal, nextPrefetchSeq;
      }
      if nextPrefetchSeq <= w.base + |w.uris| - 1 {
        requests := requests + [Request(nextPrefetchSeq, w.uris[nextPrefetchSeq - w.base])];
        nextPrefetchSeq := nextPrefetchSeq + 1;
      }
      if due.FetchFailed? {
        if !due.fatal {
          segmentFailures := segmentFailures + 1;
        }
        return true, !due.fatal, nextPrefetchSeq;
      }
      nextSeq := segSeq + 1;
      log := log + [Taken(segSeq, w.uris[i])];
      return !due.sent, due.sent, nextPrefetchSeq;
    }

    method Prime(w: Window, prefetchAhead: nat, maxSeqInWindow: int)
      requires w.base <= nextSeq && maxSeqInWindow == EndOf(w) - 1
      modifies this`requests
      ensures requests == old(requests) + Requests(w, nextSeq, Min(nextSeq + prefetchAhead + 1, EndOf(w)))
    {
      if nextSeq <= maxSeqInWindow {
        var primeEndSeq := nextSeq + prefetchAhead;
        if primeEndSeq > maxSeqInWindow {
          primeEndSeq := maxSeqInWindow;
        }
        for number := nextSeq to primeEndSeq + 1
          invariant requests == old(requests) + Requests(w, nextSeq, number)
        {
          requests := requests + [Request(number, w.uris[number - w.base])];
        }
      }
    }
  }

  /** Where a reader of the log stands that started at `start`. */
  function Cursor(log: seq<Event>, start: int): int {
    if log == [] then start
    else
      var e := log[|log| - 1];
      if e.Taken? then e.number + 1 else e.to
  }

  /** Every event starts where the one before it ended: a taken segment is the next number, a loss starts at the next
      number and is not empty, and only a reset moves back. */
  ghost predicate Contiguous(log: seq<Event>, start: int) {
    log == []
    || (var before, e := log[..|log| - 1], log[|log| - 1];
        && Contiguous(before, start)
        && (match e
            case Taken(number, _) => number == Cursor(before, start)
            case Lost(lo, hi) => lo == Cursor(before, start) && lo < hi
            case Reset(t) => t < Cursor(before, start)))
  }

  /** The polls of a run, until one ends the runner. */
  function Run(s: State, polls: seq<Poll>): State
    decreases |polls|
  {
    if polls == [] then s
    else
      var (next, running) := Polled(s, polls[0]);
      if running then Run(next, polls[1..]) else next
  }

  ghost predicate Numbered(s: State, start: int) {
    Contiguous(s.log, start) && Cursor(s.log, start) == s.next
  }

  lemma NumberedAfter(s: State, start: int, e: Event)
    requires Numbered(s, start)
    requires match e
      case Taken(number, _) => number == s.next
      case Lost(lo, hi) => lo == s.next && lo < hi
      case Reset(t) => t < s.next
    ensures Contiguous(s.log + [e], start)
    ensures Cursor(s.log + [e], start) == (if e.Taken? then e.number + 1 else e.to)
  {
    assert (s.log + [e])[..|s.log|] == s.log;
  }

  lemma ResyncedIsNumbered(s: State, w: Window, start: int)
    requires Numbered(s, start)
    ensures Numbered(Resynced(s, w), start)
  {
    if w.base > s.next {
      NumberedAfter(s, start, Lost(s.next, w.base));
    }
    var j := Jumped(s, w);
    if ShouldResetSequenceOnRollback(j.prevBase, w.base, |w.uris|, j.next) {
      NumberedAfter(j, start, Reset(w.base));
    }
  }

  lemma SegmentIsNumbered(s: State, w: Window, fetch: int -> Outcome, i: nat, horizon: int, start: int)
    requires i < |w.uris| && w.base <= horizon && Numbered(s, start) && s.next >= w.base + i
    ensures var r := Segment(s, w, fetch, i, horizon);
      Numbered(r.s, start) && (r.Continued? ==> r.s.next >= w.base + i + 1)
  {
    hide Contiguous, Cursor;
    NumberedAfter(s, start, Taken(s.next, w.uris[i]));
  }

  lemma {:induction false} DeliveredIsNumbered(
      s: State, w: Window, fetch: int -> Outcome, i: nat, horizon: int, start: int)
    requires i <= |w.uris| && w.base <= horizon && Numbered(s, start) && s.next >= w.base + i
    ensures Numbered(Delivered(s, w, fetch, i, horizon).0, start)
    decreases |w.uris| - i
  {
    hide Segment, Numbered;
    if i < |w.uris| {
      SegmentIsNumbered(s, w, fetch, i, horizon, start);
      var r := Segment(s, w, fetch, i, horizon);
      if r.Continued? {
        DeliveredIsNumbered(r.s, w, fetch, i + 1, r.horizon, start);
      }
    }
  }

  lemma TickIsNumbered(s: State, w: Window, waitCancelled: bool, fetch: int -> Outcome, start: int)
    requires Numbered(s, start)
    ensures Numbered(Tick(s, w, waitCancelled, fetch).0, start)
  {
    hide Delivered, Contiguous, Cursor;
    ResyncedIsNumbered(s, w, start);
    var ready := Waited(Resynced(s, w), w);
    DeliveredIsNumbered(Primed(ready, w), w, fetch, 0, ready.next + Ahead(ready) + 1, start);
  }

  lemma ObtainKeepsNumbers(s: State, p: Poll)
    ensures var o := Obtain(s, p).s; o.next == s.next && o.log == s.log && o.prevBase == s.prevBase
    ensures Obtain(s, p).s.requests == s.requests
    ensures Obtain(s, p).Use? ==> Obtain(s, p).w in Windows(p)
  {
  }

  /** The windows a poll may work on. */
  function Windows(p: Poll): seq<Window> {
    (if p.first.Got? then [p.first.w] else [])
    + (if p.retry.Got? then [p.retry.w] else [])
    + (if p.refresh.Refreshed? && p.refresh.pl.Got? then [p.refresh.pl.w] else [])
  }

  /** Over every run of polls, with any playlist windows, fetch failures, refreshes and cancellations, each taken
      segment is exactly the next number and the log accounts for every number: taken, reported lost, or given up to a
      rollback reset. */
  lemma {:induction false} RunIsNumbered(s: State, polls: seq<Poll>, start: int)
    requires Numbered(s, start)
    ensures Numbered(Run(s, polls), start)
    decreases |polls|
  {
    hide Obtain, Tick, Contiguous, Cursor;
    if polls != [] {
      ObtainKeepsNumbers(s, polls[0]);
      var o := Obtain(s, polls[0]);
      if o.Use? {
        TickIsNumbered(o.s, o.w, polls[0].waitCancelled, polls[0].segments, start);
      }
      var (next, running) := Polled(s, polls[0]);
      if running {
        RunIsNumbered(next, polls[1..], start);
      }
    }
  }

  function TakenCount(log: seq<Event>): nat {
    if log == [] then 0 else TakenCount(log[..|log| - 1]) + (if log[|log| - 1].Taken? then 1 else 0)
  }

  function LostCount(log: seq<Event>): int {
    if log == [] then 0
    else
      var e := log[|log| - 1];
      LostCount(log[..|log| - 1]) + (if e.Lost? then e.to - e.from else 0)
  }

  ghost predicate ResetFree(log: seq<Event>) {
    forall k :: 0 <= k < |log| ==> !log[k].Reset?
  }

  /** Between rollback resets the segments taken and the segments reported lost are the growth of nextSeq, and no
      number is taken twice. */
  lemma {:induction false} TakenPlusLostIsGrowth(log: seq<Event>, start: int)
    requires Contiguous(log, start) && ResetFree(log)
    ensures TakenCount(log) + LostCount(log) == Cursor(log, start) - start
    ensures forall k :: 0 <= k < |log| && log[k].Taken? ==> start <= log[k].number < Cursor(log, start)
    ensures forall k, l :: 0 <= k < l < |log| && log[k].Taken? && log[l].Taken? ==> log[k].number < log[l].number
  {
    if log != [] {
      var before := log[..|log| - 1];
      assert forall k :: 0 <= k < |before| ==> before[k] == log[k];
      TakenPlusLostIsGrowth(before, start);
      assert start <= Cursor(before, start) by {
        CursorNotBefore(before, start);
      }
    }
  }

  lemma {:induction false} CursorNotBefore(log: seq<Event>, start: int)
    requires Contiguous(log, start) && ResetFree(log)
    ensures start <= Cursor(log, start)
  {
    if log != [] {
      CursorNotBefore(log[..|log| - 1], start);
    }
  }

  /** The requests from index `first` on are for lo, lo + 1, ..., each under its own URI in the window. */
  ghost predicate AskedFrom(requests: seq<Request>, w: Window, first: nat, lo: int) {
    && first <= |requests|
    && (forall k :: first <= k < |requests| ==>
         w.base <= lo + k - first < EndOf(w) && requests[k] == RequestFor(w, lo + k - first))
  }

  lemma {:induction false} RequestsAreInOrder(w: Window, lo: int, hi: int)
    requires w.base <= lo && hi <= EndOf(w)
    ensures |Requests(w, lo, hi)| == if lo <= hi then hi - lo else 0
    ensures forall k :: 0 <= k < |Requests(w, lo, hi)| ==> Requests(w, lo, hi)[k] == RequestFor(w, lo + k)
    decreases hi - lo
  {
    if lo < hi {
      RequestsAreInOrder(w, lo, hi - 1);
    }
  }

  /** Between segments: requests reach from lo to the horizon, and nextSeq has not passed them. */
  ghost predicate Asking(s: State, w: Window, i: nat, horizon: int, first: nat, lo: int) {
    && w.base <= lo <= s.next && w.base <= horizon && s.next >= w.base + i
    && AskedFrom(s.requests, w, first, lo)
    && (s.next < EndOf(w) ==> lo + |s.requests| - first == Min(horizon, EndOf(w)) && s.next < horizon)
  }

  lemma AskingOne(s: State, w: Window, horizon: int, first: nat, lo: int)
    requires w.base <= lo && w.base <= horizon && AskedFrom(s.requests, w, first, lo)
    requires lo + |s.requests| - first == Min(horizon, EndOf(w))
    ensures AskedFrom(Asked(s, w, horizon).requests, w, first, lo)
    ensures |Asked(s, w, horizon).requests| == |s.requests| + if horizon < EndOf(w) then 1 else 0
  {
  }

  lemma SegmentAsks(s: State, w: Window, fetch: int -> Outcome, i: nat, horizon: int, first: nat, lo: int)
    requires i < |w.uris| && Asking(s, w, i, horizon, first, lo)
    ensures var r := Segment(s, w, fetch, i, horizon);
      && AskedFrom(r.s.requests, w, first, lo) && |s.requests| <= |r.s.requests|
      && s.next <= r.s.next && (r.s.next == s.next || r.s.next <= lo + |r.s.requests| - first)
      && (r.Continued? ==> Asking(r.s, w, i + 1, r.horizon, first, lo))
  {
    if s.next < EndOf(w) {
      AskingOne(s, w, horizon, first, lo);
    }
    hide AskedFrom, Asked;
  }

  lemma {:induction false} DeliveredAsks(
      s: State, w: Window, fetch: int -> Outcome, i: nat, horizon: int, first: nat, lo: int)
    requires i <= |w.uris| && Asking(s, w, i, horizon, first, lo)
    ensures var done := Delivered(s, w, fetch, i, horizon).0;
      && AskedFrom(done.requests, w, first, lo) && |s.requests| <= |done.requests|
      && (done.next == s.next || done.next <= lo + |done.requests| - first)
    decreases |w.uris| - i
  {
    hide Segment, AskedFrom;
    if i < |w.uris| {
      SegmentAsks(s, w, fetch, i, horizon, first, lo);
      var r := Segment(s, w, fetch, i, horizon);
      if r.Continued? {
        DeliveredAsks(r.s, w, fetch, i + 1, r.horizon, first, lo);
      }
    }
  }

  /** The work on a window asks for one contiguous range of it, from the resynchronised next number on, and every
      segment it takes was asked for. */
  lemma TickAsksInOrder(s: State, w: Window, waitCancelled: bool, fetch: int -> Outcome)
    ensures var done := Tick(s, w, waitCancelled, fetch).0;
      var lo := Resynced(s, w).next;
      && AskedFrom(done.requests, w, |s.requests|, lo)
      && (done.next == lo || done.next <= lo + |done.requests| - |s.requests|)
  {
    hide Delivered;
    var ready := Waited(Resynced(s, w), w);
    PrimedAsks(ready, w);
    DeliveredAsks(Primed(ready, w), w, fetch, 0, ready.next + Ahead(ready) + 1, |s.requests|, ready.next);
  }

  lemma PrimedAsks(s: State, w: Window)
    requires w.base <= s.next
    ensures var r := Primed(s, w).requests;
      && AskedFrom(r, w, |s.requests|, s.next)
      && (s.next < EndOf(w) ==> s.next + |r| - |s.requests| == Min(s.next + Ahead(s) + 1, EndOf(w)))
  {
    var hi := Min(s.next + Ahead(s) + 1, EndOf(w));
    RequestsAreInOrder(w, s.next, hi);
    forall k | |s.requests| <= k < |Primed(s, w).requests|
      ensures Primed(s, w).requests[k] == Requests(w, s.next, hi)[k - |s.requests|]
    {
    }
  }

  /** What a delivery logs: segments of the window that were due, under their own URIs. */
  ghost predicate TakenFrom(w: Window, lo: int, events: seq<Event>) {
    forall k :: 0 <= k < |events| ==>
      events[k].Taken? && w.base <= lo <= events[k].number < EndOf(w)
      && events[k].uri == w.uris[events[k].number - w.base]
  }

  lemma SegmentTakes(s: State, w: Window, fetch: int -> Outcome, i: nat, horizon: int)
    requires i < |w.uris| && w.base <= s.next && w.base <= horizon
    ensures var r := Segment(s, w, fetch, i, horizon).s;
      s.log <= r.log && s.next <= r.next && TakenFrom(w, s.next, r.log[|s.log|..])
  {
    TakeDrop(s.log, [Taken(w.base + i, w.uris[i])]);
    assert s.log[|s.log|..] == [];
  }

  lemma {:induction false} DeliveredTakes(s: State, w: Window, fetch: int -> Outcome, i: nat, horizon: int)
    requires i <= |w.uris| && w.base <= s.next && w.base <= horizon
    ensures var done := Delivered(s, w, fetch, i, horizon).0;
      s.log <= done.log && s.next <= done.next && TakenFrom(w, s.next, done.log[|s.log|..])
    decreases |w.uris| - i
  {
    hide Segment, TakenFrom;
    if i == |w.uris| {
      TakenNothing(w, s.next, s.log);
    } else {
      SegmentTakes(s, w, fetch, i, horizon);
      var r := Segment(s, w, fetch, i, horizon);
      if r.Continued? {
        DeliveredTakes(r.s, w, fetch, i + 1, r.horizon);
        TakenThen(w, s.next, r.s.next, s.log, r.s.log, Delivered(r.s, w, fetch, i + 1, r.horizon).0.log);
      }
    }
  }

  lemma TakenNothing(w: Window, lo: int, log: seq<Event>)
    ensures TakenFrom(w, lo, log[|log|..])
  {
  }

  lemma TakenThen(w: Window, lo: int, mid: int, a: seq<Event>, b: seq<Event>, c: seq<Event>)
    requires w.base <= lo <= mid && a <= b <= c
    requires TakenFrom(w, lo, b[|a|..]) && TakenFrom(w, mid, c[|b|..])
    ensures TakenFrom(w, lo, c[|a|..])
  {
    assert c[|a|..] == b[|a|..] + c[|b|..];
  }

  /** The work on a window takes only due segments of it, each under its own URI. */
  lemma TickTakesDue(s: State, w: Window, waitCancelled: bool, fetch: int -> Outcome)
    ensures var ready := Resynced(s, w);
      var log := Tick(s, w, waitCancelled, fetch).0.log;
      ready.log <= log && TakenFrom(w, ready.next, log[|ready.log|..])
  {
    var ready := Waited(Resynced(s, w), w);
    DeliveredTakes(Primed(ready, w), w, fetch, 0, ready.next + Ahead(ready) + 1);
  }

  // ---- Exactly what a poll takes ----

  /** The first number from n on that is not fetched and sent, or the end of the window. */
  function FirstUnsent(w: Window, fetch: int -> Outcome, n: int): (r: int)
    requires n <= EndOf(w)
    ensures n <= r <= EndOf(w)
    ensures forall k :: n <= k < r ==> fetch(k) == Fetched(true)
    ensures r < EndOf(w) ==> fetch(r) != Fetched(true)
    decreases EndOf(w) - n
  {
    if n < EndOf(w) && fetch(n) == Fetched(true) then FirstUnsent(w, fetch, n + 1) else n
  }

  /** The segments from lo to hi, taken in order. */
  function TakenRun(w: Window, lo: int, hi: int): (r: seq<Event>)
    requires w.base <= lo && hi <= EndOf(w)
    ensures lo <= hi ==> |r| == hi - lo
    ensures forall i :: 0 <= i < |r| ==> w.base <= lo + i < hi && r[i] == Taken(lo + i, w.uris[lo + i - w.base])
    decreases hi - lo
  {
    if lo >= hi then [] else TakenRun(w, lo, hi - 1) + [Taken(hi - 1, w.uris[hi - 1 - w.base])]
  }

  /** A settling is cancelled at a segment that is skipped. */
  predicate CancelledBefore(w: Window, fetch: int -> Outcome, lo: int, next: int) {
    exists n :: lo <= n < Min(next, EndOf(w)) && fetch(n).SettleCancelled?
  }

  /** The fetch of n was started: it failed, or was taken and not sent. */
  predicate Reached(w: Window, fetch: int -> Outcome, n: int) {
    n < EndOf(w) && (fetch(n).FetchFailed? || fetch(n).Fetched?)
  }

  /** Where nextSeq stands when the delivery ends at n: behind it if it was taken and not sent. */
  function TakenEnd(w: Window, fetch: int -> Outcome, n: int): int {
    if n < EndOf(w) && fetch(n).Fetched? then n + 1 else n
  }

  /** What the delivery does when no settling is cancelled at a skipped segment. */
  function Taking(s: State, w: Window, fetch: int -> Outcome, horizon: int): (State, bool)
    requires w.base <= s.next && w.base <= horizon
  {
    if s.next >= EndOf(w) then (s, true)
    else
      var n := FirstUnsent(w, fetch, s.next);
      var asked := horizon + n - s.next + (if Reached(w, fetch, n) then 1 else 0);
      (s.(next := TakenEnd(w, fetch, n),
          log := s.log + TakenRun(w, s.next, TakenEnd(w, fetch, n)),
          requests := s.requests + Requests(w, horizon, Min(asked, EndOf(w))),
          failures := if n < EndOf(w) && fetch(n) == FetchFailed(false) then s.failures + 1 else s.failures),
       n == EndOf(w) || fetch(n) == Interrupted(false) || fetch(n) == FetchFailed(false))
  }

  lemma {:induction false} RequestsFirst(w: Window, lo: int, hi: int)
    requires w.base <= lo < hi <= EndOf(w)
    ensures Requests(w, lo, hi) == [RequestFor(w, lo)] + Requests(w, lo + 1, hi)
    decreases hi - lo
  {
    if lo + 1 < hi {
      RequestsFirst(w, lo, hi - 1);
    }
  }

  lemma TakenFirst(w: Window, lo: int, hi: int)
    requires w.base <= lo < hi <= EndOf(w)
    ensures TakenRun(w, lo, hi) == [Taken(lo, w.uris[lo - w.base])] + TakenRun(w, lo + 1, hi)
  {
  }

  lemma NothingAsked(w: Window, lo: int, hi: int)
    requires w.base <= lo && hi <= EndOf(w) && hi <= lo
    ensures Requests(w, lo, hi) == []
  {
  }

  lemma OneAsked(s: State, w: Window, horizon: int)
    requires w.base <= horizon
    ensures Asked(s, w, horizon)
      == s.(requests := s.requests + Requests(w, horizon, Min(horizon + 1, EndOf(w))))
  {
    if horizon < EndOf(w) {
      RequestsFirst(w, horizon, horizon + 1);
      NothingAsked(w, horizon + 1, horizon + 1);
    } else {
      NothingAsked(w, horizon, EndOf(w));
      assert s.requests + [] == s.requests;
    }
  }

  /** The requests of one round and of the rounds after it. */
  lemma AskedFirst(s: State, w: Window, horizon: int, more: nat)
    requires w.base <= horizon
    ensures var next := if horizon < EndOf(w) then horizon + 1 else horizon;
      Asked(s, w, horizon).requests + Requests(w, next, Min(next + more, EndOf(w)))
        == s.requests + Requests(w, horizon, Min(horizon + 1 + more, EndOf(w)))
  {
    if horizon < EndOf(w) {
      RequestsFirst(w, horizon, Min(horizon + 1 + more, EndOf(w)));
      Associate(s.requests, [RequestFor(w, horizon)], Requests(w, horizon + 1, Min(horizon + 1 + more, EndOf(w))));
    } else {
      NothingAsked(w, horizon, EndOf(w));
    }
    hide Requests, RequestFor;
  }

  /** Taking one segment and then the rest is taking them all. */
  lemma TakingStep(s: State, w: Window, fetch: int -> Outcome, horizon: int)
    requires w.base <= s.next < EndOf(w) && w.base <= horizon && fetch(s.next) == Fetched(true)
    ensures var next := TookOne(Asked(s, w, horizon), s.next, w.uris[s.next - w.base]);
      Taking(next, w, fetch, if horizon < EndOf(w) then horizon + 1 else horizon) == Taking(s, w, fetch, horizon)
  {
    hide Requests, TakenRun, RequestFor;
    var lo, n := s.next, FirstUnsent(w, fetch, s.next);
    var h := if horizon < EndOf(w) then horizon + 1 else horizon;
    var end, more := TakenEnd(w, fetch, n), n - lo - 1 + (if Reached(w, fetch, n) then 1 else 0);
    assert n == FirstUnsent(w, fetch, lo + 1);
    hide FirstUnsent;
    TakenFirst(w, lo, end);
    Associate(s.log, [Taken(lo, w.uris[lo - w.base])], TakenRun(w, lo + 1, end));
    AskedFirst(s, w, horizon, more);
    AskedFields(s, w, horizon);
    hide Asked;
    var next := TookOne(Asked(s, w, horizon), lo, w.uris[lo - w.base]);
    if lo + 1 == EndOf(w) {
      NothingAsked(w, h, Min(h, EndOf(w)));
      NothingTaken(w, lo + 1);
      assert n == EndOf(w) && end == n && more == 0;
      var u := Taking(s, w, fetch, horizon);
      assert u.0.log == next.log && u.0.requests == next.requests + [] && u.0.next == next.next && u.1;
      assert u.0 == next && Taking(next, w, fetch, h) == (next, true);
    }
  }

  lemma AskedFields(s: State, w: Window, horizon: int)
    requires w.base <= horizon
    ensures Asked(s, w, horizon) == s.(requests := Asked(s, w, horizon).requests)
  {
  }

  lemma NothingTaken(w: Window, n: int)
    requires w.base <= n <= EndOf(w)
    ensures TakenRun(w, n, n) == []
  {
  }

  lemma TakingEnds(s: State, w: Window, fetch: int -> Outcome, horizon: int)
    requires w.base <= s.next < EndOf(w) && w.base <= horizon && fetch(s.next) != Fetched(true)
    ensures Segment(s, w, fetch, s.next - w.base, horizon)
      == Ended(Taking(s, w, fetch, horizon).0, Taking(s, w, fetch, horizon).1)
  {
    OneAsked(s, w, horizon);
    NothingAsked(w, horizon, Min(horizon, EndOf(w)));
    assert FirstUnsent(w, fetch, s.next) == s.next;
    assert TakenRun(w, s.next, s.next + 1) == [Taken(s.next, w.uris[s.next - w.base])];
    hide Requests, Asked, FirstUnsent;
    assert s.log + [] == s.log && s.requests + [] == s.requests;
  }

  lemma {:induction false} DeliveredExactly(s: State, w: Window, fetch: int -> Outcome, i: nat, horizon: int)
    requires i <= |w.uris| && w.base + i <= s.next && w.base <= horizon
    ensures Delivered(s, w, fetch, i, horizon)
      == if CancelledBefore(w, fetch, w.base + i, s.next) then (s, false) else Taking(s, w, fetch, horizon)
    decreases |w.uris| - i
  {
    hide Taking, Asked, TookOne;
    var n := w.base + i;
    if i == |w.uris| {
      TakingNothing(s, w, fetch, horizon);
    } else if n == s.next {
      if fetch(n) == Fetched(true) {
        TakingStep(s, w, fetch, horizon);
        var next := TookOne(Asked(s, w, horizon), n, w.uris[i]);
        TookOneNext(s, w, horizon, n, w.uris[i]);
        DeliveredExactly(next, w, fetch, i + 1, if horizon < EndOf(w) then horizon + 1 else horizon);
      } else {
        TakingEnds(s, w, fetch, horizon);
      }
    } else if !fetch(n).SettleCancelled? {
      DeliveredExactly(s, w, fetch, i + 1, horizon);
    }
  }

  lemma TookOneNext(s: State, w: Window, horizon: int, n: int, uri: string)
    requires w.base <= horizon
    ensures TookOne(Asked(s, w, horizon), n, uri).next == n + 1
  {
  }

  lemma TakingNothing(s: State, w: Window, fetch: int -> Outcome, horizon: int)
    requires EndOf(w) <= s.next && w.base <= horizon
    ensures Taking(s, w, fetch, horizon) == (s, true)
  {
  }

  lemma {:induction false} RequestsSplit(w: Window, lo: int, mid: int, hi: int)
    requires w.base <= lo <= mid <= hi <= EndOf(w)
    ensures Requests(w, lo, hi) == Requests(w, lo, mid) + Requests(w, mid, hi)
    decreases hi - mid
  {
    hide RequestFor;
    if mid < hi {
      RequestsSplit(w, lo, mid, hi - 1);
      Associate(Requests(w, lo, mid), Requests(w, mid, hi - 1), [RequestFor(w, hi - 1)]);
    }
  }

  /** What is asked for before the first fetch, and then by the rounds of the delivery. */
  lemma AskedInAll(s: State, w: Window, more: nat)
    requires w.base <= s.next <= EndOf(w)
    ensures var h := s.next + Ahead(s) + 1;
      Primed(s, w).requests + Requests(w, h, Min(h + more, EndOf(w)))
        == s.requests + Requests(w, s.next, Min(h + more, EndOf(w)))
  {
    var h := s.next + Ahead(s) + 1;
    Associate(s.requests, Requests(w, s.next, Min(h, EndOf(w))), Requests(w, h, Min(h + more, EndOf(w))));
    if h <= EndOf(w) {
      RequestsSplit(w, s.next, h, Min(h + more, EndOf(w)));
    } else {
      NothingAsked(w, h, EndOf(w));
    }
    hide Requests;
  }

  /** Exactly what the work on a window does, once nextSeq has jumped over a gap or been reset. With lo the next number
      and n the first from there on that is not fetched and sent: the segments before n are taken in order, and n too if
      it is fetched but not sent; they were asked for in order, two ahead unless the last round failed; and the round
      goes on, ends or counts as failed by what happened at n. */
  lemma TickExactly(s: State, w: Window, waitCancelled: bool, fetch: int -> Outcome)
    requires Resynced(s, w).next <= EndOf(w) && !(Waits(Resynced(s, w), w) && waitCancelled)
    requires !CancelledBefore(w, fetch, w.base, Resynced(s, w).next)
    ensures var ready := Resynced(s, w);
      var lo, n := ready.next, FirstUnsent(w, fetch, ready.next);
      var (done, running) := Tick(s, w, waitCancelled, fetch);
      && done.next == TakenEnd(w, fetch, n) && done.log == ready.log + TakenRun(w, lo, TakenEnd(w, fetch, n))
      && (running <==> n == EndOf(w) || fetch(n) == Interrupted(false) || fetch(n) == FetchFailed(false))
      && (running ==>
           done.failures == if n > lo then 0
                            else if n < EndOf(w) && fetch(n).FetchFailed? then s.failures + 1
                            else s.failures)
      && (lo < EndOf(w) ==>
           done.requests == ready.requests + Requests(w, lo,
             Min(n + (if s.failures > 0 then 0 else 2) + (if Reached(w, fetch, n) then 2 else 1), EndOf(w))))
  {
    hide FirstUnsent, Requests, TakenRun, Delivered;
    var ready := Waited(Resynced(s, w), w);
    var h := ready.next + Ahead(ready) + 1;
    DeliveredExactly(Primed(ready, w), w, fetch, 0, h);
    var n := FirstUnsent(w, fetch, ready.next);
    if ready.next < EndOf(w) {
      AskedInAll(ready, w, n - ready.next + if Reached(w, fetch, n) then 1 else 0);
    } else {
      NothingTaken(w, ready.next);
    }
  }

  /** A window all of whose segments are fetched and sent is taken to its end. */
  lemma WholeWindowIsTaken(s: State, w: Window, fetch: int -> Outcome)
    requires Resynced(s, w).next <= EndOf(w) && forall n :: fetch(n) == Fetched(true)
    ensures var (done, running) := Tick(s, w, false, fetch);
      running && done.next == EndOf(w) && done.log == Resynced(s, w).log + TakenRun(w, Resynced(s, w).next, EndOf(w))
  {
    TickExactly(s, w, false, fetch);
    hide Tick, TakenRun;
  }

  /** A settling cancelled at a skipped segment, or a cancelled wait, ends the runner before anything is taken. */
  lemma CancelledTakesNothing(s: State, w: Window, waitCancelled: bool, fetch: int -> Outcome)
    requires (Waits(Resynced(s, w), w) && waitCancelled) || CancelledBefore(w, fetch, w.base, Resynced(s, w).next)
    ensures var (done, running) := Tick(s, w, waitCancelled, fetch);
      !running && done.next == Resynced(s, w).next && done.log == Resynced(s, w).log
  {
    var ready := Waited(Resynced(s, w), w);
    if !(Waits(Resynced(s, w), w) && waitCancelled) {
      DeliveredExactly(Primed(ready, w), w, fetch, 0, ready.next + Ahead(ready) + 1);
    }
    hide Delivered, Taking;
  }

  /** A window is waited for once: when nextSeq stands at its base and no base as late was waited for before. */
  lemma WaitsOncePerBase(s: State, w: Window, waitCancelled: bool, fetch: int -> Outcome)
    ensures var (done, running) := Tick(s, w, waitCancelled, fetch);
      var waits := w.uris != [] && Resynced(s, w).next == w.base && w.base > s.lastWait;
      && (waits && waitCancelled ==> !running)
      && (running ==> done.lastWait == if waits then w.base else s.lastWait)
  {
    DeliveredKeepsWait(Primed(Waited(Resynced(s, w), w), w), w, fetch, 0,
                       Resynced(s, w).next + Ahead(Waited(Resynced(s, w), w)) + 1);
    hide Delivered;
  }

  lemma DeliveredKeepsWait(s: State, w: Window, fetch: int -> Outcome, i: nat, horizon: int)
    requires i <= |w.uris| && w.base + i <= s.next && w.base <= horizon
    ensures Delivered(s, w, fetch, i, horizon).0.lastWait == s.lastWait
  {
    DeliveredExactly(s, w, fetch, i, horizon);
    hide Delivered;
  }

  // ---- Failed fetches and refreshes ----

  /** Neither the fetch of the poll nor its retry yields a playlist. */
  predicate FailsTwice(p: Poll) {
    p.first.Failed? && p.retry.Failed?
  }

  /** Between polls no fetch has failed in a row, or the two of one poll. */
  predicate FailuresOk(s: State) {
    s.playlistFailures == 0 || s.playlistFailures == 2
  }

  /** A poll that fails twice is skipped, and ends the runner if and only if the poll before it failed twice as well;
      any other poll that goes on makes good for one that failed. */
  lemma SecondFailedPollEnds(s: State, p: Poll)
    requires FailuresOk(s)
    ensures FailsTwice(p) ==> (Polled(s, p).1 <==> s.playlistFailures == 0)
    ensures FailsTwice(p) && s.playlistFailures == 0 ==> Polled(s, p).0 == s.(playlistFailures := 2)
    ensures !FailsTwice(p) && Polled(s, p).1 ==> Polled(s, p).0.playlistFailures == 0
  {
    hide Tick;
    if Obtain(s, p).Use? {
      var o := Obtain(s, p);
      TickKeepsFailures(o.s, o.w, p.waitCancelled, p.segments);
    }
  }

  lemma TickKeepsFailures(s: State, w: Window, waitCancelled: bool, fetch: int -> Outcome)
    ensures Tick(s, w, waitCancelled, fetch).0.playlistFailures == s.playlistFailures
  {
    var ready := Waited(Resynced(s, w), w);
    DeliveredExactly(Primed(ready, w), w, fetch, 0, ready.next + Ahead(ready) + 1);
    hide Delivered;
  }

  /** The stream has no URL left, or the runner is cancelled. */
  predicate IsOver(f: Fetch) {
    f.NoUrl? || f.Cancelled?
  }

  /** The poll has a playlist, from the first fetch or from the retry. */
  predicate HasPlaylist(p: Poll) {
    p.first.Got? || (p.first.Failed? && p.retry.Got?)
  }

  /** A new URL is looked at: after every third failed round, unless the backoff is cancelled or the refresh fails. */
  predicate LooksAnew(s: State, p: Poll) {
    HasPlaylist(p) && s.failures > 0 && s.failures % 3 == 0 && !p.backoffCancelled && p.refresh.Refreshed?
  }

  /** How a poll gets at its window. It ends the runner if a fetch finds the stream over, on a second poll in a row that
      fails twice, or if the backoff is cancelled; it is skipped if it fails twice, or if the playlist of a new URL
      cannot be fetched, when the one from before the refresh is not used; and otherwise it works on the newest one. */
  lemma PollOutcomeExactly(s: State, p: Poll)
    requires FailuresOk(s)
    ensures Obtain(s, p).End? <==>
      || IsOver(p.first) || (p.first.Failed? && IsOver(p.retry))
      || (FailsTwice(p) && s.playlistFailures == 2)
      || (HasPlaylist(p) && s.failures > 0 && p.backoffCancelled)
      || (LooksAnew(s, p) && IsOver(p.refresh.pl))
    ensures Obtain(s, p).Skip? <==>
      (FailsTwice(p) && s.playlistFailures == 0) || (LooksAnew(s, p) && p.refresh.pl.Failed?)
    ensures Obtain(s, p).Use? ==>
      Obtain(s, p).w == if LooksAnew(s, p) then p.refresh.pl.w else if p.first.Got? then p.first.w else p.retry.w
  {
  }

  /** What a refresh of the URL yields matters exactly after every third failed round. */
  lemma RefreshedEveryThirdRound(s: State, w: Window, p: Poll)
    requires !p.backoffCancelled
    ensures (exists r: Refresh, q: Refresh :: Settled(s, p.(refresh := r), w) != Settled(s, p.(refresh := q), w))
      <==> s.failures > 0 && s.failures % 3 == 0
    ensures s.failures > 0 && s.failures % 3 == 0 ==>
      forall v: Window :: Settled(s, p.(refresh := Refreshed(Got(v))), w) == Use(s, v)
  {
    if s.failures > 0 && s.failures % 3 == 0 {
      assert Settled(s, p.(refresh := NotRefreshed), w) != Settled(s, p.(refresh := Refreshed(NoUrl)), w);
    }
  }

  /** A settling is cancelled at one of the segments from index i on. */
  predicate SettleCancelledFrom(w: Window, fetch: int -> Outcome, i: nat)
    requires i <= |w.uris|
  {
    exists n :: w.base + i <= n < EndOf(w) && fetch(n).SettleCancelled?
  }

  lemma {:induction false} DeliveredBehind(s: State, w: Window, fetch: int -> Outcome, i: nat, horizon: int)
    requires i <= |w.uris| && EndOf(w) <= s.next && w.base <= horizon
    ensures Delivered(s, w, fetch, i, horizon) == (s, !SettleCancelledFrom(w, fetch, i))
    decreases |w.uris| - i
  {
    if i < |w.uris| && !fetch(w.base + i).SettleCancelled? {
      DeliveredBehind(s, w, fetch, i + 1, horizon);
    }
  }

  /** A non-empty window wholly behind nextSeq is either an unchanged playlist or a rollback: it is taken as a
      rollback exactly when its base is below the previous one. Otherwise nothing happens, except that the runner ends
      if a settling is cancelled. */
  lemma WindowBehind(s: State, w: Window, waitCancelled: bool, fetch: int -> Outcome)
    requires w.uris != [] && EndOf(w) <= s.next
    ensures w.base < s.prevBase <==> Resynced(s, w).next == w.base
    ensures w.base >= s.prevBase ==> Tick(s, w, waitCancelled, fetch) == Unchanged(s, w, fetch)
  {
    if w.base >= s.prevBase {
      BehindDoesNothing(s, w, waitCancelled, fetch);
    }
  }

  function Unchanged(s: State, w: Window, fetch: int -> Outcome): (State, bool) {
    if SettleCancelledFrom(w, fetch, 0) then (s, false) else (s.(prevBase := w.base), true)
  }

  /** So does an empty window that does not lie ahead. */
  lemma BehindDoesNothing(s: State, w: Window, waitCancelled: bool, fetch: int -> Outcome)
    requires EndOf(w) <= s.next && (w.uris == [] || w.base >= s.prevBase)
    ensures Tick(s, w, waitCancelled, fetch) == Unchanged(s, w, fetch)
  {
    assert Resynced(s, w) == s && Waited(s, w) == s && Primed(s, w) == s;
    DeliveredBehind(s, w, fetch, 0, s.next + Ahead(s) + 1);
    hide Delivered;
  }

  /** The largest base among the windows, or lo. */
  function MaxBase(ws: seq<Window>, lo: int): (hi: int)
    ensures lo <= hi
    ensures forall w :: w in ws ==> w.base <= hi
  {
    if ws == [] then lo
    else
      var rest := MaxBase(ws[1..], lo);
      if ws[0].base > rest then ws[0].base else rest
  }

  /** Every window of every poll ends at or before `next`, and none starts below those of the polls before it. */
  ghost predicate StaysBehind(next: int, lo: int, polls: seq<Poll>)
    decreases |polls|
  {
    polls == []
    || ((forall w :: w in Windows(polls[0]) ==> lo <= w.base && EndOf(w) <= next)
        && StaysBehind(next, MaxBase(Windows(polls[0]), lo), polls[1..]))
  }

  /** A rollback that first shows up as an empty playlist is never seen: the empty window lowers the previous base,
      and nothing is taken, lost or reset for as long as the windows that follow grow from there below nextSeq. */
  lemma EmptyWindowHidesRollback(s: State, base: int, waitCancelled: bool, fetch: int -> Outcome, polls: seq<Poll>)
    requires base < s.prevBase <= s.next && StaysBehind(s.next, base, polls)
    ensures Tick(s, Window(base, []), waitCancelled, fetch) == (s.(prevBase := base), true)
    ensures var after := Run(s.(prevBase := base), polls);
      after.next == s.next && after.log == s.log && after.requests == s.requests
  {
    BehindDoesNothing(s, Window(base, []), waitCancelled, fetch);
    StaleRunTakesNothing(s.(prevBase := base), base, polls);
  }

  lemma {:induction false} StaleRunTakesNothing(s: State, lo: int, polls: seq<Poll>)
    requires s.prevBase <= lo && StaysBehind(s.next, lo, polls)
    ensures Run(s, polls).next == s.next && Run(s, polls).log == s.log && Run(s, polls).requests == s.requests
    decreases |polls|
  {
    hide Obtain, Tick, Windows;
    if polls != [] {
      var p := polls[0];
      ObtainKeepsNumbers(s, p);
      var o := Obtain(s, p);
      if o.Use? {
        BehindDoesNothing(o.s, o.w, p.waitCancelled, p.segments);
      }
      var (next, running) := Polled(s, p);
      if running {
        StaleRunTakesNothing(next, MaxBase(Windows(p), lo), polls[1..]);
      }
    }
  }
}
