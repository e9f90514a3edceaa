/** What holds in every state the webhook queues can reach, over all interleavings. */
module WebhookSafety {
  import opened Collections
  import opened WebhookQueue

  // ---- The invariant ----

  /** The queue a thread works on. */
  predicate Touches(pc: Pc, q: nat) {
    !pc.Idle? && !pc.Lookup? && pc.q == q
  }

  /** Everything refers to queue objects that exist; the room map points to queues of the right room. */
  ghost predicate Refs(s: Service) {
    && (forall t, q :: t in s.threads && Touches(s.threads[t].pc, q) ==> q in s.queues)
    && (forall i :: 0 <= i < |s.pending| ==> s.pending[i] in s.queues)
    && (forall r :: r in s.rooms ==> s.rooms[r] in s.queues && s.queues[s.rooms[r]].room == r)
  }

  ghost predicate HeldByThread(s: Service, q: nat) {
    exists t :: t in s.threads && Holds(s.threads[t].pc, q)
  }

  /** The scheduled flag is a token: it is set exactly if a pending entry or one thread holds it, never two. */
  ghost predicate Tokens(s: Service) {
    AtMostOne(s) && HeldIsScheduled(s) && ScheduledIsHeld(s)
  }

  ghost predicate AtMostOne(s: Service) {
    && (forall i, j :: 0 <= i < j < |s.pending| ==> s.pending[i] != s.pending[j])
    && (forall t, u, q :: t in s.threads && u in s.threads && Holds(s.threads[t].pc, q) && Holds(s.threads[u].pc, q) ==>
         t == u)
    && (forall t, q :: t in s.threads && Holds(s.threads[t].pc, q) ==> q !in s.pending)
  }

  ghost predicate HeldIsScheduled(s: Service) {
    && (forall t, q :: t in s.threads && q in s.queues && Holds(s.threads[t].pc, q) ==> s.queues[q].scheduled)
    && (forall i :: 0 <= i < |s.pending| && s.pending[i] in s.queues ==> s.queues[s.pending[i]].scheduled)
  }

  ghost predicate ScheduledIsHeld(s: Service) {
    forall q :: q in s.queues && s.queues[q].scheduled ==> q in s.pending || HeldByThread(s, q)
  }

  /** A closed queue is empty, an open one is reachable from the room map, and nothing accepted is lost. */
  ghost predicate QueueOk(s: Service, q: nat)
    requires q in s.queues
  {
    var qu := s.queues[q];
    && |qu.ch| <= QUEUE_CAP
    && (qu.closed ==> qu.ch == [])
    && (!qu.closed ==> qu.room in s.rooms && s.rooms[qu.room] == q)
    && qu.accepted == qu.taken + qu.ch
  }

  ghost predicate Contents(s: Service) {
    && (forall q :: q in s.queues ==> QueueOk(s, q))
    && (forall t :: t in s.threads && s.threads[t].pc.Removing? && s.threads[t].pc.q in s.queues ==>
         s.queues[s.threads[t].pc.q].closed)
  }

  function Events(os: seq<Outcome>): seq<Event> {
    seq(|os|, i requires 0 <= i < |os| => os[i].event)
  }

  /** The event a thread has taken and not finished, as a sequence of at most one. */
  function Carried(pc: Pc, q: nat): seq<Event> {
    if InFlight(pc, q) then [pc.body] else []
  }

  /** Events leave a queue one at a time and in order: those taken are those finished, plus the one in flight. */
  ghost predicate Flights(s: Service) {
    FlightIsNext(s) && GroundedIsFinished(s) && OnlyShutdownDrops(s)
  }

  ghost predicate FlightIsNext(s: Service) {
    forall t, q :: t in s.threads && q in s.queues && InFlight(s.threads[t].pc, q) ==>
      s.queues[q].taken == Events(s.queues[q].finished) + [s.threads[t].pc.body]
  }

  ghost predicate SomeInFlight(s: Service, q: nat) {
    exists t :: t in s.threads && InFlight(s.threads[t].pc, q)
  }

  ghost predicate GroundedIsFinished(s: Service) {
    forall q :: q in s.queues && !SomeInFlight(s, q) ==> s.queues[q].taken == Events(s.queues[q].finished)
  }

  ghost predicate OnlyShutdownDrops(s: Service) {
    forall q, i :: q in s.queues && 0 <= i < |s.queues[q].finished| && !s.queues[q].finished[i].delivered ==>
      s.cancelled
  }

  function Permitted(threads: map<nat, Thread>): set<nat> {
    set t | t in threads && threads[t].permit
  }

  /** At most eight delivery goroutines, each of which holds a permit. */
  ghost predicate Permits(s: Service) {
    s.permits == |Permitted(s.threads)| <= MAX_DELIVERIES && Roles(s)
  }

  ghost predicate Roles(s: Service) {
    && (forall t :: t in s.threads && s.threads[t].pc.Delivering? ==> s.threads[t].permit)
    && (forall t :: t in s.threads && (s.threads[t].pc.Lookup? || s.threads[t].pc.Sending? || s.threads[t].pc.Idle?) ==>
         !s.threads[t].permit)
    && (WORKER in s.threads ==> !s.threads[WORKER].permit)
    && (forall t :: t in s.threads && WorkerOnly(s.threads[t].pc) ==> t == WORKER)
    && |s.pending| <= PENDING_CAP
  }

  /** Steps only the single worker takes. */
  predicate WorkerOnly(pc: Pc) {
    pc.Working? || pc.Taking? || pc.Acquiring? || pc.Removing?
  }

  ghost predicate Inv(s: Service) {
    Refs(s) && Tokens(s) && Contents(s) && Flights(s) && Permits(s)
  }

  // ---- What a local step does to one thread and one queue ----

  ghost predicate SameToken(pc: Pc, pc': Pc, q: nat, qu: Queue, qu': Queue) {
    Holds(pc', q) == Holds(pc, q) && qu'.scheduled == qu.scheduled
  }

  ghost predicate TokenRule(pc: Pc, pc': Pc, q: nat, qu: Queue, qu': Queue) {
    || SameToken(pc, pc', q, qu, qu')
    || (!qu.scheduled && qu'.scheduled && !Holds(pc, q) && Holds(pc', q))
    || (Holds(pc, q) && !Holds(pc', q) && !qu'.scheduled)
  }

  ghost predicate FlightRule(pc: Pc, pc': Pc, q: nat, qu: Queue, qu': Queue) {
    || (Carried(pc', q) == Carried(pc, q) && qu'.taken == qu.taken && qu'.finished == qu.finished)
    || (Holds(pc, q) && !InFlight(pc, q) && InFlight(pc', q) && qu'.taken == qu.taken + [pc'.body] &&
        qu'.finished == qu.finished)
    || (InFlight(pc, q) && !InFlight(pc', q) && qu'.taken == qu.taken && |qu'.finished| == |qu.finished| + 1 &&
        qu'.finished[..|qu.finished|] == qu.finished && qu'.finished[|qu.finished|].event == pc.body)
  }

  ghost predicate ContentRule(qu: Queue, qu': Queue) {
    && qu'.room == qu.room
    && (qu.closed ==> qu'.closed)
    && (|qu.ch| <= QUEUE_CAP ==> |qu'.ch| <= QUEUE_CAP)
    && ((qu.closed ==> qu.ch == []) ==> (qu'.closed ==> qu'.ch == []))
    && (qu.accepted == qu.taken + qu.ch ==> qu'.accepted == qu'.taken + qu'.ch)
  }

  ghost predicate PcRule(pc: Pc, pc': Pc, q: nat, qu': Queue) {
    && (forall p :: Touches(pc', p) ==> p == q)
    && (forall p :: Holds(pc, p) ==> p == q)
    && (pc'.Removing? ==> qu'.closed)
  }

  lemma LocalTokenRule(s: Service, a: Action)
    requires Enabled(s, a) && IsLocal(a)
    ensures var pc, q := s.threads[Actor(a)].pc, Target(s, a);
      var m := Moved(a, pc, q, s.queues[q]);
      TokenRule(pc, m.pc, q, s.queues[q], m.queue)
  {
  }

  lemma LocalFlightRule(s: Service, a: Action)
    requires Enabled(s, a) && IsLocal(a)
    ensures var pc, q := s.threads[Actor(a)].pc, Target(s, a);
      var m := Moved(a, pc, q, s.queues[q]);
      FlightRule(pc, m.pc, q, s.queues[q], m.queue)
  {
  }

  lemma LocalContentRule(a: Action, pc: Pc, q: nat, qu: Queue)
    requires a.Evict? ==> Evictable(qu)
    ensures ContentRule(qu, Moved(a, pc, q, qu).queue)
  {
    if a.Receive? && qu.ch != [] {
      Associate(qu.taken, [qu.ch[0]], qu.ch[1..]);
      assert qu.ch == [qu.ch[0]] + qu.ch[1..];
    } else if a.TrySend? && pc.Sending? && SendOutcome(qu) == Queued {
      Associate(qu.taken, qu.ch, [pc.body]);
    }
  }

  lemma LocalPcRule(s: Service, a: Action)
    requires Enabled(s, a) && IsLocal(a)
    ensures var pc, q := s.threads[Actor(a)].pc, Target(s, a);
      var m := Moved(a, pc, q, s.queues[q]);
      PcRule(pc, m.pc, q, m.queue)
  {
  }

  lemma LocalStepRules(s: Service, a: Action)
    requires Enabled(s, a) && IsLocal(a)
    ensures var pc, q := s.threads[Actor(a)].pc, Target(s, a);
      var m := Moved(a, pc, q, s.queues[q]);
      && TokenRule(pc, m.pc, q, s.queues[q], m.queue)
      && FlightRule(pc, m.pc, q, s.queues[q], m.queue)
      && ContentRule(s.queues[q], m.queue)
      && PcRule(pc, m.pc, q, m.queue)
  {
    hide Moved, TokenRule, FlightRule, ContentRule, PcRule;
    LocalTokenRule(s, a);
    LocalFlightRule(s, a);
    LocalContentRule(a, s.threads[Actor(a)].pc, Target(s, a), s.queues[Target(s, a)]);
    LocalPcRule(s, a);
  }

  // ---- Every step keeps the invariant ----

  /** Proceeding with a thread and its queue by a local rule. */
  function Advance(s: Service, t: nat, pc: Pc, q: nat, qu: Queue): Service
    requires t in s.threads
  {
    Proceed(s.(queues := s.queues[q := qu]), t, pc)
  }

  lemma AdvanceFields(s: Service, t: nat, pc: Pc, q: nat, qu: Queue)
    requires t in s.threads && q in s.queues
    ensures var n := Advance(s, t, pc, q, qu);
      && n.threads.Keys == s.threads.Keys && n.threads[t].pc == pc
      && (forall u :: u in s.threads && u != t ==> n.threads[u] == s.threads[u])
      && n.queues == s.queues[q := qu] && n.rooms == s.rooms && n.pending == s.pending && n.cancelled == s.cancelled
  {
  }

  lemma LocalRefs(s: Service, t: nat, pc: Pc, q: nat, qu: Queue)
    requires Refs(s) && t in s.threads && q in s.queues
    requires ContentRule(s.queues[q], qu) && PcRule(s.threads[t].pc, pc, q, qu)
    ensures Refs(Advance(s, t, pc, q, qu))
  {
  }

  /** A thread that holds a token is the only one to, and the token is not pending. */
  lemma SoleHolder(s: Service, t: nat, q: nat)
    requires AtMostOne(s) && t in s.threads && Holds(s.threads[t].pc, q)
    ensures forall u :: u in s.threads && Holds(s.threads[u].pc, q) ==> u == t
    ensures forall u :: u in s.threads && InFlight(s.threads[u].pc, q) ==> u == t
    ensures forall i :: 0 <= i < |s.pending| ==> s.pending[i] != q
  {
    assert q !in s.pending;
    forall u | u in s.threads && InFlight(s.threads[u].pc, q)
      ensures u == t
    {
      assert Holds(s.threads[u].pc, q);
    }
  }

  lemma LocalAtMostOne(s: Service, t: nat, pc: Pc, q: nat, qu: Queue)
    requires Refs(s) && Tokens(s) && t in s.threads && q in s.queues
    requires TokenRule(s.threads[t].pc, pc, q, s.queues[q], qu) && PcRule(s.threads[t].pc, pc, q, qu)
    ensures AtMostOne(Advance(s, t, pc, q, qu))
  {
    hide ScheduledIsHeld, Refs, Advance;
    AdvanceFields(s, t, pc, q, qu);
    assert forall p :: Holds(pc, p) ==> Touches(pc, p);
    if Holds(s.threads[t].pc, q) {
      SoleHolder(s, t, q);
    } else if !s.queues[q].scheduled {
      NobodyHolds(s, q);
    }
    assert Holds(pc, q) ==> q !in s.pending && forall u :: u in s.threads && Holds(s.threads[u].pc, q) ==> u == t;
    hide HeldIsScheduled, Touches, PcRule, TokenRule, AtMostOne;
    OneMoves(s, Advance(s, t, pc, q, qu), t, q);
  }

  /** If one thread moves and gains at most a token nobody else had, every token still has at most one holder. */
  lemma OneMoves(s: Service, n: Service, t: nat, q: nat)
    requires AtMostOne(s) && n.pending == s.pending && n.threads.Keys == s.threads.Keys && t in s.threads
    requires forall u :: u in s.threads && u != t ==> n.threads[u] == s.threads[u]
    requires forall p :: Holds(n.threads[t].pc, p) ==> p == q
    requires Holds(n.threads[t].pc, q) ==>
      q !in s.pending && forall u :: u in s.threads && Holds(s.threads[u].pc, q) ==> u == t
    ensures AtMostOne(n)
  {
  }

  /** While the flag is not set, nobody holds the token. */
  lemma NobodyHolds(s: Service, q: nat)
    requires HeldIsScheduled(s) && q in s.queues && !s.queues[q].scheduled
    ensures q !in s.pending && forall u :: u in s.threads ==> !Holds(s.threads[u].pc, q)
  {
    assert forall i :: 0 <= i < |s.pending| ==> s.pending[i] != q;
  }

  lemma LocalHeldIsScheduled(s: Service, t: nat, pc: Pc, q: nat, qu: Queue)
    requires Refs(s) && Tokens(s) && t in s.threads && q in s.queues
    requires TokenRule(s.threads[t].pc, pc, q, s.queues[q], qu) && PcRule(s.threads[t].pc, pc, q, qu)
    ensures HeldIsScheduled(Advance(s, t, pc, q, qu))
  {
    hide ScheduledIsHeld, AtMostOne, Advance, Refs;
    AdvanceFields(s, t, pc, q, qu);
    var n := Advance(s, t, pc, q, qu);
    if Holds(s.threads[t].pc, q) {
      SoleHolder(s, t, q);
    }
    assert forall i :: 0 <= i < |s.pending| && s.pending[i] == q ==> qu.scheduled;
    forall u, p | u in n.threads && p in n.queues && Holds(n.threads[u].pc, p)
      ensures n.queues[p].scheduled
    {
      assert Touches(n.threads[u].pc, p);
    }
    hide TokenRule, PcRule;
  }

  lemma LocalScheduledIsHeld(s: Service, t: nat, pc: Pc, q: nat, qu: Queue)
    requires Refs(s) && Tokens(s) && t in s.threads && q in s.queues
    requires TokenRule(s.threads[t].pc, pc, q, s.queues[q], qu) && PcRule(s.threads[t].pc, pc, q, qu)
    ensures ScheduledIsHeld(Advance(s, t, pc, q, qu))
  {
    hide AtMostOne, HeldIsScheduled, Advance;
    AdvanceFields(s, t, pc, q, qu);
    var n := Advance(s, t, pc, q, qu);
    forall p | p in n.queues && n.queues[p].scheduled
      ensures p in n.pending || HeldByThread(n, p)
    {
      if s.queues[p].scheduled && p !in s.pending {
        var u :| u in s.threads && Holds(s.threads[u].pc, p);
        assert u in n.threads && Holds(n.threads[u].pc, p);
      } else if !s.queues[p].scheduled {
        assert Holds(n.threads[t].pc, p);
      }
    }
  }

  lemma LocalContents(s: Service, t: nat, pc: Pc, q: nat, qu: Queue)
    requires Refs(s) && Contents(s) && t in s.threads && q in s.queues
    requires ContentRule(s.queues[q], qu) && PcRule(s.threads[t].pc, pc, q, qu)
    ensures Contents(Advance(s, t, pc, q, qu))
  {
    hide Advance, Refs, QueueOk;
    var n := Advance(s, t, pc, q, qu);
    AdvanceFields(s, t, pc, q, qu);
    forall p | p in n.queues
      ensures QueueOk(n, p)
    {
      LocalQueueOk(s, n, p);
    }
    assert pc.Removing? ==> Touches(pc, pc.q);
    hide ContentRule;
  }

  lemma LocalQueueOk(s: Service, n: Service, q: nat)
    requires q in s.queues && q in n.queues && n.rooms == s.rooms
    requires QueueOk(s, q) && (n.queues[q] == s.queues[q] || ContentRule(s.queues[q], n.queues[q]))
    ensures QueueOk(n, q)
  {
  }

  lemma EventsSnoc(os: seq<Outcome>, more: seq<Outcome>)
    requires |more| == |os| + 1 && more[..|os|] == os
    ensures Events(more) == Events(os) + [more[|os|].event]
  {
    assert forall i :: 0 <= i < |os| ==> more[i] == more[..|os|][i];
  }

  lemma LocalFlightIsNext(s: Service, t: nat, pc: Pc, q: nat, qu: Queue)
    requires Refs(s) && AtMostOne(s) && Flights(s) && t in s.threads && q in s.queues
    requires FlightRule(s.threads[t].pc, pc, q, s.queues[q], qu) && PcRule(s.threads[t].pc, pc, q, qu)
    ensures FlightIsNext(Advance(s, t, pc, q, qu))
  {
    hide OnlyShutdownDrops, AtMostOne, GroundedIsFinished, Advance, Refs;
    AdvanceFields(s, t, pc, q, qu);
    var n := Advance(s, t, pc, q, qu);
    if Holds(s.threads[t].pc, q) {
      SoleHolder(s, t, q);
    }
    forall u, p | u in n.threads && p in n.queues && InFlight(n.threads[u].pc, p)
      ensures n.queues[p].taken == Events(n.queues[p].finished) + [n.threads[u].pc.body]
    {
      if u == t {
        assert Touches(pc, p);
        MoverFlight(s, t, pc, q, qu);
      } else {
        assert p != q || n.queues[p] == s.queues[p]
          || (qu.taken == s.queues[q].taken && qu.finished == s.queues[q].finished);
      }
    }
    hide PcRule;
  }

  /** The event the moving thread has in flight afterwards is the one it had, or the next of an idle queue. */
  lemma MoverFlight(s: Service, t: nat, pc: Pc, q: nat, qu: Queue)
    requires AtMostOne(s) && Flights(s) && t in s.threads && q in s.queues && InFlight(pc, q)
    requires FlightRule(s.threads[t].pc, pc, q, s.queues[q], qu)
    ensures qu.taken == Events(qu.finished) + [pc.body]
  {
    hide OnlyShutdownDrops, AtMostOne;
    if !InFlight(s.threads[t].pc, q) {
      SoleHolder(s, t, q);
      assert !SomeInFlight(s, q);
    }
  }

  lemma LocalGrounded(s: Service, t: nat, pc: Pc, q: nat, qu: Queue)
    requires Refs(s) && AtMostOne(s) && Flights(s) && t in s.threads && q in s.queues
    requires FlightRule(s.threads[t].pc, pc, q, s.queues[q], qu) && PcRule(s.threads[t].pc, pc, q, qu)
    ensures GroundedIsFinished(Advance(s, t, pc, q, qu))
  {
    hide OnlyShutdownDrops, AtMostOne, Advance;
    AdvanceFields(s, t, pc, q, qu);
    var n := Advance(s, t, pc, q, qu);
    forall p | p in n.queues && !SomeInFlight(n, p)
      ensures n.queues[p].taken == Events(n.queues[p].finished)
    {
      assert !InFlight(n.threads[t].pc, p);
      if SomeInFlight(s, p) {
        var u :| u in s.threads && InFlight(s.threads[u].pc, p);
        assert u in n.threads && !InFlight(n.threads[u].pc, p);
        assert Holds(s.threads[u].pc, p);
        EventsSnoc(s.queues[p].finished, n.queues[p].finished);
      }
    }
  }

  lemma LocalDrops(s: Service, a: Action)
    requires Inv(s) && Enabled(s, a) && IsLocal(a)
    ensures OnlyShutdownDrops(LocalStep(s, a))
  {
    hide Contents, Permits, Tokens, FlightIsNext, GroundedIsFinished;
  }

  lemma LocalKeepsInv(s: Service, a: Action)
    requires Inv(s) && Enabled(s, a) && IsLocal(a)
    ensures var n := LocalStep(s, a); Refs(n) && Tokens(n) && Contents(n) && Flights(n)
  {
    hide Refs, AtMostOne, HeldIsScheduled, ScheduledIsHeld, Contents, FlightIsNext, GroundedIsFinished;
    hide OnlyShutdownDrops, Permits, Moved, TokenRule, FlightRule, ContentRule, PcRule, Proceed;
    var t, q := Actor(a), Target(s, a);
    var m := Moved(a, s.threads[t].pc, q, s.queues[q]);
    LocalStepRules(s, a);
    LocalRefs(s, t, m.pc, q, m.queue);
    LocalAtMostOne(s, t, m.pc, q, m.queue);
    LocalHeldIsScheduled(s, t, m.pc, q, m.queue);
    LocalScheduledIsHeld(s, t, m.pc, q, m.queue);
    LocalContents(s, t, m.pc, q, m.queue);
    LocalFlightIsNext(s, t, m.pc, q, m.queue);
    LocalGrounded(s, t, m.pc, q, m.queue);
    LocalDrops(s, a);
  }

  /** Somebody holds the token of queue q. */
  ghost predicate Held(s: Service, q: nat) {
    q in s.pending || HeldByThread(s, q)
  }

  /** A step that is not local hands tokens over and loses none. */
  lemma GlobalHeldStays(s: Service, a: Action, q: nat)
    requires Enabled(s, a) && !IsLocal(a) && Held(s, q)
    ensures Held(Step(s, a), q)
  {
    hide Step, Enabled, HeldByThread;
    if q in s.pending {
      GlobalPendingStays(s, a, q);
    } else {
      GlobalHolderStays(s, a, q);
    }
  }

  lemma GlobalPendingStays(s: Service, a: Action, q: nat)
    requires Enabled(s, a) && !IsLocal(a) && q in s.pending
    ensures Held(Step(s, a), q)
  {
    hide LocalStep;
    var n := Step(s, a);
    var i :| 0 <= i < |s.pending| && s.pending[i] == q;
    if a.TakeWork? {
      assert i > 0 ==> n.pending[i - 1] == q;
      assert i == 0 ==> Holds(n.threads[WORKER].pc, q);
    } else {
      assert n.pending[i] == q;
    }
  }

  lemma GlobalHolderStays(s: Service, a: Action, q: nat)
    requires Enabled(s, a) && !IsLocal(a) && HeldByThread(s, q)
    ensures Held(Step(s, a), q)
  {
    hide LocalStep;
    var n := Step(s, a);
    var t :| t in s.threads && Holds(s.threads[t].pc, q);
    if a.Offer? && a.t == t {
      assert n.pending[|s.pending|] == q;
    } else {
      assert Holds(n.threads[if a.StartDelivery? && a.t == t then a.newId else t].pc, q);
    }
  }

  /** And creates none. */
  lemma GlobalHeldComes(s: Service, a: Action, q: nat)
    requires Enabled(s, a) && !IsLocal(a) && Held(Step(s, a), q)
    ensures Held(s, q)
  {
    hide Step, Enabled, HeldByThread;
    if q in Step(s, a).pending {
      GlobalPendingComes(s, a, q);
    } else {
      GlobalHolderComes(s, a, q);
    }
  }

  lemma GlobalPendingComes(s: Service, a: Action, q: nat)
    requires Enabled(s, a) && !IsLocal(a) && q in Step(s, a).pending
    ensures Held(s, q)
  {
    hide LocalStep;
    var n := Step(s, a);
    var i :| 0 <= i < |n.pending| && n.pending[i] == q;
    if a.TakeWork? {
      assert s.pending[i + 1] == q;
    } else if a.Offer? && i == |s.pending| {
      assert Holds(s.threads[a.t].pc, q);
    } else {
      assert s.pending[i] == q;
    }
  }

  lemma GlobalHolderComes(s: Service, a: Action, q: nat)
    requires Enabled(s, a) && !IsLocal(a) && HeldByThread(Step(s, a), q)
    ensures Held(s, q)
  {
    hide LocalStep;
    var n := Step(s, a);
    var t :| t in n.threads && Holds(n.threads[t].pc, q);
    if a.TakeWork? && t == WORKER {
      assert s.pending[0] == q;
    } else {
      assert Holds(s.threads[if a.StartDelivery? && a.newId == t then a.t else t].pc, q);
    }
  }

  /** It leaves every queue as it is and adds at most a new one. */
  lemma GlobalQueues(s: Service, a: Action)
    requires Enabled(s, a) && !IsLocal(a)
    ensures var n := Step(s, a);
      && (forall q :: q in s.queues ==> q in n.queues && n.queues[q] == s.queues[q])
      && (forall q :: q in n.queues && q !in s.queues ==> n.queues[q] == NewQueue(n.queues[q].room))
  {
    hide LocalStep;
  }

  /** What a thread is after it. */
  ghost predicate Follows(s: Service, n: Service, u: nat)
    requires u in n.threads
  {
    var pc, permit := n.threads[u].pc, n.threads[u].permit;
    if u in s.threads then
      || n.threads[u] == s.threads[u]
      || (!permit && (pc.Idle? || (pc.Lookup? && u != WORKER)))
      || (pc.Sending? && s.threads[u].pc.Lookup? && permit == s.threads[u].permit && pc.q in n.queues)
      || (u == WORKER && s.pending != [] && pc == Working(s.pending[0]) && permit == s.threads[u].permit)
    else
      u != WORKER && permit && pc.Delivering? && Acquires(s, pc.q, pc.body)
  }

  /** The worker is about to start the delivery of this event. */
  ghost predicate Acquires(s: Service, q: nat, body: Event) {
    WORKER in s.threads && s.threads[WORKER].pc == Acquiring(q, body)
  }

  lemma GlobalThread(s: Service, a: Action, u: nat)
    requires Refs(s) && Roles(s) && Enabled(s, a) && !IsLocal(a) && u in Step(s, a).threads
    ensures Follows(s, Step(s, a), u)
  {
    hide LocalStep;
  }

  /** A token held is that of an existing queue. */
  lemma HeldExists(s: Service, q: nat)
    requires Refs(s) && Held(s, q)
    ensures q in s.queues
  {
    if q in s.pending {
      var i :| 0 <= i < |s.pending| && s.pending[i] == q;
    } else {
      var t :| t in s.threads && Holds(s.threads[t].pc, q);
      assert Touches(s.threads[t].pc, q);
    }
  }

  lemma GlobalRooms(s: Service, a: Action)
    requires Refs(s) && Enabled(s, a) && !IsLocal(a)
    ensures var n := Step(s, a); forall r :: r in n.rooms ==> n.rooms[r] in n.queues && n.queues[n.rooms[r]].room == r
  {
    hide LocalStep;
  }

  lemma GlobalRefs(s: Service, a: Action)
    requires Inv(s) && Enabled(s, a) && !IsLocal(a)
    ensures Refs(Step(s, a))
  {
    hide Step, Tokens, Contents, Flights;
    var n := Step(s, a);
    GlobalQueues(s, a);
    GlobalRooms(s, a);
    forall t, q | t in n.threads && Touches(n.threads[t].pc, q)
      ensures q in n.queues
    {
      GlobalThread(s, a, t);
    }
    forall i | 0 <= i < |n.pending|
      ensures n.pending[i] in n.queues
    {
      GlobalHeldComes(s, a, n.pending[i]);
      HeldExists(s, n.pending[i]);
    }
    hide Touches, Enabled, IsLocal, Permits;
  }

  lemma GlobalAtMostOne(s: Service, a: Action)
    requires Inv(s) && Enabled(s, a) && !IsLocal(a)
    ensures AtMostOne(Step(s, a))
  {
    hide Step, Contents, Flights, Permits, ScheduledIsHeld, HeldIsScheduled, Refs, AtMostOne, Enabled;
    if a.Offer? {
      OfferHandsOver(s, a.t);
    } else if a.TakeWork? {
      TakeWorkHandsOver(s);
    } else if a.StartDelivery? {
      DeliveryHandsOver(s, a.t, a.newId);
    } else {
      GlobalKeepsTokens(s, a);
      FewerHolders(s, Step(s, a));
    }
  }

  /** The other steps that are not local move no token. */
  lemma GlobalKeepsTokens(s: Service, a: Action)
    requires Enabled(s, a) && !IsLocal(a) && !a.Offer? && !a.TakeWork? && !a.StartDelivery?
    ensures var n := Step(s, a);
      && n.pending == s.pending
      && (forall u, q :: u in n.threads && Holds(n.threads[u].pc, q) ==> u in s.threads && Holds(s.threads[u].pc, q))
  {
    hide LocalStep;
  }

  lemma FewerHolders(s: Service, n: Service)
    requires AtMostOne(s) && n.pending == s.pending
    requires forall u, q :: u in n.threads && Holds(n.threads[u].pc, q) ==> u in s.threads && Holds(s.threads[u].pc, q)
    ensures AtMostOne(n)
  {
    hide Holds;
  }

  /** The thread's token becomes a pending entry. */
  lemma OfferHandsOver(s: Service, t: nat)
    requires AtMostOne(s) && Enabled(s, Offer(t))
    ensures AtMostOne(Step(s, Offer(t)))
  {
    hide LocalStep;
    SoleHolder(s, t, s.threads[t].pc.q);
  }

  /** The first pending entry becomes the worker's token. */
  lemma TakeWorkHandsOver(s: Service)
    requires AtMostOne(s) && Enabled(s, TakeWork)
    ensures AtMostOne(Step(s, TakeWork))
  {
    hide LocalStep;
    assert s.pending[0] in s.pending;
    assert forall q :: q in s.pending[1..] ==> q in s.pending;
  }

  /** The worker's token becomes that of the delivery it starts. */
  lemma DeliveryHandsOver(s: Service, t: nat, newId: nat)
    requires AtMostOne(s) && Enabled(s, StartDelivery(t, newId))
    ensures AtMostOne(Step(s, StartDelivery(t, newId)))
  {
    hide LocalStep;
    SoleHolder(s, t, s.threads[t].pc.q);
  }

  lemma GlobalHeldIsScheduled(s: Service, a: Action)
    requires Inv(s) && Enabled(s, a) && !IsLocal(a)
    ensures HeldIsScheduled(Step(s, a))
  {
    hide Step, Contents, Flights, Permits, ScheduledIsHeld, AtMostOne;
    var n := Step(s, a);
    GlobalQueues(s, a);
    forall q | q in n.queues && Held(n, q)
      ensures n.queues[q].scheduled
    {
      GlobalHeldComes(s, a, q);
      HeldExists(s, q);
      assert s.queues[q].scheduled;
    }
    assert forall t, q :: t in n.threads && Holds(n.threads[t].pc, q) ==> Held(n, q);
    assert forall i :: 0 <= i < |n.pending| ==> Held(n, n.pending[i]);
    hide Held, Refs;
  }

  lemma GlobalScheduledIsHeld(s: Service, a: Action)
    requires Inv(s) && Enabled(s, a) && !IsLocal(a)
    ensures ScheduledIsHeld(Step(s, a))
  {
    hide Step, Contents, Flights, Permits, AtMostOne, HeldIsScheduled, HeldByThread, Refs;
    var n := Step(s, a);
    GlobalQueues(s, a);
    forall q | q in n.queues && n.queues[q].scheduled
      ensures Held(n, q)
    {
      assert Held(s, q);
      GlobalHeldStays(s, a, q);
    }
  }

  lemma GlobalContents(s: Service, a: Action)
    requires Inv(s) && Enabled(s, a) && !IsLocal(a)
    ensures Contents(Step(s, a))
  {
    hide Step, Enabled, Tokens, Flights, QueueOk;
    var n := Step(s, a);
    GlobalQueues(s, a);
    forall q | q in n.queues
      ensures QueueOk(n, q)
    {
      GlobalQueueOk(s, a, q);
    }
    forall t | t in n.threads && n.threads[t].pc.Removing?
      ensures t in s.threads && n.threads[t] == s.threads[t] && Touches(s.threads[t].pc, s.threads[t].pc.q)
    {
      GlobalThread(s, a, t);
    }
    hide Permits;
  }

  lemma GlobalQueueOk(s: Service, a: Action, q: nat)
    requires Refs(s) && Contents(s) && Enabled(s, a) && !IsLocal(a) && q in Step(s, a).queues
    ensures QueueOk(Step(s, a), q)
  {
    hide LocalStep, QueueOk;
    if a.GetQueue? {
      GetQueueOk(s, a.t, a.newId, q);
    } else if a.Remove? {
      RemoveQueueOk(s, a.t, q);
    } else {
      UntouchedQueueOk(s, a, q);
    }
  }

  lemma UntouchedQueueOk(s: Service, a: Action, q: nat)
    requires Contents(s) && Enabled(s, a) && !IsLocal(a) && !a.GetQueue? && !a.Remove? && q in Step(s, a).queues
    ensures QueueOk(Step(s, a), q)
  {
    hide LocalStep;
    var n := Step(s, a);
    assert n.queues == s.queues && n.rooms == s.rooms && QueueOk(s, q);
  }

  lemma GetQueueOk(s: Service, t: nat, newId: nat, q: nat)
    requires Contents(s) && Enabled(s, GetQueue(t, newId)) && q in Step(s, GetQueue(t, newId)).queues
    ensures QueueOk(Step(s, GetQueue(t, newId)), q)
  {
    if q in s.queues {
      assert QueueOk(s, q);
    }
  }

  lemma RemoveQueueOk(s: Service, t: nat, q: nat)
    requires Contents(s) && Enabled(s, Remove(t)) && q in s.queues
    ensures QueueOk(Step(s, Remove(t)), q)
  {
    hide LocalStep;
    assert QueueOk(s, q) && QueueOk(s, s.threads[t].pc.q);
  }

  lemma GlobalFlightStays(s: Service, a: Action, q: nat)
    requires Enabled(s, a) && !IsLocal(a) && SomeInFlight(s, q)
    ensures SomeInFlight(Step(s, a), q)
  {
    hide LocalStep;
    var n := Step(s, a);
    var t :| t in s.threads && InFlight(s.threads[t].pc, q);
    var u := if a.StartDelivery? && a.t == t then a.newId else t;
    assert u in n.threads && InFlight(n.threads[u].pc, q);
  }

  lemma GlobalFlightIsNext(s: Service, a: Action)
    requires Inv(s) && Enabled(s, a) && !IsLocal(a)
    ensures FlightIsNext(Step(s, a))
  {
    hide Step, Contents, Tokens, GroundedIsFinished, OnlyShutdownDrops;
    var n := Step(s, a);
    GlobalQueues(s, a);
    forall t, q | t in n.threads && q in n.queues && InFlight(n.threads[t].pc, q)
      ensures n.queues[q].taken == Events(n.queues[q].finished) + [n.threads[t].pc.body]
    {
      GlobalThread(s, a, t);
      var u := if t in s.threads then t else WORKER;
      assert Touches(s.threads[u].pc, q) && InFlight(s.threads[u].pc, q);
    }
  }

  lemma GlobalDrops(s: Service, a: Action)
    requires OnlyShutdownDrops(s) && Enabled(s, a) && !IsLocal(a)
    ensures OnlyShutdownDrops(Step(s, a))
  {
    hide Step;
    GlobalQueues(s, a);
    GlobalCancelled(s, a);
  }

  lemma GlobalCancelled(s: Service, a: Action)
    requires Enabled(s, a) && !IsLocal(a)
    ensures s.cancelled ==> Step(s, a).cancelled
  {
    hide LocalStep;
  }

  lemma GlobalGrounded(s: Service, a: Action)
    requires Inv(s) && Enabled(s, a) && !IsLocal(a)
    ensures GroundedIsFinished(Step(s, a))
  {
    hide Step, Contents, Permits, Tokens, FlightIsNext, OnlyShutdownDrops, SomeInFlight;
    GlobalQueues(s, a);
    forall q | SomeInFlight(s, q)
      ensures SomeInFlight(Step(s, a), q)
    {
      GlobalFlightStays(s, a, q);
    }
  }

  /** Moving one thread on, or ending it, keeps the count of permits. */
  lemma ProceedPermits(s: Service, t: nat, pc: Pc)
    requires t in s.threads && s.permits == |Permitted(s.threads)| <= MAX_DELIVERIES
    ensures var n := Proceed(s, t, pc); n.permits == |Permitted(n.threads)| <= MAX_DELIVERIES
  {
    PermitOfOne(s.threads, Proceed(s, t, pc).threads, t);
  }

  lemma StepPermits(s: Service, a: Action)
    requires Inv(s) && Enabled(s, a)
    ensures Permits(Step(s, a))
  {
    hide Contents, Tokens, Flights, Refs, Moved;
    StepRoles(s, a);
    hide Roles;
    if IsLocal(a) {
      LocalPermits(s, a);
    } else {
      GlobalPermits(s, a);
    }
  }

  lemma LocalPermits(s: Service, a: Action)
    requires Enabled(s, a) && IsLocal(a) && s.permits == |Permitted(s.threads)| <= MAX_DELIVERIES
    ensures var n := LocalStep(s, a); n.permits == |Permitted(n.threads)| <= MAX_DELIVERIES
  {
    hide Proceed, Moved, Permitted;
    var t, q := Actor(a), Target(s, a);
    var m := Moved(a, s.threads[t].pc, q, s.queues[q]);
    ProceedPermits(s.(queues := s.queues[q := m.queue]), t, m.pc);
  }

  lemma GlobalPermits(s: Service, a: Action)
    requires Enabled(s, a) && !IsLocal(a) && Permits(s)
    ensures var n := Step(s, a); n.permits == |Permitted(n.threads)| <= MAX_DELIVERIES
  {
    hide Step, Permitted;
    if a.StartDelivery? {
      DeliveryPermit(s, a.t, a.newId);
    } else if !a.Shutdown? {
      GlobalOneThread(s, a);
      PermitOfOne(s.threads, Step(s, a).threads, Actor(a));
    } else {
      ShutdownMovesNobody(s);
    }
  }

  lemma ShutdownMovesNobody(s: Service)
    ensures var n := Step(s, Shutdown); n.threads == s.threads && n.permits == s.permits
  {
  }

  /** The other steps change one thread and return its permit if they end it. */
  lemma GlobalOneThread(s: Service, a: Action)
    requires Enabled(s, a) && !IsLocal(a) && !a.StartDelivery? && !a.Shutdown? && Permits(s)
    ensures var n, t := Step(s, a), Actor(a);
      && t in s.threads && t in n.threads && n.threads == s.threads[t := n.threads[t]]
      && (n.threads[t].permit ==> s.threads[t].permit)
      && n.permits == s.permits - (if s.threads[t].permit && !n.threads[t].permit && s.permits > 0 then 1 else 0)
  {
    hide LocalStep, Permitted, Roles;
  }

  lemma DeliveryPermit(s: Service, t: nat, newId: nat)
    requires Enabled(s, StartDelivery(t, newId)) && Permits(s)
    ensures var n := Step(s, StartDelivery(t, newId)); n.permits == |Permitted(n.threads)| <= MAX_DELIVERIES
  {
    hide LocalStep;
    var n := Step(s, StartDelivery(t, newId));
    assert s.threads[t].pc.Acquiring? && t == WORKER;
    assert Permitted(n.threads) == Permitted(s.threads) + {newId};
  }

  /** When one thread changes, the permits change by its permit. */
  lemma PermitOfOne(before: map<nat, Thread>, after: map<nat, Thread>, t: nat)
    requires t in before && t in after && after == before[t := after[t]]
    requires after[t].permit ==> before[t].permit
    ensures |Permitted(after)| == |Permitted(before)| - (if before[t].permit && !after[t].permit then 1 else 0)
    ensures before[t].permit ==> |Permitted(before)| > 0
  {
    if before[t].permit {
      assert t in Permitted(before);
      if !after[t].permit {
        assert Permitted(after) == Permitted(before) - {t};
      } else {
        assert Permitted(after) == Permitted(before);
      }
    } else {
      assert Permitted(after) == Permitted(before);
    }
  }

  lemma StepRoles(s: Service, a: Action)
    requires Inv(s) && Enabled(s, a)
    ensures Roles(Step(s, a))
  {
    hide Contents, Tokens, Flights, Refs, Moved;
    if IsLocal(a) {
      LocalRoles(s, a);
    } else {
      GlobalRoles(s, a);
    }
  }

  lemma LocalRoles(s: Service, a: Action)
    requires Roles(s) && Enabled(s, a) && IsLocal(a)
    ensures Roles(LocalStep(s, a))
  {
    hide Proceed, Moved;
    var t, q := Actor(a), Target(s, a);
    var m := Moved(a, s.threads[t].pc, q, s.queues[q]);
    MovedRoles(s, a);
    ProceedRoles(s.(queues := s.queues[q := m.queue]), t, m.pc);
  }

  lemma MovedRoles(s: Service, a: Action)
    requires Roles(s) && Enabled(s, a) && IsLocal(a)
    ensures var t, q := Actor(a), Target(s, a);
      var m := Moved(a, s.threads[t].pc, q, s.queues[q]);
      && !m.pc.Delivering? && !m.pc.Sending? && (m.pc.Lookup? ==> s.threads[t].pc.Sending?)
      && (WorkerOnly(m.pc) ==> t == WORKER)
  {
  }

  lemma ProceedRoles(s: Service, t: nat, pc: Pc)
    requires Roles(s) && t in s.threads
    requires !pc.Delivering? && !pc.Sending? && (pc.Lookup? ==> s.threads[t].pc.Sending?)
    requires WorkerOnly(pc) ==> t == WORKER
    ensures Roles(Proceed(s, t, pc))
  {
  }

  lemma GlobalRoles(s: Service, a: Action)
    requires Refs(s) && Roles(s) && Enabled(s, a) && !IsLocal(a)
    ensures Roles(Step(s, a))
  {
    hide Step, Roles, Refs;
    var n := Step(s, a);
    forall u | u in n.threads
      ensures RoleOf(n, u)
    {
      assert u in s.threads ==> RoleOf(s, u) by { RolesOf(s); }
      GlobalThread(s, a, u);
    }
    GlobalPendingSize(s, a);
    RolesOf(n);
  }

  lemma GlobalPendingSize(s: Service, a: Action)
    requires Roles(s) && Enabled(s, a) && !IsLocal(a)
    ensures |Step(s, a).pending| <= PENDING_CAP
  {
    hide LocalStep;
  }

  /** What `Roles` says of one thread. */
  ghost predicate RoleOf(s: Service, t: nat)
    requires t in s.threads
  {
    var pc, permit := s.threads[t].pc, s.threads[t].permit;
    && (pc.Delivering? ==> permit)
    && (pc.Lookup? || pc.Sending? || pc.Idle? || t == WORKER ==> !permit)
    && (WorkerOnly(pc) ==> t == WORKER)
  }

  lemma RolesOf(s: Service)
    ensures Roles(s) <==> (forall t :: t in s.threads ==> RoleOf(s, t)) && |s.pending| <= PENDING_CAP
  {
  }

  lemma StepKeepsInv(s: Service, a: Action)
    requires Inv(s) && Enabled(s, a)
    ensures Inv(Step(s, a))
  {
    hide Refs, AtMostOne, HeldIsScheduled, ScheduledIsHeld, Contents, Permits, Goto, Done, LocalStep;
    hide FlightIsNext, GroundedIsFinished, OnlyShutdownDrops;
    StepPermits(s, a);
    if IsLocal(a) {
      LocalKeepsInv(s, a);
    } else {
      GlobalRefs(s, a);
      GlobalAtMostOne(s, a);
      GlobalHeldIsScheduled(s, a);
      GlobalScheduledIsHeld(s, a);
      GlobalContents(s, a);
      GlobalFlightIsNext(s, a);
      GlobalDrops(s, a);
      GlobalGrounded(s, a);
    }
  }

  // ---- Every reachable state ----

  /** No queues, idle threads, nothing pending. */
  ghost predicate Initial(s: Service) {
    && s.queues == map[] && s.rooms == map[] && s.pending == [] && s.permits == 0 && !s.cancelled
    && forall t :: t in s.threads ==> s.threads[t] == Thread(Idle, false)
  }

  ghost predicate Execution(s: Service, actions: seq<Action>)
    decreases |actions|
  {
    actions == [] || (Enabled(s, actions[0]) && Execution(Step(s, actions[0]), actions[1..]))
  }

  function Reached(s: Service, actions: seq<Action>): Service
    requires Execution(s, actions)
    decreases |actions|
  {
    if actions == [] then s else Reached(Step(s, actions[0]), actions[1..])
  }

  lemma {:induction false} ExecutionKeepsInv(s: Service, actions: seq<Action>)
    requires Inv(s) && Execution(s, actions)
    ensures Inv(Reached(s, actions))
    decreases |actions|
  {
    hide Inv, Step, Enabled;
    if actions != [] {
      StepKeepsInv(s, actions[0]);
      ExecutionKeepsInv(Step(s, actions[0]), actions[1..]);
    }
  }

  /** What the queues promise, in every state of every interleaving: the schedule token is held at most once and the
      flag says so; events are finished one at a time, in the order accepted; a closed queue is empty; an event that
      was accepted and not taken sits in an open queue the room map leads to; an event is given up only after
      shutdown; at most eight deliveries run. */
  ghost predicate Safe(s: Service) {
    && AtMostOne(s)
    && (forall q :: q in s.queues ==> (s.queues[q].scheduled <==> q in s.pending || HeldByThread(s, q)))
    && (forall q :: q in s.queues ==> QueueSafe(s, q))
    && |Running(s)| <= MAX_DELIVERIES
  }

  function Running(s: Service): set<nat> {
    set t | t in s.threads && s.threads[t].pc.Delivering?
  }

  ghost predicate QueueSafe(s: Service, q: nat)
    requires q in s.queues
  {
    var qu := s.queues[q];
    && (qu.closed ==> qu.ch == [])
    && (qu.ch != [] ==> !qu.closed && qu.room in s.rooms && s.rooms[qu.room] == q)
    && (exists flying: seq<Event> :: |flying| <= 1 && qu.accepted == Events(qu.finished) + flying + qu.ch)
    && (forall i :: 0 <= i < |qu.finished| && !qu.finished[i].delivered ==> s.cancelled)
  }

  lemma QueueInvIsSafe(s: Service, q: nat)
    requires Inv(s) && q in s.queues
    ensures QueueSafe(s, q)
  {
    hide Refs, Tokens, Permits;
    var qu := s.queues[q];
    assert QueueOk(s, q);
    var flying: seq<Event> := [];
    if SomeInFlight(s, q) {
      var t :| t in s.threads && InFlight(s.threads[t].pc, q);
      flying := [s.threads[t].pc.body];
    } else {
      assert qu.taken == Events(qu.finished) + flying;
    }
    assert |flying| <= 1 && qu.accepted == Events(qu.finished) + flying + qu.ch;
  }

  lemma InvIsSafe(s: Service)
    requires Inv(s)
    ensures Safe(s)
  {
    hide Contents, Flights, QueueSafe, AtMostOne;
    forall q | q in s.queues
      ensures s.queues[q].scheduled <==> q in s.pending || HeldByThread(s, q)
      ensures QueueSafe(s, q)
    {
      QueueInvIsSafe(s, q);
      if !s.queues[q].scheduled {
        NobodyHolds(s, q);
      }
    }
    assert Running(s) <= Permitted(s.threads);
    SubsetSize(Running(s), Permitted(s.threads));
  }

  lemma EveryReachableStateIsSafe(s: Service, actions: seq<Action>)
    requires Initial(s) && Execution(s, actions)
    ensures Safe(Reached(s, actions))
  {
    assert Permitted(s.threads) == {};
    assert Inv(s);
    ExecutionKeepsInv(s, actions);
    InvIsSafe(Reached(s, actions));
  }
}
