/** Who serves the webhook queues: sends, deliveries and the worker's sweep lead an event on. */
module WebhookProgress {
  import opened Collections
  import opened WebhookQueue
  import opened WebhookSafety

  /** The worker waits for something to do. */
  predicate WorkerIdle(s: Service) {
    WORKER in s.threads && s.threads[WORKER] == Thread(Idle, false)
  }

  /** The queue has events and takes more. */
  predicate Backlogged(s: Service, q: nat) {
    q in s.queues && !s.queues[q].closed && s.queues[q].ch != []
  }

  lemma {:induction false} ExecutionAppend(s: Service, a: seq<Action>, b: seq<Action>)
    requires Execution(s, a) && Execution(Reached(s, a), b)
    ensures Execution(s, a + b) && Reached(s, a + b) == Reached(Reached(s, a), b)
    decreases |a|
  {
    hide Step, Enabled;
    if a == [] {
      assert a + b == b;
    } else {
      ExecutionAppend(Step(s, a[0]), a[1..], b);
      assert (a + b)[0] == a[0] && (a + b)[1..] == a[1..] + b;
    }
  }

  lemma OneStep(s: Service, a: Action)
    requires Enabled(s, a)
    ensures Execution(s, [a]) && Reached(s, [a]) == Step(s, a)
  {
    assert [a][1..] == [];
  }

  /** Two steps in a row. */
  lemma ThenStep(s: Service, done: seq<Action>, a: Action)
    requires Execution(s, done) && Enabled(Reached(s, done), a)
    ensures Execution(s, done + [a]) && Reached(s, done + [a]) == Step(Reached(s, done), a)
  {
    OneStep(Reached(s, done), a);
    ExecutionAppend(s, done, [a]);
  }

  // ---- Scheduling a queue ----

  /** t stands at a step of queue q. */
  predicate Stands(s: Service, t: nat, pc: Pc) {
    t in s.threads && s.threads[t].pc == pc
  }

  /** The thread ends, and its permit with it; the rest of the service is as given. */
  ghost predicate EndsIn(s: Service, t: nat, queues: map<nat, Queue>, pending: seq<nat>, n: Service)
    requires t in s.threads
  {
    n == Done(s.(queues := queues, pending := pending), t)
  }

  lemma CheckOpenStep(s: Service, t: nat, q: nat)
    requires Stands(s, t, Scheduling(q)) && q in s.queues
    ensures Enabled(s, CheckOpen(t))
    ensures Step(s, CheckOpen(t)) == if s.queues[q].closed then Done(s, t) else Goto(s, t, Claiming(q))
  {
    assert s.queues[q := s.queues[q]] == s.queues;
  }

  lemma ClaimStep(s: Service, t: nat, q: nat)
    requires Stands(s, t, Claiming(q)) && q in s.queues
    ensures Enabled(s, Claim(t))
    ensures Step(s, Claim(t)) ==
      if s.queues[q].scheduled then Done(s, t)
      else Goto(s.(queues := s.queues[q := s.queues[q].(scheduled := true)]), t, Offering(q))
  {
    assert s.queues[q := s.queues[q]] == s.queues;
  }

  lemma OfferStep(s: Service, t: nat, q: nat)
    requires Stands(s, t, Offering(q)) && q in s.queues && |s.pending| < PENDING_CAP
    ensures Enabled(s, Offer(t)) && Step(s, Offer(t)) == Done(s.(pending := s.pending + [q]), t)
  {
  }

  lemma GiveUpSteps(s: Service, t: nat, q: nat)
    requires Stands(s, t, Offering(q)) && q in s.queues && |s.pending| >= 64
    ensures Enabled(s, GiveUp(t)) && Enabled(Step(s, GiveUp(t)), Unclaim(t))
    ensures Step(Step(s, GiveUp(t)), Unclaim(t))
      == Done(Goto(s.(queues := s.queues[q := s.queues[q].(scheduled := false)]), t, Unclaiming(q)), t)
  {
    assert s.queues[q := s.queues[q]] == s.queues;
    assert Step(s, GiveUp(t)) == Goto(s, t, Unclaiming(q));
  }

  /** A thread that schedules an open queue which nobody holds makes it pending, if there is room. */
  lemma SchedulingLeads(s: Service, t: nat, q: nat)
    requires Stands(s, t, Scheduling(q)) && q in s.queues && !s.queues[q].closed && !s.queues[q].scheduled
    requires |s.pending| < 64
    ensures var done := [CheckOpen(t), Claim(t), Offer(t)];
      && Execution(s, done)
      && EndsIn(s, t, s.queues[q := s.queues[q].(scheduled := true)], s.pending + [q], Reached(s, done))
  {
    hide Step, Enabled, Execution, Reached;
    CheckOpenStep(s, t, q);
    OneStep(s, CheckOpen(t));
    var a := Goto(s, t, Claiming(q));
    ClaimStep(a, t, q);
    ThenStep(s, [CheckOpen(t)], Claim(t));
    var b := Goto(a.(queues := a.queues[q := a.queues[q].(scheduled := true)]), t, Offering(q));
    OfferStep(b, t, q);
    ThenStep(s, [CheckOpen(t)] + [Claim(t)], Offer(t));
    assert [CheckOpen(t)] + [Claim(t)] + [Offer(t)] == [CheckOpen(t), Claim(t), Offer(t)];
    hide *;
    EndsAlike(s, b, t, s.queues[q := s.queues[q].(scheduled := true)], s.pending + [q]);
  }

  lemma EndsAlike(s: Service, b: Service, t: nat, queues: map<nat, Queue>, pending: seq<nat>)
    requires t in s.threads && t in b.threads && b.threads[t].permit == s.threads[t].permit
    requires b.threads == s.threads[t := b.threads[t]] && b.queues == queues
    requires b.rooms == s.rooms && b.permits == s.permits && b.cancelled == s.cancelled
    ensures EndsIn(s, t, queues, pending, Done(b.(pending := pending), t))
  {
    assert s.threads[t := b.threads[t]][t := Thread(Idle, false)] == s.threads[t := Thread(Idle, false)];
  }

  // ---- Single steps ----

  /** The sweep finds exactly the open queues that have events. */
  lemma SweepFinds(s: Service, q: nat)
    requires WorkerIdle(s)
    ensures Enabled(s, Reschedule(q)) <==> Backlogged(s, q)
    ensures Backlogged(s, q) ==> Step(s, Reschedule(q)) == Goto(s, WORKER, Scheduling(q))
  {
    if q in s.queues {
      assert s.queues[q := s.queues[q]] == s.queues;
    }
  }

  /** A send to an open queue with fewer than 32 events appends its event and goes on to schedule the queue; to a full
      one it is given up; and to a closed one it is tried once more with the room's queue of then. */
  lemma SendLeads(s: Service, t: nat, q: nat, room: nat, body: Event, attempt: nat)
    requires Stands(s, t, Sending(q, room, body, attempt)) && q in s.queues
    ensures Enabled(s, TrySend(t))
    ensures var qu, n := s.queues[q], Step(s, TrySend(t));
      if qu.closed then n == if attempt == 0 then Goto(s, t, Lookup(room, body, 1)) else Done(s, t)
      else if |qu.ch| >= 32 then n == Done(s, t)
      else n == Goto(s.(queues := s.queues[q := qu.(ch := qu.ch + [body], emptySince := false,
                                                      accepted := qu.accepted + [body])]), t, Scheduling(q))
  {
    assert s.queues[q := s.queues[q]] == s.queues;
  }

  lemma TakeWorkStep(s: Service)
    requires WorkerIdle(s) && s.pending != []
    ensures Enabled(s, TakeWork)
    ensures Step(s, TakeWork) == Goto(s.(pending := s.pending[1..]), WORKER, Working(s.pending[0]))
  {
  }

  lemma CheckWorkStep(s: Service, t: nat, q: nat)
    requires Stands(s, t, Working(q)) && q in s.queues
    ensures Enabled(s, CheckWork(t))
    ensures Step(s, CheckWork(t)) == Goto(s, t, if s.queues[q].closed then Unclaiming(q) else Taking(q))
  {
    assert s.queues[q := s.queues[q]] == s.queues;
  }

  lemma ReceiveStep(s: Service, t: nat, q: nat)
    requires Stands(s, t, Taking(q)) && q in s.queues
    ensures Enabled(s, Receive(t))
    ensures var qu := s.queues[q];
      Step(s, Receive(t)) ==
        if qu.ch == [] then Goto(s, t, Unclaiming(q))
        else Goto(s.(queues := s.queues[q := qu.(ch := qu.ch[1..], taken := qu.taken + [qu.ch[0]])]), t,
                  Acquiring(q, qu.ch[0]))
  {
    assert s.queues[q := s.queues[q]] == s.queues;
  }

  lemma UnclaimStep(s: Service, t: nat, q: nat)
    requires Stands(s, t, Unclaiming(q)) && q in s.queues
    ensures Enabled(s, Unclaim(t))
    ensures Step(s, Unclaim(t)) == Done(s.(queues := s.queues[q := s.queues[q].(scheduled := false)]), t)
  {
  }

  lemma StartStep(s: Service, t: nat, q: nat, body: Event, id: nat)
    requires Stands(s, t, Acquiring(q, body)) && q in s.queues && s.permits < 8 && id !in s.threads
    requires !s.threads[t].permit
    ensures Enabled(s, StartDelivery(t, id))
    ensures Step(s, StartDelivery(t, id))
      == s.(threads := s.threads[t := Thread(Idle, false)][id := Thread(Delivering(q, body), true)],
            permits := s.permits + 1)
  {
  }

  lemma FinishStep(s: Service, t: nat, q: nat, body: Event)
    requires Stands(s, t, Delivering(q, body)) && q in s.queues
    ensures Enabled(s, FinishDelivery(t))
    ensures var qu := s.queues[q];
      Step(s, FinishDelivery(t))
        == Goto(s.(queues := s.queues[q := qu.(finished := qu.finished + [Outcome(body, true)])]), t, Delivered(q))
  {
  }

  lemma ReleaseStep(s: Service, t: nat, q: nat)
    requires Stands(s, t, Delivered(q)) && q in s.queues
    ensures Enabled(s, ReleaseToken(t))
    ensures Step(s, ReleaseToken(t))
      == Goto(s.(queues := s.queues[q := s.queues[q].(scheduled := false)]), t, Checking(q))
  {
  }

  /** After a delivery the queue is scheduled again exactly if it is open and has more; an open empty one is marked. */
  lemma RecheckStep(s: Service, t: nat, q: nat)
    requires Stands(s, t, Checking(q)) && q in s.queues
    ensures Enabled(s, Recheck(t))
    ensures var qu := s.queues[q];
      Step(s, Recheck(t)) ==
        if qu.closed then Done(s, t)
        else if qu.ch != [] then Goto(s, t, Scheduling(q))
        else Done(s.(queues := s.queues[q := qu.(emptySince := true)]), t)
  {
    assert s.queues[q := s.queues[q]] == s.queues;
  }

  /** The worker evicts exactly an open, empty queue with the idle mark: it is closed, and then leaves the room map. */
  lemma EvictStep(s: Service, q: nat)
    requires WorkerIdle(s)
    ensures Enabled(s, Evict(q))
      <==> q in s.queues && !s.queues[q].closed && s.queues[q].ch == [] && s.queues[q].emptySince
    ensures Enabled(s, Evict(q)) ==>
      Step(s, Evict(q)) == Goto(s.(queues := s.queues[q := s.queues[q].(closed := true)]), WORKER, Removing(q))
  {
  }

  lemma RemoveStep(s: Service, t: nat, q: nat)
    requires Stands(s, t, Removing(q)) && q in s.queues
    ensures Enabled(s, Remove(t))
    ensures var room := s.queues[q].room;
      Step(s, Remove(t)) == Done(if room in s.rooms && s.rooms[room] == q then s.(rooms := s.rooms - {room}) else s, t)
  {
  }

  // ---- What the room map and the idle mark mean ----

  /** The room map leads to open queues, but for one the worker is about to remove. */
  ghost predicate MapIsOpen(s: Service) {
    forall r :: r in s.rooms && s.rooms[r] in s.queues && s.queues[s.rooms[r]].closed ==>
      WORKER in s.threads && s.threads[WORKER].pc == Removing(s.rooms[r])
  }

  /** A queue with the idle mark has no events. */
  ghost predicate MarksAreIdle(s: Service) {
    forall q :: q in s.queues && s.queues[q].emptySince ==> s.queues[q].ch == []
  }

  lemma MovedMark(a: Action, pc: Pc, q: nat, qu: Queue)
    requires qu.emptySince ==> qu.ch == []
    ensures Moved(a, pc, q, qu).queue.emptySince ==> Moved(a, pc, q, qu).queue.ch == []
  {
  }

  /** A local step closes no queue but by an eviction, and takes the worker off no removal. */
  lemma MovedCloses(s: Service, a: Action)
    requires Enabled(s, a) && IsLocal(a)
    ensures var pc, q := s.threads[Actor(a)].pc, Target(s, a);
      var m := Moved(a, pc, q, s.queues[q]);
      && !pc.Removing? && m.queue.room == s.queues[q].room
      && (m.queue.closed ==> s.queues[q].closed || (Actor(a) == WORKER && m.pc == Removing(q)))
  {
  }

  lemma LocalMeans(s: Service, a: Action)
    requires MapIsOpen(s) && MarksAreIdle(s) && Enabled(s, a) && IsLocal(a)
    ensures MapIsOpen(LocalStep(s, a)) && MarksAreIdle(LocalStep(s, a))
  {
    var t, q := Actor(a), Target(s, a);
    var m := Moved(a, s.threads[t].pc, q, s.queues[q]);
    MovedMark(a, s.threads[t].pc, q, s.queues[q]);
    MovedCloses(s, a);
    StepIsAdvance(s, a);
    hide Moved, Advance, Proceed, Enabled, IsLocal, LocalStep;
    AdvanceFields(s, t, m.pc, q, m.queue);
  }

  lemma GlobalMarks(s: Service, a: Action)
    requires MarksAreIdle(s) && Enabled(s, a) && !IsLocal(a)
    ensures MarksAreIdle(Step(s, a))
  {
    hide Step, Enabled, IsLocal;
    GlobalQueues(s, a);
  }

  /** What the room map becomes. */
  lemma GlobalRoomMap(s: Service, a: Action, r: nat)
    requires Refs(s) && Enabled(s, a) && !IsLocal(a) && r in Step(s, a).rooms
    ensures var n := Step(s, a);
      && n.rooms[r] in n.queues
      && (!n.queues[n.rooms[r]].closed || (r in s.rooms && s.rooms[r] == n.rooms[r]))
      && (a.Remove? ==> n.rooms[r] != s.threads[a.t].pc.q)
  {
    hide LocalStep;
  }

  lemma WorkerRemoves(s: Service, a: Action, q: nat)
    requires Enabled(s, a) && !IsLocal(a) && WORKER in s.threads && s.threads[WORKER].pc == Removing(q)
    ensures a.Shutdown? || Actor(a) != WORKER || (a.Remove? && s.threads[a.t].pc.q == q)
  {
  }

  lemma GlobalMap(s: Service, a: Action)
    requires Refs(s) && MapIsOpen(s) && Enabled(s, a) && !IsLocal(a)
    ensures MapIsOpen(Step(s, a))
  {
    hide Step, Enabled, IsLocal, Refs;
    var n := Step(s, a);
    GlobalQueues(s, a);
    forall r | r in n.rooms && n.rooms[r] in n.queues && n.queues[n.rooms[r]].closed
      ensures WORKER in n.threads && n.threads[WORKER].pc == Removing(n.rooms[r])
    {
      GlobalRoomMap(s, a, r);
      RoomIsQueue(s, r);
      WorkerRemoves(s, a, s.rooms[r]);
      GlobalOthersStay(s, a, WORKER);
    }
  }

  lemma RoomIsQueue(s: Service, r: nat)
    requires Refs(s) && r in s.rooms
    ensures s.rooms[r] in s.queues
  {
  }

  lemma {:induction false} ExecutionMeans(s: Service, actions: seq<Action>)
    requires Inv(s) && MapIsOpen(s) && MarksAreIdle(s) && Execution(s, actions)
    ensures MapIsOpen(Reached(s, actions)) && MarksAreIdle(Reached(s, actions))
    decreases |actions|
  {
    hide Tokens, Contents, Flights, Refs, Roles, MapIsOpen, MarksAreIdle, Enabled, LocalStep;
    if actions != [] {
      var a := actions[0];
      StepKeepsInv(s, a);
      if IsLocal(a) {
        LocalMeans(s, a);
      } else {
        GlobalMap(s, a);
        GlobalMarks(s, a);
      }
      hide Step, Inv;
      ExecutionMeans(Step(s, a), actions[1..]);
    }
  }

  /** In every reachable state the room map leads to open queues, except for one that the worker is removing, and only
      empty queues carry the idle mark; so when everybody rests a send finds an open queue. */
  lemma MapLeadsToOpenQueues(s: Service, actions: seq<Action>)
    requires Initial(s) && Execution(s, actions)
    ensures var n := Reached(s, actions);
      && MapIsOpen(n) && MarksAreIdle(n)
      && (Quiet(n) ==> forall r :: r in n.rooms && n.rooms[r] in n.queues ==> !n.queues[n.rooms[r]].closed)
  {
    InitialIsOk(s);
    hide Inv, Execution, Reached;
    ExecutionMeans(s, actions);
  }

  // ---- From the backlog to the delivery ----

  /** The worker takes the first event of the first pending queue. */
  lemma WorkTakesFirst(s: Service, q: nat)
    requires WorkerIdle(s) && s.pending != [] && s.pending[0] == q && Backlogged(s, q)
    ensures var done, qu := [TakeWork, CheckWork(WORKER), Receive(WORKER)], s.queues[q];
      && Execution(s, done)
      && Reached(s, done)
         == Goto(s.(pending := s.pending[1..],
                    queues := s.queues[q := qu.(ch := qu.ch[1..], taken := qu.taken + [qu.ch[0]])]),
                 WORKER, Acquiring(q, qu.ch[0]))
  {
    hide Step, Enabled, Execution, Reached;
    TakeWorkStep(s);
    OneStep(s, TakeWork);
    var a := Goto(s.(pending := s.pending[1..]), WORKER, Working(q));
    CheckWorkStep(a, WORKER, q);
    ThenStep(s, [TakeWork], CheckWork(WORKER));
    var b := Goto(a, WORKER, Taking(q));
    ReceiveStep(b, WORKER, q);
    ThenStep(s, [TakeWork] + [CheckWork(WORKER)], Receive(WORKER));
    assert [TakeWork] + [CheckWork(WORKER)] + [Receive(WORKER)] == [TakeWork, CheckWork(WORKER), Receive(WORKER)];
    GotoTwice(s.(pending := s.pending[1..]), WORKER, Working(q), Taking(q));
    var qu := s.queues[q];
    var taken := s.queues[q := qu.(ch := qu.ch[1..], taken := qu.taken + [qu.ch[0]])];
    GotoTwice(s.(pending := s.pending[1..], queues := taken), WORKER, Taking(q), Acquiring(q, qu.ch[0]));
  }

  lemma GotoTwice(s: Service, t: nat, a: Pc, b: Pc)
    requires t in s.threads
    ensures Goto(Goto(s, t, a), t, b) == Goto(s, t, b)
  {
  }

  /** A delivery ends, gives the token back, and goes on with the queue exactly if it is open and has more. */
  lemma DeliveryEnds(s: Service, t: nat, q: nat, body: Event)
    requires Stands(s, t, Delivering(q, body)) && q in s.queues
    ensures var done := [FinishDelivery(t), ReleaseToken(t), Recheck(t)];
      && Execution(s, done)
      && (var n, qu := Reached(s, done), s.queues[q];
          && q in n.queues && n.queues[q].finished == qu.finished + [Outcome(body, true)]
          && n.queues[q].ch == qu.ch && !n.queues[q].scheduled && n.queues[q].closed == qu.closed
          && t in n.threads && n.threads[t].pc == (if Backlogged(s, q) then Scheduling(q) else Idle)
          && n.pending == s.pending && n.rooms == s.rooms && n.cancelled == s.cancelled
          && n.queues.Keys == s.queues.Keys
          && n.threads.Keys == s.threads.Keys && forall u :: u in s.threads && u != t ==> n.threads[u] == s.threads[u])
  {
    hide Step, Enabled, Execution, Reached;
    var qu := s.queues[q];
    FinishStep(s, t, q, body);
    OneStep(s, FinishDelivery(t));
    var a := Goto(s.(queues := s.queues[q := qu.(finished := qu.finished + [Outcome(body, true)])]), t, Delivered(q));
    ReleaseStep(a, t, q);
    ThenStep(s, [FinishDelivery(t)], ReleaseToken(t));
    var b := Goto(a.(queues := a.queues[q := a.queues[q].(scheduled := false)]), t, Checking(q));
    RecheckStep(b, t, q);
    ThenStep(s, [FinishDelivery(t)] + [ReleaseToken(t)], Recheck(t));
    assert [FinishDelivery(t)] + [ReleaseToken(t)] + [Recheck(t)] == [FinishDelivery(t), ReleaseToken(t), Recheck(t)];
  }

  /** The sweep makes a backlogged queue pending. */
  lemma SweepLeads(s: Service, q: nat)
    requires WorkerIdle(s) && Backlogged(s, q) && !s.queues[q].scheduled && |s.pending| < 64
    ensures var done := [Reschedule(q), CheckOpen(WORKER), Claim(WORKER), Offer(WORKER)];
      && Execution(s, done)
      && Reached(s, done)
         == s.(queues := s.queues[q := s.queues[q].(scheduled := true)], pending := s.pending + [q])
  {
    hide Step, Enabled, Execution, Reached;
    SweepFinds(s, q);
    OneStep(s, Reschedule(q));
    var a := Goto(s, WORKER, Scheduling(q));
    SchedulingLeads(a, WORKER, q);
    var more := [CheckOpen(WORKER), Claim(WORKER), Offer(WORKER)];
    ExecutionAppend(s, [Reschedule(q)], more);
    assert [Reschedule(q)] + more == [Reschedule(q), CheckOpen(WORKER), Claim(WORKER), Offer(WORKER)];
    assert s.threads[WORKER := Thread(Scheduling(q), false)][WORKER := Thread(Idle, false)] == s.threads;
  }

  /** The steps by which the sweep, the worker and one delivery serve the first event of a queue. */
  function Serving(q: nat, id: nat): seq<Action> {
    [Reschedule(q), CheckOpen(WORKER), Claim(WORKER), Offer(WORKER)] + [TakeWork, CheckWork(WORKER), Receive(WORKER)]
    + [StartDelivery(WORKER, id)] + [FinishDelivery(id), ReleaseToken(id), Recheck(id)]
  }

  /** The first event of q is delivered, nobody holds q, and thread id, which delivered it, goes on with q exactly if
      there is more; nothing else has changed. */
  ghost predicate Served(s: Service, q: nat, id: nat, n: Service)
    requires Backlogged(s, q)
  {
    var qu := s.queues[q];
    && WorkerIdle(n) && n.pending == s.pending && n.rooms == s.rooms && n.cancelled == s.cancelled
    && n.queues.Keys == s.queues.Keys
    && n.queues[q].finished == qu.finished + [Outcome(qu.ch[0], true)] && n.queues[q].ch == qu.ch[1..]
    && !n.queues[q].scheduled && !n.queues[q].closed
    && id in n.threads && n.threads[id].pc == (if qu.ch[1..] != [] then Scheduling(q) else Idle)
    && n.threads.Keys == s.threads.Keys + {id} && forall u :: u in s.threads ==> n.threads[u] == s.threads[u]
  }

  /** The state in which the delivery of the first event of q has begun. */
  function Begun(s: Service, q: nat, id: nat): Service
    requires WORKER in s.threads && Backlogged(s, q)
  {
    var qu := s.queues[q];
    s.(queues := s.queues[q := qu.(scheduled := true, ch := qu.ch[1..], taken := qu.taken + [qu.ch[0]])], pending := [],
       threads := s.threads[WORKER := Thread(Idle, false)][id := Thread(Delivering(q, qu.ch[0]), true)],
       permits := s.permits + 1)
  }

  lemma BacklogIsTaken(s: Service, q: nat, id: nat)
    requires WorkerIdle(s) && Backlogged(s, q) && !s.queues[q].scheduled && s.pending == []
    requires s.permits < 8 && id !in s.threads
    ensures var done := [Reschedule(q), CheckOpen(WORKER), Claim(WORKER), Offer(WORKER)]
                        + [TakeWork, CheckWork(WORKER), Receive(WORKER)] + [StartDelivery(WORKER, id)];
      Execution(s, done) && Reached(s, done) == Begun(s, q, id)
  {
    hide Step, Enabled, Execution, Reached;
    var qu := s.queues[q];
    SweepLeads(s, q);
    var sweep := [Reschedule(q), CheckOpen(WORKER), Claim(WORKER), Offer(WORKER)];
    var a := s.(queues := s.queues[q := qu.(scheduled := true)], pending := [q]);
    assert Reached(s, sweep) == a;
    WorkTakesFirst(a, q);
    var work := [TakeWork, CheckWork(WORKER), Receive(WORKER)];
    ExecutionAppend(s, sweep, work);
    var b := Reached(a, work);
    StartStep(b, WORKER, q, qu.ch[0], id);
    ThenStep(s, sweep + work, StartDelivery(WORKER, id));
  }

  lemma BacklogIsServed(s: Service, q: nat, id: nat)
    requires WorkerIdle(s) && Backlogged(s, q) && !s.queues[q].scheduled && s.pending == []
    requires s.permits < 8 && id !in s.threads
    ensures Execution(s, Serving(q, id)) && Served(s, q, id, Reached(s, Serving(q, id)))
  {
    hide Step, Enabled, Execution, Reached;
    BacklogIsTaken(s, q, id);
    var c := Begun(s, q, id);
    DeliveryEnds(c, id, q, s.queues[q].ch[0]);
    var done := [Reschedule(q), CheckOpen(WORKER), Claim(WORKER), Offer(WORKER)]
                + [TakeWork, CheckWork(WORKER), Receive(WORKER)] + [StartDelivery(WORKER, id)];
    ExecutionAppend(s, done, [FinishDelivery(id), ReleaseToken(id), Recheck(id)]);
  }

  /** Nobody is doing anything. */
  ghost predicate Quiet(s: Service) {
    s.pending == [] && WORKER in s.threads && forall t :: t in s.threads ==> s.threads[t].pc.Idle?
  }

  lemma QuietIsFree(s: Service, q: nat)
    requires Inv(s) && Quiet(s) && q in s.queues
    ensures WorkerIdle(s) && !s.queues[q].scheduled && s.permits == 0
  {
    hide Contents, Flights, Refs;
    assert Permitted(s.threads) == {};
    assert !HeldByThread(s, q);
  }

  /** In every reachable state in which everybody rests, the sweep serves any queue that has events: its first event is
      delivered, and the thread that did goes on until the queue is empty. */
  lemma QuietBacklogIsServed(s: Service, actions: seq<Action>, q: nat, id: nat)
    requires Initial(s) && Execution(s, actions)
    requires var n := Reached(s, actions); Quiet(n) && Backlogged(n, q) && id !in n.threads
    ensures var n := Reached(s, actions);
      Execution(n, Serving(q, id)) && Served(n, q, id, Reached(n, Serving(q, id)))
  {
    InitialIsOk(s);
    hide Inv, Served, Execution, Initial, Quiet, Reached;
    ExecutionKeepsInv(s, actions);
    QuietIsFree(Reached(s, actions), q);
    BacklogIsServed(Reached(s, actions), q, id);
  }

  lemma InitialIsOk(s: Service)
    requires Initial(s)
    ensures Inv(s)
  {
    assert Permitted(s.threads) == {};
  }

  // ---- Who serves without the sweep ----

  /** The thread is about to schedule queue q if it needs it. */
  predicate Comes(pc: Pc, q: nat) {
    (pc.Scheduling? || pc.Claiming? || pc.Checking?) && pc.q == q
  }

  ghost predicate Coming(s: Service, q: nat) {
    exists t :: t in s.threads && Comes(s.threads[t].pc, q)
  }

  /** Every queue with events is held or somebody is about to schedule it. */
  ghost predicate Cared(s: Service) {
    forall q :: Backlogged(s, q) ==> Held(s, q) || Coming(s, q)
  }

  /** The token is given back although the queue has events: nobody looks at it again. */
  predicate Misses(s: Service, a: Action)
    requires Enabled(s, a)
  {
    a.Unclaim? && Backlogged(s, s.threads[a.t].pc.q)
  }

  /** A step that is not local leaves alone every thread but its own. */
  lemma GlobalOthersStay(s: Service, a: Action, t: nat)
    requires Enabled(s, a) && !IsLocal(a) && t in s.threads && (a.Shutdown? || t != Actor(a))
    ensures t in Step(s, a).threads && Step(s, a).threads[t] == s.threads[t]
  {
    hide LocalStep;
  }

  /** And its own is not about to schedule a queue. */
  lemma GlobalActorDoesNotCome(s: Service, a: Action, q: nat)
    requires Enabled(s, a) && !IsLocal(a) && !a.Shutdown?
    ensures Actor(a) in s.threads && !Comes(s.threads[Actor(a)].pc, q)
  {
  }

  lemma GlobalComingStays(s: Service, a: Action, q: nat)
    requires Enabled(s, a) && !IsLocal(a) && Coming(s, q)
    ensures Coming(Step(s, a), q)
  {
    hide Step, Enabled, IsLocal, Comes;
    var t :| t in s.threads && Comes(s.threads[t].pc, q);
    if !a.Shutdown? {
      GlobalActorDoesNotCome(s, a, q);
    }
    GlobalOthersStay(s, a, t);
  }

  lemma GlobalCared(s: Service, a: Action)
    requires Cared(s) && Enabled(s, a) && !IsLocal(a)
    ensures Cared(Step(s, a))
  {
    hide Step, Enabled, Held, Coming;
    GlobalQueues(s, a);
    forall q | Backlogged(Step(s, a), q)
      ensures Held(Step(s, a), q) || Coming(Step(s, a), q)
    {
      assert Backlogged(s, q);
      if Held(s, q) {
        GlobalHeldStays(s, a, q);
      } else {
        GlobalComingStays(s, a, q);
      }
    }
  }

  /** What a thread may leave behind: a queue without need, or, unchanged, one that it did not care for or that is
      scheduled. */
  ghost predicate MayLeave(pc: Pc, q: nat, before: Queue, after: Queue) {
    || after.closed || after.ch == []
    || (!Holds(pc, q) && after == before && (!Comes(pc, q) || before.scheduled))
  }

  /** The thread that moves cares for its queue afterwards, or may leave it. */
  lemma MoverCares(s: Service, a: Action)
    requires Enabled(s, a) && IsLocal(a) && !Misses(s, a)
    ensures var pc, q := s.threads[Actor(a)].pc, Target(s, a);
      var m := Moved(a, pc, q, s.queues[q]);
      Holds(m.pc, q) || Comes(m.pc, q) || MayLeave(pc, q, s.queues[q], m.queue)
  {
  }

  /** Threads other than the one that moves, and the pending list, stay. */
  lemma OthersCare(s: Service, t: nat, pc: Pc, q: nat, qu: Queue, p: nat)
    requires t in s.threads && q in s.queues && (Held(s, p) || Coming(s, p))
    requires !Holds(s.threads[t].pc, p) && !Comes(s.threads[t].pc, p)
    ensures Held(Advance(s, t, pc, q, qu), p) || Coming(Advance(s, t, pc, q, qu), p)
  {
    hide Advance;
    AdvanceFields(s, t, pc, q, qu);
    var n := Advance(s, t, pc, q, qu);
    if p !in s.pending {
      var u :| u in s.threads && (Holds(s.threads[u].pc, p) || Comes(s.threads[u].pc, p));
      assert u in n.threads && n.threads[u] == s.threads[u];
    }
  }

  /** A token that a thread does not hold is held by another one, or pending. */
  lemma OthersHold(s: Service, t: nat, pc: Pc, q: nat, qu: Queue)
    requires t in s.threads && q in s.queues && Held(s, q) && !Holds(s.threads[t].pc, q)
    ensures Held(Advance(s, t, pc, q, qu), q)
  {
    hide Advance;
    AdvanceFields(s, t, pc, q, qu);
    var n := Advance(s, t, pc, q, qu);
    if q !in s.pending {
      var u :| u in s.threads && Holds(s.threads[u].pc, q);
      assert u in n.threads && n.threads[u] == s.threads[u];
    }
  }

  lemma MoverIsAt(s: Service, a: Action, p: nat)
    requires Enabled(s, a) && IsLocal(a) && (Holds(s.threads[Actor(a)].pc, p) || Comes(s.threads[Actor(a)].pc, p))
    ensures p == Target(s, a)
  {
  }

  lemma LocalCared(s: Service, a: Action)
    requires Inv(s) && Cared(s) && Enabled(s, a) && IsLocal(a) && !Misses(s, a)
    ensures Cared(LocalStep(s, a))
  {
    hide Held, Coming, Inv, Moved, Proceed;
    forall p | Backlogged(LocalStep(s, a), p)
      ensures Held(LocalStep(s, a), p) || Coming(LocalStep(s, a), p)
    {
      if p == Target(s, a) {
        OwnQueueCared(s, a);
      } else {
        OtherQueueCared(s, a, p);
      }
    }
  }

  lemma OwnQueueCared(s: Service, a: Action)
    requires Inv(s) && Cared(s) && Enabled(s, a) && IsLocal(a) && !Misses(s, a)
    ensures var n, q := LocalStep(s, a), Target(s, a); Backlogged(n, q) ==> Held(n, q) || Coming(n, q)
  {
    hide Inv, Cared, Moved, Proceed, Enabled, IsLocal, LocalStep, Misses;
    hide Held, Coming, MayLeave, Holds, Comes, Backlogged;
    StepIsAdvance(s, a);
    MoverCares(s, a);
    var t, q := Actor(a), Target(s, a);
    var m := Moved(a, s.threads[t].pc, q, s.queues[q]);
    if Holds(m.pc, q) || Comes(m.pc, q) {
      MoverHolds(s, t, m.pc, q, m.queue);
    } else {
      OwnQueueLeft(s, t, m.pc, q, m.queue);
    }
  }

  /** The thread that moved holds the token, or is about to schedule. */
  lemma MoverHolds(s: Service, t: nat, pc: Pc, q: nat, qu: Queue)
    requires t in s.threads && q in s.queues && (Holds(pc, q) || Comes(pc, q))
    ensures Held(Advance(s, t, pc, q, qu), q) || Coming(Advance(s, t, pc, q, qu), q)
  {
    hide Advance;
    AdvanceFields(s, t, pc, q, qu);
    assert Advance(s, t, pc, q, qu).threads[t].pc == pc;
  }

  /** It does neither, and leaves the queue as it was to those that do. */
  lemma OwnQueueLeft(s: Service, t: nat, pc: Pc, q: nat, qu: Queue)
    requires Inv(s) && Cared(s) && t in s.threads && q in s.queues
    requires MayLeave(s.threads[t].pc, q, s.queues[q], qu)
    ensures var n := Advance(s, t, pc, q, qu); Backlogged(n, q) ==> Held(n, q) || Coming(n, q)
  {
    AdvanceFields(s, t, pc, q, qu);
    hide Refs, Contents, Flights, Permits, Advance;
    if !qu.closed && qu.ch != [] {
      assert Backlogged(s, q);
      if s.queues[q].scheduled {
        assert Held(s, q);
        OthersHold(s, t, pc, q, qu);
      } else {
        OthersCare(s, t, pc, q, qu, q);
      }
    }
  }

  lemma OtherQueueCared(s: Service, a: Action, p: nat)
    requires Cared(s) && Enabled(s, a) && IsLocal(a) && p != Target(s, a)
    ensures Backlogged(LocalStep(s, a), p) ==> Held(LocalStep(s, a), p) || Coming(LocalStep(s, a), p)
  {
    var t, q := Actor(a), Target(s, a);
    var m := Moved(a, s.threads[t].pc, q, s.queues[q]);
    StepIsAdvance(s, a);
    if Holds(s.threads[t].pc, p) || Comes(s.threads[t].pc, p) {
      MoverIsAt(s, a, p);
    }
    hide Moved, Advance, Proceed, Enabled, IsLocal, Held, Coming;
    AdvanceFields(s, t, m.pc, q, m.queue);
    if Backlogged(LocalStep(s, a), p) {
      assert Backlogged(s, p);
      OthersCare(s, t, m.pc, q, m.queue, p);
    }
  }

  lemma StepIsAdvance(s: Service, a: Action)
    requires Enabled(s, a) && IsLocal(a)
    ensures var t, q := Actor(a), Target(s, a);
      var m := Moved(a, s.threads[t].pc, q, s.queues[q]);
      && t in s.threads && q in s.queues && LocalStep(s, a) == Advance(s, t, m.pc, q, m.queue)
  {
    hide Moved, Proceed;
  }

  lemma StepKeepsCared(s: Service, a: Action)
    requires Inv(s) && Cared(s) && Enabled(s, a) && !Misses(s, a)
    ensures Cared(Step(s, a))
  {
    hide Inv, Cared, LocalStep, Goto, Done;
    if IsLocal(a) {
      LocalCared(s, a);
    } else {
      GlobalCared(s, a);
    }
  }

  /** No token of the run is given back while its queue has events. */
  ghost predicate NeverMisses(s: Service, actions: seq<Action>)
    requires Execution(s, actions)
    decreases |actions|
  {
    actions == [] || (!Misses(s, actions[0]) && NeverMisses(Step(s, actions[0]), actions[1..]))
  }

  lemma {:induction false} ExecutionKeepsCared(s: Service, actions: seq<Action>)
    requires Inv(s) && Cared(s) && Execution(s, actions) && NeverMisses(s, actions)
    ensures Cared(Reached(s, actions))
    decreases |actions|
  {
    hide Inv, Cared, Step, Enabled, Misses;
    if actions != [] {
      StepKeepsInv(s, actions[0]);
      StepKeepsCared(s, actions[0]);
      ExecutionKeepsCared(Step(s, actions[0]), actions[1..]);
    }
  }

  /** As long as no token is given back while its queue has events, every open queue with events is held or about to be
      scheduled; so when everybody rests, none has any. */
  lemma CaredUnlessMissed(s: Service, actions: seq<Action>)
    requires Initial(s) && Execution(s, actions) && NeverMisses(s, actions)
    ensures var n := Reached(s, actions);
      && (forall q :: Backlogged(n, q) ==> Held(n, q) || Coming(n, q))
      && (Quiet(n) ==> forall q :: !Backlogged(n, q))
  {
    InitialIsOk(s);
    hide Inv, Execution, Reached, NeverMisses;
    ExecutionKeepsCared(s, actions);
  }

  // ---- A token given back too early ----

  lemma EmitStep(s: Service, t: nat, room: nat, body: Event)
    requires Stands(s, t, Idle) && t != WORKER && !s.threads[t].permit && !s.cancelled
    ensures Enabled(s, Emit(t, room, body)) && Step(s, Emit(t, room, body)) == Goto(s, t, Lookup(room, body, 0))
  {
  }

  lemma GetQueueStep(s: Service, t: nat, room: nat, body: Event, attempt: nat, newId: nat)
    requires Stands(s, t, Lookup(room, body, attempt)) && room in s.rooms && newId !in s.queues
    ensures Enabled(s, GetQueue(t, newId))
    ensures Step(s, GetQueue(t, newId)) == Goto(s, t, Sending(s.rooms[room], room, body, attempt))
  {
  }

  /** The worker takes an empty queue from the pending list and is about to give its token back. */
  lemma WorkFindsNothing(s: Service, q: nat)
    requires WorkerIdle(s) && s.pending == [q] && q in s.queues && !s.queues[q].closed && s.queues[q].ch == []
    ensures var done := [TakeWork, CheckWork(WORKER), Receive(WORKER)];
      Execution(s, done) && Reached(s, done) == Goto(s.(pending := []), WORKER, Unclaiming(q))
  {
    hide Step, Enabled, Execution, Reached;
    TakeWorkStep(s);
    OneStep(s, TakeWork);
    var a := Goto(s.(pending := []), WORKER, Working(q));
    CheckWorkStep(a, WORKER, q);
    ThenStep(s, [TakeWork], CheckWork(WORKER));
    var b := Goto(a, WORKER, Taking(q));
    ReceiveStep(b, WORKER, q);
    ThenStep(s, [TakeWork] + [CheckWork(WORKER)], Receive(WORKER));
    assert [TakeWork] + [CheckWork(WORKER)] + [Receive(WORKER)] == [TakeWork, CheckWork(WORKER), Receive(WORKER)];
    GotoTwice(s.(pending := []), WORKER, Working(q), Taking(q));
    GotoTwice(s.(pending := []), WORKER, Taking(q), Unclaiming(q));
  }

  /** Thread t sends to its room's open queue, finds it claimed, and leaves it to the holder. */
  lemma SendToClaimed(s: Service, t: nat, room: nat, body: Event, q: nat, newId: nat)
    requires Stands(s, t, Idle) && t != WORKER && !s.threads[t].permit && !s.cancelled && newId !in s.queues
    requires room in s.rooms && s.rooms[room] == q && q in s.queues && !s.queues[q].closed && s.queues[q].scheduled
    requires |s.queues[q].ch| < 32
    ensures var done, qu := [Emit(t, room, body), GetQueue(t, newId), TrySend(t), CheckOpen(t), Claim(t)], s.queues[q];
      && Execution(s, done)
      && Reached(s, done) == s.(queues := s.queues[q := qu.(ch := qu.ch + [body], emptySince := false,
                                                            accepted := qu.accepted + [body])])
  {
    hide Step, Enabled, Execution, Reached;
    var qu := s.queues[q];
    EmitStep(s, t, room, body);
    OneStep(s, Emit(t, room, body));
    var a := Goto(s, t, Lookup(room, body, 0));
    GetQueueStep(a, t, room, body, 0, newId);
    ThenStep(s, [Emit(t, room, body)], GetQueue(t, newId));
    var b := Goto(a, t, Sending(q, room, body, 0));
    SendLeads(b, t, q, room, body, 0);
    ThenStep(s, [Emit(t, room, body)] + [GetQueue(t, newId)], TrySend(t));
    var queues := s.queues[q := qu.(ch := qu.ch + [body], emptySince := false, accepted := qu.accepted + [body])];
    var c := Goto(b.(queues := queues), t, Scheduling(q));
    CheckOpenStep(c, t, q);
    ThenStep(s, [Emit(t, room, body)] + [GetQueue(t, newId)] + [TrySend(t)], CheckOpen(t));
    var d := Goto(c, t, Claiming(q));
    ClaimStep(d, t, q);
    ThenStep(s, [Emit(t, room, body)] + [GetQueue(t, newId)] + [TrySend(t)] + [CheckOpen(t)], Claim(t));
    assert [Emit(t, room, body)] + [GetQueue(t, newId)] + [TrySend(t)] + [CheckOpen(t)] + [Claim(t)]
      == [Emit(t, room, body), GetQueue(t, newId), TrySend(t), CheckOpen(t), Claim(t)];
    assert d.threads[t := Thread(Idle, false)] == s.threads;
  }

  /** Where it begins: the sweep served a queue while thread p, which had sent, had not come to schedule it. */
  ghost predicate Overtaken(s: Service, p: nat, room: nat, q: nat) {
    && WorkerIdle(s) && s.pending == [] && !s.cancelled && p != WORKER
    && Stands(s, p, Scheduling(q)) && !s.threads[p].permit
    && room in s.rooms && s.rooms[room] == q && q in s.queues
    && !s.queues[q].closed && !s.queues[q].scheduled && s.queues[q].ch == []
  }

  /** The steps that follow: p makes the empty queue pending, the worker finds nothing, t sends an event and finds the
      queue claimed, and the worker gives the token back. */
  function Missing(p: nat, t: nat, room: nat, body: Event, newId: nat): seq<Action> {
    [CheckOpen(p), Claim(p), Offer(p)] + [TakeWork, CheckWork(WORKER), Receive(WORKER)]
    + [Emit(t, room, body), GetQueue(t, newId), TrySend(t), CheckOpen(t), Claim(t)] + [Unclaim(WORKER)]
  }

  lemma MissingLeaves(s: Service, p: nat, t: nat, room: nat, body: Event, q: nat, newId: nat)
    requires Overtaken(s, p, room, q) && Stands(s, t, Idle) && t != WORKER && !s.threads[t].permit && newId !in s.queues
    ensures var done := Missing(p, t, room, body, newId);
      && Execution(s, done)
      && (var n := Reached(s, done);
          && Backlogged(n, q) && n.queues[q].ch == [body] && !n.queues[q].scheduled && n.pending == []
          && n.threads == s.threads[p := Thread(Idle, false)] && !n.cancelled)
  {
    hide Step, Enabled, Execution, Reached;
    var qu := s.queues[q];
    var claimed := s.queues[q := qu.(scheduled := true)];
    SchedulingLeads(s, p, q);
    var one := [CheckOpen(p), Claim(p), Offer(p)];
    var a := s.(queues := claimed, pending := [q], threads := s.threads[p := Thread(Idle, false)]);
    assert Reached(s, one) == a by {
      assert s.pending + [q] == [q];
    }
    WorkFindsNothing(a, q);
    var two := [TakeWork, CheckWork(WORKER), Receive(WORKER)];
    ExecutionAppend(s, one, two);
    var b := Goto(a.(pending := []), WORKER, Unclaiming(q));
    SendToClaimed(b, t, room, body, q, newId);
    var three := [Emit(t, room, body), GetQueue(t, newId), TrySend(t), CheckOpen(t), Claim(t)];
    ExecutionAppend(s, one + two, three);
    UnclaimStep(Reached(b, three), WORKER, q);
    ThenStep(s, one + two + three, Unclaim(WORKER));
    assert b.threads[WORKER := Thread(Idle, false)] == a.threads;
  }

  /** Three threads rest and nothing is there. */
  const START := Service(map[], map[], [],
                         map[0 := Thread(Idle, false), 1 := Thread(Idle, false), 2 := Thread(Idle, false)], 0, false)

  lemma FirstSend()
    ensures Initial(START)
    ensures var done := [Emit(1, 7, 10), GetQueue(1, 5), TrySend(1)];
      && Execution(START, done)
      && Reached(START, done)
         == START.(rooms := map[7 := 5], threads := START.threads[1 := Thread(Scheduling(5), false)],
                   queues := map[5 := NewQueue(7).(ch := [10], accepted := [10])])
  {
    hide Execution, Reached;
    var a := Goto(START, 1, Lookup(7, 10, 0));
    OneStep(START, Emit(1, 7, 10));
    var b := Goto(a.(queues := map[5 := NewQueue(7)], rooms := map[7 := 5]), 1, Sending(5, 7, 10, 0));
    assert Enabled(a, GetQueue(1, 5)) && Step(a, GetQueue(1, 5)) == b;
    ThenStep(START, [Emit(1, 7, 10)], GetQueue(1, 5));
    SendLeads(b, 1, 5, 7, 10, 0);
    ThenStep(START, [Emit(1, 7, 10)] + [GetQueue(1, 5)], TrySend(1));
    assert [Emit(1, 7, 10)] + [GetQueue(1, 5)] + [TrySend(1)] == [Emit(1, 7, 10), GetQueue(1, 5), TrySend(1)];
    assert b.threads[1 := Thread(Scheduling(5), false)] == START.threads[1 := Thread(Scheduling(5), false)];
    var sent := NewQueue(7).(ch := [10], accepted := [10]);
    assert NewQueue(7).(ch := [] + [10], emptySince := false, accepted := [] + [10]) == sent;
    assert b.queues[5 := sent] == map[5 := sent];
  }

  /** It does happen: a run of 26 steps without a shutdown after which everybody rests and an event that was accepted
      waits in its open queue, which nobody holds. Only the sweep serves it. */
  lemma EventIsMissed() returns (actions: seq<Action>)
    ensures Initial(START) && Execution(START, actions)
    ensures var n := Reached(START, actions); Quiet(n) && !n.cancelled && Backlogged(n, 5) && !Held(n, 5)
  {
    hide Step, Enabled, Execution, Reached;
    FirstSend();
    var one := [Emit(1, 7, 10), GetQueue(1, 5), TrySend(1)];
    var a := Reached(START, one);
    BacklogIsServed(a, 5, 3);
    ExecutionAppend(START, one, Serving(5, 3));
    var b := Reached(a, Serving(5, 3));
    MissingLeaves(b, 1, 2, 7, 11, 5, 6);
    actions := one + Serving(5, 3) + Missing(1, 2, 7, 11, 6);
    ExecutionAppend(START, one + Serving(5, 3), Missing(1, 2, 7, 11, 6));
  }
}
