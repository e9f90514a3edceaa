/** The per-room webhook queues as a protocol of atomic steps: locked sections, compare-and-swap, channel operations. */
module WebhookQueue {

  const QUEUE_CAP := 32
  const PENDING_CAP := 64
  const MAX_DELIVERIES := 8
  const MAX_ATTEMPTS := 2

  type Event = nat

  datatype Outcome = Outcome(event: Event, delivered: bool)

  /** A queue object. `accepted`, `taken` and `finished` are its history: events put in, events taken out, and
      events whose delivery ended (or was given up at shutdown). */
  datatype Queue = Queue(
    room: nat,
    ch: seq<Event>,
    closed: bool,
    scheduled: bool,
    emptySince: bool,
    accepted: seq<Event>,
    taken: seq<Event>,
    finished: seq<Outcome>)

  // ---- The locked sections of one queue ----

  datatype SendResult = Queued | Closed | Full

  function SendOutcome(q: Queue): SendResult {
    if q.closed then Closed else if |q.ch| < QUEUE_CAP then Queued else Full
  }

  function Sent(q: Queue, e: Event): Queue {
    if SendOutcome(q) == Queued then q.(ch := q.ch + [e], emptySince := false, accepted := q.accepted + [e]) else q
  }

  function Received(q: Queue): Queue
    requires q.ch != []
  {
    q.(ch := q.ch[1..], taken := q.taken + [q.ch[0]])
  }

  predicate Evictable(q: Queue) {
    !q.closed && q.ch == [] && q.emptySince
  }

  class RoomQueue {
    const room: nat
    var ch: seq<Event>
    var closed: bool
    var scheduled: bool
    var emptySince: bool
    ghost var accepted: seq<Event>
    ghost var taken: seq<Event>
    ghost var finished: seq<Outcome>

    constructor (room: nat)
      ensures View() == NewQueue(room)
    {
      this.room, ch, closed, scheduled, emptySince := room, [], false, false, false;
      accepted, taken, finished := [], [], [];
    }

    ghost function View(): Queue
      reads this
    {
      Queue(room, ch, closed, scheduled, emptySince, accepted, taken, finished)
    }

    method TrySend(e: Event) returns (queued: bool, retry: bool)
      modifies this
      ensures View() == Sent(old(View()), e)
      ensures queued == (SendOutcome(old(View())) == Queued)
      ensures retry == (SendOutcome(old(View())) == Closed)
    {
      if closed {
        return false, true;
      }
      if |ch| < QUEUE_CAP {
        ch := ch + [e];
        accepted := accepted + [e];
        emptySince := false;
        return true, false;
      }
      return false, false;
    }

    method ClaimSchedule() returns (claimed: bool)
      modifies this`scheduled
      ensures claimed == !old(scheduled) && View() == old(View()).(scheduled := true)
    {
      claimed := !scheduled;
      scheduled := true;
    }

    method ReleaseSchedule()
      modifies this`scheduled
      ensures View() == old(View()).(scheduled := false)
    {
      scheduled := false;
    }

    /** The eviction check; whether the idle time has passed is the caller's clock. */
    method CloseIfIdle(idleLongEnough: bool) returns (evict: bool)
      modifies this`closed
      ensures evict == (Evictable(old(View())) && idleLongEnough)
      ensures View() == if evict then old(View()).(closed := true) else old(View())
    {
      evict := !closed && |ch| == 0 && emptySince && idleLongEnough;
      if evict {
        closed := true;
      }
    }

    /** After a delivery: is there more to do, and if not, since when the queue is empty. */
    method HasMore() returns (more: bool)
      modifies this`emptySince
      ensures View() == Rechecked(old(View())) && more == NeedsWork(old(View()))
    {
      more := !closed && |ch| > 0;
      if !closed && |ch| == 0 {
        emptySince := true;
      }
    }
  }

  predicate NeedsWork(q: Queue) {
    !q.closed && q.ch != []
  }

  function Rechecked(q: Queue): Queue {
    if !q.closed && q.ch == [] then q.(emptySince := true) else q
  }

  function NewQueue(room: nat): Queue {
    Queue(room, [], false, false, false, [], [], [])
  }

  // ---- Threads ----

  /** Where a thread stands between two atomic steps. */
  datatype Pc =
    | Idle
    | Lookup(room: nat, body: Event, attempt: nat)
    | Sending(q: nat, room: nat, body: Event, attempt: nat)
    | Scheduling(q: nat)
    | Claiming(q: nat)
    | Offering(q: nat)
    | Unclaiming(q: nat)
    | Working(q: nat)
    | Taking(q: nat)
    | Acquiring(q: nat, body: Event)
    | Delivering(q: nat, body: Event)
    | Delivered(q: nat)
    | Checking(q: nat)
    | Removing(q: nat)

  /** The thread holds the schedule token of queue q. */
  predicate Holds(pc: Pc, q: nat) {
    match pc
    case Offering(p) => p == q
    case Unclaiming(p) => p == q
    case Working(p) => p == q
    case Taking(p) => p == q
    case Acquiring(p, _) => p == q
    case Delivering(p, _) => p == q
    case Delivered(p) => p == q
    case _ => false
  }

  /** The thread has taken an event of queue q whose delivery has not ended. */
  predicate InFlight(pc: Pc, q: nat) {
    (pc.Acquiring? || pc.Delivering?) && pc.q == q
  }

  datatype Thread = Thread(pc: Pc, permit: bool)

  const WORKER := 0

  datatype Service = Service(
    queues: map<nat, Queue>,
    rooms: map<nat, nat>,
    pending: seq<nat>,
    threads: map<nat, Thread>,
    permits: nat,
    cancelled: bool)

  datatype Action =
    | Emit(t: nat, room: nat, body: Event)
    | GetQueue(t: nat, newId: nat)
    | TrySend(t: nat)
    | CheckOpen(t: nat)
    | Claim(t: nat)
    | Offer(t: nat)
    | GiveUp(t: nat)
    | Unclaim(t: nat)
    | TakeWork
    | CheckWork(t: nat)
    | Receive(t: nat)
    | StartDelivery(t: nat, newId: nat)
    | AbandonDelivery(t: nat)
    | FinishDelivery(t: nat)
    | ReleaseToken(t: nat)
    | Recheck(t: nat)
    | Reschedule(q: nat)
    | Evict(q: nat)
    | Remove(t: nat)
    | Shutdown

  // ---- Steps ----

  /** The thread that takes the step; TakeWork, Reschedule and Evict are steps of the single worker. */
  function Actor(a: Action): nat {
    if a.TakeWork? || a.Reschedule? || a.Evict? || a.Shutdown? then WORKER else a.t
  }

  predicate At(s: Service, t: nat) {
    t in s.threads && !s.threads[t].pc.Idle? && !s.threads[t].pc.Lookup? && s.threads[t].pc.q in s.queues
  }

  predicate Enabled(s: Service, a: Action) {
    match a
    case Emit(t, _, _) => t in s.threads && t != WORKER && s.threads[t] == Thread(Idle, false) && !s.cancelled
    case GetQueue(t, newId) => t in s.threads && s.threads[t].pc.Lookup? && newId !in s.queues
    case TrySend(t) => At(s, t) && s.threads[t].pc.Sending?
    case CheckOpen(t) => At(s, t) && s.threads[t].pc.Scheduling?
    case Claim(t) => At(s, t) && s.threads[t].pc.Claiming?
    case Offer(t) => At(s, t) && s.threads[t].pc.Offering? && |s.pending| < PENDING_CAP
    case GiveUp(t) => At(s, t) && s.threads[t].pc.Offering? && (s.cancelled || |s.pending| >= PENDING_CAP)
    case Unclaim(t) => At(s, t) && s.threads[t].pc.Unclaiming?
    case TakeWork => WORKER in s.threads && s.threads[WORKER].pc.Idle? && s.pending != []
    case CheckWork(t) => At(s, t) && s.threads[t].pc.Working?
    case Receive(t) => At(s, t) && s.threads[t].pc.Taking?
    case StartDelivery(t, newId) =>
      At(s, t) && s.threads[t].pc.Acquiring? && s.permits < MAX_DELIVERIES && newId !in s.threads
    case AbandonDelivery(t) => At(s, t) && s.threads[t].pc.Acquiring? && s.cancelled
    case FinishDelivery(t) => At(s, t) && s.threads[t].pc.Delivering?
    case ReleaseToken(t) => At(s, t) && s.threads[t].pc.Delivered?
    case Recheck(t) => At(s, t) && s.threads[t].pc.Checking?
    case Reschedule(q) => WORKER in s.threads && s.threads[WORKER].pc.Idle? && q in s.queues && NeedsWork(s.queues[q])
    case Evict(q) => WORKER in s.threads && s.threads[WORKER].pc.Idle? && q in s.queues && Evictable(s.queues[q])
    case Remove(t) => At(s, t) && s.threads[t].pc.Removing?
    case Shutdown => true
  }

  /** Steps that move one thread and touch one queue object, and nothing else. */
  predicate IsLocal(a: Action) {
    !(a.Emit? || a.GetQueue? || a.Offer? || a.TakeWork? || a.StartDelivery? || a.Remove? || a.Shutdown?)
  }

  /** The queue such a step works on. */
  function Target(s: Service, a: Action): nat
    requires Enabled(s, a) && IsLocal(a)
  {
    if a.Reschedule? || a.Evict? then a.q else s.threads[a.t].pc.q
  }

  datatype Local = Local(pc: Pc, queue: Queue)

  /** What such a step makes of the thread's position and of its queue q. */
  function Moved(a: Action, pc: Pc, q: nat, qu: Queue): Local {
    match a
    case TrySend(_) =>
      if !pc.Sending? then Local(pc, qu)
      else
        (match SendOutcome(qu)
         case Queued => Local(Scheduling(q), Sent(qu, pc.body))
         case Closed =>
           Local(if pc.attempt + 1 < MAX_ATTEMPTS then Lookup(pc.room, pc.body, pc.attempt + 1) else Idle, qu)
         case Full => Local(Idle, qu))
    case CheckOpen(_) => Local(if qu.closed then Idle else Claiming(q), qu)
    case Claim(_) => if qu.scheduled then Local(Idle, qu) else Local(Offering(q), qu.(scheduled := true))
    case GiveUp(_) => Local(Unclaiming(q), qu)
    case Unclaim(_) => Local(Idle, qu.(scheduled := false))
    case CheckWork(_) => Local(if qu.closed then Unclaiming(q) else Taking(q), qu)
    case Receive(_) => if qu.ch == [] then Local(Unclaiming(q), qu) else Local(Acquiring(q, qu.ch[0]), Received(qu))
    case AbandonDelivery(_) =>
      if !pc.Acquiring? then Local(pc, qu)
      else Local(Unclaiming(q), qu.(finished := qu.finished + [Outcome(pc.body, false)]))
    case FinishDelivery(_) =>
      if !pc.Delivering? then Local(pc, qu)
      else Local(Delivered(q), qu.(finished := qu.finished + [Outcome(pc.body, true)]))
    case ReleaseToken(_) => Local(Checking(q), qu.(scheduled := false))
    case Recheck(_) => Local(if NeedsWork(qu) then Scheduling(q) else Idle, Rechecked(qu))
    case Reschedule(_) => Local(Scheduling(q), qu)
    case Evict(_) => Local(Removing(q), qu.(closed := true))
    case _ => Local(pc, qu)
  }

  function Goto(s: Service, t: nat, pc: Pc): Service
    requires t in s.threads
  {
    s.(threads := s.threads[t := s.threads[t].(pc := pc)])
  }

  /** The end of an enqueue, of a turn of the worker, or of a delivery goroutine, which returns its permit. */
  function Done(s: Service, t: nat): Service
    requires t in s.threads
  {
    s.(threads := s.threads[t := Thread(Idle, false)],
       permits := if s.threads[t].permit && s.permits > 0 then s.permits - 1 else s.permits)
  }

  function Proceed(s: Service, t: nat, pc: Pc): Service
    requires t in s.threads
  {
    if pc.Idle? then Done(s, t) else Goto(s, t, pc)
  }

  function LocalStep(s: Service, a: Action): Service
    requires Enabled(s, a) && IsLocal(a)
  {
    var t, q := Actor(a), Target(s, a);
    var m := Moved(a, s.threads[t].pc, q, s.queues[q]);
    Proceed(s.(queues := s.queues[q := m.queue]), t, m.pc)
  }

  function Step(s: Service, a: Action): Service
    requires Enabled(s, a)
  {
    match a
    case Emit(t, room, body) => Goto(s, t, Lookup(room, body, 0))
    case GetQueue(t, newId) =>
      var pc := s.threads[t].pc;
      if pc.room in s.rooms then Goto(s, t, Sending(s.rooms[pc.room], pc.room, pc.body, pc.attempt))
      else Goto(s.(queues := s.queues[newId := NewQueue(pc.room)], rooms := s.rooms[pc.room := newId]), t,
                Sending(newId, pc.room, pc.body, pc.attempt))
    case Offer(t) => Done(s.(pending := s.pending + [s.threads[t].pc.q]), t)
    case TakeWork => Goto(s.(pending := s.pending[1..]), WORKER, Working(s.pending[0]))
    case StartDelivery(t, newId) =>
      var pc := s.threads[t].pc;
      var d := Done(s, t);
      d.(threads := d.threads[newId := Thread(Delivering(pc.q, pc.body), true)], permits := d.permits + 1)
    case Remove(t) =>
      var q := s.threads[t].pc.q;
      var room := s.queues[q].room;
      Done(if room in s.rooms && s.rooms[room] == q then s.(rooms := s.rooms - {room}) else s, t)
    case Shutdown => s.(cancelled := true)
    case _ => LocalStep(s, a)
  }
}
