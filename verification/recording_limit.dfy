/** The limit on concurrent recordings, over all interleavings of starts, recoveries, confirms, aborts and stops. */
module RecordingLimit {
  import opened Collections
  import P = PendingTxn

  datatype Status = Recording | Recovering

  datatype Mode = User | Recovery

  /** Where a transaction stands. Between Added and Reserved or Rejected it is inside the coordinator's lock, having
      added its key; the validation reads the recording map in several steps, which stops can fall between. */
  datatype Phase = Begun | Added | Checked | Over | Loaded | Reserved | Confirmed | Aborted | Rejected

  /** `session` is what a confirm publishes or revives; `loaded` the session the validation found in the map. */
  datatype Txn = Txn(phase: Phase, mode: Mode, room: nat, session: nat, loaded: nat)

  datatype System = System(
    max: nat,
    recording: map<nat, nat>,      // room to session
    status: map<nat, Status>,      // session to status; sessions outlive their place in the map
    pending: set<nat>,
    txns: map<nat, Txn>,
    lock: set<nat>)                // the transaction inside the lock, if any

  datatype Action =
    | Begin(t: nat, mode: Mode, room: nat, session: nat)
    | AddKey(t: nat)
    | CheckStatus(t: nat)
    | CheckSize(t: nat)
    | LoadExisting(t: nat)
    | CheckRecovering(t: nat)
    | Confirm(t: nat)
    | Abort(t: nat)
    | Stop(room: nat)
    | Lose(room: nat)

  predicate InPhase(s: System, t: nat, p: Phase) {
    t in s.txns && s.txns[t].phase == p
  }

  predicate Enabled(s: System, a: Action) {
    match a
    case Begin(t, mode, _, session) => t !in s.txns && (mode == User ==> session !in s.status)
    case AddKey(t) => InPhase(s, t, Begun) && s.lock == {}
    case CheckStatus(t) => InPhase(s, t, Added)
    case CheckSize(t) => InPhase(s, t, Checked)
    case LoadExisting(t) => InPhase(s, t, Over)
    case CheckRecovering(t) => InPhase(s, t, Loaded)
    case Confirm(t) => InPhase(s, t, Reserved) && s.lock == {}
    case Abort(t) => t in s.txns && s.lock == {}
    case Stop(_) => true
    case Lose(room) => room in s.recording
  }

  function Enter(s: System, t: nat, p: Phase): System
    requires t in s.txns
  {
    s.(txns := s.txns[t := s.txns[t].(phase := p)])
  }

  /** The validation refuses: the key is taken back and the lock released. */
  function Refuse(s: System, t: nat): System
    requires t in s.txns
  {
    Enter(s, t, Rejected).(pending := s.pending - {s.txns[t].room}, lock := {})
  }

  function Grant(s: System, t: nat): System
    requires t in s.txns
  {
    Enter(s, t, Reserved).(lock := {})
  }

  predicate HasStatus(s: System, room: nat, st: Status) {
    room in s.recording && s.recording[room] in s.status && s.status[s.recording[room]] == st
  }

  function Step(s: System, a: Action): System
    requires Enabled(s, a)
  {
    match a
    case Begin(t, mode, room, session) => s.(txns := s.txns[t := Txn(Begun, mode, room, session, 0)])
    case AddKey(t) =>
      if s.txns[t].room in s.pending then Enter(s, t, Rejected)
      else Enter(s, t, Added).(pending := s.pending + {s.txns[t].room}, lock := {t})
    case CheckStatus(t) => if HasStatus(s, s.txns[t].room, Recording) then Refuse(s, t) else Enter(s, t, Checked)
    case CheckSize(t) => if |s.recording| + |s.pending| > s.max then Enter(s, t, Over) else Grant(s, t)
    case LoadExisting(t) =>
      var room := s.txns[t].room;
      if room !in s.recording then Refuse(s, t)
      else s.(txns := s.txns[t := s.txns[t].(phase := Loaded, loaded := s.recording[room])])
    case CheckRecovering(t) =>
      var x := s.txns[t];
      if x.loaded in s.status && s.status[x.loaded] == Recovering then Grant(s, t) else Refuse(s, t)
    case Confirm(t) =>
      var x := s.txns[t];
      var done := Enter(s, t, Confirmed).(pending := s.pending - {x.room}, status := s.status[x.session := Recording]);
      if x.mode == User then done.(recording := s.recording[x.room := x.session]) else done
    case Abort(t) =>
      if s.txns[t].phase == Reserved then Enter(s, t, Aborted).(pending := s.pending - {s.txns[t].room}) else s
    case Stop(room) => s.(recording := s.recording - {room})
    case Lose(room) => s.(status := s.status[s.recording[room] := Recovering])
  }

  function Initial(max: nat): System {
    System(max, map[], map[], {}, map[], {})
  }

  /** Every action of a run is enabled when it is taken. */
  predicate IsRun(s: System, actions: seq<Action>)
    decreases |actions|
  {
    actions == [] || (Enabled(s, actions[0]) && IsRun(Step(s, actions[0]), actions[1..]))
  }

  function After(s: System, actions: seq<Action>): System
    requires IsRun(s, actions)
    decreases |actions|
  {
    if actions == [] then s else After(Step(s, actions[0]), actions[1..])
  }

  predicate InValidation(p: Phase) {
    p.Added? || p.Checked? || p.Over? || p.Loaded?
  }

  /** Transaction t is responsible for its room's key in the pending set. */
  predicate Holds(s: System, t: nat) {
    t in s.txns && (s.txns[t].phase == Reserved || InValidation(s.txns[t].phase))
  }

  /** The rooms with an open reservation. */
  function ReservedRooms(s: System): set<nat> {
    set t | t in s.txns && s.txns[t].phase == Reserved :: s.txns[t].room
  }

  /** What the limit is about: the rooms that are recording or reserved; one that is both counts once. */
  function Busy(s: System): set<nat> {
    s.recording.Keys + ReservedRooms(s)
  }

  /** Each pending key belongs to exactly one open transaction, and one transaction at most is inside the lock. */
  ghost predicate KeysOwned(s: System) {
    && (forall t :: t in s.txns && InValidation(s.txns[t].phase) ==> s.lock == {t})
    && (forall t :: Holds(s, t) ==> s.txns[t].room in s.pending)
    && (forall t, u :: Holds(s, t) && Holds(s, u) && s.txns[t].room == s.txns[u].room ==> t == u)
    && (forall room :: room in s.pending ==> exists t :: Holds(s, t) && s.txns[t].room == room)
  }

  ghost predicate WithinLimit(s: System) {
    && |Busy(s)| <= s.max
    && (forall t :: InPhase(s, t, Loaded) ==> |Busy(s) + {s.txns[t].room}| <= s.max)
  }

  /** What a step may change: one transaction at most, which keeps its room, and the keys and rooms with it. */
  ghost predicate Effect(s: System, a: Action, after: System) {
    && after.max == s.max
    && (a.Stop? || a.Lose? ==> after.txns == s.txns && after.pending == s.pending && after.lock == s.lock)
    && (a.Stop? || a.Lose? ==> (forall room :: room in after.recording ==> room in s.recording))
    && (!(a.Stop? || a.Lose?) ==>
         && (forall u :: u in after.txns <==> u in s.txns || u == a.t)
         && (forall u :: u in s.txns && u != a.t ==> after.txns[u] == s.txns[u])
         && (a.t in s.txns ==> after.txns[a.t].room == s.txns[a.t].room))
  }

  /** How the acting transaction's phase, its key and the lock move together. */
  ghost predicate Moves(s: System, t: nat, after: System)
    requires t in after.txns
  {
    var room, p := after.txns[t].room, after.txns[t].phase;
    && after.pending == (if Holds(after, t) == Holds(s, t) then s.pending
                         else if Holds(after, t) then s.pending + {room} else s.pending - {room})
    && (Holds(after, t) && !Holds(s, t) ==> room !in s.pending)
    && (if InValidation(p) then after.lock == {t} && (s.lock == {} || s.lock == {t})
        else if t in s.txns && InValidation(s.txns[t].phase) then after.lock == {} else after.lock == s.lock)
  }

  lemma StepEffect(s: System, a: Action)
    requires Enabled(s, a)
    ensures Effect(s, a, Step(s, a))
  {
    hide InValidation, HasStatus;
  }

  /** Steps inside the coordinator's lock. */
  predicate IsCheck(a: Action) {
    a.CheckStatus? || a.CheckSize? || a.LoadExisting? || a.CheckRecovering?
  }

  lemma CheckMoves(s: System, a: Action)
    requires Enabled(s, a) && IsCheck(a) && s.lock == {a.t}
    ensures a.t in Step(s, a).txns && Moves(s, a.t, Step(s, a))
  {
    hide HasStatus, Moves, Enter, Grant, Refuse;
    CheckEnters(s, a.t);
    LoadMoves(s, a.t);
  }

  lemma CheckEnters(s: System, t: nat)
    requires t in s.txns && InValidation(s.txns[t].phase) && s.lock == {t}
    ensures t in Grant(s, t).txns && Moves(s, t, Grant(s, t))
    ensures t in Refuse(s, t).txns && Moves(s, t, Refuse(s, t))
    ensures t in Enter(s, t, Checked).txns && Moves(s, t, Enter(s, t, Checked))
    ensures t in Enter(s, t, Over).txns && Moves(s, t, Enter(s, t, Over))
  {
  }

  lemma LoadMoves(s: System, t: nat)
    requires t in s.txns && InValidation(s.txns[t].phase) && s.lock == {t}
    ensures forall session :: Moves(s, t, s.(txns := s.txns[t := s.txns[t].(phase := Loaded, loaded := session)]))
  {
  }

  lemma OutsideMoves(s: System, a: Action)
    requires Enabled(s, a) && !(a.Stop? || a.Lose?) && !IsCheck(a)
    requires InPhase(s, a.t, Reserved) ==> s.txns[a.t].room in s.pending
    requires a.t in s.txns && InValidation(s.txns[a.t].phase) ==> s.lock == {a.t}
    ensures a.t in Step(s, a).txns && Moves(s, a.t, Step(s, a))
  {
  }

  lemma StepMoves(s: System, a: Action)
    requires KeysOwned(s) && Enabled(s, a) && !(a.Stop? || a.Lose?)
    ensures a.t in Step(s, a).txns && Moves(s, a.t, Step(s, a))
  {
    assert a.t in s.txns && InValidation(s.txns[a.t].phase) ==> s.lock == {a.t};
    assert Holds(s, a.t) ==> s.txns[a.t].room in s.pending;
    hide KeysOwned, Step, Moves;
    if IsCheck(a) {
      CheckMoves(s, a);
    } else {
      OutsideMoves(s, a);
    }
  }

  lemma KeysStayOwned(s: System, t: nat, after: System)
    requires KeysOwned(s) && t in after.txns && Moves(s, t, after)
    requires forall u :: u in after.txns && u != t ==> u in s.txns && after.txns[u] == s.txns[u]
    requires forall u :: u in s.txns ==> u in after.txns && after.txns[u].room == s.txns[u].room
    ensures KeysOwned(after)
  {
    hide InValidation;
    forall room | room in after.pending
      ensures exists u :: Holds(after, u) && after.txns[u].room == room
    {
      if room in s.pending {
        var u :| Holds(s, u) && s.txns[u].room == room;
        assert Holds(after, u) && after.txns[u].room == room;
      } else {
        assert Holds(after, t) && after.txns[t].room == room;
      }
    }
  }

  lemma StepKeepsKeysOwned(s: System, a: Action)
    requires KeysOwned(s) && Enabled(s, a)
    ensures KeysOwned(Step(s, a))
  {
    hide Step, Enabled, Moves;
    StepEffect(s, a);
    if !(a.Stop? || a.Lose?) {
      StepMoves(s, a);
      KeysStayOwned(s, a.t, Step(s, a));
    } else {
      forall room | room in s.pending
        ensures exists t :: Holds(Step(s, a), t) && Step(s, a).txns[t].room == room
      {
        var u :| Holds(s, u) && s.txns[u].room == room;
        assert Holds(Step(s, a), u);
      }
    }
  }

  predicate Validates(a: Action) {
    a.CheckSize? || a.CheckRecovering?
  }

  /** Only a validation grants, and only a confirm publishes a room, which its transaction held reserved. */
  lemma ReservedOrPublished(s: System, a: Action)
    requires Enabled(s, a) && !(a.Stop? || a.Lose?)
    ensures InPhase(Step(s, a), a.t, Reserved) ==> InPhase(s, a.t, Reserved) || (Validates(a) && a.t in s.txns)
    ensures Step(s, a).recording.Keys <= s.recording.Keys
      || (InPhase(s, a.t, Reserved) && Step(s, a).recording.Keys <= s.recording.Keys + {s.txns[a.t].room})
    ensures InPhase(Step(s, a), a.t, Loaded) ==>
      InPhase(s, a.t, Loaded) || (a.t in s.txns && s.txns[a.t].room in s.recording)
  {
    OnlyConfirmPublishes(s, a);
    OnlyCheckGrants(s, a);
    hide Step;
  }

  lemma OnlyConfirmPublishes(s: System, a: Action)
    requires Enabled(s, a) && !(a.Stop? || a.Lose?)
    ensures !a.Confirm? ==> Step(s, a).recording == s.recording
    ensures a.Confirm? ==>
      InPhase(s, a.t, Reserved) && Step(s, a).recording.Keys <= s.recording.Keys + {s.txns[a.t].room}
  {
  }

  lemma OnlyCheckGrants(s: System, a: Action)
    requires Enabled(s, a) && !(a.Stop? || a.Lose?)
    ensures InPhase(Step(s, a), a.t, Reserved) ==> InPhase(s, a.t, Reserved) || (Validates(a) && a.t in s.txns)
    ensures InPhase(Step(s, a), a.t, Loaded) ==>
      InPhase(s, a.t, Loaded) || (a.t in s.txns && s.txns[a.t].room in s.recording)
  {
  }

  lemma ReservedRoomsGrow(s: System, t: nat, after: System)
    requires forall u :: u in after.txns && u != t ==> u in s.txns && after.txns[u] == s.txns[u]
    ensures ReservedRooms(after)
      <= ReservedRooms(s) + (if InPhase(after, t, Reserved) then {after.txns[t].room} else {})
  {
  }

  /** A step adds to the busy rooms no more than the room it grants. */
  lemma BusyGrowsOnlyByGrant(s: System, a: Action)
    requires KeysOwned(s) && Enabled(s, a)
    ensures !(Validates(a) && InPhase(Step(s, a), a.t, Reserved)) ==> Busy(Step(s, a)) <= Busy(s)
    ensures Validates(a) ==> a.t in s.txns && Busy(Step(s, a)) <= Busy(s) + {s.txns[a.t].room}
  {
    StepEffect(s, a);
    hide Step, Moves, KeysOwned;
    if !(a.Stop? || a.Lose?) {
      ReservedOrPublished(s, a);
      ReservedRoomsGrow(s, a.t, Step(s, a));
    }
  }

  lemma UnionSize<T>(a: set<T>, b: set<T>)
    ensures |a + b| + |a * b| == |a| + |b|
  {
  }

  lemma CheckSizeGrants(s: System, t: nat)
    requires Enabled(s, CheckSize(t))
    ensures InPhase(Step(s, CheckSize(t)), t, Reserved) <==> |s.recording.Keys| + |s.pending| <= s.max
  {
    assert |s.recording.Keys| == |s.recording|;
  }

  lemma PendingCovers(s: System, t: nat)
    requires KeysOwned(s) && Holds(s, t)
    ensures ReservedRooms(s) + {s.txns[t].room} <= s.pending
  {
    forall u | u in s.txns && s.txns[u].phase == Reserved
      ensures s.txns[u].room in s.pending
    {
      assert Holds(s, u);
    }
  }

  lemma GrantIsWithinLimit(s: System, a: Action)
    requires KeysOwned(s) && WithinLimit(s) && Enabled(s, a) && Validates(a)
    requires InPhase(Step(s, a), a.t, Reserved)
    ensures |Busy(s) + {s.txns[a.t].room}| <= s.max
  {
    var room := s.txns[a.t].room;
    hide KeysOwned;
    if a.CheckSize? {
      PendingCovers(s, a.t);
      assert Busy(s) + {room} <= s.recording.Keys + s.pending;
      SubsetSize(Busy(s) + {room}, s.recording.Keys + s.pending);
      UnionSize(s.recording.Keys, s.pending);
      CheckSizeGrants(s, a.t);
    }
  }

  lemma StepKeepsLimit(s: System, a: Action)
    requires KeysOwned(s) && WithinLimit(s) && Enabled(s, a)
    ensures WithinLimit(Step(s, a))
  {
    hide Step, Enabled, Moves, KeysOwned, Busy;
    var after := Step(s, a);
    BusyGrowsOnlyByGrant(s, a);
    StepEffect(s, a);
    if Validates(a) && InPhase(after, a.t, Reserved) {
      GrantIsWithinLimit(s, a);
      SubsetSize(Busy(after), Busy(s) + {s.txns[a.t].room});
    } else {
      SubsetSize(Busy(after), Busy(s));
    }
    forall t | InPhase(after, t, Loaded)
      ensures |Busy(after) + {after.txns[t].room}| <= after.max
    {
      LoadedIsWithinLimit(s, a, t);
    }
  }

  lemma LoadedExcludesGrant(s: System, a: Action, t: nat)
    requires KeysOwned(s) && Enabled(s, a) && InPhase(Step(s, a), t, Loaded)
    ensures !(Validates(a) && InPhase(Step(s, a), a.t, Reserved))
  {
    if Validates(a) {
      assert s.lock == {a.t};
    }
  }

  lemma FoundIsBusy(s: System, a: Action, t: nat)
    requires Enabled(s, a) && InPhase(Step(s, a), t, Loaded) && !InPhase(s, t, Loaded)
    ensures t in s.txns && s.txns[t].room == Step(s, a).txns[t].room
    ensures Busy(s) + {s.txns[t].room} == Busy(s)
  {
    StepEffect(s, a);
    hide Step;
    if !(a.Stop? || a.Lose?) {
      ReservedOrPublished(s, a);
    }
  }

  lemma LoadedWasCounted(s: System, a: Action, t: nat)
    requires WithinLimit(s) && Enabled(s, a) && InPhase(Step(s, a), t, Loaded)
    ensures |Busy(s) + {Step(s, a).txns[t].room}| <= s.max
  {
    if InPhase(s, t, Loaded) {
      StepEffect(s, a);
      hide Step, Busy;
      assert s.txns[t].room == Step(s, a).txns[t].room;
    } else {
      FoundIsBusy(s, a, t);
      hide Step, Busy;
    }
  }

  /** A room found in the recording map while the limit was exceeded is already counted, even if it leaves the map
      before the validation ends. */
  lemma LoadedIsWithinLimit(s: System, a: Action, t: nat)
    requires KeysOwned(s) && WithinLimit(s) && Enabled(s, a) && InPhase(Step(s, a), t, Loaded)
    ensures |Busy(Step(s, a)) + {Step(s, a).txns[t].room}| <= s.max
  {
    hide Step, KeysOwned, Enabled, WithinLimit, Busy;
    BusyGrowsOnlyByGrant(s, a);
    LoadedExcludesGrant(s, a, t);
    LoadedWasCounted(s, a, t);
    var room := Step(s, a).txns[t].room;
    SubsetSize(Busy(Step(s, a)) + {room}, Busy(s) + {room});
  }

  /** Whatever starts, recoveries, confirms, aborts, stops and lost streams interleave, the rooms that are recording
      or reserved never exceed the maximum, and each pending key is one open transaction's. */
  lemma LimitIsNeverExceeded(max: nat, actions: seq<Action>)
    requires IsRun(Initial(max), actions)
    ensures |Busy(After(Initial(max), actions))| <= max
    ensures KeysOwned(After(Initial(max), actions))
  {
    assert Busy(Initial(max)) == {};
    RunKeepsLimit(Initial(max), actions);
  }

  lemma {:induction false} RunKeepsLimit(s: System, actions: seq<Action>)
    requires IsRun(s, actions) && KeysOwned(s) && WithinLimit(s)
    ensures KeysOwned(After(s, actions)) && WithinLimit(After(s, actions)) && After(s, actions).max == s.max
    decreases |actions|
  {
    hide Step, Enabled, KeysOwned, WithinLimit, Moves;
    if actions != [] {
      StepEffect(s, actions[0]);
      StepKeepsKeysOwned(s, actions[0]);
      StepKeepsLimit(s, actions[0]);
      RunKeepsLimit(Step(s, actions[0]), actions[1..]);
    }
  }

  predicate IsOver(p: Phase) {
    p.Confirmed? || p.Aborted? || p.Rejected?
  }

  /** Granted, and how that ended. */
  predicate WasGranted(p: Phase) {
    p.Reserved? || p.Confirmed? || p.Aborted?
  }

  predicate Ended(s: System, t: nat) {
    t in s.txns && IsOver(s.txns[t].phase)
  }

  lemma StepKeepsEnd(s: System, a: Action, t: nat)
    requires Enabled(s, a) && t in s.txns
    ensures t in Step(s, a).txns
    ensures Ended(s, t) ==> Step(s, a).txns[t] == s.txns[t]
    ensures InPhase(s, t, Reserved) ==> WasGranted(Step(s, a).txns[t].phase)
  {
    StepEffect(s, a);
    if !(a.Stop? || a.Lose?) && a.t == t {
      ActorKeepsEnd(s, a);
    }
    hide Step, Enabled;
  }

  lemma ActorKeepsEnd(s: System, a: Action)
    requires Enabled(s, a) && !(a.Stop? || a.Lose?) && a.t in s.txns && a.t in Step(s, a).txns
    ensures Ended(s, a.t) ==> Step(s, a).txns[a.t] == s.txns[a.t]
    ensures InPhase(s, a.t, Reserved) ==> WasGranted(Step(s, a).txns[a.t].phase)
  {
  }

  /** A transaction's end is final: no later step changes how it ended, so a granted reservation is confirmed or
      aborted, never both. */
  lemma {:induction false} EndIsFinal(s: System, actions: seq<Action>, t: nat)
    requires IsRun(s, actions) && t in s.txns
    ensures t in After(s, actions).txns
    ensures Ended(s, t) ==> After(s, actions).txns[t] == s.txns[t]
    ensures InPhase(s, t, Reserved) ==> WasGranted(After(s, actions).txns[t].phase)
    decreases |actions|
  {
    hide Step, Enabled;
    if actions != [] {
      StepKeepsEnd(s, actions[0], t);
      EndIsFinal(Step(s, actions[0]), actions[1..], t);
    }
  }

  /** The deferred abort frees the key of a reservation that was not confirmed and is a no-op after a confirm. */
  lemma DeferredAbortEnds(s: System, t: nat)
    requires KeysOwned(s) && Enabled(s, Abort(t))
    ensures !Holds(Step(s, Abort(t)), t)
    ensures !InPhase(s, t, Reserved) ==> Step(s, Abort(t)) == s
    ensures InPhase(s, t, Reserved) ==>
      s.txns[t].room !in Step(s, Abort(t)).pending && s.txns[t].room !in ReservedRooms(Step(s, Abort(t)))
    ensures Step(s, Abort(t)).recording == s.recording
  {
  }

  lemma PendingIsReservedPlusOwn(s: System, t: nat)
    requires KeysOwned(s) && InPhase(s, t, Checked)
    ensures s.pending == ReservedRooms(s) + {s.txns[t].room} && s.txns[t].room !in ReservedRooms(s)
  {
    assert s.lock == {t};
    forall room | room in s.pending
      ensures room in ReservedRooms(s) + {s.txns[t].room}
    {
      var u :| Holds(s, u) && s.txns[u].room == room;
    }
  }

  lemma CountedTwice(recording: set<nat>, reserved: set<nat>, room: nat)
    requires room !in recording && room !in reserved
    ensures |recording| + |reserved + {room}| == |recording + reserved + {room}| + |recording * reserved|
  {
    UnionSize(recording, reserved + {room});
    assert recording * (reserved + {room}) == recording * reserved;
    assert recording + (reserved + {room}) == recording + reserved + {room};
  }

  /** The check is stricter than the limit: a room that is not recording passes it exactly when the busy rooms, it,
      and the rooms counted twice because they are being recovered fit. */
  lemma NewRoomPassesExactly(s: System, t: nat)
    requires KeysOwned(s) && InPhase(s, t, Checked) && s.txns[t].room !in s.recording
    ensures InPhase(Step(s, CheckSize(t)), t, Reserved) <==>
      |Busy(s) + {s.txns[t].room}| + |s.recording.Keys * ReservedRooms(s)| <= s.max
  {
    PendingIsReservedPlusOwn(s, t);
    CheckSizeGrants(s, t);
    hide KeysOwned, Step, ReservedRooms;
    CountedTwice(s.recording.Keys, ReservedRooms(s), s.txns[t].room);
  }

  // ---- What the recording map holds ----

  datatype Start = Start(mode: Mode, room: nat, session: nat)

  /** What transaction t was begun with. */
  function StartOf(actions: seq<Action>, t: nat): Option<Start> {
    if actions == [] then None
    else
      var a := actions[|actions| - 1];
      if a.Begin? && a.t == t then Some(Start(a.mode, a.room, a.session)) else StartOf(actions[..|actions| - 1], t)
  }

  /** The session recording in a room: that of the last confirmed user start, unless the room was stopped since. */
  function Publishes(actions: seq<Action>, room: nat): Option<nat> {
    if actions == [] then None
    else
      var before, a := actions[..|actions| - 1], actions[|actions| - 1];
      if a.Stop? && a.room == room then None
      else if a.Confirm? && StartOf(before, a.t).Some? && StartOf(before, a.t).value.mode == User
              && StartOf(before, a.t).value.room == room then Some(StartOf(before, a.t).value.session)
      else Publishes(before, room)
  }

  /** The status of a session: recording since it was last confirmed, by a start or by a recovery, unless its stream was
      lost since while it was the one recording in its room. */
  function StatusOf(actions: seq<Action>, session: nat): Option<Status> {
    if actions == [] then None
    else
      var before, a := actions[..|actions| - 1], actions[|actions| - 1];
      if a.Confirm? && StartOf(before, a.t).Some? && StartOf(before, a.t).value.session == session then Some(Recording)
      else if a.Lose? && Publishes(before, a.room) == Some(session) then Some(Recovering)
      else StatusOf(before, session)
  }

  function Lookup<T>(m: map<nat, T>, k: nat): Option<T> {
    if k in m then Some(m[k]) else None
  }

  function StartIn(s: System, t: nat): Option<Start> {
    if t in s.txns then Some(Start(s.txns[t].mode, s.txns[t].room, s.txns[t].session)) else None
  }

  /** The state is what the actions say. */
  ghost predicate Follows(s: System, done: seq<Action>) {
    && (forall t :: StartIn(s, t) == StartOf(done, t))
    && (forall room :: Lookup(s.recording, room) == Publishes(done, room))
    && (forall session :: Lookup(s.status, session) == StatusOf(done, session))
  }

  lemma StepKeepsStarts(s: System, a: Action, t: nat)
    requires Enabled(s, a)
    ensures StartIn(Step(s, a), t)
      == if a.Begin? && a.t == t then Some(Start(a.mode, a.room, a.session)) else StartIn(s, t)
  {
    hide HasStatus;
  }

  lemma StepPublishes(s: System, a: Action, room: nat)
    requires Enabled(s, a)
    ensures Lookup(Step(s, a).recording, room) ==
      if a.Stop? && a.room == room then None
      else if a.Confirm? && s.txns[a.t].mode == User && s.txns[a.t].room == room then Some(s.txns[a.t].session)
      else Lookup(s.recording, room)
  {
    hide HasStatus;
  }

  lemma StepSetsStatus(s: System, a: Action, session: nat)
    requires Enabled(s, a)
    ensures Lookup(Step(s, a).status, session) ==
      if a.Confirm? && s.txns[a.t].session == session then Some(Recording)
      else if a.Lose? && s.recording[a.room] == session then Some(Recovering)
      else Lookup(s.status, session)
  {
    hide HasStatus;
  }

  lemma StepFollows(s: System, done: seq<Action>, a: Action)
    requires Follows(s, done) && Enabled(s, a)
    ensures Follows(Step(s, a), done + [a])
  {
    var all, next := done + [a], Step(s, a);
    assert all[..|all| - 1] == done && all[|all| - 1] == a;
    assert a.Confirm? ==> StartIn(s, a.t) == StartOf(done, a.t);
    assert a.Lose? ==> Lookup(s.recording, a.room) == Publishes(done, a.room);
    hide Step;
    forall t
      ensures StartIn(next, t) == StartOf(all, t)
    {
      StepKeepsStarts(s, a, t);
    }
    forall room
      ensures Lookup(next.recording, room) == Publishes(all, room)
    {
      StepPublishes(s, a, room);
    }
    forall session
      ensures Lookup(next.status, session) == StatusOf(all, session)
    {
      StepSetsStatus(s, a, session);
    }
  }

  lemma {:induction false} RunFollows(s: System, done: seq<Action>, actions: seq<Action>)
    requires Follows(s, done) && IsRun(s, actions)
    ensures Follows(After(s, actions), done + actions)
    decreases |actions|
  {
    hide Follows, Step, Enabled;
    if actions == [] {
      assert done + actions == done;
    } else {
      StepFollows(s, done, actions[0]);
      RunFollows(Step(s, actions[0]), done + [actions[0]], actions[1..]);
      assert done + [actions[0]] + actions[1..] == done + actions;
    }
  }

  /** After every run a room is recording if and only if its last confirmed user start came after its last stop, under
      the session of that start; and a session has the status its last confirm or loss gave it. */
  lemma RecordsExactly(max: nat, actions: seq<Action>)
    requires IsRun(Initial(max), actions)
    ensures var s := After(Initial(max), actions);
      && (forall room :: Lookup(s.recording, room) == Publishes(actions, room))
      && (forall session :: Lookup(s.status, session) == StatusOf(actions, session))
  {
    RunFollows(Initial(max), [], actions);
    assert [] + actions == actions;
  }

  // ---- The coordinator behind the steps ----

  /** The transaction as the coordinator sees it. Inside the lock it is neither reserved nor closed yet. */
  function Seen(x: Txn): P.State {
    P.State(x.phase == Reserved, x.phase == Confirmed || x.phase == Aborted, if WasGranted(x.phase) then x.room else 0,
            if x.phase == Confirmed then 1 else 0, if x.phase == Aborted then 1 else 0)
  }

  /** The limit check that the recorder hands to the coordinator, in one step. */
  predicate Admits(s: System, room: nat, pending: set<nat>) {
    && !HasStatus(s, room, Recording)
    && (|s.recording| + |pending| > s.max ==> HasStatus(s, room, Recovering))
  }

  function Try(s: System, a: Action): System {
    if Enabled(s, a) then Step(s, a) else s
  }

  /** The steps of a validation inside the lock, one after the other; it may end before the last. */
  function Validated(s: System, t: nat): System {
    Try(Try(Try(Try(s, CheckStatus(t)), CheckSize(t)), LoadExisting(t)), CheckRecovering(t))
  }

  lemma EndedStays(s: System, t: nat)
    requires InPhase(s, t, Reserved) || InPhase(s, t, Rejected)
    ensures Validated(s, t) == s
  {
  }

  lemma CheckLimit(s: System, t: nat)
    requires InPhase(s, t, Checked)
    ensures var x, over := s.txns[t], |s.recording| + |s.pending| > s.max;
      Validated(s, t) == if !over then Grant(s, t) else Try(Try(Enter(s, t, Over), LoadExisting(t)), CheckRecovering(t))
  {
  }

  lemma CheckOver(s: System, t: nat)
    requires InPhase(s, t, Over)
    ensures var x, after := s.txns[t], Try(Try(s, LoadExisting(t)), CheckRecovering(t));
      Settles(s, t, HasStatus(s, x.room, Recovering), after)
  {
  }

  /** The validation ends with this answer: t holds its key, or the key is given back. */
  ghost predicate Settles(s: System, t: nat, granted: bool, after: System)
    requires t in s.txns
  {
    && t in after.txns && after.txns[t].room == s.txns[t].room
    && after.txns[t].phase == (if granted then Reserved else Rejected)
    && after.pending == (if granted then s.pending else s.pending - {s.txns[t].room})
    && after.lock == {} && after.recording == s.recording && after.status == s.status
  }

  lemma ValidationSettles(s: System, t: nat)
    requires InPhase(s, t, Added)
    ensures Settles(s, t, Admits(s, s.txns[t].room, s.pending), Validated(s, t))
  {
    var c := Step(s, CheckStatus(t));
    if HasStatus(s, s.txns[t].room, Recording) {
      EndedStays(c, t);
    } else {
      CheckLimit(c, t);
      CheckOver(Enter(c, t, Over), t);
    }
    ValidatedFrom(s, c, t);
    hide Validated, Step;
  }

  lemma ValidatedFrom(s: System, c: System, t: nat)
    requires InPhase(s, t, Added) && c == Step(s, CheckStatus(t))
    ensures Validated(s, t) == Validated(c, t)
  {
  }

  lemma AddKeyStep(s: System, t: nat)
    requires InPhase(s, t, Begun) && s.lock == {}
    ensures var x, a := s.txns[t], Step(s, AddKey(t));
      && a.recording == s.recording && a.status == s.status && t in a.txns && a.txns[t].room == x.room && a.max == s.max
      && a.txns[t].phase == (if x.room in s.pending then Rejected else Added)
      && a.pending == s.pending + {x.room}
      && (x.room in s.pending ==> a.lock == {})
  {
    var x := s.txns[t];
    assert x.room in s.pending ==> s.pending + {x.room} == s.pending;
  }

  /** What the coordinator answers to a transaction that has not begun to reserve. */
  lemma ReserveSeen(x: Txn, y: Txn, pending: set<nat>, valid: bool)
    requires x.phase == Begun && y.room == x.room && (y.phase == Reserved || y.phase == Rejected)
    requires y.phase == Reserved <==> x.room !in pending && valid
    ensures y.phase == Reserved <==> P.ResultOf(Seen(x), pending, x.room, valid) == P.Reserved
    ensures P.AfterReserve(Seen(x), pending, x.room, valid)
      == P.Outcome(Seen(y), if y.phase == Reserved then pending + {x.room} else pending)
  {
  }

  lemma SameAdmits(s: System, a: System, room: nat, pending: set<nat>)
    requires a.recording == s.recording && a.status == s.status && a.max == s.max
    ensures Admits(a, room, pending) == Admits(s, room, pending)
  {
  }

  /** Undisturbed, the steps of a validation are one Reserve of the coordinator with the limit check: same answer, same
      transaction, same keys, and the lock is free again. */
  lemma ValidationIsReserve(s: System, t: nat)
    requires KeysOwned(s) && InPhase(s, t, Begun) && s.lock == {}
    ensures var x, after := s.txns[t], Validated(Step(s, AddKey(t)), t);
      var valid := Admits(s, x.room, s.pending + {x.room});
      && after.lock == {} && t in after.txns
      && P.Outcome(Seen(after.txns[t]), after.pending) == P.AfterReserve(Seen(x), s.pending, x.room, valid)
      && (InPhase(after, t, Reserved) <==> P.ResultOf(Seen(x), s.pending, x.room, valid) == P.Reserved)
      && after.recording == s.recording && after.status == s.status
  {
    hide Step, Validated, KeysOwned, Admits, HasStatus, Seen, P.AfterReserve, P.ResultOf;
    var x, a := s.txns[t], Step(s, AddKey(t));
    var valid := Admits(s, x.room, s.pending + {x.room});
    AddKeyStep(s, t);
    if x.room in s.pending {
      EndedStays(a, t);
      assert s.pending + {x.room} == s.pending;
    } else {
      SameAdmits(s, a, x.room, a.pending);
      ValidationSettles(a, t);
      assert s.pending + {x.room} - {x.room} == s.pending;
    }
    ReserveSeen(x, Validated(a, t).txns[t], s.pending, valid);
  }

  /** The abort step is the coordinator's. */
  lemma AbortIsAbort(s: System, t: nat)
    requires KeysOwned(s) && Enabled(s, Abort(t))
    ensures var x, after := s.txns[t], Step(s, Abort(t));
      P.Outcome(Seen(after.txns[t]), after.pending) == P.AfterAbort(Seen(x), s.pending, x.room)
  {
  }

  /** The confirm step is the coordinator's, and its hook publishes a user's room or revives the session. */
  lemma ConfirmIsConfirm(s: System, t: nat)
    requires Enabled(s, Confirm(t))
    ensures var x, after := s.txns[t], Step(s, Confirm(t));
      && P.Outcome(Seen(after.txns[t]), after.pending) == P.AfterConfirm(Seen(x), s.pending, x.room)
      && after.status == s.status[x.session := Recording]
      && after.recording == if x.mode == User then s.recording[x.room := x.session] else s.recording
  {
  }
}
