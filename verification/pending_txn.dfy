/** The keyed reservation coordinator: a key is reserved by at most one transaction, which ends once. */
module PendingTxn {

  datatype ReserveResult = Reserved | TxnClosed | AlreadyReserved | Rejected

  /** A transaction as a value; the hooks are counted. */
  datatype State = State(reserved: bool, closed: bool, key: nat, confirms: nat, aborts: nat)

  const BEGUN := State(false, false, 0, 0, 0)

  /** A transaction and the group's pending keys after a call. */
  datatype Outcome = Outcome(txn: State, pending: set<nat>)

  function ResultOf(s: State, pending: set<nat>, k: nat, valid: bool): ReserveResult {
    if s.closed then TxnClosed
    else if s.reserved || k in pending then AlreadyReserved
    else if !valid then Rejected
    else Reserved
  }

  function AfterReserve(s: State, pending: set<nat>, k: nat, valid: bool): Outcome {
    if ResultOf(s, pending, k, valid) == Reserved then Outcome(s.(reserved := true, key := k), pending + {k})
    else Outcome(s, pending)
  }

  function AfterAbort(s: State, pending: set<nat>, k: nat): Outcome {
    if !s.reserved || s.closed then Outcome(s, pending)
    else Outcome(s.(reserved := false, closed := true, aborts := s.aborts + 1), pending - {k})
  }

  function AfterConfirm(s: State, pending: set<nat>, k: nat): Outcome {
    if !s.reserved || s.closed then Outcome(s, pending)
    else Outcome(s.(reserved := false, closed := true, confirms := s.confirms + 1), pending - {k})
  }

  /** Open and holding its key, or not reserved, or ended by exactly one of the hooks. */
  predicate Ok(s: State) {
    && (s.reserved ==> !s.closed)
    && s.confirms + s.aborts == if s.closed then 1 else 0
  }

  class Pending {
    var pending: set<nat>
    const validate: (nat, set<nat>) -> bool

    constructor (validate: (nat, set<nat>) -> bool)
      ensures pending == {} && this.validate == validate
    {
      pending, this.validate := {}, validate;
    }
  }

  class Txn {
    const group: Pending
    var reserved: bool
    var closed: bool
    var key: nat
    var confirms: nat
    var aborts: nat

    constructor (group: Pending)
      ensures this.group == group && View() == BEGUN
    {
      this.group, reserved, closed, key, confirms, aborts := group, false, false, 0, 0, 0;
    }

    function View(): State
      reads this
    {
      State(reserved, closed, key, confirms, aborts)
    }

    method Reserve(k: nat) returns (result: ReserveResult)
      modifies this, group
      ensures var valid := group.validate(k, old(group.pending) + {k});
        && result == ResultOf(old(View()), old(group.pending), k, valid)
        && Outcome(View(), group.pending) == AfterReserve(old(View()), old(group.pending), k, valid)
    {
      if closed {
        return TxnClosed;
      }
      if reserved {
        return AlreadyReserved;
      }
      if k in group.pending {
        return AlreadyReserved;
      }
      group.pending := group.pending + {k};
      if !group.validate(k, group.pending) {
        group.pending := group.pending - {k};
        return Rejected;
      }
      reserved := true;
      key := k;
      return Reserved;
    }

    /** A no-op unless the reservation is open. The key given back is the caller's. */
    method AbortWith(k: nat)
      modifies this, group
      ensures Outcome(View(), group.pending) == AfterAbort(old(View()), old(group.pending), k)
    {
      if !reserved || closed {
        return;
      }
      group.pending := group.pending - {k};
      aborts := aborts + 1;
      reserved := false;
      closed := true;
    }

    method ConfirmWith(k: nat)
      modifies this, group
      ensures Outcome(View(), group.pending) == AfterConfirm(old(View()), old(group.pending), k)
    {
      if !reserved || closed {
        return;
      }
      group.pending := group.pending - {k};
      confirms := confirms + 1;
      reserved := false;
      closed := true;
    }

    /** Reserve, run, confirm; the deferred abort runs last on every path. `succeeds` is the outcome of the run. A
        granted reservation ends in exactly one hook, and no key stays behind. */
    method RunWithHooks(k: nat, succeeds: bool) returns (result: ReserveResult, ok: bool)
      modifies this, group
      ensures result == ResultOf(old(View()), old(group.pending), k, group.validate(k, old(group.pending) + {k}))
      ensures ok == (result == Reserved && succeeds)
      ensures group.pending == old(group.pending)
      ensures result != Reserved ==> View() == old(View())
      ensures result == Reserved ==> closed && !reserved
      ensures result == Reserved ==> confirms == old(confirms) + (if succeeds then 1 else 0)
      ensures result == Reserved ==> aborts == old(aborts) + (if succeeds then 0 else 1)
    {
      result := Reserve(k);
      if result != Reserved {
        return result, false;
      }
      if succeeds {
        ConfirmWith(k);
      }
      AbortWith(k);
      return result, succeeds;
    }
  }

  // ---- What the calls keep ----

  datatype Call = Reserve(k: nat, valid: bool) | Abort(k: nat) | Confirm(k: nat)

  function After(o: Outcome, c: Call): Outcome {
    match c
    case Reserve(k, valid) => AfterReserve(o.txn, o.pending, k, valid)
    case Abort(k) => AfterAbort(o.txn, o.pending, k)
    case Confirm(k) => AfterConfirm(o.txn, o.pending, k)
  }

  function AfterAll(o: Outcome, cs: seq<Call>): Outcome
    decreases |cs|
  {
    if cs == [] then o else AfterAll(After(o, cs[0]), cs[1..])
  }

  /** A transaction that holds a key, or is over, gets no other one: the call is refused and changes nothing. */
  lemma OneKeyAtATime(s: State, pending: set<nat>, k: nat, valid: bool)
    requires s.reserved || s.closed
    ensures ResultOf(s, pending, k, valid) != Reserved && AfterReserve(s, pending, k, valid) == Outcome(s, pending)
  {
  }

  /** A new transaction is granted exactly a key nobody holds and the validation accepts. */
  lemma GrantedExactly(pending: set<nat>, k: nat, valid: bool)
    ensures ResultOf(BEGUN, pending, k, valid) == Reserved <==> k !in pending && valid
    ensures AfterReserve(BEGUN, pending, k, valid)
      == if k !in pending && valid then Outcome(State(true, false, k, 0, 0), pending + {k}) else Outcome(BEGUN, pending)
  {
  }

  /** Over any calls, with any keys, a transaction runs at most one hook, once; then it is over and changes no key. */
  lemma {:induction false} EndsOnce(o: Outcome, cs: seq<Call>)
    requires Ok(o.txn)
    ensures var e := AfterAll(o, cs);
      && Ok(e.txn) && e.txn.confirms + e.txn.aborts <= 1
      && (o.txn.closed ==> e == o)
    decreases |cs|
  {
    if cs != [] {
      EndsOnce(After(o, cs[0]), cs[1..]);
    }
  }
}
