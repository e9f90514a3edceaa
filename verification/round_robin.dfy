/** The round-robin scheduler: one ready participant per tick. */
module RoundRobin {

  /** Who a tick picks, -1 if nobody is ready, and the cursor after it. */
  datatype Pick = Pick(index: int, cursor: nat)

  function After(i: nat, n: nat): nat {
    if i + 1 >= n then 0 else i + 1
  }

  /** The first ready index among the next `left` ones from the cursor on, around the end. */
  function Choose(n: nat, cursor: nat, left: nat, ready: nat -> bool): (p: Pick)
    requires cursor < n
    ensures p.cursor < n
    ensures p.index < 0 || (p.index < n && ready(p.index) && p.cursor == After(p.index, n))
    decreases left
  {
    if left == 0 then Pick(-1, cursor)
    else if ready(cursor) then Pick(cursor, After(cursor, n))
    else Choose(n, After(cursor, n), left - 1, ready)
  }

  lemma AfterIsModulo(i: nat, n: nat)
    requires i < n
    ensures (i + 1) % n == After(i, n)
  {
    if i + 1 < n {
      assert (i + 1) % n == i + 1;
    }
  }

  lemma ModuloSelf(n: nat)
    requires n > 0
    ensures n % n == 0
  {
  }

  lemma NobodyLeft(n: nat, cursor: nat, ready: nat -> bool)
    requires cursor < n
    ensures Choose(n, cursor, 0, ready) == Pick(-1, cursor)
  {
  }

  lemma ChooseUnfolds(n: nat, cursor: nat, left: nat, ready: nat -> bool)
    requires cursor < n && 0 < left
    ensures Choose(n, cursor, left, ready) ==
      if ready(cursor) then Pick(cursor, After(cursor, n)) else Choose(n, After(cursor, n), left - 1, ready)
  {
  }

  /** How many indices the cursor passes before it reaches j. */
  function Distance(n: nat, cursor: nat, j: nat): (d: nat)
    requires cursor < n && j < n
    ensures d < n
  {
    if j >= cursor then j - cursor else j + n - cursor
  }

  /** A tick picks the ready index nearest to the cursor; with nobody ready the cursor does not move. */
  lemma {:induction false} ChooseIsNearest(n: nat, cursor: nat, left: nat, ready: nat -> bool)
    requires cursor < n && left <= n
    ensures var p := Choose(n, cursor, left, ready);
      && (p.index < 0 <==> forall j :: 0 <= j < n && Distance(n, cursor, j) < left ==> !ready(j))
      && (p.index < 0 ==> p.cursor == if cursor + left < n then cursor + left else cursor + left - n)
      && (p.index >= 0 ==> Distance(n, cursor, p.index) < left)
      && (p.index >= 0 ==>
           forall j :: 0 <= j < n && ready(j) ==> Distance(n, cursor, p.index) <= Distance(n, cursor, j))
    decreases left
  {
    if left > 0 && !ready(cursor) {
      var next := After(cursor, n);
      ChooseIsNearest(n, next, left - 1, ready);
      forall j | 0 <= j < n && j != cursor
        ensures Distance(n, cursor, j) == Distance(n, next, j) + 1
      {
      }
      assert Distance(n, cursor, cursor) == 0;
      var p := Choose(n, cursor, left, ready);
      if p.index < 0 {
        forall j | 0 <= j < n && Distance(n, cursor, j) < left
          ensures !ready(j)
        {
          if j != cursor {
            assert Distance(n, next, j) < left - 1;
          }
        }
      }
    } else if left > 0 {
      assert Distance(n, cursor, cursor) == 0;
    }
  }

  /** The list with the last element moved to the first place of id. */
  function Without(ids: seq<nat>, id: nat): seq<nat> {
    if ids == [] then []
    else if ids[0] == id then (if |ids| == 1 then [] else [ids[|ids| - 1]] + ids[1..|ids| - 1])
    else [ids[0]] + Without(ids[1..], id)
  }

  lemma WithoutUnfolds(ids: seq<nat>, id: nat)
    requires ids != []
    ensures ids[0] == id && |ids| == 1 ==> Without(ids, id) == []
    ensures ids[0] == id && |ids| > 1 ==> Without(ids, id) == [ids[|ids| - 1]] + ids[1..|ids| - 1]
    ensures ids[0] != id ==> Without(ids, id) == [ids[0]] + Without(ids[1..], id)
  {
  }

  /** Replacing position i by the last element and dropping the last. */
  function Swapped(ids: seq<nat>, i: nat): seq<nat>
    requires i <= |ids|
  {
    if i == |ids| then ids else ids[i := ids[|ids| - 1]][..|ids| - 1]
  }

  lemma SwappedFirst(ids: seq<nat>)
    requires ids != []
    ensures Swapped(ids, 0) == if |ids| == 1 then [] else [ids[|ids| - 1]] + ids[1..|ids| - 1]
  {
  }

  lemma SwappedLater(ids: seq<nat>, i: nat)
    requires 0 < i <= |ids|
    ensures Swapped(ids, i) == [ids[0]] + Swapped(ids[1..], i - 1)
  {
  }

  lemma {:induction false} WithoutAt(ids: seq<nat>, id: nat, i: nat)
    requires i <= |ids| && id !in ids[..i] && (i < |ids| ==> ids[i] == id)
    ensures Without(ids, id) == Swapped(ids, i)
  {
    hide Without, Swapped;
    if ids == [] {
      NothingToLeave(id);
    } else {
      WithoutUnfolds(ids, id);
      if i > 0 {
        assert ids[0] == ids[..i][0] && ids[1..][..i - 1] == ids[..i][1..];
        WithoutAt(ids[1..], id, i - 1);
        SwappedLater(ids, i);
      } else {
        SwappedFirst(ids);
      }
    }
  }

  lemma NothingToLeave(id: nat)
    ensures Without([], id) == [] == Swapped([], 0)
  {
  }

  lemma SwappedElements(ids: seq<nat>, i: nat)
    requires i < |ids|
    ensures |Swapped(ids, i)| == |ids| - 1
    ensures forall k :: 0 <= k < |ids| - 1 ==> Swapped(ids, i)[k] == if k == i then ids[|ids| - 1] else ids[k]
  {
  }

  ghost predicate Distinct(ids: seq<nat>) {
    forall i, j :: 0 <= i < j < |ids| ==> ids[i] != ids[j]
  }

  lemma SwappedDistinct(ids: seq<nat>, i: nat)
    requires i < |ids| && Distinct(ids)
    ensures Distinct(Swapped(ids, i)) && ids[i] !in Swapped(ids, i)
    ensures forall p :: p in Swapped(ids, i) ==> p in ids
  {
    hide Swapped;
    SwappedElements(ids, i);
  }

  lemma SwappedKeeps(ids: seq<nat>, i: nat, p: nat)
    requires i < |ids| && p in ids && p != ids[i]
    ensures p in Swapped(ids, i)
  {
    hide Swapped;
    SwappedElements(ids, i);
    var k :| 0 <= k < |ids| && ids[k] == p;
    assert Swapped(ids, i)[if k == |ids| - 1 then i else k] == p;
  }

  /** Unregistering removes exactly the one participant. */
  lemma UnregisterRemovesOne(ids: seq<nat>, id: nat)
    requires Distinct(ids)
    ensures id !in Without(ids, id)
    ensures forall p :: p != id ==> (p in Without(ids, id) <==> p in ids)
    ensures |Without(ids, id)| == if id in ids then |ids| - 1 else |ids|
  {
    hide Without;
    if id in ids {
      var i :| 0 <= i < |ids| && ids[i] == id;
      WithoutAt(ids, id, i);
      SwappedElements(ids, i);
      SwappedDistinct(ids, i);
      hide Swapped;
      forall p | p != id && p in ids
        ensures p in Without(ids, id)
      {
        SwappedKeeps(ids, i, p);
      }
    } else {
      WithoutAt(ids, id, |ids|);
    }
    hide Distinct;
  }

  class RoundRobin {
    var participants: seq<nat>     // ids
    var nextID: nat
    var rr: nat
    var running: bool

    /** Ids are distinct, the cursor is in range, and the loop runs while anyone is registered. */
    ghost predicate Valid()
      reads this
    {
      && (forall i :: 0 <= i < |participants| ==> 0 < participants[i] <= nextID)
      && Distinct(participants)
      && (if participants == [] then rr == 0 else rr < |participants|)
      && (running <==> participants != [])
    }

    constructor ()
      ensures Valid() && participants == []
    {
      participants, nextID, rr, running := [], 0, 0, false;
    }

    method Register() returns (id: nat)
      requires Valid()
      modifies this
      ensures Valid() && id !in old(participants) && participants == old(participants) + [id] && rr == old(rr)
    {
      nextID := nextID + 1;
      id := nextID;
      participants := participants + [id];
      running := true;
    }

    method IndexOf(id: nat) returns (i: nat)
      ensures i <= |participants| && id !in participants[..i] && (i < |participants| ==> participants[i] == id)
    {
      i := 0;
      while i < |participants| && participants[i] != id
        invariant i <= |participants| && id !in participants[..i]
      {
        i := i + 1;
      }
    }

    /** The last participant takes the place of the one that leaves. */
    method Unregister(id: nat)
      requires Valid()
      modifies this
      ensures Valid() && participants == Without(old(participants), id)
      ensures rr == old(rr) || rr == 0
    {
      hide Without, Distinct;
      var i := IndexOf(id);
      WithoutAt(participants, id, i);
      if i < |participants| {
        SwappedDistinct(participants, i);
        SwappedElements(participants, i);
        participants := participants[i := participants[|participants| - 1]];
        participants := participants[..|participants| - 1];
      }
      if |participants| > 0 && rr >= |participants| {
        ModuloSelf(rr);
        rr := rr % |participants|;
      }
      if participants == [] && running {
        running := false;
      }
    }

    /** One tick; `ready` answers by index while the lock is held. */
    method Tick(ready: nat -> bool) returns (target: int)
      requires Valid()
      modifies this`rr
      ensures Valid()
      ensures participants == [] ==> target == -1
      ensures participants != [] ==>
        Pick(target, rr) == Choose(|participants|, old(rr), |participants|, ready)
    {
      hide Choose;
      var n := |participants|;
      target := -1;
      if n == 0 {
        return;
      }
      // The cursor is below n here, so the source's reduction modulo n is idle.
      var start, i := rr, 0;
      while i < n
        invariant 0 <= i <= n && rr < n && target == -1
        invariant i < n ==> rr == if start + i < n then start + i else start + i - n
        invariant i == n ==> rr == start
        invariant Choose(n, old(rr), n, ready) == Choose(n, rr, n - i, ready)
      {
        var candidate := rr;
        ChooseUnfolds(n, rr, n - i, ready);
        AfterIsModulo(rr, n);
        rr := (rr + 1) % n;
        if ready(candidate) {
          target := candidate;
          return;
        }
        i := i + 1;
        if rr == start {
          break;
        }
      }
      NobodyLeft(n, rr, ready);
    }
  }

  /** Where the cursor stands before tick t, with n unchanged participants and readiness that may change freely from
      tick to tick. */
  function CursorAt(n: nat, cursor: nat, ready: nat -> nat -> bool, t: nat): (c: nat)
    requires cursor < n
    ensures c < n
  {
    if t == 0 then cursor
    else
      var c := CursorAt(n, cursor, ready, t - 1);
      Choose(n, c, n, ready(t - 1)).cursor
  }

  function Selected(n: nat, cursor: nat, ready: nat -> nat -> bool, t: nat): int
    requires cursor < n
  {
    Choose(n, CursorAt(n, cursor, ready, t), n, ready(t)).index
  }

  /** Until j is picked, every tick at which it is ready brings the cursor closer to it. */
  lemma CursorApproaches(n: nat, cursor: nat, ready: nat -> bool, j: nat)
    requires cursor < n && j < n && ready(j)
    ensures var p := Choose(n, cursor, n, ready);
      p.index == j || Distance(n, p.cursor, j) < Distance(n, cursor, j)
  {
    ChooseIsNearest(n, cursor, n, ready);
  }

  lemma TickApproaches(n: nat, cursor: nat, ready: nat -> nat -> bool, j: nat, t: nat)
    requires cursor < n && j < n && ready(t)(j) && Selected(n, cursor, ready, t) != j
    ensures Distance(n, CursorAt(n, cursor, ready, t + 1), j) < Distance(n, CursorAt(n, cursor, ready, t), j)
  {
    hide Distance;
    CursorApproaches(n, CursorAt(n, cursor, ready, t), ready(t), j);
  }

  /** j stays ready and is passed over before tick t. */
  ghost predicate PassedOver(n: nat, cursor: nat, ready: nat -> nat -> bool, j: nat, t: nat)
    requires cursor < n
  {
    forall u: nat :: u < t ==> ready(u)(j) && Selected(n, cursor, ready, u) != j
  }

  lemma {:induction false} PickedWithin(n: nat, cursor: nat, ready: nat -> nat -> bool, j: nat, t: nat)
    requires cursor < n && j < n && PassedOver(n, cursor, ready, j, t)
    ensures Distance(n, CursorAt(n, cursor, ready, t), j) + t <= Distance(n, cursor, j)
  {
    hide Choose, Distance, Selected;
    if t > 0 {
      assert PassedOver(n, cursor, ready, j, t - 1);
      assert Selected(n, cursor, ready, t - 1) != j && ready(t - 1)(j);
      PickedWithin(n, cursor, ready, j, t - 1);
      TickApproaches(n, cursor, ready, j, t - 1);
    }
  }

  /** Bounded waiting: a participant that stays ready is picked within n ticks, whatever the others do. */
  lemma BoundedWaiting(n: nat, cursor: nat, ready: nat -> nat -> bool, j: nat)
    requires cursor < n && j < n
    requires forall u :: 0 <= u < n ==> ready(u)(j)
    ensures exists u :: 0 <= u < n && Selected(n, cursor, ready, u) == j
  {
    if forall u :: 0 <= u < n ==> Selected(n, cursor, ready, u) != j {
      assert PassedOver(n, cursor, ready, j, n);
      PickedWithin(n, cursor, ready, j, n);
    }
  }

  lemma {:induction false} AllReadyInTurn(n: nat, cursor: nat, ready: nat -> nat -> bool, t: nat)
    requires cursor < n && t < n
    requires forall u, i :: 0 <= u < n && 0 <= i < n ==> ready(u)(i)
    ensures CursorAt(n, cursor, ready, t) == (if cursor + t < n then cursor + t else cursor + t - n)
    ensures Selected(n, cursor, ready, t) == CursorAt(n, cursor, ready, t)
  {
    if t > 0 {
      AllReadyInTurn(n, cursor, ready, t - 1);
    }
  }

  /** When everyone stays ready, n ticks pick each participant exactly once. */
  lemma EachExactlyOnce(n: nat, cursor: nat, ready: nat -> nat -> bool, j: nat)
    requires cursor < n && j < n
    requires forall u, i :: 0 <= u < n && 0 <= i < n ==> ready(u)(i)
    ensures forall u :: 0 <= u < n ==> (Selected(n, cursor, ready, u) == j <==> u == Distance(n, cursor, j))
  {
    forall u | 0 <= u < n
      ensures Selected(n, cursor, ready, u) == j <==> u == Distance(n, cursor, j)
    {
      AllReadyInTurn(n, cursor, ready, u);
    }
  }
}
