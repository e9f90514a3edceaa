/** The bounded FIFO cache that drops repeated tags: its steps, its shape, and how long a signature stays. */
module FlvDedup {
  import opened Bytes
  import opened Collections
  import opened FlvTag

  const MAX_CACHE := 1000
  const WINDOW_MS: int32 := 5000

  datatype Signature = Signature(timestamp: int32, kind: byte, size: nat)

  /** Signatures by hash, and the hashes in the order of their insertion. */
  datatype Cache = Cache(maxSize: nat, window: int32, sigs: map<nat, Signature>, order: seq<nat>)

  function SignatureOf(t: Tag): Signature {
    Signature(t.timestamp, t.kind, |t.data|)
  }

  /** The int32 distance of two timestamps, wrapping as the machine does. */
  function Distance(a: int32, b: int32): int32 {
    var d := Wrap32(a - b);
    if d < 0 then Wrap32(0 - d as int) else d
  }

  /** How far apart two timestamps are. */
  function Apart(a: int, b: int): nat {
    if a < b then b - a else a - b
  }

  /** The distance is the true one exactly below 2^31. At 2^31 it is negative, which is within every window, and
      beyond that it shrinks again. */
  lemma DistanceExactly(a: int32, b: int32)
    ensures Distance(a, b) == Apart(a, b) <==> Apart(a, b) < 0x8000_0000
    ensures Apart(a, b) == 0x8000_0000 ==> Distance(a, b) == -0x8000_0000
    ensures Apart(a, b) > 0x8000_0000 ==> Distance(a, b) == TWO_32 - Apart(a, b)
    ensures a >= 0 && b >= 0 ==> Distance(a, b) == Apart(a, b)
  {
    hide Wrap32;
    WrapOfDifference(a, b);
    WrapOfDifference(0, Wrap32(a - b));
  }

  lemma WrapOfDifference(a: int32, b: int32)
    ensures Wrap32(a - b) ==
      if a - b >= 0x8000_0000 then a - b - TWO_32 else if a - b < -0x8000_0000 then a - b + TWO_32 else a - b
  {
  }

  predicate Hit(c: Cache, hash: nat, t: Tag) {
    && hash in c.sigs
    && Distance(t.timestamp, c.sigs[hash].timestamp) <= c.window
    && c.sigs[hash].kind == t.kind
    && c.sigs[hash].size == |t.data|
  }

  function AtLeastOne(n: nat): nat {
    if n < 1 then 1 else n
  }

  function Members(s: seq<nat>): set<nat> {
    set h | h in s
  }

  function Evict(c: Cache, count: nat): Cache {
    var k := if count > |c.order| then |c.order| else count;
    c.(sigs := c.sigs - Members(c.order[..k]), order := c.order[k..])
  }

  function Insert(c: Cache, hash: nat, sig: Signature): Cache {
    if hash in c.sigs then c.(sigs := c.sigs[hash := sig])
    else
      var d := MadeRoom(c);
      d.(sigs := d.sigs[hash := sig], order := d.order + [hash])
  }

  /** The cache after tag t with this hash was checked. */
  function Offer(c: Cache, hash: nat, t: Tag): Cache {
    if Hit(c, hash, t) then c else Insert(c, hash, SignatureOf(t))
  }

  predicate Expired(c: Cache, now: int32, hash: nat) {
    hash in c.sigs && Distance(now, c.sigs[hash].timestamp) > 2 * c.window
  }

  function Unexpired(c: Cache, now: int32, order: seq<nat>): seq<nat> {
    if order == [] then []
    else if Expired(c, now, order[0]) then Unexpired(c, now, order[1..])
    else [order[0]] + Unexpired(c, now, order[1..])
  }

  function Stale(c: Cache, now: int32, s: seq<nat>): set<nat> {
    set h | h in s && Expired(c, now, h)
  }

  function CleanOld(c: Cache, now: int32): Cache {
    c.(sigs := c.sigs - Stale(c, now, c.order), order := Unexpired(c, now, c.order))
  }

  function HighWater(c: Cache): nat {
    c.maxSize * 4 / 5
  }

  function CleanHighWater(c: Cache, now: int32): Cache {
    if |c.sigs| < HighWater(c) then c
    else
      var d := CleanOld(c, now);
      if |d.sigs| < HighWater(c) then d else Evict(d, AtLeastOne(c.maxSize / 10))
  }

  function Empty(maxSize: nat, window: int32): Cache {
    Cache(maxSize, window, map[], [])
  }

  // ---- Shape ----

  ghost predicate Distinct(s: seq<nat>) {
    forall i, j :: 0 <= i < j < |s| ==> s[i] != s[j]
  }

  /** The order list is duplicate-free, lists exactly the cached hashes, and stays within a capacity of at least one. */
  ghost predicate Ok(c: Cache) {
    && c.maxSize >= 1
    && 0 <= c.window < 0x4000_0000
    && Distinct(c.order)
    && (forall h :: h in c.order <==> h in c.sigs)
    && |c.order| <= c.maxSize
  }

  lemma {:induction false} DistinctSize(s: seq<nat>, keys: set<nat>)
    requires Distinct(s) && forall h :: h in s <==> h in keys
    ensures |keys| == |s|
  {
    if s == [] {
      assert keys == {};
    } else {
      forall h
        ensures h in s[1..] <==> h in keys - {s[0]}
      {
      }
      DistinctSize(s[1..], keys - {s[0]});
    }
  }

  lemma SizeIsOrder(c: Cache)
    requires Ok(c)
    ensures |c.sigs| == |c.order|
  {
    DistinctSize(c.order, c.sigs.Keys);
  }

  lemma EvictOk(c: Cache, count: nat)
    requires Ok(c)
    ensures Ok(Evict(c, count)) && |Evict(c, count).order| == (if count > |c.order| then 0 else |c.order| - count)
  {
    var k := if count > |c.order| then |c.order| else count;
    var d := Evict(c, count);
    forall h
      ensures h in d.order <==> h in d.sigs
    {
      assert c.order == c.order[..k] + c.order[k..];
    }
  }

  lemma UpdateOk(c: Cache, hash: nat, sig: Signature)
    requires Ok(c) && hash in c.sigs
    ensures Ok(c.(sigs := c.sigs[hash := sig]))
  {
    assert c.sigs[hash := sig].Keys == c.sigs.Keys;
  }

  /** The cache an insertion of a new hash is appended to. */
  function MadeRoom(c: Cache): Cache {
    if |c.sigs| >= c.maxSize then Evict(c, AtLeastOne(c.maxSize / 5)) else c
  }

  lemma MadeRoomOk(c: Cache)
    requires Ok(c)
    ensures var d := MadeRoom(c);
      && Ok(d) && |d.order| < d.maxSize && d.maxSize == c.maxSize && d.window == c.window &&
      forall h :: h in d.sigs ==> h in c.sigs && d.sigs[h] == c.sigs[h]
  {
    SizeIsOrder(c);
    EvictOk(c, AtLeastOne(c.maxSize / 5));
  }

  lemma InsertOk(c: Cache, hash: nat, sig: Signature)
    requires Ok(c)
    ensures Ok(Insert(c, hash, sig))
  {
    if hash in c.sigs {
      UpdateOk(c, hash, sig);
    } else {
      MadeRoomOk(c);
      AppendOk(MadeRoom(c), hash, sig);
    }
  }

  lemma AppendOk(d: Cache, hash: nat, sig: Signature)
    requires Ok(d) && hash !in d.sigs && |d.order| < d.maxSize
    ensures Ok(d.(sigs := d.sigs[hash := sig], order := d.order + [hash]))
  {
  }

  lemma {:induction false} UnexpiredOk(c: Cache, now: int32, s: seq<nat>)
    requires Distinct(s)
    ensures var u := Unexpired(c, now, s);
      Distinct(u) && |u| <= |s| && forall h :: h in u <==> h in s && !Expired(c, now, h)
  {
    if s != [] {
      UnexpiredOk(c, now, s[1..]);
    }
  }

  lemma CleanOldOk(c: Cache, now: int32)
    requires Ok(c)
    ensures Ok(CleanOld(c, now))
  {
    UnexpiredOk(c, now, c.order);
  }

  lemma CleanHighWaterOk(c: Cache, now: int32)
    requires Ok(c)
    ensures Ok(CleanHighWater(c, now))
  {
    CleanOldOk(c, now);
    EvictOk(CleanOld(c, now), AtLeastOne(c.maxSize / 10));
  }

  lemma RemoveNext(m: map<nat, Signature>, s: seq<nat>, i: nat)
    requires i < |s|
    ensures m - Members(s[..i + 1]) == m - Members(s[..i]) - {s[i]}
  {
    assert s[..i + 1] == s[..i] + [s[i]];
    assert Members(s[..i + 1]) == Members(s[..i]) + {s[i]};
  }

  lemma StaleSnoc(c: Cache, now: int32, i: nat)
    requires Ok(c) && i < |c.order|
    ensures c.sigs - Stale(c, now, c.order[..i + 1]) ==
            c.sigs - Stale(c, now, c.order[..i]) - (if Expired(c, now, c.order[i]) then {c.order[i]} else {})
    ensures c.order[i] in c.sigs && c.order[i] !in Stale(c, now, c.order[..i])
  {
    assert c.order[..i + 1] == c.order[..i] + [c.order[i]];
    assert Stale(c, now, c.order[..i + 1]) ==
           Stale(c, now, c.order[..i]) + (if Expired(c, now, c.order[i]) then {c.order[i]} else {});
  }

  lemma Overwrite(s: seq<nat>, w: nat, i: nat, x: nat)
    requires w <= i < |s|
    ensures s[w := x][..w + 1] == s[..w] + [x] && s[w := x][i + 1..] == s[i + 1..]
  {
  }

  lemma UnexpiredNext(c: Cache, now: int32, i: nat)
    requires i < |c.order|
    ensures Unexpired(c, now, c.order[i..]) ==
            (if Expired(c, now, c.order[i]) then [] else [c.order[i]]) + Unexpired(c, now, c.order[i + 1..])
  {
    assert c.order[i..][1..] == c.order[i + 1..];
  }

  /** The state of the compaction loop after i of c's entries, w of them kept. */
  ghost predicate Cleaning(c: Cache, now: int32, order: seq<nat>, sigs: map<nat, Signature>, w: nat, i: nat) {
    && w <= i <= |order| == |c.order|
    && order[i..] == c.order[i..]
    && order[..w] + Unexpired(c, now, c.order[i..]) == Unexpired(c, now, c.order)
    && sigs == c.sigs - Stale(c, now, c.order[..i])
  }

  lemma CleaningStart(c: Cache, now: int32)
    requires Ok(c)
    ensures Cleaning(c, now, c.order, c.sigs, 0, 0) && 0 <= c.window < 0x4000_0000
  {
    assert c.order[..0] == [] && c.order[0..] == c.order;
    assert [] + Unexpired(c, now, c.order) == Unexpired(c, now, c.order);
    hide Unexpired;
    assert Stale(c, now, []) == {};
    assert c.sigs - {} == c.sigs;
  }

  lemma NoMembers(sigs: map<nat, Signature>, order: seq<nat>)
    ensures sigs - Members(order[..0]) == sigs
  {
  }

  lemma CleaningStep(c: Cache, now: int32, order: seq<nat>, sigs: map<nat, Signature>, w: nat, i: nat)
    requires Ok(c) && Cleaning(c, now, order, sigs, w, i) && i < |order|
    ensures order[i] in sigs && order[i] in c.sigs && sigs[order[i]] == c.sigs[order[i]]
    ensures w <= i < |order| == |c.order|
    ensures if Expired(c, now, order[i]) then Cleaning(c, now, order, sigs - {order[i]}, w, i + 1)
            else Cleaning(c, now, order[w := order[i]], sigs, w + 1, i + 1)
  {
    assert order[i] == order[i..][0] == c.order[i];
    StaleSnoc(c, now, i);
    UnexpiredNext(c, now, i);
    assert order[i + 1..] == order[i..][1..] == c.order[i + 1..];
    Overwrite(order, w, i, order[i]);
    assert sigs - {} == sigs;
    Associate(order[..w], [order[i]], Unexpired(c, now, c.order[i + 1..]));
  }

  lemma CleaningDone(c: Cache, now: int32, order: seq<nat>, sigs: map<nat, Signature>, w: nat, i: nat)
    requires Ok(c) && Cleaning(c, now, order, sigs, w, i) && i == |order|
    ensures w <= |order| && CleanOld(c, now) == c.(sigs := sigs, order := order[..w])
  {
    assert c.order[..i] == c.order && c.order[i..] == [];
    assert order[..w] + [] == order[..w];
  }

  // ---- The mutable cache ----

  class DedupCache {
    const maxSize: nat
    const windowMs: int32
    var signatures: map<nat, Signature>
    var order: seq<nat>

    constructor (maxSize: nat, windowMs: int32)
      ensures View() == Empty(maxSize, windowMs)
    {
      this.maxSize, this.windowMs := maxSize, windowMs;
      signatures, order := map[], [];
    }

    function View(): Cache
      reads this
    {
      Cache(maxSize, windowMs, signatures, order)
    }

    ghost predicate Valid()
      reads this
    {
      Ok(View())
    }

    method IsDuplicate(hash: nat, tag: Tag) returns (dup: bool)
      requires Valid()
      modifies this
      ensures Valid()
      ensures dup == Hit(old(View()), hash, tag)
      ensures View() == Offer(old(View()), hash, tag)
    {
      if hash in signatures {
        var existing := signatures[hash];
        var timeDiff := Distance(tag.timestamp, existing.timestamp);
        if timeDiff <= windowMs && existing.kind == tag.kind && existing.size == |tag.data| {
          return true;
        }
      }
      Put(hash, SignatureOf(tag));
      return false;
    }

    method Put(hash: nat, sig: Signature)
      requires Valid()
      modifies this
      ensures Valid()
      ensures View() == Insert(old(View()), hash, sig)
    {
      InsertOk(View(), hash, sig);
      if hash in signatures {
        signatures := signatures[hash := sig];
        return;
      }
      if |signatures| >= maxSize {
        var removeCount := maxSize / 5;
        if removeCount < 1 {
          removeCount := 1;
        }
        EvictOldest(removeCount);
      }
      signatures := signatures[hash := sig];
      order := order + [hash];
    }

    method EvictOldest(count: nat)
      requires Valid()
      modifies this
      ensures Valid()
      ensures View() == Evict(old(View()), count)
    {
      EvictOk(View(), count);
      NoMembers(signatures, order);
      hide Ok, Members;
      if count < 1 || |order| == 0 {
        return;
      }
      var removeCount := count;
      if removeCount > |order| {
        removeCount := |order|;
      }
      var i := 0;
      while i < removeCount
        invariant 0 <= i <= removeCount
        invariant order == old(order)
        invariant signatures == old(signatures) - Members(order[..i])
      {
        RemoveNext(old(signatures), order, i);
        signatures := signatures - {order[i]};
        i := i + 1;
      }
      order := order[removeCount..];
    }

    method CleanOldEntries(now: int32)
      requires Valid()
      modifies this
      ensures Valid()
      ensures View() == CleanOld(old(View()), now)
    {
      ghost var c := View();
      CleanOldOk(c, now);
      CleaningStart(c, now);
      hide Ok, Cleaning, Distance, CleanOld;
      var writeIdx: nat, i: nat := 0, 0;
      while i < |order|
        invariant Cleaning(c, now, order, signatures, writeIdx, i) && i <= |order| == |c.order|
      {
        writeIdx := CleanNext(c, now, writeIdx, i);
        i := i + 1;
      }
      CleaningDone(c, now, order, signatures, writeIdx, i);
      order := order[..writeIdx];
    }

    method CleanNext(ghost c: Cache, now: int32, writeIdx: nat, i: nat) returns (next: nat)
      requires Ok(c) && c.window == windowMs && i < |order| == |c.order|
      requires Cleaning(c, now, order, signatures, writeIdx, i)
      modifies this
      ensures |order| == |c.order| && Cleaning(c, now, order, signatures, next, i + 1)
    {
      CleaningStart(c, now);
      CleaningStep(c, now, order, signatures, writeIdx, i);
      hide Ok, Cleaning, Distance;
      next := CleanEntry(now, writeIdx, i);
    }

    /** One turn of the compaction loop: entry i moves to writeIdx if it is young enough and is forgotten otherwise. */
    method CleanEntry(now: int32, writeIdx: nat, i: nat) returns (next: nat)
      requires writeIdx <= i < |order| && order[i] in signatures && 0 <= windowMs < 0x4000_0000
      modifies this
      ensures var expired := Distance(now, old(signatures[order[i]]).timestamp) > 2 * windowMs as int;
        && next == (if expired then writeIdx else writeIdx + 1)
        && order == (if expired then old(order) else old(order)[writeIdx := old(order[i])])
        && signatures == (if expired then old(signatures) - {old(order[i])} else old(signatures))
    {
      var hash := order[i];
      if Distance(now, signatures[hash].timestamp) <= 2 * windowMs as int {
        order := order[writeIdx := hash];
        return writeIdx + 1;
      }
      signatures := signatures - {hash};
      return writeIdx;
    }

    method CleanHighWaterEntries(now: int32)
      requires Valid()
      modifies this
      ensures Valid()
      ensures View() == CleanHighWater(old(View()), now)
    {
      if |signatures| < maxSize * 4 / 5 {
        return;
      }
      CleanOldEntries(now);
      if |signatures| < maxSize * 4 / 5 {
        return;
      }
      var removeCount := maxSize / 10;
      if removeCount < 1 {
        removeCount := 1;
      }
      EvictOldest(removeCount);
    }

    method Reset()
      modifies this
      ensures View() == Empty(maxSize, windowMs)
    {
      signatures, order := map[], [];
    }
  }

  // ---- How long a signature stays ----

  datatype Op = Check(hash: nat, tag: Tag) | Clean(now: int32) | CleanHigh(now: int32)

  function Apply(c: Cache, op: Op): Cache {
    match op
    case Check(hash, tag) => Offer(c, hash, tag)
    case Clean(now) => CleanOld(c, now)
    case CleanHigh(now) => CleanHighWater(c, now)
  }

  function Run(c: Cache, ops: seq<Op>): Cache
    decreases |ops|
  {
    if ops == [] then c else Run(Apply(c, ops[0]), ops[1..])
  }

  function Inserts(c: Cache, op: Op): nat {
    if op.Check? && op.hash !in c.sigs then 1 else 0
  }

  predicate ExpiresAt(c: Cache, op: Op, hash: nat) {
    !op.Check? && Expired(c, op.now, hash)
  }

  /** How many new hashes a run inserts. */
  function Insertions(c: Cache, ops: seq<Op>): nat
    decreases |ops|
  {
    if ops == [] then 0
    else Inserts(c, ops[0]) + Insertions(Apply(c, ops[0]), ops[1..])
  }

  /** Some cleaning of the run finds the cached entry of `hash` more than twice the window away. */
  predicate Expires(c: Cache, ops: seq<Op>, hash: nat)
    decreases |ops|
  {
    ops != [] && (ExpiresAt(c, ops[0], hash) || Expires(Apply(c, ops[0]), ops[1..], hash))
  }

  /** How many entries are newer than `hash`. */
  function Newer(order: seq<nat>, hash: nat): nat
    requires hash in order
  {
    if order[0] == hash then |order| - 1 else Newer(order[1..], hash)
  }

  /** A signature with fewer newer entries than this is never evicted by size. */
  function Retained(maxSize: nat): int {
    maxSize * 4 / 5 - AtLeastOne(maxSize / 10)
  }

  lemma {:induction false} NewerAppend(s: seq<nat>, hash: nat, x: nat)
    requires hash in s
    ensures Newer(s + [x], hash) == Newer(s, hash) + 1
  {
    if s[0] != hash {
      assert (s + [x])[1..] == s[1..] + [x];
      NewerAppend(s[1..], hash, x);
    }
  }

  lemma {:induction false} NewerDrop(s: seq<nat>, hash: nat, k: nat)
    requires hash in s && k <= |s| && Distinct(s)
    ensures hash in s[k..] ==> Newer(s[k..], hash) == Newer(s, hash)
    ensures hash !in s[k..] ==> Newer(s, hash) >= |s| - k
  {
    if k > 0 && s[0] != hash {
      assert s[1..][k - 1..] == s[k..];
      NewerDrop(s[1..], hash, k - 1);
    }
  }

  lemma {:induction false} NewerUnexpired(c: Cache, now: int32, s: seq<nat>, hash: nat)
    requires hash in s && Distinct(s) && !Expired(c, now, hash)
    ensures hash in Unexpired(c, now, s) && Newer(Unexpired(c, now, s), hash) <= Newer(s, hash)
    ensures s[0] == hash ==> |Unexpired(c, now, s)| <= |s|
  {
    UnexpiredOk(c, now, s);
    if s[0] == hash {
      assert Unexpired(c, now, s)[0] == hash;
    } else {
      NewerUnexpired(c, now, s[1..], hash);
      assert Unexpired(c, now, s) == Unexpired(c, now, s[1..]) ||
             Unexpired(c, now, s)[1..] == Unexpired(c, now, s[1..]);
    }
  }

  lemma ApplyOk(c: Cache, op: Op)
    requires Ok(c)
    ensures Ok(Apply(c, op)) && Apply(c, op).maxSize == c.maxSize && Apply(c, op).window == c.window
  {
    match op
    case Check(hash, tag) => InsertOk(c, hash, SignatureOf(tag));
    case Clean(now) => CleanOldOk(c, now);
    case CleanHigh(now) => CleanHighWaterOk(c, now);
  }

  lemma EvictKeeps(c: Cache, count: nat, hash: nat)
    requires Ok(c) && hash in c.sigs
    ensures var d := Evict(c, count);
      if hash in d.sigs then Newer(d.order, hash) == Newer(c.order, hash) else Newer(c.order, hash) >= |c.order| - count
  {
    var k := if count > |c.order| then |c.order| else count;
    EvictOk(c, count);
    NewerDrop(c.order, hash, k);
  }

  lemma CheckKeeps(c: Cache, h: nat, t: Tag, hash: nat)
    requires Ok(c) && hash in c.sigs && h !in c.sigs
    ensures var d := Insert(c, h, SignatureOf(t));
      && Ok(d)
      && (hash in d.order ==> Newer(d.order, hash) <= Newer(c.order, hash) + 1)
      && (hash !in d.order ==> Newer(c.order, hash) >= Retained(c.maxSize))
  {
    SizeIsOrder(c);
    var k := AtLeastOne(c.maxSize / 5);
    EvictKeeps(c, k, hash);
    MadeRoomOk(c);
    AppendOk(MadeRoom(c), h, SignatureOf(t));
    if hash in MadeRoom(c).order {
      NewerAppend(MadeRoom(c).order, hash, h);
    }
  }

  lemma CleanKeeps(c: Cache, now: int32, hash: nat)
    requires Ok(c) && hash in c.sigs && !Expired(c, now, hash)
    ensures var d := CleanOld(c, now);
      && Ok(d) && hash in d.order && Newer(d.order, hash) <= Newer(c.order, hash)
  {
    CleanOldOk(c, now);
    NewerUnexpired(c, now, c.order, hash);
  }

  lemma HighWaterKeeps(e: Cache, hash: nat)
    requires Ok(e) && hash in e.sigs && |e.order| >= HighWater(e)
    ensures var d := Evict(e, AtLeastOne(e.maxSize / 10));
      && (hash in d.order ==> Newer(d.order, hash) == Newer(e.order, hash))
      && (hash !in d.order ==> Newer(e.order, hash) >= Retained(e.maxSize))
  {
    EvictKeeps(e, AtLeastOne(e.maxSize / 10), hash);
    EvictOk(e, AtLeastOne(e.maxSize / 10));
  }

  lemma CleanHighKeeps(c: Cache, now: int32, hash: nat)
    requires Ok(c) && hash in c.sigs && !Expired(c, now, hash)
    ensures var d := CleanHighWater(c, now);
      && Ok(d)
      && (hash in d.order ==> Newer(d.order, hash) <= Newer(c.order, hash))
      && (hash !in d.order ==> Newer(c.order, hash) >= Retained(c.maxSize))
  {
    CleanHighWaterOk(c, now);
    if |c.sigs| >= HighWater(c) {
      CleanKeeps(c, now, hash);
      var e := CleanOld(c, now);
      SizeIsOrder(e);
      if |e.sigs| >= HighWater(e) {
        HighWaterKeeps(e, hash);
        assert CleanHighWater(c, now) == Evict(e, AtLeastOne(e.maxSize / 10));
      } else {
        assert CleanHighWater(c, now) == e;
      }
    }
  }

  /** One step: the entry stays, with at most the inserted one newer, or it expired, or many entries were newer. */
  lemma StepKeeps(c: Cache, op: Op, hash: nat)
    requires Ok(c) && hash in c.sigs
    ensures var d := Apply(c, op);
      && Ok(d)
      && (hash in d.order ==> Newer(d.order, hash) <= Newer(c.order, hash) + Inserts(c, op))
      && (hash !in d.order ==> ExpiresAt(c, op, hash) || Newer(c.order, hash) >= Retained(c.maxSize))
  {
    ApplyOk(c, op);
    match op
    case Check(h, t) =>
      if h !in c.sigs {
        CheckKeeps(c, h, t, hash);
      }
    case Clean(now) =>
      if Expired(c, now, hash) {
        NewerStale(c, now, hash);
      } else {
        CleanKeeps(c, now, hash);
      }
    case CleanHigh(now) =>
      if Expired(c, now, hash) {
        NewerStale(c, now, hash);
      } else {
        CleanHighKeeps(c, now, hash);
      }
  }

  /** An expired entry either goes or, below the high-water mark, is not looked at. */
  lemma NewerStale(c: Cache, now: int32, hash: nat)
    requires Ok(c) && Expired(c, now, hash)
    ensures hash !in CleanOld(c, now).order
    ensures var d := CleanHighWater(c, now); hash in d.order ==> d == c
  {
    UnexpiredOk(c, now, c.order);
    CleanOldOk(c, now);
  }

  /** Over any run, a signature is gone only if a cleaning found it more than twice the window away,
      or if it and the entries inserted after it add up to at least Retained(maxSize). */
  lemma {:induction false} LeavesOnlyIf(c: Cache, ops: seq<Op>, hash: nat)
    requires Ok(c) && hash in c.sigs
    requires hash !in Run(c, ops).sigs
    ensures Expires(c, ops, hash) || Newer(c.order, hash) + Insertions(c, ops) >= Retained(c.maxSize)
    decreases |ops|
  {
    StepKeeps(c, ops[0], hash);
    ApplyOk(c, ops[0]);
    var d := Apply(c, ops[0]);
    if hash in d.sigs {
      LeavesOnlyIf(d, ops[1..], hash);
    }
  }

  /** At the capacity in use, that is at least 700 newer insertions. */
  lemma RetainedInUse()
    ensures Retained(MAX_CACHE) == 700
  {
  }

  /** Only tag t itself is checked under `hash`. */
  ghost predicate NoCollision(ops: seq<Op>, hash: nat, t: Tag) {
    forall i :: 0 <= i < |ops| && ops[i].Check? && ops[i].hash == hash ==> ops[i].tag == t
  }

  lemma StepSignature(c: Cache, op: Op, hash: nat, t: Tag)
    requires Ok(c) && (hash in c.sigs ==> c.sigs[hash] == SignatureOf(t))
    requires NoCollision([op], hash, t)
    ensures hash in Apply(c, op).sigs ==> Apply(c, op).sigs[hash] == SignatureOf(t)
  {
    assert op.Check? && op.hash == hash ==> [op][0].tag == t;
  }

  lemma {:induction false} RunSignature(c: Cache, ops: seq<Op>, hash: nat, t: Tag)
    requires Ok(c) && (hash in c.sigs ==> c.sigs[hash] == SignatureOf(t))
    requires NoCollision(ops, hash, t)
    ensures hash in Run(c, ops).sigs ==> Run(c, ops).sigs[hash] == SignatureOf(t)
    decreases |ops|
  {
    if ops != [] {
      ApplyOk(c, ops[0]);
      StepSignature(c, ops[0], hash, t);
      RunSignature(Apply(c, ops[0]), ops[1..], hash, t);
    }
  }

  /** A tag that comes twice in a row is dropped the second time, whatever the cache knew of its signature before. */
  lemma SecondOfferHits(c: Cache, hash: nat, t: Tag)
    requires Ok(c)
    ensures Hit(Offer(c, hash, t), hash, t)
  {
    DistanceExactly(t.timestamp, t.timestamp);
  }

  /** A tag that was just inserted is dropped when it comes again, unless the cache had a reason to forget it. */
  lemma RepeatIsDropped(c: Cache, ops: seq<Op>, hash: nat, t: Tag)
    requires Ok(c) && hash !in c.sigs
    requires var d := Offer(c, hash, t);
      NoCollision(ops, hash, t) && !Expires(d, ops, hash) && Insertions(d, ops) < Retained(c.maxSize)
    ensures Hit(Run(Offer(c, hash, t), ops), hash, t)
  {
    var d := Offer(c, hash, t);
    InsertOk(c, hash, SignatureOf(t));
    NewestHasNoneNewer(d.order);
    RunSignature(d, ops, hash, t);
    if hash !in Run(d, ops).sigs {
      LeavesOnlyIf(d, ops, hash);
    }
    RunLimits(d, ops);
  }

  lemma {:induction false} NewestHasNoneNewer(s: seq<nat>)
    requires s != [] && Distinct(s)
    ensures Newer(s, s[|s| - 1]) == 0
  {
    if |s| > 1 {
      NewestHasNoneNewer(s[1..]);
    }
  }

  /** Every reachable cache has the right shape. */
  lemma {:induction false} RunLimits(c: Cache, ops: seq<Op>)
    requires Ok(c)
    ensures Ok(Run(c, ops)) && Run(c, ops).maxSize == c.maxSize && Run(c, ops).window == c.window
    decreases |ops|
  {
    if ops != [] {
      ApplyOk(c, ops[0]);
      RunLimits(Apply(c, ops[0]), ops[1..]);
    }
  }
}
