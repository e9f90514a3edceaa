/** Continuity counters of MPEG-TS packets (ISO/IEC 13818-1, section 2.4.3.3), repaired across segment boundaries. */
module TsContinuity {
  import opened Bytes
  import opened Collections

  const PACKET_SIZE := 188
  const SYNC: byte := 0x47
  const PIDS := 8192

  type Packet = p: seq<byte> | |p| == PACKET_SIZE witness seq(PACKET_SIZE, _ => 0)

  /** PID to the counter of its last counted packet. */
  type Counters = map<nat, nat>

  function Pid(p: Packet): (r: nat)
    ensures r < PIDS
  {
    p[1] as int % 32 * 256 + p[2] as int
  }

  function Counter(p: Packet): (r: nat)
    ensures r < 16
  {
    p[3] as int % 16
  }

  /** A packet with the sync byte and a payload: the others neither advance a counter nor are touched. */
  predicate Counted(p: Packet) {
    p[0] == SYNC && p[3] as int / 16 % 2 == 1
  }

  /** The packet announces a discontinuity: its counter is the new baseline. */
  predicate Discontinuity(p: Packet) {
    Counted(p) && p[3] as int / 16 % 4 == 3 && p[4] > 0 && p[5] >= 128
  }

  // ---- Written packets (section 2.4.3.2) ----

  /** The adaptation field behind its length byte, and the payload behind it. `field` holds what the length covers. */
  datatype Content =
    | PayloadOnly(payload: seq<byte>)
    | FieldOnly(field: seq<byte>, stuffing: seq<byte>)
    | FieldAndPayload(field: seq<byte>, payload: seq<byte>)
    | Reserved(bytes: seq<byte>)

  /** `top` are the error, start and priority bits. */
  datatype Written = Written(sync: byte, top: nat, pid: nat, scrambling: nat, counter: nat, content: Content)

  function ContentBytes(c: Content): seq<byte> {
    match c
    case PayloadOnly(payload) => payload
    case FieldOnly(field, stuffing) => if |field| < 256 then [|field|] + field + stuffing else []
    case FieldAndPayload(field, payload) => if |field| < 256 then [|field|] + field + payload else []
    case Reserved(bytes) => bytes
  }

  function Control(c: Content): nat {
    match c
    case Reserved(_) => 0
    case PayloadOnly(_) => 1
    case FieldOnly(_, _) => 2
    case FieldAndPayload(_, _) => 3
  }

  predicate WrittenOk(w: Written) {
    w.top < 8 && w.pid < 8192 && w.scrambling < 4 && w.counter < 16 && |ContentBytes(w.content)| == 184
  }

  function PrintPacket(w: Written): (p: Packet)
    requires WrittenOk(w)
  {
    [w.sync, w.top * 32 + w.pid / 256, w.pid % 256, w.scrambling * 64 + Control(w.content) * 16 + w.counter]
    + ContentBytes(w.content)
  }

  /** What the fixer reads from a packet is what was written: PID, counter, whether there is a payload, and the
      discontinuity bit, the highest of a field that is not empty. */
  lemma PrintedPacketIsRead(w: Written)
    requires WrittenOk(w)
    ensures var p, c := PrintPacket(w), w.content;
      && Pid(p) == w.pid && Counter(p) == w.counter
      && (Counted(p) <==> w.sync == 0x47 && (c.PayloadOnly? || c.FieldAndPayload?))
      && (Discontinuity(p) <==> w.sync == 0x47 && c.FieldAndPayload? && c.field != [] && c.field[0] >= 128)
  {
    var p := PrintPacket(w);
    PidBits(w.top, w.pid);
    ControlBits(w.scrambling, Control(w.content), w.counter);
    assert p[4..] == ContentBytes(w.content);
    if w.content.FieldAndPayload? {
      assert p[4] == ContentBytes(w.content)[0] && p[5] == ContentBytes(w.content)[1];
    }
  }

  lemma PidBits(top: nat, pid: nat)
    requires top < 8 && pid < 8192
    ensures (top * 32 + pid / 256) % 32 * 256 + pid % 256 == pid && top * 32 + pid / 256 < 256
  {
    assert pid / 256 < 32;
  }

  lemma ControlBits(scrambling: nat, control: nat, counter: nat)
    requires scrambling < 4 && control < 4 && counter < 16
    ensures var b := scrambling * 64 + control * 16 + counter;
      b < 256 && b % 16 == counter && b / 16 % 4 == control && b / 16 % 2 == control % 2
  {
    var b := scrambling * 64 + control * 16 + counter;
    assert b / 16 == scrambling * 4 + control;
  }

  function WithCounter(p: Packet, c: nat): (r: Packet)
    requires c < 16
  {
    p[3 := (p[3] as int / 16 * 16 + c) as byte]
  }

  /** Counters run from 0 to 15 and start over. */
  function Next(c: nat): (r: nat)
    ensures c < 15 ==> r == c + 1
    ensures c == 15 ==> r == 0
  {
    (c + 1) % 16
  }

  function Fixed(counters: Counters, p: Packet): Packet {
    if Counted(p) && !Discontinuity(p) && Pid(p) in counters then WithCounter(p, Next(counters[Pid(p)])) else p
  }

  function Observe(counters: Counters, p: Packet): Counters {
    if Counted(p) then counters[Pid(p) := Counter(p)] else counters
  }

  function CountersAfter(counters: Counters, ps: seq<Packet>): Counters {
    if ps == [] then counters
    else
      var before := CountersAfter(counters, ps[..|ps| - 1]);
      Observe(before, Fixed(before, ps[|ps| - 1]))
  }

  function FixPackets(counters: Counters, ps: seq<Packet>): (out: seq<Packet>)
    ensures |out| == |ps|
  {
    if ps == [] then []
    else
      var init := ps[..|ps| - 1];
      FixPackets(counters, init) + [Fixed(CountersAfter(counters, init), ps[|ps| - 1])]
  }

  function PacketAt(data: seq<byte>, k: nat): Packet
    requires PACKET_SIZE * (k + 1) <= |data|
  {
    data[PACKET_SIZE * k..PACKET_SIZE * (k + 1)]
  }

  /** The whole packets of a segment; a shorter tail is left alone. */
  function Packets(data: seq<byte>): (ps: seq<Packet>)
    ensures |ps| == |data| / PACKET_SIZE
  {
    seq(|data| / PACKET_SIZE, k requires 0 <= k < |data| / PACKET_SIZE => PacketAt(data, k))
  }

  function Tail(data: seq<byte>): seq<byte> {
    data[PACKET_SIZE * (|data| / PACKET_SIZE)..]
  }

  function Patches(before: seq<Packet>, after: seq<Packet>): nat
    requires |before| == |after|
  {
    if before == [] then 0
    else
      var n := |before| - 1;
      Patches(before[..n], after[..n]) + (if before[n] != after[n] then 1 else 0)
  }

  class TsContinuityFixer {
    const lastCC: array<nat>
    const seen: array<bool>

    ghost predicate Valid()
      reads this, lastCC, seen
    {
      && lastCC.Length == PIDS && seen.Length == PIDS
      && (forall pid :: 0 <= pid < PIDS ==> lastCC[pid] < 16)
    }

    ghost function View(): Counters
      requires Valid()
      reads this, lastCC, seen
    {
      map pid: nat | pid < PIDS && seen[pid] :: lastCC[pid]
    }

    constructor ()
      ensures Valid() && View() == map[] && fresh(lastCC) && fresh(seen)
    {
      lastCC := new nat[PIDS](_ => 0);
      seen := new bool[PIDS](_ => false);
    }

    method Reset()
      requires Valid()
      modifies seen
      ensures Valid() && View() == map[]
    {
      for i := 0 to PIDS
        invariant forall pid :: 0 <= pid < i ==> !seen[pid]
      {
        seen[i] := false;
      }
    }

    method Note(pid: nat, cc: nat)
      requires Valid() && pid < PIDS && cc < 16
      modifies lastCC, seen
      ensures Valid() && View() == old(View())[pid := cc]
    {
      lastCC[pid] := cc;
      seen[pid] := true;
    }

    static method SetCounter(data: array<byte>, off: nat, want: nat)
      requires off + PACKET_SIZE <= data.Length && want < 16
      modifies data
      ensures data[off..off + PACKET_SIZE] == WithCounter(old(data[off..off + PACKET_SIZE]), want)
      ensures data[..off] == old(data[..off]) && data[off + PACKET_SIZE..] == old(data[off + PACKET_SIZE..])
    {
      data[off + 3] := (data[off + 3] as int / 16 * 16 + want) as byte;
    }

    /** One packet, in place, at offset `off`. */
    method FixPacket(data: array<byte>, off: nat) returns (patched: bool)
      requires Valid() && off + PACKET_SIZE <= data.Length
      modifies data, lastCC, seen
      ensures Valid()
      ensures data[off..off + PACKET_SIZE] == Fixed(old(View()), old(data[off..off + PACKET_SIZE]))
      ensures data[..off] == old(data[..off]) && data[off + PACKET_SIZE..] == old(data[off + PACKET_SIZE..])
      ensures View() == Observe(old(View()), data[off..off + PACKET_SIZE])
      ensures patched <==> data[off..off + PACKET_SIZE] != old(data[off..off + PACKET_SIZE])
    {
      hide WithCounter, Counted, Discontinuity, Pid, Counter;
      patched := false;
      ghost var p: Packet := data[off..off + PACKET_SIZE];
      PacketFields(p);
      if data[off] != SYNC {
        return;
      }
      var pid := data[off + 1] as int % 32 * 256 + data[off + 2] as int;
      var control := data[off + 3] as int / 16 % 4;
      var cc := data[off + 3] as int % 16;
      if control == 0 || control == 2 {
        return;
      }
      if control == 3 && data[off + 4] > 0 && data[off + 5] >= 128 {
        Note(pid, cc);
        return;
      }
      if seen[pid] {
        var want := (lastCC[pid] + 1) % 16;
        WithCounterChangesOneNibble(p, want);
        if cc != want {
          SetCounter(data, off, want);
          cc := want;
          patched := true;
        }
      }
      Note(pid, cc);
    }

    method FixSegment(data: array<byte>) returns (patched: nat)
      requires Valid()
      modifies data, lastCC, seen
      ensures Valid()
      ensures Packets(data[..]) == FixPackets(old(View()), old(Packets(data[..])))
      ensures Tail(data[..]) == old(Tail(data[..]))
      ensures View() == CountersAfter(old(View()), old(Packets(data[..])))
      ensures patched == Patches(old(Packets(data[..])), Packets(data[..]))
    {
      patched := 0;
      var off := 0;
      ghost var was, st := data[..], View();
      while off + PACKET_SIZE <= data.Length
        invariant Valid() && off <= data.Length && Partway(st, was, data[..], off)
        invariant View() == CountersAfter(st, Packets(was[..off]))
        invariant patched == Patches(Packets(was[..off]), Packets(data[..off]))
        decreases data.Length - off
      {
        ghost var before := data[..];
        var p := FixPacket(data, off);
        FixNext(st, was, before, data[..], off);
        patched := patched + (if p then 1 else 0);
        off := off + PACKET_SIZE;
      }
      FixDone(st, was, data[..], off);
    }
  }

  /** The first `off` bytes are fixed and the others are as they were. */
  ghost predicate Partway(counters: Counters, was: seq<byte>, now: seq<byte>, off: nat) {
    && off <= |was| == |now| && off % PACKET_SIZE == 0 && now[off..] == was[off..]
    && Packets(now[..off]) == FixPackets(counters, Packets(was[..off]))
  }

  lemma PacketsNext(data: seq<byte>, off: nat)
    requires off % PACKET_SIZE == 0 && off + PACKET_SIZE <= |data|
    ensures Packets(data[..off + PACKET_SIZE]) == Packets(data[..off]) + [data[off..off + PACKET_SIZE]]
  {
    assert data[..off + PACKET_SIZE] == data[..off] + data[off..off + PACKET_SIZE];
    PacketsAppend(data[..off], data[off..off + PACKET_SIZE]);
    var last := data[off..off + PACKET_SIZE];
    assert PacketAt(last, 0) == last;
    assert Packets(last) == [last];
  }

  lemma PatchesSnoc(before: seq<Packet>, after: seq<Packet>, p: Packet, q: Packet)
    requires |before| == |after|
    ensures Patches(before + [p], after + [q]) == Patches(before, after) + (if p != q then 1 else 0)
  {
    assert (before + [p])[..|before|] == before && (after + [q])[..|after|] == after;
  }

  lemma FixNext(counters: Counters, was: seq<byte>, before: seq<byte>, now: seq<byte>, off: nat)
    requires off + PACKET_SIZE <= |was| == |now| && Partway(counters, was, before, off)
    requires now[..off] == before[..off] && now[off + PACKET_SIZE..] == before[off + PACKET_SIZE..]
    requires now[off..off + PACKET_SIZE]
      == Fixed(CountersAfter(counters, Packets(was[..off])), before[off..off + PACKET_SIZE])
    ensures Partway(counters, was, now, off + PACKET_SIZE)
    ensures CountersAfter(counters, Packets(was[..off + PACKET_SIZE]))
      == Observe(CountersAfter(counters, Packets(was[..off])), now[off..off + PACKET_SIZE])
    ensures |Packets(was[..off])| == |Packets(now[..off])|
    ensures Patches(Packets(was[..off + PACKET_SIZE]), Packets(now[..off + PACKET_SIZE]))
      == Patches(Packets(was[..off]), Packets(before[..off]))
         + (if now[off..off + PACKET_SIZE] != before[off..off + PACKET_SIZE] then 1 else 0)
  {
    hide Fixed, Observe, Counted, Packets, FixPackets, CountersAfter, Patches;
    var p: Packet := was[off..off + PACKET_SIZE];
    assert before[off..off + PACKET_SIZE] == was[off..][..PACKET_SIZE] == p;
    PacketsNext(was, off);
    PacketsNext(now, off);
    FixSnoc(counters, Packets(was[..off]), p);
    PatchesSnoc(Packets(was[..off]), Packets(now[..off]), p, now[off..off + PACKET_SIZE]);
    assert now[off + PACKET_SIZE..] == was[off + PACKET_SIZE..] by {
      assert was[off + PACKET_SIZE..] == was[off..][PACKET_SIZE..];
      assert before[off + PACKET_SIZE..] == before[off..][PACKET_SIZE..];
    }
  }

  lemma FixDone(counters: Counters, was: seq<byte>, now: seq<byte>, off: nat)
    requires Partway(counters, was, now, off) && |was| < off + PACKET_SIZE
    ensures Packets(was) == Packets(was[..off]) && Packets(now) == Packets(now[..off])
    ensures Tail(now) == Tail(was)
  {
    assert was == was[..off] + was[off..] && now == now[..off] + now[off..];
    PacketsAppend(was[..off], was[off..]);
    PacketsAppend(now[..off], now[off..]);
  }

  lemma SliceBehind(a: seq<byte>, b: seq<byte>, lo: nat, hi: nat)
    requires |a| <= lo <= hi <= |a + b|
    ensures (a + b)[lo..hi] == b[lo - |a|..hi - |a|]
  {
  }

  lemma PacketsAppend(a: seq<byte>, b: seq<byte>)
    requires |a| % PACKET_SIZE == 0
    ensures Packets(a + b) == Packets(a) + Packets(b)
    ensures Tail(a + b) == Tail(b)
  {
    forall k: nat | k < |Packets(a + b)|
      ensures Packets(a + b)[k] == (Packets(a) + Packets(b))[k]
    {
      if k >= |a| / PACKET_SIZE {
        var n := |a| / PACKET_SIZE;
        assert |a| == PACKET_SIZE * n;
        SliceBehind(a, b, PACKET_SIZE * k, PACKET_SIZE * (k + 1));
        assert PacketAt(a + b, k) == PacketAt(b, k - n);
      } else {
        assert (a + b)[PACKET_SIZE * k..PACKET_SIZE * (k + 1)] == a[PACKET_SIZE * k..PACKET_SIZE * (k + 1)];
      }
    }
  }

  /** Fixing a then b is fixing a ++ b. */
  lemma {:induction false} FixAppend(counters: Counters, a: seq<Packet>, b: seq<Packet>)
    ensures CountersAfter(counters, a + b) == CountersAfter(CountersAfter(counters, a), b)
    ensures FixPackets(counters, a + b) == FixPackets(counters, a) + FixPackets(CountersAfter(counters, a), b)
  {
    hide CountersAfter, FixPackets, Observe, Fixed;
    if b == [] {
      assert a + b == a;
      FixNothing(CountersAfter(counters, a));
    } else {
      var init, p := b[..|b| - 1], b[|b| - 1];
      FixAppend(counters, a, init);
      assert b == init + [p] && a + b == a + init + [p];
      FixSnoc(counters, a + init, p);
      FixSnoc(CountersAfter(counters, a), init, p);
      Associate(FixPackets(counters, a), FixPackets(CountersAfter(counters, a), init),
                [Fixed(CountersAfter(counters, a + init), p)]);
    }
  }

  lemma FixNothing(counters: Counters)
    ensures CountersAfter(counters, []) == counters && FixPackets(counters, []) == []
  {
  }

  lemma FixOne(counters: Counters, p: Packet)
    ensures FixPackets(counters, [p]) == [Fixed(counters, p)]
  {
    FixNothing(counters);
    FixSnoc(counters, [], p);
    assert [] + [p] == [p];
  }

  lemma FixSnoc(counters: Counters, ps: seq<Packet>, p: Packet)
    ensures var before := CountersAfter(counters, ps);
      && CountersAfter(counters, ps + [p]) == Observe(before, Fixed(before, p))
      && FixPackets(counters, ps + [p]) == FixPackets(counters, ps) + [Fixed(before, p)]
  {
    assert (ps + [p])[..|ps|] == ps;
  }

  /** The packet that last advanced a PID's counter, or -1. */
  function LastCounted(ps: seq<Packet>, pid: nat): (i: int)
    ensures -1 <= i < |ps|
    ensures i >= 0 ==> Counted(ps[i]) && Pid(ps[i]) == pid
    ensures forall j :: i < j < |ps| ==> !(Counted(ps[j]) && Pid(ps[j]) == pid)
  {
    if ps == [] then -1
    else if Counted(ps[|ps| - 1]) && Pid(ps[|ps| - 1]) == pid then |ps| - 1
    else LastCounted(ps[..|ps| - 1], pid)
  }

  /** Packet j follows its PID's previous counted packet by one, modulo 16. */
  ghost predicate ContinuousAt(ps: seq<Packet>, j: nat)
    requires j < |ps|
  {
    Counted(ps[j]) && !Discontinuity(ps[j]) ==>
      var i := LastCounted(ps[..j], Pid(ps[j]));
      i >= 0 ==> Counter(ps[j]) == Next(Counter(ps[i]))
  }

  ghost predicate Continuous(ps: seq<Packet>) {
    forall j :: 0 <= j < |ps| ==> ContinuousAt(ps, j)
  }

  /** The fields as the packet's bytes carry them. */
  lemma PacketFields(p: Packet)
    ensures var control := p[3] as int / 16 % 4;
      && Counted(p) == (p[0] == SYNC && control != 0 && control != 2)
      && Discontinuity(p) == (Counted(p) && control == 3 && p[4] > 0 && p[5] >= 128)
    ensures Pid(p) == p[1] as int % 32 * 256 + p[2] as int && Counter(p) == p[3] as int % 16
  {
  }

  lemma WithCounterChangesOneNibble(p: Packet, c: nat)
    requires c < 16
    ensures Counter(WithCounter(p, c)) == c && Pid(WithCounter(p, c)) == Pid(p)
    ensures Counted(WithCounter(p, c)) == Counted(p) && Discontinuity(WithCounter(p, c)) == Discontinuity(p)
    ensures WithCounter(p, c)[3] as int / 16 == p[3] as int / 16
    ensures WithCounter(p, c) == p <==> Counter(p) == c
  {
    var q := WithCounter(p, c);
    assert q[3] as int / 16 == p[3] as int / 16;
    if Counter(p) == c {
      assert q[3] == p[3];
    }
  }

  lemma FixedKeepsHeader(counters: Counters, p: Packet)
    ensures Counted(Fixed(counters, p)) == Counted(p) && Discontinuity(Fixed(counters, p)) == Discontinuity(p)
    ensures Pid(Fixed(counters, p)) == Pid(p)
    ensures Fixed(counters, p) == p <==>
      (Counted(p) && !Discontinuity(p) && Pid(p) in counters ==> Counter(p) == Next(counters[Pid(p)]))
    ensures Counted(p) && !Discontinuity(p) && Pid(p) in counters ==>
      Counter(Fixed(counters, p)) == Next(counters[Pid(p)])
  {
    if Counted(p) && !Discontinuity(p) && Pid(p) in counters {
      WithCounterChangesOneNibble(p, Next(counters[Pid(p)]));
    }
  }

  /** The state remembers, for each PID, the counter of its last counted packet in the output. */
  lemma {:induction false} StateIsLastCounted(counters: Counters, ps: seq<Packet>, pid: nat)
    ensures var i := LastCounted(FixPackets(counters, ps), pid);
      var after := CountersAfter(counters, ps);
      if i >= 0 then pid in after && after[pid] == Counter(FixPackets(counters, ps)[i])
      else (pid in after <==> pid in counters) && (pid in counters ==> after[pid] == counters[pid])
  {
    if ps != [] {
      var n := |ps| - 1;
      StateIsLastCounted(counters, ps[..n], pid);
      FixedKeepsHeader(CountersAfter(counters, ps[..n]), ps[n]);
      assert FixPackets(counters, ps)[..n] == FixPackets(counters, ps[..n]);
    }
  }

  lemma FixPacketsPrefix(counters: Counters, ps: seq<Packet>, n: nat)
    requires n <= |ps|
    ensures FixPackets(counters, ps)[..n] == FixPackets(counters, ps[..n])
    ensures n < |ps| ==> FixPackets(counters, ps)[n] == Fixed(CountersAfter(counters, ps[..n]), ps[n])
  {
    hide FixPackets, CountersAfter, Fixed;
    var a, b := ps[..n], ps[n..];
    assert ps == a + b;
    FixAppend(counters, a, b);
    if n < |ps| {
      var more := ps[n + 1..];
      assert b == [ps[n]] + more;
      FixAppend(CountersAfter(counters, a), [ps[n]], more);
      FixOne(CountersAfter(counters, a), ps[n]);
    }
  }

  /** Whatever came before and whatever the input, the output's counters are continuous. */
  lemma OutputIsContinuous(counters: Counters, ps: seq<Packet>)
    ensures Continuous(FixPackets(counters, ps))
  {
    var out := FixPackets(counters, ps);
    forall j | 0 <= j < |out|
      ensures ContinuousAt(out, j)
    {
      FixPacketsPrefix(counters, ps, j);
      FixedKeepsHeader(CountersAfter(counters, ps[..j]), ps[j]);
      StateIsLastCounted(counters, ps[..j], Pid(ps[j]));
    }
  }

  /** A new fixer leaves a stream alone exactly when its counters are continuous. */
  lemma UntouchedIffContinuous(ps: seq<Packet>)
    ensures FixPackets(map[], ps) == ps <==> Continuous(ps)
  {
    OutputIsContinuous(map[], ps);
    if Continuous(ps) {
      ContinuousIsUntouched(ps);
    }
  }

  lemma {:induction false} ContinuousIsUntouched(ps: seq<Packet>)
    requires Continuous(ps)
    ensures FixPackets(map[], ps) == ps
  {
    hide Continuous, FixPackets, CountersAfter, Fixed;
    if ps == [] {
      FixNothing(map[]);
    } else {
      var init, p := ps[..|ps| - 1], ps[|ps| - 1];
      assert ps == init + [p];
      ContinuousPrefix(init, p);
      ContinuousIsUntouched(init);
      LastIsUntouched(init, p);
      FixSnoc(map[], init, p);
    }
  }

  lemma ContinuousPrefix(init: seq<Packet>, p: Packet)
    requires Continuous(init + [p])
    ensures Continuous(init) && ContinuousAt(init + [p], |init|)
  {
    hide ContinuousAt;
    forall j | 0 <= j < |init|
      ensures ContinuousAt(init, j)
    {
      assert ContinuousAt(init + [p], j);
      SameContinuity(init, p, j);
    }
  }

  lemma SameContinuity(init: seq<Packet>, p: Packet, j: nat)
    requires j < |init|
    ensures ContinuousAt(init + [p], j) == ContinuousAt(init, j)
  {
    assert (init + [p])[..j] == init[..j];
  }

  lemma LastIsUntouched(init: seq<Packet>, p: Packet)
    requires FixPackets(map[], init) == init && ContinuousAt(init + [p], |init|)
    ensures Fixed(CountersAfter(map[], init), p) == p
  {
    StateIsLastCounted(map[], init, Pid(p));
    FixedKeepsHeader(CountersAfter(map[], init), p);
    hide FixPackets, CountersAfter, Fixed, LastCounted;
    assert (init + [p])[..|init|] == init;
  }

  /** A new fixer patches nothing in a fixer's output. */
  lemma SecondFixChangesNothing(counters: Counters, ps: seq<Packet>)
    ensures FixPackets(map[], FixPackets(counters, ps)) == FixPackets(counters, ps)
  {
    OutputIsContinuous(counters, ps);
    UntouchedIffContinuous(FixPackets(counters, ps));
  }

  /** Only the low nibble of byte 3 ever changes. */
  lemma OnlyCountersChange(counters: Counters, ps: seq<Packet>, n: nat, k: nat)
    requires n < |ps| && k < PACKET_SIZE
    ensures k != 3 ==> FixPackets(counters, ps)[n][k] == ps[n][k]
    ensures FixPackets(counters, ps)[n][3] as int / 16 == ps[n][3] as int / 16
  {
    FixPacketsPrefix(counters, ps, n);
    var before := CountersAfter(counters, ps[..n]);
    if Pid(ps[n]) in before {
      WithCounterChangesOneNibble(ps[n], Next(before[Pid(ps[n])]));
    }
  }

  /** The segments of a run through one fixer, each fixed from where the previous one left the counters. */
  function FixSegments(counters: Counters, segments: seq<seq<Packet>>): seq<seq<Packet>>
    decreases |segments|
  {
    if segments == [] then []
    else [FixPackets(counters, segments[0])] + FixSegments(CountersAfter(counters, segments[0]), segments[1..])
  }

  function Flatten(segments: seq<seq<Packet>>): seq<Packet> {
    if segments == [] then [] else segments[0] + Flatten(segments[1..])
  }

  lemma {:induction false} SegmentsAreOneStream(counters: Counters, segments: seq<seq<Packet>>)
    ensures Flatten(FixSegments(counters, segments)) == FixPackets(counters, Flatten(segments))
    decreases |segments|
  {
    if segments != [] {
      SegmentsAreOneStream(CountersAfter(counters, segments[0]), segments[1..]);
      FixAppend(counters, segments[0], Flatten(segments[1..]));
    }
  }

  /** Over a whole run of segments every counter continues across the segment boundaries. */
  lemma RunIsContinuous(segments: seq<seq<Packet>>)
    ensures Continuous(Flatten(FixSegments(map[], segments)))
  {
    SegmentsAreOneStream(map[], segments);
    OutputIsContinuous(map[], Flatten(segments));
  }
}
