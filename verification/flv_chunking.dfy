/** What the fixer does over a whole stream does not depend on how the stream is cut into chunks. */
module FlvChunking {
  import opened Bytes
  import opened Collections
  import opened FlvTag
  import opened FlvTimestamp
  import opened FlvDedup
  import opened FlvFixer

  function Concat(cs: seq<seq<byte>>): seq<byte> {
    if cs == [] then [] else cs[0] + Concat(cs[1..])
  }

  /** The state after the chunks `cs`, one call of Fix each. */
  function Feed(hash: Tag -> nat, max: nat, st: State, cs: seq<seq<byte>>): State
    decreases |cs|
  {
    if cs == [] then st else Feed(hash, max, Next(hash, max, st, cs[0]), cs[1..])
  }

  /** All tags handed to deduplication over these calls. */
  function AllHanded(hash: Tag -> nat, max: nat, st: State, cs: seq<seq<byte>>): seq<Tag>
    decreases |cs|
  {
    if cs == [] then [] else Handed(st, cs[0]) + AllHanded(hash, max, Next(hash, max, st, cs[0]), cs[1..])
  }

  /** The concatenated outputs of these calls. */
  function AllOutput(hash: Tag -> nat, max: nat, st: State, cs: seq<seq<byte>>): seq<byte>
    decreases |cs|
  {
    if cs == [] then [] else Output(hash, st, cs[0]) + AllOutput(hash, max, Next(hash, max, st, cs[0]), cs[1..])
  }

  /** The part of a stream that holds tags: everything after the file header, if one is due and present. */
  function TagStream(st: State, stream: seq<byte>): seq<byte> {
    if !st.headerOk && |stream| >= FLV_HEADER && IsMagic(stream) then stream[FLV_HEADER..] else stream
  }

  /** The stream may be read on from here: it has its header, does not need one, or is too short to tell. */
  predicate Accepts(st: State, stream: seq<byte>) {
    st.headerOk || st.rotation || |stream| < FLV_HEADER || IsMagic(stream)
  }

  /** No tag of the stream, complete or begun, claims more than 12 MiB. */
  predicate ClaimsBounded(buf: seq<byte>)
    decreases |buf|
  {
    |buf| >= MIN_ENTRY ==> Claim(buf) <= 12_582_912 && (Complete(buf) ==> ClaimsBounded(Tail(buf)))
  }

  /** A tag may claim more than 12 MiB only if as much of it as can wait in the buffer fits the buffer limit. */
  predicate NeverStuck(buf: seq<byte>, max: nat)
    decreases |buf|
  {
    |buf| >= MIN_ENTRY ==>
      && (Claim(buf) <= 12_582_912 || Waiting(buf) <= max)
      && (Complete(buf) ==> NeverStuck(Tail(buf), max))
  }

  /** The longest prefix of the stream in which its first tag is still incomplete. */
  function Waiting(buf: seq<byte>): nat
    requires |buf| >= MIN_ENTRY
  {
    if Complete(buf) then MIN_ENTRY - 1 + Claim(buf) else |buf|
  }

  /** One of the calls loses buffered bytes to the trim. */
  predicate Drops(hash: Tag -> nat, max: nat, st: State, cs: seq<seq<byte>>)
    decreases |cs|
  {
    cs != [] && (
      (!Refused(st, cs[0]) && Next(hash, max, st, cs[0]).buffer != Rest(Begin(st, cs[0]).buffer))
      || Drops(hash, max, Next(hash, max, st, cs[0]), cs[1..]))
  }

  lemma {:induction false} BoundedIsNeverStuck(buf: seq<byte>, max: nat)
    requires ClaimsBounded(buf)
    ensures NeverStuck(buf, max)
    decreases |buf|
  {
    if Complete(buf) {
      BoundedIsNeverStuck(Tail(buf), max);
    }
  }

  /** Nothing in a prefix of such a stream gets stuck, and the stream continues to be such a stream. */
  lemma {:induction false} PrefixNotStuck(a: seq<byte>, b: seq<byte>, max: nat)
    requires NeverStuck(a + b, max) && max >= MIN_ENTRY
    ensures NeverStuck(Rest(a) + b, max)
    ensures Trim(max, |Tags(a)|, Rest(a)) == Rest(a)
    decreases |a|
  {
    if Complete(a) {
      HeadAppend(a, b);
      PrefixNotStuck(Tail(a), b, max);
    } else if |a| >= MIN_ENTRY {
      assert (a + b)[PREV_TAG_SIZE + 1..PREV_TAG_SIZE + 4] == a[PREV_TAG_SIZE + 1..PREV_TAG_SIZE + 4];
      assert |a| <= Waiting(a + b);
    }
  }

  lemma NextFields(hash: Tag -> nat, max: nat, st: State, c: seq<byte>)
    requires !Refused(st, c)
    ensures var b, next := Begin(st, c), Next(hash, max, st, c);
      && next.buffer == Trim(max, |Tags(b.buffer)|, Rest(b.buffer))
      && next.headerOk == b.headerOk && next.rotation == st.rotation
      && next.store == After(st.store, Kept(hash, st.cache, Handed(st, c)))
      && forall h :: h in next.cache.sigs ==> h in CacheAfter(hash, st.cache, Handed(st, c)).sigs
  {
    var b := Begin(st, c);
    var d := Drain(hash, b);
    var parsed := |Tags(b.buffer)|;
    CleanUpOnlyRemoves(d.(buffer := Trim(max, parsed, d.buffer)), parsed);
  }

  lemma CleanUpOnlyRemoves(st: State, parsed: nat)
    ensures var d := CleanUp(st, parsed);
      && d == st.(cache := d.cache, lastClean := d.lastClean)
      && forall h :: h in d.cache.sigs ==> h in st.cache.sigs
  {
  }

  /** The stream splits at the end of the call's chunk. */
  lemma BeginSplits(st: State, c: seq<byte>, more: seq<byte>)
    requires Accepts(st, st.buffer + c + more)
    ensures var b := Begin(st, c);
      && !Refused(st, c)
      && (b.headerOk ==> TagStream(st, st.buffer + c + more) == b.buffer + more)
      && (!b.headerOk ==> b.buffer == st.buffer + c && |b.buffer| < FLV_HEADER && !st.headerOk)
  {
  }

  /** One call on an acceptable stream: its tags are those of the prefix, and nothing is lost. */
  lemma CallKeepsStream(hash: Tag -> nat, max: nat, st: State, c: seq<byte>, more: seq<byte>)
    requires max >= MIN_ENTRY
    requires var s := st.buffer + c + more; Accepts(st, s) && NeverStuck(TagStream(st, s), max)
    ensures var s, next := st.buffer + c + more, Next(hash, max, st, c);
      && !Refused(st, c)
      && next.buffer == Rest(Begin(st, c).buffer)
      && Accepts(next, next.buffer + more)
      && NeverStuck(TagStream(next, next.buffer + more), max)
      && Tags(TagStream(st, s)) == Handed(st, c) + Tags(TagStream(next, next.buffer + more))
      && Rest(TagStream(st, s)) == Rest(TagStream(next, next.buffer + more))
  {
    var b := Begin(st, c);
    BeginSplits(st, c, more);
    NextFields(hash, max, st, c);
    hide Begin, Next, Refused, NeverStuck, Trim;
    if b.headerOk {
      PrefixNotStuck(b.buffer, more, max);
      ParseAppend(b.buffer, more);
    } else {
      ShortNeedsNoTrim(max, b.buffer);
    }
  }

  lemma ShortNeedsNoTrim(max: nat, buf: seq<byte>)
    requires |buf| < FLV_HEADER && max >= MIN_ENTRY
    ensures Tags(buf) == [] && Rest(buf) == buf && Trim(max, 0, buf) == buf
  {
  }

  /** Over any cutting, the tags handed to deduplication are those of the whole stream, the bytes left over are
      what follows them, and the trim never drops a byte. */
  lemma {:induction false} HandedIsTagsOfStream(hash: Tag -> nat, max: nat, st: State, cs: seq<seq<byte>>)
    requires max >= MIN_ENTRY && cs != []
    requires var s := st.buffer + Concat(cs); Accepts(st, s) && NeverStuck(TagStream(st, s), max)
    ensures var s := st.buffer + Concat(cs);
      && AllHanded(hash, max, st, cs) == Tags(TagStream(st, s))
      && !Drops(hash, max, st, cs)
      && Feed(hash, max, st, cs).buffer == Rest(TagStream(st, s))
    decreases |cs|
  {
    var next, more := Next(hash, max, st, cs[0]), Concat(cs[1..]);
    Associate(st.buffer, cs[0], more);
    CallKeepsStream(hash, max, st, cs[0], more);
    if |cs| > 1 {
      HandedIsTagsOfStream(hash, max, next, cs[1..]);
    } else {
      assert cs[1..] == [] && next.buffer + more == next.buffer;
      NothingLeft(hash, max, st, cs[0]);
    }
  }

  /** What a call that does not trim leaves in the buffer holds no complete tag. */
  lemma NothingLeft(hash: Tag -> nat, max: nat, st: State, c: seq<byte>)
    requires !Refused(st, c)
    requires var next := Next(hash, max, st, c); next.buffer == Rest(Begin(st, c).buffer)
    ensures var next := Next(hash, max, st, c); var s := TagStream(next, next.buffer);
      Tags(s) == [] && Rest(s) == next.buffer
  {
  }

  /** a is the end of b. */
  predicate IsTail(a: seq<byte>, b: seq<byte>) {
    |a| <= |b| && a == b[|b| - |a|..]
  }

  lemma TailOfTail(a: seq<byte>, b: seq<byte>, c: seq<byte>)
    requires IsTail(a, b) && IsTail(b, c)
    ensures IsTail(a, c)
  {
  }

  lemma TrimIsTail(max: nat, parsed: nat, buf: seq<byte>)
    ensures IsTail(Trim(max, parsed, buf), buf)
    ensures Trim(max, parsed, buf) != buf ==> |Trim(max, parsed, buf)| == max
  {
  }

  lemma BeginIsTail(st: State, c: seq<byte>)
    ensures IsTail(Begin(st, c).buffer, st.buffer + c)
  {
  }

  /** Whatever the trim does, the buffer holds the end of what was given; if bytes were dropped, the last `max` ones. */
  lemma BufferIsTail(hash: Tag -> nat, max: nat, st: State, c: seq<byte>)
    requires !Refused(st, c)
    ensures var next := Next(hash, max, st, c).buffer;
      IsTail(next, st.buffer + c) && (next != Rest(Begin(st, c).buffer) ==> |next| == max)
  {
    var b := Begin(st, c).buffer;
    NextFields(hash, max, st, c);
    BeginIsTail(st, c);
    RestIsTail(b);
    TrimIsTail(max, |Tags(b)|, Rest(b));
    hide Tags, Rest, IsTail, Trim, Begin, Next, Refused;
    TailOfTail(Rest(b), b, st.buffer + c);
    TailOfTail(Trim(max, |Tags(b)|, Rest(b)), Rest(b), st.buffer + c);
  }

  lemma {:induction false} RestIsTail(buf: seq<byte>)
    ensures IsTail(Rest(buf), buf)
    decreases |buf|
  {
    if Complete(buf) {
      RestIsTail(Tail(buf));
    }
  }

  // ---- Output ----

  /** Distinct signatures. */
  ghost predicate AllDifferent(hash: Tag -> nat, ts: seq<Tag>) {
    forall i, j :: 0 <= i < j < |ts| ==> hash(ts[i]) != hash(ts[j])
  }

  ghost predicate Unseen(hash: Tag -> nat, c: Cache, ts: seq<Tag>) {
    forall i :: 0 <= i < |ts| ==> hash(ts[i]) !in c.sigs
  }

  /** d holds no signature besides those of c and of ts. */
  ghost predicate OnlyAdds(hash: Tag -> nat, c: Cache, d: Cache, ts: seq<Tag>) {
    forall h :: h in d.sigs && h !in c.sigs ==> exists i :: 0 <= i < |ts| && h == hash(ts[i])
  }

  lemma {:induction false} DifferentAreKept(hash: Tag -> nat, c: Cache, ts: seq<Tag>)
    requires AllDifferent(hash, ts) && Unseen(hash, c, ts)
    ensures Kept(hash, c, ts) == ts
    ensures OnlyAdds(hash, c, CacheAfter(hash, c, ts), ts)
    decreases |ts|
  {
    if ts != [] {
      var d := Offer(c, hash(ts[0]), ts[0]);
      assert forall h :: h in d.sigs && h !in c.sigs ==> h == hash(ts[0]);
      DifferentAreKept(hash, d, ts[1..]);
      forall h | h in CacheAfter(hash, c, ts).sigs && h !in c.sigs
        ensures exists i :: 0 <= i < |ts| && h == hash(ts[i])
      {
        if h != hash(ts[0]) {
          var i :| 0 <= i < |ts[1..]| && h == hash(ts[1..][i]);
          assert h == hash(ts[i + 1]);
        }
      }
    }
  }

  lemma CallKeepsUnseen(hash: Tag -> nat, max: nat, st: State, c: seq<byte>, more: seq<Tag>)
    requires AllDifferent(hash, Handed(st, c) + more) && Unseen(hash, st.cache, Handed(st, c) + more)
    ensures Output(hash, st, c) == Print(Repair(st.store, Handed(st, c)))
    ensures var next := Next(hash, max, st, c);
      next.store == After(st.store, Handed(st, c)) && AllDifferent(hash, more) && Unseen(hash, next.cache, more)
  {
    var ts, next := Handed(st, c), Next(hash, max, st, c);
    var all := ts + more;
    assert forall i :: 0 <= i < |ts| ==> all[i] == ts[i];
    assert forall i :: 0 <= i < |more| ==> all[|ts| + i] == more[i];
    DifferentAreKept(hash, st.cache, ts);
    if !Refused(st, c) {
      NextFields(hash, max, st, c);
    }
  }

  /** With distinct signatures the concatenated output is the repair of all handed tags, printed. */
  lemma {:induction false} OutputIsRepair(hash: Tag -> nat, max: nat, st: State, cs: seq<seq<byte>>)
    requires var ts := AllHanded(hash, max, st, cs); AllDifferent(hash, ts) && Unseen(hash, st.cache, ts)
    ensures AllOutput(hash, max, st, cs) == Print(Repair(st.store, AllHanded(hash, max, st, cs)))
    decreases |cs|
  {
    if cs != [] {
      var next := Next(hash, max, st, cs[0]);
      var ts, more := Handed(st, cs[0]), AllHanded(hash, max, next, cs[1..]);
      CallKeepsUnseen(hash, max, st, cs[0], more);
      OutputIsRepair(hash, max, next, cs[1..]);
      RepairAppend(st.store, ts, more);
      PrintAppend(Repair(st.store, ts), Repair(next.store, more));
    }
  }

  /** Independence from chunking: two cuttings of one stream hand over the same tags and leave the same bytes;
      if no two signatures are equal, the concatenated outputs are the same bytes too. */
  lemma ChunkingIndependence(hash: Tag -> nat, max: nat, st: State, cs: seq<seq<byte>>, ds: seq<seq<byte>>)
    requires max >= MIN_ENTRY && cs != [] && ds != [] && Concat(cs) == Concat(ds)
    requires var s := st.buffer + Concat(cs); Accepts(st, s) && ClaimsBounded(TagStream(st, s))
    ensures AllHanded(hash, max, st, cs) == AllHanded(hash, max, st, ds)
    ensures !Drops(hash, max, st, cs) && Feed(hash, max, st, cs).buffer == Feed(hash, max, st, ds).buffer
    ensures var ts := AllHanded(hash, max, st, cs);
      AllDifferent(hash, ts) && Unseen(hash, st.cache, ts) ==>
        AllOutput(hash, max, st, cs) == AllOutput(hash, max, st, ds) == Print(Repair(st.store, ts))
  {
    BoundedIsNeverStuck(TagStream(st, st.buffer + Concat(cs)), max);
    HandedIsTagsOfStream(hash, max, st, cs);
    HandedIsTagsOfStream(hash, max, st, ds);
    var ts := AllHanded(hash, max, st, cs);
    if AllDifferent(hash, ts) && Unseen(hash, st.cache, ts) {
      OutputIsRepair(hash, max, st, cs);
      OutputIsRepair(hash, max, st, ds);
    }
  }

  // ---- When the trim can bite ----

  lemma CutInTwo(s: seq<byte>, m: nat)
    requires m <= |s|
    ensures Concat([s[..m], s[m..]]) == s
  {
    assert [s[..m], s[m..]][1..] == [s[m..]];
    assert Concat([s[m..]]) == s[m..] + Concat([s[m..]][1..]) == s[m..];
    assert s[..m] + s[m..] == s;
  }

  lemma StuckAtOnce(hash: Tag -> nat, max: nat, st: State, s: seq<byte>)
    requires st.headerOk && st.buffer == [] && |s| >= MIN_ENTRY && Claim(s) > MAX_TAG_DATA && Waiting(s) > max
    ensures Drops(hash, max, st, [s[..Waiting(s)], s[Waiting(s)..]])
  {
    var first := s[..Waiting(s)];
    StuckTag(s);
    assert Begin(st, first).buffer == first;
    NextFields(hash, max, st, first);
    assert |Next(hash, max, st, first).buffer| == max < |first|;
    var cs := [first, s[Waiting(s)..]];
    assert cs[0] == first;
  }

  /** A cutting of a stuck stream that loses bytes: whole tags, then as much of the stuck tag as can wait. */
  lemma {:induction false} StuckIsCuttable(hash: Tag -> nat, max: nat, st: State, s: seq<byte>)
    returns (cs: seq<seq<byte>>)
    requires st.headerOk && st.buffer == [] && !NeverStuck(s, max)
    ensures Concat(cs) == s && Drops(hash, max, st, cs)
    decreases |s|
  {
    if Claim(s) > MAX_TAG_DATA && Waiting(s) > max {
      StuckAtOnce(hash, max, st, s);
      CutInTwo(s, Waiting(s));
      return [s[..Waiting(s)], s[Waiting(s)..]];
    }
    var first, rest := s[..MIN_ENTRY + Claim(s)], Tail(s);
    TagThenRest(hash, max, st, s);
    var ds := StuckIsCuttable(hash, max, Next(hash, max, st, first), rest);
    cs := [first] + ds;
    assert cs[0] == first && cs[1..] == ds;
  }

  /** A whole first tag is consumed by a call of its own. */
  lemma TagThenRest(hash: Tag -> nat, max: nat, st: State, s: seq<byte>)
    requires st.headerOk && st.buffer == [] && Complete(s)
    ensures var first := s[..MIN_ENTRY + Claim(s)];
      && s == first + Tail(s)
      && Next(hash, max, st, first).headerOk && Next(hash, max, st, first).buffer == []
  {
    var first := s[..MIN_ENTRY + Claim(s)];
    WholeTag(s);
    assert Begin(st, first).buffer == first;
    NextFields(hash, max, st, first);
  }

  /** Cut right behind its first tag, a stream leaves nothing in the buffer. */
  lemma WholeTag(s: seq<byte>)
    requires Complete(s)
    ensures var first := s[..MIN_ENTRY + Claim(s)]; Complete(first) && Rest(first) == []
  {
    var first := s[..MIN_ENTRY + Claim(s)];
    assert first[PREV_TAG_SIZE + 1..PREV_TAG_SIZE + 4] == s[PREV_TAG_SIZE + 1..PREV_TAG_SIZE + 4];
    assert Tail(first) == [];
  }

  /** Cut where its oversized first tag is still incomplete, a stream yields no tag and does not wait for one. */
  lemma StuckTag(s: seq<byte>)
    requires |s| >= MIN_ENTRY && Claim(s) > MAX_TAG_DATA
    ensures var first := s[..Waiting(s)]; Tags(first) == [] && Rest(first) == first && !WaitingForPartialTag(first)
  {
    var first := s[..Waiting(s)];
    assert first[PREV_TAG_SIZE + 1..PREV_TAG_SIZE + 4] == s[PREV_TAG_SIZE + 1..PREV_TAG_SIZE + 4];
  }

  /** The exact condition: every cutting of s keeps every byte if and only if no tag of s can get stuck. */
  lemma KeepsAllBytesExactly(hash: Tag -> nat, max: nat, st: State, s: seq<byte>)
    requires st.headerOk && st.buffer == [] && max >= MIN_ENTRY
    ensures NeverStuck(s, max) <==> forall cs :: Concat(cs) == s ==> !Drops(hash, max, st, cs)
  {
    if NeverStuck(s, max) {
      forall cs | Concat(cs) == s
        ensures !Drops(hash, max, st, cs)
      {
        if cs != [] {
          assert st.buffer + Concat(cs) == s;
          HandedIsTagsOfStream(hash, max, st, cs);
        }
      }
    } else {
      var cs := StuckIsCuttable(hash, max, st, s);
    }
  }
}
