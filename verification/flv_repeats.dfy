/** What the dedup drops: only repeats, within the file that is being written, and how soon it forgets. */
module FlvRepeats {
  import opened Bytes
  import opened Collections
  import opened FlvTag
  import opened FlvTimestamp
  import opened FlvDedup
  import opened FlvFixer
  import opened FlvChunking
  import opened FlvDetector
  import opened FlvDetection
  import opened FlvRecording

  // ---- Only repeats are dropped ----

  /** Tag u makes t a repeat: equal signature, type and size, at most 5 seconds apart by the int32 distance. */
  predicate Repeats(hash: Tag -> nat, t: Tag, u: Tag) {
    hash(u) == hash(t) && u.kind == t.kind && |u.data| == |t.data| && Distance(t.timestamp, u.timestamp) <= 5000
  }

  /** Every entry of the cache is that of one of these tags. */
  ghost predicate CameFrom(hash: Tag -> nat, c: Cache, kept: seq<Tag>) {
    c.window == 5000 && forall h :: h in c.sigs ==> exists u :: u in kept && hash(u) == h && c.sigs[h] == SignatureOf(u)
  }

  lemma CameFromMore(hash: Tag -> nat, c: Cache, kept: seq<Tag>, more: seq<Tag>)
    requires CameFrom(hash, c, kept)
    ensures CameFrom(hash, c, kept + more)
  {
    forall h | h in c.sigs
      ensures exists u :: u in kept + more && hash(u) == h && c.sigs[h] == SignatureOf(u)
    {
      var u :| u in kept && hash(u) == h && c.sigs[h] == SignatureOf(u);
      assert u in kept + more;
    }
  }

  lemma OfferCameFrom(hash: Tag -> nat, c: Cache, kept: seq<Tag>, t: Tag)
    requires CameFrom(hash, c, kept)
    ensures Hit(c, hash(t), t) ==>
      CameFrom(hash, Offer(c, hash(t), t), kept) && exists u :: u in kept && Repeats(hash, t, u)
    ensures !Hit(c, hash(t), t) ==> CameFrom(hash, Offer(c, hash(t), t), kept + [t])
  {
    if Hit(c, hash(t), t) {
      var u :| u in kept && hash(u) == hash(t) && c.sigs[hash(t)] == SignatureOf(u);
      assert Repeats(hash, t, u);
    } else {
      CameFromMore(hash, c, kept, [t]);
      var d := Offer(c, hash(t), t);
      forall h | h in d.sigs
        ensures exists u :: u in kept + [t] && hash(u) == h && d.sigs[h] == SignatureOf(u)
      {
        if h == hash(t) {
          assert t in kept + [t];
        } else {
          assert h in c.sigs && d.sigs[h] == c.sigs[h];
        }
      }
    }
  }

  /** Of these tags, kept is what is left when repeats of what was kept before, of `kept` or of these tags, are dropped,
      and nothing else. */
  ghost predicate DropsRepeats(hash: Tag -> nat, before: seq<Tag>, ts: seq<Tag>, kept: seq<Tag>)
    decreases |ts|
  {
    if ts == [] then kept == []
    else
      || (kept != [] && kept[0] == ts[0] && DropsRepeats(hash, before + [ts[0]], ts[1..], kept[1..]))
      || ((exists u :: u in before && Repeats(hash, ts[0], u)) && DropsRepeats(hash, before, ts[1..], kept))
  }

  lemma {:induction false} KeptDropsRepeats(hash: Tag -> nat, c: Cache, before: seq<Tag>, ts: seq<Tag>)
    requires CameFrom(hash, c, before)
    ensures DropsRepeats(hash, before, ts, Kept(hash, c, ts))
    ensures CameFrom(hash, CacheAfter(hash, c, ts), before + Kept(hash, c, ts))
    decreases |ts|
  {
    hide CameFrom, Hit, Offer, Repeats;
    if ts == [] {
      assert before + [] == before;
    } else {
      var d := Offer(c, hash(ts[0]), ts[0]);
      OfferCameFrom(hash, c, before, ts[0]);
      if Hit(c, hash(ts[0]), ts[0]) {
        KeptDropsRepeats(hash, d, before, ts[1..]);
        assert Kept(hash, c, ts) == Kept(hash, d, ts[1..]);
      } else {
        KeptDropsRepeats(hash, d, before + [ts[0]], ts[1..]);
        var rest := Kept(hash, d, ts[1..]);
        assert ([ts[0]] + rest)[1..] == rest && Kept(hash, c, ts) == [ts[0]] + rest;
        Associate(before, [ts[0]], rest);
      }
    }
  }

  /** Cleaning only forgets. */
  lemma CleanUpForgets(st: State, parsed: nat)
    ensures var c := CleanUp(st, parsed).cache;
      c.window == st.cache.window && forall h :: h in c.sigs ==> h in st.cache.sigs && c.sigs[h] == st.cache.sigs[h]
  {
  }

  lemma NextCameFrom(hash: Tag -> nat, max: nat, st: State, c: seq<byte>, before: seq<Tag>)
    requires CameFrom(hash, st.cache, before) && !Refused(st, c)
    ensures DropsRepeats(hash, before, Handed(st, c), Kept(hash, st.cache, Handed(st, c)))
    ensures CameFrom(hash, Next(hash, max, st, c).cache, before + Kept(hash, st.cache, Handed(st, c)))
  {
    KeptDropsRepeats(hash, st.cache, before, Handed(st, c));
    var b := Begin(st, c);
    var d, parsed := Drain(hash, b), |Tags(b.buffer)|;
    var e := d.(buffer := Trim(max, parsed, d.buffer));
    CleanUpForgets(e, parsed);
    hide Kept, CacheAfter, Tags, Trim, CleanUp, Begin, Refused;
  }

  /** While a file is written its cache knows nothing but what the file was given. */
  ghost predicate KnowsItsFile(hash: Tag -> nat, r: Recorder, h: History) {
    CameFrom(hash, r.fixer.cache, h.current.kept)
  }

  lemma ReceiveDropsRepeats(hash: Tag -> nat, max: nat, r: Recorder, h: History, chunk: seq<byte>)
    requires KnowsItsFile(hash, r, h) && Plain(hash, r, chunk) && r.detector.pending == []
    ensures !r.aborted && chunk != [] && !Refused(r.fixer, chunk) ==>
      DropsRepeats(hash, h.current.kept, Given(r, chunk), More(hash, r, chunk))
    ensures KnowsItsFile(hash, Receive(hash, max, r, chunk), Recorded(hash, h, r, chunk))
    ensures Receive(hash, max, r, chunk).detector.pending == []
  {
    if !r.aborted && chunk != [] && !Refused(r.fixer, chunk) {
      NextCameFrom(hash, max, r.fixer, chunk, h.current.kept);
      var us := Repair(r.fixer.store, More(hash, r, chunk));
      RepairKeepsContent(r.fixer.store, More(hash, r, chunk));
      if us != [] {
        DetectorOnOutput(r.detector.memory, us);
      } else {
        assert h.current.kept + [] == h.current.kept;
      }
    }
    hide Next, Kept, Repair, Print, FirstChange, MemoryAfter, Detected, Reports, ReportOf, DropsRepeats, Handed;
  }

  /** In a recording, whatever rotations there are, each chunk drops only repeats of what was kept since the file that
      is being written was begun. */
  ghost predicate EveryChunkDropsRepeats(hash: Tag -> nat, max: nat, h: History, r: Recorder, chunks: seq<seq<byte>>)
    decreases |chunks|
  {
    chunks == [] || (
      && (!r.aborted && chunks[0] != [] && !Refused(r.fixer, chunks[0]) ==>
           DropsRepeats(hash, h.current.kept, Given(r, chunks[0]), More(hash, r, chunks[0])))
      && EveryChunkDropsRepeats(hash, max, Recorded(hash, h, r, chunks[0]), Receive(hash, max, r, chunks[0]),
                                chunks[1..]))
  }

  lemma {:induction false} RunDropsRepeats(hash: Tag -> nat, max: nat, h: History, r: Recorder, chunks: seq<seq<byte>>)
    requires KnowsItsFile(hash, r, h) && PlainTags(hash, max, r, chunks) && r.detector.pending == []
    ensures EveryChunkDropsRepeats(hash, max, h, r, chunks)
    decreases |chunks|
  {
    hide KnowsItsFile, Receive, Recorded, DropsRepeats, Plain, More, Given, Refused;
    if chunks != [] {
      ReceiveDropsRepeats(hash, max, r, h, chunks[0]);
      RunDropsRepeats(hash, max, Recorded(hash, h, r, chunks[0]), Receive(hash, max, r, chunks[0]), chunks[1..]);
    }
  }

  lemma OnlyRepeatsAreDropped(hash: Tag -> nat, max: nat, chunks: seq<seq<byte>>)
    requires PlainTags(hash, max, Started(), chunks)
    ensures EveryChunkDropsRepeats(hash, max, NO_HISTORY, Started(), chunks)
  {
    RunDropsRepeats(hash, max, NO_HISTORY, Started(), chunks);
  }

  // ---- And how soon it forgets ----

  /** When a cleaning is due, since the clock moved on by more than 500 ms, 128 tags were parsed or four fifths of the
      cache are full, no entry is left that is more than 10 seconds away. */
  lemma CleanUpExpires(st: State, parsed: nat)
    requires Ok(st.cache) && st.cache.window == 5000 && st.cache.maxSize == 1000 && st.store.last > 0
    requires Wrap32(st.store.last - st.lastClean) > 500 || parsed >= 128 || |st.cache.sigs| >= 800
    ensures var c := CleanUp(st, parsed).cache;
      forall h :: h in c.sigs ==> Distance(st.store.last, c.sigs[h].timestamp) <= 10_000
    ensures CleanUp(st, parsed).lastClean == st.store.last
  {
    hide Wrap32, Distance;
  }

  /** The entries within 10 seconds of now. */
  function Near(c: Cache, now: int32): set<nat> {
    set h | h in c.sigs && Distance(now, c.sigs[h].timestamp) <= 10_000
  }

  lemma CleanOldKeeps(c: Cache, now: int32)
    requires c.window == 5000
    ensures Near(c, now) <= CleanOld(c, now).sigs.Keys
  {
    hide Distance;
  }

  lemma EvictDrops(c: Cache, count: nat)
    ensures |c.sigs.Keys - Evict(c, count).sigs.Keys| <= count
  {
    var oldest := c.order[..if count > |c.order| then |c.order| else count];
    MembersSize(oldest);
    assert c.sigs.Keys - Evict(c, count).sigs.Keys <= Members(oldest);
    SubsetSize(c.sigs.Keys - Evict(c, count).sigs.Keys, Members(oldest));
  }

  lemma CleanHighCases(c: Cache, now: int32)
    requires c.maxSize == 1000
    ensures var d, e := CleanOld(c, now), CleanHighWater(c, now);
      if |c.sigs| < 800 then e == c else if |d.sigs| < 800 then e == d else e == Evict(d, 100)
  {
    hide CleanOld, Evict;
  }

  lemma FewerAreMissing(near: set<nat>, was: set<nat>, left: set<nat>, count: nat)
    requires near <= was && |was - left| <= count
    ensures |near - left| <= count
  {
    SubsetSize(near - left, was - left);
  }

  lemma CleanHighKeeps(c: Cache, now: int32)
    requires c.window == 5000 && c.maxSize == 1000
    ensures |Near(c, now) - CleanHighWater(c, now).sigs.Keys| <= 100
  {
    hide CleanOld, CleanHighWater, Near, Evict;
    var d, e := CleanOld(c, now), CleanHighWater(c, now);
    CleanHighCases(c, now);
    if |c.sigs| < 800 {
      NearIsCached(c, now);
      FewerAreMissing(Near(c, now), c.sigs.Keys, c.sigs.Keys, 100);
    } else {
      CleanOldKeeps(c, now);
      if |d.sigs| >= 800 {
        EvictDrops(d, 100);
      }
      FewerAreMissing(Near(c, now), d.sigs.Keys, e.sigs.Keys, 100);
    }
  }

  lemma NearIsCached(c: Cache, now: int32)
    ensures Near(c, now) <= c.sigs.Keys
  {
  }

  /** Below four fifths nothing within 10 seconds is forgotten; above, at most 100 such entries are. */
  lemma CleanUpKeeps(st: State, parsed: nat)
    requires st.cache.window == 5000 && st.cache.maxSize == 1000
    ensures var near, c := Near(st.cache, st.store.last), CleanUp(st, parsed).cache;
      (|st.cache.sigs| < 800 ==> near <= c.sigs.Keys) && |near - c.sigs.Keys| <= 100
  {
    hide CleanOld, CleanHighWater, Near, Wrap32;
    var near, c := Near(st.cache, st.store.last), CleanUp(st, parsed).cache;
    NearIsCached(st.cache, st.store.last);
    CleanOldKeeps(st.cache, st.store.last);
    CleanHighKeeps(st.cache, st.store.last);
    assert near <= c.sigs.Keys ==> near - c.sigs.Keys == {};
  }

  lemma {:induction false} MembersSize(s: seq<nat>)
    ensures |Members(s)| <= |s|
  {
    if s != [] {
      MembersSize(s[1..]);
      assert Members(s) == {s[0]} + Members(s[1..]);
    }
  }
}
