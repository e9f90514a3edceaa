/** The real-time fixer: bytes in, repaired and deduplicated tags out, whatever the chunks the stream arrives in. */
module FlvFixer {
  import opened Bytes
  import opened Collections
  import opened FlvTag
  import opened FlvTimestamp
  import opened FlvDedup

  datatype State = State(
    buffer: seq<byte>,
    headerOk: bool,
    rotation: bool,
    store: Store,
    cache: Cache,
    dups: nat,
    lastClean: int32)

  // ---- One call of Fix, as a function of the state ----

  /** The tags that survive deduplication; `hash` is the signature function. */
  function Kept(hash: Tag -> nat, c: Cache, ts: seq<Tag>): seq<Tag>
    decreases |ts|
  {
    if ts == [] then []
    else (if Hit(c, hash(ts[0]), ts[0]) then [] else [ts[0]]) + Kept(hash, Offer(c, hash(ts[0]), ts[0]), ts[1..])
  }

  function CacheAfter(hash: Tag -> nat, c: Cache, ts: seq<Tag>): Cache
    decreases |ts|
  {
    if ts == [] then c else CacheAfter(hash, Offer(c, hash(ts[0]), ts[0]), ts[1..])
  }

  predicate IsMagic(buf: seq<byte>)
    requires |buf| >= 3
  {
    buf[0] == 'F' as int && buf[1] == 'L' as int && buf[2] == 'V' as int
  }

  /** The first nine bytes are there, are not an FLV header, and this is not a rotation segment. */
  predicate Refused(st: State, input: seq<byte>) {
    var buf := st.buffer + input;
    !st.headerOk && |buf| >= FLV_HEADER && !IsMagic(buf) && !st.rotation
  }

  /** The state once the input is appended and the file header, if due, is consumed. */
  function Begin(st: State, input: seq<byte>): State {
    var buf := st.buffer + input;
    if st.headerOk || |buf| < FLV_HEADER || Refused(st, input) then st.(buffer := buf)
    else if IsMagic(buf) then st.(buffer := buf[FLV_HEADER..], headerOk := true)
    else st.(buffer := buf, headerOk := true)
  }

  /** A plausible tag has begun and its body has not fully arrived. */
  predicate WaitingForPartialTag(buf: seq<byte>) {
    |buf| >= MIN_ENTRY && Claim(buf) <= MAX_TAG_DATA && |buf| < MIN_ENTRY + Claim(buf)
  }

  function Trim(maxBuffer: nat, parsed: nat, buf: seq<byte>): (r: seq<byte>)
    ensures |r| <= |buf|
  {
    if parsed == 0 && !WaitingForPartialTag(buf) && |buf| > maxBuffer then buf[|buf| - maxBuffer..] else buf
  }

  /** The state after the parse loop has consumed every complete tag. */
  function Drain(hash: Tag -> nat, st: State): State {
    var ts := Tags(st.buffer);
    var kept := Kept(hash, st.cache, ts);
    KeptSize(hash, st.cache, ts);
    st.(buffer := Rest(st.buffer),
        store := After(st.store, kept),
        cache := CacheAfter(hash, st.cache, ts),
        dups := st.dups + |ts| - |kept|)
  }

  function CleanUp(st: State, parsed: nat): State {
    var last := st.store.last;
    if last <= 0 then st
    else if |st.cache.sigs| >= HighWater(st.cache) then st.(cache := CleanHighWater(st.cache, last), lastClean := last)
    else if Wrap32(last - st.lastClean) > 500 || parsed >= 128 then
      st.(cache := CleanOld(st.cache, last), lastClean := last)
    else st
  }

  /** The tags one call hands to deduplication. */
  function Handed(st: State, input: seq<byte>): seq<Tag> {
    if Refused(st, input) then [] else Tags(Begin(st, input).buffer)
  }

  function Next(hash: Tag -> nat, maxBuffer: nat, st: State, input: seq<byte>): State {
    var b := Begin(st, input);
    if Refused(st, input) then b
    else
      var parsed := |Tags(b.buffer)|;
      var d := Drain(hash, b);
      CleanUp(d.(buffer := Trim(maxBuffer, parsed, d.buffer)), parsed)
  }

  /** The bytes one call returns. */
  function Output(hash: Tag -> nat, st: State, input: seq<byte>): seq<byte> {
    Print(Repair(st.store, Kept(hash, st.cache, Handed(st, input))))
  }

  lemma {:induction false} KeptSize(hash: Tag -> nat, c: Cache, ts: seq<Tag>)
    ensures |Kept(hash, c, ts)| <= |ts|
    decreases |ts|
  {
    if ts != [] {
      KeptSize(hash, Offer(c, hash(ts[0]), ts[0]), ts[1..]);
    }
  }

  lemma {:induction false} KeptAppend(hash: Tag -> nat, c: Cache, a: seq<Tag>, b: seq<Tag>)
    ensures Kept(hash, c, a + b) == Kept(hash, c, a) + Kept(hash, CacheAfter(hash, c, a), b)
    ensures CacheAfter(hash, c, a + b) == CacheAfter(hash, CacheAfter(hash, c, a), b)
    decreases |a|
  {
    hide Kept, CacheAfter, Offer, Hit;
    if a == [] {
      assert a + b == b;
      KeptNone(hash, c);
    } else {
      var t, d := a[0], Offer(c, hash(a[0]), a[0]);
      KeptAppend(hash, d, a[1..], b);
      assert a + b == [t] + (a[1..] + b);
      KeptCons(hash, c, t, a[1..] + b);
      KeptCons(hash, c, t, a[1..]);
      assert [t] + a[1..] == a;
      Associate(if Hit(c, hash(t), t) then [] else [t], Kept(hash, d, a[1..]), Kept(hash, CacheAfter(hash, c, a), b));
    }
  }

  lemma KeptNone(hash: Tag -> nat, c: Cache)
    ensures Kept(hash, c, []) == [] && CacheAfter(hash, c, []) == c
  {
  }

  lemma KeptCons(hash: Tag -> nat, c: Cache, t: Tag, ts: seq<Tag>)
    ensures var d := Offer(c, hash(t), t);
      && Kept(hash, c, [t] + ts) == (if Hit(c, hash(t), t) then [] else [t]) + Kept(hash, d, ts)
      && CacheAfter(hash, c, [t] + ts) == CacheAfter(hash, d, ts)
  {
    assert ([t] + ts)[1..] == ts;
  }

  /** The state after one complete tag is consumed. */
  function Consumed(hash: Tag -> nat, st: State): State
    requires Complete(st.buffer)
  {
    var tag := Head(st.buffer);
    var on := st.(buffer := Tail(st.buffer), cache := Offer(st.cache, hash(tag), tag));
    if Hit(st.cache, hash(tag), tag) then on.(dups := st.dups + 1) else on.(store := Advance(st.store, tag))
  }

  function Written(hash: Tag -> nat, st: State): seq<byte>
    requires Complete(st.buffer)
  {
    var tag := Head(st.buffer);
    if Hit(st.cache, hash(tag), tag) then [] else TagBytes(RepairTag(st.store, tag))
  }

  // ---- The mutable fixer ----

  class RealtimeFixer {
    const hash: Tag -> nat
    const maxBufferSize: nat
    const tsStore: TimestampStore
    const dedupCache: DedupCache
    var buffer: seq<byte>
    var sourceHeaderOk: bool
    var isRotationSegment: bool
    var dupCount: nat
    var lastDedupClean: int32

    constructor (hash: Tag -> nat, maxBufferSize: nat)
      requires maxBufferSize > 0
      ensures Valid() && fresh(tsStore) && fresh(dedupCache)
      ensures this.hash == hash && this.maxBufferSize == maxBufferSize
      ensures View() == State([], false, false, FRESH, Empty(MAX_CACHE, WINDOW_MS), 0, 0)
    {
      this.hash, this.maxBufferSize := hash, maxBufferSize;
      tsStore := new TimestampStore();
      dedupCache := new DedupCache(MAX_CACHE, WINDOW_MS);
      buffer, sourceHeaderOk, isRotationSegment, dupCount, lastDedupClean := [], false, false, 0, 0;
    }

    function View(): State
      reads this, tsStore, dedupCache
    {
      State(buffer, sourceHeaderOk, isRotationSegment, tsStore.View(), dedupCache.View(), dupCount, lastDedupClean)
    }

    ghost predicate Valid()
      reads this, dedupCache
    {
      maxBufferSize > 0 && dedupCache.Valid()
    }

    /** ok is false when the stream is not FLV. */
    method Fix(input: seq<byte>) returns (output: seq<byte>, ok: bool)
      requires Valid()
      modifies this, tsStore, dedupCache
      ensures Valid()
      ensures ok == !Refused(old(View()), input)
      ensures View() == Next(hash, maxBufferSize, old(View()), input)
      ensures output == Output(hash, old(View()), input)
    {
      ok := ConsumeHeader(input);
      if !ok {
        return [], false;
      }
      var parsedTags;
      output, parsedTags := ParseCompleteTags();
      TrimIfStuck(parsedTags);
      CleanDedup(parsedTags);
    }

    /** Appends the input and consumes the FLV file header once. */
    method ConsumeHeader(input: seq<byte>) returns (ok: bool)
      requires Valid()
      modifies this
      ensures Valid()
      ensures ok == !Refused(old(View()), input)
      ensures View() == Begin(old(View()), input)
    {
      buffer := buffer + input;
      if !sourceHeaderOk && |buffer| >= FLV_HEADER {
        if IsMagic(buffer) {
          buffer := buffer[FLV_HEADER..];
        } else if isRotationSegment {
        } else {
          return false;
        }
        sourceHeaderOk := true;
      }
      return true;
    }

    method TrimIfStuck(parsedTags: nat)
      requires Valid()
      modifies this`buffer
      ensures Valid()
      ensures View() == old(View()).(buffer := Trim(maxBufferSize, parsedTags, old(buffer)))
    {
      if parsedTags == 0 && !WaitingForPartialTag(buffer) && |buffer| > maxBufferSize {
        TrimParseBufferToTail(maxBufferSize);
      }
    }

    /** The parse loop of Fix. */
    method ParseCompleteTags() returns (output: seq<byte>, parsedTags: nat)
      requires Valid()
      modifies this, tsStore, dedupCache
      ensures Valid()
      ensures View() == Drain(hash, old(View()))
      ensures parsedTags == |Tags(old(buffer))|
      ensures output == Print(Repair(old(tsStore.View()), Kept(hash, old(dedupCache.View()), Tags(old(buffer)))))
    {
      hide Parsing, Written, Drain, Tags, Head;
      ghost var b := View();
      ghost var done: seq<Tag> := [];
      output, parsedTags := [], 0;
      ParsingStart(hash, b);
      while true
        invariant Valid()
        invariant parsedTags == |done|
        invariant Parsing(hash, b, done, View(), output)
        decreases |buffer|
      {
        if |buffer| < MIN_ENTRY {
          break;
        }
        var dataSize := Claim(buffer);
        if |buffer| < MIN_ENTRY + dataSize {
          break;
        }
        ParsingStep(hash, b, done, View(), output);
        done := done + [Head(buffer)];
        var fixed := ConsumeTag();
        parsedTags := parsedTags + 1;
        output := output + fixed;
      }
      ParsingDone(hash, b, done, View(), output);
      ParsedOutput(hash, b, done, View(), output);
    }

    /** One turn of the parse loop: a complete tag leaves the buffer and, unless it is a duplicate, is repaired
        and written. */
    method ConsumeTag() returns (written: seq<byte>)
      requires Valid() && Complete(buffer)
      modifies this, tsStore, dedupCache
      ensures Valid()
      ensures View() == Consumed(hash, old(View()))
      ensures written == Written(hash, old(View()))
    {
      var tag := Head(buffer);
      buffer := Tail(buffer);
      var dup := dedupCache.IsDuplicate(hash(tag), tag);
      if dup {
        dupCount := dupCount + 1;
        return [];
      }
      var fixed := tsStore.FixTimestamp(tag);
      return TagBytes(fixed);
    }

    /** Fix ends by cleaning the dedup cache, by time, tag count or fill level. */
    method CleanDedup(parsedTags: nat)
      requires Valid()
      modifies this`lastDedupClean, dedupCache
      ensures Valid()
      ensures View() == CleanUp(old(View()), parsedTags)
    {
      hide CleanHighWater, CleanOld;
      var last := tsStore.lastOriginal;
      if last > 0 {
        var byTime := Wrap32(last - lastDedupClean) > 500;
        var byTagCount := parsedTags >= 128;
        var byHighWater := |dedupCache.signatures| >= dedupCache.maxSize * 4 / 5;
        if byTime || byTagCount || byHighWater {
          lastDedupClean := last;
          if byHighWater {
            dedupCache.CleanHighWaterEntries(last);
          } else {
            dedupCache.CleanOldEntries(last);
          }
        }
      }
    }

    /** Keeps only the trailing `keep` bytes of the parse buffer. */
    method TrimParseBufferToTail(keep: nat)
      modifies this`buffer
      ensures buffer == if keep == 0 || |old(buffer)| <= keep then old(buffer) else old(buffer)[|old(buffer)| - keep..]
    {
      if keep <= 0 || |buffer| <= keep {
        return;
      }
      buffer := buffer[|buffer| - keep..];
    }

    /** For a new segment: timestamps restart, and the stream goes on without a file header. */
    method ResetTimestampStore()
      requires Valid()
      modifies this, tsStore
      ensures Valid()
      ensures View() == old(View()).(store := FRESH, rotation := true, headerOk := false)
    {
      tsStore.Reset();
      isRotationSegment := true;
      sourceHeaderOk := false;
    }

    method ResetDedupCache()
      requires Valid()
      modifies dedupCache
      ensures Valid()
      ensures View() == old(View()).(cache := Empty(dedupCache.maxSize, dedupCache.windowMs))
    {
      dedupCache.Reset();
    }
  }

  /** From b, the tags `done` are consumed, the fixer is in state `cur` and `output` is written. */
  ghost predicate Parsing(hash: Tag -> nat, b: State, done: seq<Tag>, cur: State, output: seq<byte>) {
    var kept := Kept(hash, b.cache, done);
    && Tags(b.buffer) == done + Tags(cur.buffer) && Rest(b.buffer) == Rest(cur.buffer)
    && output == Print(Repair(b.store, kept))
    && cur.dups == b.dups + |done| - |kept|
    && cur == b.(buffer := cur.buffer, store := After(b.store, kept), cache := CacheAfter(hash, b.cache, done),
                 dups := cur.dups)
  }

  lemma ParsingStart(hash: Tag -> nat, b: State)
    ensures Parsing(hash, b, [], b, [])
  {
    var none: seq<Tag> := [];
    assert none + Tags(b.buffer) == Tags(b.buffer);
  }

  lemma ParsedOutput(hash: Tag -> nat, b: State, done: seq<Tag>, cur: State, output: seq<byte>)
    requires Parsing(hash, b, done, cur, output)
    ensures output == Print(Repair(b.store, Kept(hash, b.cache, done)))
  {
  }

  lemma ParsingStep(hash: Tag -> nat, b: State, done: seq<Tag>, cur: State, output: seq<byte>)
    requires Parsing(hash, b, done, cur, output) && Complete(cur.buffer)
    ensures Parsing(hash, b, done + [Head(cur.buffer)], Consumed(hash, cur), output + Written(hash, cur))
  {
    hide Kept, CacheAfter, Offer, Hit, Print, Repair, After, TagBytes, RepairTag, Advance, Head, Tail, Complete;
    var tag := Head(cur.buffer);
    TagsOfComplete(cur.buffer);
    Associate(done, [tag], Tags(Tail(cur.buffer)));
    LoopStep(hash, b, done, tag);
    assert output + [] == output;
  }

  lemma ParsingDone(hash: Tag -> nat, b: State, done: seq<Tag>, cur: State, output: seq<byte>)
    requires Parsing(hash, b, done, cur, output) && !Complete(cur.buffer)
    ensures done == Tags(b.buffer) && cur == Drain(hash, b)
  {
    assert done + [] == done;
  }

  lemma LoopStep(hash: Tag -> nat, b: State, done: seq<Tag>, tag: Tag)
    ensures var c, kept := CacheAfter(hash, b.cache, done), Kept(hash, b.cache, done);
      && CacheAfter(hash, b.cache, done + [tag]) == Offer(c, hash(tag), tag)
      && (Hit(c, hash(tag), tag) ==> Kept(hash, b.cache, done + [tag]) == kept)
      && (!Hit(c, hash(tag), tag) ==>
          && Kept(hash, b.cache, done + [tag]) == kept + [tag]
          && After(b.store, kept + [tag]) == Advance(After(b.store, kept), tag)
          && Repair(b.store, kept + [tag]) == Repair(b.store, kept) + [RepairTag(After(b.store, kept), tag)]
          && Print(Repair(b.store, kept + [tag])) ==
             Print(Repair(b.store, kept)) + TagBytes(RepairTag(After(b.store, kept), tag)))
  {
    hide Offer, Hit, TagBytes, Repaired, Advance;
    var c, kept := CacheAfter(hash, b.cache, done), Kept(hash, b.cache, done);
    KeptAppend(hash, b.cache, done, [tag]);
    assert [tag][1..] == [];
    RepairAppend(b.store, kept, [tag]);
    var r := RepairTag(After(b.store, kept), tag);
    assert Repair(After(b.store, kept), [tag]) == [r];
    PrintAppend(Repair(b.store, kept), [r]);
    assert Print([r]) == TagBytes(r) + Print([]);
  }
}
