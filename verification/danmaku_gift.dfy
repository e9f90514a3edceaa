/** The gift broadcast: a protobuf message with nested items, parsed field by field. */
module DanmakuGift {
  import opened Bytes
  import opened Collections
  import opened Protowire

  datatype Item = Item(giftID: int, giftName: seq<byte>, num: int, giftType: int, price: int, totalCoin: int,
                       coinType: seq<byte>, tid: seq<byte>, timestamp: int, action: seq<byte>)

  datatype Broadcast = Broadcast(uid: int, uname: seq<byte>, face: seq<byte>, nameColor: seq<byte>, guardLevel: int,
                                 giftList: seq<Item>, switchPresent: bool, switchOn: bool)

  const NO_ITEM := Item(0, [], 0, 0, 0, 0, [], [], 0, [])
  const NO_BROADCAST := Broadcast(0, [], [], [], 0, [], false, false)

  predicate ItemInt(num: int) {
    num in {1, 3, 4, 5, 7, 10}
  }

  predicate ItemString(num: int) {
    num in {2, 8, 9, 18}
  }

  function SetItemInt(out: Item, num: int, x: int): Item {
    if num == 1 then out.(giftID := x)
    else if num == 3 then out.(num := x)
    else if num == 4 then out.(giftType := x)
    else if num == 5 then out.(price := x)
    else if num == 7 then out.(totalCoin := x)
    else if num == 10 then out.(timestamp := x)
    else out
  }

  function SetItemString(out: Item, num: int, s: seq<byte>): Item {
    if num == 2 then out.(giftName := s)
    else if num == 8 then out.(coinType := s)
    else if num == 9 then out.(tid := s)
    else if num == 18 then out.(action := s)
    else out
  }

  /** A known field is read by its number, whatever its wire type; any other is skipped by its wire type. */
  function ApplyItemField(out: Item, s: seq<byte>, t: Tag): (r: Option<Read<Item>>)
    ensures r.Some? ==> |r.value.rest| <= |s|
  {
    if ItemInt(t.num) then
      var v := ParseVarint(s);
      if v.None? then None else Some(Read(SetItemInt(out, t.num, Int64(v.value.value)), v.value.rest))
    else if ItemString(t.num) then
      var b := ParseBytes(s);
      if b.None? then None else Some(Read(SetItemString(out, t.num, b.value.value), b.value.rest))
    else
      var skipped := Skipped(s, t.wire);
      if skipped.None? then None else Some(Read(out, skipped.value))
  }

  /** The loop over the fields of an item: it ends where no tag can be read, at the end of the data or not. */
  function ParseItem(out: Item, s: seq<byte>): Option<Read<Item>>
    decreases |s|
  {
    var t := ParseTag(s);
    if t.None? then Some(Read(out, s))
    else
      var r := ApplyItemField(out, t.value.rest, t.value.value);
      if r.None? then None else ParseItem(r.value.value, r.value.rest)
  }

  predicate BroadcastInt(num: int) {
    num in {1, 5}
  }

  predicate BroadcastString(num: int) {
    num in {2, 3, 4}
  }

  function SetBroadcastString(out: Broadcast, num: int, s: seq<byte>): Broadcast {
    if num == 2 then out.(uname := s)
    else if num == 3 then out.(face := s)
    else if num == 4 then out.(nameColor := s)
    else out
  }

  function ApplyBroadcastField(out: Broadcast, s: seq<byte>, t: Tag): (r: Option<Read<Broadcast>>)
    ensures r.Some? ==> |r.value.rest| <= |s|
  {
    if BroadcastInt(t.num) then
      var v := ParseVarint(s);
      if v.None? then None
      else
        var x := Int64(v.value.value);
        Some(Read(if t.num == 1 then out.(uid := x) else out.(guardLevel := x), v.value.rest))
    else if BroadcastString(t.num) then
      var b := ParseBytes(s);
      if b.None? then None else Some(Read(SetBroadcastString(out, t.num, b.value.value), b.value.rest))
    else if t.num == 10 then
      var b := ParseBytes(s);
      if b.None? then None
      else
        var item := ParseItem(NO_ITEM, b.value.value);
        if item.None? then None
        else Some(Read(out.(giftList := out.giftList + [item.value.value]), b.value.rest))
    else if t.num == 11 then
      var v := ParseVarint(s);
      if v.None? then None
      else Some(Read(out.(switchPresent := true, switchOn := v.value.value != 0), v.value.rest))
    else
      var skipped := Skipped(s, t.wire);
      if skipped.None? then None else Some(Read(out, skipped.value))
  }

  function ParseBroadcast(out: Broadcast, s: seq<byte>): Option<Read<Broadcast>>
    decreases |s|
  {
    var t := ParseTag(s);
    if t.None? then Some(Read(out, s))
    else
      var r := ApplyBroadcastField(out, t.value.rest, t.value.value);
      if r.None? then None else ParseBroadcast(r.value.value, r.value.rest)
  }

  /** The last value written for a varint field, or 0. */
  function LastVarint(fields: seq<Field>, num: int): uint64 {
    if fields == [] then 0
    else
      var f := fields[|fields| - 1];
      if f.VarintField? && f.num == num then f.v else LastVarint(fields[..|fields| - 1], num)
  }

  /** The last value written for a bytes field, or none. */
  function LastBytes(fields: seq<Field>, num: int): seq<byte> {
    if fields == [] then []
    else
      var f := fields[|fields| - 1];
      if f.BytesField? && f.num == num then f.bytes else LastBytes(fields[..|fields| - 1], num)
  }

  /** Known fields have their type; unknown fields are anything that can be written. */
  predicate ItemTyped(f: Field) {
    && Writable(f)
    && (ItemInt(f.num) ==> f.VarintField?)
    && (ItemString(f.num) ==> f.BytesField?)
  }

  /** What an item's fields say, whatever their order and whatever stands between them. */
  function ItemOf(fields: seq<Field>): Item {
    Item(Int64(LastVarint(fields, 1)), LastBytes(fields, 2), Int64(LastVarint(fields, 3)),
         Int64(LastVarint(fields, 4)), Int64(LastVarint(fields, 5)), Int64(LastVarint(fields, 7)),
         LastBytes(fields, 8), LastBytes(fields, 9), Int64(LastVarint(fields, 10)), LastBytes(fields, 18))
  }

  /** One field of a broadcast: a gift given by its own fields, or any other. */
  datatype Entry = Plain(f: Field) | Gift(fields: seq<Field>)

  function FieldOf(e: Entry): Field {
    if e.Plain? then e.f else BytesField(10, Encode(e.fields))
  }

  predicate EntryTyped(e: Entry) {
    && Writable(FieldOf(e))
    && (e.Gift? ==> forall k :: 0 <= k < |e.fields| ==> ItemTyped(e.fields[k]))
    && (e.Plain? ==> e.f.num != 10 && (BroadcastInt(e.f.num) || e.f.num == 11 ==> e.f.VarintField?)
                     && (BroadcastString(e.f.num) ==> e.f.BytesField?))
  }

  function Fields(entries: seq<Entry>): (r: seq<Field>)
    ensures |r| == |entries|
    ensures forall k :: 0 <= k < |entries| ==> r[k] == FieldOf(entries[k])
  {
    if entries == [] then [] else Fields(entries[..|entries| - 1]) + [FieldOf(entries[|entries| - 1])]
  }

  function Gifts(entries: seq<Entry>): seq<Item> {
    if entries == [] then []
    else
      var e := entries[|entries| - 1];
      Gifts(entries[..|entries| - 1]) + (if e.Gift? then [ItemOf(e.fields)] else [])
  }

  predicate Wrote(fields: seq<Field>, num: int) {
    exists k :: 0 <= k < |fields| && fields[k].num == num
  }

  /** What a broadcast's fields say: the last value of each scalar, every gift in order, and whether the switch was
      written. */
  function BroadcastOf(entries: seq<Entry>): Broadcast {
    var fields := Fields(entries);
    Broadcast(Int64(LastVarint(fields, 1)), LastBytes(fields, 2), LastBytes(fields, 3), LastBytes(fields, 4),
              Int64(LastVarint(fields, 5)), Gifts(entries), Wrote(fields, 11), LastVarint(fields, 11) != 0)
  }

  lemma ItemOfNext(done: seq<Field>, f: Field)
    requires ItemTyped(f)
    ensures ItemOf(done + [f]) ==
      if ItemInt(f.num) then SetItemInt(ItemOf(done), f.num, Int64(f.v))
      else if ItemString(f.num) then SetItemString(ItemOf(done), f.num, f.bytes)
      else ItemOf(done)
  {
    assert (done + [f])[..|done|] == done;
  }

  lemma ApplyItem(done: seq<Field>, f: Field, rest: seq<byte>)
    requires ItemTyped(f)
    ensures ApplyItemField(ItemOf(done), Payload(f) + rest, Tag(f.num, WireOf(f)))
      == Some(Read(ItemOf(done + [f]), rest))
  {
    FieldRoundTrip(f, rest);
    ItemOfNext(done, f);
    hide ItemOf, ParseVarint, Payload, Skipped, ParseBytes, SetItemInt, SetItemString;
  }

  /** A written item, followed by a rest in which no tag can be read, parses to what its fields say and leaves the
      rest. */
  lemma {:induction false} ItemRoundTrip(done: seq<Field>, fields: seq<Field>, rest: seq<byte>)
    requires forall k :: 0 <= k < |fields| ==> ItemTyped(fields[k])
    requires ParseTag(rest).None?
    ensures ParseItem(ItemOf(done), Encode(fields) + rest) == Some(Read(ItemOf(done + fields), rest))
    decreases |fields|
  {
    hide ItemOf, ParseTag, EncodeField, Payload, ApplyItemField;
    if fields == [] {
      assert Encode(fields) + rest == rest && done + fields == done;
    } else {
      var f := fields[0];
      var more := Encode(fields[1..]) + rest;
      assert Encode(fields) + rest == EncodeField(f) + more;
      FieldRoundTrip(f, more);
      ApplyItem(done, f, more);
      ItemRoundTrip(done + [f], fields[1..], rest);
      assert done + [f] + fields[1..] == done + fields;
    }
  }

  lemma FieldsNext(done: seq<Entry>, e: Entry)
    ensures Fields(done + [e]) == Fields(done) + [FieldOf(e)]
    ensures Gifts(done + [e]) == Gifts(done) + (if e.Gift? then [ItemOf(e.fields)] else [])
  {
    assert (done + [e])[..|done|] == done;
  }

  lemma LastNext(fields: seq<Field>, f: Field, num: int)
    ensures LastVarint(fields + [f], num) == if f.VarintField? && f.num == num then f.v else LastVarint(fields, num)
    ensures LastBytes(fields + [f], num) == if f.BytesField? && f.num == num then f.bytes else LastBytes(fields, num)
    ensures Wrote(fields + [f], num) <==> Wrote(fields, num) || f.num == num
  {
    assert (fields + [f])[..|fields|] == fields;
    assert (fields + [f])[|fields|] == f;
    if Wrote(fields, num) {
      var k :| 0 <= k < |fields| && fields[k].num == num;
      assert (fields + [f])[k].num == num;
    }
  }

  lemma BroadcastOfNext(done: seq<Entry>, e: Entry)
    requires EntryTyped(e)
    ensures var f, out := FieldOf(e), BroadcastOf(done);
      BroadcastOf(done + [e]) ==
        if f.num == 1 then out.(uid := Int64(f.v))
        else if f.num == 5 then out.(guardLevel := Int64(f.v))
        else if BroadcastString(f.num) then SetBroadcastString(out, f.num, f.bytes)
        else if e.Gift? then out.(giftList := out.giftList + [ItemOf(e.fields)])
        else if f.num == 11 then out.(switchPresent := true, switchOn := f.v != 0)
        else out
  {
    FieldsNext(done, e);
    var fields, f := Fields(done), FieldOf(e);
    LastNext(fields, f, 1);
    LastNext(fields, f, 2);
    LastNext(fields, f, 3);
    LastNext(fields, f, 4);
    LastNext(fields, f, 5);
    LastNext(fields, f, 11);
    hide LastVarint, LastBytes, Wrote, Fields, Gifts, ItemOf, ItemTyped, Encode;
  }

  lemma ApplyBroadcast(done: seq<Entry>, e: Entry, rest: seq<byte>)
    requires EntryTyped(e)
    ensures ApplyBroadcastField(BroadcastOf(done), Payload(FieldOf(e)) + rest, Tag(FieldOf(e).num, WireOf(FieldOf(e))))
      == Some(Read(BroadcastOf(done + [e]), rest))
  {
    FieldRoundTrip(FieldOf(e), rest);
    BroadcastOfNext(done, e);
    if e.Gift? {
      ItemRoundTrip([], e.fields, []);
      assert Encode(e.fields) + [] == Encode(e.fields) && [] + e.fields == e.fields;
      assert ItemOf([]) == NO_ITEM;
    }
    hide ItemOf, BroadcastOf, ParseVarint, Payload, Skipped, ParseBytes, ParseItem, SetBroadcastString, Encode;
    hide ItemTyped;
  }

  lemma {:induction false} BroadcastRoundTripFrom(done: seq<Entry>, entries: seq<Entry>, fields: seq<Field>,
                                                  rest: seq<byte>)
    requires forall k :: 0 <= k < |entries| ==> EntryTyped(entries[k])
    requires fields == seq(|entries|, k requires 0 <= k < |entries| => FieldOf(entries[k]))
    requires ParseTag(rest).None?
    ensures ParseBroadcast(BroadcastOf(done), Encode(fields) + rest) == Some(Read(BroadcastOf(done + entries), rest))
    decreases |entries|
  {
    hide BroadcastOf, ParseTag, EncodeField, Payload, ApplyBroadcastField, EntryTyped, FieldOf;
    if entries == [] {
      assert Encode(fields) + rest == rest && done + entries == done;
    } else {
      var e, f := entries[0], fields[0];
      var more := Encode(fields[1..]) + rest;
      assert Encode(fields) + rest == EncodeField(f) + more;
      assert Writable(f) by {
        EntryIsWritable(e);
      }
      FieldRoundTrip(f, more);
      ApplyBroadcast(done, e, more);
      BroadcastRoundTripFrom(done + [e], entries[1..], fields[1..], rest);
      assert done + [e] + entries[1..] == done + entries;
    }
  }

  lemma EntryIsWritable(e: Entry)
    requires EntryTyped(e)
    ensures Writable(FieldOf(e))
  {
  }

  /** Any list of well-typed known fields, nested gifts and arbitrary unknown fields parses back to the last value of
      each scalar and all gifts in order; every byte of the message is consumed, and what follows it is left unread,
      without an error, when no tag can be read from it. */
  lemma BroadcastRoundTrip(entries: seq<Entry>, rest: seq<byte>)
    requires forall k :: 0 <= k < |entries| ==> EntryTyped(entries[k])
    requires ParseTag(rest).None?
    ensures ParseBroadcast(NO_BROADCAST, Encode(Fields(entries)) + rest) == Some(Read(BroadcastOf(entries), rest))
  {
    assert BroadcastOf([]) == NO_BROADCAST;
    assert [] + entries == entries;
    BroadcastRoundTripFrom([], entries, Fields(entries), rest);
  }

  /** A message cut off inside a tag is accepted as if it had ended before it: continuation bytes after any written
      message change nothing. */
  lemma TruncatedTagIsAccepted(entries: seq<Entry>, cut: seq<byte>)
    requires forall k :: 0 <= k < |entries| ==> EntryTyped(entries[k])
    requires forall i :: 0 <= i < |cut| ==> cut[i] >= 128
    ensures ParseBroadcast(NO_BROADCAST, Encode(Fields(entries)) + cut) == Some(Read(BroadcastOf(entries), cut))
  {
    hide ParseBroadcast, BroadcastOf, Encode, EntryTyped;
    NoTagExactly(cut);
    BroadcastRoundTrip(entries, cut);
  }

  lemma ItemPayloadCut(out: Item, f: Field, n: nat)
    requires ItemTyped(f) && n < |Payload(f)|
    ensures ApplyItemField(out, Payload(f)[..n], Tag(f.num, WireOf(f))).None?
  {
    PayloadCut(f, n);
    hide ParseVarint, ParseBytes, Skipped, Payload, SetItemInt, SetItemString;
  }

  /** A written item that is cut off is refused exactly if a payload is: cut between two fields, or inside a tag, it
      passes for the fields before the cut. */
  lemma {:induction false} ItemCutExactly(done: seq<Field>, fields: seq<Field>, n: nat)
    requires forall k :: 0 <= k < |fields| ==> ItemTyped(fields[k])
    requires n <= |Encode(fields)|
    ensures var r := ParseItem(ItemOf(done), Encode(fields)[..n]);
      && (r.Some? <==> OutsidePayload(fields, n))
      && (r.Some? ==> r.value.value == ItemOf(done + fields[..WholeFields(fields, n)]))
    decreases |fields|
  {
    hide ItemOf, ParseTag, EncodeField, Payload, ApplyItemField, ItemTyped, TagSize;
    if fields == [] {
      NoTagExactly([]);
      assert done + [] == done;
    } else {
      var f, size := fields[0], |EncodeField(fields[0])|;
      CutFirst(fields, n);
      if n < TagSize(f) {
        TagCut(f, n);
        assert done + fields[..0] == done;
      } else if n < size {
        TagThenCut(f, n);
        ItemPayloadCut(ItemOf(done), f, n - TagSize(f));
      } else {
        var rest, k := Encode(fields[1..])[..n - size], WholeFields(fields[1..], n - size);
        ItemIsWritable(f);
        FieldRoundTrip(f, rest);
        ApplyItem(done, f, rest);
        ItemCutExactly(done + [f], fields[1..], n - size);
        assert done + [f] + fields[1..][..k] == done + fields[..1 + k];
      }
    }
  }

  lemma ItemIsWritable(f: Field)
    requires ItemTyped(f)
    ensures Writable(f)
  {
  }

  lemma EntryPayloadCut(out: Broadcast, e: Entry, n: nat)
    requires EntryTyped(e) && n < |Payload(FieldOf(e))|
    ensures ApplyBroadcastField(out, Payload(FieldOf(e))[..n], Tag(FieldOf(e).num, WireOf(FieldOf(e)))).None?
  {
    PayloadCut(FieldOf(e), n);
    hide ParseVarint, ParseBytes, Skipped, Payload, SetBroadcastString, ParseItem, Encode, ItemTyped;
  }

  lemma {:induction false} BroadcastCutFrom(done: seq<Entry>, entries: seq<Entry>, fields: seq<Field>, n: nat)
    requires forall k :: 0 <= k < |entries| ==> EntryTyped(entries[k])
    requires fields == seq(|entries|, k requires 0 <= k < |entries| => FieldOf(entries[k]))
    requires n <= |Encode(fields)|
    ensures var r := ParseBroadcast(BroadcastOf(done), Encode(fields)[..n]);
      && (r.Some? <==> OutsidePayload(fields, n))
      && (r.Some? ==> r.value.value == BroadcastOf(done + entries[..WholeFields(fields, n)]))
    decreases |entries|
  {
    hide BroadcastOf, ParseTag, EncodeField, Payload, ApplyBroadcastField, EntryTyped, FieldOf, TagSize;
    if entries == [] {
      NoTagExactly([]);
      assert done + [] == done;
    } else {
      var e, f, size := entries[0], fields[0], |EncodeField(fields[0])|;
      CutFirst(fields, n);
      if n < TagSize(f) {
        TagCut(f, n);
        assert done + entries[..0] == done;
      } else if n < size {
        TagThenCut(f, n);
        EntryPayloadCut(BroadcastOf(done), e, n - TagSize(f));
      } else {
        var rest, k := Encode(fields[1..])[..n - size], WholeFields(fields[1..], n - size);
        EntryIsWritable(e);
        FieldRoundTrip(f, rest);
        ApplyBroadcast(done, e, rest);
        BroadcastCutFrom(done + [e], entries[1..], fields[1..], n - size);
        assert done + [e] + entries[1..][..k] == done + entries[..1 + k];
      }
    }
  }

  /** The exact condition: of all cuts of a written message the parse refuses those inside a payload. Any other cut,
      between two fields or inside a tag, passes without an error as the message of the entries before it. */
  lemma BroadcastCutExactly(entries: seq<Entry>, n: nat)
    requires forall k :: 0 <= k < |entries| ==> EntryTyped(entries[k])
    requires n <= |Encode(Fields(entries))|
    ensures var r := ParseBroadcast(NO_BROADCAST, Encode(Fields(entries))[..n]);
      && (r.Some? <==> OutsidePayload(Fields(entries), n))
      && (r.Some? ==> r.value.value == BroadcastOf(entries[..WholeFields(Fields(entries), n)]))
  {
    assert BroadcastOf([]) == NO_BROADCAST;
    hide BroadcastOf, ParseBroadcast, Encode, EntryTyped, FieldOf, OutsidePayload, WholeFields;
    BroadcastCutFrom([], entries, Fields(entries), n);
    var before := entries[..WholeFields(Fields(entries), n)];
    assert [] + before == before;
  }

  /** A signed value written last for the user or the guard level is what the parse returns, negative or not. */
  lemma SignedValueRoundTrip(entries: seq<Entry>, num: FieldNumber, x: int)
    requires forall k :: 0 <= k < |entries| ==> EntryTyped(entries[k])
    requires BroadcastInt(num) && -TWO_63 <= x < TWO_63
    ensures var all := entries + [Plain(VarintField(num, Uint64(x)))];
      var parsed := ParseBroadcast(NO_BROADCAST, Encode(Fields(all)) + []);
      && parsed.Some? && (if num == 1 then parsed.value.value.uid else parsed.value.value.guardLevel) == x
  {
    var e := Plain(VarintField(num, Uint64(x)));
    assert EntryTyped(e);
    BroadcastOfNext(entries, e);
    Int64RoundTrip(x);
    hide ParseBroadcast, BroadcastOf, Encode, EntryTyped, Fields, Int64, Uint64;
    NoTagExactly([]);
    BroadcastRoundTrip(entries + [e], []);
  }

  method ApplySendGiftV2ItemField(out: Item, r: Reader, num: int, wire: int) returns (res: Item, ok: bool)
    requires r.Valid()
    modifies r
    ensures r.Valid() && r.pos >= old(r.pos)
    ensures ok <==> ApplyItemField(out, old(r.Rest()), Tag(num, wire)).Some?
    ensures ok ==> Read(res, r.Rest()) == ApplyItemField(out, old(r.Rest()), Tag(num, wire)).value
  {
    hide ParseVarint, ParseBytes, Skipped, SetItemInt, SetItemString;
    res := out;
    if ItemInt(num) {
      var v;
      v, ok := r.ReadVarint();
      if ok {
        res := SetItemInt(out, num, Int64(v));
      }
    } else if ItemString(num) {
      var s;
      s, ok := r.ReadBytes();
      if ok {
        res := SetItemString(out, num, s);
      }
    } else {
      ok := r.SkipField(wire);
    }
  }

  method ParseSendGiftV2Item(data: seq<byte>) returns (out: Item, ok: bool)
    ensures ok <==> ParseItem(NO_ITEM, data).Some?
    ensures ok ==> out == ParseItem(NO_ITEM, data).value.value
  {
    hide ParseTag, ApplyItemField;
    out := NO_ITEM;
    var r := new Reader(data);
    while true
      invariant r.Valid() && ParseItem(out, r.Rest()) == ParseItem(NO_ITEM, data)
      decreases |r.Rest()|
    {
      var num, wire, more := r.TryReadTag();
      if !more {
        return out, true;
      }
      out, ok := ApplySendGiftV2ItemField(out, r, num, wire);
      if !ok {
        return NO_ITEM, false;
      }
    }
  }

  method ApplySendGiftBroadcastField(out: Broadcast, r: Reader, num: int, wire: int)
    returns (res: Broadcast, ok: bool)
    requires r.Valid()
    modifies r
    ensures r.Valid() && r.pos >= old(r.pos)
    ensures ok <==> ApplyBroadcastField(out, old(r.Rest()), Tag(num, wire)).Some?
    ensures ok ==> Read(res, r.Rest()) == ApplyBroadcastField(out, old(r.Rest()), Tag(num, wire)).value
  {
    hide ParseVarint, ParseBytes, Skipped, SetBroadcastString, ParseItem;
    res := out;
    if BroadcastInt(num) || num == 11 {
      var v;
      v, ok := r.ReadVarint();
      if ok {
        res := if num == 1 then out.(uid := Int64(v))
               else if num == 5 then out.(guardLevel := Int64(v))
               else out.(switchPresent := true, switchOn := v != 0);
      }
    } else if BroadcastString(num) || num == 10 {
      var s;
      s, ok := r.ReadBytes();
      if ok && num != 10 {
        res := SetBroadcastString(out, num, s);
      } else if ok {
        var item;
        item, ok := ParseSendGiftV2Item(s);
        if ok {
          res := out.(giftList := out.giftList + [item]);
        }
      }
    } else {
      ok := r.SkipField(wire);
    }
  }

  method ParseSendGiftBroadcast(data: seq<byte>) returns (out: Broadcast, ok: bool)
    ensures ok <==> ParseBroadcast(NO_BROADCAST, data).Some?
    ensures ok ==> out == ParseBroadcast(NO_BROADCAST, data).value.value
  {
    hide ParseTag, ApplyBroadcastField;
    out := NO_BROADCAST;
    var r := new Reader(data);
    while true
      invariant r.Valid() && ParseBroadcast(out, r.Rest()) == ParseBroadcast(NO_BROADCAST, data)
      decreases |r.Rest()|
    {
      var num, wire, more := r.TryReadTag();
      if !more {
        return out, true;
      }
      out, ok := ApplySendGiftBroadcastField(out, r, num, wire);
      if !ok {
        return NO_BROADCAST, false;
      }
    }
  }
}
