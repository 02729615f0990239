/** Decoding what was encoded gives the message back: reader and writer with the
    same schema. */
module PbRoundTrip {
  import opened Keys
  import opened Coding
  import opened PbWire
  import opened PbDecode
  import opened PbItems
  import opened PbEvolution

  // ----- a schema reads itself

  lemma {:induction false} SelfTypeReads(t: Type)
    requires TypeOk(t)
    ensures TypeReads(t, t)
    decreases t
  {
    if t.SubT? {
      SelfReads(t.fields);
    }
  }

  lemma {:induction false} SelfSlotReads(slot: Slot)
    requires SlotOk(slot)
    ensures SlotReads(slot, slot)
    decreases slot
  {
    if slot.OneOf? {
      forall j, k | 0 <= j < |slot.members| && 0 <= k < |slot.members| && slot.members[j].tag == slot.members[k].tag
        ensures MemberReads(slot.members[j], slot.members[k])
      {
        assert j == k && MemberOk(slot.members[j]);
        SelfMemberReads(slot.members[j]);
      }
    } else {
      SelfTypeReads(slot.t);
    }
  }

  lemma {:induction false} SelfMemberReads(m: Member)
    requires MemberOk(m)
    ensures MemberReads(m, m)
    decreases m
  {
    SelfTypeReads(m.t);
  }

  lemma SharesIsSame(fields: seq<Slot>, i: nat, j: nat)
    requires SchemaOk(fields) && i < |fields| && j < |fields| && Shares(fields[i], fields[j])
    ensures i == j
  {
    hide HasTag; hide SlotOk;
    var tag :| HasTag(fields[i], tag) && HasTag(fields[j], tag);
  }

  lemma {:induction false} SelfReads(fields: seq<Slot>)
    requires SchemaOk(fields)
    ensures Reads(fields, fields)
    decreases fields
  {
    forall i, j | 0 <= i < |fields| && 0 <= j < |fields| && Shares(fields[i], fields[j])
      ensures i == j && SlotReads(fields[i], fields[j])
    {
      SharesIsSame(fields, i, j);
      assert SlotOk(fields[i]);
      SelfSlotReads(fields[i]);
    }
    hide SchemaOk; hide Shares; hide SlotReads;
  }

  // ----- and finds itself

  lemma {:induction false} SelfVal(t: Type, v: Val)
    requires TypeOk(t) && TypeReads(t, t) && Fits(t, v) && Shaped(t, ZeroOf(t))
    ensures ValPart(t, ZeroOf(t), t, v) == v && (ValRoom(t, ZeroOf(t), t, v) <==> Terminated(t, v))
    decreases t
  {
    if t.SubT? {
      assert MessageFits(t.fields, v.slots);
      SelfPart(t.fields, v.slots);
      assert Terminated(t, v) <==> MessageTerminated(t.fields, v.slots);
      hide MessageTerminated; hide MessageRoom; hide MessagePart; hide SchemaOk; hide Reads; hide MessageFits; hide Fits; hide AllPresent;
      hide MessageShaped; hide Defaults;
    } else if Packable(t) {
      NumFits(t, v);
      hide NumRoom; hide NumPart;
    }
  }

  lemma {:induction false} SelfSlot(slot: Slot, sv: SlotVal)
    requires SlotOk(slot) && SlotReads(slot, slot) && SlotFits(slot, sv) && SlotShaped(slot, DefaultOf(slot))
    ensures SlotPart(slot, DefaultOf(slot), slot, sv) == sv && (SlotRoom(slot, DefaultOf(slot), slot, sv) <==> SlotTerminated(slot, sv))
    decreases slot, 0
  {
    hide ValPart; hide ValRoom; hide Terminated; hide IsZero; hide TypeReads; hide TypeOk; hide Fits; hide ZeroOf; hide Shaped;
    if slot.Repeated? {
      var t := slot.t;
      ZeroShaped(t);
      forall i | 0 <= i < |sv.vs|
        ensures ValPart(t, ZeroOf(t), t, sv.vs[i]) == sv.vs[i] && (ValRoom(t, ZeroOf(t), t, sv.vs[i]) <==> Terminated(t, sv.vs[i]))
      {
        SelfVal(t, sv.vs[i]);
      }
      assert [] + seq(|sv.vs|, i requires 0 <= i < |sv.vs| => ValPart(t, ZeroOf(t), t, sv.vs[i])) == sv.vs;
    } else if slot.OneOf? {
      if sv.c.Some? {
        var j := sv.c.value.member;
        MemberFound(slot.members, j);
        assert MemberOk(slot.members[j]) && MemberReads(slot.members[j], slot.members[j]);
        SelfMember(slot.members[j], sv.c.value.v);
        hide MemberOf; hide MemberPart; hide MemberRoom; hide MemberTerminated;
      }
    } else {
      var o := Written(slot, sv);
      ZeroShaped(slot.t);
      if o.Some? {
        SelfVal(slot.t, o.value);
      } else if slot.Implicit? {
        ZeroIsDefault(slot.t, sv.v);
      }
    }
  }

  lemma {:induction false} SelfMember(m: Member, v: Val)
    requires MemberOk(m) && MemberReads(m, m) && MemberFits(m, v)
    ensures MemberPart(m, m, v) == v && (MemberRoom(m, m, v) <==> MemberTerminated(m, v))
    decreases m
  {
    ZeroShaped(m.t);
    SelfVal(m.t, v);
  }

  /** A field finds itself, unless it is a oneof without members. */
  lemma SelfSource(fields: seq<Slot>, i: nat)
    requires SchemaOk(fields) && i < |fields|
    ensures Source(fields[i], fields) == if fields[i] == OneOf([]) then |fields| else i
  {
    var slot, k := fields[i], Source(fields[i], fields);
    if slot != OneOf([]) {
      assert SlotOk(slot);
      var tag := if slot.OneOf? then slot.members[0].tag else slot.tag;
      if slot.OneOf? {
        MemberFound(slot.members, 0);
      }
      assert HasTag(slot, tag);
      assert Shares(fields[i], fields[i]);
      SharesIsSame(fields, i, k);
    }
  }

  lemma {:induction false} SelfField(fields: seq<Slot>, slots: seq<SlotVal>, i: nat)
    requires SchemaOk(fields) && Reads(fields, fields) && MessageFits(fields, slots) && i < |fields| == |slots| && SlotFits(fields[i], slots[i])
    ensures SlotReadsAll(fields[i], fields) && SlotShaped(fields[i], DefaultOf(fields[i])) && Part(fields[i], DefaultOf(fields[i]), fields, slots) == slots[i]
    ensures PartRoom(fields[i], DefaultOf(fields[i]), fields, slots) <==> SlotTerminated(fields[i], slots[i])
    ensures fields[i].Required? ==> Present(fields[i], fields, slots)
    decreases fields[i], 1
  {
    assert SlotOk(fields[i]) && SlotReadsAll(fields[i], fields);
    SelfSource(fields, i);
    DefaultShaped(fields[i]);
    if fields[i] != OneOf([]) {
      assert SlotReads(fields[i], fields[i]);
      hide SchemaOk; hide Reads; hide MessageFits; hide SlotReads; hide SlotPart; hide SlotRoom; hide SlotTerminated; hide SlotShaped; hide DefaultOf;
      SelfSlot(fields[i], slots[i]);
    }
  }

  lemma {:induction false} SelfPart(fields: seq<Slot>, slots: seq<SlotVal>)
    requires SchemaOk(fields) && Reads(fields, fields) && MessageFits(fields, slots)
    ensures MessageShaped(fields, Defaults(fields)) && MessagePart(fields, Defaults(fields), fields, slots) == slots && AllPresent(fields, fields, slots)
    ensures MessageRoom(fields, Defaults(fields), fields, slots) <==> MessageTerminated(fields, slots)
    decreases fields
  {
    DefaultsShaped(fields);
    forall i | 0 <= i < |fields|
      ensures SlotFits(fields[i], slots[i]) && SlotReadsAll(fields[i], fields) && SlotShaped(fields[i], DefaultOf(fields[i]))
      ensures Part(fields[i], DefaultOf(fields[i]), fields, slots) == slots[i]
      ensures PartRoom(fields[i], DefaultOf(fields[i]), fields, slots) <==> SlotTerminated(fields[i], slots[i])
      ensures fields[i].Required? ==> Present(fields[i], fields, slots)
    {
      SelfField(fields, slots, i);
    }
    hide SchemaOk; hide Reads; hide SlotFits; hide SlotReadsAll; hide Part; hide PartRoom; hide SlotTerminated; hide Present; hide RequiredBefore;
    hide SlotShaped; hide DefaultOf;
  }

  // ----- the main result

  /** A message of a schema comes back from its encoding, through submessages,
      packed and unpacked arrays, oneofs and left-out defaults, exactly when
      every string written leaves room for its NUL; otherwise it is refused. */
  lemma MessageRoundTrip(fields: seq<Slot>, slots: seq<SlotVal>)
    requires SchemaOk(fields) && MessageFits(fields, slots) && |WireFields(fields, slots, |fields|)| < TWO32
    ensures Decode(fields, WireFields(fields, slots, |fields|)) == if MessageTerminated(fields, slots) then Some(slots) else None
  {
    hide SchemaOk; hide Reads; hide MessageFits; hide WireFields; hide MessageRoom; hide MessagePart; hide MessageTerminated; hide AllPresent; hide MessageShaped;
    SelfReads(fields);
    SelfPart(fields, slots);
    SchemasEvolve(fields, fields, slots);
  }

  /** A string that fills its array is written, and its own decoder refuses it. */
  lemma FullStringRefused()
    ensures var fields, slots := [Required(1, StringT(1))], [One(Data([65]))];
            MessageFits(fields, slots) && Decode(fields, WireFields(fields, slots, 1)) == None
  {
    var fields, slots := [Required(1, StringT(1))], [One(Data([65]))];
    assert SlotFits(fields[0], slots[0]) && !SlotTerminated(fields[0], slots[0]);
    assert SlotOk(fields[0]);
    assert WireFields(fields, slots, 0) == [];
    MessageRoundTrip(fields, slots);
  }
}
