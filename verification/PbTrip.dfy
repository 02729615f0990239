/** Encoding into a buffer and decoding from it (nanopb). */
module PbTrip {
  import opened Coding
  import opened PbWire
  import opened PbDecode
  import opened PbRoundTrip
  import opened PbEncode
  import opened PbStream

  /** A buffer of the size the counting pass announces takes the message, and
      decoding the buffer gives the message back, unless a string in it fills
      its whole array: then decoding fails. */
  method Copy(fields: seq<Slot>, slots: seq<SlotVal>) returns (ok: bool, copy: seq<SlotVal>)
    requires SchemaOk(fields) && MessageFits(fields, slots) && |WireFields(fields, slots, |fields|)| < TWO32
    ensures ok == MessageTerminated(fields, slots) && (ok ==> copy == slots)
  {
    hide SchemaOk; hide MessageTerminated; hide MessageFits; hide WireFields; hide Decode;
    MessageFitsIsTyped(fields, slots);
    hide MessageTyped;
    var size;
    ok, size := GetEncodedSize(fields, slots);
    var out := new OStream(false, size, []);
    ok := EncodeMessage(out, fields, slots);
    assert [] + WireFields(fields, slots, |fields|) == WireFields(fields, slots, |fields|);
    MessageRoundTrip(fields, slots);
    var input := new IStream(out.out, 0, |out.out|);
    assert out.out[0..|out.out|] == out.out;
    ok, copy := DecodeInto(input, fields);
  }
}
