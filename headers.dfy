/**
 * Fixed-layout headers of the graph server / weight server / lambda wire
 * protocol (src/common/utils.hpp): the opcode enum, the sentinel field,
 * the control header and the named-tensor header.
 */
module Headers {
  import opened Wire
  import opened Wrappers

  const TENSOR_NAME_SIZE: nat := 8
  /** sizeof(unsigned) * 5 + sizeof(unsigned) * 2 */
  const HEADER_SIZE: nat := SLOT_SIZE * 5 + SLOT_SIZE * 2
  /** OP, TENSOR_NAME, FIELD0, FIELD1, ... */
  const TENSOR_HDR_SIZE: nat := SLOT_SIZE * 5 + TENSOR_NAME_SIZE
  /** UINT_MAX: marks an error reply. */
  const ERR_HEADER_FIELD: u32 := 0xFFFF_FFFF

  datatype Op =
    | REQ_FORWARD | PUSH_FORWARD | PULL_FORWARD | REQ_BACKWARD | PUSH_BACKWARD | PULL_BACKWARD
    | PULL_EVAL | PUSH_EVAL | RESP | INFO | TERM
    | REQ_BATCH_FORWARD | REQ_BATCH_BACKWARD
    | PUSH | PULL

  /** The enumerator's value: its position in the declaration, 0 .. 14. */
  function Code(op: Op): (c: u32)
    ensures c < 15 && c != ERR_HEADER_FIELD
  {
    match op
    case REQ_FORWARD => 0
    case PUSH_FORWARD => 1
    case PULL_FORWARD => 2
    case REQ_BACKWARD => 3
    case PUSH_BACKWARD => 4
    case PULL_BACKWARD => 5
    case PULL_EVAL => 6
    case PUSH_EVAL => 7
    case RESP => 8
    case INFO => 9
    case TERM => 10
    case REQ_BATCH_FORWARD => 11
    case REQ_BATCH_BACKWARD => 12
    case PUSH => 13
    case PULL => 14
  }

  /** The enumerator a header slot names, if any. */
  function OpOfCode(c: u32): (r: Option<Op>)
    ensures r.Some? <==> c < 15
    ensures r.Some? ==> Code(r.value) == c
  {
    if c == 0 then Some(REQ_FORWARD)
    else if c == 1 then Some(PUSH_FORWARD)
    else if c == 2 then Some(PULL_FORWARD)
    else if c == 3 then Some(REQ_BACKWARD)
    else if c == 4 then Some(PUSH_BACKWARD)
    else if c == 5 then Some(PULL_BACKWARD)
    else if c == 6 then Some(PULL_EVAL)
    else if c == 7 then Some(PUSH_EVAL)
    else if c == 8 then Some(RESP)
    else if c == 9 then Some(INFO)
    else if c == 10 then Some(TERM)
    else if c == 11 then Some(REQ_BATCH_FORWARD)
    else if c == 12 then Some(REQ_BATCH_BACKWARD)
    else if c == 13 then Some(PUSH)
    else if c == 14 then Some(PULL)
    else None
  }

  /** Distinct enumerators have distinct codes and decode back to themselves. */
  lemma CodeRoundTrip(op: Op)
    ensures OpOfCode(Code(op)) == Some(op)
    ensures forall other: Op :: Code(other) == Code(op) ==> other == op
  {
    forall other: Op | Code(other) == Code(op) ensures other == op {
      assert OpOfCode(Code(other)) == OpOfCode(Code(op));
    }
  }

  /** PROP_TYPE { FORWARD, BACKWARD } */
  const FORWARD: nat := 0
  const BACKWARD: nat := 1

  // ---------------------------------------------------------------------------
  // Control header: op in slot 0, field1..field4 in slots 1..4
  // ---------------------------------------------------------------------------

  /** The buffer after `populateHeader(header, op, field1, ..., field4)`. */
  function ControlHeader(buf: seq<byte>, op: u32, f1: u32, f2: u32, f3: u32, f4: u32): (h: seq<byte>)
    requires 4 * 5 <= |buf|
    ensures |h| == |buf|
  {
    WriteSlots(buf, 0, [op, f1, f2, f3, f4])
  }

  /**
   * The control header holds op in slot 0 and the four fields in slots 1..4,
   * and touches no byte past slot 4 (the last two slots of a HEADER_SIZE buffer).
   */
  lemma ControlHeaderLayout(buf: seq<byte>, op: u32, f1: u32, f2: u32, f3: u32, f4: u32)
    requires 4 * 5 <= |buf|
    ensures |ControlHeader(buf, op, f1, f2, f3, f4)| == |buf|
    ensures ParseSlot(ControlHeader(buf, op, f1, f2, f3, f4), 0) == op
    ensures ParseSlot(ControlHeader(buf, op, f1, f2, f3, f4), 1) == f1
    ensures ParseSlot(ControlHeader(buf, op, f1, f2, f3, f4), 2) == f2
    ensures ParseSlot(ControlHeader(buf, op, f1, f2, f3, f4), 3) == f3
    ensures ParseSlot(ControlHeader(buf, op, f1, f2, f3, f4), 4) == f4
    ensures forall j | 4 * 5 <= j < |buf| :: ControlHeader(buf, op, f1, f2, f3, f4)[j] == buf[j]
  {
    var vs := [op, f1, f2, f3, f4];
    WriteSlotsLayout(buf, 0, vs);
    assert vs[0] == op && vs[1] == f1 && vs[2] == f2 && vs[3] == f3 && vs[4] == f4;
  }

  /**
   * populateHeader(char*, op, ...) and populateHeader(void*, op, ...): both
   * overloads serialize op and the four fields, omitted fields being 0.
   */
  method PopulateHeader(header: array<byte>, op: u32, field1: u32 := 0, field2: u32 := 0,
                        field3: u32 := 0, field4: u32 := 0)
    requires 4 * 5 <= header.Length
    modifies header
    ensures header[..] == ControlHeader(old(header[..]), op, field1, field2, field3, field4)
  {
    ghost var b0 := header[..];
    Serialize(header, 0, op);
    Serialize(header, 1, field1);
    Serialize(header, 2, field2);
    Serialize(header, 3, field3);
    Serialize(header, 4, field4);
    ghost var b1 := WriteSlot(b0, 0, op);
    ghost var b2 := WriteSlot(b1, 1, field1);
    ghost var b3 := WriteSlot(b2, 2, field2);
    ghost var b4 := WriteSlot(b3, 3, field3);
    WriteSlotsCons(b0, 0, op, [field1, field2, field3, field4]);
    WriteSlotsCons(b1, 1, field1, [field2, field3, field4]);
    WriteSlotsCons(b2, 2, field2, [field3, field4]);
    WriteSlotsCons(b3, 3, field3, [field4]);
    WriteSlotsCons(b4, 4, field4, []);
  }

  // ---------------------------------------------------------------------------
  // Named-tensor header: op in slot 0, 8 name bytes at 4..11, fields in slots 3..6
  // ---------------------------------------------------------------------------

  /**
   * The TENSOR_NAME_SIZE bytes memcpy reads from name.c_str(): the name, its
   * NUL terminator, and (for names shorter than 7) the bytes after the
   * terminator, which this model takes to be zero.
   */
  function NameImage(name: Name): (img: seq<byte>)
    ensures |img| == TENSOR_NAME_SIZE
  {
    (ToBytes(name) + [0] + Zeros(TENSOR_NAME_SIZE))[..TENSOR_NAME_SIZE]
  }

  /** The buffer after `populateHeader(header, op, tensorName, field1, ..., field4)`. */
  function NamedHeader(buf: seq<byte>, op: u32, name: Name, f1: u32, f2: u32, f3: u32, f4: u32): (h: seq<byte>)
    requires TENSOR_HDR_SIZE <= |buf|
    ensures |h| == |buf|
  {
    WriteSlots(WriteBytes(WriteSlot(buf, 0, op), SLOT_SIZE, NameImage(name)), 3, [f1, f2, f3, f4])
  }

  /**
   * The named header holds op in slot 0, exactly the 8 name bytes at offsets
   * 4..11 and the fields in slots 3..6; the three regions are disjoint and
   * lie inside TENSOR_HDR_SIZE bytes, so nothing past byte 28 changes.
   */
  lemma NamedHeaderLayout(buf: seq<byte>, op: u32, name: Name, f1: u32, f2: u32, f3: u32, f4: u32)
    requires TENSOR_HDR_SIZE <= |buf|
    ensures |NamedHeader(buf, op, name, f1, f2, f3, f4)| == |buf|
    ensures ParseSlot(NamedHeader(buf, op, name, f1, f2, f3, f4), 0) == op
    ensures NamedHeader(buf, op, name, f1, f2, f3, f4)[4..12] == NameImage(name)
    ensures ParseSlot(NamedHeader(buf, op, name, f1, f2, f3, f4), 3) == f1
    ensures ParseSlot(NamedHeader(buf, op, name, f1, f2, f3, f4), 4) == f2
    ensures ParseSlot(NamedHeader(buf, op, name, f1, f2, f3, f4), 5) == f3
    ensures ParseSlot(NamedHeader(buf, op, name, f1, f2, f3, f4), 6) == f4
    ensures forall j | TENSOR_HDR_SIZE <= j < |buf| :: NamedHeader(buf, op, name, f1, f2, f3, f4)[j] == buf[j]
  {
    var b1 := WriteSlot(buf, 0, op);
    WriteSlotAt(buf, 0, op);
    ParseWriteSlot(buf, 0, op);
    var b2 := WriteBytes(b1, SLOT_SIZE, NameImage(name));
    assert b2[0..4] == b1[0..4];
    var vs := [f1, f2, f3, f4];
    WriteSlotsLayout(b2, 3, vs);
    var r := WriteSlots(b2, 3, vs);
    assert r[0..4] == b2[0..4];
    assert r[4..12] == b2[4..12];
    assert vs[0] == f1 && vs[1] == f2 && vs[2] == f3 && vs[3] == f4;
  }

  /** populateHeader(void* header, op, tensorName, field1, ..., field4) */
  method PopulateNamedHeader(header: array<byte>, op: u32, name: Name, field1: u32 := 0,
                             field2: u32 := 0, field3: u32 := 0, field4: u32 := 0)
    requires TENSOR_HDR_SIZE <= header.Length
    modifies header
    ensures header[..] == NamedHeader(old(header[..]), op, name, field1, field2, field3, field4)
  {
    Serialize(header, 0, op);
    var img := NameImage(name);
    CopyBytes(header, SLOT_SIZE, img);
    ghost var b2 := header[..];
    Serialize(header, 3, field1);
    Serialize(header, 4, field2);
    Serialize(header, 5, field3);
    Serialize(header, 6, field4);
    ghost var b3 := WriteSlot(b2, 3, field1);
    ghost var b4 := WriteSlot(b3, 4, field2);
    ghost var b5 := WriteSlot(b4, 5, field3);
    WriteSlotsCons(b2, 3, field1, [field2, field3, field4]);
    WriteSlotsCons(b3, 4, field2, [field3, field4]);
    WriteSlotsCons(b4, 5, field3, [field4]);
    WriteSlotsCons(b5, 6, field4, []);
  }

  /** parseName: the C string that starts right after the opcode slot. */
  function ParseName(buf: seq<byte>): Name
    requires SLOT_SIZE <= |buf|
  {
    ToChars(CStringAt(buf, SLOT_SIZE))
  }

  /** A byte-string name shorter than 8 bytes without NUL is copied with its terminator and parses back. */
  lemma ParseNamedHeaderName(buf: seq<byte>, op: u32, name: Name, f1: u32, f2: u32, f3: u32, f4: u32)
    requires TENSOR_HDR_SIZE <= |buf|
    requires |name| < TENSOR_NAME_SIZE && ByteString(name) && NoNul(name)
    ensures ParseName(NamedHeader(buf, op, name, f1, f2, f3, f4)) == name
  {
    var r := NamedHeader(buf, op, name, f1, f2, f3, f4);
    NamedHeaderLayout(buf, op, name, f1, f2, f3, f4);
    var nb := ToBytes(name);
    assert NameImage(name)[..|nb|] == nb;
    assert NameImage(name)[|nb|] == 0;
    assert r[4 .. 4 + |nb|] == nb by {
      assert r[4 .. 4 + |nb|] == r[4..12][..|nb|];
    }
    assert r[4 + |nb|] == r[4..12][|nb|];
    CStringAtIs(r, 4, nb);
    CharsOfBytes(name);
  }

  /**
   * An 8-byte name has no terminator inside the name region: it parses back
   * exactly when the byte after it (the low byte of field1) is NUL.
   */
  lemma ParseFullWidthName(buf: seq<byte>, op: u32, name: Name, f1: u32, f2: u32, f3: u32, f4: u32)
    requires TENSOR_HDR_SIZE <= |buf|
    requires |name| == TENSOR_NAME_SIZE && ByteString(name) && NoNul(name)
    ensures ParseName(NamedHeader(buf, op, name, f1, f2, f3, f4)) == name <==> f1 % 256 == 0
  {
    var r := NamedHeader(buf, op, name, f1, f2, f3, f4);
    NamedHeaderLayout(buf, op, name, f1, f2, f3, f4);
    var nb := ToBytes(name);
    assert NameImage(name) == nb;
    WriteSlotsLayout(WriteBytes(WriteSlot(buf, 0, op), SLOT_SIZE, NameImage(name)), 3, [f1, f2, f3, f4]);
    // The low byte of slot 3 is byte 12.
    assert r[12] == f1 % 256 by {
      var s3 := r[12..16];
      ParseSlotIsDecode(r, 3);
      assert ParseSlot(r, 3) == DecodeLE(s3) == f1;
      EncodeDecode(s3);
      assert s3[0] == r[12];
    }
    var c := CStringAt(r, SLOT_SIZE);
    CStringAtSpec(r, SLOT_SIZE);
    if f1 % 256 == 0 {
      CStringAtIs(r, 4, nb);
      CharsOfBytes(name);
    } else {
      // No NUL at bytes 4..12, so the C string runs past the name region.
      assert r[4..12] == nb;
      assert forall k | 0 <= k < 8 :: r[4 + k] == nb[k] != 0;
      assert r[12] != 0;
      assert |c| > 8;
      assert |ParseName(r)| > |name|;
    }
  }
}
