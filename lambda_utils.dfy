/**
 * The lambda-side wire helpers and Matrix struct (src/utils/utils.h): a
 * 20-byte header of int32 slots, a four-value opcode enum, and a matrix
 * that knows its dimensions.
 */
module LambdaUtils {
  import opened Wire
  import opened Wrappers
  import opened Decimal

  /** sizeof(int32_t) * 5 */
  const HEADER_SIZE: nat := SLOT_SIZE * 5
  /** sizeof(DTYPE), DTYPE being float */
  const DTYPE_SIZE: nat := 4

  datatype Op = PUSH | PULL | REQ | RESP

  function Code(op: Op): (c: i32)
    ensures 0 <= c < 4
  {
    match op
    case PUSH => 0
    case PULL => 1
    case REQ => 2
    case RESP => 3
  }

  function OpOfCode(c: i32): (r: Option<Op>)
    ensures r.Some? <==> 0 <= c < 4
    ensures r.Some? ==> Code(r.value) == c
  {
    if c == 0 then Some(PUSH) else if c == 1 then Some(PULL)
    else if c == 2 then Some(REQ) else if c == 3 then Some(RESP) else None
  }

  /** `serialize<int32_t>(buf, k, v)`: the two's-complement bits of v in slot k. */
  method SerializeI32(buf: array<byte>, k: nat, v: i32)
    requires 4 * k + 4 <= buf.Length
    modifies buf
    ensures buf[..] == WriteSlot(old(buf[..]), k, I32Bits(v))
  {
    Serialize(buf, k, I32Bits(v));
  }

  /** The int32 at slot k. */
  function ParseI32(buf: seq<byte>, k: nat): i32
    requires 4 * k + 4 <= |buf|
  {
    I32OfBits(ParseSlot(buf, k))
  }

  /** Reading slot k back after serializing v there gives v; other bytes keep their value. */
  lemma ParseSerializeI32(buf: seq<byte>, k: nat, v: i32)
    requires 4 * k + 4 <= |buf|
    ensures ParseI32(WriteSlot(buf, k, I32Bits(v)), k) == v
    ensures forall j | 0 <= j < |buf| && !(4 * k <= j < 4 * k + 4) :: WriteSlot(buf, k, I32Bits(v))[j] == buf[j]
  {
    ParseWriteSlot(buf, k, I32Bits(v));
    WriteSlotAt(buf, k, I32Bits(v));
    I32RoundTrip(v);
  }

  /** The buffer after `populateHeader(header, op, id, rows, cols)`. */
  function Header(buf: seq<byte>, op: i32, id: i32, rows: i32, cols: i32): (h: seq<byte>)
    requires 4 * 4 <= |buf|
    ensures |h| == |buf|
  {
    var vs := [I32Bits(op), I32Bits(id), I32Bits(rows), I32Bits(cols)];
    WriteSlotsLayout(buf, 0, vs);
    WriteSlots(buf, 0, vs)
  }

  /** op, id, rows and cols sit in int32 slots 0..3; slot 4 of the header is untouched. */
  lemma HeaderLayout(buf: seq<byte>, op: i32, id: i32, rows: i32, cols: i32)
    requires HEADER_SIZE <= |buf|
    ensures ParseI32(Header(buf, op, id, rows, cols), 0) == op
    ensures ParseI32(Header(buf, op, id, rows, cols), 1) == id
    ensures ParseI32(Header(buf, op, id, rows, cols), 2) == rows
    ensures ParseI32(Header(buf, op, id, rows, cols), 3) == cols
    ensures Header(buf, op, id, rows, cols)[16..20] == buf[16..20]
  {
    var vs := [I32Bits(op), I32Bits(id), I32Bits(rows), I32Bits(cols)];
    WriteSlotsLayout(buf, 0, vs);
    I32RoundTrip(op);
    I32RoundTrip(id);
    I32RoundTrip(rows);
    I32RoundTrip(cols);
    assert vs[0] == I32Bits(op) && vs[1] == I32Bits(id) && vs[2] == I32Bits(rows) && vs[3] == I32Bits(cols);
  }

  /** populateHeader(header, op, id, rows = 0, cols = 0) */
  method PopulateHeader(header: array<byte>, op: i32, id: i32, rows: i32 := 0, cols: i32 := 0)
    requires 4 * 4 <= header.Length
    modifies header
    ensures header[..] == Header(old(header[..]), op, id, rows, cols)
  {
    ghost var b0 := header[..];
    SerializeI32(header, 0, op);
    SerializeI32(header, 1, id);
    SerializeI32(header, 2, rows);
    SerializeI32(header, 3, cols);
    ghost var b1 := WriteSlot(b0, 0, I32Bits(op));
    ghost var b2 := WriteSlot(b1, 1, I32Bits(id));
    ghost var b3 := WriteSlot(b2, 2, I32Bits(rows));
    WriteSlotsCons(b0, 0, I32Bits(op), [I32Bits(id), I32Bits(rows), I32Bits(cols)]);
    WriteSlotsCons(b1, 1, I32Bits(id), [I32Bits(rows), I32Bits(cols)]);
    WriteSlotsCons(b2, 2, I32Bits(rows), [I32Bits(cols)]);
    WriteSlotsCons(b3, 3, I32Bits(cols), []);
  }

  /** "(" + rows + "," + cols + ")" */
  function ShapeString(rows: int, cols: int): string {
    "(" + IntToString(rows) + "," + IntToString(cols) + ")"
  }

  /** Reads a "(r,c)" string back into its two dimensions. */
  function ShapeDims(s: string): Option<(int, int)> {
    if |s| < 2 || s[0] != '(' || s[|s| - 1] != ')' then None
    else
      var inner := s[1..|s| - 1];
      var k := IndexOf(inner, ',');
      if k == |inner| then None
      else match (ParseInt(inner[..k]), ParseInt(inner[k + 1..]))
        case (Some(r), Some(c)) => Some((r, c))
        case _ => None
  }

  /** The shape string names both dimensions unambiguously. */
  lemma ShapeDimsOfString(rows: int, cols: int)
    ensures ShapeDims(ShapeString(rows, cols)) == Some((rows, cols))
  {
    var a := IntToString(rows);
    var b := IntToString(cols);
    var s := ShapeString(rows, cols);
    var inner := s[1..|s| - 1];
    assert inner == a + [','] + b;
    IndexOfAfter(a, ',', b);
    assert inner[..|a|] == a;
    assert inner[|a| + 1..] == b;
    ParseIntToString(rows);
    ParseIntToString(cols);
  }

  /** struct Matrix: int32 dimensions and an owned element buffer (null when absent). */
  class Matrix {
    var rows: i32
    var cols: i32
    var data: Option<seq<int>>

    /** Matrix(): 0 x 0, no data. */
    constructor ()
      ensures rows == 0 && cols == 0 && data == None
      ensures Empty()
    {
      rows := 0;
      cols := 0;
      data := None;
    }

    /** Matrix(_rows, _cols) */
    constructor OfDims(r: i32, c: i32)
      ensures rows == r && cols == c && data == None
    {
      rows := r;
      cols := c;
      data := None;
    }

    /** Matrix(_rows, _cols, _data), for both the DTYPE* and the char* buffer. */
    constructor OfData(r: i32, c: i32, d: seq<int>)
      ensures rows == r && cols == c && data == Some(d)
    {
      rows := r;
      cols := c;
      data := Some(d);
    }

    /** rows * cols * sizeof(DTYPE) */
    function GetDataSize(): (n: int)
      reads this
      ensures n == 0 <==> Empty()
      ensures n % DTYPE_SIZE == 0
      ensures rows >= 0 && cols >= 0 ==> n >= 0
    {
      rows as int * cols as int * DTYPE_SIZE
    }

    method SetRows(r: i32)
      modifies this
      ensures rows == r && cols == old(cols) && data == old(data)
    {
      rows := r;
    }

    method SetCols(c: i32)
      modifies this
      ensures cols == c && rows == old(rows) && data == old(data)
    {
      cols := c;
    }

    method SetDims(r: i32, c: i32)
      modifies this
      ensures rows == r && cols == c && data == old(data)
    {
      rows := r;
      cols := c;
    }

    method SetData(d: seq<int>)
      modifies this
      ensures data == Some(d) && rows == old(rows) && cols == old(cols)
    {
      data := Some(d);
    }

    predicate Empty()
      reads this
    {
      rows == 0 || cols == 0
    }

    /** shape(): "(rows,cols)", from which both dimensions can be read back. */
    function Shape(): (s: string)
      reads this
      ensures ShapeDims(s) == Some((rows as int, cols as int))
      ensures s[0] == '(' && s[|s| - 1] == ')'
    {
      ShapeDimsOfString(rows as int, cols as int);
      ShapeString(rows as int, cols as int)
    }
  }
}
