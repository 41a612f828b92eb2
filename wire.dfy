/**
 * Byte-level serialization used by every header on the wire
 * (`serialize<T>` / `parse<T>` in src/common/utils.hpp and src/utils/utils.h).
 *
 * A buffer is a sequence of bytes; a value of a 4-byte type T is copied
 * with memcpy into slot k, i.e. bytes 4k .. 4k+3, in the host's
 * little-endian order.  Every T the source serializes (unsigned, int32_t,
 * the OP enum) is 4 bytes wide, so slots are 4 bytes here.
 */
module Wire {

  type byte = x: int | 0 <= x < 256
  type u32 = x: int | 0 <= x < 0x1_0000_0000
  type i32 = x: int | -0x8000_0000 <= x < 0x8000_0000

  /** sizeof(unsigned) == sizeof(int32_t) == sizeof(OP) */
  const SLOT_SIZE: nat := 4

  function Pow256(w: nat): (p: nat)
    ensures p >= 1
  {
    if w == 0 then 1 else 256 * Pow256(w - 1)
  }

  /** The w-byte little-endian image of v (low byte first). */
  function EncodeLE(v: nat, w: nat): (s: seq<byte>)
    ensures |s| == w
  {
    if w == 0 then [] else [v % 256] + EncodeLE(v / 256, w - 1)
  }

  /** The value whose little-endian image is s. */
  function DecodeLE(s: seq<byte>): (v: nat)
    ensures v < Pow256(|s|)
  {
    if s == [] then 0 else s[0] + 256 * DecodeLE(s[1..])
  }

  /** Decoding the image of a value that fits in w bytes gives the value back. */
  lemma {:induction false} DecodeEncode(v: nat, w: nat)
    requires v < Pow256(w)
    ensures DecodeLE(EncodeLE(v, w)) == v
  {
    if w > 0 {
      DecodeEncode(v / 256, w - 1);
      assert EncodeLE(v, w)[1..] == EncodeLE(v / 256, w - 1);
    }
  }

  /** Encoding a decoded byte string gives the byte string back. */
  lemma {:induction false} EncodeDecode(s: seq<byte>)
    ensures EncodeLE(DecodeLE(s), |s|) == s
  {
    if s != [] {
      EncodeDecode(s[1..]);
      var v := DecodeLE(s);
      assert v % 256 == s[0] && v / 256 == DecodeLE(s[1..]);
    }
  }

  /** One 4-byte slot holds exactly the u32 values. */
  lemma SlotRange()
    ensures Pow256(SLOT_SIZE) == 0x1_0000_0000
  {
    assert Pow256(4) == 0x1_0000_0000 by {
      assert Pow256(1) == 256;
      assert Pow256(2) == 65536;
      assert Pow256(3) == 16777216;
    }
  }

  /** Two's complement bit pattern of an int32 (what memcpy copies), and back. */
  function I32Bits(x: i32): (u: u32)
    ensures x >= 0 ==> u == x
    ensures x < 0 ==> u == x + 0x1_0000_0000
  {
    if x < 0 then x + 0x1_0000_0000 else x
  }

  function I32OfBits(u: u32): (x: i32)
    ensures I32Bits(x) == u
  {
    if u < 0x8000_0000 then u else u - 0x1_0000_0000
  }

  lemma I32RoundTrip(x: i32)
    ensures I32OfBits(I32Bits(x)) == x
  {
  }

  /** The conversion C++ applies when an int is stored into an unsigned. */
  function ToU32(x: int): (u: u32)
    ensures 0 <= x < 0x1_0000_0000 ==> u == x
    ensures (u - x) % 0x1_0000_0000 == 0
  {
    x % 0x1_0000_0000
  }

  // ---------------------------------------------------------------------------
  // Slots of a buffer
  // ---------------------------------------------------------------------------

  /** A freshly allocated message buffer of n bytes, taken to be zero-filled. */
  function Zeros(n: nat): (z: seq<byte>)
    ensures |z| == n && forall i | 0 <= i < n :: z[i] == 0
  {
    seq(n, _ => 0)
  }

  /** Allocates a message buffer of n bytes (zmq::message_t(n)). */
  method NewBuffer(n: nat) returns (a: array<byte>)
    ensures fresh(a) && a[..] == Zeros(n)
  {
    a := new byte[n](_ => 0);
  }

  /** The buffer after `serialize<T>(buf, k, v)`: bytes 4k..4k+3 hold v. */
  function WriteSlot(buf: seq<byte>, k: nat, v: u32): (r: seq<byte>)
    requires 4 * k + 4 <= |buf|
    ensures |r| == |buf|
  {
    buf[..4 * k] + EncodeLE(v, SLOT_SIZE) + buf[4 * k + 4..]
  }

  /** `parse<T>(buf, k)`: the value held by bytes 4k..4k+3. */
  function ParseSlot(buf: seq<byte>, k: nat): (v: u32)
    requires 4 * k + 4 <= |buf|
  {
    buf[4 * k] as int + 256 * buf[4 * k + 1] as int + 65536 * buf[4 * k + 2] as int
      + 16777216 * buf[4 * k + 3] as int
  }

  /** The slot's value is the little-endian decoding of its four bytes. */
  lemma ParseSlotIsDecode(buf: seq<byte>, k: nat)
    requires 4 * k + 4 <= |buf|
    ensures ParseSlot(buf, k) == DecodeLE(buf[4 * k .. 4 * k + 4])
  {
    var s := buf[4 * k .. 4 * k + 4];
    assert s[3..][1..] == [];
    assert DecodeLE(s[3..]) == s[3];
    assert s[2..][1..] == s[3..];
    assert DecodeLE(s[2..]) == s[2] as int + 256 * s[3] as int;
    assert s[1..][1..] == s[2..];
    assert DecodeLE(s[1..]) == s[1] as int + 256 * s[2] as int + 65536 * s[3] as int;
    assert s[0..][1..] == s[1..];
  }

  /** serialize at slot k changes bytes 4k..4k+3 only, and they become v's image. */
  lemma WriteSlotAt(buf: seq<byte>, k: nat, v: u32)
    requires 4 * k + 4 <= |buf|
    ensures |WriteSlot(buf, k, v)| == |buf|
    ensures WriteSlot(buf, k, v)[4 * k .. 4 * k + 4] == EncodeLE(v, SLOT_SIZE)
    ensures forall i | 0 <= i < |buf| && !(4 * k <= i < 4 * k + 4) :: WriteSlot(buf, k, v)[i] == buf[i]
  {
    var r := WriteSlot(buf, k, v);
    assert r[4 * k .. 4 * k + 4] == EncodeLE(v, SLOT_SIZE);
  }

  /** parse after serialize at the same slot returns the value written. */
  lemma ParseWriteSlot(buf: seq<byte>, k: nat, v: u32)
    requires 4 * k + 4 <= |buf|
    ensures ParseSlot(WriteSlot(buf, k, v), k) == v
  {
    WriteSlotAt(buf, k, v);
    SlotRange();
    DecodeEncode(v, SLOT_SIZE);
    ParseSlotIsDecode(WriteSlot(buf, k, v), k);
  }

  /** serialize at slot k leaves every other slot's value as it was. */
  lemma ParseWriteOtherSlot(buf: seq<byte>, k: nat, j: nat, v: u32)
    requires 4 * k + 4 <= |buf| && 4 * j + 4 <= |buf| && j != k
    ensures ParseSlot(WriteSlot(buf, k, v), j) == ParseSlot(buf, j)
  {
    WriteSlotAt(buf, k, v);
    var r := WriteSlot(buf, k, v);
    assert r[4 * j .. 4 * j + 4] == buf[4 * j .. 4 * j + 4];
  }

  /** serialize<T>(buf, k, v): memcpy of v's 4 bytes to offset 4k of buf. */
  method Serialize(buf: array<byte>, k: nat, v: u32)
    requires 4 * k + 4 <= buf.Length
    modifies buf
    ensures buf[..] == WriteSlot(old(buf[..]), k, v)
  {
    var image := EncodeLE(v, SLOT_SIZE);
    var i := 0;
    while i < SLOT_SIZE
      invariant 0 <= i <= SLOT_SIZE
      invariant forall j | 0 <= j < buf.Length ::
        buf[j] == if 4 * k <= j < 4 * k + i then image[j - 4 * k] else old(buf[j])
    {
      buf[4 * k + i] := image[i];
      i := i + 1;
    }
    WriteSlotAt(old(buf[..]), k, v);
    assert buf[..] == WriteSlot(old(buf[..]), k, v);
  }

  /** Consecutive serialize calls: vs[i] goes to slot start+i. */
  function WriteSlots(buf: seq<byte>, start: nat, vs: seq<u32>): (r: seq<byte>)
    requires 4 * (start + |vs|) <= |buf|
    ensures |r| == |buf|
    decreases |vs|
  {
    if vs == [] then buf else WriteSlots(WriteSlot(buf, start, vs[0]), start + 1, vs[1..])
  }

  lemma WriteSlotsCons(buf: seq<byte>, start: nat, v: u32, vs: seq<u32>)
    requires 4 * (start + 1 + |vs|) <= |buf|
    ensures WriteSlots(buf, start, [v] + vs) == WriteSlots(WriteSlot(buf, start, v), start + 1, vs)
  {
    assert ([v] + vs)[0] == v && ([v] + vs)[1..] == vs;
  }

  /**
   * After WriteSlots every written slot holds its value, and every byte
   * outside the written slots is as it was.
   */
  lemma {:induction false} WriteSlotsLayout(buf: seq<byte>, start: nat, vs: seq<u32>)
    requires 4 * (start + |vs|) <= |buf|
    ensures |WriteSlots(buf, start, vs)| == |buf|
    ensures forall i | 0 <= i < |vs| :: ParseSlot(WriteSlots(buf, start, vs), start + i) == vs[i]
    ensures forall j | 0 <= j < |buf| && !(4 * start <= j < 4 * (start + |vs|)) ::
      WriteSlots(buf, start, vs)[j] == buf[j]
    decreases |vs|
  {
    if vs != [] {
      var b1 := WriteSlot(buf, start, vs[0]);
      WriteSlotAt(buf, start, vs[0]);
      WriteSlotsLayout(b1, start + 1, vs[1..]);
      var r := WriteSlots(buf, start, vs);
      assert r == WriteSlots(b1, start + 1, vs[1..]);
      forall i | 0 <= i < |vs| ensures ParseSlot(r, start + i) == vs[i] {
        if i == 0 {
          ParseWriteSlot(buf, start, vs[0]);
          assert r[4 * start .. 4 * start + 4] == b1[4 * start .. 4 * start + 4];
        } else {
          assert vs[1..][i - 1] == vs[i];
        }
      }
    }
  }

  /** memcpy of src to offset off of buf. */
  function WriteBytes(buf: seq<byte>, off: nat, src: seq<byte>): (r: seq<byte>)
    requires off + |src| <= |buf|
    ensures |r| == |buf|
    ensures r[off .. off + |src|] == src
    ensures forall j | 0 <= j < |buf| && !(off <= j < off + |src|) :: r[j] == buf[j]
  {
    var r := buf[..off] + src + buf[off + |src|..];
    assert r[off .. off + |src|] == src;
    r
  }

  /** memcpy(buf + off, src, |src|) */
  method CopyBytes(buf: array<byte>, off: nat, src: seq<byte>)
    requires off + |src| <= buf.Length
    modifies buf
    ensures buf[..] == WriteBytes(old(buf[..]), off, src)
  {
    var i := 0;
    while i < |src|
      invariant 0 <= i <= |src|
      invariant forall j | 0 <= j < buf.Length ::
        buf[j] == if off <= j < off + i then src[j - off] else old(buf[j])
    {
      buf[off + i] := src[i];
      i := i + 1;
    }
    assert buf[..] == WriteBytes(old(buf[..]), off, src);
  }

  // ---------------------------------------------------------------------------
  // Byte strings and C strings
  // ---------------------------------------------------------------------------

  /** A std::string of the source: a sequence of characters, each meant to be one byte. */
  type Name = string

  /** Every character of s fits in one byte. */
  predicate ByteString(s: string) {
    forall i | 0 <= i < |s| :: s[i] as int < 256
  }

  /** The bytes of a string: each character's low byte. */
  function ToBytes(s: Name): (b: seq<byte>)
    ensures |b| == |s|
    ensures forall i | 0 <= i < |s| :: b[i] == s[i] as int % 256
  {
    seq(|s|, i requires 0 <= i < |s| => s[i] as int % 256)
  }

  /** The string whose characters are the given bytes. */
  function ToChars(b: seq<byte>): (s: Name)
    ensures |s| == |b|
  {
    seq(|b|, i requires 0 <= i < |b| => b[i] as char)
  }

  lemma ToCharsAt(b: seq<byte>)
    ensures ByteString(ToChars(b))
    ensures forall i | 0 <= i < |b| :: ToChars(b)[i] as int == b[i]
  {
  }

  lemma ToCharsCons(x: byte, b: seq<byte>)
    ensures ToChars([x] + b) == [x as char] + ToChars(b)
  {
    ToCharsAt([x] + b);
    ToCharsAt(b);
    assert forall i | 0 <= i < 1 + |b| :: ToChars([x] + b)[i] == ([x as char] + ToChars(b))[i];
  }

  /** A byte string survives conversion to bytes and back. */
  lemma CharsOfBytes(s: Name)
    requires ByteString(s)
    ensures ToChars(ToBytes(s)) == s
  {
    var t := ToChars(ToBytes(s));
    ToCharsAt(ToBytes(s));
    forall i | 0 <= i < |s| ensures t[i] == s[i] {
      assert t[i] as int == s[i] as int;
    }
  }

  /** No character is NUL, so the whole string survives a C-string copy. */
  predicate NoNul(s: string) {
    forall i | 0 <= i < |s| :: s[i] != 0 as char
  }

  /** The bytes of b starting at offset i, up to (not including) the first NUL. */
  function CStringAt(b: seq<byte>, i: nat): (s: seq<byte>)
    requires i <= |b|
    ensures i + |s| <= |b|
    decreases |b| - i
  {
    if i == |b| || b[i] == 0 then [] else [b[i]] + CStringAt(b, i + 1)
  }

  /** The C string read at i is the run of non-NUL bytes there, ended by a NUL or the buffer's end. */
  lemma {:induction false} CStringAtSpec(b: seq<byte>, i: nat)
    requires i <= |b|
    ensures var s := CStringAt(b, i);
      s == b[i .. i + |s|] &&
      (forall j | 0 <= j < |s| :: s[j] != 0) &&
      (i + |s| < |b| ==> b[i + |s|] == 0)
    decreases |b| - i
  {
    if i < |b| && b[i] != 0 {
      CStringAtSpec(b, i + 1);
    }
  }

  /** A C string read at i is s when b holds s there, s has no NUL and a NUL (or the end) follows. */
  lemma {:induction false} CStringAtIs(b: seq<byte>, i: nat, s: seq<byte>)
    requires i + |s| <= |b|
    requires b[i .. i + |s|] == s
    requires forall j | 0 <= j < |s| :: s[j] != 0
    requires i + |s| == |b| || b[i + |s|] == 0
    ensures CStringAt(b, i) == s
    decreases |s|
  {
    if s != [] {
      assert b[i] == s[0];
      assert b[i + 1 .. i + 1 + |s[1..]|] == s[1..];
      CStringAtIs(b, i + 1, s[1..]);
    }
  }
}
