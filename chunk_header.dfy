/**
 * The chunk descriptor a lambda carries and the chunk header
 * `populateHeader(header, op, chunk)` of the GCN network operations
 * (src/funcs/gcn/ops/network_ops.hpp), with that file's configuration.
 */
module ChunkHeader {
  import opened Wire
  import opened Headers

  /** Receive timeout of the lambda sockets, in milliseconds. */
  const TIMEOUT_PERIOD: nat := 2000
  const SND_MORE: bool := true
  const NO_MORE: bool := false
  /** Whether reqTensors retries after an empty reply. */
  const RESEND: bool := false
  /** The default of sendTensors's `ack` parameter. */
  const ACK_DEFAULT: bool := false

  /** The fields of a chunk the lambda handlers read and write. */
  datatype Chunk = Chunk(localId: u32, globalId: u32, lowBound: u32, upBound: u32,
                         layer: u32, dir: u32, epoch: u32, vertex: bool)

  /**
   * The header after the chunk populateHeader: op in bytes 0..3, then the raw
   * bytes of the Chunk struct. The struct's layout is not part of this model,
   * so its bytes are the parameter `chunkBytes`.
   */
  function ChunkHeaderBytes(buf: seq<byte>, op: u32, chunkBytes: seq<byte>): (h: seq<byte>)
    requires SLOT_SIZE + |chunkBytes| <= |buf|
    ensures |h| == |buf|
    ensures ParseSlot(h, 0) == op
    ensures h[SLOT_SIZE .. SLOT_SIZE + |chunkBytes|] == chunkBytes
    ensures forall j | SLOT_SIZE + |chunkBytes| <= j < |buf| :: h[j] == buf[j]
  {
    WriteSlotAt(buf, 0, op);
    ParseWriteSlot(buf, 0, op);
    var b1 := WriteSlot(buf, 0, op);
    var h := WriteBytes(b1, SLOT_SIZE, chunkBytes);
    assert h[0..4] == b1[0..4];
    h
  }

  /** populateHeader(void* header, unsigned op, Chunk& chunk) */
  method PopulateChunkHeader(header: array<byte>, op: u32, chunkBytes: seq<byte>)
    requires SLOT_SIZE + |chunkBytes| <= header.Length
    modifies header
    ensures header[..] == ChunkHeaderBytes(old(header[..]), op, chunkBytes)
  {
    Serialize(header, 0, op);
    ghost var b1 := header[..];
    var i := 0;
    while i < |chunkBytes|
      invariant 0 <= i <= |chunkBytes|
      invariant forall j | 0 <= j < header.Length ::
        header[j] == if SLOT_SIZE <= j < SLOT_SIZE + i then chunkBytes[j - SLOT_SIZE] else b1[j]
    {
      header[SLOT_SIZE + i] := chunkBytes[i];
      i := i + 1;
    }
    assert header[..] == WriteBytes(b1, SLOT_SIZE, chunkBytes);
  }

  /** A chunk header sent by a lambda is a fresh HEADER_SIZE message. */
  function ChunkHeaderMsg(op: u32, chunkBytes: seq<byte>): (h: seq<byte>)
    requires SLOT_SIZE + |chunkBytes| <= HEADER_SIZE
    ensures |h| == HEADER_SIZE && ParseSlot(h, 0) == op
  {
    ChunkHeaderBytes(Zeros(HEADER_SIZE), op, chunkBytes)
  }
}
