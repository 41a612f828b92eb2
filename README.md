# Dorylus core, modelled in Dafny

This project models the communication and bookkeeping core of Dorylus, a
system that trains graph neural networks with graph servers, weight
servers, and serverless lambdas or GPU servers for the tensor work. The
model covers the following parts. Each is one Dafny module, and each
module follows one source file:

- **The wire codec:** fixed-width 32-bit header slots, the control and
  named-tensor headers, and the int32 headers and `Matrix` record that
  the lambdas use. Modules: `Wire`, `Headers`, `LambdaUtils`, `ChunkHeader`.
- **The named-tensor protocol:** a lambda requests tensors by name with
  a capped exponential backoff, receives (header, payload) pairs, pushes
  results and reads ACKs. Modules: `Transport`, `Protocol`.
- **The weight server's worker:** opcode dispatch, the pull reply with
  its "unavailable" sentinel, update accumulation and the `applyUpdate`
  trigger, the tensor store, and termination. Module: `WeightWorker`.
- **The standalone weight server:** reading the dimension line, the
  layer shapes, and the pull-only worker. Module: `WeightServer`.
- **The GAT lambda handler:** dispatch on (vertex, direction), the
  error-sentinel classification, the empty-tensor checks, which tensors
  each handler sends back, the socket identity layout, and the mapping
  from payload to chunk. Module: `GatHandler`.
- **The graph partition and the aggregate benchmark:** append-only ghost
  histories, compaction, the neighbour-sum update, and the writer's line
  format. Modules: `Graph`, `Aggregate`.
- **The engine's bookkeeping:** sizes derived from the layer
  configuration and the staleness bound, node 0's weight communicator,
  the lambda name, what `destroy` frees, the `run` dispatch, the pipeline's
  thread pools and its final drain, and the `ResourceComm` backend
  interface. Modules: `Engine`, `ResourceComm`.
- **The GPU request framing:** the computing server's request loop, its
  weight pull and feature read, the address file, server selection by
  `nodeId % count`, and the graph server's side of the exchange. Modules:
  `CompServer`, `GpuComm`.

Sockets are modelled as a stream of incoming frames, each carrying a "more"
bit, plus the list of frames sent. Each protocol operation has two parts:

- a specification function over the stream and the position of the next
  frame to read;
- a method on the socket that is proved to read and send exactly what
  that function says.

Objects whose fields the source updates in place are classes whose
methods are proved against those functions: the weight server's worker,
the graph, the engine, the computing server and the GPU communicator.
The feature type `FeatType` is `int`. Unsigned and int32 arithmetic is
written out modulo 2^32 wherever the source wraps.

## Model

| member | source | states |
|---|---|---|
| Wire.DecodeEncode | src/common/utils.hpp:49-59 | decoding the w-byte little-endian image of any value below 256^w gives the value back (parse after the memcpy of serialize) |
| Wire.EncodeDecode | src/common/utils.hpp:53-59 | re-encoding the value read from a byte string reproduces the byte string |
| Wire.SlotRange | src/common/utils.hpp:49-51 | a four-byte slot holds exactly the 2^32 unsigned values |
| Wire.I32Bits | src/utils/utils.h:9-12 | an int32 is copied as its two's complement bit pattern: itself when non-negative, itself plus 2^32 when negative |
| Wire.I32OfBits | src/utils/utils.h:9-12 | every 32-bit pattern is the pattern of some int32 |
| Wire.I32RoundTrip | src/utils/utils.h:9-12 | reading an int32 back from its bit pattern gives the int32 |
| Wire.ToU32 | src/graph-server/engine/engine.cpp:133-140 | storing an int into an unsigned keeps it when it fits and is otherwise congruent to it modulo 2^32 |
| Wire.Zeros | src/common/utils.hpp:30 | a fresh buffer of n bytes holds n zero bytes |
| Wire.ParseSlotIsDecode | src/common/utils.hpp:53-59 | parse<unsigned>(buf, k) is the little-endian value of bytes 4k..4k+3 |
| Wire.WriteSlotAt | src/common/utils.hpp:48-51 | serialize at slot k puts v's four-byte image at bytes 4k..4k+3 and leaves every other byte as it was |
| Wire.ParseWriteSlot | src/common/utils.hpp:48-59 | parse after serialize at the same slot returns the value written |
| Wire.ParseWriteOtherSlot | src/common/utils.hpp:48-59 | serialize at slot k leaves the value of every other slot unchanged |
| Wire.Serialize | src/common/utils.hpp:48-51 | the array after serialize is the old contents with slot k replaced by v's image |
| Wire.WriteSlotsCons | src/common/utils.hpp:68-74 | writing a run of slots is writing the first slot and then the rest |
| Wire.WriteSlotsLayout | src/common/utils.hpp:68-74 | after consecutive serialize calls every written slot parses to its value and every byte outside the written slots is unchanged |
| Wire.WriteBytes | src/common/utils.hpp:91 | memcpy puts the source bytes at the offset and leaves every other byte unchanged |
| Wire.CopyBytes | src/common/utils.hpp:91 | the array after the copy loop equals the memcpy of the source at the offset |
| Wire.ToBytes | src/common/utils.hpp:91 | a string's bytes are its characters' low bytes, one per character |
| Wire.ToCharsAt | src/common/utils.hpp:61-64 | the string built from bytes has exactly those bytes as characters |
| Wire.CharsOfBytes | src/common/utils.hpp:61-64 | a byte string survives conversion to bytes and back |
| Wire.CStringAtSpec | src/common/utils.hpp:61-64 | the C string read at an offset is the run of non-NUL bytes there, ended by a NUL or the end of the buffer |
| Wire.CStringAtIs | src/common/utils.hpp:61-64 | when the buffer holds NUL-free bytes s at an offset followed by a NUL (or the end), the C string read there is s |
| Wire.EncodeLE | src/common/utils.hpp:48-51 | the image of a value in w bytes is w bytes long |
| Wire.DecodeLE | src/common/utils.hpp:53-59 | the value of w bytes is below 256^w |
| Wire.WriteSlot | src/common/utils.hpp:48-51 | serialize at a slot keeps the buffer's length |
| Wire.NewBuffer | src/common/utils.hpp:30 | a new header buffer is fresh and zero-filled |
| Headers.Code | src/common/utils.hpp:31-33 | every opcode is below 15 and differs from ERR_HEADER_FIELD (UINT_MAX, line 39) |
| Headers.OpOfCode | src/common/utils.hpp:31-33 | a slot value names an opcode exactly when it is below 15, and then it is that opcode's value |
| Headers.CodeRoundTrip | src/common/utils.hpp:31-33 | the opcode values are distinct and each reads back as its opcode |
| Headers.ControlHeaderLayout | src/common/utils.hpp:68-84 | the control header holds op in slot 0 and field1..field4 in slots 1..4, and every byte past slot 4 is unchanged |
| Headers.PopulateHeader | src/common/utils.hpp:67-84 | both control populateHeader overloads leave the buffer equal to the control header image, so they produce identical bytes |
| Headers.NameImage | src/common/utils.hpp:91 | the copied name region is exactly TENSOR_NAME_SIZE = 8 bytes |
| Headers.NamedHeaderLayout | src/common/utils.hpp:86-96 | the named header holds op in slot 0, the 8 name bytes at bytes 4..11, field1..field4 in slots 3..6, and nothing past TENSOR_HDR_SIZE changes |
| Headers.PopulateNamedHeader | src/common/utils.hpp:86-96 | the buffer after the named populateHeader is the named header image |
| Headers.ParseNamedHeaderName | src/common/utils.hpp:61-64 | a NUL-free name shorter than 8 bytes is copied with its terminator and parseName reads it back |
| Headers.ParseFullWidthName | src/common/utils.hpp:61-64 | an 8-byte name has no terminator in the name region: parseName reads it back exactly when field1's low byte is 0 |
| ChunkHeader.ChunkHeaderBytes | src/funcs/gcn/ops/network_ops.hpp:32-37 | the chunk header holds op in bytes 0..3, the chunk's raw bytes from byte 4 on, and leaves every later byte unchanged |
| ChunkHeader.PopulateChunkHeader | src/funcs/gcn/ops/network_ops.hpp:32-37 | the buffer after the chunk populateHeader is the chunk header image |
| ChunkHeader.ChunkHeaderMsg | src/funcs/gcn/ops/network_ops.hpp:32-37 | a chunk header message is HEADER_SIZE bytes long with op in slot 0 |
| LambdaUtils.Code | src/utils/utils.h:6 | the OP enum values are PUSH=0, PULL=1, REQ=2, RESP=3 |
| LambdaUtils.OpOfCode | src/utils/utils.h:6 | a value names an OP exactly when it is in 0..3, and then it is that OP's value |
| LambdaUtils.SerializeI32 | src/utils/utils.h:9-12 | serialize<int32_t> writes the value's two's complement pattern into slot k |
| LambdaUtils.ParseSerializeI32 | src/utils/utils.h:9-12 | the int32 read back from slot k is the value written, and only bytes 4k..4k+3 change |
| LambdaUtils.HeaderLayout | src/utils/utils.h:5-22 | populateHeader puts op, id, rows, cols in int32 slots 0..3 and leaves slot 4 of the 20-byte header untouched |
| LambdaUtils.PopulateHeader | src/utils/utils.h:16-22 | the buffer after populateHeader is the header image |
| LambdaUtils.ShapeDimsOfString | src/utils/utils.h:75-77 | the dimensions read back from "(rows,cols)" are rows and cols |
| LambdaUtils.Matrix.constructor | src/utils/utils.h:41-44 | a default matrix is 0x0 with no data, hence empty |
| LambdaUtils.Matrix.OfDims | src/utils/utils.h:46-49 | the dimension constructor sets rows and cols and no data |
| LambdaUtils.Matrix.OfData | src/utils/utils.h:51-63 | the data constructors set rows, cols and the data |
| LambdaUtils.Matrix.GetDataSize | src/utils/utils.h:66 | the data size is zero exactly when the matrix is empty, is a multiple of sizeof(DTYPE), and is non-negative for non-negative dimensions |
| LambdaUtils.Matrix.SetRows | src/utils/utils.h:68 | setRows changes rows only |
| LambdaUtils.Matrix.SetCols | src/utils/utils.h:69 | setCols changes cols only |
| LambdaUtils.Matrix.SetDims | src/utils/utils.h:70 | setDims sets both dimensions and keeps the data |
| LambdaUtils.Matrix.SetData | src/utils/utils.h:71 | setData replaces the data and keeps the dimensions |
| LambdaUtils.Matrix.Shape | src/utils/utils.h:75-77 | shape() is parenthesised and reads back as (rows, cols) |
| Headers.ControlHeader | src/common/utils.hpp:67-84 | populating a control header keeps the buffer's length |
| Headers.NamedHeader | src/common/utils.hpp:86-96 | populating a named header keeps the buffer's length |
| LambdaUtils.Header | src/utils/utils.h:16-22 | populating a header keeps the buffer's length |
| Decimal.DigitChar | src/utils/utils.h:75-77 | each digit is printed as the character whose offset from '0' is its value |
| Decimal.NatToString | src/benchmarks/aggregate.cpp:72-76 | a printed natural number is a run of decimal digits without a leading zero |
| Decimal.IntToString | src/utils/utils.h:75-77 | std::to_string of an int is non-empty, starts with '-' exactly when the int is negative, and holds none of the separators ',', ')', ' ', '\|' |
| Decimal.NatToStringValue | src/benchmarks/aggregate.cpp:72-76 | the digits printed for n have value n |
| Decimal.ParseInt | src/utils/utils.h:75-77 | only a non-empty text reads as a number |
| Decimal.ParseIntToString | src/utils/utils.h:75-77 | reading back a printed int gives the int |
| Decimal.IndexOf | src/benchmarks/aggregate.cpp:72-76 | the position found is the first occurrence of the character, or the length when it does not occur |
| Decimal.IndexOfAfter | src/benchmarks/aggregate.cpp:72-76 | in a + c + b, where a lacks c, the first c is at \|a\| |
| Transport.HeaderBytes | src/funcs/john-gcn/ops/network_ops.cpp:5-11 | a header buffer receiving a frame holds the frame's bytes, and is at least the buffer's size |
| Transport.HeaderBytesAt | src/funcs/john-gcn/ops/network_ops.cpp:5-11 | each byte of the received header is the frame's byte there, read as zero past the frame's end |
| Transport.HeaderSlotIs | src/funcs/john-gcn/ops/network_ops.cpp:11 | parse<unsigned> on the received header buffer is the frame's slot value |
| Transport.Socket.constructor | src/funcs/john-gcn/ops/network_ops.cpp:4-34 | a socket starts at its first incoming frame with nothing sent |
| Transport.Socket.Send | src/funcs/john-gcn/ops/network_ops.cpp:117-122 | send appends exactly one frame with its more flag and does not move the read position |
| Transport.Socket.Recv | src/funcs/john-gcn/ops/network_ops.cpp:8-10 | recv succeeds exactly when a frame is left, returns it and records its more flag; otherwise nothing changes |
| Protocol.HeaderNameIs | src/common/utils.hpp:61-64 | parseName on a received tensor header is the C string from byte 4 of the frame |
| Protocol.CStringFrom | src/common/utils.hpp:61-64 | the C string at any offset of the received header buffer is the name read straight from the frame |
| Protocol.RecvTensorSpec | src/funcs/john-gcn/ops/network_ops.cpp:4-34 | recvTensor returns -1 exactly when a header arrives whose slot 0 is ERR_HEADER_FIELD, and then leaves the matrix unset and reads no payload; otherwise it returns 0 and, when both frames arrive, the matrix is the one named by the header with rows from slot 3, cols from slot 4 and the payload's data |
| Protocol.RecvTensor | src/funcs/john-gcn/ops/network_ops.cpp:4-34 | the method's result, matrix and read position are those of the recvTensor specification, and it sends nothing |
| Protocol.ReplyKept | src/funcs/john-gcn/ops/network_ops.cpp:63-86 | an error and an empty tensor exclude each other, either discards every matrix collected, and a round ending normally keeps at least one matrix |
| Protocol.ReplyNoEmpty | src/funcs/john-gcn/ops/network_ops.cpp:73-85 | a round that ends normally keeps only non-empty matrices |
| Protocol.ReplyLength | src/funcs/john-gcn/ops/network_ops.cpp:65-86 | a round that ends normally reads exactly one header and one payload per matrix kept |
| Protocol.ReplyAt | src/funcs/john-gcn/ops/network_ops.cpp:65-86 | the i-th matrix kept is the one carried by the i-th (header, payload) pair |
| Protocol.ReplyMoreAt | src/funcs/john-gcn/ops/network_ops.cpp:79-84 | every payload but the last kept carries "more" and the last does not |
| Protocol.ReplyInArrivalOrder | src/funcs/john-gcn/ops/network_ops.cpp:65-86 | a normal round keeps the matrices in arrival order, one pair each, with "more" on all but the last |
| Protocol.ErrorFirstDiscards | src/funcs/john-gcn/ops/network_ops.cpp:67-72 | an error header first ends the round with nothing kept after reading that header only |
| Protocol.ReplyStep | src/funcs/john-gcn/ops/network_ops.cpp:80-85 | a non-empty matrix with "more" is appended and receiving goes on |
| Protocol.ReplyLast | src/funcs/john-gcn/ops/network_ops.cpp:80-85 | a non-empty matrix without "more" is appended and ends the round |
| Protocol.ReplyStops | src/funcs/john-gcn/ops/network_ops.cpp:67-79 | an error header or an empty matrix ends the round and discards everything collected |
| Protocol.ReceiveTensors | src/funcs/john-gcn/ops/network_ops.cpp:63-86 | the receive loop returns the matrices, the error and empty flags and the read position of the round's specification |
| Protocol.NextSleep | src/funcs/john-gcn/ops/network_ops.cpp:88-91 | the grown delay never exceeds MAX_PERIOD and, from a delay within the cap, never decreases |
| Protocol.NameFrames | src/funcs/john-gcn/ops/network_ops.cpp:52-61 | one named request frame per name |
| Protocol.NameRequestFields | src/funcs/john-gcn/ops/network_ops.cpp:54-55 | each name request header holds the chunk's localId in slot 0, zero fields, and a short name that parses back |
| Protocol.RequestFramesShape | src/funcs/john-gcn/ops/network_ops.cpp:48-61 | a request is a PULL chunk header with "more", then one named header per requested name in order, all but the last with "more" |
| Protocol.NameFramesAt | src/funcs/john-gcn/ops/network_ops.cpp:52-61 | the i-th name frame requests the i-th name and carries "more" unless it is the last |
| Protocol.AttemptsCounts | src/funcs/john-gcn/ops/network_ops.cpp:47-95 | reqTensors makes at least one and at most the bounded number of attempts, sleeps once between two attempts, and never reads back or past the end |
| Protocol.NoResendOneAttempt | src/funcs/john-gcn/ops/network_ops.cpp:88-94 | without RESEND there is exactly one attempt and no sleep |
| Protocol.AttemptsKeepNonEmpty | src/funcs/john-gcn/ops/network_ops.cpp:63-97 | reqTensors returns either no matrix or only non-empty matrices |
| Protocol.SleepsBounded | src/funcs/john-gcn/ops/network_ops.cpp:39-43 | the delays start at the initial period, stay in [5000, 500000] and never decrease |
| Protocol.RetryStep | src/funcs/john-gcn/ops/network_ops.cpp:88-91 | a retry after an empty round sleeps the current period and continues with the grown one |
| Protocol.FinalStep | src/funcs/john-gcn/ops/network_ops.cpp:92-97 | a round that is not retried is the last attempt and its matrices are returned |
| Protocol.ReqTensors | src/funcs/john-gcn/ops/network_ops.cpp:36-102 | the matrices, the delays slept and the read position are those of the attempts specification, and the request frames are sent once per attempt |
| Protocol.Round | src/funcs/john-gcn/ops/network_ops.cpp:47-95 | one pass of the outer loop sends one request and either continues the attempts with the next delay or ends them with the matrices received |
| Protocol.SendRequest | src/funcs/john-gcn/ops/network_ops.cpp:48-61 | the request frames are appended to what was sent, and nothing is read |
| Protocol.PushTensorFrames | src/funcs/john-gcn/ops/network_ops.cpp:109-123 | two frames per matrix pushed |
| Protocol.PushTensorFramesAt | src/funcs/john-gcn/ops/network_ops.cpp:109-123 | matrix u is sent as its PUSH header with "more", then its data with "more" unless it is the last |
| Protocol.PushHeaderFields | src/funcs/john-gcn/ops/network_ops.cpp:111-113 | each pushed tensor header is (PUSH, name, chunk.layer, rows, cols) |
| Protocol.PushFramesShape | src/funcs/john-gcn/ops/network_ops.cpp:104-123 | sendTensors sends a PUSH chunk header with "more", then per matrix its header and its data, only the last data frame without "more" |
| Protocol.AckRoundTrip | src/funcs/john-gcn/ops/network_ops.cpp:130-132 | an ACK of three ints reads back as its first int |
| Protocol.AckOtherSize | src/funcs/john-gcn/ops/network_ops.cpp:130-132 | an ACK of any other size reads as 0 |
| Protocol.SendTensors | src/funcs/john-gcn/ops/network_ops.cpp:104-136 | sendTensors sends the push frames and returns the ACK value when asked to wait for one, 0 otherwise |
| Protocol.SendMatrices | src/funcs/john-gcn/ops/network_ops.cpp:109-123 | the per-matrix loop sends exactly the push frames of the matrices and reads nothing |
| Protocol.RecvAck | src/funcs/john-gcn/ops/network_ops.cpp:128-132 | the ACK read is the first int of a three-int ACK, else 0, and consumes one frame if one is there |
| Protocol.SendFinMsg | src/funcs/john-gcn/ops/network_ops.cpp:184-199 | sendFinMsg sends one chunk header without "more" and returns the ACK value; the header's opcode is a parameter, because `OP::FIN` is not among the opcodes src/common/utils.hpp:31-33 declares |
| Protocol.ReceiveReply | src/funcs/john-gcn/ops/network_ops.cpp:63-86 | reading a reply only moves forward in the incoming stream |
| WeightWorker.Inc | src/weight-server/serverworker.cpp:145 | `lambdaRecved++` on an unsigned adds one and wraps to 0 after 2^32 - 1 |
| WeightWorker.WeightsFramesLayout | src/weight-server/serverworker.cpp:104-123 | a forward pull of layer 0 while servers_updates_done is false is answered by one RESP header with slot 1 = (unsigned) -1 and no payload; any other pull by RESP (0, rows, cols) with "more", then the layer's values |
| WeightWorker.AddUpdateAt | src/weight-server/serverworker.cpp:151-155 | each accumulator element grows by the update's element at the same index |
| WeightWorker.AddUpdateCommutes | src/weight-server/serverworker.cpp:142-156 | two updates give the same accumulator whichever is added first |
| WeightWorker.AddNothing | src/weight-server/serverworker.cpp:151-155 | an update with no values leaves the accumulator unchanged |
| WeightWorker.RecvUpdateEffect | src/weight-server/serverworker.cpp:133-162 | recvUpdate counts exactly one contribution, clears servers_updates_done, ACKs, adds the update into exactly the layer's accumulator, calls applyUpdate exactly when numLambdas equals the new count, and changes neither the weights nor the store |
| WeightWorker.SetNumLambdasIdempotent | src/weight-server/serverworker.cpp:170-180 | setBackpropNumLambdas sets numLambdas to its argument; a repeated identical INFO changes nothing more than sending another ACK |
| WeightWorker.ServedStep | src/weight-server/serverworker.cpp:252-273 | one pass of the sendTensors loop adds that header's reply to what was sent and goes on exactly when the request had "more" |
| WeightWorker.ServeTensorsInOrder | src/weight-server/serverworker.cpp:252-273 | sendTensors answers the headers it reads in order, one reply per header: the matrix when its name is stored, else an error header |
| WeightWorker.ServeTensorsStops | src/weight-server/serverworker.cpp:255-272 | sendTensors keeps reading while names are found and requests carry "more", and stops at the first missing name or the first request without "more" |
| WeightWorker.TensorFramesDecode | src/weight-server/serverworker.cpp:224-240 | the header sendTensor sends is (PULL, name, rows, cols), and the lambda's recvTensor decodes the pair back into the stored matrix |
| WeightWorker.ErrorFrameDecodes | src/weight-server/serverworker.cpp:261-266 | the reply to a missing name is one header with slot 0 = ERR_HEADER_FIELD and no "more" |
| WeightWorker.RecvUpdateTensorSpec | src/weight-server/serverworker.cpp:275-300 | recvUpdateTensor reads one (header, payload) pair and keeps the number of accumulators |
| WeightWorker.RecvTensorsCounts | src/weight-server/serverworker.cpp:302-310 | recvTensors counts exactly one contribution per pair read, modulo 2^32, and changes neither the weights, the store, servers_updates_done, the replies nor numLambdas |
| WeightWorker.IncThenAdd | src/weight-server/serverworker.cpp:291 | k more increments after one are k + 1 increments modulo 2^32 |
| WeightWorker.ServeStep | src/weight-server/serverworker.cpp:47-93 | one turn of work handles the next (identity, header) pair; serving then goes on from the new state unless the handler stopped |
| WeightWorker.UnknownOpIgnored | src/weight-server/serverworker.cpp:88-91 | an opcode outside the dispatch table changes nothing and the loop goes on |
| WeightWorker.HandleExtends | src/weight-server/serverworker.cpp:66-92 | no handler writes the weights or the store or the number of accumulators; replies and applyUpdate calls only grow and finished stays set |
| WeightWorker.RecvUpdateExtends | src/weight-server/serverworker.cpp:133-162 | recvUpdate only grows the replies and the applyUpdate log and keeps weights and store |
| WeightWorker.RecvTensorsExtends | src/weight-server/serverworker.cpp:302-310 | recvTensors only grows the applyUpdate log and keeps weights and store |
| WeightWorker.ServeExtends | src/weight-server/serverworker.cpp:43-95 | however requests go, work never writes the weights or the store, only appends to its replies and the applyUpdate log, and once finished stays finished |
| WeightWorker.NextExtends | src/weight-server/serverworker.cpp:47-93 | one request received and handled only grows the state |
| WeightWorker.ServerWorker.constructor | src/weight-server/serverworker.cpp:1-39 | a worker starts on its socket with the weight server's matrices, store, counters and flag |
| WeightWorker.ServerWorker.SendWeights | src/weight-server/serverworker.cpp:103-123 | sendWeights sends the identity and exactly the frames of the weight-pull reply, and changes nothing else |
| WeightWorker.ServerWorker.AddInto | src/weight-server/serverworker.cpp:151-155 | the accumulation loop adds the update into the layer's accumulator and changes no other field |
| WeightWorker.ServerWorker.RecvUpdate | src/weight-server/serverworker.cpp:133-162 | the method leaves exactly the state the recvUpdate specification describes |
| WeightWorker.ServerWorker.SetNumLambdas | src/weight-server/serverworker.cpp:170-180 | the method leaves exactly the setBackpropNumLambdas state |
| WeightWorker.ServerWorker.Terminate | src/weight-server/serverworker.cpp:189-201 | terminateServer ACKs and sets finished |
| WeightWorker.ServerWorker.SendTensor | src/weight-server/serverworker.cpp:224-240 | sendTensor sends the (PULL, name, rows, cols) header and the data, the data with "more" exactly when the request being answered had it |
| WeightWorker.ServerWorker.ServeOne | src/weight-server/serverworker.cpp:255-272 | one pass of the sendTensors loop reads one request and sends its reply |
| WeightWorker.ServerWorker.SendTensors | src/weight-server/serverworker.cpp:252-273 | the method leaves exactly the sendTensors state: identity, then the replies in order up to the first missing name or last request |
| WeightWorker.ServerWorker.RecvUpdateTensor | src/weight-server/serverworker.cpp:275-300 | the method leaves exactly the recvUpdateTensor state and records the payload's "more" |
| WeightWorker.ServerWorker.RecvTensors | src/weight-server/serverworker.cpp:302-310 | the method leaves exactly the recvTensors state |
| WeightWorker.ServerWorker.Dispatch | src/weight-server/serverworker.cpp:53-92 | the switch on slot 0 calls the handler for the opcode with slot 1 as its argument, as the dispatch specification says |
| WeightWorker.ServerWorker.Turn | src/weight-server/serverworker.cpp:47-93 | one loop turn moves forward in the stream and leaves the rest of the serving unchanged, or ends it |
| WeightWorker.ServerWorker.Work | src/weight-server/serverworker.cpp:43-95 | work leaves exactly the state the serving specification gives for the incoming stream |
| WeightWorker.AddUpdate | src/weight-server/serverworker.cpp:151-155 | adding an update keeps the accumulator's length |
| WeightWorker.RecvUpdateSpec | src/weight-server/serverworker.cpp:133-162 | recvUpdate only moves forward in the stream |
| WeightWorker.ServeTensors | src/weight-server/serverworker.cpp:252-273 | the sendTensors loop only moves forward in the stream |
| WeightWorker.SendTensorsSpec | src/weight-server/serverworker.cpp:252-273 | sendTensors only moves forward in the stream |
| WeightWorker.RecvTensorsSpec | src/weight-server/serverworker.cpp:302-310 | recvTensors only moves forward in the stream and keeps the number of accumulators |
| WeightWorker.Handle | src/weight-server/serverworker.cpp:53-92 | a handler only moves forward in the stream |
| WeightWorker.Serve | src/weight-server/serverworker.cpp:43-95 | serving only moves forward in the stream |
| WeightWorker.Next | src/weight-server/serverworker.cpp:47-93 | one turn reads the identity and header frames and moves forward past them |
| WeightServer.SkipSpace | src/weight-server/weightserver.cpp:162 | what `ss >> dim` skips first: the result is a suffix no longer than the line that does not start with whitespace |
| WeightServer.DigitCount | src/weight-server/weightserver.cpp:162 | the digits one extraction consumes: all of the first n characters are digits and the next one is not |
| WeightServer.SignLen | src/weight-server/weightserver.cpp:162 | an extraction accepts one leading '+' or '-' before the digits, and nothing else |
| WeightServer.Signed | src/weight-server/weightserver.cpp:161-162 | the unsigned stored for a magnitude below 2^32 is the magnitude itself, or after a '-' its additive inverse modulo 2^32 |
| WeightServer.DimsAt | src/weight-server/weightserver.cpp:162-164 | after an optional sign, an extraction that finds no digits or a magnitude of 2^32 or more ends the list; otherwise its value, negated modulo 2^32 after '-', heads the list and reading goes on after the digits |
| WeightServer.DigitsValueSnoc | src/weight-server/weightserver.cpp:162 | one more digit multiplies the value read so far by ten and adds the digit |
| WeightServer.SkipSpaces | src/weight-server/weightserver.cpp:162 | the skipping loop stops exactly where the whitespace-skipping function does |
| WeightServer.ReadDigits | src/weight-server/weightserver.cpp:162 | the digit loop consumes exactly the leading digits and returns their decimal value |
| WeightServer.InitializeWeightMatrices | src/weight-server/weightserver.cpp:153-165 | the dimensions pushed are exactly the values successive extractions read from the first line, optional signs included |
| WeightServer.DigitCountOf | src/weight-server/weightserver.cpp:162 | a run of digits followed by a non-digit is consumed whole |
| WeightServer.DimsOfDigits | src/weight-server/weightserver.cpp:162-164 | a number below 2^32 followed by a non-digit is read as the next dimension |
| WeightServer.DimsSignedHead | src/weight-server/weightserver.cpp:162-164 | a line starting with a sign and n digits yields that signed value first and goes on after the digits |
| WeightServer.DimsOfSigned | src/weight-server/weightserver.cpp:162-164 | a '+' number is read as its magnitude and a '-' number as the magnitude negated modulo 2^32, and reading goes on after it |
| WeightServer.DigitsValueOne | src/weight-server/weightserver.cpp:162 | a single digit is read as its own value |
| WeightServer.DimsSpaceDigit | src/weight-server/weightserver.cpp:162-164 | a space followed by one digit yields exactly that digit's value |
| WeightServer.SignedThenUnsigned | src/weight-server/weightserver.cpp:162-164 | a one-digit signed number, a space and a one-digit number read as exactly two dimensions |
| WeightServer.PlusDimsExample | src/weight-server/weightserver.cpp:162-164 | an illustration of the signed case: the line "+3 4" gives the dimensions 3 and 4 |
| WeightServer.MinusDimsExample | src/weight-server/weightserver.cpp:162-164 | an illustration of the signed case: the line "-1 5" gives the dimensions 4294967295 and 5 |
| WeightServer.DimsOfSpace | src/weight-server/weightserver.cpp:162 | leading whitespace does not change the dimensions read |
| WeightServer.DimsOfLine | src/weight-server/weightserver.cpp:153-165 | a config line made of the dimensions written in decimal, separated by spaces, reads back as exactly those dimensions |
| WeightServer.BuildLayers | src/weight-server/weightserver.cpp:103-115 | one matrix per adjacent pair of dimensions, with rows dims[u] and cols dims[u+1] as int, dims[u] * dims[u+1] (mod 2^32) values, each value the one drawn for that position |
| WeightServer.LayerShapes | src/weight-server/weightserver.cpp:107-115 | for dimensions below 2^31 with 32-bit products, each layer is dims[u] x dims[u+1], holds rows * cols values, and its rows equal the previous layer's cols |
| WeightServer.WeightsReplyDecodes | src/weight-server/weightserver.cpp:64-77 | a pull is answered by identity, a RESP header (RESP, 0, rows, cols) and the weight values, the first two with "more" and the last without |
| WeightServer.ServedOnlyPulls | src/weight-server/weightserver.cpp:47-56 | the worker sends exactly three frames per PULL it serves and nothing for a PUSH (recvUpdates does nothing) or an unknown op, and each reply ends with a payload |
| WeightServer.Worker.constructor | src/weight-server/weightserver.cpp:20-24 | a worker holds its socket and the server's weight list |
| WeightServer.Worker.SendWeights | src/weight-server/weightserver.cpp:64-77 | sendWeights appends exactly the three frames of that layer's reply and receives nothing |
| WeightServer.Worker.Work | src/weight-server/weightserver.cpp:26-61 | work sends exactly the replies the serving specification gives for the incoming stream |
| Graph.ShrinkToFit | src/engine/graph.cpp:71-79 | shrink_to_fit keeps a vector's elements and leaves no spare capacity |
| Graph.AddGhostData | src/engine/graph.cpp:53-57 | adding data to a ghost appends the value to that ghost's history, keeps its out-edges and leaves every other ghost and the key set unchanged |
| Graph.AddGhostDataTwice | src/engine/graph.cpp:53-57 | updates are not idempotent: the same value added twice is kept twice |
| Graph.Graph.constructor | src/engine/graph.cpp:9-43 | a graph holds the vertices, ghosts, partition ids and counts the getters return |
| Graph.Graph.GetVertices | src/engine/graph.cpp:9-13 | getVertices returns the local vertices |
| Graph.Graph.GetGhostVertices | src/engine/graph.cpp:15-19 | getGhostVertices returns the ghost map |
| Graph.Graph.GetNumLocalVertices | src/engine/graph.cpp:21-25 | returns the number of local vertices |
| Graph.Graph.GetNumGlobalVertices | src/engine/graph.cpp:27-31 | returns the number of global vertices |
| Graph.Graph.GetNumGlobalEdges | src/engine/graph.cpp:33-37 | returns the number of global edges |
| Graph.Graph.GetVertexPartitionIds | src/engine/graph.cpp:39-43 | returns the partition ids |
| Graph.Graph.UpdateGhostVertex | src/engine/graph.cpp:46-57 | the ghost must exist; its history grows by the value and nothing else in the graph changes |
| Graph.Graph.CompactGraph | src/engine/graph.cpp:60-80 | every vector loses its spare capacity while the partition ids, the vertices, their edge lists, the ghost keys, histories and out-edges and the counts keep their contents |
| Aggregate.Aggregated | src/benchmarks/aggregate.cpp:26-35 | the value update appends has as many elements as the vertex's current value |
| Aggregate.NeighbourSumAppend | src/benchmarks/aggregate.cpp:29-32 | summing over two runs of in-edges is the sum of the two sums, whatever order the edges come in |
| Aggregate.NeighbourSumConst | src/benchmarks/aggregate.cpp:29-32 | when every in-neighbour holds c at element j, the neighbours add c times the in-degree |
| Aggregate.FirstRound | src/benchmarks/aggregate.cpp:96-101 | starting from defaultVertex (2, 1) everywhere, a vertex with k in-edges becomes (1 + k, 1 + k) |
| Aggregate.NoInEdges | src/benchmarks/aggregate.cpp:26-35 | a vertex without in-edges appends a copy of its current value |
| Aggregate.SumVectors | src/benchmarks/aggregate.cpp:40-45 | sumVectors adds other element by element into curr, over curr's length, with curr no longer than other |
| Aggregate.Update | src/benchmarks/aggregate.cpp:26-35 | update appends to vertex v's history its value plus the in-neighbours' values at the layer, and changes no other vertex, ghost or count |
| Aggregate.SumStep | src/benchmarks/aggregate.cpp:29-32 | one pass of the edge loop adds the next in-neighbour's value into each element's running sum |
| Aggregate.UpdateAppendsOnly | src/benchmarks/aggregate.cpp:34 | update keeps the earlier history and appends one value as long as the current one |
| Aggregate.OccurrencesAppend | src/benchmarks/aggregate.cpp:70-80 | counting a character over two texts written one after the other adds the counts |
| Aggregate.OccurrencesNone | src/benchmarks/aggregate.cpp:70-80 | a text without the character counts none |
| Aggregate.EntryTextNoBar | src/benchmarks/aggregate.cpp:75-76 | the values of one entry print without a '\|' |
| Aggregate.HistoryTextBars | src/benchmarks/aggregate.cpp:73-78 | the history prints exactly one '\|' per entry |
| Aggregate.WriterLineShape | src/benchmarks/aggregate.cpp:70-80 | the line for a vertex starts with its global id, read back up to the ':', and holds exactly one '\|' per history entry |
| Aggregate.WriterLineId | src/benchmarks/aggregate.cpp:72 | the text before the first ':' reads back as the global id |
| Aggregate.WriterLineBars | src/benchmarks/aggregate.cpp:73-79 | the line holds as many '\|' as the vertex has history entries |
| Aggregate.Writer.constructor | src/benchmarks/aggregate.cpp:59-63 | the writer starts with an empty output file |
| Aggregate.Writer.WriteEntry | src/benchmarks/aggregate.cpp:75-76 | the inner loop appends each value of the entry followed by a space |
| Aggregate.Writer.ProcessVertex | src/benchmarks/aggregate.cpp:70-80 | processVertex appends exactly the vertex's line to the output |
| GatHandler.Names | src/funcs/gat/main.cpp:55-56 | the names requested are the tensors' names, in order |
| GatHandler.EdgeInfoError | src/funcs/gat/main.cpp:39-51 | the edge info passes exactly when numLvids is none of the four error fields; NOT_FOUND gives "Tensor 'fedge' not found" and "Got an error" only comes from ERR_HEADER_FIELD |
| GatHandler.EdgeInfoErrorIdentifies | src/funcs/gat/main.cpp:39-51 | with distinct error fields, each error message names exactly one numLvids value |
| GatHandler.FirstEmpty | src/funcs/gat/main.cpp:57-62 | the checking loop stops at the first empty tensor: every tensor before it is non-empty, and it is the length when none is empty |
| GatHandler.FirstEmptyUnique | src/funcs/gat/main.cpp:57-62 | the first empty position is the only position with that property |
| GatHandler.FindEmpty | src/funcs/gat/main.cpp:57-62 | the `for (auto& M : matrices) if (M.empty())` loop finds the first empty tensor |
| GatHandler.ApplyVertex | src/funcs/gat/main.cpp:147-204 | apply_vertex makes exactly the requests, sends and response of the forward vertex specification |
| GatHandler.ApplyVertexBackward | src/funcs/gat/main.cpp:206-300 | apply_vertex_backward makes exactly the requests, sends and response of the corrected backward vertex specification |
| GatHandler.ApplyEdge | src/funcs/gat/main.cpp:32-103 | apply_edge makes exactly the requests, sends and response of the forward edge specification |
| GatHandler.ApplyEdgeBackward | src/funcs/gat/main.cpp:105-145 | apply_edge_backward makes exactly the requests and response of the backward edge specification |
| GatHandler.Route | src/funcs/gat/main.cpp:351-359 | vertex and FORWARD go to apply_vertex, vertex and BACKWARD to apply_vertex_backward, edge and FORWARD to apply_edge, everything else to apply_edge_backward, each case for exactly those chunks |
| GatHandler.Handle | src/funcs/gat/main.cpp:351-359 | every handler answers for the chunk's localId and makes at least one request |
| GatHandler.VertexForwardSends | src/funcs/gat/main.cpp:147-204 | apply_vertex sends "z" only when no reply is empty or missing; it then succeeds exactly when sendTensors did not return -1, with "Finished forward layer" or "This chunk is already done." |
| GatHandler.VertexBackwardSends | src/funcs/gat/main.cpp:206-300 | apply_vertex_backward asks for "h" on the first layer and "ah" otherwise, sends z, az_i and az_j only when the checks pass, with z = H . w and H = h or tanh(ah), and succeeds exactly when sendTensors did not return -1 |
| GatHandler.EdgeForwardSends | src/funcs/gat/main.cpp:32-103 | apply_edge sends "A" only when the checks pass, then answers "Finished apply edge" whatever sendTensors returns, and fails otherwise |
| GatHandler.EdgeBackwardNeverSends | src/funcs/gat/main.cpp:105-145 | apply_edge_backward sends nothing and succeeds exactly when the edge info is not an error |
| GatHandler.SendsOnlyAfterChecks | src/funcs/gat/main.cpp:32-300 | whichever handler runs, tensors are sent only after every error check passed, and then exactly the handler's tensors |
| GatHandler.EmptyTensorFails | src/funcs/gat/main.cpp:57-72 | an empty tensor in a reply fails the chunk with "<name> is empty", naming the first empty data tensor before any weight |
| GatHandler.VertexBackwardEmptyReply | src/funcs/gat/main.cpp:223-251 | corrected: an empty data reply sends nothing and fails with the first empty weight's message or "Got error message from server" |
| GatHandler.AsWrittenBackwardInput | src/funcs/gat/main.cpp:223 | as written, H = matrices[0] has no value when the data reply is empty |
| GatHandler.AsWrittenReadsEmptyReply | src/funcs/gat/main.cpp:215-223 | an empty data reply passes the emptiness loop and reaches matrices[0] with nothing to read |
| GatHandler.Identity | src/funcs/gat/main.cpp:317-324 | the identity is three 4-byte words and then the data server name |
| GatHandler.IdentityLayout | src/funcs/gat/main.cpp:317-324 | the identity's words read back as localId, layer and the random value, and its tail is the data server name |
| GatHandler.IdentityWords | src/funcs/gat/main.cpp:320-323 | the identity buffer after the three word writes keeps its length |
| GatHandler.IdentityWordsHead | src/funcs/gat/main.cpp:320-323 | the first twelve bytes are the little-endian localId, layer and random value |
| GatHandler.IdentityOfBuffer | src/funcs/gat/main.cpp:317-324 | copying the name behind the three words gives the identity |
| GatHandler.BuildIdentity | src/funcs/gat/main.cpp:317-324 | the buffer apply_phase fills is the identity |
| GatHandler.ApplyPhase | src/funcs/gat/main.cpp:314-370 | apply_phase builds the identity from the chunk and a random value, fails with the exception text when setting up the sockets throws, and otherwise returns what the routed handler returns |
| GatHandler.ChunkOfPayload | src/funcs/gat/main.cpp:385-393 | the chunk fields are the payload's integers modulo 2^32, and the chunk is a vertex chunk exactly when "vtx" is non-zero |
| GatHandler.PayloadOf | src/funcs/gat/main.cpp:374-393 | a payload carries every key my_handler reads |
| GatHandler.ChunkPayloadRoundTrip | src/funcs/gat/main.cpp:374-393 | a chunk written as a payload reads back as the same chunk |
| GatHandler.MyHandler | src/funcs/gat/main.cpp:374-400 | my_handler builds the chunk from the payload and returns what apply_phase returns for it |
| Engine.AppendTimers | src/graph-server/engine/engine.cpp:75-82 | each of the six timing vectors grows by as many entries as are pushed |
| Engine.TimerZeros | src/graph-server/engine/engine.cpp:75-82 | init pushes 2 * numLayers zeros |
| Engine.PushTimers | src/graph-server/engine/engine.cpp:75-82 | the timer loop appends 2 * numLayers zeros to every timing vector |
| Engine.LambdaName | src/graph-server/engine/engine.cpp:143-151 | GCN runs the lambda "gcn", GAT the lambda "gat", any other type "invalid_lambda_name" |
| Engine.LambdaNameIdentifies | src/graph-server/engine/engine.cpp:143-151 | a valid lambda name identifies the GNN type |
| Engine.Resize | src/graph-server/engine/engine.cpp:85-91 | resize(n) gives n elements, keeps the first ones and fills the new ones with the default value |
| Engine.RunEvents | src/graph-server/engine/engine.cpp:210-236 | run does two things: preallocation, then the pipeline or the unsupported-type log |
| Engine.PipelineOnlyForGcnGat | src/graph-server/engine/engine.cpp:210-236 | the pipeline runs exactly for GCN and GAT, and only the other types are reported as unrecognized benchmarks |
| Engine.Spawn | src/graph-server/engine/engine.cpp:247-274 | a pool of count threads is started with ids base, base + 1, ... |
| Engine.EpochsAfterInit | src/graph-server/engine/engine.cpp:89-92 | with staleness UINT_MAX the epoch counters are untouched; otherwise both are resized to staleness + 1 entries, keeping what they held |
| Engine.WeightCommFor | src/graph-server/engine/engine.cpp:133-140 | only node 0 gets a weight communicator, with chunk count numNodes * numLambdasForward modulo 2^32 |
| Engine.Engine.constructor | src/graph-server/engine/engine.cpp:317 | the global engine starts with its options (ngpus among them), empty containers and no communicators |
| Engine.Engine.Init | src/graph-server/engine/engine.cpp:40-168 | init appends the node id to the output file name, takes numLayers = layers - 1, pushes the timers, sizes the saved tensors to numLayers + 1 and the epoch counters by staleness, in a GPU build replaces numLambdasForward by ngpus, sets up node 0's weight communicator for numNodes times that many chunks, the lambda name in lambda mode and the backend of the compiled mode, and leaves an engine destroy can release |
| Engine.Engine.FreedNames | src/graph-server/engine/engine.cpp:193-201 | destroy frees every saved tensor of a layer except "A" |
| Engine.Engine.FreeLayer | src/graph-server/engine/engine.cpp:194-200 | the loop over one layer's tensors frees exactly those |
| Engine.Engine.DeleteLayer | src/graph-server/engine/engine.cpp:202-206 | every saved edge tensor of a layer is deleted |
| Engine.Engine.Destroy | src/graph-server/engine/engine.cpp:175-207 | destroy shuts down node 0's weight communicator, drops the backend, frees the NN tensors of the first numLayers layers except "A" and deletes every edge tensor, changing no other state |
| Engine.Engine.RunPipeline | src/graph-server/engine/engine.cpp:238-315 | runPipeline clears the halt flag, starts cThreads gather workers with ids 2, 3, ..., one apply-vertex, one apply-edge and one scheduler thread, dThreads scatter and ghost receiver threads, then drains every buffered message, logging only when one was left, and changes no engine state outside the pipeline |
| Engine.Engine.PullIn | src/graph-server/engine/engine.cpp:307-312 | dataPullIn succeeds exactly when a message is buffered and takes the first one, changing nothing else |
| Engine.Engine.Run | src/graph-server/engine/engine.cpp:224-236 | run records its events; for GCN and GAT it clears the halt flag, starts the thread pools and drains the pipeline's messages, otherwise it leaves the pipeline as it was; no engine state outside the pipeline changes |
| Engine.Engine.PreallocateTensors | src/graph-server/engine/engine.cpp:210-221 | preallocate_tensors records GCN's, GAT's or the unrecognized-type preallocation and changes nothing else |
| ResourceComm.Tag | src/graph-server/commmanager/resource_comm.hpp:8 | the tags are 0, 1 and 2 |
| ResourceComm.BackendOfTag | src/graph-server/commmanager/resource_comm.hpp:8 | exactly the integers 0, 1 and 2 name a backend |
| ResourceComm.TagRoundTrip | src/graph-server/commmanager/resource_comm.hpp:8 | each backend is named by its tag and by no other integer |
| ResourceComm.PrefetchWeights | src/graph-server/commmanager/resource_comm.hpp:24 | a backend without its own prefetchWeights leaves the state as it is; one with it runs its own |
| ResourceComm.GetRelaunchCnt | src/graph-server/commmanager/resource_comm.hpp:26 | a backend without its own getRelaunchCnt reports 0; one with it reports its own count |
| CompServer.ElemCount | funcs/forward-prop-GPU/comp_server/comp_server.hpp:193 | rows * cols as an unsigned: below 2^32, and the true product when that fits |
| CompServer.Fill | funcs/forward-prop-GPU/comp_server/comp_server.hpp:198 | copying n values out of a message keeps its values and reads zero past its end |
| CompServer.FillWhole | funcs/forward-prop-GPU/comp_server/comp_server.hpp:198 | copying exactly the message's values gives them back |
| CompServer.DecodeHeader | funcs/forward-prop-GPU/comp_server/comp_server.hpp:87-92 | a request header reads back as its op, layer, rows and cols |
| CompServer.PullHeaderDecodes | funcs/forward-prop-GPU/comp_server/comp_server.hpp:214-216 | the pull request carries PULL_FORWARD and the layer |
| CompServer.WeightsReply | funcs/forward-prop-GPU/comp_server/comp_server.hpp:210-239 | slot 1 = -1 gives the empty Matrix after reading one frame; otherwise a rows x cols matrix of the next frame's values is read from two frames; a missing frame is a failure |
| CompServer.WeightServerReplyDecodes | funcs/forward-prop-GPU/comp_server/comp_server.hpp:210-239 | against the weight server's reply to PULL_FORWARD, the -1 check matches exactly the pending case and otherwise the matrix read is the server's layer |
| CompServer.FeatsReply | funcs/forward-prop-GPU/comp_server/comp_server.hpp:182-202 | requestFeatsMatrix reads one frame and returns a rows x cols matrix whose every value is the received one plus 1 |
| CompServer.ResultFramesLayout | funcs/forward-prop-GPU/comp_server/comp_server.hpp:143-157 | sendMatrices sends a header whose first slots are z's rows and cols, then z's data, then act's data, the first two with "more" |
| CompServer.Leading | funcs/forward-prop-GPU/comp_server/comp_server.hpp:171 | the leading whitespace trim removes: all spaces, up to the first non-space |
| CompServer.Trailing | funcs/forward-prop-GPU/comp_server/comp_server.hpp:171 | the trailing whitespace trim removes: all spaces, back to the last non-space |
| CompServer.TrimLeft | funcs/forward-prop-GPU/comp_server/comp_server.hpp:171 | after trim_left the line is empty or starts with a non-space |
| CompServer.TrimRight | funcs/forward-prop-GPU/comp_server/comp_server.hpp:171 | after trim_right the line is empty or ends with a non-space |
| CompServer.Trim | funcs/forward-prop-GPU/comp_server/comp_server.hpp:171 | a trimmed line neither starts nor ends with whitespace |
| CompServer.TrimCuts | funcs/forward-prop-GPU/comp_server/comp_server.hpp:171 | trim removes only whitespace, and only from the two ends: the line is spaces, the trimmed text, then spaces |
| CompServer.TrimTrimmed | funcs/forward-prop-GPU/comp_server/comp_server.hpp:171 | trim is idempotent: a trimmed line is left as it is |
| CompServer.Addresses | funcs/forward-prop-GPU/comp_server/comp_server.hpp:168-178 | no more addresses than lines |
| CompServer.AddressesClean | funcs/forward-prop-GPU/comp_server/comp_server.hpp:171-177 | every address kept is non-empty and trimmed |
| CompServer.AddressesStep | funcs/forward-prop-GPU/comp_server/comp_server.hpp:169-178 | each line adds its trimmed text when that is non-empty, and nothing otherwise |
| CompServer.AddressesAppend | funcs/forward-prop-GPU/comp_server/comp_server.hpp:169-178 | the addresses of two runs of lines are those of each, in order |
| CompServer.AddressesOfClean | funcs/forward-prop-GPU/comp_server/comp_server.hpp:169-178 | a file of non-empty trimmed lines gives exactly its lines |
| CompServer.BlankLineSkipped | funcs/forward-prop-GPU/comp_server/comp_server.hpp:173-174 | a blank or all-whitespace line adds nothing |
| CompServer.ServerIndex | funcs/forward-prop-GPU/comp_server/comp_server.hpp:114 | nodeId % size picks an address in range, the node's own index when it is below the count |
| CompServer.ServerRoundRobin | funcs/forward-prop-GPU/comp_server/comp_server.hpp:114 | distinct nodes below the count use distinct servers, and nodes count apart share one |
| CompServer.IdentityLayout | funcs/forward-prop-GPU/comp_server/comp_server.hpp:105-109 | the weight socket identity is the node id as 4 bytes followed by the ipc address |
| CompServer.Activated | funcs/forward-prop-GPU/comp_server/comp_server.hpp:130-133 | the activated copy of z has z's shape |
| CompServer.Turn | funcs/forward-prop-GPU/comp_server/comp_server.hpp:86-135 | one loop turn only moves forward in both streams, goes on only after reading a header and a feature frame, and keeps the node id |
| CompServer.Serve | funcs/forward-prop-GPU/comp_server/comp_server.hpp:85-138 | serving only moves forward in the data stream and keeps the node id |
| CompServer.RunSpec | funcs/forward-prop-GPU/comp_server/comp_server.hpp:66-139 | run takes the node id from slot 0 of the first header |
| CompServer.ConfirmFirst | funcs/forward-prop-GPU/comp_server/comp_server.hpp:88-98 | every request is confirmed before anything else is sent |
| CompServer.TermStops | funcs/forward-prop-GPU/comp_server/comp_server.hpp:98-101 | TERM is confirmed and ends the loop with nothing else sent or read |
| CompServer.TermTurn | funcs/forward-prop-GPU/comp_server/comp_server.hpp:98-101 | a TERM header ends the turn after its confirm |
| CompServer.ForwardAnswered | funcs/forward-prop-GPU/comp_server/comp_server.hpp:100-134 | any other op is confirmed, the weights are pulled for its layer from server nodeId % count, and z = dot(feats, weights) and its activation are sent back |
| CompServer.IncrementAll | funcs/forward-prop-GPU/comp_server/comp_server.hpp:193-197 | the loop adds 1 to every received value |
| CompServer.LoadWeightServers | funcs/forward-prop-GPU/comp_server/comp_server.hpp:161-179 | loadWeightServers appends the non-empty trimmed lines, in order |
| CompServer.ComputingServer.constructor | funcs/forward-prop-GPU/comp_server/comp_server.hpp:23-35 | the server keeps its ports and sockets and loads the weight server addresses from the file |
| CompServer.ComputingServer.RequestWeightsMatrix | funcs/forward-prop-GPU/comp_server/comp_server.hpp:210-239 | sends exactly the PULL_FORWARD header and reads what the weights-reply specification says |
| CompServer.ComputingServer.RequestFeatsMatrix | funcs/forward-prop-GPU/comp_server/comp_server.hpp:182-202 | reads what the feature-reply specification says and sends nothing |
| CompServer.ComputingServer.SendMatrices | funcs/forward-prop-GPU/comp_server/comp_server.hpp:143-157 | appends exactly the three result frames and reads nothing |
| CompServer.ComputingServer.RunTurn | funcs/forward-prop-GPU/comp_server/comp_server.hpp:86-135 | one pass of the loop leaves exactly the state the turn specification gives |
| CompServer.ComputingServer.Run | funcs/forward-prop-GPU/comp_server/comp_server.hpp:66-139 | run leaves exactly the state the run specification gives for both incoming streams |
| GpuComm.ForwardExchange | src/graph-server/commmanager/GPU_comm.cpp:18-53 | requestForward always sends the REQ_FORWARD header (layer, rows, cols); only once the confirm arrives does it send the activations and read up to three reply frames; a missing frame ends the exchange at the end of the stream |
| GpuComm.AsWrittenRecvSizeZero | src/graph-server/commmanager/GPU_comm.cpp:37-39 | as written, the reply size is computed from the request header's own slots 0 and 1, and slot 0 is REQ_FORWARD = 0, so recvSize is 0 for every reply |
| GpuComm.Copied | src/graph-server/commmanager/GPU_comm.cpp:42-45 | memcpy of n values overwrites the buffer's first n entries and keeps the rest |
| GpuComm.CopyInto | src/graph-server/commmanager/GPU_comm.cpp:42-45 | the copying loop leaves the buffer as the copy specification says |
| GpuComm.ServerReplyCopied | src/graph-server/commmanager/GPU_comm.cpp:35-45 | corrected: the computing server's reply (confirm, header, Z, activations) is read whole and Z and the activations land in the buffers |
| GpuComm.RequestDecodedByServer | src/graph-server/commmanager/GPU_comm.cpp:28-33 | the computing server decodes the request as REQ_FORWARD with the layer and the activation's shape, and reads the activations sent |
| GpuComm.ShutdownStopsServer | src/graph-server/commmanager/GPU_comm.cpp:56-63 | the shutdown header makes the computing server confirm and stop |
| GpuComm.RecvReply | src/graph-server/commmanager/GPU_comm.cpp:35-45 | receiving the reply reads up to three consecutive frames, fewer only at the end of the stream, and sends nothing |
| GpuComm.GPUComm.constructor | src/graph-server/commmanager/GPU_comm.cpp:7-16 | a communicator starts with no activation matrix |
| GpuComm.GPUComm.NewContextForward | src/graph-server/commmanager/GPU_comm.cpp:7-16 | newContextForward sets the activation matrix to (numLocalVertices, numFeats, dataBuf) and takes the two output buffers and numFeatsNext |
| GpuComm.GPUComm.RequestForwardAsWritten | src/graph-server/commmanager/GPU_comm.cpp:18-53 | as written: the exchange happens, and neither output buffer changes |
| GpuComm.GPUComm.RequestForward | src/graph-server/commmanager/GPU_comm.cpp:18-53 | corrected: the exchange happens and Z and the new activations are copied into the buffers, each only when its frame arrived and fits |
| GpuComm.GPUComm.SendRequest | src/graph-server/commmanager/GPU_comm.cpp:28-30 | sends the REQ_FORWARD header and reads the confirm when one is left |
| GpuComm.GPUComm.SendShutdownMessage | src/graph-server/commmanager/GPU_comm.cpp:56-63 | sends exactly the TERM header and reads the confirm when one is left |

## Left out

- Sockets, ZeroMQ contexts, threads and exceptions are out of scope. A receive past the end of the incoming stream ends a loop, which stands for the context termination the source catches.
- Clocks, timers, `sleep`, `rand()` and the random initial weights are inputs or recorded values. `time(NULL)`, the random word of the identity and the drawn values are parameters.
- Files are inputs. The config line, the address file's lines and the output file are strings; opening, `assert(good())` and `sprintf` into 50-character buffers are not modelled.
- Floating point is not modelled. `FeatType`/`DTYPE` are `int`. `dot`, `activate`, `tanh`, `leakyReLU` and `edgeMatMul` are uninterpreted function parameters.
- `applyUpdate` is recorded as a log entry of the layers it is called for. It is a method of the weight server (src/weight-server/weightserver.hpp), which is not part of this model.
- `ResourceComm` is a record of functions, not a class hierarchy. `NNRecvCallback` is only declared in the shown header, so it is not modelled.
- The scheduler, the chunk state machine, ghost receiving, `loadChunks`, the node manager and the communication manager are not in the modelled files. `runPipeline` records the threads it starts by the ids they are given.
- The engine's preprocessing, graph loading, feature and label reading, and GPU matrix set-up in `init` are left out. They read files or devices. A GPU build's `numLambdasForward = ngpus` is modelled; `ngpus` is an option of the engine, since where it is parsed is not part of this model.
- Reads past the end of a received message are undefined behaviour in the source. The model reads them as zero.
- `vertex.data()` and `GhostVertex::addData` are defined in graph headers that are not part of this model. The model takes them as the last history entry and an append.
- `isFirstLayer()` and the graph-server sentinel values (`NOT_FOUND_ERR_FIELD`, `DUPLICATE_REQ_ERR_FIELD`, `CHUNK_DNE_ERR`) come from headers that are not part of this model. They are parameters of the GAT handler.
- Protocol.ReqTensors: requires at least one name. With no names the source sends only the chunk header, flagged "more", and would wait on a message it never completed.
- Protocol.SendTensors: requires well-formed matrices (data length rows * cols). The source copies rows * cols elements whatever the buffer holds.
- Protocol.ReqTensors: the number of attempts is bounded by a fuel parameter. The source retries without bound while RESEND holds and replies come back empty; RESEND is false in this configuration.
- LambdaUtils.Matrix.GetDataSize: does not model the int overflow of rows * cols * sizeof(DTYPE).
- WeightWorker.Handle: a layer outside the weight or accumulator list is undefined behaviour in the source, and the model ends serving there. WeightServer.Worker.Work does the same.
- WeightServer.BuildLayers: requires at least one dimension. With none, `dims.size()-1` wraps around and the loop reads out of range.
- Engine.Engine.Init: requires a non-empty layer configuration (otherwise `numLayers` wraps around) and requires `numNodes <= 256`, which the source asserts.
- GatHandler.VertexBackward: requires the weights reply to hold three tensors whenever it is non-empty and has no empty tensor. The source indexes `weights[1]` and `weights[2]` unchecked.
- GatHandler.EdgeBackward: apply_edge_backward reads `matrices[0..1]` and `weights[0]` without checks, only to log them. The model does not inspect them.
- CompServer.ComputingServer.Run: requires a non-empty address list. With none, `nodeId % weightServerAddrs.size()` divides by zero.
- CompServer: the weights are requested on a thread while the features are read. The two use different sockets, so their order does not matter, and the model runs them one after the other.
- GpuComm.GPUComm.RequestForward: is the corrected copy. It refuses a reply whose announced size exceeds either buffer, where the source would overflow.
- CompServer: the first confirm is a fresh 5-byte message. Every later confirm is the same message object sent again, which ZeroMQ has emptied by the first send, so it is modelled as an empty frame.
- Engine: the node id and cluster size come from the node manager and are parameters of `Init`.

## Findings

| source | as written | input that shows it | evidently intended | confidence | as-written member | corrected member |
|---|---|---|---|---|---|---|
| src/graph-server/commmanager/GPU_comm.cpp:37-39 | the reply size is taken from slots 0 and 1 of the request header just sent, and slot 0 is REQ_FORWARD = 0, so recvSize is 0 and neither Z nor the activations are copied | any reply, e.g. a 2 x 1 Z and activation answered by the computing server | the size is read from the received resultHeader, so both matrices are copied into zData and actData | not executed | GpuComm.AsWrittenRecvSizeZero, GpuComm.GPUComm.RequestForwardAsWritten | GpuComm.GPUComm.RequestForward, GpuComm.ServerReplyCopied |
| src/funcs/gat/main.cpp:223, 235-236, 250 | apply_vertex_backward reads matrices[0] (H or AH) before checking matrices.empty() at line 250 | an empty data reply (the server answered with an error header) | the empty-reply check comes before the first read, so the chunk fails without reading a missing tensor | not executed | GatHandler.AsWrittenBackwardInput, GatHandler.AsWrittenReadsEmptyReply | GatHandler.VertexBackward, GatHandler.VertexBackwardEmptyReply |
