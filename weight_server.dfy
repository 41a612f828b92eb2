/**
 * The standalone weight server (src/weight-server/weightserver.cpp): it
 * reads the layer dimensions from the first line of its config file, builds
 * one weight matrix per pair of adjacent dimensions, and its workers answer
 * the int32 headers of src/utils/utils.h: a PULL of a layer is answered with
 * that layer's weights, a PUSH is accepted and dropped, anything else is
 * ignored.
 */
module WeightServer {
  import opened Wire
  import opened Decimal
  import opened Transport
  import LU = LambdaUtils
  import Seqs

  // ---------------------------------------------------------------------------
  // initializeWeightMatrices: `while (ss >> dim) dims.push_back(dim);`
  // ---------------------------------------------------------------------------

  /** The characters operator>> skips before a number (isspace in the C locale). */
  predicate IsSpace(c: char) {
    c == ' ' || 9 <= c as int <= 13
  }

  /** The line after the whitespace operator>> skips. */
  function SkipSpace(s: string): (t: string)
    ensures |t| <= |s|
    ensures t == [] || !IsSpace(t[0])
  {
    if s != [] && IsSpace(s[0]) then SkipSpace(s[1..]) else s
  }

  /** How many digits s starts with. */
  function DigitCount(s: string): (n: nat)
    ensures n <= |s| && forall i | 0 <= i < n :: IsDigit(s[i])
    ensures n < |s| ==> !IsDigit(s[n])
  {
    if s != [] && IsDigit(s[0]) then 1 + DigitCount(s[1..]) else 0
  }

  /** How long the sign operator>> accepts before an integer's digits is: '+' or '-', or none. */
  function SignLen(t: string): (n: nat)
    ensures n <= |t|
    ensures n == 1 <==> t != [] && (t[0] == '+' || t[0] == '-')
    ensures n == 0 || n == 1
  {
    if t != [] && (t[0] == '+' || t[0] == '-') then 1 else 0
  }

  /**
   * The unsigned value an extraction stores for a magnitude v that fits in
   * 32 bits: v itself, or after a '-' its negation modulo 2^32.
   */
  function Signed(negative: bool, v: nat): (d: u32)
    requires v < 0x1_0000_0000
    ensures !negative ==> d == v
    ensures negative ==> (d + v) % 0x1_0000_0000 == 0
  {
    if negative then (0x1_0000_0000 - v) % 0x1_0000_0000 else v
  }

  /**
   * The values `ss >> dim` extracts from a line, in order: after optional
   * whitespace, an optional '+' or '-' and a maximal run of digits whose
   * magnitude fits in 32 bits, negated modulo 2^32 after a '-'; the first
   * extraction that finds no digits or overflows ends the loop.
   */
  function Dims(line: string): seq<u32>
    decreases |line|
  {
    var t := SkipSpace(line);
    var p := SignLen(t);
    var u := t[p..];
    var n := DigitCount(u);
    if n == 0 || DigitsValue(u[..n]) >= 0x1_0000_0000 then []
    else [Signed(p == 1 && t[0] == '-', DigitsValue(u[..n]))] + Dims(u[n..])
  }

  /**
   * Dims reads a number whose optional sign starts the (whitespace-free)
   * text at i, whose digits run from s to j, and goes on after it.
   */
  lemma DimsAt(line: string, i: nat, s: nat, j: nat)
    requires i <= s <= j <= |line|
    requires SkipSpace(line[i..]) == line[i..]
    requires s - i == SignLen(line[i..]) && DigitCount(line[s..]) == j - s
    ensures forall k | s <= k < j :: IsDigit(line[k])
    ensures j == s || DigitsValue(line[s..j]) >= 0x1_0000_0000 ==> Dims(line[i..]) == []
    ensures j > s && DigitsValue(line[s..j]) < 0x1_0000_0000 ==>
      Dims(line[i..]) == [Signed(s > i && line[i] == '-', DigitsValue(line[s..j]))] + Dims(line[j..])
  {
    var t := line[i..];
    assert t[s - i..] == line[s..];
    var u := line[s..];
    assert forall k | s <= k < j :: line[k] == u[k - s];
    assert u[..j - s] == line[s..j];
    assert u[j - s..] == line[j..];
  }

  /** One more digit: the value is ten times the old one plus the digit. */
  lemma DigitsValueSnoc(line: string, i: nat, j: nat)
    requires i <= j < |line|
    requires forall k | i <= k <= j :: IsDigit(line[k])
    ensures DigitsValue(line[i..j + 1]) == DigitsValue(line[i..j]) * 10 + DigitValue(line[j])
  {
    assert line[i..j + 1][..j - i] == line[i..j];
  }

  /** operator>>'s skip of leading whitespace, from index i. */
  method SkipSpaces(line: string, i: nat) returns (j: nat)
    requires i <= |line|
    ensures i <= j <= |line|
    ensures SkipSpace(line[i..]) == line[j..] && SkipSpace(line[j..]) == line[j..]
  {
    j := i;
    while j < |line| && IsSpace(line[j])
      invariant i <= j <= |line| && SkipSpace(line[i..]) == SkipSpace(line[j..])
    {
      assert line[j..][1..] == line[j + 1..];
      j := j + 1;
    }
  }

  /** operator>>'s reading of the digits from index i, and their value. */
  method ReadDigits(line: string, i: nat) returns (j: nat, v: nat)
    requires i <= |line|
    ensures i <= j <= |line| && DigitCount(line[i..]) == j - i
    ensures forall k | i <= k < j :: IsDigit(line[k])
    ensures v == DigitsValue(line[i..j])
  {
    j, v := i, 0;
    while j < |line| && IsDigit(line[j])
      invariant i <= j <= |line|
      invariant forall k | i <= k < j :: IsDigit(line[k])
      invariant DigitCount(line[i..]) == (j - i) + DigitCount(line[j..])
      invariant v == DigitsValue(line[i..j])
    {
      assert line[j..][1..] == line[j + 1..];
      DigitsValueSnoc(line, i, j);
      v := v * 10 + DigitValue(line[j]);
      j := j + 1;
    }
  }

  /** initializeWeightMatrices: the dimensions on the config file's first line. */
  method InitializeWeightMatrices(line: string) returns (dims: seq<u32>)
    ensures dims == Dims(line)
  {
    dims := [];
    var i := 0;
    while true
      invariant i <= |line|
      invariant dims + Dims(line[i..]) == Dims(line)
      decreases |line| - i
    {
      var a := SkipSpaces(line, i);
      assert Dims(line[i..]) == Dims(line[a..]);
      var s, negative := a, false;
      if a < |line| && (line[a] == '+' || line[a] == '-') {
        s, negative := a + 1, line[a] == '-';
      }
      var j, v := ReadDigits(line, s);
      DimsAt(line, a, s, j);
      if j == s || v >= 0x1_0000_0000 {
        return;
      }
      var d := Signed(negative, v);
      Seqs.AppendAssoc(dims, [d], Dims(line[j..]));
      dims := dims + [d];
      i := j;
    }
  }

  /** A line holding the given dimensions, each followed by one space. */
  function DimsLine(dims: seq<u32>): string {
    if dims == [] then "" else NatToString(dims[0]) + (" " + DimsLine(dims[1..]))
  }

  /** A digit string followed by a non-digit is counted to its end. */
  lemma {:induction false} DigitCountOf(a: string, rest: string)
    requires forall i | 0 <= i < |a| :: IsDigit(a[i])
    requires rest == [] || !IsDigit(rest[0])
    ensures DigitCount(a + rest) == |a|
    decreases |a|
  {
    if a != [] {
      assert (a + rest)[1..] == a[1..] + rest;
      DigitCountOf(a[1..], rest);
    }
  }

  /** A number written before a non-digit is read, and reading goes on after it. */
  lemma DimsOfDigits(a: string, rest: string)
    requires IsDigits(a) && DigitsValue(a) < 0x1_0000_0000
    requires rest == [] || !IsDigit(rest[0])
    ensures Dims(a + rest) == [DigitsValue(a)] + Dims(rest)
  {
    var s := a + rest;
    assert s[0] == a[0];
    assert SkipSpace(s) == s && SignLen(s) == 0 && s[0..] == s;
    DigitCountOf(a, rest);
    assert s[..|a|] == a && s[|a|..] == rest;
  }

  /** A text that starts with a sign and n digits is read as that signed number first. */
  lemma DimsSignedHead(s: string, n: nat)
    requires s != [] && (s[0] == '+' || s[0] == '-')
    requires 0 < n && DigitCount(s[1..]) == n && DigitsValue(s[1..][..n]) < 0x1_0000_0000
    ensures Dims(s) == [Signed(s[0] == '-', DigitsValue(s[1..][..n]))] + Dims(s[1..][n..])
  {
    assert SkipSpace(s) == s;
  }

  /** A signed number is read as its magnitude, negated modulo 2^32 after '-'. */
  lemma DimsOfSigned(sign: char, a: string, rest: string)
    requires sign == '+' || sign == '-'
    requires IsDigits(a) && DigitsValue(a) < 0x1_0000_0000
    requires rest == [] || !IsDigit(rest[0])
    ensures Dims([sign] + a + rest) == [Signed(sign == '-', DigitsValue(a))] + Dims(rest)
  {
    var s := [sign] + a + rest;
    assert s[1..] == a + rest;
    DigitCountOf(a, rest);
    assert (a + rest)[..|a|] == a && (a + rest)[|a|..] == rest;
    DimsSignedHead(s, |a|);
  }

  /** One digit is read as its value. */
  lemma DigitsValueOne(x: char)
    requires IsDigit(x)
    ensures DigitsValue([x]) == DigitValue(x)
  {
    assert [x][..0] == [];
  }

  /** A space and one digit read as that digit's value alone. */
  lemma DimsSpaceDigit(y: char)
    requires IsDigit(y)
    ensures Dims([' ', y]) == [DigitValue(y)]
  {
    DigitsValueOne(y);
    assert [' ', y] == " " + [y] && [y] + [] == [y];
    DimsOfSpace([y]);
    DimsOfDigits([y], []);
  }

  /** A signed first number followed by a space and an unsigned one. */
  lemma SignedThenUnsigned(sign: char, x: char, y: char)
    requires sign == '+' || sign == '-'
    requires IsDigit(x) && IsDigit(y)
    ensures Dims([sign, x, ' ', y]) == [Signed(sign == '-', DigitValue(x)), DigitValue(y)]
  {
    DigitsValueOne(x);
    assert [sign, x, ' ', y] == [sign] + [x] + [' ', y];
    DimsOfSigned(sign, [x], [' ', y]);
    DimsSpaceDigit(y);
  }

  /** "+3 4" reads as 3 and 4. */
  lemma PlusDimsExample(line: string)
    requires line == ['+', '3', ' ', '4']
    ensures Dims(line) == [3, 4]
  {
    SignedThenUnsigned('+', '3', '4');
    assert DigitValue('3') == 3 && DigitValue('4') == 4;
  }

  /** "-1 5" reads as 2^32 - 1 and 5. */
  lemma MinusDimsExample(line: string)
    requires line == ['-', '1', ' ', '5']
    ensures Dims(line) == [0xFFFF_FFFF, 5]
  {
    SignedThenUnsigned('-', '1', '5');
    assert DigitValue('1') == 1 && DigitValue('5') == 5 && Signed(true, 1) == 0xFFFF_FFFF;
  }

  /** A separating space is skipped. */
  lemma DimsOfSpace(r: string)
    ensures Dims(" " + r) == Dims(r)
  {
    assert (" " + r)[1..] == r;
    assert SkipSpace(" " + r) == SkipSpace(r);
  }

  /** The parse reads back every dimension written on the line, in order. */
  lemma {:induction false} DimsOfLine(dims: seq<u32>)
    ensures Dims(DimsLine(dims)) == dims
  {
    if dims != [] {
      var a := NatToString(dims[0]);
      var r := DimsLine(dims[1..]);
      NatToStringValue(dims[0]);
      DimsOfDigits(a, " " + r);
      DimsOfSpace(r);
      DimsOfLine(dims[1..]);
    }
  }

  // ---------------------------------------------------------------------------
  // The constructor's layer loop
  // ---------------------------------------------------------------------------

  /**
   * A weight matrix as the server keeps it: the utils.h Matrix built from two
   * adjacent dimensions and its initial values, never written afterwards.
   */
  datatype Layer = Layer(rows: i32, cols: i32, data: seq<int>)

  /** `uint32_t dataSize = dims[u] * dims[u+1]`, which wraps modulo 2^32. */
  function DataSize(a: u32, b: u32): u32 {
    (a * b) % 0x1_0000_0000
  }

  /**
   * The constructor's loop: layer u is `Matrix(dims[u], dims[u+1], dptr)`
   * (each dimension converted to int) over dataSize values. `draw(u, i)` is
   * the i-th initial value of layer u, which the source draws from a seeded
   * random engine. `dims.size()-1` layers need at least one dimension.
   */
  method BuildLayers(dims: seq<u32>, draw: (nat, nat) -> int) returns (layers: seq<Layer>)
    requires |dims| >= 1
    ensures |layers| == |dims| - 1
    ensures forall u | 0 <= u < |layers| ::
      layers[u].rows == I32OfBits(dims[u]) && layers[u].cols == I32OfBits(dims[u + 1]) &&
      |layers[u].data| == DataSize(dims[u], dims[u + 1]) &&
      forall i | 0 <= i < |layers[u].data| :: layers[u].data[i] == draw(u, i)
  {
    layers := [];
    var u := 0;
    while u < |dims| - 1
      invariant 0 <= u <= |dims| - 1 && |layers| == u
      invariant forall l | 0 <= l < u ::
        layers[l].rows == I32OfBits(dims[l]) && layers[l].cols == I32OfBits(dims[l + 1]) &&
        |layers[l].data| == DataSize(dims[l], dims[l + 1]) &&
        forall i | 0 <= i < |layers[l].data| :: layers[l].data[i] == draw(l, i)
    {
      var dataSize := DataSize(dims[u], dims[u + 1]);
      var dptr := new int[dataSize];
      var ui := 0;
      while ui < dataSize
        invariant 0 <= ui <= dataSize
        invariant forall i | 0 <= i < ui :: dptr[i] == draw(u, i)
      {
        dptr[ui] := draw(u, ui);
        ui := ui + 1;
      }
      layers := layers + [Layer(I32OfBits(dims[u]), I32OfBits(dims[u + 1]), dptr[..])];
      u := u + 1;
    }
  }

  /**
   * With dimensions below 2^31 whose adjacent products fit in 32 bits, layer
   * u is exactly dims[u] x dims[u+1] with rows * cols values, and adjacent
   * layers chain: each layer has as many rows as the one before has columns.
   */
  lemma LayerShapes(dims: seq<u32>, layers: seq<Layer>, u: nat)
    requires |dims| >= 1 && |layers| == |dims| - 1 && u < |layers|
    requires forall l | 0 <= l < |layers| ::
      layers[l].rows == I32OfBits(dims[l]) && layers[l].cols == I32OfBits(dims[l + 1]) &&
      |layers[l].data| == DataSize(dims[l], dims[l + 1])
    requires forall k | 0 <= k < |dims| :: dims[k] < 0x8000_0000
    requires dims[u] as int * dims[u + 1] as int < 0x1_0000_0000
    ensures layers[u].rows == dims[u] && layers[u].cols == dims[u + 1]
    ensures |layers[u].data| == layers[u].rows as int * layers[u].cols as int
    ensures u + 1 < |layers| ==> layers[u + 1].rows == layers[u].cols
  {
    var p := dims[u] as int * dims[u + 1] as int;
    assert DataSize(dims[u], dims[u + 1]) == p;
  }

  // ---------------------------------------------------------------------------
  // server_worker: sendWeights, recvUpdates, work
  // ---------------------------------------------------------------------------

  /** `parse<int32_t>(header, k)` on a received header. */
  function SlotI32(f: Frame, k: nat): i32 {
    I32OfBits(HeaderSlot(f, k))
  }

  /** The RESP header of a weight reply: (RESP, 0, rows, cols) in int32 slots 0..3. */
  function WeightsHeader(w: Layer): seq<byte> {
    LU.Header(Zeros(LU.HEADER_SIZE), LU.Code(LU.RESP), 0, w.rows, w.cols)
  }

  /** sendWeights: the identity, then the RESP header, then a copy of the layer's values. */
  function WeightsReply(id: Frame, w: Layer): seq<Frame> {
    [Frame(id.body, true), Frame(Bytes(WeightsHeader(w)), true), Frame(Values(w.data), false)]
  }

  /** A client reads the reply header back as RESP, 0, the layer's rows and cols. */
  lemma WeightsReplyDecodes(id: Frame, w: Layer)
    ensures var fs := WeightsReply(id, w);
      |fs| == 3 && fs[0].body == id.body && fs[0].more && fs[1].more && !fs[2].more &&
      SlotI32(fs[1], 0) == LU.Code(LU.RESP) && SlotI32(fs[1], 1) == 0 &&
      SlotI32(fs[1], 2) == w.rows && SlotI32(fs[1], 3) == w.cols &&
      ValuesOf(fs[2]) == w.data
  {
    var f := WeightsReply(id, w)[1];
    LU.HeaderLayout(Zeros(LU.HEADER_SIZE), LU.Code(LU.RESP), 0, w.rows, w.cols);
    HeaderSlotIs(f, LU.HEADER_SIZE, 0);
    HeaderSlotIs(f, LU.HEADER_SIZE, 1);
    HeaderSlotIs(f, LU.HEADER_SIZE, 2);
    HeaderSlotIs(f, LU.HEADER_SIZE, 3);
  }

  /**
   * The frames a worker sends while serving the requests in frames[p..]: a
   * PULL of an existing layer is answered with its weights; a PUSH
   * (recvUpdates, an empty body) and any other op are passed over. A layer
   * outside the list is undefined behaviour in the source; serving stops
   * there.
   */
  function Served(weights: seq<Layer>, frames: seq<Frame>, p: nat): seq<Frame>
    requires p <= |frames|
    decreases |frames| - p
  {
    if p + 1 >= |frames| then []
    else
      var layer := SlotI32(frames[p + 1], 1);
      if SlotI32(frames[p + 1], 0) != LU.Code(LU.PULL) then Served(weights, frames, p + 2)
      else if 0 <= layer < |weights| then WeightsReply(frames[p], weights[layer]) + Served(weights, frames, p + 2)
      else []
  }

  /** The number of PULL requests in frames[p..] the worker answers. */
  function PullsAnswered(weights: seq<Layer>, frames: seq<Frame>, p: nat): nat
    requires p <= |frames|
    decreases |frames| - p
  {
    if p + 1 >= |frames| then 0
    else
      var layer := SlotI32(frames[p + 1], 1);
      if SlotI32(frames[p + 1], 0) != LU.Code(LU.PULL) then PullsAnswered(weights, frames, p + 2)
      else if 0 <= layer < |weights| then 1 + PullsAnswered(weights, frames, p + 2)
      else 0
  }

  /**
   * Only pulls are answered: the worker sends exactly three frames per PULL
   * it serves and nothing for a PUSH or an unknown op, and every third
   * frame it sends is a payload ending a reply.
   */
  lemma {:induction false} ServedOnlyPulls(weights: seq<Layer>, frames: seq<Frame>, p: nat)
    requires p <= |frames|
    ensures |Served(weights, frames, p)| == 3 * PullsAnswered(weights, frames, p)
    ensures forall k | 0 <= k < PullsAnswered(weights, frames, p) ::
      !Served(weights, frames, p)[3 * k + 2].more && Served(weights, frames, p)[3 * k + 2].body.Values?
    decreases |frames| - p
  {
    if p + 1 < |frames| {
      ServedOnlyPulls(weights, frames, p + 2);
      var layer := SlotI32(frames[p + 1], 1);
      if SlotI32(frames[p + 1], 0) == LU.Code(LU.PULL) && 0 <= layer < |weights| {
        var head: seq<Frame> := WeightsReply(frames[p], weights[layer]);
        var rest: seq<Frame> := Served(weights, frames, p + 2);
        forall k | 0 <= k < PullsAnswered(weights, frames, p)
          ensures !(head + rest)[3 * k + 2].more && (head + rest)[3 * k + 2].body.Values?
        {
          if k > 0 {
            assert (head + rest)[3 * k + 2] == rest[3 * (k - 1) + 2];
          }
        }
      }
    }
  }

  /** A server_worker: its socket and a reference to the server's weight list, which it only reads. */
  class Worker {
    const sock: Socket
    const weights: seq<Layer>

    constructor (sock: Socket, weights: seq<Layer>)
      ensures this.sock == sock && this.weights == weights
    {
      this.sock := sock;
      this.weights := weights;
    }

    /** sendWeights(socket, client_id, layer) */
    method SendWeights(id: Frame, layer: i32)
      requires 0 <= layer < |weights|
      modifies sock
      ensures sock.outbox == old(sock.outbox) + WeightsReply(id, weights[layer])
      ensures sock.pos == old(sock.pos) && sock.rcvMore == old(sock.rcvMore)
    {
      var w := weights[layer];
      var header := NewBuffer(LU.HEADER_SIZE);
      LU.PopulateHeader(header, LU.Code(LU.RESP), 0, w.rows, w.cols);
      sock.Send(id.body, true);
      sock.Send(Bytes(header[..]), true);
      sock.Send(Values(w.data));
    }

    /** work(): serve requests until the stream ends. */
    method Work()
      requires sock.Valid()
      modifies sock
      ensures sock.outbox == old(sock.outbox) + Served(weights, sock.incoming, old(sock.pos))
    {
      ghost var goal := old(sock.outbox) + Served(weights, sock.incoming, sock.pos);
      while true
        invariant sock.Valid()
        invariant goal == sock.outbox + Served(weights, sock.incoming, sock.pos)
        decreases |sock.incoming| - sock.pos
      {
        ghost var p := sock.pos;
        var ok1, identity := sock.Recv();
        var ok2, header := sock.Recv();
        if !ok1 || !ok2 {
          return;
        }
        var op := SlotI32(header, 0);
        var layer := SlotI32(header, 1);
        if op == LU.Code(LU.PULL) {
          if !(0 <= layer < |weights|) {
            return;
          }
          Seqs.AppendAssoc(sock.outbox, WeightsReply(identity, weights[layer]), Served(weights, sock.incoming, p + 2));
          SendWeights(identity, layer);
        } else if op == LU.Code(LU.PUSH) {
          // recvUpdates: nothing is received or changed yet
        }
      }
    }
  }
}
