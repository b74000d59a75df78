/**
 The Modbus TCP client: request frames, reassembly of replies from whatever pieces `recv`
 delivers, and the decoding of registers.

 The socket is a `Wire`: everything sent so far, everything `recv` is going to deliver, and
 what each later `send` sets off. All of it is arbitrary; a peer that behaves is a condition
 of the theorems that need one (see ModbusSession).
 */
module Modbus {
  import opened Words

  // ----- the socket

  /** What one or more `recv` calls deliver. `Data([])` is the peer closing the connection. */
  datatype Arrival = Data(bytes: seq<byte>) | WouldBlock | Broken

  /** What one `send` does: how many bytes are accepted (None: it fails), and what then arrives. */
  datatype Reply = Reply(accepted: Option<nat>, arrives: seq<Arrival>)

  datatype Wire = Wire(outbound: seq<byte>, inbound: seq<Arrival>, replies: seq<Reply>)

  datatype Errc = SendFailed | TimedOut | ConnectionReset | RecvFailed

  /** `send`; the client looks only at whether it failed, not at how much was accepted. */
  function Sent(w: Wire, data: seq<byte>): (Wire, bool) {
    if w.replies == [] then (w.(outbound := w.outbound + data), true)
    else
      var r := w.replies[0];
      var w' := w.(inbound := w.inbound + r.arrives, replies := w.replies[1..]);
      match r.accepted
      case None => (w', false)
      case Some(k) => (w'.(outbound := w.outbound + data[..if k < |data| then k else |data|]), true)
  }

  datatype Received = Received(error: Option<Errc>, bytes: seq<byte>, rest: seq<Arrival>)

  /** One `recv` of at most `max` bytes; an error, or at least one byte. Nothing left to arrive means a timeout. */
  function RecvOnce(inbound: seq<Arrival>, max: nat): (r: Received)
    requires max > 0
    ensures r.error.None? ==> 0 < |r.bytes| <= max
    ensures r.error.Some? ==> r.bytes == []
  {
    if inbound == [] then Received(Some(TimedOut), [], [])
    else
      match inbound[0]
      case WouldBlock => Received(Some(TimedOut), [], inbound[1..])
      case Broken => Received(Some(RecvFailed), [], inbound[1..])
      case Data(bytes) =>
        if bytes == [] then Received(Some(ConnectionReset), [], inbound[1..])
        else if |bytes| <= max then Received(None, bytes, inbound[1..])
        else Received(None, bytes[..max], [Data(bytes[max..])] + inbound[1..])
  }

  /** The receive loop: `recv` until `need` bytes are there or one of the calls fails. */
  function Receive(inbound: seq<Arrival>, need: nat): (r: Received)
    decreases need
  {
    if need == 0 then Received(None, [], inbound)
    else
      var once := RecvOnce(inbound, need);
      if once.error.Some? then once
      else
        var more := Receive(once.rest, need - |once.bytes|);
        Received(more.error, once.bytes + more.bytes, more.rest)
  }

  // ----- frames (MODBUS Messaging on TCP/IP Implementation Guide V1.0b, section 3.1.3;
  //       MODBUS Application Protocol V1.1b3, section 6.3)

  const READ_HOLDING: byte := 0x03
  const HEADER_SIZE: nat := 9

  function RequestFrame(id: u16, start: u16, count: u16): (f: seq<byte>)
    ensures |f| == 12
  {
    [High(id), Low(id), 0, 0, 0, 6, 1, READ_HOLDING, High(start), Low(start), High(count), Low(count)]
  }

  /** What the client waits for: `byte_count` is a uint8_t. */
  function ResponseSize(count: u16): nat {
    HEADER_SIZE + count * 2 % 0x100
  }

  /** Registers from their bytes in network order. */
  function Decode(data: seq<byte>): seq<u16> {
    if |data| < 2 then [] else [Word(data[0], data[1])] + Decode(data[2..])
  }

  function Encode(regs: seq<u16>): (data: seq<byte>) {
    if regs == [] then [] else [High(regs[0]), Low(regs[0])] + Encode(regs[1..])
  }

  lemma {:induction false} EncodeSize(regs: seq<u16>)
    ensures |Encode(regs)| == 2 * |regs|
  {
    if regs != [] {
      EncodeSize(regs[1..]);
    }
  }

  lemma {:induction false} DecodeEncode(regs: seq<u16>)
    ensures |Encode(regs)| == 2 * |regs|
    ensures Decode(Encode(regs)) == regs
  {
    EncodeSize(regs);
    if regs != [] {
      DecodeEncode(regs[1..]);
      assert Encode(regs)[2..] == Encode(regs[1..]);
    }
  }

  /** Every register has its high byte first. */
  lemma {:induction false} DecodeAt(data: seq<byte>, i: nat)
    requires 2 * i + 1 < |data|
    ensures |Decode(data)| == |data| / 2
    ensures Decode(data)[i] == Word(data[2 * i], data[2 * i + 1])
    ensures Decode(data)[i] == 256 * (data[2 * i] as int) + data[2 * i + 1]
    decreases |data|
  {
    if |data| > 3 {
      DecodeAt(data[2..], if i == 0 then 0 else i - 1);
    }
  }

  /** The data bytes are counted modulo 256, so with more than 127 registers the client would wait for too short a
      frame and read past its end. */
  lemma {:induction false} ResponseHoldsRegisters(count: u16)
    ensures ResponseSize(count) == HEADER_SIZE + 2 * count <==> count <= 127
    ensures 9 <= ResponseSize(count) < 265 && (9 + 2 * (count as int) - ResponseSize(count)) % 256 == 0
  {
  }

  // ----- one read

  /** `transaction_id_++`, which wraps around. */
  function NextId(id: u16): u16 {
    if id == 0xFFFF then 0 else id + 1
  }

  datatype State = State(wire: Option<Wire>, nextId: u16)

  datatype ReadResult = ReadResult(state: State, regs: Option<seq<u16>>)

  /** The registers in a complete reply: only the function code is looked at. */
  function ParseResponse(frame: seq<byte>): Option<seq<u16>>
    requires |frame| >= HEADER_SIZE
  {
    if frame[7] != READ_HOLDING then None else Some(Decode(frame[HEADER_SIZE..]))
  }

  lemma {:induction false} ReceiveSize(inbound: seq<Arrival>, need: nat)
    ensures var r := Receive(inbound, need); |r.bytes| <= need && (r.error.None? <==> |r.bytes| == need)
    decreases need
  {
    if need > 0 {
      var once := RecvOnce(inbound, need);
      if once.error.None? {
        ReceiveSize(once.rest, need - |once.bytes|);
      }
    }
  }

  function Join(prefix: seq<byte>, r: Received): (j: Received)
    ensures prefix == [] ==> j == r
  {
    assert prefix == [] ==> prefix + r.bytes == r.bytes;
    Received(r.error, prefix + r.bytes, r.rest)
  }

  lemma {:induction false} JoinStep(prefix: seq<byte>, inbound: seq<Arrival>, need: nat)
    requires need > 0
    ensures var once := RecvOnce(inbound, need);
      Join(prefix, Receive(inbound, need)) ==
      if once.error.Some? then Received(once.error, prefix, once.rest)
      else Join(prefix + once.bytes, Receive(once.rest, need - |once.bytes|))
  {
    var once := RecvOnce(inbound, need);
    if once.error.None? {
      var more := Receive(once.rest, need - |once.bytes|);
      assert prefix + (once.bytes + more.bytes) == prefix + once.bytes + more.bytes;
    }
  }

  /** What the loop amounts to when `got` is there and `need` bytes are still to come. */
  function Continue(got: seq<byte>, inbound: seq<Arrival>, need: nat): Received {
    Join(got, Receive(inbound, need))
  }

  /** Bytes written behind `got` into a buffer that still holds `before` there. */
  lemma {:induction false} Splice(got: seq<byte>, before: seq<byte>, bytes: seq<byte>)
    requires |got| + |bytes| <= |before|
    ensures var now := got + before[|got|..];
      now[..|got|] == got && now[|got| + |bytes|..] == before[|got| + |bytes|..]
    ensures (got + bytes + before[|got| + |bytes|..])[..|got| + |bytes|] == got + bytes
  {
  }

  /** `send_receive`: the new wire, the error, and the bytes received. */
  function Exchange(wire: Option<Wire>, request: seq<byte>, need: nat): (x: (Option<Wire>, Received))
    ensures |x.1.bytes| <= need
    ensures x.1.error.None? ==> |x.1.bytes| == need
  {
    match wire
    case None => (None, Received(Some(SendFailed), [], []))
    case Some(w) =>
      var (w', sent) := Sent(w, request);
      if !sent then (Some(w'), Received(Some(SendFailed), [], []))
      else
        var r := Receive(w'.inbound, need);
        ReceiveSize(w'.inbound, need);
        (Some(w'.(inbound := r.rest)), r)
  }

  /** With more than 127 registers the frame is shorter than they need, so a good answer makes the source read past its
      end, which is undefined; every other outcome of such a call is an ordinary failure. */
  predicate Overruns(st: State, start: u16, count: u16) {
    count > 127 &&
    var r := Exchange(st.wire, RequestFrame(st.nextId, start, count), ResponseSize(count)).1;
    r.error.None? && r.bytes[7] == READ_HOLDING
  }

  /** `read_holding_registers` with room for `count` registers. */
  function Read(st: State, start: u16, count: u16): ReadResult
    requires !Overruns(st, start, count)
  {
    if count == 0 then ReadResult(st, None)
    else
      var (wire, r) := Exchange(st.wire, RequestFrame(st.nextId, start, count), ResponseSize(count));
      var st' := State(wire, NextId(st.nextId));
      if r.error.Some? then ReadResult(st', None)
      else ReadResult(st', ParseResponse(r.bytes))
  }

  /** A read that succeeds returns as many registers as were asked for. */
  lemma {:induction false} ReadSize(st: State, start: u16, count: u16)
    requires 1 <= count <= 127
    ensures var r := Read(st, start, count).regs; r.Some? ==> |r.value| == count
  {
    var (wire, r) := Exchange(st.wire, RequestFrame(st.nextId, start, count), ResponseSize(count));
    if r.error.None? {
      ResponseHoldsRegisters(count);
      DecodeAt(r.bytes[HEADER_SIZE..], 0);
    }
  }

  class Client {
    var wire: Option<Wire>
    var transactionId: u16

    /** A new client numbers its requests from 1. */
    constructor (wire: Option<Wire>)
      ensures View() == State(wire, 1)
    {
      this.wire := wire;
      transactionId := 1;
    }

    ghost function View(): State
      reads this
    {
      State(wire, transactionId)
    }

    /** `recv` into buffer[at..at + max]. */
    method Recv(buffer: array<byte>, at: nat, max: nat) returns (n: nat, ec: Option<Errc>)
      requires wire.Some? && max > 0 && at + max <= buffer.Length
      modifies this`wire, buffer
      ensures var r := RecvOnce(old(wire).value.inbound, max);
        && ec == r.error && n == |r.bytes|
        && wire == Some(old(wire).value.(inbound := r.rest))
        && buffer[..] == old(buffer[..])[..at] + r.bytes + old(buffer[..])[at + n..]
    {
      var r := RecvOnce(wire.value.inbound, max);
      n, ec := |r.bytes|, r.error;
      wire := Some(wire.value.(inbound := r.rest));
      forall i | 0 <= i < n {
        buffer[at + i] := r.bytes[i];
      }
    }

    method SendReceive(request: seq<byte>, response: array<byte>) returns (ec: Option<Errc>)
      modifies this`wire, response
      ensures var (w, r) := Exchange(old(wire), request, response.Length);
        && wire == w && ec == r.error
        && |r.bytes| <= response.Length
        && response[..] == r.bytes + old(response[..])[|r.bytes|..]
    {
      if wire.None? {
        return Some(SendFailed);
      }
      var (w, sent) := Sent(wire.value, request);
      wire := Some(w);
      if !sent {
        return Some(SendFailed);
      }
      ec := ReceiveInto(response);
    }

    /** One `recv` of the loop: `got` is what the buffer held so far, `whole` what the loop amounts to. */
    method RecvMore(buffer: array<byte>, at: nat, ghost got: seq<byte>, ghost before: seq<byte>, ghost whole: Received)
      returns (n: nat, ec: Option<Errc>)
      requires wire.Some? && at == |got| < buffer.Length == |before|
      requires buffer[..] == got + before[at..]
      requires Continue(got, wire.value.inbound, buffer.Length - at) == whole
      modifies this`wire, buffer
      ensures wire.Some? && wire.value == old(wire).value.(inbound := wire.value.inbound)
      ensures ec.Some? ==> whole == Received(ec, got, wire.value.inbound) && buffer[..] == old(buffer[..])
      ensures ec.None? ==> 0 < n <= buffer.Length - at && buffer[at + n..] == before[at + n..]
      ensures ec.None? ==> Continue(buffer[..at + n], wire.value.inbound, buffer.Length - (at + n)) == whole
    {
      ghost var once := RecvOnce(wire.value.inbound, buffer.Length - at);
      JoinStep(got, wire.value.inbound, buffer.Length - at);
      Splice(got, before, once.bytes);
      n, ec := Recv(buffer, at, buffer.Length - at);
      assert ec.None? ==> buffer[..at + n] == got + once.bytes && n == |once.bytes|;
      assert buffer.Length - at - n == buffer.Length - (at + n);
      assert ec.Some? ==> buffer[..] == old(buffer[..]);
    }

    /** The loop over `recv` that fills the response buffer. */
    method ReceiveInto(response: array<byte>) returns (ec: Option<Errc>)
      requires wire.Some?
      modifies this`wire, response
      ensures var r := Receive(old(wire).value.inbound, response.Length);
        && wire == Some(old(wire).value.(inbound := r.rest)) && ec == r.error
        && |r.bytes| <= response.Length
        && response[..] == r.bytes + old(response[..])[|r.bytes|..]
    {
      var total := 0;
      ghost var before := response[..];
      ghost var whole := Receive(wire.value.inbound, response.Length);
      ReceiveSize(wire.value.inbound, response.Length);
      while total < response.Length
        invariant total <= response.Length && wire.Some?
        invariant wire.value == old(wire).value.(inbound := wire.value.inbound)
        invariant response[total..] == before[total..]
        invariant Continue(response[..total], wire.value.inbound, response.Length - total) == whole
        decreases response.Length - total
      {
        assert response[..] == response[..total] + before[total..];
        var n;
        n, ec := RecvMore(response, total, response[..total], before, whole);
        if ec.Some? {
          return;
        }
        total := total + n;
      }
      assert response[..] == response[..total] + [];
      return None;
    }

    method ReadHoldingRegisters(start: u16, count: u16, output: array<u16>) returns (n: int)
      requires count <= output.Length ==> !Overruns(View(), start, count)
      modifies this, output
      ensures if count == 0 || output.Length < count
              then n == -1 && View() == old(View()) && output[..] == old(output[..])
              else var r := Read(old(View()), start, count);
                && View() == r.state
                && match r.regs
                   case None => n == -1 && output[..] == old(output[..])
                   case Some(regs) => n == count == |regs| && output[..] == regs + old(output[count..])
    {
      if count == 0 || output.Length < count {
        return -1;
      }
      var request := RequestFrame(transactionId, start, count);
      transactionId := NextId(transactionId);
      var size := 9 + count * 2 % 0x100;
      var resp := new byte[size](_ => 0);
      var ec := SendReceive(request, resp);
      if ec.Some? {
        return -1;
      }
      if resp[7] != READ_HOLDING {
        return -1;
      }
      ghost var frame := Exchange(old(wire), request, size).1.bytes;
      assert resp[..] == frame;
      ResponseHoldsRegisters(count);
      CopyRegisters(resp, count, output);
      assert resp[9..] == frame[9..];
      return count;
    }

    /** The registers of a complete reply, behind its header, into the first places of `output`. */
    method CopyRegisters(resp: array<byte>, count: u16, output: array<u16>)
      requires resp.Length == HEADER_SIZE + 2 * count && 0 < count <= output.Length
      modifies output
      ensures resp[..] == old(resp[..])
      ensures |Decode(resp[HEADER_SIZE..])| == count
      ensures output[..] == Decode(resp[HEADER_SIZE..]) + old(output[count..])
    {
      ghost var data := resp[9..];
      DecodeAt(data, 0);
      for i := 0 to count
        invariant resp[..] == old(resp[..])
        invariant forall j :: 0 <= j < i ==> output[j] == Decode(data)[j]
        invariant forall j :: i <= j < output.Length ==> output[j] == old(output[j])
      {
        DecodeAt(data, i);
        assert resp[9 + i * 2] == data[2 * i] && resp[9 + i * 2 + 1] == data[2 * i + 1];
        output[i] := Word(resp[9 + i * 2], resp[9 + i * 2 + 1]);
      }
    }

    method ReadU16(addr: u16, was: u16) returns (ok: bool, value: u16)
      modifies this
      ensures var r := Read(old(View()), addr, 1);
        && View() == r.state && ok == r.regs.Some?
        && (if ok then r.regs.value == [value] else value == was)
    {
      var buf := new u16[1](_ => 0);
      var n := ReadHoldingRegisters(addr, 1, buf);
      if n < 0 {
        return false, was;
      }
      return true, buf[0];
    }

    method ReadI16(addr: u16, was: int16) returns (ok: bool, value: int16)
      modifies this
      ensures var r := Read(old(View()), addr, 1);
        && View() == r.state && ok == r.regs.Some?
        && (if ok then value == ToI16(r.regs.value[0]) else value == was)
    {
      var buf := new u16[1](_ => 0);
      var n := ReadHoldingRegisters(addr, 1, buf);
      if n < 0 {
        return false, was;
      }
      return true, ToI16(buf[0]);
    }

    method ReadU32(addr: u16, was: u32) returns (ok: bool, value: u32)
      modifies this
      ensures var r := Read(old(View()), addr, 2);
        && View() == r.state && ok == r.regs.Some?
        && (if ok then |r.regs.value| == 2 && value == Long(r.regs.value[0], r.regs.value[1]) else value == was)
    {
      var buf := new u16[2](_ => 0);
      var n := ReadHoldingRegisters(addr, 2, buf);
      if n < 0 {
        return false, was;
      }
      return true, Long(buf[0], buf[1]);
    }

    method ReadI32(addr: u16, was: int32) returns (ok: bool, value: int32)
      modifies this
      ensures var r := Read(old(View()), addr, 2);
        && View() == r.state && ok == r.regs.Some?
        && (if ok then |r.regs.value| == 2 && value == ToI32(Long(r.regs.value[0], r.regs.value[1])) else value == was)
    {
      var raw;
      ok, raw := ReadU32(addr, 0);
      value := if ok then ToI32(raw) else was;
    }

    method ReadString(addr: u16, count: u16, was: seq<byte>) returns (ok: bool, result: seq<byte>)
      requires !Overruns(View(), addr, count)
      modifies this
      ensures var r := Read(old(View()), addr, count);
        && View() == r.state && ok == r.regs.Some?
        && result == if ok then StripPadding(Encode(r.regs.value)) else was
    {
      var buf := new u16[count](_ => 0);
      var n := ReadHoldingRegisters(addr, count, buf);
      if n < 0 {
        return false, was;
      }
      result := Unpack(buf);
      assert buf[..] == buf[..count];
      result := Unpadded(result);
      return true, result;
    }

    static method Unpack(buf: array<u16>) returns (result: seq<byte>)
      ensures result == Encode(buf[..])
    {
      result := [];
      for i := 0 to buf.Length
        invariant result == Encode(buf[..i])
      {
        EncodeSnoc(buf[..i], buf[i]);
        assert buf[..i + 1] == buf[..i] + [buf[i]];
        result := result + [High(buf[i])];
        result := result + [Low(buf[i])];
      }
      assert buf[..] == buf[..buf.Length];
    }

    static method Unpadded(s: seq<byte>) returns (result: seq<byte>)
      ensures result == StripPadding(s)
    {
      result := s;
      while result != [] && IsPadding(result[|result| - 1])
        invariant StripPadding(result) == StripPadding(s)
      {
        result := result[..|result| - 1];
      }
    }
  }

  // ----- strings

  predicate IsPadding(b: byte) {
    b == 0 || b == ' ' as int
  }

  /** `s` without the NULs and spaces at its end. */
  function StripPadding(s: seq<byte>): seq<byte>
    decreases |s|
  {
    if s != [] && IsPadding(s[|s| - 1]) then StripPadding(s[..|s| - 1]) else s
  }

  lemma {:induction false} EncodeSnoc(regs: seq<u16>, r: u16)
    ensures Encode(regs + [r]) == Encode(regs) + [High(r), Low(r)]
  {
    if regs == [] {
      assert (regs + [r])[1..] == [];
    } else {
      assert (regs + [r])[1..] == regs[1..] + [r];
      EncodeSnoc(regs[1..], r);
    }
  }
}
