/**
 When a read of the Modbus client returns the answer to its own request, and what happens after it did not.
 The client compares no request numbers, so whatever is still on the stream is taken for the answer.
 */
module LateAnswers {
  import opened Words
  import opened Modbus
  import opened ModbusSession

  // ----- streams with something pending

  lemma {:induction false} OnlyBytesCons(inbound: seq<Arrival>)
    requires inbound != [] && inbound[0].Data? && inbound[0].bytes != []
    ensures OnlyBytes(inbound[1..]) ==> OnlyBytes(inbound)
  {
    assert forall i :: 0 < i < |inbound| ==> inbound[i] == inbound[1..][i - 1];
  }

  lemma {:induction false} StoppedStream(inbound: seq<Arrival>, more: seq<Arrival>)
    requires !OnlyBytes(inbound)
    ensures Stream(inbound + more) == Stream(inbound)
  {
    if inbound[0].Data? && inbound[0].bytes != [] {
      OnlyBytesCons(inbound);
      assert (inbound + more)[1..] == inbound[1..] + more;
      StoppedStream(inbound[1..], more);
    }
  }

  lemma {:induction false} PendingBytes(inbound: seq<Arrival>)
    requires OnlyBytes(inbound) && inbound != []
    ensures |Stream(inbound)| > 0
  {
  }

  /** The first byte behind the header comes from what is pending or from the header of the answer, never from its
      data. */
  lemma {:induction false} TenthByte(inbound: seq<Arrival>, a: seq<byte>, b: seq<byte>)
    requires inbound != [] && |a| == |b| >= HEADER_SIZE && a[..HEADER_SIZE] == b[..HEADER_SIZE]
    ensures var s, t := Stream(inbound + [Data(a)]), Stream(inbound + [Data(b)]);
      |s| == |t| && (|s| > HEADER_SIZE ==> s[HEADER_SIZE] == t[HEADER_SIZE])
  {
    if OnlyBytes(inbound) {
      PendingBytes(inbound);
      var p := Stream(inbound);
      StreamConcat(inbound, [Data(a)]);
      StreamConcat(inbound, [Data(b)]);
      OnePiece(a);
      OnePiece(b);
      if |p| <= HEADER_SIZE {
        assert a[..HEADER_SIZE][HEADER_SIZE - |p|] == b[..HEADER_SIZE][HEADER_SIZE - |p|];
      }
    } else {
      StoppedStream(inbound, [Data(a)]);
      StoppedStream(inbound, [Data(b)]);
    }
  }

  lemma {:induction false} OnePiece(bytes: seq<byte>)
    requires bytes != []
    ensures OnlyBytes([Data(bytes)]) && Stream([Data(bytes)]) == bytes
  {
    assert [Data(bytes)][1..] == [];
    assert bytes + [] == bytes;
  }

  // ----- whose answer a read returns

  /** A read returns the registers the device answers it with, whatever they are and in whatever pieces they come. */
  ghost predicate GetsItsAnswer(w: Wire, id: u16, start: u16, count: u16)
    requires Servable(start, count)
  {
    forall image: Image, reply: Reply ::
      Delivers(reply, 12, Respond(image, false, RequestFrame(id, start, count))) ==>
      Read(State(Some(w.(replies := [reply])), id), start, count).regs == Some(Registers(image, start, count))
  }

  /** A device whose registers all hold x. */
  function Constant(x: u16): Image {
    _ => x
  }

  lemma {:induction false} FrameHeader(r: Request, regs: seq<u16>)
    requires |regs| <= 125
    ensures |RegistersFrame(r, regs)| == HEADER_SIZE + 2 * |regs|
    ensures RegistersFrame(r, regs)[..HEADER_SIZE] ==
      [r.idHigh, r.idLow, 0, 0, High(3 + 2 * |regs|), Low(3 + 2 * |regs|), r.unit, r.code, 2 * |regs|]
  {
    EncodeSize(regs);
  }

  /** The header of an answer does not depend on the registers. */
  lemma {:induction false} AnswerHeader(id: u16, start: u16, count: u16, x: u16)
    requires Servable(start, count)
    ensures var a := Respond(Constant(x), false, RequestFrame(id, start, count));
      |a| == HEADER_SIZE + 2 * count && a[..HEADER_SIZE] ==
        [High(id), Low(id), 0, 0, High(3 + 2 * count), Low(3 + 2 * count), 1, READ_HOLDING, 2 * count]
  {
    ParseOfRequestFrame(id, start, count);
    var r := Request(High(id), Low(id), 1, READ_HOLDING, start, count);
    FrameHeader(r, Registers(Constant(x), start, count));
    assert Respond(Constant(x), false, RequestFrame(id, start, count)) == AnswerTo(Constant(x), false, r);
  }

  /** With a right answer the first byte behind the header is the high byte of the first register. */
  lemma {:induction false} RightAnswerShows(w: Wire, id: u16, start: u16, count: u16, x: u16, stream: seq<byte>)
    requires Servable(start, count) && w.replies != [] && w.replies[0].accepted.Some?
    requires stream == Stream(w.inbound + w.replies[0].arrives)
    requires Read(State(Some(w), id), start, count).regs == Some(Registers(Constant(x), start, count))
    ensures |stream| > HEADER_SIZE && stream[HEADER_SIZE] == High(x)
  {
    ReadSeesOnlyTheStream(w, id, start, count);
    ResponseHoldsRegisters(count);
    var data := stream[HEADER_SIZE..ResponseSize(count)];
    DecodeAt(data, 0);
    assert Decode(data)[0] == Registers(Constant(x), start, count)[0] == x;
    HighOfWord(data[0], data[1]);
  }

  lemma {:induction false} HighOfWord(high: byte, low: byte)
    ensures High(Word(high, low)) == high
  {
  }

  /** Main result: a read gets its own answer exactly when nothing is pending on the stream. */
  lemma {:induction false} OwnAnswerIff(w: Wire, id: u16, start: u16, count: u16)
    requires Servable(start, count)
    ensures GetsItsAnswer(w, id, start, count) <==> w.inbound == []
  {
    var request := RequestFrame(id, start, count);
    if w.inbound == [] {
      forall image: Image, reply: Reply | Delivers(reply, 12, Respond(image, false, request))
        ensures Read(State(Some(w.(replies := [reply])), id), start, count).regs == Some(Registers(image, start, count))
      {
        var c := Call(start, count, image, false);
        RespondAnswers(id, c);
        ReadAnswered(w.(replies := [reply]), id, c, Respond(image, false, request));
      }
    } else if GetsItsAnswer(w, id, start, count) {
      TwoDevices(w, id, start, count);
    }
  }

  /** Two devices that differ in every register cannot both be answered for. */
  lemma {:induction false} TwoDevices(w: Wire, id: u16, start: u16, count: u16)
    requires Servable(start, count) && w.inbound != []
    ensures !GetsItsAnswer(w, id, start, count)
  {
    var a := Respond(Constant(0), false, RequestFrame(id, start, count));
    var b := Respond(Constant(0xFFFF), false, RequestFrame(id, start, count));
    AnswerHeader(id, start, count, 0);
    AnswerHeader(id, start, count, 0xFFFF);
    TenthByte(w.inbound, a, b);
    OnePiece(a);
    OnePiece(b);
    if GetsItsAnswer(w, id, start, count) {
      var ra, rb := Reply(Some(12), [Data(a)]), Reply(Some(12), [Data(b)]);
      assert Delivers(ra, 12, a) && Delivers(rb, 12, b);
      RightAnswerShows(w.(replies := [ra]), id, start, count, 0, Stream(w.inbound + [Data(a)]));
      RightAnswerShows(w.(replies := [rb]), id, start, count, 0xFFFF, Stream(w.inbound + [Data(b)]));
    }
  }

  // ----- after one late answer

  /** The request is accepted, nothing arrives in time, and the answer comes afterwards, in any pieces. */
  ghost predicate ComesLate(reply: Reply, answer: seq<byte>) {
    && reply.accepted.Some? && reply.accepted.value >= 12
    && reply.arrives != [] && reply.arrives[0] == WouldBlock
    && OnlyBytes(reply.arrives[1..]) && Stream(reply.arrives[1..]) == answer
  }

  lemma {:induction false} ReadTimesOut(w: Wire, id: u16, c: Call, answer: seq<byte>)
    requires 1 <= c.count <= 127 && w.inbound == [] && w.replies != [] && ComesLate(w.replies[0], answer)
    ensures Read(State(Some(w), id), c.start, c.count) ==
      ReadResult(State(Some(After(w, id, c).(inbound := w.replies[0].arrives[1..])), NextId(id)), None)
  {
    var arrives := w.replies[0].arrives;
    assert [] + arrives == arrives;
    assert RequestFrame(id, c.start, c.count)[..12] == RequestFrame(id, c.start, c.count);
  }

  /** One read behind: the whole answer of an earlier read of that size is pending, and the read's own one takes
      its place. */
  lemma {:induction false} ReadOneBehind(w: Wire, id: u16, c: Call, late: Call, lateId: u16, answer: seq<byte>)
    requires Served(late) && late.count == c.count
    requires OnlyBytes(w.inbound) && IsAnswer(Stream(w.inbound), lateId, late)
    requires w.replies != [] && Delivers(w.replies[0], 12, answer)
    ensures var r := Read(State(Some(w), id), c.start, c.count);
      && r.regs == Answer(late)
      && r.state.wire.Some? && r.state.nextId == NextId(id)
      && r.state.wire.value.replies == w.replies[1..]
      && OnlyBytes(r.state.wire.value.inbound) && Stream(r.state.wire.value.inbound) == answer
  {
    ResponseHoldsRegisters(c.count);
    LateAnswerTaken(w, id, c.start, late, lateId);
    var arrives, need := w.replies[0].arrives, ResponseSize(c.count);
    StreamConcat(w.inbound, arrives);
    OnlyBytesConcat(w.inbound, arrives);
    ReceiveTakesFromStream(w.inbound + arrives, need);
    assert (Stream(w.inbound) + answer)[need..] == answer;
  }

  lemma {:induction false} OnlyBytesConcat(a: seq<Arrival>, b: seq<Arrival>)
    requires OnlyBytes(a) && OnlyBytes(b)
    ensures OnlyBytes(a + b)
  {
  }

  /** Reads of `count` registers, none of them refused. */
  ghost predicate SameSize(calls: seq<Call>, count: u16) {
    forall i :: 0 <= i < |calls| ==> calls[i].count == count && Served(calls[i])
  }

  /** The results of calls that are each answered with what belongs to the one before. */
  function OneBehind(late: Call, calls: seq<Call>): seq<Option<seq<u16>>>
    decreases |calls|
  {
    if calls == [] then [] else [Answer(late)] + OneBehind(calls[0], calls[1..])
  }

  lemma {:induction false} RunOneBehind(server: Server, w: Wire, id: u16, late: Call, lateId: u16, calls: seq<Call>)
    requires ConformingServer(server)
    requires Served(late) && SameSize(calls, late.count)
    requires OnlyBytes(w.inbound) && IsAnswer(Stream(w.inbound), lateId, late)
    requires AnsweredBy(server, w.replies, id, calls)
    ensures Defined(State(Some(w), id), calls)
    ensures Run(State(Some(w), id), calls).results == OneBehind(late, calls)
    decreases |calls|
  {
    if calls != [] {
      var c := calls[0];
      AnsweredFirst(server, w.replies, id, calls);
      ReadOneBehind(w, id, c, late, lateId, AnswerOf(server, id, c));
      var next := Read(State(Some(w), id), c.start, c.count).state;
      RunOneBehind(server, next.wire.value, NextId(id), c, id, calls[1..]);
    }
  }

  /** Main result: after one answer that came too late, starting from a quiet wire, the read fails, and every later
      read of that size returns the registers of the read before it. */
  lemma {:induction false} OneLateAnswer(server: Server, w: Wire, id: u16, first: Call, answer: seq<byte>,
                                         calls: seq<Call>)
    requires ConformingServer(server) && IsAnswer(answer, id, first)
    requires Served(first) && SameSize(calls, first.count)
    requires w.inbound == [] && w.replies != [] && ComesLate(w.replies[0], answer)
    requires AnsweredBy(server, w.replies[1..], NextId(id), calls)
    ensures Defined(State(Some(w), id), [first] + calls)
    ensures Run(State(Some(w), id), [first] + calls).results == [None] + OneBehind(first, calls)
  {
    ReadTimesOut(w, id, first, answer);
    var next := Read(State(Some(w), id), first.start, first.count).state;
    RunOneBehind(server, next.wire.value, NextId(id), first, id, calls);
    assert ([first] + calls)[1..] == calls;
  }

  /** The k-th of them. */
  lemma {:induction false} OneBehindAt(late: Call, calls: seq<Call>, k: nat)
    requires k < |calls|
    ensures |OneBehind(late, calls)| == |calls|
    ensures OneBehind(late, calls)[k] == Answer(if k == 0 then late else calls[k - 1])
    decreases |calls|
  {
    OneBehindSize(calls[0], calls[1..]);
    if k > 0 {
      OneBehindAt(calls[0], calls[1..], k - 1);
    }
  }

  lemma {:induction false} OneBehindSize(late: Call, calls: seq<Call>)
    ensures |OneBehind(late, calls)| == |calls|
    decreases |calls|
  {
    if calls != [] {
      OneBehindSize(calls[0], calls[1..]);
    }
  }
}
