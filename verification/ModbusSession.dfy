/**
 What the Modbus client reads, in terms of the byte stream rather than its pieces, and what a
 whole session against a conforming server returns.
 */
module ModbusSession {
  import opened Words
  import opened Modbus

  // ----- the stream behind the pieces

  /** The bytes that arrive before the first timeout, error or end of connection. */
  function Stream(inbound: seq<Arrival>): seq<byte> {
    if inbound == [] then []
    else match inbound[0]
         case Data(bytes) => if bytes == [] then [] else bytes + Stream(inbound[1..])
         case _ => []
  }

  /** How `recv` fails once these bytes are consumed. */
  function Stop(inbound: seq<Arrival>): Errc {
    if inbound == [] then TimedOut
    else match inbound[0]
         case Data(bytes) => if bytes == [] then ConnectionReset else Stop(inbound[1..])
         case WouldBlock => TimedOut
         case Broken => RecvFailed
  }

  /** Nothing but bytes, in non-empty pieces. */
  predicate OnlyBytes(inbound: seq<Arrival>) {
    forall i :: 0 <= i < |inbound| ==> inbound[i].Data? && inbound[i].bytes != []
  }

  lemma {:induction false} OneRecv(inbound: seq<Arrival>, max: nat)
    requires max > 0
    ensures var r := RecvOnce(inbound, max);
      if r.error.None?
      then Stream(inbound) == r.bytes + Stream(r.rest) && Stop(r.rest) == Stop(inbound)
      else Stream(inbound) == [] && r.error == Some(Stop(inbound))
  {
    if inbound != [] && inbound[0].Data? && |inbound[0].bytes| > max {
      var bytes := inbound[0].bytes;
      var rest := [Data(bytes[max..])] + inbound[1..];
      assert rest[1..] == inbound[1..];
      assert bytes == bytes[..max] + bytes[max..];
    }
  }

  lemma {:induction false} OneRecvKeepsBytes(inbound: seq<Arrival>, max: nat)
    requires max > 0 && OnlyBytes(inbound)
    ensures OnlyBytes(RecvOnce(inbound, max).rest)
    ensures RecvOnce(inbound, max).error.Some? ==> RecvOnce(inbound, max).rest == []
  {
  }

  /** Main result: the receive loop takes exactly the bytes it needs off the stream, or fails as the stream
      ends; how the stream is cut into pieces does not matter. */
  lemma {:induction false} ReceiveTakesFromStream(inbound: seq<Arrival>, need: nat)
    ensures var r := Receive(inbound, need);
      if |Stream(inbound)| >= need
      then r.error == None && r.bytes == Stream(inbound)[..need]
           && Stream(r.rest) == Stream(inbound)[need..] && Stop(r.rest) == Stop(inbound)
      else r.error == Some(Stop(inbound)) && r.bytes == Stream(inbound)
    ensures OnlyBytes(inbound) ==> OnlyBytes(Receive(inbound, need).rest)
    ensures OnlyBytes(inbound) && |Stream(inbound)| < need ==> Receive(inbound, need).rest == []
    decreases need
  {
    if need > 0 {
      var once := RecvOnce(inbound, need);
      OneRecv(inbound, need);
      if OnlyBytes(inbound) {
        OneRecvKeepsBytes(inbound, need);
      }
      if once.error.None? {
        ReceiveTakesFromStream(once.rest, need - |once.bytes|);
      }
    }
  }

  lemma {:induction false} ChunkIndependence(a: seq<Arrival>, b: seq<Arrival>, need: nat)
    requires Stream(a) == Stream(b) && Stop(a) == Stop(b)
    ensures var (r, s) := (Receive(a, need), Receive(b, need));
      && r.error == s.error && r.bytes == s.bytes
      && (r.error.None? ==> Stream(r.rest) == Stream(s.rest) && Stop(r.rest) == Stop(s.rest))
  {
    ReceiveTakesFromStream(a, need);
    ReceiveTakesFromStream(b, need);
  }

  lemma {:induction false} EmptyStream(inbound: seq<Arrival>)
    requires OnlyBytes(inbound) && Stream(inbound) == []
    ensures inbound == []
  {
  }

  // ----- a conforming server

  type Image = u16 -> u16

  function Registers(image: Image, start: u16, count: nat): seq<u16>
    requires start + count <= 0x1_0000
  {
    seq(count, i requires 0 <= i < count => image(start + i))
  }

  /** One application data unit of the stream, by its own length field: two bytes of number, two of protocol, which is 0,
      two of length, then as many bytes as that says, the unit first (section 3.1.3 of the MODBUS Messaging on TCP/IP
      Implementation Guide V1.0b). */
  datatype Adu = Adu(id: int, unit: byte, pdu: seq<byte>)

  datatype Cut = Cut(adu: Adu, rest: seq<byte>)

  /** The first unit of a stream, and what follows it. */
  function CutAdu(s: seq<byte>): Option<Cut> {
    if |s| < 7 then None
    else
      var size := 256 * (s[4] as int) + s[5];
      if s[2] != 0 || s[3] != 0 || size == 0 || |s| < 6 + size then None
      else Some(Cut(Adu(256 * (s[0] as int) + s[1], s[6], s[7..6 + size]), s[6 + size..]))
  }

  /** The fields of a request that the server goes by, and echoes. */
  datatype Request = Request(idHigh: byte, idLow: byte, unit: byte, code: byte, start: u16, count: u16)

  /** The request in a frame that is one whole unit, with a function code and two words in it. */
  function ParseRequest(frame: seq<byte>): Option<Request> {
    match CutAdu(frame)
    case None => None
    case Some(cut) =>
      var pdu := cut.adu.pdu;
      if cut.rest != [] || |pdu| != 5 then None
      else Some(Request(frame[0], frame[1], cut.adu.unit, pdu[0], Word(pdu[1], pdu[2]), Word(pdu[3], pdu[4])))
  }

  function ExceptionFrame(r: Request, exception: byte): (f: seq<byte>)
    ensures |f| == 9
  {
    [r.idHigh, r.idLow, 0, 0, 0, 3, r.unit, (r.code as int + 0x80) % 0x100, exception]
  }

  function RegistersFrame(r: Request, regs: seq<u16>): (f: seq<byte>)
    requires |regs| <= 125
  {
    [r.idHigh, r.idLow, 0, 0, High(3 + 2 * |regs|), Low(3 + 2 * |regs|), r.unit, r.code, 2 * |regs|] + Encode(regs)
  }

  function AnswerTo(image: Image, refused: bool, r: Request): seq<byte> {
    if r.code != READ_HOLDING then ExceptionFrame(r, 1)
    else if r.count == 0 || r.count > 125 then ExceptionFrame(r, 3)
    else if r.start + r.count > 0x1_0000 then ExceptionFrame(r, 2)
    else if refused then ExceptionFrame(r, 4)
    else RegistersFrame(r, Registers(image, r.start, r.count))
  }

  /** The server's answer to a request (sections 6.3 and 7 of MODBUS Application Protocol V1.1b3); a server may fail at
      any request, and is silent when there is none in the frame. */
  function Respond(image: Image, refused: bool, frame: seq<byte>): seq<byte> {
    match ParseRequest(frame)
    case None => []
    case Some(r) => AnswerTo(image, refused, r)
  }

  predicate Servable(start: u16, count: u16) {
    1 <= count <= 125 && start + count <= 0x1_0000
  }

  /** A read, the registers the server holds when it answers, and whether it fails then. */
  datatype Call = Call(start: u16, count: u16, image: Image, refused: bool)

  predicate Served(c: Call) {
    Servable(c.start, c.count) && !c.refused
  }

  /** What a call should return. */
  function Answer(c: Call): Option<seq<u16>> {
    if Served(c) then Some(Registers(c.image, c.start, c.count)) else None
  }

  lemma {:induction false} WordOfHalves(x: u16)
    ensures Word(High(x), Low(x)) == x
  {
  }

  /** A request on the wire is one unit of protocol 0, whose length field counts the bytes behind it, whatever follows:
      unit 1, function 3, and the start and the count with their high bytes first. */
  lemma {:induction false} CutRequestFrame(id: u16, start: u16, count: u16, rest: seq<byte>)
    ensures CutAdu(RequestFrame(id, start, count) + rest) ==
      Some(Cut(Adu(id, 1, [3, start / 256, start % 256, count / 256, count % 256]), rest))
  {
    var s := RequestFrame(id, start, count) + rest;
    assert s[12..] == rest;
    assert s[7..12] == [3, start / 256, start % 256, count / 256, count % 256];
  }

  lemma {:induction false} ParseOfRequestFrame(id: u16, start: u16, count: u16)
    ensures ParseRequest(RequestFrame(id, start, count))
         == Some(Request(High(id), Low(id), 1, READ_HOLDING, start, count))
  {
    var f := RequestFrame(id, start, count);
    CutRequestFrame(id, start, count, []);
    assert f + [] == f;
    WordOfHalves(start);
    WordOfHalves(count);
  }

  lemma {:induction false} RegistersFrameParses(r: Request, regs: seq<u16>)
    requires |regs| <= 125 && r.code == READ_HOLDING
    ensures var f := RegistersFrame(r, regs);
      |f| == 9 + 2 * |regs| && ParseResponse(f) == Some(regs)
  {
    DecodeEncode(regs);
    assert RegistersFrame(r, regs)[HEADER_SIZE..] == Encode(regs);
  }

  /** What the client may expect of the answer to its own request: its number is echoed, and the frame is one
      of the registers asked for, or an exception frame. */
  ghost predicate IsAnswer(answer: seq<byte>, id: u16, c: Call) {
    && |answer| >= HEADER_SIZE && Word(answer[0], answer[1]) == id
    && (if Served(c)
        then |answer| == HEADER_SIZE + 2 * c.count && ParseResponse(answer) == Answer(c)
        else |answer| == HEADER_SIZE && answer[7] != READ_HOLDING)
  }

  type Server = (Image, bool, seq<byte>) -> seq<byte>

  function AnswerOf(server: Server, id: u16, c: Call): seq<byte> {
    server(c.image, c.refused, RequestFrame(id, c.start, c.count))
  }

  ghost predicate ConformingServer(server: Server) {
    forall id: u16, c: Call | c.count >= 1 :: IsAnswer(AnswerOf(server, id, c), id, c)
  }

  lemma {:induction false} RespondAnswers(id: u16, c: Call)
    requires c.count >= 1
    ensures IsAnswer(Respond(c.image, c.refused, RequestFrame(id, c.start, c.count)), id, c)
  {
    ParseOfRequestFrame(id, c.start, c.count);
    WordOfHalves(id);
    var r := Request(High(id), Low(id), 1, READ_HOLDING, c.start, c.count);
    if Served(c) {
      RegistersFrameParses(r, Registers(c.image, c.start, c.count));
    }
  }

  /** The server of the specification is a conforming one. */
  lemma {:induction false} RespondConforms()
    ensures ConformingServer(Respond)
  {
    forall id: u16, c: Call | c.count >= 1
      ensures IsAnswer(AnswerOf(Respond, id, c), id, c)
    {
      RespondAnswers(id, c);
    }
  }

  // ----- one read

  /** What a read returns is decided by the stream alone; the ids, the length and the byte count in the
      answer are never looked at. */
  lemma {:induction false} ReadSeesOnlyTheStream(w: Wire, id: u16, start: u16, count: u16)
    requires 1 <= count <= 127
    ensures var (w', sent) := Sent(w, RequestFrame(id, start, count));
      var stream := Stream(w'.inbound);
      Read(State(Some(w), id), start, count).regs ==
      if sent && |stream| >= ResponseSize(count) && stream[7] == READ_HOLDING
      then Some(Decode(stream[HEADER_SIZE..ResponseSize(count)]))
      else None
  {
    var (w', sent) := Sent(w, RequestFrame(id, start, count));
    ReceiveTakesFromStream(w'.inbound, ResponseSize(count));
    var stream := Stream(w'.inbound);
    if |stream| >= ResponseSize(count) {
      assert stream[..ResponseSize(count)][HEADER_SIZE..] == stream[HEADER_SIZE..ResponseSize(count)];
    }
  }

  /** A read of more registers than its frame can hold overruns it exactly when a full frame with function 3 is there. */
  lemma {:induction false} OverrunsIff(w: Wire, id: u16, start: u16, count: u16)
    ensures var (w', sent) := Sent(w, RequestFrame(id, start, count));
      var stream := Stream(w'.inbound);
      Overruns(State(Some(w), id), start, count) <==>
      count > 127 && sent && |stream| >= ResponseSize(count) && stream[7] == READ_HOLDING
  {
    var (w', sent) := Sent(w, RequestFrame(id, start, count));
    ReceiveTakesFromStream(w'.inbound, ResponseSize(count));
  }

  /** Reads that never reach the stream: without a connection, and when `send` fails, the request has used up its number;
      a read of no registers does nothing at all. */
  lemma {:induction false} ReadUnsent(w: Wire, id: u16, start: u16, count: u16)
    ensures Read(State(Some(w), id), start, 0) == ReadResult(State(Some(w), id), None)
    ensures count >= 1 ==>
      !Overruns(State(None, id), start, count) &&
      Read(State(None, id), start, count) == ReadResult(State(None, ToU16(id + 1)), None)
    ensures count >= 1 && w.replies != [] && w.replies[0].accepted.None? ==>
      !Overruns(State(Some(w), id), start, count) &&
      Read(State(Some(w), id), start, count) ==
      ReadResult(State(Some(Wire(w.outbound, w.inbound + w.replies[0].arrives, w.replies[1..])), ToU16(id + 1)), None)
  {
  }

  lemma {:induction false} StreamConcat(a: seq<Arrival>, b: seq<Arrival>)
    requires OnlyBytes(a)
    ensures Stream(a + b) == Stream(a) + Stream(b)
  {
    if a == [] {
      assert a + b == b;
    } else {
      assert a[0].Data? && a[0].bytes != [];
      assert (a + b)[1..] == a[1..] + b;
      StreamConcat(a[1..], b);
    }
  }

  /** So an answer that came too late for an earlier read is taken for the answer to the next one of the same
      size: the client does not notice that the ids differ. */
  lemma {:induction false} LateAnswerTaken(w: Wire, id: u16, start: u16, late: Call, lateId: u16)
    requires Served(late)
    requires w.replies != [] && w.replies[0].accepted.Some?
    requires OnlyBytes(w.inbound) && IsAnswer(Stream(w.inbound), lateId, late)
    ensures Read(State(Some(w), id), start, late.count).regs == Answer(late)
  {
    ResponseHoldsRegisters(late.count);
    ReadSeesOnlyTheStream(w, id, start, late.count);
    var pending := Stream(w.inbound);
    StreamConcat(w.inbound, w.replies[0].arrives);
    var stream := Stream(w.inbound + w.replies[0].arrives);
    assert stream[HEADER_SIZE..ResponseSize(late.count)] == pending[HEADER_SIZE..];
    assert stream[7] == pending[7];
  }

  /** A request of `size` bytes is accepted as a whole, and `answer` arrives, in any non-empty pieces. */
  ghost predicate Delivers(reply: Reply, size: nat, answer: seq<byte>) {
    && reply.accepted.Some? && reply.accepted.value >= size
    && OnlyBytes(reply.arrives)
    && Stream(reply.arrives) == answer
  }

  /** One exchange when nothing was pending: the request goes out, and the answer comes back if it has the
      expected size, or is used up in vain if it is shorter. */
  lemma {:induction false} ExchangeAnswered(w: Wire, request: seq<byte>, need: nat, answer: seq<byte>)
    requires w.inbound == [] && w.replies != [] && Delivers(w.replies[0], |request|, answer)
    requires |answer| <= need
    ensures var (wire, r) := Exchange(Some(w), request, need);
      && wire == Some(Wire(w.outbound + request, [], w.replies[1..]))
      && (if |answer| == need then r.error == None && r.bytes == answer else r.error.Some?)
  {
    var arrives := w.replies[0].arrives;
    assert [] + arrives == arrives && request[..|request|] == request;
    ReceiveTakesFromStream(arrives, need);
    if |answer| == need {
      EmptyStream(Receive(arrives, need).rest);
    }
  }

  /** The wire after a call that was answered. */
  function After(w: Wire, id: u16, c: Call): Wire
    requires w.replies != []
  {
    Wire(w.outbound + RequestFrame(id, c.start, c.count), [], w.replies[1..])
  }

  /** A read with nothing pending on the stream, answered by a conforming server, in any pieces; it does not overrun
      its frame even when it asks for more registers than that holds. */
  lemma {:induction false} ReadAnswered(w: Wire, id: u16, c: Call, answer: seq<byte>)
    requires c.count >= 1 && IsAnswer(answer, id, c)
    requires w.inbound == [] && w.replies != [] && Delivers(w.replies[0], 12, answer)
    ensures var st := State(Some(w), id);
      && !Overruns(st, c.start, c.count)
      && Read(st, c.start, c.count) == ReadResult(State(Some(After(w, id, c)), NextId(id)), Answer(c))
  {
    ResponseHoldsRegisters(c.count);
    ExchangeAnswered(w, RequestFrame(id, c.start, c.count), ResponseSize(c.count), answer);
  }

  // ----- sessions

  datatype Session = Session(state: State, results: seq<Option<seq<u16>>>)

  /** No call overruns its frame. */
  predicate Defined(st: State, calls: seq<Call>)
    decreases |calls|
  {
    calls != [] ==>
      && !Overruns(st, calls[0].start, calls[0].count)
      && Defined(Read(st, calls[0].start, calls[0].count).state, calls[1..])
  }

  function Run(st: State, calls: seq<Call>): Session
    requires Defined(st, calls)
    decreases |calls|
  {
    if calls == [] then Session(st, [])
    else
      var first := Read(st, calls[0].start, calls[0].count);
      var rest := Run(first.state, calls[1..]);
      Session(rest.state, [first.regs] + rest.results)
  }

  /** The request frames of the calls, the first one numbered `id`. */
  function Requests(id: u16, calls: seq<Call>): seq<byte>
    decreases |calls|
  {
    if calls == [] then []
    else RequestFrame(id, calls[0].start, calls[0].count) + Requests(NextId(id), calls[1..])
  }

  function AllAnswers(calls: seq<Call>): seq<Option<seq<u16>>> {
    if calls == [] then [] else [Answer(calls[0])] + AllAnswers(calls[1..])
  }

  /** The k-th request is answered by the server. */
  ghost predicate AnsweredAt(server: Server, replies: seq<Reply>, id: u16, calls: seq<Call>, k: nat) {
    && k < |calls| && k < |replies|
    && calls[k].count >= 1
    && Delivers(replies[k], 12, AnswerOf(server, ToU16(id + k), calls[k]))
  }

  /** Every request is answered, in order, by the server; the first one is numbered `id`. */
  ghost predicate AnsweredBy(server: Server, replies: seq<Reply>, id: u16, calls: seq<Call>) {
    |calls| <= |replies| && forall k: nat :: k < |calls| ==> AnsweredAt(server, replies, id, calls, k)
  }

  lemma {:induction false} NextIds(id: u16, k: nat)
    requires k > 0
    ensures ToU16(NextId(id) + (k - 1)) == ToU16(id + k)
  {
  }

  lemma {:induction false} NumbersAdd(id: u16, n: nat, k: nat)
    ensures ToU16(ToU16(id + n) + k) == ToU16(id + (n + k))
  {
  }

  lemma {:induction false} AnsweredPrefix(server: Server, replies: seq<Reply>, id: u16, a: seq<Call>, b: seq<Call>)
    requires AnsweredBy(server, replies, id, a + b)
    ensures AnsweredBy(server, replies, id, a)
  {
    forall k: nat | k < |a|
      ensures AnsweredAt(server, replies, id, a, k)
    {
      assert AnsweredAt(server, replies, id, a + b, k);
    }
  }

  lemma {:induction false} AnsweredRest(server: Server, replies: seq<Reply>, id: u16, a: seq<Call>, b: seq<Call>)
    requires AnsweredBy(server, replies, id, a + b)
    ensures |a| <= |replies| && AnsweredBy(server, replies[|a|..], ToU16(id + |a|), b)
  {
    var left, next := replies[|a|..], ToU16(id + |a|);
    forall k: nat | k < |b|
      ensures AnsweredAt(server, left, next, b, k)
    {
      assert AnsweredAt(server, replies, id, a + b, |a| + k);
      NumbersAdd(id, |a|, k);
    }
  }

  lemma {:induction false} AnsweredFirst(server: Server, replies: seq<Reply>, id: u16, calls: seq<Call>)
    requires AnsweredBy(server, replies, id, calls) && calls != []
    ensures replies != [] && calls[0].count >= 1 && Delivers(replies[0], 12, AnswerOf(server, id, calls[0]))
    ensures AnsweredBy(server, replies[1..], NextId(id), calls[1..])
  {
    assert AnsweredAt(server, replies, id, calls, 0);
    forall k: nat | k < |calls[1..]|
      ensures AnsweredAt(server, replies[1..], NextId(id), calls[1..], k)
    {
      assert AnsweredAt(server, replies, id, calls, k + 1);
      NextIds(id, k + 1);
    }
  }

  lemma {:induction false} RunAnswered(w: Wire, id: u16, calls: seq<Call>, answer: seq<byte>)
    requires calls != [] && calls[0].count >= 1 && IsAnswer(answer, id, calls[0])
    requires w.inbound == [] && w.replies != [] && Delivers(w.replies[0], 12, answer)
    requires Defined(State(Some(After(w, id, calls[0])), NextId(id)), calls[1..])
    ensures Defined(State(Some(w), id), calls)
    ensures Run(State(Some(w), id), calls) ==
      var rest := Run(State(Some(After(w, id, calls[0])), NextId(id)), calls[1..]);
      Session(rest.state, [Answer(calls[0])] + rest.results)
  {
    ReadAnswered(w, id, calls[0], answer);
  }

  /** The state after all calls, one at a time. */
  function Finish(w: Wire, id: u16, calls: seq<Call>): State
    requires |calls| <= |w.replies|
    decreases |calls|
  {
    if calls == [] then State(Some(w), id)
    else Finish(After(w, id, calls[0]), NextId(id), calls[1..])
  }

  /** All requests sent, all replies used up, and nothing left on the stream. */
  function Quiet(w: Wire, id: u16, calls: seq<Call>): State
    requires |calls| <= |w.replies|
  {
    State(Some(Wire(w.outbound + Requests(id, calls), [], w.replies[|calls|..])), ToU16(id + |calls|))
  }

  lemma {:induction false} Regroup(a: seq<byte>, b: seq<byte>, c: seq<byte>)
    ensures a + b + c == a + (b + c)
  {
  }

  lemma {:induction false} FinishInOneGo(w: Wire, id: u16, calls: seq<Call>)
    requires w.inbound == [] && |calls| <= |w.replies|
    ensures Finish(w, id, calls) == Quiet(w, id, calls)
    decreases |calls|
  {
    if calls == [] {
      assert w.outbound + [] == w.outbound;
    } else {
      var w', rest := After(w, id, calls[0]), Requests(NextId(id), calls[1..]);
      FinishInOneGo(w', NextId(id), calls[1..]);
      NextIds(id, |calls|);
      Regroup(w.outbound, RequestFrame(id, calls[0].start, calls[0].count), rest);
      assert w'.replies[|calls| - 1..] == w.replies[|calls|..];
    }
  }

  lemma {:induction false} RunStepByStep(server: Server, w: Wire, id: u16, calls: seq<Call>)
    requires ConformingServer(server)
    requires w.inbound == [] && AnsweredBy(server, w.replies, id, calls)
    ensures |calls| <= |w.replies| && Defined(State(Some(w), id), calls)
    ensures Run(State(Some(w), id), calls) == Session(Finish(w, id, calls), AllAnswers(calls))
    decreases |calls|
  {
    if calls != [] {
      AnsweredFirst(server, w.replies, id, calls);
      RunStepByStep(server, After(w, id, calls[0]), NextId(id), calls[1..]);
      RunAnswered(w, id, calls, AnswerOf(server, id, calls[0]));
    }
  }

  /** Main result: over any session with a conforming server, every read returns exactly the registers the
      server held when it answered, whatever the pieces they arrived in, and fails exactly when it was refused; no
      frame is overrun; requests carry consecutive numbers modulo 2^16; and nothing is left on the stream afterwards,
      not even after a refused read. */
  lemma {:induction false} SessionCorrect(server: Server, w: Wire, id: u16, calls: seq<Call>)
    requires ConformingServer(server)
    requires w.inbound == [] && AnsweredBy(server, w.replies, id, calls)
    ensures |calls| <= |w.replies| && Defined(State(Some(w), id), calls)
    ensures Run(State(Some(w), id), calls) == Session(Quiet(w, id, calls), AllAnswers(calls))
  {
    RunStepByStep(server, w, id, calls);
    FinishInOneGo(w, id, calls);
  }

  /** The k-th 12-byte frame of a stream. */
  function FrameAt(stream: seq<byte>, k: nat): seq<byte>
    requires 12 * k + 12 <= |stream|
  {
    stream[12 * k..12 * k + 12]
  }

  lemma {:induction false} FirstFrame(first: seq<byte>, rest: seq<byte>)
    requires |first| == 12
    ensures FrameAt(first + rest, 0) == first
  {
  }

  lemma {:induction false} NextFrame(first: seq<byte>, rest: seq<byte>, k: nat)
    requires |first| == 12 && 12 * k + 12 <= |rest|
    ensures FrameAt(first + rest, k + 1) == FrameAt(rest, k)
  {
    assert 12 * (k + 1) == 12 * k + 12;
  }

  /** The k-th request on the wire carries the number id + k modulo 2^16. */
  lemma {:induction false} RequestNumbers(id: u16, calls: seq<Call>, k: nat)
    requires k < |calls|
    ensures |Requests(id, calls)| == 12 * |calls|
    ensures FrameAt(Requests(id, calls), k) == RequestFrame(ToU16(id + k), calls[k].start, calls[k].count)
    decreases |calls|
  {
    var first, rest := RequestFrame(id, calls[0].start, calls[0].count), Requests(NextId(id), calls[1..]);
    assert Requests(id, calls) == first + rest;
    RequestsSize(NextId(id), calls[1..]);
    if k == 0 {
      FirstFrame(first, rest);
    } else {
      RequestNumbers(NextId(id), calls[1..], k - 1);
      NextIds(id, k);
      NextFrame(first, rest, k - 1);
    }
  }

  lemma {:induction false} RequestsSize(id: u16, calls: seq<Call>)
    ensures |Requests(id, calls)| == 12 * |calls|
    decreases |calls|
  {
    if calls != [] {
      RequestsSize(NextId(id), calls[1..]);
    }
  }

  // ----- values carried by registers

  /** The registers that carry a signed 32-bit value. */
  function Split32(x: int32): seq<u16> {
    var u := x % 0x1_0000_0000;
    [u / 0x1_0000, u % 0x1_0000]
  }

  lemma {:induction false} Signed32RoundTrip(x: int32)
    ensures ToI32(Long(Split32(x)[0], Split32(x)[1])) == x
  {
  }

  lemma {:induction false} Signed16RoundTrip(x: int16)
    ensures ToI16(x % 0x1_0000) == x
  {
  }

  lemma {:induction false} Signed32OneToOne(high: u16, low: u16)
    ensures Split32(ToI32(Long(high, low))) == [high, low]
  {
  }

  /** A text packed two bytes a register, as the device does it. */
  function Pack(text: seq<byte>): seq<u16> {
    Decode(text)
  }

  lemma {:induction false} UnpackPack(text: seq<byte>)
    requires |text| % 2 == 0
    ensures Encode(Pack(text)) == text && 2 * |Pack(text)| == |text|
    decreases |text|
  {
    if text != [] {
      UnpackPack(text[2..]);
      assert text == [text[0], text[1]] + text[2..];
    }
  }

  /** Neither a NUL nor a space. */
  predicate NoPaddingAtEnd(s: seq<byte>) {
    s != [] ==> s[|s| - 1] != 0 && s[|s| - 1] != 32
  }

  predicate AllPadding(s: seq<byte>) {
    forall i :: 0 <= i < |s| ==> s[i] == 0 || s[i] == 32
  }

  /** Stripping gives the one way to cut `s` into a text not ending in padding, and padding. */
  lemma {:induction false} StripIsTheCut(s: seq<byte>, text: seq<byte>)
    ensures StripPadding(s) == text <==> text <= s && NoPaddingAtEnd(text) && AllPadding(s[|text|..])
    decreases |s|
  {
    if s != [] && IsPadding(s[|s| - 1]) {
      var shorter := s[..|s| - 1];
      StripIsTheCut(shorter, text);
      if text <= shorter {
        assert forall i :: 0 <= i < |s[|text|..]| - 1 ==> s[|text|..][i] == shorter[|text|..][i];
        assert forall i :: 0 <= i < |shorter[|text|..]| ==> shorter[|text|..][i] == s[|text|..][i];
      }
    } else if s != [] && text <= s && |text| < |s| {
      assert s[|text|..][|s| - 1 - |text|] == s[|s| - 1];
    }
  }

  /** Any text without padding at its end is read back exactly, whatever mix of padding fills its registers. */
  lemma {:induction false} StringRoundTrip(text: seq<byte>, padding: seq<byte>)
    requires NoPaddingAtEnd(text) && AllPadding(padding) && (|text| + |padding|) % 2 == 0
    ensures StripPadding(Encode(Pack(text + padding))) == text
  {
    UnpackPack(text + padding);
    assert (text + padding)[|text|..] == padding;
    StripIsTheCut(text + padding, text);
  }
}
