/**
 The requests of a session as a server finds them on the stream: one after the other, each as long as its own
 length field says.
 */
module RequestStream {
  import opened Words
  import opened Modbus
  import opened ModbusSession

  /** A stream cut into units; None when some part of it is not a whole one. */
  function CutStream(s: seq<byte>): Option<seq<Adu>>
    decreases |s|
  {
    if s == [] then Some([])
    else
      match CutAdu(s)
      case None => None
      case Some(cut) =>
        match CutStream(cut.rest)
        case None => None
        case Some(more) => Some([cut.adu] + more)
  }

  /** What the k-th of the calls, numbered from `id`, asks the server for. */
  function AskOf(id: u16, calls: seq<Call>, k: nat): Adu
    requires k < |calls|
  {
    var c := calls[k];
    Adu((id + k) % 65536, 1, [3, c.start / 256, c.start % 256, c.count / 256, c.count % 256])
  }

  function Asks(id: u16, calls: seq<Call>): seq<Adu> {
    seq(|calls|, k requires 0 <= k < |calls| => AskOf(id, calls, k))
  }

  lemma {:induction false} AsksCons(id: u16, calls: seq<Call>)
    requires calls != []
    ensures Asks(id, calls) == [AskOf(id, calls, 0)] + Asks(NextId(id), calls[1..])
  {
    var all := Asks(id, calls);
    forall k | 1 <= k < |calls|
      ensures all[k] == Asks(NextId(id), calls[1..])[k - 1]
    {
      NextIds(id, k);
    }
  }

  /** Main result: the stream of a session splits, by the length fields on it, into exactly the requests of its calls,
      in order and numbered one by one. */
  lemma {:induction false} StreamSplits(id: u16, calls: seq<Call>)
    ensures CutStream(Requests(id, calls)) == Some(Asks(id, calls))
    decreases |calls|
  {
    if calls == [] {
      assert Asks(id, calls) == [];
    } else {
      var rest := Requests(NextId(id), calls[1..]);
      assert Requests(id, calls) == RequestFrame(id, calls[0].start, calls[0].count) + rest;
      CutRequestFrame(id, calls[0].start, calls[0].count, rest);
      StreamSplits(NextId(id), calls[1..]);
      AsksCons(id, calls);
    }
  }

  /** So over a session with a conforming server, what is on the wire afterwards is what was asked. */
  lemma {:induction false} SessionAsks(server: Server, w: Wire, id: u16, calls: seq<Call>)
    requires ConformingServer(server)
    requires w.outbound == [] && w.inbound == [] && AnsweredBy(server, w.replies, id, calls)
    ensures Defined(State(Some(w), id), calls)
    ensures var end := Run(State(Some(w), id), calls).state;
      end.wire.Some? && CutStream(end.wire.value.outbound) == Some(Asks(id, calls))
  {
    SessionCorrect(server, w, id, calls);
    StreamSplits(id, calls);
    assert [] + Requests(id, calls) == Requests(id, calls);
  }
}
