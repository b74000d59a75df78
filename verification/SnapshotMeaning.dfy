/**
 What a snapshot means when its reads succeed: every field is the scaled big-endian decode of its
 own registers, in whatever state the device was in when it answered that read.
 */
module SnapshotMeaning {
  import opened Words
  import opened Modbus
  import opened ModbusSession
  import opened SolakonDevice
  import Reg

  /** The registers the device holds when it answers the k-th read. */
  type History = nat -> Image

  function Unsigned16(v: Image, addr: u16): u16 { v(addr) }

  function Signed16(v: Image, addr: u16): int16 { ToI16(v(addr)) }

  function Unsigned32(v: Image, addr: u16): u32
    requires addr < 0xFFFF
  {
    Long(v(addr), v(addr + 1))
  }

  function Signed32(v: Image, addr: u16): int32
    requires addr < 0xFFFF
  {
    ToI32(Long(v(addr), v(addr + 1)))
  }

  function Text16(v: Image, addr: u16): seq<byte>
    requires addr <= 0xFFF0
  {
    StripPadding(Encode(Registers(v, addr, 16)))
  }

  function TrueInfo(v: History, div: Division): DeviceInfo {
    DeviceInfo(
      ToU16(Unsigned32(v(0), Reg.PROTOCOL_VERSION)), Text16(v(1), Reg.MODEL_NAME2), Text16(v(2), Reg.PN),
      Unsigned16(v(3), Reg.MODEL_ID), Unsigned16(v(4), Reg.NUM_STRINGS), Unsigned16(v(5), Reg.NUM_MPPT),
      div(Signed32(v(6), Reg.RATED_POWER), 1000.0), div(Signed32(v(7), Reg.MAX_ACTIVE), 1000.0),
      div(Signed32(v(8), Reg.MAX_APPARENT), 1000.0), div(Signed32(v(9), Reg.MAX_REACTIVE_NEG), 1000.0),
      Unsigned16(v(10), Reg.STATUS1), Unsigned32(v(11), Reg.STATUS3),
      Unsigned16(v(12), Reg.ALARM1), Unsigned16(v(13), Reg.ALARM2))
  }

  function TrueMeter1(v: History, div: Division): MeterData {
    MeterData(
      Unsigned16(v(14), Reg.METER1_CONN) == 1,
      div(Signed32(v(15), Reg.METER1_R_VOLTAGE), 10.0),
      div(Signed32(v(16), Reg.METER1_S_VOLTAGE), 10.0),
      div(Signed32(v(17), Reg.METER1_T_VOLTAGE), 10.0),
      div(Signed32(v(18), Reg.METER1_R_CURRENT), 1000.0),
      div(Signed32(v(19), Reg.METER1_S_CURRENT), 1000.0),
      div(Signed32(v(20), Reg.METER1_T_CURRENT), 1000.0),
      div(Signed32(v(21), Reg.METER1_R_POWER), 10.0),
      div(Signed32(v(22), Reg.METER1_S_POWER), 10.0),
      div(Signed32(v(23), Reg.METER1_T_POWER), 10.0),
      div(Signed32(v(24), Reg.METER1_COMBINED_POWER), 10.0),
      div(Signed32(v(25), Reg.METER1_FREQ), 100.0))
  }

  function TrueMeter2(v: History, div: Division): MeterData {
    MeterData(
      Unsigned16(v(26), Reg.METER2_CONN) == 1,
      div(Signed32(v(27), Reg.METER2_R_VOLTAGE), 10.0),
      div(Signed32(v(28), Reg.METER2_S_VOLTAGE), 10.0),
      div(Signed32(v(29), Reg.METER2_T_VOLTAGE), 10.0),
      div(Signed32(v(30), Reg.METER2_R_CURRENT), 1000.0),
      div(Signed32(v(31), Reg.METER2_S_CURRENT), 1000.0),
      div(Signed32(v(32), Reg.METER2_T_CURRENT), 1000.0),
      0.0,
      0.0,
      0.0,
      div(Signed32(v(33), Reg.METER2_COMBINED_POWER), 10.0),
      div(Signed32(v(34), Reg.METER2_FREQ), 100.0))
  }

  function TrueBattery(v: History, div: Division): BatteryData {
    BatteryData(
      Unsigned16(v(35), Reg.BMS1),
      Unsigned16(v(36), Reg.BMS1_MAIN),
      Text16(v(37), Reg.BMS1_SN),
      Unsigned16(v(38), Reg.BMS1_SLAVE_COUNT),
      div(Unsigned16(v(39), Reg.BMS1_VOLTAGE), 10.0),
      div(Signed16(v(40), Reg.BMS1_CURRENT), 10.0),
      div(Signed16(v(41), Reg.BMS1_TEMP), 10.0),
      div(Unsigned16(v(42), Reg.BMS1_SOC), 1.0),
      div(Signed16(v(43), Reg.BMS1_MAX_TEMP), 10.0),
      div(Signed16(v(44), Reg.BMS1_MIN_TEMP), 10.0),
      div(Unsigned16(v(45), Reg.BMS1_MAX_CELL), 1.0),
      div(Unsigned16(v(46), Reg.BMS1_MIN_CELL), 1.0),
      div(Unsigned16(v(47), Reg.BMS1_SOH), 1.0),
      div(Unsigned16(v(48), Reg.BMS1_REMAIN_ENERGY), 0.1))
  }

  function TrueEnergy(v: History, div: Division): EnergyData {
    EnergyData(
      div(Signed32(v(49), Reg.PV_TOTAL_POWER), 1.0),
      div(Signed32(v(50), Reg.AC_TOTAL_POWER), 1.0),
      div(Signed32(v(51), Reg.SMART_METER_POWER), 1.0),
      div(Signed32(v(52), Reg.BATTERY_POWER), 1.0),
      div(Unsigned32(v(53), Reg.TOTAL_CHARGE_CAP), 10.0),
      div(Unsigned32(v(54), Reg.TOTAL_CHARGE_TODAY), 10.0),
      div(Unsigned32(v(55), Reg.TOTAL_DISCHARGE), 10.0),
      div(Unsigned32(v(56), Reg.TOTAL_DISCHARGE_TODAY), 10.0),
      div(Unsigned32(v(57), Reg.TOTAL_FEEDER), 10.0),
      div(Unsigned32(v(58), Reg.TOTAL_FEEDER_TODAY), 10.0),
      div(Unsigned32(v(59), Reg.TOTAL_CONSUMPTION), 10.0),
      div(Unsigned32(v(60), Reg.TOTAL_CONSUMPTION_TODAY), 10.0),
      div(Unsigned32(v(61), Reg.TOTAL_OUTPUT), 10.0),
      div(Unsigned32(v(62), Reg.TOTAL_OUTPUT_TODAY), 10.0),
      div(Unsigned32(v(63), Reg.TOTAL_LOAD), 10.0),
      div(Unsigned32(v(64), Reg.TOTAL_LOAD_TODAY), 10.0))
  }

  function TrueSnapshot(v: History, div: Division): Snapshot {
    Snapshot(TrueInfo(v, div), TrueMeter1(v, div), TrueMeter2(v, div), TrueBattery(v, div), TrueEnergy(v, div), true)
  }

  /** The k-th read got the registers the device held at that moment. */
  ghost predicate Answered(a: Answers, v: History, k: nat)
    requires k < READS
  {
    k < |a| && a[k] == Answer(Call(Plan(k).addr, Plan(k).count, v(k), false))
  }

  ghost predicate AllAnswered(a: Answers, v: History) {
    forall k :: 0 <= k < READS ==> Answered(a, v, k)
  }

  // ----- a snapshot is a session

  /** One snapshot on the side of the device: its registers at every read, and the reads it refuses. */
  datatype Round = Round(v: History, fails: nat -> bool)

  function PlannedCall(r: Round, k: nat): (c: Call)
    requires k < READS
    ensures 1 <= c.count <= 127
  {
    Call(Plan(k).addr, Plan(k).count, r.v(k), r.fails(k))
  }

  function PlannedCalls(r: Round): (calls: seq<Call>)
    ensures |calls| == READS
    ensures forall k :: 0 <= k < READS ==> calls[k] == PlannedCall(r, k)
  {
    seq(READS, k requires 0 <= k < READS => PlannedCall(r, k))
  }

  /** The k-th read got the registers of that moment, or nothing if it was refused. */
  ghost predicate GotAnswer(a: Answers, r: Round, k: nat) {
    k < READS && k < |a| && a[k] == Answer(PlannedCall(r, k))
  }

  ghost predicate GotAnswers(a: Answers, r: Round) {
    forall k: nat :: k < READS ==> GotAnswer(a, r, k)
  }

  ghost predicate NoneFails(r: Round) {
    forall k: nat :: k < READS ==> !r.fails(k)
  }

  lemma {:induction false} AllAnsweredWhenNoneFails(a: Answers, r: Round)
    requires GotAnswers(a, r) && NoneFails(r)
    ensures AllAnswered(a, r.v)
  {
    forall k: nat | k < READS
      ensures Answered(a, r.v, k)
    {
      assert GotAnswer(a, r, k);
    }
  }

  ghost predicate Planned(call: Call, k: nat) {
    k < READS && call.start == Plan(k).addr && call.count == Plan(k).count
  }

  /** The reads of a snapshot from the k-th on are a session of the client. */
  lemma {:induction false} ReadsAreSession(start: State, calls: seq<Call>, answers: Answers, k: nat)
    requires k <= READS == |calls| == |answers|
    requires forall i: nat :: i < READS ==> Planned(calls[i], i)
    requires AnswersOf(start, answers)
    ensures Defined(StateAt(start, k), calls[k..])
    ensures Run(StateAt(start, k), calls[k..]) == Session(StateAt(start, READS), answers[k..])
    decreases READS - k
  {
    if k < READS {
      ReadsAreSession(start, calls, answers, k + 1);
      assert Planned(calls[k], k) && AnswerIs(start, answers, k);
      OneMoreRead(start, k, calls[k], calls[k + 1..]);
      FirstOfRest(calls, k);
      FirstOfRest(answers, k);
    }
  }

  lemma {:induction false} FirstOfRest<T>(s: seq<T>, k: nat)
    requires k < |s|
    ensures s[k..] == [s[k]] + s[k + 1..]
  {
  }

  lemma {:induction false} OneMoreRead(start: State, k: nat, call: Call, rest: seq<Call>)
    requires Planned(call, k) && Defined(StateAt(start, k + 1), rest)
    ensures Defined(StateAt(start, k), [call] + rest)
    ensures Run(StateAt(start, k), [call] + rest) ==
      var s := Run(StateAt(start, k + 1), rest); Session(s.state, [AnswerAt(start, k)] + s.results)
  {
    assert ([call] + rest)[1..] == rest;
  }

  lemma {:induction false} PlannedCallsPlanned(r: Round)
    ensures forall k: nat :: k < READS ==> Planned(PlannedCalls(r)[k], k)
  {
  }

  lemma {:induction false} AnswersFromAre(start: State)
    ensures AnswersOf(start, AnswersFrom(start))
  {
  }

  lemma {:induction false} PlanServable(k: nat)
    requires k < READS
    ensures Plan(k).count in {1, 2, 16} && Servable(Plan(k).addr, Plan(k).count)
  {
  }

  lemma {:induction false} AnswersByIndex(calls: seq<Call>, k: nat)
    requires k < |calls|
    ensures |AllAnswers(calls)| == |calls| && AllAnswers(calls)[k] == Answer(calls[k])
    decreases |calls|
  {
    AnswersSize(calls[1..]);
    if k > 0 {
      AnswersByIndex(calls[1..], k - 1);
    }
  }

  lemma {:induction false} AnswersSize(calls: seq<Call>)
    ensures |AllAnswers(calls)| == |calls|
  {
    if calls != [] {
      AnswersSize(calls[1..]);
    }
  }

  // ----- one read

  lemma {:induction false} OneRegister(a: Answers, v: History, k: nat, addr: u16)
    requires k < READS && Answered(a, v, k) && Plan(k) == Ask(addr, 1)
    ensures U16At(a, k) == Some(Unsigned16(v(k), addr)) && I16At(a, k) == Some(Signed16(v(k), addr))
  {
    PlanServable(k);
  }

  lemma {:induction false} TwoRegisters(a: Answers, v: History, k: nat, addr: u16)
    requires k < READS && Answered(a, v, k) && Plan(k) == Ask(addr, 2)
    ensures addr < 0xFFFF
    ensures U32At(a, k) == Some(Unsigned32(v(k), addr)) && I32At(a, k) == Some(Signed32(v(k), addr))
  {
    PlanServable(k);
  }

  lemma {:induction false} TextRegisters(a: Answers, v: History, k: nat, addr: u16)
    requires k < READS && Answered(a, v, k) && Plan(k) == Ask(addr, 16)
    ensures addr <= 0xFFF0 && TextAt(a, k) == Some(Text16(v(k), addr))
  {
    PlanServable(k);
  }

  // ----- all reads succeed

  lemma {:induction false} InfoTrue(a: Answers, v: History, junk: u32, div: Division)
    requires AllAnswered(a, v)
    ensures Info(a, junk, div) == TrueInfo(v, div)
  {
    TwoRegisters(a, v, 0, Reg.PROTOCOL_VERSION);
    TextRegisters(a, v, 1, Reg.MODEL_NAME2);
    TextRegisters(a, v, 2, Reg.PN);
    OneRegister(a, v, 3, Reg.MODEL_ID);
    OneRegister(a, v, 4, Reg.NUM_STRINGS);
    OneRegister(a, v, 5, Reg.NUM_MPPT);
    TwoRegisters(a, v, 6, Reg.RATED_POWER);
    TwoRegisters(a, v, 7, Reg.MAX_ACTIVE);
    TwoRegisters(a, v, 8, Reg.MAX_APPARENT);
    TwoRegisters(a, v, 9, Reg.MAX_REACTIVE_NEG);
    OneRegister(a, v, 10, Reg.STATUS1);
    TwoRegisters(a, v, 11, Reg.STATUS3);
    OneRegister(a, v, 12, Reg.ALARM1);
    OneRegister(a, v, 13, Reg.ALARM2);
  }

  lemma {:induction false} MeterValueTrue(a: Answers, v: History, j: nat, k: nat, addr: u16)
    requires 0 < j && k == MeterRead(j) && k < READS && Answered(a, v, k) && Plan(k) == Ask(addr, 2)
    ensures addr < 0xFFFF && Raw(a, j) == Signed32(v(k), addr)
  {
    TwoRegisters(a, v, k, addr);
  }

  lemma {:induction false} Meter1True(a: Answers, v: History, div: Division)
    requires AllAnswered(a, v)
    ensures Meter1(a, div) == TrueMeter1(v, div)
  {
    OneRegister(a, v, 14, Reg.METER1_CONN);
    MeterValueTrue(a, v, 1, 15, Reg.METER1_R_VOLTAGE);
    MeterValueTrue(a, v, 2, 16, Reg.METER1_S_VOLTAGE);
    MeterValueTrue(a, v, 3, 17, Reg.METER1_T_VOLTAGE);
    MeterValueTrue(a, v, 4, 18, Reg.METER1_R_CURRENT);
    MeterValueTrue(a, v, 5, 19, Reg.METER1_S_CURRENT);
    MeterValueTrue(a, v, 6, 20, Reg.METER1_T_CURRENT);
    MeterValueTrue(a, v, 7, 21, Reg.METER1_R_POWER);
    MeterValueTrue(a, v, 8, 22, Reg.METER1_S_POWER);
    MeterValueTrue(a, v, 9, 23, Reg.METER1_T_POWER);
    MeterValueTrue(a, v, 10, 24, Reg.METER1_COMBINED_POWER);
    MeterValueTrue(a, v, 11, 25, Reg.METER1_FREQ);
  }

  lemma {:induction false} Meter2True(a: Answers, v: History, div: Division)
    requires AllAnswered(a, v)
    ensures Meter2(a, div) == TrueMeter2(v, div)
  {
    OneRegister(a, v, 26, Reg.METER2_CONN);
    MeterValueTrue(a, v, 12, 27, Reg.METER2_R_VOLTAGE);
    MeterValueTrue(a, v, 13, 28, Reg.METER2_S_VOLTAGE);
    MeterValueTrue(a, v, 14, 29, Reg.METER2_T_VOLTAGE);
    MeterValueTrue(a, v, 15, 30, Reg.METER2_R_CURRENT);
    MeterValueTrue(a, v, 16, 31, Reg.METER2_S_CURRENT);
    MeterValueTrue(a, v, 17, 32, Reg.METER2_T_CURRENT);
    MeterValueTrue(a, v, 18, 33, Reg.METER2_COMBINED_POWER);
    MeterValueTrue(a, v, 19, 34, Reg.METER2_FREQ);
  }

  lemma {:induction false} BatteryWordTrue(a: Answers, v: History, j: nat, k: nat, addr: u16)
    requires 0 < j <= 9 && k == UnsignedRead(j) && k < READS && Answered(a, v, k) && Plan(k) == Ask(addr, 1)
    ensures RawU(a, j) == Unsigned16(v(k), addr)
  {
    OneRegister(a, v, k, addr);
  }

  lemma {:induction false} BatterySignedTrue(a: Answers, v: History, j: nat, k: nat, addr: u16)
    requires 0 < j <= 4 && k == SignedRead(j) && k < READS && Answered(a, v, k) && Plan(k) == Ask(addr, 1)
    ensures RawI(a, j) == Signed16(v(k), addr)
  {
    OneRegister(a, v, k, addr);
  }

  lemma {:induction false} BatteryTrue(a: Answers, v: History, div: Division)
    requires AllAnswered(a, v)
    ensures Battery(a, div) == TrueBattery(v, div)
  {
    BatteryWordTrue(a, v, 1, 35, Reg.BMS1);
    BatteryWordTrue(a, v, 2, 36, Reg.BMS1_MAIN);
    TextRegisters(a, v, 37, Reg.BMS1_SN);
    BatteryWordTrue(a, v, 3, 38, Reg.BMS1_SLAVE_COUNT);
    BatteryWordTrue(a, v, 4, 39, Reg.BMS1_VOLTAGE);
    BatterySignedTrue(a, v, 1, 40, Reg.BMS1_CURRENT);
    BatterySignedTrue(a, v, 2, 41, Reg.BMS1_TEMP);
    BatteryWordTrue(a, v, 5, 42, Reg.BMS1_SOC);
    BatterySignedTrue(a, v, 3, 43, Reg.BMS1_MAX_TEMP);
    BatterySignedTrue(a, v, 4, 44, Reg.BMS1_MIN_TEMP);
    BatteryWordTrue(a, v, 6, 45, Reg.BMS1_MAX_CELL);
    BatteryWordTrue(a, v, 7, 46, Reg.BMS1_MIN_CELL);
    BatteryWordTrue(a, v, 8, 47, Reg.BMS1_SOH);
    BatteryWordTrue(a, v, 9, 48, Reg.BMS1_REMAIN_ENERGY);
  }

  lemma {:induction false} EnergyTrue(a: Answers, v: History, div: Division)
    requires AllAnswered(a, v)
    ensures Energy(a, div) == TrueEnergy(v, div)
  {
    TwoRegisters(a, v, 49, Reg.PV_TOTAL_POWER);
    TwoRegisters(a, v, 50, Reg.AC_TOTAL_POWER);
    TwoRegisters(a, v, 51, Reg.SMART_METER_POWER);
    TwoRegisters(a, v, 52, Reg.BATTERY_POWER);
    TwoRegisters(a, v, 53, Reg.TOTAL_CHARGE_CAP);
    TwoRegisters(a, v, 54, Reg.TOTAL_CHARGE_TODAY);
    TwoRegisters(a, v, 55, Reg.TOTAL_DISCHARGE);
    TwoRegisters(a, v, 56, Reg.TOTAL_DISCHARGE_TODAY);
    TwoRegisters(a, v, 57, Reg.TOTAL_FEEDER);
    TwoRegisters(a, v, 58, Reg.TOTAL_FEEDER_TODAY);
    TwoRegisters(a, v, 59, Reg.TOTAL_CONSUMPTION);
    TwoRegisters(a, v, 60, Reg.TOTAL_CONSUMPTION_TODAY);
    TwoRegisters(a, v, 61, Reg.TOTAL_OUTPUT);
    TwoRegisters(a, v, 62, Reg.TOTAL_OUTPUT_TODAY);
    TwoRegisters(a, v, 63, Reg.TOTAL_LOAD);
    TwoRegisters(a, v, 64, Reg.TOTAL_LOAD_TODAY);
  }

  /** Main result: when every read succeeds, every field is the scaled decode of its own registers, however the
      device changed in between. */
  lemma {:induction false} SnapshotTrue(a: Answers, v: History, junk: u32, div: Division)
    requires AllAnswered(a, v)
    ensures SnapshotOf(a, junk, div) == TrueSnapshot(v, div)
  {
    InfoTrue(a, v, junk, div);
    Meter1True(a, v, div);
    Meter2True(a, v, div);
    BatteryTrue(a, v, div);
    EnergyTrue(a, v, div);
  }

  /** The reads of a snapshot over a session with a conforming server: what they return, and the state after them. */
  lemma {:induction false} SnapshotSession(server: Server, w: Wire, id: u16, r: Round, calls: seq<Call>)
    requires ConformingServer(server) && calls == PlannedCalls(r)
    requires w.inbound == [] && AnsweredBy(server, w.replies, id, calls)
    ensures READS <= |w.replies| && StateAt(State(Some(w), id), READS) == Quiet(w, id, calls)
    ensures AnswersFrom(State(Some(w), id)) == AllAnswers(calls)
  {
    var start := State(Some(w), id);
    SessionCorrect(server, w, id, calls);
    PlannedCallsPlanned(r);
    AnswersFromAre(start);
    ReadsAreSession(start, calls, AnswersFrom(start), 0);
    assert calls[0..] == calls && AnswersFrom(start)[0..] == AnswersFrom(start);
  }

  lemma {:induction false} SessionAnswers(r: Round, calls: seq<Call>)
    requires calls == PlannedCalls(r)
    ensures GotAnswers(AllAnswers(calls), r)
  {
    forall k: nat | k < READS
      ensures GotAnswer(AllAnswers(calls), r, k)
    {
      AnswersByIndex(calls, k);
    }
  }

  /** Over any session with a conforming server, in whatever pieces its answers arrive, every read of a snapshot gets the
      registers of its moment or is refused, and the client is left ready for the next snapshot. When nothing is refused,
      the snapshot that `FetchSnapshot` returns is the true one. */
  lemma {:induction false} SnapshotOverSession(server: Server, w: Wire, id: u16, r: Round, junk: u32, div: Division)
    requires ConformingServer(server)
    requires w.inbound == [] && AnsweredBy(server, w.replies, id, PlannedCalls(r))
    ensures READS <= |w.replies| && StateAt(State(Some(w), id), READS) == Quiet(w, id, PlannedCalls(r))
    ensures GotAnswers(AnswersFrom(State(Some(w), id)), r)
    ensures NoneFails(r) ==> SnapshotOf(AnswersFrom(State(Some(w), id)), junk, div) == TrueSnapshot(r.v, div)
  {
    SnapshotSession(server, w, id, r, PlannedCalls(r));
    SessionAnswers(r, PlannedCalls(r));
    if NoneFails(r) {
      AllAnsweredWhenNoneFails(AllAnswers(PlannedCalls(r)), r);
      SnapshotTrue(AllAnswers(PlannedCalls(r)), r.v, junk, div);
    }
  }

  // ----- any number of refreshes

  /** The reads of one snapshot after the other. */
  function RefreshCalls(rounds: seq<Round>): seq<Call> {
    if rounds == [] then [] else PlannedCalls(rounds[0]) + RefreshCalls(rounds[1..])
  }

  /** The state of the client before the k-th refresh. */
  function RefreshAt(start: State, k: nat): State
    decreases k, start
  {
    if k == 0 then start else RefreshAt(StateAt(start, READS), k - 1)
  }

  /** Nothing is pending, and the calls will be answered. */
  ghost predicate Ready(server: Server, s: State, calls: seq<Call>) {
    s.wire.Some? && s.wire.value.inbound == [] && AnsweredBy(server, s.wire.value.replies, s.nextId, calls)
  }

  lemma {:induction false} ReadyForFirst(server: Server, s: State, first: seq<Call>, rest: seq<Call>)
    requires Ready(server, s, first + rest)
    ensures Ready(server, s, first)
  {
    AnsweredPrefix(server, s.wire.value.replies, s.nextId, first, rest);
  }

  lemma {:induction false} ReadyForRest(server: Server, w: Wire, id: u16, first: seq<Call>, rest: seq<Call>)
    requires AnsweredBy(server, w.replies, id, first + rest)
    ensures |first| <= |w.replies| && Ready(server, Quiet(w, id, first), rest)
  {
    AnsweredRest(server, w.replies, id, first, rest);
  }

  /** Every refresh finds a quiet wire and is answered. */
  lemma {:induction false} RefreshReady(server: Server, s: State, rounds: seq<Round>, k: nat)
    requires ConformingServer(server) && k < |rounds| && Ready(server, s, RefreshCalls(rounds))
    ensures Ready(server, RefreshAt(s, k), PlannedCalls(rounds[k]))
    decreases k
  {
    var w, first, rest := s.wire.value, PlannedCalls(rounds[0]), RefreshCalls(rounds[1..]);
    ReadyForFirst(server, s, first, rest);
    if k > 0 {
      ReadyForRest(server, w, s.nextId, first, rest);
      SnapshotSession(server, w, s.nextId, rounds[0], first);
      assert s == State(Some(w), s.nextId);
      RefreshReady(server, StateAt(s, READS), rounds[1..], k - 1);
    }
  }

  /** Main result: over one connection to a conforming server, in any number of refreshes, every read gets the registers
      of its moment unless it is refused itself, and a snapshot none of whose reads is refused is the true one, whatever
      was refused before. */
  lemma {:induction false} RefreshesTrue(server: Server, s: State, rounds: seq<Round>, k: nat, junk: u32, div: Division)
    requires ConformingServer(server) && k < |rounds| && Ready(server, s, RefreshCalls(rounds))
    ensures GotAnswers(AnswersFrom(RefreshAt(s, k)), rounds[k])
    ensures NoneFails(rounds[k]) ==>
      SnapshotOf(AnswersFrom(RefreshAt(s, k)), junk, div) == TrueSnapshot(rounds[k].v, div)
  {
    RefreshReady(server, s, rounds, k);
    var before := RefreshAt(s, k);
    SnapshotOverSession(server, before.wire.value, before.nextId, rounds[k], junk, div);
    assert before == State(Some(before.wire.value), before.nextId);
  }

  // ----- some reads fail

  /** The fields of the energy data, in declaration order. */
  function EnergyField(e: EnergyData, i: nat): real
    requires i < 16
  {
    match i
    case 0 => e.pvTotalPower
    case 1 => e.acActivePower
    case 2 => e.smartMeterPower
    case 3 => e.batteryPower
    case 4 => e.totalCharge
    case 5 => e.totalChargeToday
    case 6 => e.totalDischarge
    case 7 => e.totalDischargeToday
    case 8 => e.totalFeeder
    case 9 => e.totalFeederToday
    case 10 => e.totalConsumption
    case 11 => e.totalConsumptionToday
    case 12 => e.totalOutput
    case 13 => e.totalOutputToday
    case 14 => e.totalLoad
    case _ => e.totalLoadToday
  }

  /** An energy field depends on its own read alone, and is 0 when that fails. */
  lemma {:induction false} EnergyFieldsIndependent(a: Answers, b: Answers, i: nat, div: Division)
    requires i < 16 && At(a, 49 + i, 2) == At(b, 49 + i, 2)
    ensures EnergyField(Energy(a, div), i) == EnergyField(Energy(b, div), i)
    ensures At(a, 49 + i, 2) == None ==> EnergyField(Energy(a, div), i) == 0.0
  {
    match i {
      case 0 => case 1 => case 2 => case 3 => case 4 => case 5 => case 6 => case 7 =>
      case 8 => case 9 => case 10 => case 11 => case 12 => case 13 => case 14 => case _ =>
    }
  }

  /** Whichever other reads fail, an energy field whose own read succeeds is the decode of its own registers. */
  lemma {:induction false} EnergyFieldTrue(a: Answers, v: History, i: nat, div: Division)
    requires i < 16 && Answered(a, v, 49 + i)
    ensures EnergyField(Energy(a, div), i) == EnergyField(TrueEnergy(v, div), i)
  {
    match i {
      case 0 => TwoRegisters(a, v, 49, Reg.PV_TOTAL_POWER);
      case 1 => TwoRegisters(a, v, 50, Reg.AC_TOTAL_POWER);
      case 2 => TwoRegisters(a, v, 51, Reg.SMART_METER_POWER);
      case 3 => TwoRegisters(a, v, 52, Reg.BATTERY_POWER);
      case 4 => TwoRegisters(a, v, 53, Reg.TOTAL_CHARGE_CAP);
      case 5 => TwoRegisters(a, v, 54, Reg.TOTAL_CHARGE_TODAY);
      case 6 => TwoRegisters(a, v, 55, Reg.TOTAL_DISCHARGE);
      case 7 => TwoRegisters(a, v, 56, Reg.TOTAL_DISCHARGE_TODAY);
      case 8 => TwoRegisters(a, v, 57, Reg.TOTAL_FEEDER);
      case 9 => TwoRegisters(a, v, 58, Reg.TOTAL_FEEDER_TODAY);
      case 10 => TwoRegisters(a, v, 59, Reg.TOTAL_CONSUMPTION);
      case 11 => TwoRegisters(a, v, 60, Reg.TOTAL_CONSUMPTION_TODAY);
      case 12 => TwoRegisters(a, v, 61, Reg.TOTAL_OUTPUT);
      case 13 => TwoRegisters(a, v, 62, Reg.TOTAL_OUTPUT_TODAY);
      case 14 => TwoRegisters(a, v, 63, Reg.TOTAL_LOAD);
      case _ => TwoRegisters(a, v, 64, Reg.TOTAL_LOAD_TODAY);
    }
  }

  // ----- shared temporaries

  /** The last of the first j reads into a temporary that succeeded; 0 if none did. */
  function LastGood<T>(a: Answers, read: (Answers, nat) -> Option<T>, j: nat): (i: nat)
    ensures i <= j && (i > 0 ==> read(a, i).Some?)
    ensures forall n :: i < n <= j ==> read(a, n).None?
    decreases j, |a|
  {
    if j == 0 then 0 else if read(a, j).Some? then j else LastGood(a, read, j - 1)
  }

  /** A temporary holds the value of the last read that succeeded, whichever register that was. */
  lemma {:induction false} CarriedFromLastGood<T>(a: Answers, read: (Answers, nat) -> Option<T>, zero: T, j: nat)
    ensures var i := LastGood(a, read, j);
      Carried(a, read, zero, j) == if i == 0 then zero else read(a, i).value
    decreases j
  {
    if j > 0 && read(a, j).None? {
      CarriedFromLastGood(a, read, zero, j - 1);
    }
  }

  /** The j-th value is that of its own read, or 0 on failure, exactly when its own read succeeded, or no read before it
      did, or the last one that did read 0. */
  lemma {:induction false} OwnValueIff<T>(a: Answers, read: (Answers, nat) -> Option<T>, zero: T, j: nat)
    requires j > 0
    ensures Carried(a, read, zero, j) == Or(read(a, j), zero) <==>
      var i := LastGood(a, read, j - 1);
      read(a, j).Some? || i == 0 || read(a, i) == Some(zero)
  {
    CarriedFromLastGood(a, read, zero, j - 1);
  }

  /** What the fields are divided by. */
  predicate Divisor(d: real) {
    d == 0.1 || d == 1.0 || d == 10.0 || d == 100.0 || d == 1000.0
  }

  /** Of the 32-bit values, only 0 gives 0. */
  ghost predicate SeparatesZero(div: Division) {
    forall x: int32, d: real :: Divisor(d) && div(x, d) == div(0, d) ==> x == 0
  }

  /** What the j-th 32-bit field of the two meters shows when its raw value is x. */
  predicate MeterShows(m1: MeterData, m2: MeterData, div: Division, j: nat, x: int) {
    match j
    case 1 => m1.rVoltage == div(x, 10.0)
    case 2 => m1.sVoltage == div(x, 10.0)
    case 3 => m1.tVoltage == div(x, 10.0)
    case 4 => m1.rCurrent == div(x, 1000.0)
    case 5 => m1.sCurrent == div(x, 1000.0)
    case 6 => m1.tCurrent == div(x, 1000.0)
    case 7 => m1.rActivePower == div(x, 10.0)
    case 8 => m1.sActivePower == div(x, 10.0)
    case 9 => m1.tActivePower == div(x, 10.0)
    case 10 => m1.combinedActivePower == div(x, 10.0)
    case 11 => m1.frequency == div(x, 100.0)
    case 12 => m2.rVoltage == div(x, 10.0)
    case 13 => m2.sVoltage == div(x, 10.0)
    case 14 => m2.tVoltage == div(x, 10.0)
    case 15 => m2.rCurrent == div(x, 1000.0)
    case 16 => m2.sCurrent == div(x, 1000.0)
    case 17 => m2.tCurrent == div(x, 1000.0)
    case 18 => m2.combinedActivePower == div(x, 10.0)
    case _ => m2.frequency == div(x, 100.0)
  }

  /** Each field shows the temporary after its own read. */
  lemma {:induction false} MetersShowRaw(a: Answers, div: Division, j: nat, x: int)
    requires 1 <= j <= 19 && SeparatesZero(div) && (x == Raw(a, j) || x == 0)
    ensures MeterShows(Meter1(a, div), Meter2(a, div), div, j, x) <==> x == Raw(a, j)
  {
    match j {
      case 1 => assert x == 0 ==> (div(Raw(a, 1), 10.0) == div(0, 10.0) <==> Raw(a, 1) == 0);
      case 2 => assert x == 0 ==> (div(Raw(a, 2), 10.0) == div(0, 10.0) <==> Raw(a, 2) == 0);
      case 3 => assert x == 0 ==> (div(Raw(a, 3), 10.0) == div(0, 10.0) <==> Raw(a, 3) == 0);
      case 4 => assert x == 0 ==> (div(Raw(a, 4), 1000.0) == div(0, 1000.0) <==> Raw(a, 4) == 0);
      case 5 => assert x == 0 ==> (div(Raw(a, 5), 1000.0) == div(0, 1000.0) <==> Raw(a, 5) == 0);
      case 6 => assert x == 0 ==> (div(Raw(a, 6), 1000.0) == div(0, 1000.0) <==> Raw(a, 6) == 0);
      case 7 => assert x == 0 ==> (div(Raw(a, 7), 10.0) == div(0, 10.0) <==> Raw(a, 7) == 0);
      case 8 => assert x == 0 ==> (div(Raw(a, 8), 10.0) == div(0, 10.0) <==> Raw(a, 8) == 0);
      case 9 => assert x == 0 ==> (div(Raw(a, 9), 10.0) == div(0, 10.0) <==> Raw(a, 9) == 0);
      case 10 => assert x == 0 ==> (div(Raw(a, 10), 10.0) == div(0, 10.0) <==> Raw(a, 10) == 0);
      case 11 => assert x == 0 ==> (div(Raw(a, 11), 100.0) == div(0, 100.0) <==> Raw(a, 11) == 0);
      case 12 => assert x == 0 ==> (div(Raw(a, 12), 10.0) == div(0, 10.0) <==> Raw(a, 12) == 0);
      case 13 => assert x == 0 ==> (div(Raw(a, 13), 10.0) == div(0, 10.0) <==> Raw(a, 13) == 0);
      case 14 => assert x == 0 ==> (div(Raw(a, 14), 10.0) == div(0, 10.0) <==> Raw(a, 14) == 0);
      case 15 => assert x == 0 ==> (div(Raw(a, 15), 1000.0) == div(0, 1000.0) <==> Raw(a, 15) == 0);
      case 16 => assert x == 0 ==> (div(Raw(a, 16), 1000.0) == div(0, 1000.0) <==> Raw(a, 16) == 0);
      case 17 => assert x == 0 ==> (div(Raw(a, 17), 1000.0) == div(0, 1000.0) <==> Raw(a, 17) == 0);
      case 18 => assert x == 0 ==> (div(Raw(a, 18), 10.0) == div(0, 10.0) <==> Raw(a, 18) == 0);
      case _ => assert x == 0 ==> (div(Raw(a, 19), 100.0) == div(0, 100.0) <==> Raw(a, 19) == 0);
    }
  }

  /** A meter field shows its own register, or 0 when its read fails, exactly when its own read succeeded, or no meter
      read before it did, or the last one that did returned 0. */
  lemma {:induction false} MeterFieldOwn(a: Answers, div: Division, j: nat)
    requires 1 <= j <= 19 && SeparatesZero(div)
    ensures MeterShows(Meter1(a, div), Meter2(a, div), div, j, Or(MeterAt(a, j), 0)) <==>
      var i := LastGood(a, MeterAt, j - 1);
      MeterAt(a, j).Some? || i == 0 || MeterAt(a, i) == Some(0)
  {
    OwnValueIff(a, MeterAt, 0, j);
    MetersShowRaw(a, div, j, Or(MeterAt(a, j), 0));
  }

  /** The second meter counts as connected as its own register says, or as not connected when that read fails, exactly
      when the read succeeded or the first meter does not count as connected either. */
  lemma {:induction false} ConnectionOwn(a: Answers, div: Division)
    ensures Meter2(a, div).connected == (U16At(a, 26) == Some(1)) <==>
            U16At(a, 26).Some? || !Meter1(a, div).connected
  {
  }

  /** With a good read of the T voltage and a failed read of the R current, the current shown is the voltage's raw
      value. */
  lemma {:induction false} CurrentShowsVoltage(a: Answers, div: Division, raw: int32)
    requires I32At(a, MeterRead(3)) == Some(raw) && I32At(a, MeterRead(4)) == None
    ensures Meter1(a, div).tVoltage == div(raw, 10.0) && Meter1(a, div).rCurrent == div(raw, 1000.0)
  {
  }

  // ----- the battery

  /** What the j-th field of the battery that goes through the unsigned temporary shows when its raw value is x. */
  predicate UnsignedShows(b: BatteryData, div: Division, j: nat, x: u16) {
    match j
    case 1 => b.online == x
    case 2 => b.mainControl == x
    case 3 => b.slaveCount == x
    case 4 => b.voltage == div(x, 10.0)
    case 5 => b.soc == div(x, 1.0)
    case 6 => b.maxCellVoltage == div(x, 1.0)
    case 7 => b.minCellVoltage == div(x, 1.0)
    case 8 => b.soh == div(x, 1.0)
    case _ => b.remainEnergy == div(x, 0.1)
  }

  /** And the j-th that goes through the signed one. */
  predicate SignedShows(b: BatteryData, div: Division, j: nat, x: int16) {
    match j
    case 1 => b.current == div(x, 10.0)
    case 2 => b.temperature == div(x, 10.0)
    case 3 => b.maxTemperature == div(x, 10.0)
    case _ => b.minTemperature == div(x, 10.0)
  }

  lemma {:induction false} BatteryShowsRawU(a: Answers, div: Division, j: nat, x: u16)
    requires 1 <= j <= 9 && SeparatesZero(div) && (x == RawU(a, j) || x == 0)
    ensures UnsignedShows(Battery(a, div), div, j, x) <==> x == RawU(a, j)
  {
    match j {
      case 1 => case 2 => case 3 =>
      case 4 => assert x == 0 ==> (div(RawU(a, 4), 10.0) == div(0, 10.0) <==> RawU(a, 4) == 0);
      case 5 => assert x == 0 ==> (div(RawU(a, 5), 1.0) == div(0, 1.0) <==> RawU(a, 5) == 0);
      case 6 => assert x == 0 ==> (div(RawU(a, 6), 1.0) == div(0, 1.0) <==> RawU(a, 6) == 0);
      case 7 => assert x == 0 ==> (div(RawU(a, 7), 1.0) == div(0, 1.0) <==> RawU(a, 7) == 0);
      case 8 => assert x == 0 ==> (div(RawU(a, 8), 1.0) == div(0, 1.0) <==> RawU(a, 8) == 0);
      case _ => assert x == 0 ==> (div(RawU(a, 9), 0.1) == div(0, 0.1) <==> RawU(a, 9) == 0);
    }
  }

  lemma {:induction false} BatteryShowsRawI(a: Answers, div: Division, j: nat, x: int16)
    requires 1 <= j <= 4 && SeparatesZero(div) && (x == RawI(a, j) || x == 0)
    ensures SignedShows(Battery(a, div), div, j, x) <==> x == RawI(a, j)
  {
    match j {
      case 1 => assert x == 0 ==> (div(RawI(a, 1), 10.0) == div(0, 10.0) <==> RawI(a, 1) == 0);
      case 2 => assert x == 0 ==> (div(RawI(a, 2), 10.0) == div(0, 10.0) <==> RawI(a, 2) == 0);
      case 3 => assert x == 0 ==> (div(RawI(a, 3), 10.0) == div(0, 10.0) <==> RawI(a, 3) == 0);
      case _ => assert x == 0 ==> (div(RawI(a, 4), 10.0) == div(0, 10.0) <==> RawI(a, 4) == 0);
    }
  }

  /** The same of a battery field and the unsigned reads of the battery before it ... */
  lemma {:induction false} UnsignedFieldOwn(a: Answers, div: Division, j: nat)
    requires 1 <= j <= 9 && SeparatesZero(div)
    ensures UnsignedShows(Battery(a, div), div, j, Or(UnsignedAt(a, j), 0)) <==>
      var i := LastGood(a, UnsignedAt, j - 1);
      UnsignedAt(a, j).Some? || i == 0 || UnsignedAt(a, i) == Some(0)
  {
    OwnValueIff(a, UnsignedAt, 0, j);
    BatteryShowsRawU(a, div, j, Or(UnsignedAt(a, j), 0));
  }

  /** ... and the signed ones. */
  lemma {:induction false} SignedFieldOwn(a: Answers, div: Division, j: nat)
    requires 1 <= j <= 4 && SeparatesZero(div)
    ensures SignedShows(Battery(a, div), div, j, Or(SignedAt(a, j), 0)) <==>
      var i := LastGood(a, SignedAt, j - 1);
      SignedAt(a, j).Some? || i == 0 || SignedAt(a, i) == Some(0)
  {
    OwnValueIff(a, SignedAt, 0, j);
    BatteryShowsRawI(a, div, j, Or(SignedAt(a, j), 0));
  }

  /** With a good read of the battery voltage and a failed read of the state of charge, the charge shown is the voltage's
      raw value; and likewise the temperature shows the current. */
  lemma {:induction false} ChargeShowsVoltage(a: Answers, div: Division, u: u16, i: int16)
    requires U16At(a, 39) == Some(u) && U16At(a, 42) == None
    requires I16At(a, 40) == Some(i) && I16At(a, 41) == None
    ensures Battery(a, div).voltage == div(u, 10.0) && Battery(a, div).soc == div(u, 1.0)
    ensures Battery(a, div).current == div(i, 10.0) && Battery(a, div).temperature == div(i, 10.0)
  {
    assert UnsignedAt(a, 4) == U16At(a, 39) && UnsignedAt(a, 5) == U16At(a, 42);
    assert SignedAt(a, 1) == I16At(a, 40) && SignedAt(a, 2) == I16At(a, 41);
    assert RawU(a, 4) == u && RawI(a, 1) == i;
  }
}
