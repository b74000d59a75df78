/**
 Assembling a snapshot from a run of register reads, any of which may fail.

 The `float` arithmetic of the source is a parameter: `div(x, d)` is the float that the integer x divided by the
 constant d gives. It may be any function of the two; a plain conversion to float is division by 1.
 */
module SolakonDevice {
  import opened Words
  import opened Modbus
  import Reg

  type Division = (int, real) -> real

  // ----- the entities

  datatype DeviceInfo = DeviceInfo(
    protocolVersion: u16, modelName: seq<byte>, serialNumber: seq<byte>,
    modelId: u16, numStrings: u16, numMppt: u16,
    ratedPower: real, maxActive: real, maxApparent: real, maxReactiveNeg: real,
    status1: u16, status3: u32, alarm1: u16, alarm2: u16)

  datatype MeterData = MeterData(
    connected: bool, rVoltage: real, sVoltage: real, tVoltage: real,
    rCurrent: real, sCurrent: real, tCurrent: real,
    rActivePower: real, sActivePower: real, tActivePower: real,
    combinedActivePower: real, frequency: real)

  datatype BatteryData = BatteryData(
    online: u16, mainControl: u16, sn: seq<byte>, slaveCount: u16,
    voltage: real, current: real, temperature: real, soc: real,
    maxTemperature: real, minTemperature: real, maxCellVoltage: real, minCellVoltage: real,
    soh: real, remainEnergy: real)

  datatype EnergyData = EnergyData(
    pvTotalPower: real, acActivePower: real, smartMeterPower: real, batteryPower: real,
    totalCharge: real, totalChargeToday: real, totalDischarge: real, totalDischargeToday: real,
    totalFeeder: real, totalFeederToday: real, totalConsumption: real, totalConsumptionToday: real,
    totalOutput: real, totalOutputToday: real, totalLoad: real, totalLoadToday: real)

  datatype Snapshot = Snapshot(
    info: DeviceInfo, meter1: MeterData, meter2: MeterData,
    battery: BatteryData, energy: EnergyData, valid: bool)

  const NO_INFO := DeviceInfo(0, [], [], 0, 0, 0, 0.0, 0.0, 0.0, 0.0, 0, 0, 0, 0)
  const NO_METER := MeterData(false, 0.0, 0.0, 0.0, 0.0, 0.0, 0.0, 0.0, 0.0, 0.0, 0.0, 0.0)
  const NO_BATTERY := BatteryData(0, 0, [], 0, 0.0, 0.0, 0.0, 0.0, 0.0, 0.0, 0.0, 0.0, 0.0, 0.0)
  const NO_ENERGY := EnergyData(0.0, 0.0, 0.0, 0.0, 0.0, 0.0, 0.0, 0.0, 0.0, 0.0, 0.0, 0.0, 0.0, 0.0, 0.0, 0.0)

  // ----- the reads of one snapshot

  datatype Ask = Ask(addr: u16, count: u16)

  const READS: nat := 65

  /** The k-th read of a snapshot. */
  function Plan(k: nat): (ask: Ask)
    requires k < READS
    ensures 1 <= ask.count <= 127
  {
    if k < 14 then InfoPlan(k)
    else if k < 26 then Meter1Plan(k)
    else if k < 35 then Meter2Plan(k)
    else if k < 49 then BatteryPlan(k)
    else EnergyPlan(k)
  }

  function InfoPlan(k: nat): Ask {
    match k
    case 0 => Ask(Reg.PROTOCOL_VERSION, 2)
    case 1 => Ask(Reg.MODEL_NAME2, 16)
    case 2 => Ask(Reg.PN, 16)
    case 3 => Ask(Reg.MODEL_ID, 1)
    case 4 => Ask(Reg.NUM_STRINGS, 1)
    case 5 => Ask(Reg.NUM_MPPT, 1)
    case 6 => Ask(Reg.RATED_POWER, 2)
    case 7 => Ask(Reg.MAX_ACTIVE, 2)
    case 8 => Ask(Reg.MAX_APPARENT, 2)
    case 9 => Ask(Reg.MAX_REACTIVE_NEG, 2)
    case 10 => Ask(Reg.STATUS1, 1)
    case 11 => Ask(Reg.STATUS3, 2)
    case 12 => Ask(Reg.ALARM1, 1)
    case _ => Ask(Reg.ALARM2, 1)
  }

  function Meter1Plan(k: nat): Ask {
    match k
    case 14 => Ask(Reg.METER1_CONN, 1)
    case 15 => Ask(Reg.METER1_R_VOLTAGE, 2)
    case 16 => Ask(Reg.METER1_S_VOLTAGE, 2)
    case 17 => Ask(Reg.METER1_T_VOLTAGE, 2)
    case 18 => Ask(Reg.METER1_R_CURRENT, 2)
    case 19 => Ask(Reg.METER1_S_CURRENT, 2)
    case 20 => Ask(Reg.METER1_T_CURRENT, 2)
    case 21 => Ask(Reg.METER1_R_POWER, 2)
    case 22 => Ask(Reg.METER1_S_POWER, 2)
    case 23 => Ask(Reg.METER1_T_POWER, 2)
    case 24 => Ask(Reg.METER1_COMBINED_POWER, 2)
    case _ => Ask(Reg.METER1_FREQ, 2)
  }

  function Meter2Plan(k: nat): Ask {
    match k
    case 26 => Ask(Reg.METER2_CONN, 1)
    case 27 => Ask(Reg.METER2_R_VOLTAGE, 2)
    case 28 => Ask(Reg.METER2_S_VOLTAGE, 2)
    case 29 => Ask(Reg.METER2_T_VOLTAGE, 2)
    case 30 => Ask(Reg.METER2_R_CURRENT, 2)
    case 31 => Ask(Reg.METER2_S_CURRENT, 2)
    case 32 => Ask(Reg.METER2_T_CURRENT, 2)
    case 33 => Ask(Reg.METER2_COMBINED_POWER, 2)
    case _ => Ask(Reg.METER2_FREQ, 2)
  }

  function BatteryPlan(k: nat): Ask {
    match k
    case 35 => Ask(Reg.BMS1, 1)
    case 36 => Ask(Reg.BMS1_MAIN, 1)
    case 37 => Ask(Reg.BMS1_SN, 16)
    case 38 => Ask(Reg.BMS1_SLAVE_COUNT, 1)
    case 39 => Ask(Reg.BMS1_VOLTAGE, 1)
    case 40 => Ask(Reg.BMS1_CURRENT, 1)
    case 41 => Ask(Reg.BMS1_TEMP, 1)
    case 42 => Ask(Reg.BMS1_SOC, 1)
    case 43 => Ask(Reg.BMS1_MAX_TEMP, 1)
    case 44 => Ask(Reg.BMS1_MIN_TEMP, 1)
    case 45 => Ask(Reg.BMS1_MAX_CELL, 1)
    case 46 => Ask(Reg.BMS1_MIN_CELL, 1)
    case 47 => Ask(Reg.BMS1_SOH, 1)
    case _ => Ask(Reg.BMS1_REMAIN_ENERGY, 1)
  }

  function EnergyPlan(k: nat): Ask {
    match k
    case 49 => Ask(Reg.PV_TOTAL_POWER, 2)
    case 50 => Ask(Reg.AC_TOTAL_POWER, 2)
    case 51 => Ask(Reg.SMART_METER_POWER, 2)
    case 52 => Ask(Reg.BATTERY_POWER, 2)
    case 53 => Ask(Reg.TOTAL_CHARGE_CAP, 2)
    case 54 => Ask(Reg.TOTAL_CHARGE_TODAY, 2)
    case 55 => Ask(Reg.TOTAL_DISCHARGE, 2)
    case 56 => Ask(Reg.TOTAL_DISCHARGE_TODAY, 2)
    case 57 => Ask(Reg.TOTAL_FEEDER, 2)
    case 58 => Ask(Reg.TOTAL_FEEDER_TODAY, 2)
    case 59 => Ask(Reg.TOTAL_CONSUMPTION, 2)
    case 60 => Ask(Reg.TOTAL_CONSUMPTION_TODAY, 2)
    case 61 => Ask(Reg.TOTAL_OUTPUT, 2)
    case 62 => Ask(Reg.TOTAL_OUTPUT_TODAY, 2)
    case 63 => Ask(Reg.TOTAL_LOAD, 2)
    case _ => Ask(Reg.TOTAL_LOAD_TODAY, 2)
  }

  /** What each read of a snapshot returns, in order; None for a read that fails. */
  type Answers = seq<Option<seq<u16>>>

  function At(a: Answers, k: nat, count: nat): (r: Option<seq<u16>>)
    ensures r.Some? ==> |r.value| == count
  {
    if k < |a| && a[k].Some? && |a[k].value| == count then a[k] else None
  }

  function U16At(a: Answers, k: nat): Option<u16> {
    match At(a, k, 1) case Some(regs) => Some(regs[0]) case None => None
  }

  function I16At(a: Answers, k: nat): Option<int16> {
    match At(a, k, 1) case Some(regs) => Some(ToI16(regs[0])) case None => None
  }

  function U32At(a: Answers, k: nat): Option<u32> {
    match At(a, k, 2) case Some(regs) => Some(Long(regs[0], regs[1])) case None => None
  }

  function I32At(a: Answers, k: nat): Option<int32> {
    match At(a, k, 2) case Some(regs) => Some(ToI32(Long(regs[0], regs[1]))) case None => None
  }

  function TextAt(a: Answers, k: nat): Option<seq<byte>> {
    match At(a, k, 16) case Some(regs) => Some(StripPadding(Encode(regs))) case None => None
  }

  function Or<T>(o: Option<T>, default: T): T {
    match o case Some(v) => v case None => default
  }

  // ----- the client behind the reads

  /** The state of the client before the k-th read of a snapshot that starts in `start`. */
  function StateAt(start: State, k: nat): State
    requires k <= READS
    decreases k, start
  {
    if k == 0 then start else Read(StateAt(start, k - 1), Plan(k - 1).addr, Plan(k - 1).count).state
  }

  ghost predicate Reached(start: State, state: State, k: nat) {
    k <= READS && state == StateAt(start, k)
  }

  /** What the k-th read returns. */
  function AnswerAt(start: State, k: nat): Option<seq<u16>>
    requires k < READS
  {
    Read(StateAt(start, k), Plan(k).addr, Plan(k).count).regs
  }

  /** What all reads return. */
  function AnswersFrom(start: State): (a: Answers)
    ensures |a| == READS
  {
    seq(READS, k requires 0 <= k < READS => AnswerAt(start, k))
  }

  ghost predicate AnswerIs(start: State, answers: Answers, k: nat) {
    k < READS && k < |answers| && answers[k] == AnswerAt(start, k)
  }

  ghost predicate AnswersOf(start: State, answers: Answers) {
    forall k: nat :: k < READS ==> AnswerIs(start, answers, k)
  }

  /** The next read of the plan. */
  lemma {:induction false} NextRead(start: State, answers: Answers, state: State, k: nat, addr: u16, count: u16)
    requires k < READS && Plan(k) == Ask(addr, count)
    requires Reached(start, state, k) && AnswersOf(start, answers)
    ensures var r := Read(state, addr, count);
      && Reached(start, r.state, k + 1)
      && k < |answers| && answers[k] == r.regs
      && (r.regs.Some? ==> |r.regs.value| == count)
  {
    assert AnswerIs(start, answers, k);
    ReadSize(state, addr, count);
  }

  /** The client in the middle of a snapshot: `answers` is what its reads return, in order. */
  class Link {
    const client: Client
    const div: Division
    ghost const start: State
    ghost const answers: Answers
    ghost var next: nat

    /** The quantifier over the one number `next` only keeps the states of earlier reads out of sight. */
    ghost predicate Valid()
      reads this, client
    {
      next <= READS && (forall n: nat :: n == next ==> Reached(start, client.View(), n)) && AnswersOf(start, answers)
    }

    constructor (client: Client, div: Division)
      ensures Valid() && this.client == client && this.div == div && next == 0
      ensures start == client.View() && answers == AnswersFrom(client.View())
    {
      this.client := client;
      this.div := div;
      start := client.View();
      answers := AnswersFrom(client.View());
      next := 0;
    }

    method ReadU16(addr: u16, was: u16, ghost k: nat) returns (ok: bool, value: u16)
      requires Valid() && next == k < READS && Plan(k) == Ask(addr, 1)
      modifies this, client
      ensures Valid() && next == k + 1
      ensures ok == U16At(answers, k).Some? && value == Or(U16At(answers, k), was)
    {
      assert Reached(start, client.View(), k);
      NextRead(start, answers, client.View(), k, addr, 1);
      ok, value := client.ReadU16(addr, was);
      next := next + 1;
    }

    method ReadI16(addr: u16, was: int16, ghost k: nat) returns (ok: bool, value: int16)
      requires Valid() && next == k < READS && Plan(k) == Ask(addr, 1)
      modifies this, client
      ensures Valid() && next == k + 1
      ensures ok == I16At(answers, k).Some? && value == Or(I16At(answers, k), was)
    {
      assert Reached(start, client.View(), k);
      NextRead(start, answers, client.View(), k, addr, 1);
      ok, value := client.ReadI16(addr, was);
      next := next + 1;
    }

    method ReadU32(addr: u16, was: u32, ghost k: nat) returns (ok: bool, value: u32)
      requires Valid() && next == k < READS && Plan(k) == Ask(addr, 2)
      modifies this, client
      ensures Valid() && next == k + 1
      ensures ok == U32At(answers, k).Some? && value == Or(U32At(answers, k), was)
    {
      assert Reached(start, client.View(), k);
      NextRead(start, answers, client.View(), k, addr, 2);
      ok, value := client.ReadU32(addr, was);
      next := next + 1;
    }

    method ReadI32(addr: u16, was: int32, ghost k: nat) returns (ok: bool, value: int32)
      requires Valid() && next == k < READS && Plan(k) == Ask(addr, 2)
      modifies this, client
      ensures Valid() && next == k + 1
      ensures ok == I32At(answers, k).Some? && value == Or(I32At(answers, k), was)
    {
      assert Reached(start, client.View(), k);
      NextRead(start, answers, client.View(), k, addr, 2);
      ok, value := client.ReadI32(addr, was);
      next := next + 1;
    }

    method ReadText(addr: u16, was: seq<byte>, ghost k: nat) returns (ok: bool, value: seq<byte>)
      requires Valid() && next == k < READS && Plan(k) == Ask(addr, 16)
      modifies this, client
      ensures Valid() && next == k + 1
      ensures ok == TextAt(answers, k).Some? && value == Or(TextAt(answers, k), was)
    {
      assert Reached(start, client.View(), k);
      NextRead(start, answers, client.View(), k, addr, 16);
      ok, value := client.ReadString(addr, 16, was);
      next := next + 1;
    }
  }

  // ----- energy: every field from its own read

  function Energy(a: Answers, div: Division): EnergyData {
    EnergyData(
      FieldFrom(I32At(a, 49), 0.0, 1.0, div), FieldFrom(I32At(a, 50), 0.0, 1.0, div),
      FieldFrom(I32At(a, 51), 0.0, 1.0, div), FieldFrom(I32At(a, 52), 0.0, 1.0, div),
      FieldFrom(U32At(a, 53), 0.0, 10.0, div), FieldFrom(U32At(a, 54), 0.0, 10.0, div),
      FieldFrom(U32At(a, 55), 0.0, 10.0, div), FieldFrom(U32At(a, 56), 0.0, 10.0, div),
      FieldFrom(U32At(a, 57), 0.0, 10.0, div), FieldFrom(U32At(a, 58), 0.0, 10.0, div),
      FieldFrom(U32At(a, 59), 0.0, 10.0, div), FieldFrom(U32At(a, 60), 0.0, 10.0, div),
      FieldFrom(U32At(a, 61), 0.0, 10.0, div), FieldFrom(U32At(a, 62), 0.0, 10.0, div),
      FieldFrom(U32At(a, 63), 0.0, 10.0, div), FieldFrom(U32At(a, 64), 0.0, 10.0, div))
  }

  /** A field set from its read, or left as it was when the read fails. */
  function FieldFrom(raw: Option<int>, was: real, divisor: real, div: Division): real {
    match raw case Some(x) => div(x, divisor) case None => was
  }

  method SignedField(link: Link, addr: u16, was: real, divisor: real, ghost k: nat) returns (field: real)
    requires link.Valid()
    requires link.next == k < READS && Plan(k) == Ask(addr, 2)
    modifies link, link.client
    ensures link.Valid()
    ensures link.next == k + 1 && field == FieldFrom(I32At(link.answers, k), was, divisor, link.div)
  {
    field := was;
    var raw: int32 := 0;
    var ok;
    ok, raw := link.ReadI32(addr, raw, k);
    if ok {
      field := link.div(raw, divisor);
    }
  }

  method UnsignedField(link: Link, addr: u16, was: real, divisor: real, ghost k: nat) returns (field: real)
    requires link.Valid()
    requires link.next == k < READS && Plan(k) == Ask(addr, 2)
    modifies link, link.client
    ensures link.Valid()
    ensures link.next == k + 1 && field == FieldFrom(U32At(link.answers, k), was, divisor, link.div)
  {
    field := was;
    var raw: u32 := 0;
    var ok;
    ok, raw := link.ReadU32(addr, raw, k);
    if ok {
      field := link.div(raw, divisor);
    }
  }

  method ReadEnergyData(link: Link) returns (energy: EnergyData)
    requires link.Valid()
    requires link.next == 49
    modifies link, link.client
    ensures link.Valid()
    ensures link.next == 65 && energy == Energy(link.answers, link.div)
  {
    energy := NO_ENERGY;
    var x;
    x := SignedField(link, Reg.PV_TOTAL_POWER, energy.pvTotalPower, 1.0, 49);
    energy := energy.(pvTotalPower := x);
    x := SignedField(link, Reg.AC_TOTAL_POWER, energy.acActivePower, 1.0, 50);
    energy := energy.(acActivePower := x);
    x := SignedField(link, Reg.SMART_METER_POWER, energy.smartMeterPower, 1.0, 51);
    energy := energy.(smartMeterPower := x);
    x := SignedField(link, Reg.BATTERY_POWER, energy.batteryPower, 1.0, 52);
    energy := energy.(batteryPower := x);
    x := UnsignedField(link, Reg.TOTAL_CHARGE_CAP, energy.totalCharge, 10.0, 53);
    energy := energy.(totalCharge := x);
    x := UnsignedField(link, Reg.TOTAL_CHARGE_TODAY, energy.totalChargeToday, 10.0, 54);
    energy := energy.(totalChargeToday := x);
    x := UnsignedField(link, Reg.TOTAL_DISCHARGE, energy.totalDischarge, 10.0, 55);
    energy := energy.(totalDischarge := x);
    x := UnsignedField(link, Reg.TOTAL_DISCHARGE_TODAY, energy.totalDischargeToday, 10.0, 56);
    energy := energy.(totalDischargeToday := x);
    x := UnsignedField(link, Reg.TOTAL_FEEDER, energy.totalFeeder, 10.0, 57);
    energy := energy.(totalFeeder := x);
    x := UnsignedField(link, Reg.TOTAL_FEEDER_TODAY, energy.totalFeederToday, 10.0, 58);
    energy := energy.(totalFeederToday := x);
    x := UnsignedField(link, Reg.TOTAL_CONSUMPTION, energy.totalConsumption, 10.0, 59);
    energy := energy.(totalConsumption := x);
    x := UnsignedField(link, Reg.TOTAL_CONSUMPTION_TODAY, energy.totalConsumptionToday, 10.0, 60);
    energy := energy.(totalConsumptionToday := x);
    x := UnsignedField(link, Reg.TOTAL_OUTPUT, energy.totalOutput, 10.0, 61);
    energy := energy.(totalOutput := x);
    x := UnsignedField(link, Reg.TOTAL_OUTPUT_TODAY, energy.totalOutputToday, 10.0, 62);
    energy := energy.(totalOutputToday := x);
    x := UnsignedField(link, Reg.TOTAL_LOAD, energy.totalLoad, 10.0, 63);
    energy := energy.(totalLoad := x);
    x := UnsignedField(link, Reg.TOTAL_LOAD_TODAY, energy.totalLoadToday, 10.0, 64);
    energy := energy.(totalLoadToday := x);
  }

  // ----- meters: one pair of temporaries serves all fields

  /** The read behind the j-th 32-bit meter value; the second meter's connection flag is read in between. */
  function MeterRead(j: nat): nat {
    if j <= 11 then 14 + j else 15 + j
  }

  function MeterAt(a: Answers, j: nat): Option<int32> {
    I32At(a, MeterRead(j))
  }

  /** A temporary that starts at 0 after j reads into it: a failed read leaves the value of the read before. */
  function Carried<T>(a: Answers, read: (Answers, nat) -> Option<T>, zero: T, j: nat): T
    decreases j, |a|
  {
    if j == 0 then zero else Or(read(a, j), Carried(a, read, zero, j - 1))
  }

  /** The 32-bit temporary after j meter reads, which the j-th field shows. */
  function Raw(a: Answers, j: nat): int32 {
    Carried(a, MeterAt, 0, j)
  }

  function Connected(a: Answers): u16 { Or(U16At(a, 14), 0) }

  function Meter1(a: Answers, div: Division): MeterData {
    MeterData(
      Connected(a) == 1,
      div(Raw(a, 1), 10.0), div(Raw(a, 2), 10.0), div(Raw(a, 3), 10.0),
      div(Raw(a, 4), 1000.0), div(Raw(a, 5), 1000.0), div(Raw(a, 6), 1000.0),
      div(Raw(a, 7), 10.0), div(Raw(a, 8), 10.0), div(Raw(a, 9), 10.0),
      div(Raw(a, 10), 10.0), div(Raw(a, 11), 100.0))
  }

  /** The second meter has no per-phase power; its connection flag falls back to the first meter's. */
  function Meter2(a: Answers, div: Division): MeterData {
    MeterData(
      Or(U16At(a, 26), Connected(a)) == 1,
      div(Raw(a, 12), 10.0), div(Raw(a, 13), 10.0), div(Raw(a, 14), 10.0),
      div(Raw(a, 15), 1000.0), div(Raw(a, 16), 1000.0), div(Raw(a, 17), 1000.0),
      0.0, 0.0, 0.0,
      div(Raw(a, 18), 10.0), div(Raw(a, 19), 100.0))
  }

  /** The j-th 32-bit meter read, into the temporary that still holds the value before it. */
  method MeterValue(link: Link, addr: u16, was: int32, ghost j: nat, ghost k: nat) returns (value: int32)
    requires link.Valid()
    requires 0 < j && link.next == k == MeterRead(j) && k < READS && Plan(k) == Ask(addr, 2)
    requires was == Raw(link.answers, j - 1)
    modifies link, link.client
    ensures link.Valid()
    ensures link.next == k + 1 && value == Raw(link.answers, j)
  {
    var ok;
    ok, value := link.ReadI32(addr, was, k);
  }

  /** Three reads in a row, one for each phase, scaled alike; `last` is the temporary after them. */
  method PhaseValues(link: Link, r: u16, s: u16, t: u16, was: int32, divisor: real, ghost j: nat, ghost k: nat)
    returns (x: real, y: real, z: real, last: int32)
    requires link.Valid()
    requires 0 < j && link.next == k && k + 2 < READS
    requires MeterRead(j) == k && MeterRead(j + 1) == k + 1 && MeterRead(j + 2) == k + 2
    requires Plan(k) == Ask(r, 2) && Plan(k + 1) == Ask(s, 2) && Plan(k + 2) == Ask(t, 2)
    requires was == Raw(link.answers, j - 1)
    modifies link, link.client
    ensures link.Valid()
    ensures link.next == k + 3 && last == Raw(link.answers, j + 2)
    ensures x == link.div(Raw(link.answers, j), divisor)
    ensures y == link.div(Raw(link.answers, j + 1), divisor)
    ensures z == link.div(Raw(link.answers, j + 2), divisor)
  {
    last := MeterValue(link, r, was, j, k);
    x := link.div(last, divisor);
    last := MeterValue(link, s, last, j + 1, k + 1);
    y := link.div(last, divisor);
    last := MeterValue(link, t, last, j + 2, k + 2);
    z := link.div(last, divisor);
  }

  method ReadMeter1Phases(link: Link) returns (m1: MeterData, uval: u16, ival: int32)
    requires link.Valid() && link.next == 14
    modifies link, link.client
    ensures link.Valid() && link.next == 21
    ensures m1 == NO_METER.(
      connected := Connected(link.answers) == 1,
      rVoltage := link.div(Raw(link.answers, 1), 10.0),
      sVoltage := link.div(Raw(link.answers, 2), 10.0),
      tVoltage := link.div(Raw(link.answers, 3), 10.0),
      rCurrent := link.div(Raw(link.answers, 4), 1000.0),
      sCurrent := link.div(Raw(link.answers, 5), 1000.0),
      tCurrent := link.div(Raw(link.answers, 6), 1000.0))
    ensures uval == Connected(link.answers) && ival == Raw(link.answers, 6)
  {
    m1, uval, ival := NO_METER, 0, 0;
    var ok;
    ok, uval := link.ReadU16(Reg.METER1_CONN, uval, 14);
    m1 := m1.(connected := uval == 1);
    var x, y, z;
    x, y, z, ival := PhaseValues(link, Reg.METER1_R_VOLTAGE, Reg.METER1_S_VOLTAGE, Reg.METER1_T_VOLTAGE,
                                ival, 10.0, 1, 15);
    m1 := m1.(rVoltage := x, sVoltage := y, tVoltage := z);
    x, y, z, ival := PhaseValues(link, Reg.METER1_R_CURRENT, Reg.METER1_S_CURRENT, Reg.METER1_T_CURRENT,
                                ival, 1000.0, 4, 18);
    m1 := m1.(rCurrent := x, sCurrent := y, tCurrent := z);
  }

  method ReadMeter1Power(link: Link, was: MeterData, lastIval: int32) returns (m1: MeterData, ival: int32)
    requires link.Valid() && link.next == 21 && lastIval == Raw(link.answers, 6)
    modifies link, link.client
    ensures link.Valid() && link.next == 26
    ensures m1 == was.(
      rActivePower := link.div(Raw(link.answers, 7), 10.0),
      sActivePower := link.div(Raw(link.answers, 8), 10.0),
      tActivePower := link.div(Raw(link.answers, 9), 10.0),
      combinedActivePower := link.div(Raw(link.answers, 10), 10.0),
      frequency := link.div(Raw(link.answers, 11), 100.0))
    ensures ival == Raw(link.answers, 11)
  {
    m1, ival := was, lastIval;
    var x, y, z;
    x, y, z, ival := PhaseValues(link, Reg.METER1_R_POWER, Reg.METER1_S_POWER, Reg.METER1_T_POWER,
                                ival, 10.0, 7, 21);
    m1 := m1.(rActivePower := x, sActivePower := y, tActivePower := z);
    ival := MeterValue(link, Reg.METER1_COMBINED_POWER, ival, 10, 24);
    m1 := m1.(combinedActivePower := link.div(ival, 10.0));
    ival := MeterValue(link, Reg.METER1_FREQ, ival, 11, 25);
    m1 := m1.(frequency := link.div(ival, 100.0));
  }

  method ReadMeter1(link: Link) returns (m1: MeterData, uval: u16, ival: int32)
    requires link.Valid() && link.next == 14
    modifies link, link.client
    ensures link.Valid() && link.next == 26 && m1 == Meter1(link.answers, link.div)
    ensures uval == Connected(link.answers) && ival == Raw(link.answers, 11)
  {
    m1, uval, ival := ReadMeter1Phases(link);
    m1, ival := ReadMeter1Power(link, m1, ival);
  }

  method ReadMeter2(link: Link, lastUval: u16, lastIval: int32) returns (m2: MeterData)
    requires link.Valid()
    requires link.next == 26
    requires lastUval == Connected(link.answers) && lastIval == Raw(link.answers, 11)
    modifies link, link.client
    ensures link.Valid()
    ensures link.next == 35 && m2 == Meter2(link.answers, link.div)
  {
    m2 := NO_METER;
    var uval, ival, ok := lastUval, lastIval, false;
    ok, uval := link.ReadU16(Reg.METER2_CONN, uval, 26);
    m2 := m2.(connected := uval == 1);
    var x, y, z;
    x, y, z, ival := PhaseValues(link, Reg.METER2_R_VOLTAGE, Reg.METER2_S_VOLTAGE, Reg.METER2_T_VOLTAGE,
                                ival, 10.0, 12, 27);
    m2 := m2.(rVoltage := x, sVoltage := y, tVoltage := z);
    x, y, z, ival := PhaseValues(link, Reg.METER2_R_CURRENT, Reg.METER2_S_CURRENT, Reg.METER2_T_CURRENT,
                                ival, 1000.0, 15, 30);
    m2 := m2.(rCurrent := x, sCurrent := y, tCurrent := z);
    ival := MeterValue(link, Reg.METER2_COMBINED_POWER, ival, 18, 33);
    m2 := m2.(combinedActivePower := link.div(ival, 10.0));
    ival := MeterValue(link, Reg.METER2_FREQ, ival, 19, 34);
    m2 := m2.(frequency := link.div(ival, 100.0));
  }

  /** Both meters; the temporaries are not reset in between. */
  method ReadMeterData(link: Link) returns (m1: MeterData, m2: MeterData)
    requires link.Valid()
    requires link.next == 14
    modifies link, link.client
    ensures link.Valid()
    ensures link.next == 35 && m1 == Meter1(link.answers, link.div) && m2 == Meter2(link.answers, link.div)
  {
    var uval, ival;
    m1, uval, ival := ReadMeter1(link);
    m2 := ReadMeter2(link, uval, ival);
  }

  // ----- battery

  /** The j-th read of the battery into the unsigned temporary. */
  function UnsignedRead(j: nat): nat {
    match j
    case 1 => 35
    case 2 => 36
    case 3 => 38
    case 4 => 39
    case 5 => 42
    case 6 => 45
    case 7 => 46
    case 8 => 47
    case _ => 48
  }

  function UnsignedAt(a: Answers, j: nat): Option<u16> {
    U16At(a, UnsignedRead(j))
  }

  /** The unsigned temporary after j reads into it. */
  function RawU(a: Answers, j: nat): u16 {
    Carried(a, UnsignedAt, 0, j)
  }

  /** The j-th read of the battery into the signed temporary. */
  function SignedRead(j: nat): nat {
    match j
    case 1 => 40
    case 2 => 41
    case 3 => 43
    case _ => 44
  }

  function SignedAt(a: Answers, j: nat): Option<int16> {
    I16At(a, SignedRead(j))
  }

  /** The signed temporary after j reads into it. */
  function RawI(a: Answers, j: nat): int16 {
    Carried(a, SignedAt, 0, j)
  }

  function Battery(a: Answers, div: Division): BatteryData {
    BatteryData(
      RawU(a, 1), RawU(a, 2), Or(TextAt(a, 37), []), RawU(a, 3),
      div(RawU(a, 4), 10.0), div(RawI(a, 1), 10.0), div(RawI(a, 2), 10.0), div(RawU(a, 5), 1.0),
      div(RawI(a, 3), 10.0), div(RawI(a, 4), 10.0), div(RawU(a, 6), 1.0), div(RawU(a, 7), 1.0),
      div(RawU(a, 8), 1.0), div(RawU(a, 9), 0.1))
  }

  /** The j-th unsigned battery read, into the temporary that still holds the value before it. */
  method BatteryWord(link: Link, addr: u16, was: u16, ghost j: nat, ghost k: nat) returns (value: u16)
    requires link.Valid()
    requires 0 < j <= 9 && link.next == k == UnsignedRead(j) && k < READS && Plan(k) == Ask(addr, 1)
    requires was == RawU(link.answers, j - 1)
    modifies link, link.client
    ensures link.Valid()
    ensures link.next == k + 1 && value == RawU(link.answers, j)
  {
    var ok;
    ok, value := link.ReadU16(addr, was, k);
  }

  method BatterySigned(link: Link, addr: u16, was: int16, ghost j: nat, ghost k: nat) returns (value: int16)
    requires link.Valid()
    requires 0 < j <= 4 && link.next == k == SignedRead(j) && k < READS && Plan(k) == Ask(addr, 1)
    requires was == RawI(link.answers, j - 1)
    modifies link, link.client
    ensures link.Valid()
    ensures link.next == k + 1 && value == RawI(link.answers, j)
  {
    var ok;
    ok, value := link.ReadI16(addr, was, k);
  }

  method ReadBatteryIdentity(link: Link, was: BatteryData, u: u16, i: int16)
    returns (bms: BatteryData, uval: u16, ival: int16)
    requires link.Valid()
    requires link.next == 35
    requires u == RawU(link.answers, 0) && i == RawI(link.answers, 0)
    modifies link, link.client
    ensures link.Valid()
    ensures link.next == 40
    ensures uval == RawU(link.answers, 4) && ival == RawI(link.answers, 0)
    ensures bms == was.(
      online := RawU(link.answers, 1),
      mainControl := RawU(link.answers, 2),
      sn := Or(TextAt(link.answers, 37), was.sn),
      slaveCount := RawU(link.answers, 3),
      voltage := link.div(RawU(link.answers, 4), 10.0))
  {
    bms, uval, ival := was, u, i;
    uval := BatteryWord(link, Reg.BMS1, uval, 1, 35);
    bms := bms.(online := uval);
    uval := BatteryWord(link, Reg.BMS1_MAIN, uval, 2, 36);
    bms := bms.(mainControl := uval);
    var ok, sn := link.ReadText(Reg.BMS1_SN, bms.sn, 37);
    bms := bms.(sn := sn);
    uval := BatteryWord(link, Reg.BMS1_SLAVE_COUNT, uval, 3, 38);
    bms := bms.(slaveCount := uval);
    uval := BatteryWord(link, Reg.BMS1_VOLTAGE, uval, 4, 39);
    bms := bms.(voltage := link.div(uval, 10.0));
  }

  method ReadBatteryMeasurements(link: Link, was: BatteryData, u: u16, i: int16)
    returns (bms: BatteryData, uval: u16, ival: int16)
    requires link.Valid()
    requires link.next == 40
    requires u == RawU(link.answers, 4) && i == RawI(link.answers, 0)
    modifies link, link.client
    ensures link.Valid()
    ensures link.next == 45
    ensures uval == RawU(link.answers, 5) && ival == RawI(link.answers, 4)
    ensures bms == was.(
      current := link.div(RawI(link.answers, 1), 10.0),
      temperature := link.div(RawI(link.answers, 2), 10.0),
      soc := link.div(RawU(link.answers, 5), 1.0),
      maxTemperature := link.div(RawI(link.answers, 3), 10.0),
      minTemperature := link.div(RawI(link.answers, 4), 10.0))
  {
    bms, uval, ival := was, u, i;
    ival := BatterySigned(link, Reg.BMS1_CURRENT, ival, 1, 40);
    bms := bms.(current := link.div(ival, 10.0));
    ival := BatterySigned(link, Reg.BMS1_TEMP, ival, 2, 41);
    bms := bms.(temperature := link.div(ival, 10.0));
    uval := BatteryWord(link, Reg.BMS1_SOC, uval, 5, 42);
    bms := bms.(soc := link.div(uval, 1.0));
    ival := BatterySigned(link, Reg.BMS1_MAX_TEMP, ival, 3, 43);
    bms := bms.(maxTemperature := link.div(ival, 10.0));
    ival := BatterySigned(link, Reg.BMS1_MIN_TEMP, ival, 4, 44);
    bms := bms.(minTemperature := link.div(ival, 10.0));
  }

  method ReadBatteryCells(link: Link, was: BatteryData, u: u16, i: int16)
    returns (bms: BatteryData, uval: u16, ival: int16)
    requires link.Valid()
    requires link.next == 45
    requires u == RawU(link.answers, 5) && i == RawI(link.answers, 4)
    modifies link, link.client
    ensures link.Valid()
    ensures link.next == 49
    ensures uval == RawU(link.answers, 9) && ival == RawI(link.answers, 4)
    ensures bms == was.(
      maxCellVoltage := link.div(RawU(link.answers, 6), 1.0),
      minCellVoltage := link.div(RawU(link.answers, 7), 1.0),
      soh := link.div(RawU(link.answers, 8), 1.0),
      remainEnergy := link.div(RawU(link.answers, 9), 0.1))
  {
    bms, uval, ival := was, u, i;
    uval := BatteryWord(link, Reg.BMS1_MAX_CELL, uval, 6, 45);
    bms := bms.(maxCellVoltage := link.div(uval, 1.0));
    uval := BatteryWord(link, Reg.BMS1_MIN_CELL, uval, 7, 46);
    bms := bms.(minCellVoltage := link.div(uval, 1.0));
    uval := BatteryWord(link, Reg.BMS1_SOH, uval, 8, 47);
    bms := bms.(soh := link.div(uval, 1.0));
    uval := BatteryWord(link, Reg.BMS1_REMAIN_ENERGY, uval, 9, 48);
    bms := bms.(remainEnergy := link.div(uval, 0.1));
  }

  /** The battery; the two temporaries are never reset. */
  method ReadBatteryData(link: Link) returns (bms: BatteryData)
    requires link.Valid()
    requires link.next == 35
    modifies link, link.client
    ensures link.Valid()
    ensures link.next == 49 && bms == Battery(link.answers, link.div)
  {
    var uval: u16, ival: int16 := 0, 0;
    bms, uval, ival := ReadBatteryIdentity(link, NO_BATTERY, uval, ival);
    bms, uval, ival := ReadBatteryMeasurements(link, bms, uval, ival);
    bms, uval, ival := ReadBatteryCells(link, bms, uval, ival);
  }

  // ----- inverter

  /** `junk` is what the uninitialised temporary for STATUS3 happens to hold when its read fails. */
  function Info(a: Answers, junk: u32, div: Division): DeviceInfo {
    DeviceInfo(
      ToU16(Or(U32At(a, 0), 0)), Or(TextAt(a, 1), []), Or(TextAt(a, 2), []),
      Or(U16At(a, 3), 0), Or(U16At(a, 4), 0), Or(U16At(a, 5), 0),
      FieldFrom(I32At(a, 6), 0.0, 1000.0, div), FieldFrom(I32At(a, 7), 0.0, 1000.0, div),
      FieldFrom(I32At(a, 8), 0.0, 1000.0, div), FieldFrom(I32At(a, 9), 0.0, 1000.0, div),
      Or(U16At(a, 10), 0), Or(U32At(a, 11), junk), Or(U16At(a, 12), 0), Or(U16At(a, 13), 0))
  }

  method ReadIdentity(link: Link, was: DeviceInfo) returns (info: DeviceInfo)
    requires link.Valid()
    requires link.next == 0
    modifies link, link.client
    ensures link.Valid()
    ensures link.next == 6
    ensures info == was.(
      protocolVersion := ToU16(Or(U32At(link.answers, 0), was.protocolVersion)),
      modelName := Or(TextAt(link.answers, 1), was.modelName),
      serialNumber := Or(TextAt(link.answers, 2), was.serialNumber),
      modelId := Or(U16At(link.answers, 3), was.modelId),
      numStrings := Or(U16At(link.answers, 4), was.numStrings),
      numMppt := Or(U16At(link.answers, 5), was.numMppt))
  {
    info := was;
    var ok, val, text, word;
    ok, val := link.ReadU32(Reg.PROTOCOL_VERSION, 0, 0);
    if ok {
      info := info.(protocolVersion := ToU16(val));
    }
    ok, text := link.ReadText(Reg.MODEL_NAME2, info.modelName, 1);
    info := info.(modelName := text);
    ok, text := link.ReadText(Reg.PN, info.serialNumber, 2);
    info := info.(serialNumber := text);
    ok, word := link.ReadU16(Reg.MODEL_ID, info.modelId, 3);
    info := info.(modelId := word);
    ok, word := link.ReadU16(Reg.NUM_STRINGS, info.numStrings, 4);
    info := info.(numStrings := word);
    ok, word := link.ReadU16(Reg.NUM_MPPT, info.numMppt, 5);
    info := info.(numMppt := word);
  }

  method ReadRatings(link: Link, was: DeviceInfo) returns (info: DeviceInfo)
    requires link.Valid()
    requires link.next == 6
    modifies link, link.client
    ensures link.Valid()
    ensures link.next == 10
    ensures info == was.(
      ratedPower := FieldFrom(I32At(link.answers, 6), was.ratedPower, 1000.0, link.div),
      maxActive := FieldFrom(I32At(link.answers, 7), was.maxActive, 1000.0, link.div),
      maxApparent := FieldFrom(I32At(link.answers, 8), was.maxApparent, 1000.0, link.div),
      maxReactiveNeg := FieldFrom(I32At(link.answers, 9), was.maxReactiveNeg, 1000.0, link.div))
  {
    info := was;
    var x;
    x := SignedField(link, Reg.RATED_POWER, info.ratedPower, 1000.0, 6);
    info := info.(ratedPower := x);
    x := SignedField(link, Reg.MAX_ACTIVE, info.maxActive, 1000.0, 7);
    info := info.(maxActive := x);
    x := SignedField(link, Reg.MAX_APPARENT, info.maxApparent, 1000.0, 8);
    info := info.(maxApparent := x);
    x := SignedField(link, Reg.MAX_REACTIVE_NEG, info.maxReactiveNeg, 1000.0, 9);
    info := info.(maxReactiveNeg := x);
  }

  method ReadStatus(link: Link, was: DeviceInfo, junk: u32) returns (info: DeviceInfo)
    requires link.Valid()
    requires link.next == 10
    modifies link, link.client
    ensures link.Valid()
    ensures link.next == 14
    ensures info == was.(
      status1 := Or(U16At(link.answers, 10), was.status1),
      status3 := Or(U32At(link.answers, 11), junk),
      alarm1 := Or(U16At(link.answers, 12), was.alarm1),
      alarm2 := Or(U16At(link.answers, 13), was.alarm2))
  {
    info := was;
    var ok, word;
    ok, word := link.ReadU16(Reg.STATUS1, info.status1, 10);
    info := info.(status1 := word);
    var s3 := junk;
    ok, s3 := link.ReadU32(Reg.STATUS3, s3, 11);
    info := info.(status3 := s3);
    ok, word := link.ReadU16(Reg.ALARM1, info.alarm1, 12);
    info := info.(alarm1 := word);
    ok, word := link.ReadU16(Reg.ALARM2, info.alarm2, 13);
    info := info.(alarm2 := word);
  }

  method ReadInverterInfo(link: Link, junk: u32) returns (info: DeviceInfo)
    requires link.Valid()
    requires link.next == 0
    modifies link, link.client
    ensures link.Valid()
    ensures link.next == 14 && info == Info(link.answers, junk, link.div)
  {
    info := ReadIdentity(link, NO_INFO);
    info := ReadRatings(link, info);
    info := ReadStatus(link, info, junk);
  }

  // ----- the snapshot

  function SnapshotOf(a: Answers, junk: u32, div: Division): Snapshot {
    Snapshot(Info(a, junk, div), Meter1(a, div), Meter2(a, div), Battery(a, div), Energy(a, div), true)
  }

  /** Whatever fails, the same reads are made in the same order, and the snapshot is marked valid. */
  method FetchSnapshot(client: Client, junk: u32, div: Division) returns (snap: Snapshot)
    modifies client
    ensures client.View() == StateAt(old(client.View()), READS)
    ensures snap == SnapshotOf(AnswersFrom(old(client.View())), junk, div)
  {
    var link := new Link(client, div);
    snap := Snapshot(NO_INFO, NO_METER, NO_METER, NO_BATTERY, NO_ENERGY, false);
    var info := ReadInverterInfo(link, junk);
    var m1, m2 := ReadMeterData(link);
    var battery := ReadBatteryData(link);
    var energy := ReadEnergyData(link);
    snap := snap.(info := info, meter1 := m1, meter2 := m2, battery := battery, energy := energy);
    snap := snap.(valid := true);
    assert Reached(link.start, client.View(), READS);
  }
}
