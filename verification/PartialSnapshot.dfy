/**
 What a snapshot shows when the device refuses some of its reads. Reads that fail share temporaries with reads
 that succeed, so a field can show another register.
 */
module PartialSnapshot {
  import opened Words
  import opened Modbus
  import opened ModbusSession
  import opened SolakonDevice
  import opened SnapshotMeaning
  import Reg

  /** The last of the first j reads into a temporary that is not refused; 0 if all are. */
  function LastServed(r: Round, read: nat -> nat, j: nat): (i: nat)
    ensures i <= j && (i > 0 ==> !r.fails(read(i)))
    ensures forall n :: i < n <= j ==> r.fails(read(n))
  {
    if j == 0 then 0 else if !r.fails(read(j)) then j else LastServed(r, read, j - 1)
  }

  /** What that read left there. */
  function Left<T>(held: nat -> T, zero: T, i: nat): T {
    if i == 0 then zero else held(i)
  }

  /** The j-th read into a temporary returns the value held for it, or nothing when it is refused. */
  predicate ReturnsHeld<T(==)>(a: Answers, r: Round, at: (Answers, nat) -> Option<T>, read: nat -> nat, held: nat -> T,
                               j: nat)
  {
    at(a, j) == if r.fails(read(j)) then None else Some(held(j))
  }

  /** A temporary holds the value of the last register whose read was not refused. */
  lemma {:induction false} CarriedIsLeft<T>(a: Answers, r: Round, at: (Answers, nat) -> Option<T>, read: nat -> nat,
                                            held: nat -> T, zero: T, j: nat)
    requires forall i: nat :: 1 <= i <= j ==> ReturnsHeld(a, r, at, read, held, i)
    ensures Carried(a, at, zero, j) == Left(held, zero, LastServed(r, read, j))
    decreases j
  {
    if j > 0 {
      assert ReturnsHeld(a, r, at, read, held, j);
      CarriedIsLeft(a, r, at, read, held, zero, j - 1);
    }
  }

  // ----- the values behind the temporaries

  /** The value of the k-th register pair or register of the plan, at the moment of its read. */
  function Held32(v: History, k: nat): int32 {
    if k < READS && Plan(k).addr < 0xFFFF then Signed32(v(k), Plan(k).addr) else 0
  }

  function Held16(v: History, k: nat): u16 {
    if k < READS then Unsigned16(v(k), Plan(k).addr) else 0
  }

  lemma {:induction false} Refused(a: Answers, r: Round, k: nat)
    requires GotAnswer(a, r, k) && r.fails(k)
    ensures a[k] == None
  {
  }

  lemma {:induction false} NotRefused(a: Answers, r: Round, k: nat)
    requires GotAnswer(a, r, k) && !r.fails(k)
    ensures Answered(a, r.v, k)
  {
  }

  lemma {:induction false} PairReturned(a: Answers, r: Round, k: nat)
    requires GotAnswer(a, r, k) && Plan(k).count == 2
    ensures I32At(a, k) == if r.fails(k) then None else Some(Held32(r.v, k))
  {
    if r.fails(k) {
      Refused(a, r, k);
    } else {
      NotRefused(a, r, k);
      TwoRegisters(a, r.v, k, Plan(k).addr);
    }
  }

  lemma {:induction false} WordReturned(a: Answers, r: Round, k: nat)
    requires GotAnswer(a, r, k) && Plan(k).count == 1
    ensures U16At(a, k) == if r.fails(k) then None else Some(Held16(r.v, k))
    ensures I16At(a, k) == if r.fails(k) then None else Some(ToI16(Held16(r.v, k)))
  {
    if r.fails(k) {
      Refused(a, r, k);
    } else {
      NotRefused(a, r, k);
      OneRegister(a, r.v, k, Plan(k).addr);
    }
  }

  /** What the temporaries hold after the j-th read into them. */
  function MeterLeft(r: Round, j: nat): int32 {
    Left(i => Held32(r.v, MeterRead(i)), 0, LastServed(r, MeterRead, j))
  }

  function UnsignedLeft(r: Round, j: nat): u16 {
    Left(i => Held16(r.v, UnsignedRead(i)), 0, LastServed(r, UnsignedRead, j))
  }

  function SignedLeft(r: Round, j: nat): int16 {
    Left(i => ToI16(Held16(r.v, SignedRead(i))), 0, LastServed(r, SignedRead, j))
  }

  lemma {:induction false} MeterReadsPairs(j: nat)
    requires 1 <= j <= 19
    ensures MeterRead(j) < READS && Plan(MeterRead(j)).count == 2
  {
  }

  lemma {:induction false} BatteryReadsWords(j: nat)
    requires 1 <= j
    ensures Plan(UnsignedRead(j)).count == 1 && Plan(SignedRead(j)).count == 1
  {
  }

  lemma {:induction false} RawIsLeft(a: Answers, r: Round, j: nat)
    requires GotAnswers(a, r) && j <= 19
    ensures Raw(a, j) == MeterLeft(r, j)
  {
    var held := i => Held32(r.v, MeterRead(i));
    forall i: nat | 1 <= i <= j
      ensures ReturnsHeld(a, r, MeterAt, MeterRead, held, i)
    {
      MeterReadsPairs(i);
      assert GotAnswer(a, r, MeterRead(i));
      PairReturned(a, r, MeterRead(i));
    }
    CarriedIsLeft(a, r, MeterAt, MeterRead, held, 0, j);
  }

  lemma {:induction false} RawUIsLeft(a: Answers, r: Round, j: nat)
    requires GotAnswers(a, r)
    ensures RawU(a, j) == UnsignedLeft(r, j)
  {
    var held := i => Held16(r.v, UnsignedRead(i));
    forall i: nat | 1 <= i <= j
      ensures ReturnsHeld(a, r, UnsignedAt, UnsignedRead, held, i)
    {
      BatteryReadsWords(i);
      assert GotAnswer(a, r, UnsignedRead(i));
      WordReturned(a, r, UnsignedRead(i));
    }
    CarriedIsLeft(a, r, UnsignedAt, UnsignedRead, held, 0, j);
  }

  lemma {:induction false} RawIIsLeft(a: Answers, r: Round, j: nat)
    requires GotAnswers(a, r)
    ensures RawI(a, j) == SignedLeft(r, j)
  {
    var held := i => ToI16(Held16(r.v, SignedRead(i)));
    forall i: nat | 1 <= i <= j
      ensures ReturnsHeld(a, r, SignedAt, SignedRead, held, i)
    {
      BatteryReadsWords(i);
      assert GotAnswer(a, r, SignedRead(i));
      WordReturned(a, r, SignedRead(i));
    }
    CarriedIsLeft(a, r, SignedAt, SignedRead, held, 0, j);
  }

  // ----- the fields

  lemma {:induction false} MeterShowsRaw(a: Answers, div: Division, j: nat)
    requires 1 <= j <= 19
    ensures MeterShows(Meter1(a, div), Meter2(a, div), div, j, Raw(a, j))
  {
  }

  lemma {:induction false} UnsignedShowsRaw(a: Answers, div: Division, j: nat)
    requires 1 <= j <= 9
    ensures UnsignedShows(Battery(a, div), div, j, RawU(a, j))
  {
  }

  lemma {:induction false} SignedShowsRaw(a: Answers, div: Division, j: nat)
    requires 1 <= j <= 4
    ensures SignedShows(Battery(a, div), div, j, RawI(a, j))
  {
  }

  ghost predicate MetersShowLeft(s: Snapshot, r: Round, div: Division) {
    forall j: nat :: 1 <= j <= 19 ==> MeterShows(s.meter1, s.meter2, div, j, MeterLeft(r, j))
  }

  ghost predicate BatteryShowsLeft(s: Snapshot, r: Round, div: Division) {
    && (forall j: nat :: 1 <= j <= 9 ==> UnsignedShows(s.battery, div, j, UnsignedLeft(r, j)))
    && (forall j: nat :: 1 <= j <= 4 ==> SignedShows(s.battery, div, j, SignedLeft(r, j)))
    && s.battery.sn == if r.fails(37) then [] else Text16(r.v(37), Reg.BMS1_SN)
  }

  ghost predicate EnergyShowsOwn(s: Snapshot, r: Round, div: Division) {
    forall i: nat :: i < 16 ==>
      EnergyField(s.energy, i) == if r.fails(49 + i) then 0.0 else EnergyField(TrueEnergy(r.v, div), i)
  }

  /** The first meter counts as connected when its register says so; the second one counts as the first when its own
      register is not read. */
  predicate ConnectionsShown(s: Snapshot, r: Round) {
    && s.meter1.connected == (!r.fails(14) && Held16(r.v, 14) == 1)
    && s.meter2.connected == (if r.fails(26) then s.meter1.connected else Held16(r.v, 26) == 1)
  }

  function Own<T>(r: Round, k: nat, own: T, otherwise: T): T {
    if r.fails(k) then otherwise else own
  }

  predicate IdentityShowsOwn(i: DeviceInfo, t: DeviceInfo, r: Round) {
    && i.protocolVersion == Own(r, 0, t.protocolVersion, 0)
    && i.modelName == Own(r, 1, t.modelName, [])
    && i.serialNumber == Own(r, 2, t.serialNumber, [])
    && i.modelId == Own(r, 3, t.modelId, 0)
    && i.numStrings == Own(r, 4, t.numStrings, 0)
    && i.numMppt == Own(r, 5, t.numMppt, 0)
  }

  predicate RatingsShowOwn(i: DeviceInfo, t: DeviceInfo, r: Round) {
    && i.ratedPower == Own(r, 6, t.ratedPower, 0.0)
    && i.maxActive == Own(r, 7, t.maxActive, 0.0)
    && i.maxApparent == Own(r, 8, t.maxApparent, 0.0)
    && i.maxReactiveNeg == Own(r, 9, t.maxReactiveNeg, 0.0)
  }

  predicate StatusShowsOwn(i: DeviceInfo, t: DeviceInfo, r: Round, junk: u32) {
    && i.status1 == Own(r, 10, t.status1, 0)
    && i.status3 == Own(r, 11, t.status3, junk)
    && i.alarm1 == Own(r, 12, t.alarm1, 0)
    && i.alarm2 == Own(r, 13, t.alarm2, 0)
  }

  /** Every field of the inverter shows its own register, or 0 or the empty text when that is refused; only the third
      status word then shows what happened to be in memory. */
  ghost predicate InfoShowsOwn(s: Snapshot, r: Round, junk: u32, div: Division) {
    var t := TrueInfo(r.v, div);
    IdentityShowsOwn(s.info, t, r) && RatingsShowOwn(s.info, t, r) && StatusShowsOwn(s.info, t, r, junk)
  }

  lemma {:induction false} OwnWord(a: Answers, r: Round, k: nat, addr: u16)
    requires k < READS && GotAnswers(a, r) && Plan(k) == Ask(addr, 1)
    ensures U16At(a, k) == Own(r, k, Some(Unsigned16(r.v(k), addr)), None)
  {
    assert GotAnswer(a, r, k);
    if r.fails(k) {
      Refused(a, r, k);
    } else {
      NotRefused(a, r, k);
      OneRegister(a, r.v, k, addr);
    }
  }

  lemma {:induction false} OwnPair(a: Answers, r: Round, k: nat, addr: u16)
    requires k < READS && GotAnswers(a, r) && Plan(k) == Ask(addr, 2) && addr < 0xFFFF
    ensures U32At(a, k) == Own(r, k, Some(Unsigned32(r.v(k), addr)), None)
    ensures I32At(a, k) == Own(r, k, Some(Signed32(r.v(k), addr)), None)
  {
    assert GotAnswer(a, r, k);
    if r.fails(k) {
      Refused(a, r, k);
    } else {
      NotRefused(a, r, k);
      TwoRegisters(a, r.v, k, addr);
    }
  }

  lemma {:induction false} OwnText(a: Answers, r: Round, k: nat, addr: u16)
    requires k < READS && GotAnswers(a, r) && Plan(k) == Ask(addr, 16) && addr <= 0xFFF0
    ensures TextAt(a, k) == Own(r, k, Some(Text16(r.v(k), addr)), None)
  {
    assert GotAnswer(a, r, k);
    if r.fails(k) {
      Refused(a, r, k);
    } else {
      NotRefused(a, r, k);
      TextRegisters(a, r.v, k, addr);
    }
  }

  lemma {:induction false} LowWordOwn(o: Option<u32>, r: Round, k: nat, x: u32)
    requires o == Own(r, k, Some(x), None)
    ensures ToU16(Or(o, 0)) == Own(r, k, ToU16(x), 0)
  {
  }

  lemma {:induction false} ProtocolOwn(a: Answers, r: Round, junk: u32, div: Division)
    requires GotAnswers(a, r)
    ensures Info(a, junk, div).protocolVersion == Own(r, 0, TrueInfo(r.v, div).protocolVersion, 0)
  {
    OwnPair(a, r, 0, Reg.PROTOCOL_VERSION);
    LowWordOwn(U32At(a, 0), r, 0, Unsigned32(r.v(0), Reg.PROTOCOL_VERSION));
  }

  lemma {:induction false} NamesOwn(a: Answers, r: Round, junk: u32, div: Division)
    requires GotAnswers(a, r)
    ensures Info(a, junk, div).modelName == Own(r, 1, TrueInfo(r.v, div).modelName, [])
    ensures Info(a, junk, div).serialNumber == Own(r, 2, TrueInfo(r.v, div).serialNumber, [])
  {
    OwnText(a, r, 1, Reg.MODEL_NAME2);
    OwnText(a, r, 2, Reg.PN);
  }

  lemma {:induction false} NumbersOwn(a: Answers, r: Round, junk: u32, div: Division)
    requires GotAnswers(a, r)
    ensures Info(a, junk, div).modelId == Own(r, 3, TrueInfo(r.v, div).modelId, 0)
    ensures Info(a, junk, div).numStrings == Own(r, 4, TrueInfo(r.v, div).numStrings, 0)
    ensures Info(a, junk, div).numMppt == Own(r, 5, TrueInfo(r.v, div).numMppt, 0)
  {
    OwnWord(a, r, 3, Reg.MODEL_ID);
    OwnWord(a, r, 4, Reg.NUM_STRINGS);
    OwnWord(a, r, 5, Reg.NUM_MPPT);
  }

  lemma {:induction false} IdentityOwn(a: Answers, r: Round, junk: u32, div: Division)
    requires GotAnswers(a, r)
    ensures IdentityShowsOwn(Info(a, junk, div), TrueInfo(r.v, div), r)
  {
    ProtocolOwn(a, r, junk, div);
    NamesOwn(a, r, junk, div);
    NumbersOwn(a, r, junk, div);
  }

  lemma {:induction false} RatingsOwn(a: Answers, r: Round, junk: u32, div: Division)
    requires GotAnswers(a, r)
    ensures RatingsShowOwn(Info(a, junk, div), TrueInfo(r.v, div), r)
  {
    OwnPair(a, r, 6, Reg.RATED_POWER);
    OwnPair(a, r, 7, Reg.MAX_ACTIVE);
    OwnPair(a, r, 8, Reg.MAX_APPARENT);
    OwnPair(a, r, 9, Reg.MAX_REACTIVE_NEG);
  }

  lemma {:induction false} StatusOwn(a: Answers, r: Round, junk: u32, div: Division)
    requires GotAnswers(a, r)
    ensures StatusShowsOwn(Info(a, junk, div), TrueInfo(r.v, div), r, junk)
  {
    OwnWord(a, r, 10, Reg.STATUS1);
    OwnPair(a, r, 11, Reg.STATUS3);
    OwnWord(a, r, 12, Reg.ALARM1);
    OwnWord(a, r, 13, Reg.ALARM2);
  }

  lemma {:induction false} MetersLeft(a: Answers, r: Round, junk: u32, div: Division)
    requires GotAnswers(a, r)
    ensures MetersShowLeft(SnapshotOf(a, junk, div), r, div)
  {
    forall j: nat | 1 <= j <= 19
      ensures MeterShows(Meter1(a, div), Meter2(a, div), div, j, MeterLeft(r, j))
    {
      RawIsLeft(a, r, j);
      MeterShowsRaw(a, div, j);
    }
  }

  lemma {:induction false} BatteryLeft(a: Answers, r: Round, junk: u32, div: Division)
    requires GotAnswers(a, r)
    ensures BatteryShowsLeft(SnapshotOf(a, junk, div), r, div)
  {
    forall j: nat | 1 <= j <= 9
      ensures UnsignedShows(Battery(a, div), div, j, UnsignedLeft(r, j))
    {
      RawUIsLeft(a, r, j);
      UnsignedShowsRaw(a, div, j);
    }
    forall j: nat | 1 <= j <= 4
      ensures SignedShows(Battery(a, div), div, j, SignedLeft(r, j))
    {
      RawIIsLeft(a, r, j);
      SignedShowsRaw(a, div, j);
    }
    assert GotAnswer(a, r, 37);
    SerialReturned(a, r);
  }

  lemma {:induction false} SerialReturned(a: Answers, r: Round)
    requires GotAnswer(a, r, 37)
    ensures Or(TextAt(a, 37), []) == if r.fails(37) then [] else Text16(r.v(37), Reg.BMS1_SN)
  {
    if r.fails(37) {
      Refused(a, r, 37);
    } else {
      NotRefused(a, r, 37);
      TextRegisters(a, r.v, 37, Reg.BMS1_SN);
    }
  }

  lemma {:induction false} EnergyOwn(a: Answers, r: Round, junk: u32, div: Division)
    requires GotAnswers(a, r)
    ensures EnergyShowsOwn(SnapshotOf(a, junk, div), r, div)
  {
    forall i: nat | i < 16
      ensures EnergyField(Energy(a, div), i) == if r.fails(49 + i) then 0.0 else EnergyField(TrueEnergy(r.v, div), i)
    {
      assert GotAnswer(a, r, 49 + i);
      if r.fails(49 + i) {
        Refused(a, r, 49 + i);
        EnergyFieldsIndependent(a, a, i, div);
      } else {
        NotRefused(a, r, 49 + i);
        EnergyFieldTrue(a, r.v, i, div);
      }
    }
  }

  lemma {:induction false} Connections(a: Answers, r: Round, junk: u32, div: Division)
    requires GotAnswers(a, r)
    ensures ConnectionsShown(SnapshotOf(a, junk, div), r)
  {
    assert GotAnswer(a, r, 14) && GotAnswer(a, r, 26);
    WordReturned(a, r, 14);
    WordReturned(a, r, 26);
  }

  /** Main result: in any number of refreshes over one connection to a conforming server that may refuse any of the
      reads, every field of the inverter and of the energy data is the decode of its own registers, or empty when it is
      refused, and every field of the meters and of the battery shows the register that was last read without refusal
      into its temporary. The snapshot is marked valid whatever was refused. */
  lemma {:induction false} RefreshesShow(server: Server, s: State, rounds: seq<Round>, k: nat, junk: u32, div: Division)
    requires ConformingServer(server) && k < |rounds| && Ready(server, s, RefreshCalls(rounds))
    ensures var shown := SnapshotOf(AnswersFrom(RefreshAt(s, k)), junk, div);
      && shown.valid
      && InfoShowsOwn(shown, rounds[k], junk, div)
      && EnergyShowsOwn(shown, rounds[k], div)
      && MetersShowLeft(shown, rounds[k], div)
      && BatteryShowsLeft(shown, rounds[k], div)
      && ConnectionsShown(shown, rounds[k])
  {
    RefreshesTrue(server, s, rounds, k, junk, div);
    var a := AnswersFrom(RefreshAt(s, k));
    IdentityOwn(a, rounds[k], junk, div);
    RatingsOwn(a, rounds[k], junk, div);
    StatusOwn(a, rounds[k], junk, div);
    EnergyOwn(a, rounds[k], junk, div);
    MetersLeft(a, rounds[k], junk, div);
    BatteryLeft(a, rounds[k], junk, div);
    Connections(a, rounds[k], junk, div);
  }

  /** So a meter field shows its own register, or 0 when that is refused, exactly when it is not refused or the register
      last read before it, if any, was 0. */
  lemma {:induction false} MeterOwnIff(a: Answers, r: Round, div: Division, j: nat)
    requires GotAnswers(a, r) && 1 <= j <= 19 && SeparatesZero(div)
    ensures var own := if r.fails(MeterRead(j)) then 0 else Held32(r.v, MeterRead(j));
      MeterShows(Meter1(a, div), Meter2(a, div), div, j, own) <==>
      !r.fails(MeterRead(j)) || MeterLeft(r, j - 1) == 0
  {
    RawIsLeft(a, r, j);
    MetersShowRaw(a, div, j, if r.fails(MeterRead(j)) then 0 else Held32(r.v, MeterRead(j)));
  }
}
