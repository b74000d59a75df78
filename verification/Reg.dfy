/** Register addresses of the Solakon ONE Modbus protocol that a snapshot reads. */
module Reg {
  import opened Words

  const PROTOCOL_VERSION: u16 := 39000
  const MODEL_NAME2: u16 := 39002
  const PN: u16 := 39018
  const MODEL_ID: u16 := 39050
  const NUM_STRINGS: u16 := 39051
  const NUM_MPPT: u16 := 39052
  const RATED_POWER: u16 := 39053
  const MAX_ACTIVE: u16 := 39055
  const MAX_APPARENT: u16 := 39057
  const MAX_REACTIVE_NEG: u16 := 39059
  const STATUS1: u16 := 39063
  const STATUS3: u16 := 39065
  const ALARM1: u16 := 39066
  const ALARM2: u16 := 39067
  const METER1_CONN: u16 := 38801
  const METER1_R_VOLTAGE: u16 := 38802
  const METER1_S_VOLTAGE: u16 := 38804
  const METER1_T_VOLTAGE: u16 := 38806
  const METER1_R_CURRENT: u16 := 38808
  const METER1_S_CURRENT: u16 := 38810
  const METER1_T_CURRENT: u16 := 38812
  const METER1_R_POWER: u16 := 38814
  const METER1_S_POWER: u16 := 38816
  const METER1_T_POWER: u16 := 38818
  const METER1_COMBINED_POWER: u16 := 38838
  const METER1_FREQ: u16 := 38844
  const METER2_CONN: u16 := 38901
  const METER2_R_VOLTAGE: u16 := 38902
  const METER2_S_VOLTAGE: u16 := 38904
  const METER2_T_VOLTAGE: u16 := 38906
  const METER2_R_CURRENT: u16 := 38908
  const METER2_S_CURRENT: u16 := 38910
  const METER2_T_CURRENT: u16 := 38912
  const METER2_COMBINED_POWER: u16 := 38938
  const METER2_FREQ: u16 := 38946
  const BMS1: u16 := 37002
  const BMS1_MAIN: u16 := 37003
  const BMS1_SN: u16 := 37005
  const BMS1_SLAVE_COUNT: u16 := 37032
  const BMS1_VOLTAGE: u16 := 37609
  const BMS1_CURRENT: u16 := 37610
  const BMS1_TEMP: u16 := 37611
  const BMS1_SOC: u16 := 37612
  const BMS1_MAX_TEMP: u16 := 37617
  const BMS1_MIN_TEMP: u16 := 37618
  const BMS1_MAX_CELL: u16 := 37619
  const BMS1_MIN_CELL: u16 := 37620
  const BMS1_SOH: u16 := 37624
  const BMS1_REMAIN_ENERGY: u16 := 37632
  const PV_TOTAL_POWER: u16 := 39118
  const AC_TOTAL_POWER: u16 := 39134
  const SMART_METER_POWER: u16 := 39168
  const BATTERY_POWER: u16 := 39230
  const TOTAL_CHARGE_CAP: u16 := 39605
  const TOTAL_CHARGE_TODAY: u16 := 39603
  const TOTAL_DISCHARGE: u16 := 39609
  const TOTAL_DISCHARGE_TODAY: u16 := 39607
  const TOTAL_FEEDER: u16 := 39613
  const TOTAL_FEEDER_TODAY: u16 := 39611
  const TOTAL_CONSUMPTION: u16 := 39617
  const TOTAL_CONSUMPTION_TODAY: u16 := 39615
  const TOTAL_OUTPUT: u16 := 39621
  const TOTAL_OUTPUT_TODAY: u16 := 39619
  const TOTAL_LOAD: u16 := 39625
  const TOTAL_LOAD_TODAY: u16 := 39623
}
