/**
 * The records and growth constants shared by the daemon and its writers
 * (src/temp_types.h). A thermometer record is a value: the C array of
 * `thermometer_t` stores its elements inline, so the daemon's in-place updates
 * of one element are modelled as replacing that element of an `array`.
 */
module TempTypes {

  /** Growth step of the bus (wire) array. */
  const WIRE_COUNT_STEP: nat := 5
  /** Growth step of each wire's thermometer array. */
  const THERMO_COUNT_STEP: nat := 5

  /** A OneWire ROM code is 8 bytes. */
  const ADDRESS_LEN: nat := 8
  /** `__SCR_LENGTH`: the DS18x20 scratchpad holds 9 bytes. */
  const SCR_LENGTH: nat := 9

  // Positions of the nine named scratchpad bytes, in the order the writers print them.
  const SCR_L: nat := 0
  const SCR_H: nat := 1
  const SCR_HI_ALARM: nat := 2
  const SCR_LO_ALARM: nat := 3
  const SCR_CFG: nat := 4
  const SCR_FFH: nat := 5
  const SCR_RESERVED: nat := 6
  const SCR_10H: nat := 7
  const SCR_CRC: nat := 8

  /** Status the read pass gives a thermometer whose read failed. */
  const TEMP_STATUS_FAIL: int := 0
  /** Status the read pass gives a thermometer whose read succeeded. */
  const TEMP_STATUS_OK: int := 1

  type Byte = b: int | 0 <= b < 256

  type Address = a: seq<Byte> | |a| == ADDRESS_LEN
    witness [0, 0, 0, 0, 0, 0, 0, 0]

  type Scratchpad = s: seq<Byte> | |s| == SCR_LENGTH
    witness [0, 0, 0, 0, 0, 0, 0, 0, 0]

  /**
   * `thermometer_t`. The C `float` temperature is modelled as an exact real;
   * `status` stays an `int` because a record the read pass has not reached
   * holds whatever its memory held.
   */
  datatype Thermometer = Thermometer(
    address: Address,
    scratchpad: Scratchpad,
    temperature: real,
    status: int)

  /**
   * What the writers see of one `wire_t`: its device path, its status and its
   * first `thermo_count` thermometers.
   */
  datatype WireView = WireView(device: string, status: int, thermometers: seq<Thermometer>)

  /** The nine named scratchpad bytes in the order SCR_L ... SCR_CRC. */
  function ScratchpadFields(scr: Scratchpad): (r: seq<Byte>)
    ensures |r| == SCR_LENGTH
  {
    [scr[SCR_L], scr[SCR_H], scr[SCR_HI_ALARM], scr[SCR_LO_ALARM], scr[SCR_CFG],
     scr[SCR_FFH], scr[SCR_RESERVED], scr[SCR_10H], scr[SCR_CRC]]
  }

  /** The nine named fields cover the whole scratchpad, each byte once, in storage order. */
  lemma ScratchpadFieldsInOrder(scr: Scratchpad)
    ensures ScratchpadFields(scr) == scr
  {
  }
}
