/** Vocabulary shared by the whole model: type identifiers and causes of
    transmission of IEC 60870-5-101/104, ASDUs as the client sees them after
    decoding, and the client's clock arithmetic. */
module Protocol {

  datatype Option<+T> = None | Some(value: T)

  // Type identifications (section 7.2.1 of IEC 60870-5-101 and section 8 of IEC 60870-5-104)
  const M_SP_NA_1 := 1
  const M_SP_TA_1 := 2
  const M_DP_NA_1 := 3
  const M_DP_TA_1 := 4
  const M_ST_NA_1 := 5
  const M_ST_TA_1 := 6
  const M_ME_NA_1 := 9
  const M_ME_TA_1 := 10
  const M_ME_NB_1 := 11
  const M_ME_TB_1 := 12
  const M_ME_NC_1 := 13
  const M_ME_TC_1 := 14
  const M_ME_ND_1 := 21
  const M_SP_TB_1 := 30
  const M_DP_TB_1 := 31
  const M_ST_TB_1 := 32
  const M_ME_TD_1 := 34
  const M_ME_TE_1 := 35
  const M_ME_TF_1 := 36
  const C_SC_NA_1 := 45
  const C_DC_NA_1 := 46
  const C_RC_NA_1 := 47
  const C_SE_NA_1 := 48
  const C_SE_NB_1 := 49
  const C_SE_NC_1 := 50
  const C_SC_TA_1 := 58
  const C_DC_TA_1 := 59
  const C_RC_TA_1 := 60
  const C_SE_TA_1 := 61
  const C_SE_TB_1 := 62
  const C_SE_TC_1 := 63
  const M_EI_NA_1 := 70
  const C_IC_NA_1 := 100
  const C_CS_NA_1 := 103
  const C_TS_TA_1 := 107

  // Causes of transmission (section 7.2.3 of IEC 60870-5-101)
  const COT_ACTIVATION_CON := 7
  const COT_ACTIVATION_TERMINATION := 10
  const COT_INTERROGATED_BY_STATION := 20
  const COT_UNKNOWN_TYPE_ID := 44

  /** An information object; the library may fail to decode one. Values are opaque
      except for the state of single and double points. */
  datatype InfoObject = Undecodable | Object(ioa: int, value: int)

  datatype Asdu = Asdu(typeId: int, cot: int, ca: int, negative: bool, objects: seq<InfoObject>)

  predicate IsInterrogationResponse(a: Asdu) {
    a.cot == COT_INTERROGATED_BY_STATION
  }

  predicate IsSupportedCommand(typeId: int) {
    45 <= typeId <= 51 || 58 <= typeId <= 64
  }

  /** Milliseconds of the monotonic clock, an unsigned 64-bit counter; the model
      covers its lower half (292 million years of uptime). */
  type Time = t: int | 0 <= t < 0x8000_0000_0000_0000

  /** A duration setting in seconds, a non-negative C `int`. */
  type Seconds = s: int | 0 <= s < 0x8000_0000

  const MAX_EXACT_SECONDS := 2147483

  /** The 32-bit product `seconds * 1000`, taken with two's complement wrap-around. */
  function Millis(s: Seconds): (ms: int)
    ensures ms == 1000 * s <==> s <= MAX_EXACT_SECONDS
  {
    (1000 * s + 0x8000_0000) % 0x1_0000_0000 - 0x8000_0000
  }

  /** `t + seconds * 1000` as the client computes it: the product converted to
      unsigned 64-bit, then added. */
  function After(t: int, s: Seconds): (r: int)
    ensures 0 <= t < 0x8000_0000_0000_0000 && s <= MAX_EXACT_SECONDS ==> r == t + 1000 * s
  {
    var r := t + Millis(s);
    if r < 0 then r + 0x1_0000_0000_0000_0000
    else if r >= 0x1_0000_0000_0000_0000 then r - 0x1_0000_0000_0000_0000
    else r
  }
}
