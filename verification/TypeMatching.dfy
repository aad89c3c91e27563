/** Which received type satisfies which configured type (IEC104ClientConfig::isMessageTypeMatching). */
module TypeMatching {
  import opened Protocol

  /** Types that carry the same information, with and without time tag, share a family. */
  function Family(typeId: int): int {
    if typeId in {M_SP_NA_1, M_SP_TA_1, M_SP_TB_1} then M_SP_NA_1
    else if typeId in {M_DP_NA_1, M_DP_TA_1, M_DP_TB_1} then M_DP_NA_1
    else if typeId in {M_ST_NA_1, M_ST_TA_1, M_ST_TB_1} then M_ST_NA_1
    else if typeId in {M_ME_NA_1, M_ME_TA_1, M_ME_TD_1, M_ME_ND_1} then M_ME_NA_1
    else if typeId in {M_ME_NB_1, M_ME_TB_1, M_ME_TE_1} then M_ME_NB_1
    else if typeId in {M_ME_NC_1, M_ME_TC_1, M_ME_TF_1} then M_ME_NC_1
    else if 58 <= typeId <= 63 then typeId - 13
    else typeId
  }

  /** The switch of the source, with its fall-through from C_SE_TB_1 into C_SE_NC_1.
      It decides "same family" except for exactly one extra pair. */
  function IsMessageTypeMatching(expected: int, rcvd: int): (r: bool)
    ensures r <==> Family(expected) == Family(rcvd) || (expected == C_SE_TB_1 && rcvd == C_SE_TC_1)
  {
    if expected == rcvd then true
    else if expected == M_SP_NA_1 then rcvd == M_SP_TA_1 || rcvd == M_SP_TB_1
    else if expected == M_SP_TA_1 then rcvd == M_SP_NA_1 || rcvd == M_SP_TB_1
    else if expected == M_SP_TB_1 then rcvd == M_SP_NA_1 || rcvd == M_SP_TA_1
    else if expected == M_DP_NA_1 then rcvd == M_DP_TA_1 || rcvd == M_DP_TB_1
    else if expected == M_DP_TA_1 then rcvd == M_DP_NA_1 || rcvd == M_DP_TB_1
    else if expected == M_DP_TB_1 then rcvd == M_DP_NA_1 || rcvd == M_DP_TA_1
    else if expected == M_ME_NA_1 then rcvd == M_ME_TA_1 || rcvd == M_ME_TD_1 || rcvd == M_ME_ND_1
    else if expected == M_ME_TA_1 then rcvd == M_ME_NA_1 || rcvd == M_ME_TD_1 || rcvd == M_ME_ND_1
    else if expected == M_ME_TD_1 then rcvd == M_ME_TA_1 || rcvd == M_ME_NA_1 || rcvd == M_ME_ND_1
    else if expected == M_ME_ND_1 then rcvd == M_ME_TA_1 || rcvd == M_ME_TD_1 || rcvd == M_ME_NA_1
    else if expected == M_ME_NB_1 then rcvd == M_ME_TB_1 || rcvd == M_ME_TE_1
    else if expected == M_ME_TB_1 then rcvd == M_ME_NB_1 || rcvd == M_ME_TE_1
    else if expected == M_ME_TE_1 then rcvd == M_ME_TB_1 || rcvd == M_ME_NB_1
    else if expected == M_ME_NC_1 then rcvd == M_ME_TC_1 || rcvd == M_ME_TF_1
    else if expected == M_ME_TC_1 then rcvd == M_ME_NC_1 || rcvd == M_ME_TF_1
    else if expected == M_ME_TF_1 then rcvd == M_ME_TC_1 || rcvd == M_ME_NC_1
    else if expected == M_ST_NA_1 then rcvd == M_ST_TA_1 || rcvd == M_ST_TB_1
    else if expected == M_ST_TA_1 then rcvd == M_ST_NA_1 || rcvd == M_ST_TB_1
    else if expected == M_ST_TB_1 then rcvd == M_ST_TA_1 || rcvd == M_ST_NA_1
    else if expected == C_SC_NA_1 then rcvd == C_SC_TA_1
    else if expected == C_SC_TA_1 then rcvd == C_SC_NA_1
    else if expected == C_DC_NA_1 then rcvd == C_DC_TA_1
    else if expected == C_DC_TA_1 then rcvd == C_DC_NA_1
    else if expected == C_RC_NA_1 then rcvd == C_RC_TA_1
    else if expected == C_RC_TA_1 then rcvd == C_RC_NA_1
    else if expected == C_SE_NA_1 then rcvd == C_SE_TA_1
    else if expected == C_SE_TA_1 then rcvd == C_SE_NA_1
    else if expected == C_SE_NB_1 then rcvd == C_SE_TB_1
    else if expected == C_SE_TB_1 then rcvd == C_SE_NB_1 || /* no break */ rcvd == C_SE_TC_1
    else if expected == C_SE_NC_1 then rcvd == C_SE_TC_1
    else if expected == C_SE_TC_1 then rcvd == C_SE_NC_1
    else false
  }

  /** Because of the fall-through, matching is neither symmetric nor transitive: it is
      symmetric at a pair exactly when the pair is not {C_SE_TB_1, C_SE_TC_1}, and transitive
      along a chain exactly when the chain is not one of two that use the extra pair. */
  lemma MatchingIsNotAnEquivalence()
    ensures forall a, b ::
      (IsMessageTypeMatching(a, b) <==> IsMessageTypeMatching(b, a)) <==> {a, b} != {C_SE_TB_1, C_SE_TC_1}
    ensures forall a, b, c ::
      (IsMessageTypeMatching(a, b) && IsMessageTypeMatching(b, c) ==> IsMessageTypeMatching(a, c)) <==>
      (a, b, c) != (C_SE_NB_1, C_SE_TB_1, C_SE_TC_1) && (a, b, c) != (C_SE_TB_1, C_SE_TC_1, C_SE_NC_1)
  {
  }

  /** The six commands the client sends: type without and with time tag. */
  predicate IsCommandPair(untimed: int, timed: int) {
    C_SC_NA_1 <= untimed <= C_SE_NC_1 && timed == untimed + 13
  }

  /** The extra pair is harmless for commands: the client checks a command with the
      untimed type, and whatever configured type passes also accepts the type sent. */
  lemma CommandCheckCoversReply(configured: int, untimed: int, timed: int)
    requires IsCommandPair(untimed, timed)
    ensures IsMessageTypeMatching(configured, untimed) ==> IsMessageTypeMatching(configured, timed)
    ensures IsMessageTypeMatching(configured, timed) && !(configured == C_SE_TB_1 && timed == C_SE_TC_1)
            ==> IsMessageTypeMatching(configured, untimed)
  {
  }
}
