/** When a proposal is accepted (x/dao/keeper/end_blocker.go, quorum and threshold). */
module DaoDecision {
  import opened LegacyDec
  import opened DaoTypes

  predicate QuorumMet(params: DaoParams, snapshot: int, voted: int) {
    if snapshot > 0 then Ratio(voted, snapshot) >= params.quorumPercent else params.quorumPercent == 0
  }

  predicate ThresholdMet(params: DaoParams, yes: int, no: int) {
    if yes + no > 0 then Ratio(yes, yes + no) >= params.minYesThresholdPercent
    else params.minYesThresholdPercent == 0
  }

  /** The decision in one formula; in a reachable state no total is negative. */
  predicate Accepts(params: DaoParams, snapshot: int, yes: int, no: int, voted: int) {
    QuorumMet(params, snapshot, voted) && voted != 0 && ThresholdMet(params, yes, no)
  }

  /** The nested branches of EndBlocker, in their order, compute that formula. */
  method Decide(params: DaoParams, snapshot: int, yes: int, no: int, voted: int) returns (status: Status)
    ensures status == if Accepts(params, snapshot, yes, no, voted) then Passed else Rejected
  {
    hide Ratio;
    status := VotingPeriod;
    var hasQuorum := false;
    if snapshot > 0 {
      if Ratio(voted, snapshot) >= params.quorumPercent {
        hasQuorum := true;
      }
    } else if params.quorumPercent == 0 {
      hasQuorum := true;
    } else {
      hasQuorum := false;
    }
    if !hasQuorum {
      status := Rejected;
    } else {
      var passedVotingThreshold := false;
      if voted == 0 && params.minYesThresholdPercent != 0 {
      } else if voted == 0 && params.minYesThresholdPercent == 0 {
      } else {
        var totalVotesNonAbstain := yes + no;
        if totalVotesNonAbstain > 0 {
          var percentageYes := Ratio(yes, totalVotesNonAbstain);
          if percentageYes >= params.minYesThresholdPercent {
            passedVotingThreshold := true;
          }
        } else if params.minYesThresholdPercent == 0 {
          passedVotingThreshold := true;
        }
      }
      if passedVotingThreshold {
        status := Passed;
      } else if status == VotingPeriod {
        status := Rejected;
      }
    }
  }

  // ---------- rounding ----------

  /** The quorum test against the exact fraction, q in units of 10^-18. */
  lemma QuorumBounds(params: DaoParams, snapshot: nat, voted: nat)
    requires ValidParams(params) && snapshot > 0
    ensures
      var q := params.quorumPercent;
      && (voted * ONE >= q * snapshot ==> QuorumMet(params, snapshot, voted))
      && (QuorumMet(params, snapshot, voted) ==> 2 * voted * ONE >= (2 * q - 1) * snapshot)
  {
    RatioBounds(voted, snapshot, params.quorumPercent);
  }

  lemma ThresholdBounds(params: DaoParams, yes: nat, no: nat)
    requires ValidParams(params) && yes + no > 0
    ensures
      var t := params.minYesThresholdPercent;
      && (yes * ONE >= t * (yes + no) ==> ThresholdMet(params, yes, no))
      && (ThresholdMet(params, yes, no) ==> 2 * yes * ONE >= (2 * t - 1) * (yes + no))
  {
    RatioBounds(yes, yes + no, params.minYesThresholdPercent);
  }

  /**
   Acceptance in whole numbers: a vote was counted; the turnout reaches the
   quorum of the snapshot, or there is neither; and the YES votes reach their
   share of YES and NO, or there are neither and no share is asked for.
   */
  lemma AcceptsExactly(params: DaoParams, snapshot: int, yes: nat, no: nat, voted: nat)
    requires ValidParams(params)
    ensures
      Accepts(params, snapshot, yes, no, voted) <==>
        && voted > 0
        && (if snapshot > 0 then Reaches(voted, snapshot, params.quorumPercent) else params.quorumPercent == 0)
        && (if yes + no > 0 then Reaches(yes, yes + no, params.minYesThresholdPercent)
            else params.minYesThresholdPercent == 0)
  {
    hide Ratio, Reaches;
    if snapshot > 0 { RatioReaches(voted, snapshot, params.quorumPercent); }
    if yes + no > 0 { RatioReaches(yes, yes + no, params.minYesThresholdPercent); }
  }

  /** Without a YES a proposal is only accepted when no share of YES is asked for. */
  lemma AcceptsWithoutYes(params: DaoParams, snapshot: int, no: nat, voted: nat)
    requires ValidParams(params)
    ensures
      Accepts(params, snapshot, 0, no, voted) <==>
        QuorumMet(params, snapshot, voted) && voted > 0 && params.minYesThresholdPercent == 0
  {
    hide Ratio;
    if no > 0 { RatioOfNone(no); }
  }

  lemma RatioOfNone(t: nat)
    requires t > 0
    ensures Ratio(0, t) == 0
  {
    RatioIsRounded(0, t);
    DivUnique(0, t, 0);
    ChopExact(0);
  }

  // ---------- more support never hurts ----------

  lemma QuorumMonotone(params: DaoParams, snapshot: int, voted: nat, w: nat)
    requires QuorumMet(params, snapshot, voted)
    ensures QuorumMet(params, snapshot, voted + w)
  {
    if snapshot > 0 {
      assert voted * snapshot <= (voted + w) * snapshot;
      RatioMonotone(voted, snapshot, voted + w, snapshot);
    }
  }

  lemma ThresholdWithMoreYes(params: DaoParams, yes: nat, no: nat, w: nat)
    requires ValidParams(params) && ThresholdMet(params, yes, no)
    ensures ThresholdMet(params, yes + w, no)
  {
    hide Ratio;
    if yes + no > 0 {
      assert yes * (yes + w + no) == yes * (yes + no) + yes * w;
      assert (yes + w) * (yes + no) == yes * (yes + no) + w * yes + w * no;
      RatioMonotone(yes, yes + no, yes + w, yes + w + no);
    } else if w > 0 {
      RatioOfItself(w);
    }
  }

  lemma ThresholdWithTurnedNo(params: DaoParams, yes: nat, no: nat, w: nat)
    requires w <= no && ThresholdMet(params, yes, no)
    ensures ThresholdMet(params, yes + w, no - w)
  {
    hide Ratio;
    if yes + no > 0 {
      assert yes * (yes + no) <= (yes + w) * (yes + no);
      RatioMonotone(yes, yes + no, yes + w, yes + no);
    }
  }

  /** One more YES vote of weight w. */
  lemma AcceptsWithYes(params: DaoParams, snapshot: int, yes: nat, no: nat, voted: nat, w: nat)
    requires ValidParams(params) && Accepts(params, snapshot, yes, no, voted)
    ensures Accepts(params, snapshot, yes + w, no, voted + w)
  {
    QuorumMonotone(params, snapshot, voted, w);
    ThresholdWithMoreYes(params, yes, no, w);
  }

  /** One more ABSTAIN vote, or one of an unnamed option. */
  lemma AcceptsWithAbstain(params: DaoParams, snapshot: int, yes: nat, no: nat, voted: nat, w: nat)
    requires Accepts(params, snapshot, yes, no, voted)
    ensures Accepts(params, snapshot, yes, no, voted + w)
  {
    QuorumMonotone(params, snapshot, voted, w);
  }

  /** A NO vote of weight w turned into YES. */
  lemma AcceptsWithTurnedNo(params: DaoParams, snapshot: int, yes: nat, no: nat, voted: nat, w: nat)
    requires w <= no && Accepts(params, snapshot, yes, no, voted)
    ensures Accepts(params, snapshot, yes + w, no - w, voted)
  {
    ThresholdWithTurnedNo(params, yes, no, w);
  }
}
