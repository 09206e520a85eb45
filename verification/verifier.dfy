/**
 * The decision logic of the milestone verifier: the eligibility gate and the
 * "Verify & Trigger" transition, which prepends entries to an in-memory audit
 * log kept newest first.
 *
 * Audit entries are structured events. The random id and the locale-formatted
 * timestamp of each entry, and the rendering of its message, are not modelled.
 */
module Verifier {
  import Tiers

  /** The four project stages the widget offers, in button order. */
  datatype Stage = ElectrolyserCommissioned | PilotProduction | ScaledProduction | ProjectCompleted

  /** The text the widget stores for a stage and compares against. */
  function StageLabel(s: Stage): string {
    match s
    case ElectrolyserCommissioned => "Electrolyser Commissioned"
    case PilotProduction => "Pilot Production"
    case ScaledProduction => "Scaled Production"
    case ProjectCompleted => "Project Completed"
  }

  /** The inputs of one verification: slider, stage buttons and the two check boxes. */
  datatype Inputs = Inputs(productionKg: int, stage: Stage, oracleOnline: bool, kycOk: bool)

  /** One audit-log entry, newest first in the log. */
  datatype Event =
    | OracleOffline
    | KycFailed
    | MilestoneVerified(kg: int, stage: Stage)
    | Disburse(amount: real)
    | NoDisbursement

  /** The subsidy shown for the current production, from the fixed schedule. */
  function ShownSubsidy(i: Inputs): real {
    Tiers.Subsidy(Tiers.Schedule, i.productionKg)
  }

  /** The disbursement gate: oracle up, KYC passed, and a tier reached or the project completed. */
  predicate CanDisburse(i: Inputs) {
    i.oracleOnline && i.kycOk
    && (|Tiers.Achieved(Tiers.Schedule, i.productionKg)| > 0 || i.stage == ProjectCompleted)
  }

  /** Adds one entry at the front of the audit log. */
  function Log(audit: seq<Event>, e: Event): seq<Event> {
    [e] + audit
  }

  /**
   * The click handler. Its checks short-circuit: oracle first, then KYC, then
   * the gate. On success it logs the milestone and then the disbursement, so
   * the disbursement ends up newest.
   */
  function Verify(i: Inputs, audit: seq<Event>): (r: seq<Event>)
    ensures |audit| + 1 <= |r| <= |audit| + 2
    ensures r[|r| - |audit|..] == audit
    ensures |r| == |audit| + 2 <==> CanDisburse(i)
    ensures !i.oracleOnline ==> r[0] == OracleOffline
    ensures i.oracleOnline && !i.kycOk ==> r[0] == KycFailed
    ensures CanDisburse(i) ==> r[0] == Disburse(ShownSubsidy(i)) && r[1] == MilestoneVerified(i.productionKg, i.stage)
    ensures i.oracleOnline && i.kycOk && !CanDisburse(i) ==> r[0] == NoDisbursement
  {
    if !i.oracleOnline then Log(audit, OracleOffline)
    else if !i.kycOk then Log(audit, KycFailed)
    else if CanDisburse(i) then
      Log(Log(audit, MilestoneVerified(i.productionKg, i.stage)), Disburse(ShownSubsidy(i)))
    else Log(audit, NoDisbursement)
  }

  /**
   * The audit-log invariant: every disbursement is directly preceded (one entry
   * older) by the milestone it pays for, that milestone qualifies, and the amount
   * is the schedule's subsidy for the milestone's production; every milestone
   * entry is directly followed by its disbursement.
   */
  ghost predicate Paired(log: seq<Event>) {
    (forall k :: 0 <= k < |log| && log[k].Disburse? ==>
      k + 1 < |log| && log[k + 1].MilestoneVerified?
      && (log[k + 1].kg >= 1000 || log[k + 1].stage == ProjectCompleted)
      && log[k].amount == Tiers.Subsidy(Tiers.Schedule, log[k + 1].kg))
    && (forall k :: 0 <= k < |log| && log[k].MilestoneVerified? ==> k > 0 && log[k - 1].Disburse?)
  }

  // ---------------------------------------------------------------------------
  // Stage labels

  /** Distinct stages have distinct labels, so comparing labels is comparing stages. */
  lemma StageLabelInjective(a: Stage, b: Stage)
    ensures StageLabel(a) == StageLabel(b) <==> a == b
    ensures StageLabel(a) == "Project Completed" <==> a == ProjectCompleted
  {
  }

  // ---------------------------------------------------------------------------
  // The gate

  /** The gate in terms of the schedule: a tier is reached exactly from 1000 kg on. */
  lemma CanDisburseIff(i: Inputs)
    ensures CanDisburse(i) <==>
      i.oracleOnline && i.kycOk && (i.productionKg >= 1000 || i.stage == ProjectCompleted)
  {
    Tiers.ScheduleAnyAchieved(i.productionKg);
  }

  // ---------------------------------------------------------------------------
  // The verify transition

  /** With the oracle offline, verification logs only the offline failure, whatever the other inputs. */
  lemma VerifyOffline(i: Inputs, j: Inputs, audit: seq<Event>)
    requires !i.oracleOnline && !j.oracleOnline
    ensures Verify(i, audit) == [OracleOffline] + audit
    ensures Verify(i, audit) == Verify(j, audit)
  {
  }

  /** With the oracle online but KYC failing, verification logs only the KYC failure, whatever the stage and production. */
  lemma VerifyKycFailed(i: Inputs, j: Inputs, audit: seq<Event>)
    requires i.oracleOnline && !i.kycOk
    requires j.oracleOnline && !j.kycOk
    ensures Verify(i, audit) == [KycFailed] + audit
    ensures Verify(i, audit) == Verify(j, audit)
  {
  }

  /**
   * The outcome of a verification with both checks passing, stated on the
   * production bands of the schedule rather than on the achieved tiers.
   */
  lemma VerifyPassing(i: Inputs, audit: seq<Event>)
    requires i.oracleOnline && i.kycOk
    ensures i.productionKg < 1000 && i.stage != ProjectCompleted ==>
      Verify(i, audit) == [NoDisbursement] + audit
    ensures i.productionKg < 1000 && i.stage == ProjectCompleted ==>
      Verify(i, audit) == [Disburse(0.0), MilestoneVerified(i.productionKg, i.stage)] + audit
    ensures 1000 <= i.productionKg < 5000 ==>
      Verify(i, audit) == [Disburse(500.0), MilestoneVerified(i.productionKg, i.stage)] + audit
    ensures 5000 <= i.productionKg < 20000 ==>
      Verify(i, audit) == [Disburse(2500.0), MilestoneVerified(i.productionKg, i.stage)] + audit
    ensures 20000 <= i.productionKg ==>
      Verify(i, audit) == [Disburse(8500.0), MilestoneVerified(i.productionKg, i.stage)] + audit
  {
    CanDisburseIff(i);
    Tiers.ScheduleSubsidy(i.productionKg);
  }

  /** Every amount a verification disburses is one of the four steps; zero only for a completed project below the first tier. */
  lemma DisbursedAmount(i: Inputs, audit: seq<Event>)
    requires Verify(i, audit)[0].Disburse?
    ensures Verify(i, audit)[0].amount in {0.0, 500.0, 2500.0, 8500.0}
    ensures Verify(i, audit)[0].amount == 0.0 <==> i.productionKg < 1000
    ensures Verify(i, audit)[0].amount == 0.0 ==> i.stage == ProjectCompleted
  {
    CanDisburseIff(i);
    Tiers.ScheduleSubsidy(i.productionKg);
  }

  /** Prepending an entry that is neither a milestone nor a disbursement keeps the invariant. */
  lemma PrependOtherKeepsPaired(e: Event, audit: seq<Event>)
    requires Paired(audit) && !e.Disburse? && !e.MilestoneVerified?
    ensures Paired([e] + audit)
  {
  }

  /** Prepending a qualifying milestone with its disbursement on top keeps the invariant. */
  lemma PrependPairKeepsPaired(kg: int, stage: Stage, audit: seq<Event>)
    requires Paired(audit) && (kg >= 1000 || stage == ProjectCompleted)
    ensures Paired([Disburse(Tiers.Subsidy(Tiers.Schedule, kg)), MilestoneVerified(kg, stage)] + audit)
  {
  }

  /** Verification keeps the audit-log invariant. */
  lemma VerifyKeepsPaired(i: Inputs, audit: seq<Event>)
    requires Paired(audit)
    ensures Paired(Verify(i, audit))
  {
    if CanDisburse(i) {
      CanDisburseIff(i);
      assert Verify(i, audit)
        == [Disburse(Tiers.Subsidy(Tiers.Schedule, i.productionKg)), MilestoneVerified(i.productionKg, i.stage)] + audit;
      PrependPairKeepsPaired(i.productionKg, i.stage, audit);
    } else {
      PrependOtherKeepsPaired(Verify(i, audit)[0], audit);
      assert Verify(i, audit) == [Verify(i, audit)[0]] + audit;
    }
  }
}
