/**
 * The milestone-verifier component as a state machine: its local state, the
 * initial values it is mounted with, and the user actions that change it.
 * Only the verify button touches the audit log, and it only ever adds to it.
 */
module Component {
  import Tiers
  import opened Verifier

  /** The component's local state: the verification inputs and the audit log. */
  datatype Widget = Widget(inputs: Inputs, audit: seq<Event>)

  /** Zero production, the first stage, both checks on, an empty log. */
  const Initial: Widget := Widget(Inputs(0, ElectrolyserCommissioned, true, true), [])

  /** What a user can do: move the slider, pick a stage, toggle a check box, press verify. */
  datatype Action =
    | SetProduction(kg: int)
    | SetStage(stage: Stage)
    | SetOracleOnline(online: bool)
    | SetKycOk(ok: bool)
    | PressVerify

  /** One user action. */
  function Step(w: Widget, a: Action): (w': Widget)
    ensures a.PressVerify? ==> w'.inputs == w.inputs
    ensures !a.PressVerify? ==> w'.audit == w.audit
    ensures a.SetProduction? ==> w'.inputs.productionKg == a.kg
    ensures a.SetStage? ==> w'.inputs.stage == a.stage
    ensures a.SetOracleOnline? ==> w'.inputs.oracleOnline == a.online
    ensures a.SetKycOk? ==> w'.inputs.kycOk == a.ok
    ensures !a.SetProduction? ==> w'.inputs.productionKg == w.inputs.productionKg
    ensures !a.SetStage? ==> w'.inputs.stage == w.inputs.stage
    ensures !a.SetOracleOnline? ==> w'.inputs.oracleOnline == w.inputs.oracleOnline
    ensures !a.SetKycOk? ==> w'.inputs.kycOk == w.inputs.kycOk
    ensures a.PressVerify? ==> w'.audit == Verify(w.inputs, w.audit)
  {
    match a
    case SetProduction(kg) => w.(inputs := w.inputs.(productionKg := kg))
    case SetStage(s) => w.(inputs := w.inputs.(stage := s))
    case SetOracleOnline(b) => w.(inputs := w.inputs.(oracleOnline := b))
    case SetKycOk(b) => w.(inputs := w.inputs.(kycOk := b))
    case PressVerify => w.(audit := Verify(w.inputs, w.audit))
  }

  /** A session of actions, applied in order. */
  function Run(w: Widget, actions: seq<Action>): Widget
    decreases |actions|
  {
    if actions == [] then w else Run(Step(w, actions[0]), actions[1..])
  }

  /** How many times the verify button is pressed in a session. */
  function Presses(actions: seq<Action>): nat {
    if actions == [] then 0
    else (if actions[0].PressVerify? then 1 else 0) + Presses(actions[1..])
  }

  /** `b` ends with `a`: the entries of `a` are untouched at the old end of `b`. */
  predicate IsSuffix<T(==)>(a: seq<T>, b: seq<T>) {
    |a| <= |b| && b[|b| - |a|..] == a
  }

  /** Being a suffix is transitive. */
  lemma SuffixTransitive<T>(a: seq<T>, b: seq<T>, c: seq<T>)
    requires IsSuffix(a, b) && IsSuffix(b, c)
    ensures IsSuffix(a, c)
  {
  }

  /** One action adds one or two entries on a press and none otherwise, keeping the old log as a suffix. */
  lemma StepGrowsLog(w: Widget, a: Action)
    ensures a.PressVerify? ==> |w.audit| + 1 <= |Step(w, a).audit| <= |w.audit| + 2
    ensures !a.PressVerify? ==> Step(w, a).audit == w.audit
    ensures IsSuffix(w.audit, Step(w, a).audit)
  {
  }

  /** Each press adds one or two entries to the log, and nothing else adds any. */
  lemma {:induction false} RunLogLength(w: Widget, actions: seq<Action>)
    ensures |w.audit| + Presses(actions) <= |Run(w, actions).audit| <= |w.audit| + 2 * Presses(actions)
    decreases |actions|
  {
    if actions != [] {
      StepGrowsLog(w, actions[0]);
      RunLogLength(Step(w, actions[0]), actions[1..]);
    }
  }

  /** The audit log only grows: the log before a session is an unchanged suffix of the log after it. */
  lemma {:induction false} RunKeepsLog(w: Widget, actions: seq<Action>)
    ensures IsSuffix(w.audit, Run(w, actions).audit)
    decreases |actions|
  {
    if actions != [] {
      var w1 := Step(w, actions[0]);
      StepGrowsLog(w, actions[0]);
      RunKeepsLog(w1, actions[1..]);
      SuffixTransitive(w.audit, w1.audit, Run(w1, actions[1..]).audit);
    }
  }

  /** Every session keeps the audit-log invariant. */
  lemma {:induction false} RunKeepsPaired(w: Widget, actions: seq<Action>)
    requires Paired(w.audit)
    ensures Paired(Run(w, actions).audit)
    decreases |actions|
  {
    if actions != [] {
      if actions[0].PressVerify? {
        VerifyKeepsPaired(w.inputs, w.audit);
      }
      RunKeepsPaired(Step(w, actions[0]), actions[1..]);
    }
  }

  /**
   * From the mounted state, every disbursement in the log sits on top of the
   * qualifying milestone it pays for, with the schedule's amount.
   */
  lemma SessionLogPaired(actions: seq<Action>)
    ensures Paired(Run(Initial, actions).audit)
    ensures |Run(Initial, actions).audit| >= Presses(actions)
  {
    RunKeepsPaired(Initial, actions);
    RunLogLength(Initial, actions);
  }

  /** The mounted widget shows no subsidy and would log no disbursement. */
  lemma InitialState()
    ensures ShownSubsidy(Initial.inputs) == 0.0
    ensures !CanDisburse(Initial.inputs)
    ensures Step(Initial, PressVerify).audit == [NoDisbursement]
  {
    Tiers.ScheduleSubsidy(0);
    CanDisburseIff(Initial.inputs);
  }
}
