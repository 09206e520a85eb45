# Milestone verifier of the green-hydrogen subsidy demo

This project models the `MilestoneVerifier` component of the subsidy demo site
in Dafny, and proves properties of the model. The component is the site's
simulated oracle-backed check. A user sets the hydrogen production (kg), the
project stage, and two flags: "Oracle Online" and "KYC/AML Pass". The
component shows the subsidy earned from a fixed three-tier schedule. Pressing
"Verify & Trigger" adds entries to an in-memory audit log, newest first.

- `tiers.dfy`, module `Tiers`: the tier schedule (1000 kg at 0.5, 5000 kg at 0.4,
  20000 kg at 0.3). It also holds the `filter` that selects the achieved tiers,
  the left-to-right `reduce` that sums `threshold * rate`, and lemmas about
  order, monotonicity, bounds and the exact step values 0 / 500 / 2500 / 8500.
- `verifier.dfy`, module `Verifier`: the stages, the audit events, the
  disbursement gate `CanDisburse`, the prepend `Log`, and the
  short-circuit `Verify` transition. It also holds the audit-log invariant
  `Paired`: each disbursement sits directly on top of the qualifying milestone
  it pays for.
- `component.dfy`, module `Component`: the component's local state, its
  initial values, and the user actions. It proves that over any session the
  log only grows and keeps `Paired`.

Modelling choices:
- Rates are exact `real`s. The component uses IEEE doubles. For this schedule,
  each product `threshold * rate` rounds to the exact integer and each partial
  sum is an exact integer, so both give the same numbers.
- The component keeps the stage as a string. Its buttons can only set the four
  labels, and the gate compares against `"Project Completed"`. The model uses
  an enum `Stage` with `StageLabel`, and `StageLabelInjective` shows the enum
  comparison and the string comparison agree.
- The handler calls `log` twice through React's functional state updater. The
  two calls therefore apply as two successive prepends. The disbursement entry
  becomes the newest and the milestone entry sits one below it.
- The log is newest first: each entry is prepended (`[entry, ...a]`).
- A completed project with no tier reached passes the gate. `Verify` then logs
  `Disburse(0.0)`. This is what the code does; `VerifyPassing` and
  `DisbursedAmount` state it.

## Model

| member | source | states |
|---|---|---|
| Tiers.Achieved | client/pages/Index.tsx:32 | a tier is in the result exactly when it is in the list and production is at least its threshold; the result keeps the list's order (it is a subsequence); how often each tier occurs is stated by `AchievedCounts` |
| Tiers.AchievedCounts | client/pages/Index.tsx:32 | the filter keeps each reached tier with its full multiplicity in the list and drops every unreached tier (multiset counts) |
| Tiers.AchievedMonotone | client/pages/Index.tsx:32 | for p <= q, the tiers achieved at p are achieved at q, in the same relative order |
| Tiers.AchievedIsPrefix | client/pages/Index.tsx:27-32 | with ascending thresholds, the achieved tiers are a prefix of the tier list |
| Tiers.AchievedPrefixMonotone | client/pages/Index.tsx:27-32 | with ascending thresholds and p <= q, the achieved list at p is a prefix of the achieved list at q |
| Tiers.Reduce | client/pages/Index.tsx:38 | no contract of its own; `ReduceIsTotal` states that this left fold equals the initial sum plus the reference total |
| Tiers.Subsidy | client/pages/Index.tsx:36-39 | no contract of its own; `SubsidyBounds`, `SubsidyMonotone` and `ScheduleSubsidy` describe it |
| Tiers.ReduceIsTotal | client/pages/Index.tsx:38 | the left fold from an initial sum equals that sum plus the order-independent total of the payouts |
| Tiers.TotalSubsequence | client/pages/Index.tsx:38 | for tiers with non-negative payouts, dropping tiers never raises the total |
| Tiers.SubsidyBounds | client/pages/Index.tsx:36-39 | for valid tiers the subsidy lies between 0 and the total payout of all tiers |
| Tiers.SubsidyMonotone | client/pages/Index.tsx:36-39 | for valid tiers, more production never lowers the subsidy |
| Tiers.SubsidyNeedsTier | client/pages/Index.tsx:38 | with no achieved tier the subsidy is 0 (the reduce's initial value) |
| Tiers.Schedule | client/pages/Index.tsx:27-31 | the three tiers as constants; `ScheduleValid`, `ScheduleAchieved` and `ScheduleSubsidy` describe them |
| Tiers.ScheduleValid | client/pages/Index.tsx:27-31 | the fixed schedule has non-negative thresholds and rates, and ascending thresholds |
| Tiers.ScheduleAchieved | client/pages/Index.tsx:27-32 | the achieved tiers of the schedule are [], [Tier 1], [Tier 1, Tier 2] or all three, on the bands <1000, <5000, <20000, >=20000 |
| Tiers.ScheduleAnyAchieved | client/pages/Index.tsx:27-32 | some tier of the schedule is achieved if and only if production is at least 1000 kg |
| Tiers.ScheduleSubsidy | client/pages/Index.tsx:27-39 | the subsidy is 0 below 1000 kg, 500 below 5000, 2500 below 20000, and 8500 from 20000 on |
| Tiers.ScheduleSubsidyBounds | client/pages/Index.tsx:36-39 | the schedule's subsidy lies in [0, 8500] |
| Verifier.StageLabel | client/pages/Index.tsx:91 | no contract of its own; `StageLabelInjective` states that the labels are distinct |
| Verifier.StageLabelInjective | client/pages/Index.tsx:91 | the four stage labels are distinct, and only ProjectCompleted has the label "Project Completed" |
| Verifier.CanDisburse | client/pages/Index.tsx:41 | no contract of its own; `CanDisburseIff` restates the gate over production bands |
| Verifier.Log | client/pages/Index.tsx:43-52 | no contract of its own; the contract of `Verify` and `RunKeepsLog` state that logging only prepends |
| Verifier.CanDisburseIff | client/pages/Index.tsx:41 | the gate holds if and only if the oracle is online, KYC passes, and production is at least 1000 kg or the stage is Project Completed |
| Verifier.Verify | client/pages/Index.tsx:43-63 | adds one or two entries and keeps the old log as an unchanged suffix; adds two exactly when the gate holds; the first new entry is OracleOffline, KycFailed, Disburse(subsidy) over MilestoneVerified(kg, stage), or NoDisbursement, by the short-circuit order |
| Verifier.VerifyOffline | client/pages/Index.tsx:55 | with the oracle offline, verify prepends exactly OracleOffline, whatever the KYC flag, stage and production |
| Verifier.VerifyKycFailed | client/pages/Index.tsx:56 | with the oracle online and KYC failing, verify prepends exactly KycFailed, whatever the stage and production |
| Verifier.VerifyPassing | client/pages/Index.tsx:41-61 | with both checks passing, the exact entries prepended on each production band; below 1000 kg, a completed project gets Disburse(0) and any other stage gets NoDisbursement |
| Verifier.DisbursedAmount | client/pages/Index.tsx:41-59 | a disbursed amount is one of 0, 500, 2500 and 8500; it is 0 exactly when production is below 1000 kg, and then the stage is Project Completed |
| Verifier.PrependOtherKeepsPaired | client/pages/Index.tsx:43-52 | prepending an entry that is neither a milestone nor a disbursement keeps the log invariant |
| Verifier.PrependPairKeepsPaired | client/pages/Index.tsx:43-52 | prepending a qualifying milestone with its schedule-amount disbursement on top keeps the log invariant |
| Verifier.VerifyKeepsPaired | client/pages/Index.tsx:43-63 | verify preserves the log invariant: each Disburse sits directly on its qualifying MilestoneVerified with the schedule's amount for that kg, and each milestone has its Disburse directly above it |
| Component.Initial | client/pages/Index.tsx:20-24 | the mounted state as a constant; `InitialState` and `SessionLogPaired` describe it |
| Component.Run | client/pages/Index.tsx:54-63 | no contract of its own; `RunLogLength`, `RunKeepsLog` and `RunKeepsPaired` describe a session of handler calls |
| Component.Step | client/pages/Index.tsx:75-114 | each setter sets its own input, leaves the other three inputs as they were and leaves the log alone; pressing verify leaves the inputs alone and replaces the log by the verify transition applied to the current inputs and log |
| Component.StepGrowsLog | client/pages/Index.tsx:43-63 | a press adds one or two entries and any other action adds none; the old log stays an unchanged suffix either way |
| Component.RunLogLength | client/pages/Index.tsx:43-63 | over any session the log grows by at least one and at most two entries per press of verify |
| Component.RunKeepsLog | client/pages/Index.tsx:43-52 | over any session the log before it is an unchanged suffix of the log after it: entries are never removed or altered |
| Component.RunKeepsPaired | client/pages/Index.tsx:43-63 | over any session, a log that satisfies the invariant still satisfies it |
| Component.SessionLogPaired | client/pages/Index.tsx:20-24 | from the mounted state (empty log), every reachable log satisfies the invariant and holds at least one entry per press |
| Component.InitialState | client/pages/Index.tsx:20-24 | the mounted inputs show subsidy 0 and fail the gate, so a first press logs only NoDisbursement |

## Left out

- The random `id` and the locale-formatted `time` of each audit entry are left out. They come from the environment (a random-number generator and the clock).
- Message texts and number formatting (`toLocaleString`, `toFixed(2)`) are left out. They depend on the locale. Each message is a structured `Event` constructor.
- The slider's range (0 to 30000) and step (100) are left out. `SetProduction` accepts any integer. The browser enforces the range, and every lemma holds for all integers.
- Fractional or non-numeric production values are left out. Production is an `int`, which covers every value the slider can produce.
- IEEE floating-point rounding is not modelled, because for these constants it gives the exact values.
- The JSX rendering and styling of the component are left out, and so are the rest of the site. Those parts are the layout and navigation chrome, the login, register and settings forms (they only show a notification), the three.js molecule animation, and the static dashboard and not-found pages. None of them holds decision logic.
