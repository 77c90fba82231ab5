# Verified model of the AxiomGate kernel

This project models the fail-closed authorization kernel in `axiomgate_kernel/` and the TLA+ governance
specification in `formal/`, and proves what every run of them keeps. Nothing here runs the kernel; everything is
checked by the Dafny verifier (`dafny verify dfyconfig.toml`).

The kernel mediates requests of agents. A request is canonicalised, authenticated, observed, checked against
policy, capabilities, mandate and provenance, and recorded in a hash-chained log; what needs the Owner is escalated,
decided, and re-entered once under a reserved grant. The model follows the same division:

| files | part of the system |
|---|---|
| `Domain`, `Json`, `Text` | vocabulary, decoded JSON values, string helpers |
| `Kernel`, `Mediator` | the mediator: what each of the seven gated calls decides and records, as functions, and the object whose methods are proved equal to them |
| `Rulings`, `KernelSteps`, `KernelOutcomes`, `KernelOwner`, `KernelRecords` | theorems about one call: every verdict exactly when, what it changes, what it records |
| `KernelRuns`, `KernelOrigin`, `KernelExact`, `KernelExecutions`, `KernelObservations`, `KernelStores`, `KernelExamples` | theorems about whole sequential runs, the exact conditions of a PERMIT, and two concrete runs |
| `Concurrency` | the same protocol as atomic steps of any number of threads |
| `Grants`, `Escalations`, `Observations` | reserved grants with the execution log, escalation records, the observation log and both checkers |
| `AuditChain`, `AuditTheorems`, `AuditFaults`, `AuditContents`, `AuditRecovery`, `AuditRuns`, `Redaction` | the audit log: chain, anchors, faults, crash recovery, what redaction keeps and hides |
| `Authentication`, `Approval`, `ApprovalSigning` | replay guards with a clock and eviction, and signed approvals |
| `Authorization`, `Mandates`, `Registry`, `Policies`, `Evidence` | capabilities, delegation, provisioning, policy, evidence lifecycle |
| `IdealFunctions` | an explicit hash, MAC and encoding that meet what the theorems assume of the real ones |
| `Governance` | the TLA+ model, for arbitrary constants and unbounded logs |

The theorems about outcomes name their conditions in plain terms -- who asks for what, under which capability, with which
policy -- and not through the functions that compute them, so they say what those functions must be.

Conventions. Objects whose methods update fields are classes; each method is proved against a function of the old
state, and the theorems are about runs of those functions. A run is a sequence of calls, and every call carries what
it meets outside the kernel: clock, registry, provenance answers, authentication, and whether the audit record could
be built and appended. Nothing restricts these, so the theorems hold under every combination of failures. SHA-256
and canonical encoding are functions assumed collision-free where a theorem says so; HMAC and Ed25519 are ideal in
the same way, and `IdealFunctions.AssumptionsCanBeMet` shows that functions like that exist. A float is a
sign and a dyadic fraction in lowest terms. Times are integers. Run lemmas are stated for any step function with the step property they need;
`KernelRuns.Mediates` is the mediator's.

## Where the code and its documentation differ

The model follows the code in each case.

- A grant is documented as consumed once redeemed, and rolled back only if recording that redemption fails
  (`axiomgate_kernel/grant.py:237`). Any later re-entry that carries the escalation's id and fails to be recorded also
  rolls it back. `KernelExecutions.ConsumedExactlyWhen` gives the exact condition; sequentially there is still at most one
  PERMIT, because the escalation is resolved.
- With concurrent re-entries the resolved status does not protect: one failed append of a refused call can let a
  second PERMIT through. `Concurrency.AtMostOneExactlyWhenNoStray` says exactly which failures matter, and
  `Concurrency.BoundIsReached` reaches every number of PERMITs.
- The grant is described as bound in twelve fields; eleven are compared, and eight when policy or provenance was the
  reason (`axiomgate_kernel/grant.py:181-210`).
- An existing log whose last line lacks only its newline is accepted rather than healed, and the next acknowledged
  append destroys both entries (`AuditRuns.LostNewlineLosesTwo`). Healing keeps as many physical lines as there were
  entries, which is wrong as soon as one of them is blank (`AuditRuns.HealedAgreesExactlyWhenNoBlank`).
- `verify_integrity` answers for a missing file before it looks at the anchor, and accepts half an anchor
  (`AuditTheorems.MissingFilePassesEveryExactAnchor`, `AuditTheorems.HalfAnchor`).
- A child mandate is documented as a subset of its parent's. Scope attenuates only when both mandates parse
  (`Mandates.AttenuationHoldsExactlyWhen`), and expiries are not compared, so a child outlives its parent exactly when
  it takes a mandate that ends later (`Mandates.ChildOutlivesParentExactlyWhen`, `Mandates.ExpiryAttenuatesExactlyWhen`).
- Replay protection rests on the clock not stepping back across the expiry of a remembered nonce, unless there is room
  for one nonce only (`Authentication.ReplayNeedsStepBack`, `Authentication.ReplayPossibleExactlyWhen`).
- The execution check answers VIOLATED on correct behaviour when a request has no id, or when two principals use the
  same one: `KernelExamples` holds a run for each, and `KernelObservations.ViolatedExactlyWhen` the exact condition.
- A write that raises after part of its line reached the disk leaves a log that no longer verifies until it is reopened
  (`AuditRuns.FailedWriteAgreesExactlyWhenNothingLanded`), although the failure is reported as a failed append only.

One remark on the TLA+ model, which promises different numbers for an enforcement and its execution and keeps that
promise: a number can still occur twice across the logs, since an observation right after an enforcement takes the
number last given out. `Governance.NumbersDistinctExactlyWhen` is the exact condition; the order that I4, I5 and I10
need holds all the same.

Some lemmas only pin one function's own answers -- rule names, the order of refusals, the fields of a frame -- so that no
theorem rests on an unchecked table. They are kept as remarks, with a row below only where they say more: those named `...Told`, `...Reasons`,
`...Tells` and `...Means`, and `AuditTheorems.MissingFilePassesEveryExactAnchor`, `AuditTheorems.HalfAnchor`,
`AuditFaults.BrokenReported`, `Approval.PassedIsSignedAndBound`, `Approval.UnboundNeverPasses`, `Approval.GenuineRefusals`,
`KernelRecords.AuthenticExactlyWhen`, `KernelRecords.PermitCarries`, `KernelObservations.NothingObserved`,
`Mandates.ChildIsNamedAfterParent`, `Mandates.UnlimitedChild`, `Registry.UsableTokenIsBound`,
`Registry.RefusedChangesNothing`, `JsonValues.TruthyExactlyWhen` and `Text.StripTakesBlanks`.

## Model

| member | source | states |
|---|---|---|
| `Mediation.Mediator.Gated` | axiomgate_kernel/mediator.py:138-182 | One gated call equals the specification `Kernel.Gated`, state and decision: early denials before an identity exists, then exactly one observation, then the operation, and a denial `<op>.error` if it raised |
| `Mediation.Mediator.DeniedEarly` | axiomgate_kernel/mediator.py:145-164 | The four denials before an identity exists (unavailable, not canonical, authenticator raised or refused), in that order; otherwise nothing changes |
| `Mediation.Mediator.Observe` | axiomgate_kernel/mediator.py:184-204 | The observation is appended even when recording it raises on an unhashable request id; the call then carries no number |
| `Mediation.Mediator.Finish` | axiomgate_kernel/mediator.py:768-871 | The decision and new state for every combination of verdict, failing record build, failing append and empty hash, including the rollback of the named grant |
| `Mediation.Mediator.EvaluateAuthenticated` | axiomgate_kernel/mediator.py:221-278 | Equals `Kernel.JudgeEvaluate` carried out and recorded; raises exactly when the drawn escalation id is taken |
| `Mediation.Mediator.EscalateFresh` | axiomgate_kernel/mediator.py:612-668 | Files record and grant and finishes once: the second parse of the request cannot fail, so nothing is recorded twice |
| `Mediation.Mediator.PermitIfProvenance` | axiomgate_kernel/mediator.py:670-723 | After an ALLOW: PERMIT on a match, DENY on a mismatch, a new escalation otherwise, with its own second provenance check |
| `Mediation.Mediator.ReenterAuthenticated` | axiomgate_kernel/mediator.py:280-418 | Equals `Kernel.JudgeReenter` carried out, recorded, and resolved after a PERMIT |
| `Mediation.Mediator.Redeem` | axiomgate_kernel/mediator.py:382-418 | Redemption refused or granted; a PERMIT that cannot be recorded is undone, and the escalation is resolved only after a recorded PERMIT |
| `Mediation.Mediator.LiveCheck` | axiomgate_kernel/mediator.py:318-351 | Which capability answers for a re-entry, and when the Owner's permit stands in for escalating again |
| `Mediation.Mediator.DecideAuthenticated` | axiomgate_kernel/mediator.py:420-456 | Only the Owner under an active R-DEC capability decides; record and grant take the decision together |
| `Mediation.Mediator.UpdatePolicyAuthenticated` | axiomgate_kernel/mediator.py:458-494 | Only the Owner under an active R-DEC capability installs a policy, and only one that serves |
| `Mediation.Mediator.CreateEvidenceAuthenticated` | axiomgate_kernel/mediator.py:496-510 | Evidence created in the caller's name; the decision is always a DENY |
| `Mediation.Mediator.VerifyEvidenceAuthenticated` | axiomgate_kernel/mediator.py:512-530 | Verification with the role of the caller's active capability; always a DENY |
| `Mediation.Mediator.AuthorizeEvidenceAuthenticated` | axiomgate_kernel/mediator.py:532-550 | Authorization with the role of the caller's active capability; always a DENY |
| `KernelRuns.OnePermitPerEscalation` | axiomgate_kernel/mediator.py:303-307 | In any sequential run with any failures, no two PERMITs name the same escalation |
| `KernelRuns.PermitsAreTheGrantedEntries` | axiomgate_kernel/mediator.py:768-871 | Returned PERMITs and `execution_granted` audit entries correspond one to one, in order, agreeing on principal, request, payload, escalation and rules; n calls append at most n entries |
| `KernelSteps.CallIsLogged` | axiomgate_kernel/mediator.py:725-822 | One call extends the audit log by at most one entry, which grants exactly when the call permits |
| `KernelSteps.DecisionParts` | axiomgate_kernel/mediator.py:768-871 | A call returns PERMIT exactly when its ruling permits and the record was built and appended with a non-empty hash; only a PERMIT carries a grant |
| `KernelSteps.CallAdvancesEscalations` | axiomgate_kernel/mediator.py:280-456 | No call moves an escalation record backwards or rewrites a decision |
| `KernelOrigin.AuthorityHasAnOrigin` | axiomgate_kernel/mediator.py:221-456 | Every PERMIT is covered live; one that names an escalation, and every PERMIT for COMMIT or HIGH to a non-owner, traces to one earlier `evaluate` by the same principal with the same content outside nonce, timestamp, MAC and escalation id, and to an Owner permit under active R-DEC between the two; no other call of the run filed or decided that escalation |
| `KernelOrigin.PermitExplained` | axiomgate_kernel/mediator.py:229-278 | What a PERMIT means when given: serving policy, matching provenance, a registered active capability (and mandate) that covers the request; without an escalation it is an `evaluate`, by the Owner or of neither COMMIT nor HIGH |
| `KernelOrigin.Roots` | axiomgate_kernel/mediator.py:612-668 | For every grant at any point of a run: the call that filed it, and, once it shows a permit, the Owner's call that decided it |
| `KernelOrigin.FiledAndDecidedOnce` | axiomgate_kernel/escalation.py:46-101 | In any run an escalation is filed by one call and decided by one call |
| `KernelOrigin.CallRedeemed` | axiomgate_kernel/grant.py:149-214 | A permitted re-entry found its grant unconsumed, unexpired, permitted by the Owner, and bound to its principal and payload |
| `KernelOrigin.SamePayload` | axiomgate_kernel/canonical_request.py:58-70 | Under a collision-free hash two requests with one payload hash agree on every field outside nonce, timestamp, mac and escalation_id, hence ask for the same thing |
| `Rulings.RulingsAreLawful` | axiomgate_kernel/mediator.py:221-550 | Every ruling of every call in every state: what it may change, who may cause it, and which verdict it may carry |
| `KernelExact.EvaluatePermitsExactlyWhen` | axiomgate_kernel/mediator.py:221-278 | `evaluate` permits if and only if some registered capability covers the request live, policy serves, provenance matches, the caller is the Owner or asks for neither COMMIT nor HIGH, and the PERMIT is on record |
| `KernelExact.BestAllowsExactlyWhenSomeDoes` | axiomgate_kernel/mediator.py:233-254 | The loop's choice allows exactly when some registered capability allows, in whatever order |
| `KernelExact.ReenterPermitsExactlyWhen` | axiomgate_kernel/mediator.py:280-418 | For grants of all four reasons: a call is permitted on an escalation if and only if it is a re-entry that carries its id, records, policy, provenance, live capability, mandate and bindings are ready, and the PERMIT is on record |
| `KernelExact.AnyCapabilityAnswers` | axiomgate_kernel/mediator.py:318-341 | For a policy or provenance grant that names no capability, the one the loop settles on is ready exactly when some registered one is |
| `KernelExact.ReservedNeedsMandatoryEscalation` | axiomgate_kernel/mediator.py:344-359 | A non-owner's COMMIT or HIGH is never permitted on an escalation made for policy or provenance |
| `KernelExact.ReservedRequestCompletes` | axiomgate_kernel/mediator.py:221-456 | The protocol completes: escalated, later permitted by the Owner, later presented again in time and unchanged, a reserved request is permitted, whatever calls in between keep the policy and do not name the escalation, and even when the ESCALATE or the decision could not be audited |
| `KernelOutcomes.EvaluateEscalatesExactlyWhen` | axiomgate_kernel/mediator.py:221-278 | `evaluate` files an escalation if and only if the request is authenticated and well formed, the drawn id is free, and the policy blocks, or a non-owner asks for COMMIT or HIGH under a capability in force, or the request is covered live while the provenance raises or is unavailable; record and grant are given field by field, with the reason class of each case; the answer is ESCALATE exactly then, if the audit record can be built; in every other case both stores are unchanged |
| `KernelOutcomes.FiledUnder` | axiomgate_kernel/mediator.py:233-254 | Which capability a new grant is bound to: the first active one for what needs the Owner, the covering one the loop stops at for the provenance |
| `KernelOutcomes.RefusedUnder` | axiomgate_kernel/mediator.py:233-254 | When `evaluate` neither covers nor asks, the check that refuses is that of the first active capability, else of the first registered one, else of none |
| `KernelOutcomes.ReenterEscalatesExactlyWhen` | axiomgate_kernel/mediator.py:280-418 | `reenter` escalates again if and only if it presents a decided, permitted record of its own with a well-formed request, and the policy blocks, or it is covered live while the provenance cannot be established; which id the answer names; and that unless the ruling was a PERMIT the records are unchanged, and the grants too but for a rollback |
| `KernelOutcomes.AnsweringCapability` | axiomgate_kernel/mediator.py:318-341 | Which capability answers for a re-entry: the one the grant names, or the first active one that covers the request |
| `KernelOutcomes.PermittedReentryRedeems` | axiomgate_kernel/mediator.py:382-418 | A permitted re-entry resolves its record, uses up its grant and adds one live execution record that the grant names; nothing else changes |
| `KernelOutcomes.DecisionTold` | axiomgate_kernel/mediator.py:792-871 | Verdict, rules and audit hash of the returned decision for every way in which recording can end |
| `KernelOwner.DecideTakesEffectExactlyWhen` | axiomgate_kernel/mediator.py:420-456 | A decision takes effect if and only if the Owner, under an R-DEC capability in force, says permit or deny on a pending escalation; record and grant then carry it, also when it could not be audited; otherwise nothing changes; the answer is always DENY |
| `KernelOwner.PolicyChangesExactlyWhen` | axiomgate_kernel/mediator.py:458-494 | The policy changes if and only if the Owner, under an R-DEC capability in force, proposes a named policy that serves, and becomes what the request describes; no other call changes it |
| `KernelOwner.EvidenceChangesExactlyWhen` | axiomgate_kernel/mediator.py:496-550 | The evidence journal after any call: one step in the caller's own name, for a named record and under a role in force, or nothing; the answer is always DENY |
| `KernelOwner.HoldsExactlyWhen` | axiomgate_kernel/mediator.py:561-570 | The selected capability is active exactly when the principal has an active one with the role at all |
| `KernelRecords.ReadExactlyWhen` | axiomgate_kernel/mediator.py:572-589 | A request is read as asking for an action, a domain and a risk if and only if its three fields spell them |
| `KernelRecords.EarlyDenial` | axiomgate_kernel/mediator.py:138-164 | A call without an identity is denied with the rule of the first thing missing, and changes nothing but the audit log |
| `KernelRecords.EntryDescribesCall` | axiomgate_kernel/mediator.py:725-766 | The audit entry of every call, field by field; none when the record cannot be built or appended |
| `KernelRecords.PermitQuotesItsMandate` | axiomgate_kernel/mediator.py:725-766 | With a required context, the entry of a PERMIT quotes the mandate and context that allowed it and a ceiling between the risk and the mandate's |
| `KernelExact.QuietCallLeavesAlone` | axiomgate_kernel/mediator.py:612-871 | A call whose decision does not name an escalation leaves its record and its grant untouched |
| `KernelExact.SignedRequestPermitsOnce` | axiomgate_kernel/authentication.py:179-221 | With the real authenticator, two PERMITs of one principal never carry the same MAC |
| `KernelExecutions.StrayFailureUnconsumes` | axiomgate_kernel/mediator.py:817-828 | A refused re-entry on a resolved escalation whose append fails sets the redeemed grant back and marks its execution record rolled back |
| `KernelExecutions.RunsStayCoupled` | axiomgate_kernel/grant.py:215-255 | With a log attached, at any point of any mediator run: records numbered 1..n, a grant consumed exactly when exactly one live record stands for it |
| `KernelExecutions.ConsumedExactlyWhen` | axiomgate_kernel/mediator.py:798-826 | A grant is consumed if and only if a PERMIT was returned on it and no later authenticated re-entry that carries the escalation's id could not be recorded |
| `KernelExecutions.LiveRecordsArePermits` | axiomgate_kernel/grant.py:220-235 | Every live execution record belongs to exactly one returned re-entry PERMIT, the only one ever given on that escalation |
| `KernelObservations.CheckerAgreesWithKernel` | axiomgate_kernel/observation.py:143-260 | After any run from empty logs, I1 is HOLDS, PARTIAL, VIOLATED or UNOBSERVABLE exactly according to which audited calls were identified, and I4 and I6 are HOLDS whenever one was |
| `KernelObservations.FittingLogsPass` | axiomgate_kernel/observation.py:175-250 | Logs kept by the mediator never show a dangling, unjudgeable, out-of-order or mismatched pair |
| `KernelObservations.LogsFit` | axiomgate_kernel/mediator.py:165-182 | At every point of a run each audit entry cites nothing or its own call's observation, by the same principal, with strictly increasing numbers, and cites exactly when the audited call was identified |
| `KernelObservations.ExecutionCheckAgrees` | axiomgate_kernel/execution.py:123-227 | With non-empty string request ids that no two principals share, the execution check never answers VIOLATED after any run, and HOLDS exactly when some record is live |
| `KernelObservations.ViolatedExactlyWhen` | axiomgate_kernel/execution.py:161-195 | After any run the check answers VIOLATED if and only if, for some live record, no observed call carries the request text of its filing call as a string id or the last one that does is by another principal; it raises if and only if some observed id is unhashable |
| `KernelExamples.UnnamedRequestReportsViolation` | axiomgate_kernel/execution.py:170-195 | A concrete run: a COMMIT request without id is escalated, permitted and correctly re-entered, and the check answers VIOLATED |
| `KernelExamples.SharedRequestIdReportsViolation` | axiomgate_kernel/execution.py:161-190 | A concrete run: after a correct re-entry another principal uses the same request id, and the check answers VIOLATED |
| `KernelStores.PolicyHasAnOrigin` | axiomgate_kernel/mediator.py:458-494 | The policy in force is the initial one or one the Owner installed under active R-DEC; a serving policy is never replaced by one that blocks |
| `KernelStores.EvidenceIsARun` | axiomgate_kernel/mediator.py:496-550 | The mediator's journal is always the journal of some run of evidence operations, each in its caller's own name |
| `KernelStores.EvidenceKeepsItsLifecycle` | axiomgate_kernel/mediator.py:496-550 | Through the mediator every evidence record keeps its lifecycle and its roles apart, whatever fails to be audited |
| `Grants.ReservedGrantStore.CreatePendingContext` | axiomgate_kernel/grant.py:80-126 | Adds one unconsumed, undecided grant for the escalation, expiring ttl from now |
| `Grants.ReservedGrantStore.AttachOwnerDecision` | axiomgate_kernel/grant.py:128-139 | Sets the decision of the escalation's grant and nothing else |
| `Grants.ReservedGrantStore.GetByEscalation` | axiomgate_kernel/grant.py:141-147 | The grant of the escalation, or None |
| `Grants.ReservedGrantStore.ConsumeIfValid` | axiomgate_kernel/grant.py:149-235 | Refused with the first reason that applies, changing nothing; else consumed, with one new execution record |
| `Grants.ReservedGrantStore.Unconsume` | axiomgate_kernel/grant.py:237-255 | Sets a consumed grant back and marks its record; otherwise nothing |
| `Grants.FirstMismatch` | axiomgate_kernel/grant.py:181-213 | A name is given exactly when one of the eleven bindings (eight for policy and provenance reasons) differs |
| `Grants.FirstMismatchTold` | axiomgate_kernel/grant.py:181-213 | The name given is that of the first binding in force that differs |
| `Grants.WhyNot` | axiomgate_kernel/grant.py:168-213 | A redemption is accepted exactly when the grant is unconsumed, permitted, unexpired and bound |
| `Grants.Tables.OneGrantChanges` | axiomgate_kernel/grant.py:65-78 | Changing what one grant id maps to changes exactly one escalation's cell: the three dictionaries stay one table |
| `Grants.ConsumedExactlyOneLive` | axiomgate_kernel/grant.py:215-255 | In a coupled store a grant is consumed exactly when a live record exists for it, and then exactly one |
| `Grants.RunsStayCoupled` | axiomgate_kernel/grant.py:80-255 | Any run of store operations that creates each escalation once keeps store and log coupled and records numbered 1..n |
| `Grants.HistoryIsNeverRewritten` | axiomgate_kernel/execution.py:81-104 | Along any run records keep place and content, and a rollback mark is never unset |
| `Grants.UndoTakesBack` | axiomgate_kernel/grant.py:237-255 | Undoing a redemption restores the cells exactly and leaves the attempt in the log, marked |
| `ExecutionLogs.ExecutionLog.Record` | axiomgate_kernel/execution.py:81-90 | Appends one record numbered from 1 |
| `ExecutionLogs.ExecutionLog.MarkRolledBack` | axiomgate_kernel/execution.py:92-104 | Marks the record with that number; refused exactly when there is none |
| `ExecutionLogs.ExecutionLog.ForRequest` | axiomgate_kernel/execution.py:106-115 | The most recent record of the request |
| `Concurrency.RedemptionsBalance` | axiomgate_kernel/grant.py:149-255 | In every interleaving of any number of calls, calls that redeemed minus calls that effectively rolled back is 1 exactly while the grant is consumed, else 0 |
| `Concurrency.PermitsBounded` | axiomgate_kernel/mediator.py:280-418 | In every interleaving one escalation yields at most one PERMIT more than the calls that failed to record something else and rolled its redemption back |
| `Concurrency.PermitsCounted` | axiomgate_kernel/grant.py:149-255 | In every interleaving: PERMITs plus redemptions spent without one equal the consumed flag plus the rollbacks of somebody else's redemption |
| `Concurrency.AtMostOnePermit` | axiomgate_kernel/mediator.py:382-418 | When no call fails to record anything but its own PERMIT, at most one call per escalation permits, however calls interleave |
| `Concurrency.AtMostOneExactlyWhenNoStray` | axiomgate_kernel/mediator.py:798-826 | For every set of calls that may fail to record a refusal, decision or escalation: at most one PERMIT per escalation is guaranteed if and only if the set is empty |
| `Concurrency.BoundIsReached` | axiomgate_kernel/mediator.py:817-828 | For every n an interleaving with n such rollbacks and n + 1 PERMITs on one escalation: with one failed append, two |
| `Concurrency.NoPermitAfterResolution` | axiomgate_kernel/mediator.py:290-307 | In every interleaving a call on an escalation that starts after its resolution never redeems and is never permitted |
| `Concurrency.RedemptionFollowsTheOwner` | axiomgate_kernel/mediator.py:440-450 | In every interleaving a call that redeemed a grant did so after the Owner's decision to permit, under a reserved grant that carries it; and all of that stands |
| `Escalations.EscalationStore.Create` | axiomgate_kernel/escalation.py:46-70 | Files a pending record; refused exactly when the id is taken |
| `Escalations.EscalationStore.MediatorDecide` | axiomgate_kernel/escalation.py:77-101 | Accepted exactly for permit or deny on a pending record |
| `Escalations.EscalationStore.MediatorResolve` | axiomgate_kernel/escalation.py:103-128 | Accepted exactly on a decided record |
| `Escalations.LifecycleOnlyAdvances` | axiomgate_kernel/escalation.py:36-128 | Through any run records keep id, request, principal, payload and reason, their status never goes back, and a decision once made stays |
| `Observations.ObservationLog.Record` | axiomgate_kernel/observation.py:102-120 | Appends first; yields no number exactly when indexing by request id raises |
| `Observations.CheckInvariants` | axiomgate_kernel/observation.py:143-260 | The three statuses of the report, and None exactly when a cited number is unhashable; I4 compared neighbour by neighbour means strict order among all citing entries |
| `Observations.AscendingIsIncreasing` | axiomgate_kernel/observation.py:215-232 | Comparing neighbours among the citing entries is comparing all of them |
| `Observations.StatusesExactlyWhen` | axiomgate_kernel/observation.py:175-250 | VIOLATED, PARTIAL, HOLDS and UNOBSERVABLE of I1, I4 and I6, each exactly when |
| `Observations.CitedExactlyWhen` | axiomgate_kernel/observation.py:175-200 | What an entry cites, by the value of its `observation_seq`: a record, nothing, something that dangles, or something that cannot be looked up |
| `Observations.EveryEntryCounted` | axiomgate_kernel/observation.py:175-200 | Observed, unobserved and dangling entries add up to all entries |
| `Observations.AllHoldExactlyWhen` | axiomgate_kernel/observation.py:253-260 | All three HOLD exactly when there are entries, all cite a record of the log, in strictly increasing order, with the same principal |
| `Observations.CheckExecutionInvariant` | axiomgate_kernel/execution.py:123-227 | Status and the three lists of record numbers; None exactly when a request id is unhashable |
| `Observations.ReportLists` | axiomgate_kernel/execution.py:165-227 | Which record numbers the three lists of the execution report hold |
| `Observations.ExecutionStatusExactlyWhen` | axiomgate_kernel/execution.py:165-227 | VIOLATED, HOLDS and PARTIAL, each exactly when |
| `AuditChain.AuditLog.Start` | axiomgate_kernel/audit.py:53-94 | Opening: recovered state or the reason for refusing; the anchor is checked on the healed file |
| `AuditChain.AuditLog.Replay` | axiomgate_kernel/audit.py:96-137 | A tail malformation keeps the first count physical lines; any other fault refuses and changes nothing |
| `AuditChain.AuditLog.VerifyLinksLoop` | axiomgate_kernel/audit.py:361-429 | The loop with running variables equals the recursive walk |
| `AuditChain.AuditLog.AppendRecord` | axiomgate_kernel/audit.py:139-172 | File, last hash and count after success, after a writer failure with any part of the line on disk, and after an unencodable record |
| `AuditChain.AuditLog.VerifyIntegrityOf` | axiomgate_kernel/audit.py:326-359 | Every answer of the exact check, the missing file first |
| `AuditChain.AuditLog.VerifyPrefixOf` | axiomgate_kernel/audit.py:237-324 | Every answer of the prefix check |
| `AuditContents.AppendWritesTheRecord` | axiomgate_kernel/audit.py:139-172 | A successful append adds one line, which decodes to the record as `Redaction.WrittenAs` describes it, besides position, previous hash, content hash and MAC; the returned hash is that of the content and is what the next entry names |
| `AuditContents.AppendedExactlyWhen` | axiomgate_kernel/audit.py:139-172 | An append is refused before anything is written if and only if the redacted record holds a value that canonical JSON refuses; else it succeeds exactly when the writer does |
| `AuditFaults.LinksExactlyWhen` | axiomgate_kernel/audit.py:385-429 | An entry links if and only if it names the previous hash and its position, its content is canonical, and it carries the content's hash and MAC |
| `AuditFaults.JudgedByFirstFault` | axiomgate_kernel/audit.py:361-429 | A file is judged by its first line that is neither blank nor a linking entry, at the position before it; a line that is no JSON counts as a torn tail exactly when only blanks follow |
| `AuditFaults.ExactAnswersTold` | axiomgate_kernel/audit.py:326-359 | Every answer of the exact check on an intact file, by the entries |
| `AuditFaults.PrefixAnswersTold` | axiomgate_kernel/audit.py:237-324 | Every answer of the prefix check on an intact file, by the entries |
| `AuditTheorems.AcceptedExactlyWhenLinked` | axiomgate_kernel/audit.py:361-429 | A file is accepted if and only if its non-blank lines are objects that link, without reference to running variables |
| `AuditTheorems.AcceptedExactlyGenuinePrefixes` | axiomgate_kernel/audit.py:361-429 | If only issued entries carry valid MACs, a file is accepted if and only if it decodes to a prefix of what the log issued |
| `AuditTheorems.HashFixesHistory` | axiomgate_kernel/audit.py:139-172 | Two linked chains that agree on one hash at one position agree on every entry before it |
| `AuditTheorems.AnchorBindsThePrefix` | axiomgate_kernel/audit.py:237-324 | A file accepted against the head of a valid chain starts with exactly that chain |
| `AuditTheorems.ExactIsPrefixPlusCount` | axiomgate_kernel/audit.py:326-359 | On an existing file the exact check accepts exactly when the prefix check does and the count is equal |
| `AuditRecovery.AppendVerifiesExactlyWhenCleanEnd` | axiomgate_kernel/audit.py:139-172 | After a successful append the log verifies if and only if the file ended in a newline (or blanks) before it |
| `AuditRuns.TornTailDropped` | axiomgate_kernel/audit.py:96-137 | Opening a log that ends in one torn line drops that line and nothing else |
| `AuditRuns.RunsKeepExactlyTheDurable` | axiomgate_kernel/audit.py:96-172 | Through any run of writes, writes that fail before or halfway, crashes with a torn tail and reopenings, where a write that failed halfway is followed by reopening, the log opens each time and holds exactly the durable entries, in file and in memory, and verifies |
| `AuditRuns.FailedWriteAgreesExactlyWhenNothingLanded` | axiomgate_kernel/audit.py:432-439 | After a write that raised, memory and file agree if and only if nothing of the line had reached the disk |
| `AuditRuns.AnchorSurvives` | axiomgate_kernel/audit.py:237-324 | An anchor once taken stays accepted through everything later |
| `AuditRuns.HealingIsIdempotentExactlyWhenNoBlank` | axiomgate_kernel/audit.py:108-131 | For any file: opening a healed log again changes nothing if and only if none of the kept lines is blank |
| `AuditRuns.HeadIsWhatVerifies` | axiomgate_kernel/audit.py:214-221 | When memory and file agree, what head() reports is what verifying the file recomputes, the prefix check accepts it, and no other whole anchor passes the exact check |
| `AuditRuns.LostNewlineLosesTwo` | axiomgate_kernel/audit.py:96-172 | A crash that loses only the newline is not healed: the next append is acknowledged, and reopening then drops both entries |
| `AuditRuns.HealedAgreesExactlyWhenNoBlank` | axiomgate_kernel/audit.py:108-131 | After healing any file, the log agrees with its own file if and only if none of the kept lines is blank |
| `AuditRuns.ForeignJsonStopsTheLog` | axiomgate_kernel/audit.py:385-397 | A line of JSON that is not an object makes verification raise and the log refuse to open |
| `AuditRuns.SecretsNeverReachTheLog` | axiomgate_kernel/audit.py:139-172 | Two runs whose records differ only under sensitive keys yield identical files, hashes, MACs, heads and outcomes |
| `IdealFunctions.AssumptionsCanBeMet` | axiomgate_kernel/canonical.py:9-29 | One explicit encoding meets everything assumed of SHA-256, HMAC, canonical_json and json.loads at once, so no theorem rests on an empty hypothesis |
| `IdealFunctions.EncUnique` | axiomgate_kernel/canonical.py:18-29 | That encoding is injective and self-delimiting |
| `Redaction.RedactValue` | axiomgate_kernel/redaction.py:109-137 | The recursion with its loops equals the recursive definition |
| `Redaction.RedactionHidesSecrets` | axiomgate_kernel/redaction.py:109-137 | Values that agree outside sensitive keys, at any depth, redact to the same value |
| `Redaction.RedactsExactly` | axiomgate_kernel/redaction.py:109-137 | What redaction makes of a value, declared without its recursion: None, booleans, numbers as they are, strings scrubbed, lists and tuples in order, one slot per scrubbed key that its last entry decides, the mask under a sensitive key; and that nothing else meets this |
| `Redaction.PreservedInTheOpen` | axiomgate_kernel/redaction.py:109-137 | Along every path that passes no sensitive key the record is written as it is, strings scrubbed |
| `Redaction.SensitiveExactlyWhen` | axiomgate_kernel/redaction.py:93-106 | A key is sensitive exactly when its normal form contains one of the eleven words |
| `Redaction.CaseMakesNoDifference` | axiomgate_kernel/redaction.py:98-106 | Capitals never change whether a key is sensitive |
| `Redaction.SensitiveInsideAnyName` | axiomgate_kernel/redaction.py:101-106 | A sensitive name stays sensitive inside any longer name |
| `Redaction.SeparatorsMakeNoDifference` | axiomgate_kernel/redaction.py:101-106 | Characters that normalise away never change whether a key is sensitive |
| `Authentication.NonceTracker.TryConsume` | axiomgate_kernel/authentication.py:46-99 | Accepted or refused, and the per-principal dictionaries after eviction |
| `Authentication.AcceptedExactlyWhen` | axiomgate_kernel/authentication.py:46-99 | A consume is accepted if and only if it is admissible, unknown among the live nonces and there is room after eviction |
| `Authentication.TripleAcceptedOnce` | axiomgate_kernel/authentication.py:46-99 | Under a forward clock a (principal, nonce, timestamp) is accepted at most once over any run, despite eviction |
| `Authentication.NonceReusedOnlyAfterExpiry` | axiomgate_kernel/authentication.py:68-99 | A nonce is accepted again only after its first timestamp expired |
| `Authentication.NeverOverCapacity` | axiomgate_kernel/authentication.py:80-99 | No principal's dictionary ever exceeds the capacity |
| `Authentication.ReplayNeedsStepBack` | axiomgate_kernel/authentication.py:56-99 | Whatever the clock does, a triple is accepted twice only if a call of the principal in between was made after its expiry while the second acceptance is inside the window: the clock stepped back across it |
| `Authentication.ClockStepBackReplays` | axiomgate_kernel/authentication.py:56-99 | With room for at least two nonces, any three readings that would allow a replay are realised by a run that replays |
| `Authentication.OneRoomNeverReplays` | axiomgate_kernel/authentication.py:80-99 | With room for one nonce no triple is accepted twice, whatever the clock does |
| `Authentication.ReplayPossibleExactlyWhen` | axiomgate_kernel/authentication.py:36-99 | For every capacity, exactly which readings of the clock let a triple be replayed |
| `Authentication.Authenticator.Check` | axiomgate_kernel/authentication.py:179-221 | Every outcome of authenticate and the tracker state it leaves |
| `Authentication.AuthenticatedExactlyWhen` | axiomgate_kernel/authentication.py:179-221 | A request is authenticated if and only if its MAC is that of its content under its principal's key, its nonce is new and has room, its timestamp is an instant at most ttl old and at most five seconds ahead, and its claim is its principal; and then as that principal |
| `Authentication.AuthenticatedThroughout` | axiomgate_kernel/authentication.py:179-221 | ... at every point of every run |
| `Authentication.ConsumeTakesEffect` | axiomgate_kernel/authentication.py:68-99 | An accepted nonce goes to the end of its principal's dictionary, from which only expired entries left, only at capacity; the others keep theirs |
| `Authentication.SignedRequestAcceptedOnce` | axiomgate_kernel/authentication.py:179-221 | Under an ideal HMAC and a forward clock one MAC is accepted for one principal at most once |
| `Approval.ApprovalVerifier.VerifyInternal` | axiomgate_kernel/approval.py:259-554 | Verdict and consumption state of verify and consume, after all envelope checks |
| `Approval.PassesExactlyWhen` | axiomgate_kernel/approval.py:270-487 | An envelope passes if and only if it says Ed25519, carries a 64-byte hex signature that verifies over its payload's bytes, binds everything the caller expects, was made at an instant in the window, and names a nonce; and then as its escalation, nonce and instant |
| `Approval.ValidExactlyWhen` | axiomgate_kernel/approval.py:259-554 | A call is valid if and only if the envelope is genuine, neither escalation nor nonce is spent, and, when consuming, the audit sink does not fail; only a valid consumption spends the escalation |
| `Approval.ApprovesExactlyWhen` | axiomgate_kernel/approval.py:324-333 | The decision counts as APPROVE in any case of its letters and not otherwise |
| `ApprovalSigning.SignedPassesExactlyWhen` | axiomgate_kernel/approval.py:135-172 | Round trip: an envelope the signer writes passes its verifier if and only if the approval says yes, in the Owner's name, to what the caller expects, in its window, with a nonce |
| `Approval.EvictStopsAtLive` | axiomgate_kernel/approval.py:501-519 | Eviction of consumed nonces stops only at one that is still in its window |
| `Approval.EscalationConsumedOnce` | axiomgate_kernel/approval.py:489-546 | Net of audit failures an escalation id is consumed at most once, and no envelope naming it is valid again |
| `Approval.NonceReusedOnlyOutOfWindow` | axiomgate_kernel/approval.py:501-519 | A consumed nonce is honoured again only for another escalation and out of its own window |
| `Approval.EnvelopeAcceptedOnce` | axiomgate_kernel/approval.py:489-546 | A consumed envelope is never valid again, after eviction, for any expectation, at any later time |
| `Approval.AuditFailureRollsBack` | axiomgate_kernel/approval.py:523-546 | A failed audit restores the consumed escalations exactly and the nonces up to expired ones |
| `Approval.JudgedAlike` | axiomgate_kernel/approval.py:489-546 | The next call is judged as if the failed one had not happened if and only if it does not reuse, for an unconsumed escalation, a nonce the failed call evicted |
| `Approval.RetryAccepted` | axiomgate_kernel/approval.py:523-546 | The retry of the very envelope whose audit failed is accepted while in its window |
| `Approval.StillInWindowStillPasses` | axiomgate_kernel/approval.py:444-458 | A passing envelope screened later passes exactly while in its window |
| `Governance.BoundaryHoldsAlways` | formal/GovernanceInvariantsV6.tla:5-85 | I1 to I10 and the derived safety properties hold in every state of every behaviour, for arbitrary disjoint non-empty constants and unbounded logs |
| `Governance.StepKeeps` | formal/GovernanceTransitionsV6.tla:4-66 | Each of the five actions keeps the inductive invariant |
| `Governance.InitEstablishes` | formal/GovernanceMCV6.tla:4-17 | The initial predicate establishes it |
| `Governance.ExecutionsFollowTheChain` | formal/GovernanceTransitionsV6.tla:26-59 | One observation and one allowed enforcement of the very same request strictly precede each execution, and each log is strictly ordered |
| `Governance.LogsGrowPoliciesFreeze` | formal/GovernanceInvariantsV6.tla:17-20 | Logs only grow, and after bootstrap no policy, intent or trust status changes |
| `Governance.NumbersDistinctExactlyWhen` | formal/GovernanceTransitionsV6.tla:26-59 | In every behaviour all numbers of the three logs are pairwise distinct if and only if no observation is the next logging step after an enforcement |
| `Governance.StepNumbers` | formal/GovernanceTransitionsV6.tla:26-59 | The counter is already taken exactly after an enforcement, and one step keeps the numbers distinct exactly unless it observes right after one |
| `Governance.SequenceNumbersCollide` | formal/GovernanceTransitionsV6.tla:26-59 | Reachable for every choice of constants: an observation with the number of the enforcement before it |
| `Governance.EnforcementDecides` | formal/GovernanceTransitionsV6.tla:33-59 | Enforcement allows exactly what the authority's policy and resources both contain, and executes exactly that |
| `Governance.AllowedRequestExecutes` | formal/GovernanceTransitionsV6.tla:4-59 | For every choice of constants a request that the charter allows is executed in some behaviour |
| `Mandates.ChainAttenuates` | axiomgate_kernel/principal_context.py:111-153 | Along a delegation chain of any length whose requests are absent or parse, every descendant's actions and ceiling lie within every ancestor's |
| `Mandates.AttenuationHoldsExactlyWhen` | axiomgate_kernel/principal_context.py:136-142 | A set of requests always attenuates, for every chain, if and only if each of them is absent or parses |
| `Mandates.UnparseableRequestEscapes` | axiomgate_kernel/principal_context.py:136-142 | After one unparseable request a grandchild gets `full`, beyond the root |
| `Mandates.ChildOutlivesParentExactlyWhen` | axiomgate_kernel/principal_context.py:131-153 | A child allows something after its parent has expired if and only if it took a request within the parent's scope, while the parent was valid, whose own expiry is later or missing |
| `Mandates.ChainOutlivesExactlyWhen` | axiomgate_kernel/principal_context.py:111-153 | Some descendant outlives a given ancestor if and only if some link below it took a mandate that ends later than the ancestor's |
| `Mandates.ExpiryAttenuatesExactlyWhen` | axiomgate_kernel/principal_context.py:264-271 | Along a chain of any length no descendant outlives any ancestor if and only if no link took a mandate that ends later than its parent's |
| `Mandates.BareScopeOutlives` | axiomgate_kernel/principal_context.py:264-271 | Every valid parent that ends at all is outlived by a child that asks for its bare scope |
| `Mandates.TailNeverIgnored` | axiomgate_kernel/principal_context.py:284-340 | A mandate text with a tail parses only if the tail does |
| `Mandates.ParsesExactlyWhen` | axiomgate_kernel/principal_context.py:284-340 | The language of mandates: which texts denote one, and which scope, expiry and parent each denotes |
| `Mandates.ScopesAllow` | axiomgate_kernel/principal_context.py:203-221 | What the mandate of each of the six scopes allows, action by action and risk by risk |
| `Mandates.DelegationFormReadsBack` | axiomgate_kernel/principal_context.py:284-340 | The written delegation form reads back to the mandate it denotes |
| `Authorization.AllowExactlyWhen` | axiomgate_kernel/authorization.py:91-271 | ALLOW if and only if an Owner-issued, unrevoked, unexpired capability of the principal has the action, the domain and the risk, the Owner's permit stands in for a non-owner's COMMIT or HIGH, and a required context carries a mandate that covers the request |
| `Authorization.OwnerMandatoryExactlyWhen` | axiomgate_kernel/authorization.py:156-174 | OWNER_MANDATORY if and only if a non-owner asks for COMMIT or HIGH under such a capability, scope aside, and nothing stands in |
| `Authorization.NoOwnerNoCommitNoHigh` | axiomgate_kernel/authorization.py:156-174 | No check allows a non-owner COMMIT or HIGH on its own |
| `Authorization.AllowRespectsBothCeilings` | axiomgate_kernel/authorization.py:81-83 | An allowed request stays under both ceilings, and the effective ceiling is their minimum |
| `Authorization.ContextOnlyRefuses` | axiomgate_kernel/authorization.py:196-262 | Requiring a context only turns decisions into DENY |
| `Authorization.ClockOnlyShrinks` | axiomgate_kernel/authorization.py:91-271 | Nothing becomes allowed because time passes |
| `Authorization.EvaluateLoop` | axiomgate_kernel/mediator.py:239-254 | The loop returns the strongest decision over all candidates, at the index its choice function names |
| `Authorization.ReenterLoop` | axiomgate_kernel/mediator.py:330-341 | The re-entry loop returns the strongest decision, possibly for another capability |
| `Authorization.BothChoicesStrongest` | axiomgate_kernel/mediator.py:239-254 | Both loops settle on the same, maximal decision |
| `Authorization.OrderIrrelevant` | axiomgate_kernel/mediator.py:330-341 | Neither decision depends on order or repetition |
| `Registry.CapabilityRegistry.RegisterCapability` | axiomgate_kernel/capability.py:156-165 | Error and new state, including the binding of the token by a call that then fails |
| `Registry.CapabilityRegistry.SealRegistry` | axiomgate_kernel/capability.py:167-172 | Seals and consumes the token, or the token error |
| `Registry.CapabilityRegistry.RevokeCapability` | axiomgate_kernel/capability.py:174-196 | Marks exactly one capability revoked, or the error |
| `Registry.AcceptedExactlyWhen` | axiomgate_kernel/provisioning.py:40-64 | Which calls are accepted: an unconsumed, bound or first token on an open registry, with a valid capability, or a registered id |
| `Registry.RegisterTakesEffect` | axiomgate_kernel/capability.py:156-165 | An accepted registration makes the id find exactly this capability, and every other id what it found before |
| `Registry.RevokeTakesEffect` | axiomgate_kernel/capability.py:174-196 | An accepted revocation sets the time on the capability and nothing else, leaves every other one alone, and nothing is ever allowed under it |
| `Registry.RevocationLasts` | axiomgate_kernel/capability.py:174-196 | Through any run a revoked capability stays revoked until its id is registered again |
| `Registry.SealTakesEffect` | axiomgate_kernel/capability.py:167-172 | An accepted seal keeps the capabilities and refuses every later call, with any token |
| `Registry.SealedIsFrozen` | axiomgate_kernel/capability.py:156-196 | After seal no call with any token changes the registry |
| `Registry.SealedAuthorityOnlyShrinks` | axiomgate_kernel/capability.py:156-213 | From sealing on, what is authorised only shrinks as the clock advances |
| `Registry.RegistryStaysSound` | axiomgate_kernel/capability.py:77-103 | The registry holds only structurally valid capabilities, one per id, whatever calls built it |
| `Registry.OnlyTheBoundTokenActs` | axiomgate_kernel/provisioning.py:40-64 | Once a token is bound, calls with any other token change nothing |
| `Registry.LookupsComeFromTheRegistry` | axiomgate_kernel/capability.py:204-213 | Lookups return exactly the registered capabilities of the principal (active ones, for active_for) |
| `Evidence.EvidenceJournal.CreateCandidate` | axiomgate_kernel/evidence.py:105-118 | Journal after, and the refusal exactly when it applies |
| `Evidence.EvidenceJournal.BindDigest` | axiomgate_kernel/evidence.py:120-156 | A digest is bound at most once, to a candidate |
| `Evidence.EvidenceJournal.VerifyEvidence` | axiomgate_kernel/evidence.py:158-211 | Verification by an R-IV principal other than the producer |
| `Evidence.EvidenceJournal.AuthorizeEvidence` | axiomgate_kernel/evidence.py:213-272 | Authorization of verified evidence by the Owner under R-DEC |
| `Evidence.EvidenceJournal.GetRecord` | axiomgate_kernel/evidence.py:99-103 | The current record of the id, or None |
| `Evidence.VerifyTakesEffect` | axiomgate_kernel/evidence.py:158-211 | Exactly when a verification is accepted, and event and record for a true and for a false result |
| `Evidence.AuthorizeTakesEffect` | axiomgate_kernel/evidence.py:213-272 | Exactly when an authorization is accepted, and event and record for a true and for a false result |
| `Evidence.EventsRebuildRecords` | axiomgate_kernel/evidence.py:105-272 | In every reachable journal, folding the events rebuilds every current record except its content |
| `Evidence.LifecyclesAlways` | axiomgate_kernel/evidence.py:105-272 | Each id's events follow create, (at most one digest_bound, any verification_failed), verified, authorization_failed*, authorized; the producer is neither verifier nor authorizer |
| `Evidence.NoRetraction` | axiomgate_kernel/evidence.py:105-272 | Stages never fall, a digest never changes once set, past events are never rewritten |
| `Policies.FreshPolicyServes` | axiomgate_kernel/policy.py:38-43 | A policy made from any finite body serves unless its digest is all zeros |
| `Policies.ServesExactlyWhen` | axiomgate_kernel/policy.py:63-80 | A policy serves if and only if it is readable, its body canonical, its hash that of the body, and the digest not all zeros |
| `Policies.ServingPolicyIsBound` | axiomgate_kernel/policy.py:63-80 | Two serving policies with one hash have one body |
| `Grants.BindsExactlyWhenNothingDiffers` | axiomgate_kernel/grant.py:181-213 | A grant binds exactly when no binding in force differs |
| `AuditFaults.StartAcceptsExactlyWhen` | axiomgate_kernel/audit.py:80-94 | An anchored start accepts an intact file exactly with the hash of one of its entries, by position, or with the empty anchor |
| `JsonValues.FloatEqualsIntExactlyWhen` | axiomgate_kernel/audit.py:403-409 | A stored float position equals an integer exactly when they agree once the fraction is cleared |
| `Mandates.AllowsUntil` | axiomgate_kernel/principal_context.py:248-281 | A mandate is good for its last instant, its actions and risks up to its ceiling, and for nothing else |
| `Evidence.CreateTakesEffect` | axiomgate_kernel/evidence.py:105-118 | Exactly when a candidate is created, and the event and record it leaves |
| `Evidence.BindTakesEffect` | axiomgate_kernel/evidence.py:120-156 | Exactly when a digest is bound, and what that changes |

## Left out

- KernelObservations.CheckerAgreesWithKernel: the audit entries are read back with the two fields the checker uses, taking redaction to leave principal ids as they are.
- KernelObservations.ExecutionCheckAgrees: needs request ids that are non-empty strings and not shared between principals; `KernelObservations.ViolatedExactlyWhen` covers all other runs.
- KernelOrigin.AuthorityHasAnOrigin: does not say which capability was active when the request was escalated, since the registry may change between calls.
- KernelExact.ReservedRequestCompletes: is about grants for a mandatory action or risk; `KernelExact.ReenterPermitsExactlyWhen` covers every reason, one call at a time.
- Concurrency.RedemptionsBalance: the capability, policy and provenance checks of a call are one step that may refuse at any time; their content is modelled in `Kernel`.
- Mediation.Mediator.Gated: requires a grant id that is not in use, as a UUID is; a clash of escalation ids is modelled.
- Mediation.Mediator.Finish: the free-text reason and the timestamp of decisions and audit entries are not modelled.
- Observations.ObservationLog.Record: the index behind `for_request` is modelled only where building it raises; timestamps are not modelled.
- Observations.CheckInvariants: the sorted list of rules of unobserved enforcements is not modelled.
- AuditChain.AuditLog.VerifyLinksLoop: the line index inside a message is not modelled, and newlines are taken as already translated.
- AuditRuns.RunsKeepExactlyTheDurable: a log that goes on writing after a write failed halfway, without being reopened, is not among the runs; `AuditRuns.FailedWriteAgreesExactlyWhenNothingLanded` says that it no longer verifies.
- Redaction.RedactValue: `redact_secrets` is one abstract string function, and dictionary keys are strings.
- Authentication.ReplayPossibleExactlyWhen: takes the timestamp reader to read every instant, as ISO 8601 can write them.
- Approval.ApprovalVerifier.VerifyInternal: the three error classes are one rule name each; the `verify` and `consume` wrappers that turn them into exceptions are not modelled.
- Each call reads the clock once; the source reads it separately for capability activity and grant expiry.
- The injected authenticator may answer anything; that it may return a principal that is not a `Principal` is not modelled, nor is an execution or observation log other than the kernel's own.
- Enforcement of `set_policy` and `seal_policy` tokens, `set_available` as an operation, and the principal key store: availability, keys and initial policy are inputs.
- Key files, environment and defaults of `config.py`, the SQLite store of `persistence.py`, evidence serialization, and the Git subprocess behind provenance: input and output.
- `client.py`, `strict.py`, the examples and scripts, and `append_approval_event`: thin layers over what is modelled.
- The in-memory context variable behind `PrincipalContext`: the bound context is an input of each call.
- `propagate_for_cron` and `is_mandate_valid`: they build or test one context without delegating.
