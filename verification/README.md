# Rusternetes: admission, policy cost, quota, discovery, ABAC and watch

A Dafny model of the protocols in rusternetes that carry state or order, with
proofs of what they keep.

* **Mutating webhooks** (`Reinvocation`, `MutatingDispatch`, `MutatingWebhooks`,
  `MutatingUids`, `MutatingRuns`, `MutatingVerdicts`). One pass calls the configured webhooks in order,
  each of which may patch the object; a change makes every `IfNeeded` webhook
  called before it due again, and the second pass calls only due ones. A ghost
  history of calls and outside edits gives the meaning of the stored sets. The
  functions in `MutatingDispatch` are the specification, the methods in
  `MutatingWebhooks` are the loops, and `MutatingRuns` has the theorems over whole runs.
  `MutatingVerdicts` tells what a pass answers from the outside alone.
  A webhook call is an arbitrary reply, a patch operation (RFC 6902, section 4) an
  arbitrary partial function, and the two passes may meet different worlds.
* **Validating webhooks** (`ValidatingDispatch`). Queued calls become tasks that end
  in any order; their results are joined and folded in configuration order.
* **CEL cost** (`VariableCosts`, `CelBudget`, `Ledger`, `MatchConditions`). Variables
  are charged lazily, by a worklist over a reference graph that may be cyclic, with
  saturating `i64` totals. `Ledger` is the general theory of items charged against
  a budget in a state that the charges change. An expression's value and cost
  are arbitrary functions of its text.
* **Quota lock and LimitRange** (`QuotaLock`, `LimitRanges`). The lock table is a
  state machine whose steps are the critical sections of the source, proved to
  refine one permanent mutex per namespace. LimitRange application is the nested loop
  over containers, ranges and items, followed by the pod sums.
* **APIService discovery** (`Aggregator`, `KubeVersion`, `StableSort`, `Grouping`).
* **ABAC** (`Abac`): deciding requests against listing a user's rules.
* **Console watch** (`WatchStream`, `WatchCache`) and the **CEL oracle's type syntax**
  (`CelTypes`, with `Text` for white space).

`Prelude` holds the option and result types. `dafny verify dfyconfig.toml` checks
the project.

Where the source's words and its code differ, the model follows the code:

* `crates/admission-webhook/src/webhook_match.rs:11` says the first false condition
  stops the evaluation; the code evaluates every condition first, so a later
  condition can still exhaust the budget (`MatchConditions.EvaluateConditions`).
* `crates/admission-webhook/src/lib.rs:82` says a denial wins when responses are
  merged; a denied first response is lost against patches. The driver's guard never
  lets that happen (`MutatingRuns.MergeKeepsDenial`, `MutatingRuns.DenialDecides`).

Some laws hold only under a condition. Beside each there is a counterexample and,
in the lemma named second, the exact condition:
UIDs are distinct unless a configuration name starts with another and a slash
(`MutatingUids.SlashesCollide`, `MutatingUids.NamesDecide`); the patches replay to the
object unless custom-resource defaulting rewrites it
(`MutatingRuns.DefaultingBreaksReplay`, `MutatingRuns.StepsReplay`); charged variables
stay closed under references unless a record comes too late
(`VariableCosts.LateRecordBreaksClosure`, `VariableCosts.RecordKeepsClosure`); a LimitRange
item does not see later defaults (`LimitRanges.LaterDefaultsEscape`,
`LimitRanges.AcceptedExactly`); an ABAC allowance that names no resource may be
unlisted (`Abac.UnlistedAllowance`, `Abac.ListingDecides`), and so may a namespaced
path (`Abac.NamespacedPathUnlisted`, `Abac.PathListing`); absent uids collide in
the console cache (`WatchCache.AbsentUidsCollide`, `WatchCache.EventMeansExactly`).

Lemmas that Dafny would try to prove by induction on its own carry
`{:induction false}`: every inductive proof is written out.

## Model

| member | source | states |
|---|---|---|
| Reinvocation.WebhookReinvokeContext.constructor | crates/admission-webhook/src/lib.rs:41-50 | a new context is empty and summarises the empty history |
| Reinvocation.WebhookReinvokeContext.ShouldReinvokeWebhook | crates/admission-webhook/src/lib.rs:54-56 | a webhook is due exactly when a booked `IfNeeded` call of it was followed by a strictly later change or outside edit |
| Reinvocation.WebhookReinvokeContext.IsOutputChangedSinceLastWebhookInvocation | crates/admission-webhook/src/lib.rs:58-62 | true exactly when the object differs from the last output, an absent object equalling only an absent one |
| Reinvocation.WebhookReinvokeContext.SetLastWebhookInvocationOutput | crates/admission-webhook/src/lib.rs:64-67 | only the last output changes |
| Reinvocation.WebhookReinvokeContext.AddReinvocableWebhookToPreviouslyInvoked | crates/admission-webhook/src/lib.rs:69-72 | the invoked set gains the webhook, the rest stays |
| Reinvocation.WebhookReinvokeContext.RequireReinvokingPreviouslyInvokedPlugins | crates/admission-webhook/src/lib.rs:74-79 | everything invoked moves to the due set, the invoked set starts over |
| Reinvocation.Partition | crates/admission-webhook/src/lib.rs:41-80 | for every history, due and not-yet-due webhooks together are exactly the booked `IfNeeded` ones |
| Reinvocation.AfterSummarises | crates/admission-webhook/src/lib.rs:2177-2190 | every event keeps the two sets an exact summary of the history and never shrinks the due set |
| MutatingWebhooks.ApplyPatches | crates/admission-webhook/src/lib.rs:2109-2115 | the operations are applied in order, the first failure ends it |
| MutatingWebhooks.Bookkeep | crates/admission-webhook/src/lib.rs:2177-2190 | a change makes the earlier calls due before this webhook is remembered, so its own change never makes it due |
| MutatingWebhooks.RunWebhook | crates/admission-webhook/src/lib.rs:1852-2190 | one iteration of the inner loop does the specified step: gate, due check, dry run, reply, patches, defaulting, bookkeeping |
| MutatingWebhooks.RunConfig | crates/admission-webhook/src/lib.rs:1660-2193 | the loop over one configuration's webhooks is the run of its hooks, or the halt it meets |
| MutatingWebhooks.DispatchMutatingWebhooks | crates/admission-webhook/src/lib.rs:1628-2213 | the dispatcher's answer, context and history are those of stepping through all hooks in order |
| MutatingWebhooks.RunMutatingWebhooksPass | crates/admission-webhook/src/lib.rs:1574-1625 | a pass first turns an outside edit into due webhooks, and remembers its output only when it did not err |
| MutatingUids.UidInjective | crates/admission-webhook/src/lib.rs:1663-1671 | a UID determines configuration, webhook and number when the configuration names are equal or neither starts with the other and a slash |
| MutatingUids.SlashesCollide | crates/admission-webhook/src/lib.rs:1670-1671 | two different configuration names can share a UID exactly when one starts with the other and a slash |
| MutatingUids.CountGrows | crates/admission-webhook/src/lib.rs:1666-1669 | repeated webhook names of one configuration get strictly increasing numbers |
| MutatingUids.UidsDistinct | crates/admission-webhook/src/lib.rs:1660-1671 | all webhooks of configurations whose names are apart have different UIDs, repeated webhook names included |
| MutatingUids.NamesDecide | crates/admission-webhook/src/lib.rs:1660-1671 | the configuration names keep all UIDs different, whatever webhooks they have, exactly when any two are apart |
| MutatingRuns.StepsGrow | crates/admission-webhook/src/lib.rs:1852-2190 | whatever the replies, a stretch of hooks only extends the history, keeps the context its summary, calls each hook at most once, and in a reinvocation calls only what was due |
| MutatingRuns.RunSummary | crates/admission-webhook/src/lib.rs:41-80 | over every run of passes with arbitrary edits between them, invoked and due sets are the history's, together all booked `IfNeeded` webhooks, and the due set never shrinks |
| MutatingRuns.FirstPassDue | crates/admission-webhook/src/lib.rs:2164-2190 | after a first pass a webhook is due exactly when a booked `IfNeeded` call of it was followed by a strictly later call that changed the object |
| MutatingRuns.EditMakesDue | crates/admission-webhook/src/lib.rs:1588-1592 | an edit made outside the webhooks makes every booked `IfNeeded` webhook due in the next reinvocation |
| MutatingRuns.RunMutatingWebhooksWithDryrun | crates/admission-webhook/src/lib.rs:1526-1564 | the driver returns the specified result of its one or two passes |
| MutatingRuns.DriveHistory | crates/admission-webhook/src/lib.rs:1538-1563 | the driver sees calls only, and every second-pass call was due when made |
| MutatingRuns.SecondPassRuns | crates/admission-webhook/src/lib.rs:1554-1556 | a second pass runs exactly when the first succeeded undenied and one of its calls changed the object |
| MutatingRuns.SecondPassRepeats | crates/admission-webhook/src/lib.rs:1852-1856 | every second-pass call repeats a booked `IfNeeded` call of the first pass |
| MutatingRuns.AtMostTwice | crates/admission-webhook/src/lib.rs:1538-1563 | each UID is called at most once by the first pass and at most twice in all |
| MutatingRuns.ApplyOpsConcat | crates/admission-webhook/src/lib.rs:2109-2115 | applying concatenated patch lists is applying one after the other |
| MutatingRuns.FinishedReplays | crates/admission-webhook/src/lib.rs:2109-2175 | one successful call keeps the replay exactly when it brought no patch or defaulting leaves the patched object alone |
| MutatingRuns.StepsReplay | crates/admission-webhook/src/lib.rs:2109-2175 | the collected patches turn the input into the current object at every point of a pass exactly when no call's defaulting rewrites the patched object; then they do so at its end |
| MutatingRuns.StepsUnpatched | crates/admission-webhook/src/lib.rs:2164-2175 | a pass that collected no patch left the object alone, in every API group |
| MutatingRuns.ReplayGivesReturned | crates/admission-webhook/src/lib.rs:1526-1564 | for an undenied answer of a run no call of which rewrites the object, as for every core object, replaying both passes' patches on the input gives exactly the returned object; a plain Allow returns the input in every run |
| MutatingRuns.DefaultingBreaksReplay | crates/admission-webhook/src/lib.rs:1526-1564 | a driver run on a custom resource whose defaults rewrite the patched object: the returned object differs from the replay of the answer |
| MutatingRuns.DenialDecides | crates/admission-webhook/src/lib.rs:1554-1563 | the answer is a denial exactly when a pass that ran denied, with that reason |
| MutatingRuns.MergeKeepsDenial | crates/admission-webhook/src/lib.rs:82-92 | merging keeps a denial exactly when it is not a denied first response meeting patches |
| MutatingVerdicts.StepTells | crates/admission-webhook/src/lib.rs:1852-2190 | from gates, replies, policies and history alone: a webhook either stops the pass with one verdict (forbidden, dry run, denial, failure that does not fail open, request over, patch that does not apply) or lets it go on to one next moment; the two exclude each other |
| MutatingVerdicts.PassVerdict | crates/admission-webhook/src/lib.rs:1574-2213 | a pass that is neither exempt nor unlisted denies, or errs, exactly as the first webhook that stops it says, and allows with the patches collected exactly when every webhook lets it go on |
| MutatingVerdicts.DriverDenies | crates/admission-webhook/src/lib.rs:1526-1564 | the driver denies exactly when a webhook of the first pass does, or the second pass runs and one of its webhooks does |
| ValidatingDispatch.Collect | crates/admission-webhook/src/lib.rs:1428-1488 | the fold allows exactly when every call allowed, or failed or panicked under Ignore; else the first offender in configuration order decides: a denial exactly for an answer, with status message, else status reason, else the name; the call's error exactly for a failed call; an internal error exactly for a panic |
| ValidatingDispatch.RunTasks | crates/admission-webhook/src/lib.rs:1372-1429 | the tasks run step by step, single observations interleaved, to the specified state |
| ValidatingDispatch.ValidateQueued | crates/admission-webhook/src/lib.rs:1358-1489 | for every interleaving of the tasks' observations the verdict, given its meaning as for the fold, and the fail-open metrics of panics met before it depend on the results alone, and each task reports exactly its own metrics in order |
| ValidatingDispatch.Reported | crates/admission-webhook/src/lib.rs:1396-1418 | at every point of every interleaving each task has reported, in order, what its steps so far call for |
| ValidatingDispatch.ObservedOnce | crates/admission-webhook/src/lib.rs:146-198 | each task that did not panic is counted once, even after a denial, and a panicking one never |
| ValidatingDispatch.ObserveMeans | crates/admission-webhook/src/lib.rs:146-198 | which metrics a task reports: the call with verdict and code, a rejection for a denial or a failure neither ignored nor cancelled, a fail-open for an ignored failure |
| ValidatingDispatch.LetThroughMeans | crates/admission-webhook/src/lib.rs:259-271 | one fail-open metric for each panicking task before the verdict, in order |
| ValidatingDispatch.MetricsExactly | crates/admission-webhook/src/lib.rs:146-198 | the metrics of a request are those of its tasks, no more and no fewer |
| ValidatingDispatch.MetricsTellVerdict | crates/admission-webhook/src/lib.rs:146-271 | nothing offends exactly when no call was counted as rejected and every panic was under Ignore |
| VariableCosts.NoOverlap | crates/admission-webhook/src/cel_evaluators.rs:372-384 | the reference prefix never overlaps itself |
| VariableCosts.ReferencedVariables | crates/admission-webhook/src/cel_evaluators.rs:372-384 | the scan finds the names after every occurrence of the prefix, none missed |
| VariableCosts.VariableCosts.constructor | crates/admission-webhook/src/cel_evaluators.rs:366-370 | nothing recorded, nothing charged |
| VariableCosts.VariableCosts.Record | crates/admission-webhook/src/cel_evaluators.rs:388-391 | the variable is recorded with its cost and the names it refers to, nothing else changes |
| VariableCosts.VariableCosts.CompositionCost | crates/admission-webhook/src/cel_evaluators.rs:395-410 | on any reference graph, cycles included, it ends, charges exactly the reachable uncharged recorded variables, and returns min(i64::MAX, their total) |
| VariableCosts.FreshIsReach | crates/admission-webhook/src/cel_evaluators.rs:395-410 | with a closed charged set, what is charged is what is reachable and uncharged, and the set stays closed |
| VariableCosts.CompositionIsUnion | crates/admission-webhook/src/cel_evaluators.rs:386-410 | the compositions of any expressions add up to the cost of the union of their reachable variables, each once |
| VariableCosts.CompositionOrderFree | crates/admission-webhook/src/cel_evaluators.rs:386-410 | the total and the charged set are the same for every order of the expressions |
| VariableCosts.RecordKeepsClosure | crates/admission-webhook/src/cel_evaluators.rs:386-410 | a record keeps the charged set closed exactly when, charged itself, it refers to charged variables only or, uncharged, no charged one refers to it |
| VariableCosts.LateRecordBreaksClosure | crates/admission-webhook/src/cel_evaluators.rs:386-410 | a run that records b, charges it, and only then records a, which b refers to: charging b again pays for b alone, though it reaches both |
| CelBudget.SaturationHarmless | crates/common/src/cel_cost.rs:740-763 | a saturated composition is charged or refused exactly as the true one, below i64::MAX |
| CelBudget.EvaluateCharged | crates/admission-webhook/src/cel_evaluators.rs:413-433 | one evaluation is charged its variables and its cost or refused when they exceed what remains; the variables stay charged either way |
| CelBudget.EvaluateAll | crates/admission-webhook/src/cel_evaluators.rs:455-468 | the loop succeeds exactly when the cumulative charge fits the budget, with every value in order and the exact remainder |
| CelBudget.EvaluateMessage | crates/admission-webhook/src/cel_evaluators.rs:474-488 | an item without a message expression is free, another is charged like an evaluation |
| CelBudget.EvaluateMessages | crates/admission-webhook/src/cel_evaluators.rs:470-493 | the messages fit exactly when their cumulative charge fits what the validations left |
| CelBudget.Decide | crates/admission-webhook/src/cel_evaluators.rs:495-531 | results and messages are mapped item by item to decisions |
| CelBudget.DecisionMeans | crates/admission-webhook/src/cel_evaluators.rs:495-531 | after a message overrun every decision is an error; otherwise Pass means true, Fail means false, and a failure has a message |
| CelBudget.FailureMeans | crates/admission-webhook/src/cel_evaluators.rs:508-526 | a failed validation says the usable text of its message expression, else its static message, else its expression |
| CelBudget.ValidateBudgeted | crates/admission-webhook/src/cel_evaluators.rs:448-532 | it errs exactly when the validations overrun the budget; otherwise there is one decision per item and accepted charges stay within the budget |
| CelBudget.AuditAnnotationsBudgeted | crates/admission-webhook/src/cel_evaluators.rs:538-568 | a fresh budget, all annotations or an overrun, variables charged earlier staying paid |
| CelBudget.AuditMeans | crates/admission-webhook/src/cel_evaluators.rs:552-567 | an annotation errs exactly for a failed evaluation, is dropped exactly for null or a blank string, and is emitted under its own key with the trimmed value |
| CelBudget.SpentIsUnion | crates/admission-webhook/src/cel_evaluators.rs:413-433 | expressions cost their evaluations plus each reachable uncharged variable once |
| CelBudget.SpentOrderFree | crates/admission-webhook/src/cel_evaluators.rs:413-433 | the amount spent and the charged set do not depend on the order of the expressions |
| CelBudget.SharedVariablesPaidOnce | crates/admission-webhook/src/cel_evaluators.rs:455-493 | a variable used by validations and messages is paid for once |
| CelBudget.ValidationVerdict | crates/admission-webhook/src/cel_evaluators.rs:448-532 | the verdict in closed form: an error exactly when validations and the union of their variables exceed the budget, error decisions exactly when messages do too |
| MatchConditions.ClassOrderFree | crates/admission-webhook/src/webhook_match.rs:133-225 | the class of the conditions is the same for every order, budget exhaustion included |
| MatchConditions.ClassMeans | crates/admission-webhook/src/webhook_match.rs:184-214 | the class of affordable conditions in terms of the values their expressions evaluate to |
| MatchConditions.EvaluateConditions | crates/admission-webhook/src/cel_evaluators.rs:173-202 | the policy evaluator's first loop gives up exactly when the total cost exceeds the budget, else has every answer |
| MatchConditions.ReadAnswers | crates/admission-webhook/src/cel_evaluators.rs:204-219 | in its second loop a false wins over every error; without one the errors are all collected in order |
| MatchConditions.TextsAgree | crates/admission-webhook/src/webhook_match.rs:110-126 | the two implementations word their errors alike exactly when no error text repeats |
| MatchConditions.EvaluateWithContext | crates/admission-webhook/src/cel_evaluators.rs:167-219 | within the budget: not matched exactly when a non-blank condition evaluates to false, matched exactly when all evaluate to true, else an error; beyond it the budget error |
| MatchConditions.Evaluate | crates/admission-webhook/src/cel_evaluators.rs:135-165 | as above, with the case where the activation cannot be built |
| MatchConditions.EvaluateInner | crates/admission-webhook/src/webhook_match.rs:158-198 | the webhook matcher's own first loop stops, as the policy says, exactly when the total cost exceeds the budget, else has every answer |
| MatchConditions.ReadInner | crates/admission-webhook/src/webhook_match.rs:200-224 | its second loop: a false excludes, else errors decide by the policy; an error is noted for each failure before the first false, then the time |
| MatchConditions.MatchInner | crates/admission-webhook/src/webhook_match.rs:133-225 | both loops and the three policy branches give the specified answer and observations |
| MatchConditions.MatchWebhookConditions | crates/admission-webhook/src/webhook_match.rs:50-85 | a false excludes, all true matches, and any failure refuses under Fail or no policy, excludes under Ignore and matches under any other; with its observations |
| MatchConditions.ImplementationsAgree | crates/admission-webhook/src/webhook_match.rs:50-225 | for all conditions the webhook matcher, with loops of its own, is the failure-policy mapping of the policy evaluator up to message text, and word for word when no two errors read the same |
| MatchConditions.MatchOrderFree | crates/admission-webhook/src/webhook_match.rs:50-225 | reordering the conditions changes at most the text of a refusal |
| MatchConditions.NotesTell | crates/admission-webhook/src/webhook_match.rs:50-225 | an exclusion is noted, once and last, exactly for an excluded webhook; nothing is noted exactly when all conditions say true; without a false each error is noted once |
| QuotaLock.CountTellsUse | crates/api-server/src/admission.rs:69-71 | in every state kept by the steps, a count above one means a holder or waiter |
| QuotaLock.RetainedInUse | crates/api-server/src/admission.rs:69-71 | an acquire keeps its own entry and exactly the entries in use |
| QuotaLock.StepKeeps | crates/api-server/src/admission.rs:64-75 | every step keeps: live tasks use the lock in the table, locks of namespaces are separate, an owner is the one holder |
| QuotaLock.StepRefines | crates/api-server/src/admission.rs:64-75 | the same steps are possible as with one permanent mutex per namespace, with the same effect |
| QuotaLock.QuotaLockCorrect | crates/api-server/src/admission.rs:46-75 | every interleaving: exactly the runs of the ideal mutexes, at most one guard per namespace, one lock for all live tasks of a namespace |
| QuotaLock.AcquireCollects | crates/api-server/src/admission.rs:69-72 | right after each acquire the table keys are exactly the namespaces with an admission in flight |
| LimitRanges.ApplyItemValues | crates/api-server/src/admission.rs:104-140 | one item supplies what is missing and never replaces a value |
| LimitRanges.SuppliesMeans | crates/api-server/src/admission.rs:117-140 | limits are supplied from the defaults, requests from the default requests and only without any from the defaults |
| LimitRanges.FirstSupplierWins | crates/api-server/src/admission.rs:101-140 | each final value is the explicit one, else that of the first Container item supplying it |
| LimitRanges.StageStable | crates/api-server/src/admission.rs:101-140 | later items change neither a value nor where it came from |
| LimitRanges.AcceptedExactly | crates/api-server/src/admission.rs:101-165 | a container is accepted exactly when each value satisfies min and max of every item from its supplier on (an explicit one: of every item) and the ratio checks pass |
| LimitRanges.LaterDefaultsEscape | crates/api-server/src/admission.rs:101-165 | a value supplied by a later item can exceed an earlier maximum |
| LimitRanges.ValidateMinResources | crates/api-server/src/admission.rs:346-391 | true exactly when every bounded value parses and is at least its minimum |
| LimitRanges.ValidateMaxResources | crates/api-server/src/admission.rs:393-430 | true exactly when every bounded value parses and is at most its maximum |
| LimitRanges.SumAcross | crates/api-server/src/admission.rs:176-193 | the sum over all containers, given its meaning by the laws below, or a failure |
| LimitRanges.SumParses | crates/api-server/src/admission.rs:176-193 | there is a sum exactly when every present value parses |
| LimitRanges.SumOfOne | crates/api-server/src/admission.rs:176-193 | no container gives zero, one its own amount |
| LimitRanges.SumOfTwo | crates/api-server/src/admission.rs:176-193 | two lists of containers give the sum of their sums |
| LimitRanges.SumOrderFree | crates/api-server/src/admission.rs:176-193 | the sum is the same for every order of the containers |
| LimitRanges.PodItemMeans | crates/api-server/src/admission.rs:201-242 | a Pod item holds exactly when summed limits and requests are at most each max and summed requests at least each min, all parsable |
| LimitRanges.CheckPodItem | crates/api-server/src/admission.rs:197-243 | true exactly when summed requests and limits respect the item's max and summed requests its min |
| LimitRanges.ApplyToContainer | crates/api-server/src/admission.rs:101-165 | the loops over ranges and items accept exactly the accepted containers, with all defaults then in place; otherwise they stop at an item whose bound is broken or, as an error, unreadable |
| LimitRanges.CheckPod | crates/api-server/src/admission.rs:195-245 | true exactly when every Pod item of every range holds of the finished containers |
| LimitRanges.ApplyLimitRangeWith | crates/api-server/src/admission.rs:90-248 | true exactly when every container is accepted and the sums of the defaulted pod satisfy every Pod item; false only for a broken bound or sum, an error only for a text that does not parse or a failing ratio check; whatever the result, containers only gain the defaults of some prefix of the items |
| KubeVersion.CompareIsPreorder | crates/discovery/src/kube_version.rs:22-73 | on all texts the comparison is antisymmetric in sign and transitive |
| KubeVersion.ParsesExactly | crates/discovery/src/kube_version.rs:20-45 | a text parses to a version exactly when it is v and a number, or v, a number, alpha or beta and a number, all within i64 |
| KubeVersion.PrintedParses | crates/discovery/src/kube_version.rs:20-45 | printing a version and parsing the text gives it back |
| KubeVersion.VersionsRank | crates/discovery/src/kube_version.rs:47-73 | GA is above beta and beta above alpha; within a kind the higher major, then the higher minor is above |
| KubeVersion.OthersRank | crates/discovery/src/kube_version.rs:47-73 | every version is above every other text, and the others come in reverse alphabetical order |
| Aggregator.OrdersAreTotal | crates/api-server/src/aggregator_mux.rs:161-191 | priority order and version order are total preorders |
| Aggregator.FindGroup | crates/api-server/src/aggregator_mux.rs:169-177 | the search returns the first list of that group, or the end |
| Aggregator.SortedByGroupAndVersion | crates/api-server/src/aggregator_mux.rs:161-180 | pushing and re-sorting list by list gives each group's members sorted at once |
| Aggregator.GroupsPartition | crates/api-server/src/aggregator_mux.rs:161-180 | the lists are a permutation of the input, one non-empty list per group |
| Aggregator.GroupSorted | crates/api-server/src/aggregator_mux.rs:161-191 | each list, also the only one, has the higher version priority first, then the higher version |
| Aggregator.GroupsOrdered | crates/api-server/src/aggregator_mux.rs:161-191 | the lists are in the order of their groups' best members: the higher group priority first, then the alphabetically first name |
| Aggregator.DocumentMeans | crates/api-server/src/aggregator_mux.rs:199-224 | a document names the group, has one entry per service in list order with its group and version, and prefers the first |
| Aggregator.ConvertToDiscoveryApiGroup | crates/api-server/src/aggregator_mux.rs:199-224 | the document of a list, absent when the list is empty |
| Aggregator.ApisHandlerGroups | crates/api-server/src/aggregator_mux.rs:235-249 | the documents of the sorted groups, in order, the unnamed group left out |
| Aggregator.ServeApiGroup | crates/api-server/src/aggregator_mux.rs:263-276 | a group without services is delegated; any other is answered with a document named after it, of exactly its services in version order, the first one preferred |
| Aggregator.DocumentsAgree | crates/api-server/src/aggregator_mux.rs:199-276 | grouping all services or one group's gives the same document: same versions, order and preferred version |
| Aggregator.ApisAgree | crates/api-server/src/aggregator_mux.rs:235-276 | a document is listed under `/apis` exactly when it is served for some named group that has a service |
| Aggregator.ServedExactly | crates/api-server/src/aggregator_mux.rs:263-276 | a group is delegated exactly when it has no service, and never missing otherwise |
| Abac.SubjectMatches | crates/api-server/src/abac.rs:308-337 | user and group conditions as stated, naming neither matching nobody |
| Abac.Authorize | crates/api-server/src/abac.rs:405-415 | allowed exactly when some policy matches |
| Abac.PolicyMeans | crates/api-server/src/abac.rs:292-389 | what a policy allows, read off its fields, for every request |
| Abac.PathMeans | crates/api-server/src/abac.rs:354-374 | a pattern matches its own path and, ending in stars, every path that starts with what is before them |
| Abac.V0ToPolicy | crates/api-server/src/abac.rs:89-126 | the converted policy |
| Abac.V0Means | crates/api-server/src/abac.rs:89-126 | what a v0 line allows, read off the line itself, for every request |
| Abac.V1Beta1ToPolicy | crates/api-server/src/abac.rs:130-150 | only the subjects change: starred ones become all authenticated users, any other policy speaks of whom it did |
| Abac.V1Beta1Means | crates/api-server/src/abac.rs:130-150 | a starred subject becomes all authenticated users, any other stays |
| Abac.GetUserRules | crates/api-server/src/abac.rs:433-461 | the two rule lists, in policy order |
| Abac.RuleDecides | crates/api-server/src/abac.rs:292-397 | a policy with a resource matches a resource request exactly when its listed rule covers it |
| Abac.ListingDecides | crates/api-server/src/abac.rs:405-461 | a request naming a resource is allowed exactly when a listed rule covers it; otherwise exactly when also a resource-less policy may match |
| Abac.UnlistedAllowance | crates/api-server/src/abac.rs:376-389 | a request naming no resource can be allowed unlisted |
| Abac.PathRuleDecides | crates/api-server/src/abac.rs:354-374 | a listed path rule covers a path exactly when its policy matches it |
| Abac.PathListing | crates/api-server/src/abac.rs:433-461 | a namespace's listing covers a path exactly when a policy with a path and that namespace, or a starred one, matches it |
| Abac.PathListingDecides | crates/api-server/src/abac.rs:354-461 | every listed path rule is honoured, and a non-empty path is allowed exactly when some namespace's listing covers it |
| Abac.V0PathListing | crates/api-server/src/abac.rs:89-461 | for policies converted from v0 every namespace's listing is exact for non-empty paths |
| Abac.NamespacedPathUnlisted | crates/api-server/src/abac.rs:433-461 | a namespaced path policy is honoured but not listed elsewhere |
| WatchStream.WatchManager.HandleLine | console/src/engine/watch.ts:113-143 | one complete line: version, delivery, the end at a 410, malformed lines skipped |
| WatchStream.WatchManager.Connected | console/src/engine/watch.ts:95-150 | for every way of cutting the text, the connection does what its complete lines say |
| WatchStream.TailAddsNothing | console/src/engine/watch.ts:110-114 | an unterminated tail is no line |
| WatchStream.LinesExactly | console/src/engine/watch.ts:110-115 | the lines of a text are what stands before its newlines, in order |
| WatchStream.GoneMeans | console/src/engine/watch.ts:128-138 | only an ERROR event with code 410 ends a connection |
| WatchStream.LastVersionMeans | console/src/engine/watch.ts:121-126 | the version to resume from is that of the last event that carries one |
| WatchStream.ConnectionMeans | console/src/engine/watch.ts:113-143 | up to the first 410 exactly the events of well-formed lines are delivered in order; the version is the last one seen, or none after a 410 |
| WatchStream.CutsAndTailsIrrelevant | console/src/engine/watch.ts:101-145 | two ways of cutting the same text, with or without a tail, end in the same state |
| WatchCache.Cache.HandleEvent | console/src/hooks/useK8sWatch.ts:22-57 | an event edits the cached list and version as specified, nothing before the first list |
| WatchCache.EventMeansExactly | console/src/hooks/useK8sWatch.ts:28-47 | an event does what it means to the map of keys exactly when it finds an item of its own key or none |
| WatchCache.FoldMeans | console/src/hooks/useK8sWatch.ts:22-57 | when uids determine keys among the cached objects and those of editing events, folding any events keeps keys unique and equals putting on ADDED and MODIFIED, removing on DELETED, bookmarks and errors changing nothing whatever they carry |
| WatchCache.AbsentUidsCollide | console/src/hooks/useK8sWatch.ts:30-34 | objects without uid overwrite each other |
| CelTypes.SplitArgs | tools/cel-oracle/main.go:290-310 | the loop cuts at the commas of depth zero and drops a blank last piece |
| CelTypes.PiecesWhole | tools/cel-oracle/main.go:290-310 | no piece has a comma of depth zero and every piece before the last ends at depth zero |
| CelTypes.SplitJoins | tools/cel-oracle/main.go:290-310 | joining the pieces gives the text back, but for a blank last piece |
| CelTypes.SplitUnique | tools/cel-oracle/main.go:290-310 | whole pieces are what splitting their join gives back, a blank last one left out, so the cut is unique |
| CelTypes.Documented | tools/cel-oracle/main.go:33-34 | every type without arguments prints as its documented name |
| CelTypes.DocumentedArguments | tools/cel-oracle/main.go:33-34 | list, map and optional types print as documented |
| CelTypes.ParseType | tools/cel-oracle/main.go:233-288 | recursion on argument length ends and gives the parse; an error in any argument is an error |
| CelTypes.RoundTrip | tools/cel-oracle/main.go:233-310 | for every type tree, parsing its printed form, outer white space aside, gives the tree back |
| CelTypes.ParsesExactly | tools/cel-oracle/main.go:233-310 | a text parses to a type exactly when it is the documented syntax with optional white space around it and its arguments and an optional comma after the last argument |

## Left out

- HTTP and TLS calls, timeouts, endpoint resolution and decoding of patches: only their outcome, as a reply.
- The CEL interpreter, its per-operation costs, the JSON Patch applier, custom-resource defaulting and quantity parsing: function parameters.
- Rule, selector and match-condition gating of webhooks and the queueing phase of the validating dispatcher: one gate per webhook and object.
- Metrics of the mutating dispatcher, metric label text and timings, warnings, logging and latency tracking.
- Error wording, the dry-run denial's and the LimitRange errors' included.
- LimitRanges.SumAcross: sums are mathematical integers, so `i64` overflow is not modelled.
- LimitRanges.ApplyLimitRangeWith: the limit/request ratio check is a function parameter, its floating-point comparison is not modelled.
- CelBudget.EvaluateCharged: remaining budgets are natural numbers below `i64::MAX`, which every budget constant in the source is.
- WatchStream.WatchManager.Connected: stopping during a connection, failed responses, reconnect timers and UTF-8 decoding across chunks are not modelled; chunks are decoded text, and white space is the Unicode property `White_Space`, which JavaScript's `trim` departs from at U+0085 and U+FEFF.
- WatchCache.FoldMeans: the cache after a 410 is not compared with the server, since the code does not purge objects deleted in the gap.
- CelBudget.DecisionMeans: the length limit of a message counts characters where the source counts UTF-8 bytes.
- QuotaLock.QuotaLockCorrect: safety only, fairness of the lock's queue is not modelled.
- Persistent volume claim limits, pod security admission, storage class, priority class and service account injection: straight-line code over modules not modelled.
- APIService proxying, ABAC policy file loading, the React views and stores, build scripts and generators.
