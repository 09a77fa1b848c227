# Deadline-enforcement DAG processor

A model of `DeadlineEnforcementDagProc`, the Gobblin service processor that
applies a deadline-enforcement DAG action (start deadline or completion
deadline) to a flow's DAG. It works in two phases:

* **initialize** looks up the DAG for the task's DAG id in the DAG
  management state store;
* **act** runs the relevance check and calls the deadline-kind-specific
  `enforceDeadline` hook only when both steps of the check pass. It then
  records one `markDagActionsAct(actionType, true)` metric. The two steps are:
  * is the `Optional` DAG that initialize loaded present? This tests the
    loaded value and does not read the store again. A DAG removed from the
    store between the two phases is therefore still enforced while its action
    record is pending (`LoadedDagIsNotRechecked`).
  * If it is, is the action with exactly this flow group, flow name, flow
    execution id, job name and action type still pending in the store?

Any `IOException` from the store or the hook propagates and skips the metric.

Layout:

* `Wrappers.dfy`: `Option`, `Result` (a value or a thrown exception) and `Outcome` (a void call or a thrown exception).
* `DagActions.dfy`: the action tuple, the DAG id, the task, and `DagIdOf`.
* `StateStore.dfy`: the store, with a snapshot `StoreState` of the DAGs by id and the pending actions.
  * The pure readers `Lookup` (getDag) and `PendingExists` (existsJobDagAction) take an `ioFails` argument that says whether that one call throws.
  * The class `DagManagementStateStore` has a `reachable` field that decides the next read. The environment may change it between calls. The class also keeps a ghost log of the existence queries issued against it.
* `Metrics.dfy`: the metrics sink, as a sequence of `markDagActionsAct` records.
* `DeadlineEnforcement.dfy`: the decision procedure as functions over snapshots, and the lemmas about it.
  * Each delivery carries a `Faults` value that says which of its two reads throw. A read can therefore fail after another one succeeded, and a store can recover between deliveries.
* `DeadlineEnforcementDagProc.dfy`: the processor class. Its methods are proved equal to those functions.

The abstract `enforceDeadline` hook is injected as a value of type
`(StoreState, Dag) -> HookResult`. The result carries the store it leaves behind, the metric records it made, and
whether it threw. A hook that throws keeps whatever partial changes it made. The processor logs
each hook call in the ghost field `enforceCalls`.

The metric flag does not carry the validation outcome, although a reader
might expect it to. The code always passes `true`
(`DeadlineEnforcementDagProc.java:58`), so the moot path and the enforced path
both record `DagActionsAct(type, true)`.

Whether the action record is removed after enforcement is left to the hook.
The model only proves what follows once it has been removed: see
`RedeliveryAfterCleanupIsNoOp` and `DuplicateDeliveryIsNoOp`.

## Model

| member | source | states |
|---|---|---|
| StateStore.Lookup | gobblin-service/src/main/java/org/apache/gobblin/service/modules/orchestration/proc/DeadlineEnforcementDagProc.java:47 | getDag throws exactly when the call fails; otherwise it returns a DAG iff one is stored under the id, and that DAG is the stored one |
| StateStore.PendingExists | gobblin-service/src/main/java/org/apache/gobblin/service/modules/orchestration/proc/DeadlineEnforcementDagProc.java:71-72 | existsJobDagAction throws exactly when the call fails; otherwise it answers true iff the action built from the five given fields is pending |
| StateStore.DagManagementStateStore.GetDag | gobblin-service/src/main/java/org/apache/gobblin/service/modules/orchestration/proc/DeadlineEnforcementDagProc.java:47 | the store method returns what `Lookup` gives for the current contents and current reachability, and changes nothing |
| StateStore.DagManagementStateStore.ExistsJobDagAction | gobblin-service/src/main/java/org/apache/gobblin/service/modules/orchestration/proc/DeadlineEnforcementDagProc.java:71-72 | the store method answers as `PendingExists` does, leaves the contents unchanged, and logs exactly one query for the queried tuple |
| Metrics.DagProcessingEngineMetrics.MarkDagActionsAct | gobblin-service/src/main/java/org/apache/gobblin/service/modules/orchestration/proc/DeadlineEnforcementDagProc.java:58 | appends exactly one `(actionType, flag)` record and nothing else |
| DeadlineEnforcement.Initialize | gobblin-service/src/main/java/org/apache/gobblin/service/modules/orchestration/proc/DeadlineEnforcementDagProc.java:44-48 | initialize throws iff its getDag call fails; otherwise the DAG is present iff one is stored under the task's DAG id, and it is that stored DAG |
| DeadlineEnforcement.IsDagStillPresent | gobblin-service/src/main/java/org/apache/gobblin/service/modules/orchestration/proc/DeadlineEnforcementDagProc.java:61-78 | an absent DAG gives false. The result is true iff the DAG is present, the existence query answers, and the task's exact action is pending. It throws iff the DAG is present and the query fails |
| DeadlineEnforcement.Act | gobblin-service/src/main/java/org/apache/gobblin/service/modules/orchestration/proc/DeadlineEnforcementDagProc.java:50-59 | the hook runs exactly once, on the present DAG, iff the action is still relevant, and never otherwise. Without the hook the store is unchanged, and either the failed existence query propagates with no metric or exactly one `(type, true)` record is appended. With the hook its store and status stand, its records are kept, and the acted record follows only if it returned normally |
| DeadlineEnforcement.Process | gobblin-service/src/main/java/org/apache/gobblin/service/modules/orchestration/proc/DeadlineEnforcementDagProc.java:44-59 | one delivery (initialize, then act) runs the hook at most once, and does so iff neither read fails and the store holds both the DAG and the action. The metric sequence only grows. When the hook does not run, the store is unchanged, and exactly one acted record is added iff no read threw |
| DeadlineEnforcement.Redeliver | gobblin-service/src/main/java/org/apache/gobblin/service/modules/orchestration/proc/DeadlineEnforcementDagProc.java:54-58 | a sequence of deliveries of one task, each with its own read faults, runs the hook at most once per delivery and never removes earlier metric records |
| DeadlineEnforcement.AbsentDagSkipsExistenceQuery | gobblin-service/src/main/java/org/apache/gobblin/service/modules/orchestration/proc/DeadlineEnforcementDagProc.java:65-69 | with the DAG absent the check answers false, whatever the store holds and whether or not it would answer: the existence query is not issued |
| DeadlineEnforcement.OnlyExactTupleIsConsulted | gobblin-service/src/main/java/org/apache/gobblin/service/modules/orchestration/proc/DeadlineEnforcementDagProc.java:71-72 | adding or removing any pending action that differs from the task's action in any of the five fields does not change the check's answer |
| DeadlineEnforcement.ClearedActionIsMoot | gobblin-service/src/main/java/org/apache/gobblin/service/modules/orchestration/proc/DeadlineEnforcementDagProc.java:71-75 | with the DAG present (whatever it holds) but the action record gone, the check answers false and act only appends one `(type, true)` record |
| DeadlineEnforcement.LoadedDagIsNotRechecked | gobblin-service/src/main/java/org/apache/gobblin/service/modules/orchestration/proc/DeadlineEnforcementDagProc.java:54-56 | step one tests the DAG loaded by initialize, not the store: if that DAG has since left the store but the action is still pending, act still runs the hook on it |
| DeadlineEnforcement.RedeliveryRecoversFromReadFailure | gobblin-service/src/main/java/org/apache/gobblin/service/modules/orchestration/proc/DeadlineEnforcementDagProc.java:51-59 | a delivery whose read throws records no metric and is not treated as moot. A following delivery whose reads succeed runs the hook on the stored DAG |
| DeadlineEnforcement.RedeliveryAfterCleanupIsNoOp | gobblin-service/src/main/java/org/apache/gobblin/service/modules/orchestration/proc/DeadlineEnforcementDagProc.java:54-58 | once the DAG or the action record is gone, any sequence of further deliveries leaves the store unchanged and never runs the hook. It appends exactly one acted record per delivery whose reads did not throw, and none for the others |
| DeadlineEnforcement.DuplicateDeliveryIsNoOp | gobblin-service/src/main/java/org/apache/gobblin/service/modules/orchestration/proc/DeadlineEnforcementDagProc.java:54-58 | after a delivery whose hook returned and removed the action record, a second delivery changes nothing in the store and does not run the hook. If its reads succeed, it appends exactly one acted record |
| Proc.DeadlineEnforcementDagProc.Initialize | gobblin-service/src/main/java/org/apache/gobblin/service/modules/orchestration/proc/DeadlineEnforcementDagProc.java:44-48 | the method returns `DeadlineEnforcement.Initialize` of the store's contents and current reachability, and modifies nothing |
| Proc.DeadlineEnforcementDagProc.IsDagStillPresent | gobblin-service/src/main/java/org/apache/gobblin/service/modules/orchestration/proc/DeadlineEnforcementDagProc.java:61-78 | the method returns `DeadlineEnforcement.IsDagStillPresent` and leaves the store's contents unchanged. It issues exactly one existence query, for the task's action, when the DAG is present, and none when it is absent |
| Proc.DeadlineEnforcementDagProc.EnforceDeadline | gobblin-service/src/main/java/org/apache/gobblin/service/modules/orchestration/proc/DeadlineEnforcementDagProc.java:80-81 | the hook's effect is installed in the store and the sink, its outcome is returned, and the call is logged once with its DAG |
| Proc.DeadlineEnforcementDagProc.Act | gobblin-service/src/main/java/org/apache/gobblin/service/modules/orchestration/proc/DeadlineEnforcementDagProc.java:50-59 | the store, the metric records, the status and the hook-call log after the method are those `DeadlineEnforcement.Act` gives for the state before it. The existence query is issued only for a present DAG |

## Left out

- Log statements: they format messages and have no effect on state.
- The `Config` constructor argument: it is passed to the base class and never interpreted here.
- The `DagProc` base class is not part of this model, and these are assumptions about it:
  - `getDagId()` is taken as `DagIdOf`, which combines the action's flow group, flow name and flow execution id.
  - `getDagActionType()` is taken as the action's type.
  - `Process` assumes the base class calls initialize and then act, with nothing in between and no metrics of its own.
- The internals of the state store, the metrics sink, `Dag<JobExecutionPlan>` and the action-type enum are not part of this model.
  - The store is a map of DAGs and a set of pending actions. Whether a read throws is an input.
  - A DAG is an opaque value that carries only its id.
  - The sink is a sequence of `markDagActionsAct` records.
  - The action types are assumed names: Launch, Kill, Resume, Retry, EnforceStartDeadline, EnforceCompletionDeadline.
- Concrete `enforceDeadline` implementations: the hook is any function from a store snapshot and a DAG to a new snapshot, metric records and a status. A hook that changes the DAG object outside the store is not represented.
- Concurrency: races between processors, at-least-once redelivery by the dispatcher and the store acting as a lock are not modelled. Only a single invocation is, and `Redeliver` covers sequential repeats.
- Java's 64-bit `long` flow execution id is an unbounded `int`: the processor only compares it and never does arithmetic on it.
