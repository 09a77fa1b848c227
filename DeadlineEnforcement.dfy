/**
 * The deadline-enforcement processor's decision procedure over store
 * snapshots: load the DAG, check that the action is still relevant, run the
 * enforcement hook only if it is, and record the "acted" metric unless an
 * I/O failure propagated first. Whether each store read throws is an input
 * of its own, so a read may fail after another one succeeded.
 */
module DeadlineEnforcement {
  import opened Wrappers
  import opened DagActions
  import opened StateStore
  import opened Metrics

  /** What one call of the enforcement hook leaves behind. */
  datatype HookResult = HookResult(store: StoreState, emitted: seq<MetricRecord>, status: Outcome<IOException>)

  /**
   * The deadline-kind-specific enforceDeadline hook, injected as an effect on
   * the store. It may change anything in the store, may record metrics of its
   * own, and may fail after doing part of its work.
   */
  type Enforcement = (StoreState, Dag) -> HookResult

  /** Which of the two store reads of one delivery throw. */
  datatype Faults = Faults(getDagFails: bool, existsFails: bool)

  /** The effect of one act (or one initialize-then-act) on store, metrics and hook log. */
  datatype ActStep = ActStep(
    store: StoreState,
    metrics: seq<MetricRecord>,
    enforced: seq<Dag>,
    status: Outcome<IOException>)

  function ActedRecord(task: DagTask): MetricRecord
  {
    DagActionsAct(task.dagAction.dagActionType, true)
  }

  /** initialize: the store's answer for the task's DAG id, read-only. */
  function Initialize(task: DagTask, s: StoreState, ioFails: bool): (r: Result<Option<Dag>, IOException>)
    ensures r.Failure? <==> ioFails
    ensures r.Success? ==> (r.value.Some? <==> DagIdOf(task.dagAction) in s.dags)
    ensures r.Success? && r.value.Some? ==> r.value.value == s.dags[DagIdOf(task.dagAction)]
  {
    Lookup(s, DagIdOf(task.dagAction), ioFails)
  }

  /**
   * isDagStillPresent: the loaded DAG must be present, and then the exact
   * action tuple must still be pending. The store is consulted only in the
   * second step; `ioFails` says whether that consultation throws.
   */
  function IsDagStillPresent(task: DagTask, dag: Option<Dag>, s: StoreState, ioFails: bool)
    : (r: Result<bool, IOException>)
    ensures dag.None? ==> r == Success(false)
    ensures r == Success(true) <==> dag.Some? && !ioFails && task.dagAction in s.pending
    ensures r.Failure? <==> dag.Some? && ioFails
  {
    if dag.None? then Success(false)
    else
      var a := task.dagAction;
      match PendingExists(s, a.flowGroup, a.flowName, a.flowExecutionId, a.jobName, a.dagActionType, ioFails)
      case Failure(e) => Failure(e)
      case Success(stillPending) => if !stillPending then Success(false) else Success(true)
  }

  /** act: validate, enforce if still relevant, then record the acted metric. */
  function Act(task: DagTask, s: StoreState, metrics: seq<MetricRecord>, dag: Option<Dag>,
               enforce: Enforcement, existsFails: bool): (r: ActStep)
    // the hook runs exactly when the action is still relevant, once, on the present DAG
    ensures r.enforced != [] <==> dag.Some? && !existsFails && task.dagAction in s.pending
    ensures r.enforced != [] ==> dag.Some? && r.enforced == [dag.value]
    // without the hook nothing in the store changes
    ensures r.enforced == [] ==> r.store == s
    // without the hook, either the existence query failed (no metric) or exactly one acted metric
    ensures r.enforced == [] ==> (r.status.Fail? <==> dag.Some? && existsFails)
    ensures r.enforced == [] && r.status.Fail? ==> r.metrics == metrics
    ensures r.enforced == [] && r.status.Pass? ==> r.metrics == metrics + [ActedRecord(task)]
    // with the hook, its effect stands and the acted metric follows only a hook that returned
    ensures r.enforced != [] ==>
      && dag.Some?
      && r.store == enforce(s, dag.value).store
      && r.status == enforce(s, dag.value).status
      && r.metrics == metrics + enforce(s, dag.value).emitted
                      + (if enforce(s, dag.value).status.Pass? then [ActedRecord(task)] else [])
  {
    match IsDagStillPresent(task, dag, s, existsFails)
    case Failure(e) => ActStep(s, metrics, [], Fail(e))
    case Success(relevant) =>
      if !relevant then ActStep(s, metrics + [ActedRecord(task)], [], Pass)
      else
        var h := enforce(s, dag.value);
        match h.status
        case Fail(e) => ActStep(h.store, metrics + h.emitted, [dag.value], Fail(e))
        case Pass => ActStep(h.store, metrics + h.emitted + [ActedRecord(task)], [dag.value], Pass)
  }

  /**
   * Whether a delivery on store `s` with faults `f` throws before the hook
   * could run: getDag throws, or it finds the DAG and the existence query throws.
   */
  predicate ReadFails(task: DagTask, s: StoreState, f: Faults)
  {
    f.getDagFails || (DagIdOf(task.dagAction) in s.dags && f.existsFails)
  }

  /** One delivery of the task: initialize, and act on what it loaded unless it threw. */
  function Process(task: DagTask, s: StoreState, metrics: seq<MetricRecord>, enforce: Enforcement,
                   f: Faults): (r: ActStep)
    ensures |r.enforced| <= 1
    ensures r.enforced != [] <==>
      !ReadFails(task, s, f) && DagIdOf(task.dagAction) in s.dags && task.dagAction in s.pending
    ensures |metrics| <= |r.metrics| && r.metrics[..|metrics|] == metrics
    ensures r.enforced == [] ==>
      && r.store == s
      && (r.status.Pass? <==> !ReadFails(task, s, f))
      && r.metrics == metrics + (if ReadFails(task, s, f) then [] else [ActedRecord(task)])
  {
    match Initialize(task, s, f.getDagFails)
    case Failure(e) => ActStep(s, metrics, [], Fail(e))
    case Success(dag) => Act(task, s, metrics, dag, enforce, f.existsFails)
  }

  /**
   * Deliveries of the same task in a row, one per element of `faults`, each
   * on the state the previous one left; the status is that of the last one.
   */
  function Redeliver(task: DagTask, s: StoreState, metrics: seq<MetricRecord>, enforce: Enforcement,
                     faults: seq<Faults>): (r: ActStep)
    ensures |r.enforced| <= |faults|
    ensures |metrics| <= |r.metrics| && r.metrics[..|metrics|] == metrics
    decreases |faults|
  {
    if faults == [] then ActStep(s, metrics, [], Pass)
    else
      var first := Process(task, s, metrics, enforce, faults[0]);
      var rest := Redeliver(task, first.store, first.metrics, enforce, faults[1..]);
      ActStep(rest.store, rest.metrics, first.enforced + rest.enforced, rest.status)
  }

  function ActedRecords(task: DagTask, n: nat): (r: seq<MetricRecord>)
  {
    seq(n, _ => ActedRecord(task))
  }

  /** How many of the deliveries on an unchanging store `s` get past both reads. */
  function CompletedDeliveries(task: DagTask, s: StoreState, faults: seq<Faults>): (n: nat)
    decreases |faults|
  {
    if faults == [] then 0
    else (if ReadFails(task, s, faults[0]) then 0 else 1) + CompletedDeliveries(task, s, faults[1..])
  }

  /**
   * With the DAG absent the answer is "not relevant" whatever the store holds
   * and whether or not it would answer: the existence query is never issued.
   */
  lemma AbsentDagSkipsExistenceQuery(task: DagTask, s1: StoreState, s2: StoreState, fails1: bool, fails2: bool)
    ensures IsDagStillPresent(task, None, s1, fails1) == IsDagStillPresent(task, None, s2, fails2) == Success(false)
  {
  }

  /**
   * Only the exact five-field tuple of the task's action matters: a pending
   * action differing in any field (another job, another action type, another
   * execution) neither makes the check pass nor fail.
   */
  lemma OnlyExactTupleIsConsulted(task: DagTask, dag: Option<Dag>, s: StoreState, ioFails: bool, other: DagAction)
    requires other != task.dagAction
    ensures IsDagStillPresent(task, dag, s.(pending := s.pending + {other}), ioFails)
         == IsDagStillPresent(task, dag, s, ioFails)
    ensures IsDagStillPresent(task, dag, s.(pending := s.pending - {other}), ioFails)
         == IsDagStillPresent(task, dag, s, ioFails)
  {
  }

  /** A present DAG does not rescue an action whose record was cleaned up, whatever the DAG holds. */
  lemma ClearedActionIsMoot(task: DagTask, d: Dag, s: StoreState, metrics: seq<MetricRecord>, enforce: Enforcement)
    requires task.dagAction !in s.pending
    ensures IsDagStillPresent(task, Some(d), s, false) == Success(false)
    ensures Act(task, s, metrics, Some(d), enforce, false) == ActStep(s, metrics + [ActedRecord(task)], [], Pass)
  {
  }

  /**
   * The first step checks the DAG that initialize loaded, not the store: a
   * DAG removed from the store between the two phases is still enforced while
   * its action record is pending.
   */
  lemma LoadedDagIsNotRechecked(task: DagTask, d: Dag, s: StoreState, metrics: seq<MetricRecord>, enforce: Enforcement)
    requires DagIdOf(task.dagAction) !in s.dags && task.dagAction in s.pending
    ensures Act(task, s, metrics, Some(d), enforce, false).enforced == [d]
  {
  }

  /**
   * A read failure is not a moot outcome: it records nothing, and a later
   * delivery whose reads succeed still runs the hook.
   */
  lemma RedeliveryRecoversFromReadFailure(task: DagTask, s: StoreState, metrics: seq<MetricRecord>,
                                          enforce: Enforcement, f: Faults)
    requires ReadFails(task, s, f)
    requires DagIdOf(task.dagAction) in s.dags && task.dagAction in s.pending
    ensures Redeliver(task, s, metrics, enforce, [f]).metrics == metrics
    ensures Redeliver(task, s, metrics, enforce, [f, Faults(false, false)]).enforced
         == [s.dags[DagIdOf(task.dagAction)]]
  {
  }

  /**
   * Once either the DAG or the action record is gone, any further deliveries
   * leave the store untouched and never run the hook; each one that gets
   * past its reads records one acted metric, and each one that throws records none.
   */
  lemma {:induction false} RedeliveryAfterCleanupIsNoOp(task: DagTask, s: StoreState, metrics: seq<MetricRecord>,
                                                         enforce: Enforcement, faults: seq<Faults>)
    requires DagIdOf(task.dagAction) !in s.dags || task.dagAction !in s.pending
    ensures Redeliver(task, s, metrics, enforce, faults).store == s
    ensures Redeliver(task, s, metrics, enforce, faults).enforced == []
    ensures Redeliver(task, s, metrics, enforce, faults).metrics ==
      metrics + ActedRecords(task, CompletedDeliveries(task, s, faults))
    decreases |faults|
  {
    if faults != [] {
      var first := Process(task, s, metrics, enforce, faults[0]);
      RedeliveryAfterCleanupIsNoOp(task, s, first.metrics, enforce, faults[1..]);
      var k := CompletedDeliveries(task, s, faults[1..]);
      if !ReadFails(task, s, faults[0]) {
        assert [ActedRecord(task)] + ActedRecords(task, k) == ActedRecords(task, k + 1);
        assert first.metrics + ActedRecords(task, k) == metrics + ([ActedRecord(task)] + ActedRecords(task, k));
      }
    }
  }

  /**
   * A delivery whose hook ran, returned, and removed the action record makes
   * the next delivery of the same task a no-op on the store.
   */
  lemma DuplicateDeliveryIsNoOp(task: DagTask, s: StoreState, metrics: seq<MetricRecord>, enforce: Enforcement,
                                f1: Faults, f2: Faults)
    requires Process(task, s, metrics, enforce, f1).status.Pass?
    requires task.dagAction !in Process(task, s, metrics, enforce, f1).store.pending
    ensures var first := Process(task, s, metrics, enforce, f1);
      var second := Process(task, first.store, first.metrics, enforce, f2);
      && second.store == first.store
      && second.enforced == []
      && (!ReadFails(task, first.store, f2) ==> second.metrics == first.metrics + [ActedRecord(task)])
  {
  }
}
