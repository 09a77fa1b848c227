/**
 * The deadline-enforcement processor itself: the task it was built for, the
 * deadline-kind-specific hook it delegates to, and the three steps it runs
 * against a live store and metrics sink.
 */
module Proc {
  import opened Wrappers
  import opened DagActions
  import opened StateStore
  import opened Metrics
  import DeadlineEnforcement

  class DeadlineEnforcementDagProc {
    const dagTask: DagTask
    /** The enforceDeadline hook a concrete deadline kind supplies. */
    const enforcement: DeadlineEnforcement.Enforcement
    /** Every DAG the hook has been called on, in order. */
    ghost var enforceCalls: seq<Dag>

    constructor (dagTask: DagTask, enforcement: DeadlineEnforcement.Enforcement)
      ensures this.dagTask == dagTask && this.enforcement == enforcement
      ensures enforceCalls == []
    {
      this.dagTask := dagTask;
      this.enforcement := enforcement;
      enforceCalls := [];
    }

    function GetDagId(): DagId
    {
      DagIdOf(dagTask.dagAction)
    }

    function GetDagActionType(): DagActionType
    {
      dagTask.dagAction.dagActionType
    }

    /** Loads the task's DAG; changes nothing. */
    method Initialize(store: DagManagementStateStore) returns (r: Result<Option<Dag>, IOException>)
      ensures r == DeadlineEnforcement.Initialize(dagTask, store.State(), !store.reachable)
    {
      r := store.GetDag(GetDagId());
    }

    /** The two-step relevance check; the existence query is issued only for a present DAG. */
    method IsDagStillPresent(dag: Option<Dag>, store: DagManagementStateStore) returns (r: Result<bool, IOException>)
      modifies store`existsQueries
      ensures store.State() == old(store.State())
      ensures r == DeadlineEnforcement.IsDagStillPresent(dagTask, dag, store.State(), !store.reachable)
      ensures store.existsQueries == old(store.existsQueries) + (if dag.Some? then [dagTask.dagAction] else [])
    {
      var dagAction := dagTask.dagAction;
      if dag.None? {
        return Success(false);
      }
      var stillPending := store.ExistsJobDagAction(dagAction.flowGroup, dagAction.flowName,
                                                   dagAction.flowExecutionId, dagAction.jobName,
                                                   dagAction.dagActionType);
      if stillPending.Failure? {
        return Failure(stillPending.error);
      }
      if !stillPending.value {
        return Success(false);
      }
      return Success(true);
    }

    /** Calls the injected hook on `dag` and installs what it leaves behind. */
    method EnforceDeadline(store: DagManagementStateStore, dag: Dag, metrics: DagProcessingEngineMetrics)
      returns (status: Outcome<IOException>)
      modifies store`dags, store`pending, metrics, this`enforceCalls
      ensures store.State() == enforcement(old(store.State()), dag).store
      ensures metrics.records == old(metrics.records) + enforcement(old(store.State()), dag).emitted
      ensures status == enforcement(old(store.State()), dag).status
      ensures enforceCalls == old(enforceCalls) + [dag]
    {
      enforceCalls := enforceCalls + [dag];
      var h := enforcement(store.State(), dag);
      store.Replace(h.store);
      metrics.RecordAll(h.emitted);
      status := h.status;
    }

    /** Validates, enforces when still relevant, then records the acted metric. */
    method Act(store: DagManagementStateStore, dag: Option<Dag>, metrics: DagProcessingEngineMetrics)
      returns (status: Outcome<IOException>)
      modifies store`dags, store`pending, store`existsQueries, metrics, this`enforceCalls
      ensures store.State() ==
        DeadlineEnforcement.Act(dagTask, old(store.State()), old(metrics.records), dag, enforcement,
                                !old(store.reachable)).store
      ensures metrics.records ==
        DeadlineEnforcement.Act(dagTask, old(store.State()), old(metrics.records), dag, enforcement,
                                !old(store.reachable)).metrics
      ensures status ==
        DeadlineEnforcement.Act(dagTask, old(store.State()), old(metrics.records), dag, enforcement,
                                !old(store.reachable)).status
      ensures enforceCalls == old(enforceCalls) +
        DeadlineEnforcement.Act(dagTask, old(store.State()), old(metrics.records), dag, enforcement,
                                !old(store.reachable)).enforced
      ensures store.existsQueries == old(store.existsQueries) + (if dag.Some? then [dagTask.dagAction] else [])
    {
      var stillPresent := IsDagStillPresent(dag, store);
      if stillPresent.Failure? {
        return Fail(stillPresent.error);
      }
      if stillPresent.value {
        status := EnforceDeadline(store, dag.value, metrics);
        if status.Fail? {
          return;
        }
      }
      metrics.MarkDagActionsAct(GetDagActionType(), true);
      status := Pass;
    }
  }
}
