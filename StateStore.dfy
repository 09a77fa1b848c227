/**
 * The DAG management state store, as far as the deadline-enforcement
 * processor sees it: DAGs by id and the set of pending actions. Whether a
 * given read throws an IOException is decided per call, by the `ioFails`
 * argument of the pure readers and by the `reachable` field of the class at
 * the moment of the call.
 */
module StateStore {
  import opened Wrappers
  import opened DagActions

  /** A DAG of job execution plans; the processor never looks inside it. */
  datatype Dag = Dag(dagId: DagId)

  /** The I/O failures that propagate out of the processor. */
  datatype IOException = StoreUnreachable | EnforcementFailed(reason: string)

  /** A snapshot of everything the store holds. */
  datatype StoreState = StoreState(dags: map<DagId, Dag>, pending: set<DagAction>)

  /** getDag: the DAG stored under `dagId`, absent when there is none, or an I/O failure. */
  function Lookup(s: StoreState, dagId: DagId, ioFails: bool): (r: Result<Option<Dag>, IOException>)
    ensures r.Success? <==> !ioFails
    ensures r.Success? ==> (r.value.Some? <==> dagId in s.dags)
    ensures r.Success? && r.value.Some? ==> r.value.value == s.dags[dagId]
  {
    if ioFails then Failure(StoreUnreachable)
    else if dagId in s.dags then Success(Some(s.dags[dagId]))
    else Success(None)
  }

  /** existsJobDagAction: whether the action with exactly these five fields is pending. */
  function PendingExists(s: StoreState, flowGroup: string, flowName: string, flowExecutionId: int,
                         jobName: string, dagActionType: DagActionType, ioFails: bool)
    : (r: Result<bool, IOException>)
    ensures r.Success? <==> !ioFails
    ensures r.Success? ==>
      (r.value <==> DagAction(flowGroup, flowName, flowExecutionId, jobName, dagActionType) in s.pending)
  {
    if ioFails then Failure(StoreUnreachable)
    else Success(DagAction(flowGroup, flowName, flowExecutionId, jobName, dagActionType) in s.pending)
  }

  class DagManagementStateStore {
    var dags: map<DagId, Dag>
    var pending: set<DagAction>
    /** Whether the next read is answered; the environment may change it between calls. */
    var reachable: bool
    /** Every existence query issued against this store, in order. */
    ghost var existsQueries: seq<DagAction>

    /** The store's contents as a value. */
    function State(): StoreState
      reads this
    {
      StoreState(dags, pending)
    }

    constructor (init: StoreState, reachable: bool)
      ensures State() == init && this.reachable == reachable && existsQueries == []
    {
      dags, pending, this.reachable := init.dags, init.pending, reachable;
      existsQueries := [];
    }

    method GetDag(dagId: DagId) returns (r: Result<Option<Dag>, IOException>)
      ensures r == Lookup(State(), dagId, !reachable)
    {
      if !reachable {
        r := Failure(StoreUnreachable);
      } else if dagId in dags {
        r := Success(Some(dags[dagId]));
      } else {
        r := Success(None);
      }
    }

    method ExistsJobDagAction(flowGroup: string, flowName: string, flowExecutionId: int,
                              jobName: string, dagActionType: DagActionType)
      returns (r: Result<bool, IOException>)
      modifies this`existsQueries
      ensures State() == old(State())
      ensures r == PendingExists(State(), flowGroup, flowName, flowExecutionId, jobName, dagActionType, !reachable)
      ensures existsQueries ==
        old(existsQueries) + [DagAction(flowGroup, flowName, flowExecutionId, jobName, dagActionType)]
    {
      existsQueries := existsQueries + [DagAction(flowGroup, flowName, flowExecutionId, jobName, dagActionType)];
      if !reachable {
        r := Failure(StoreUnreachable);
      } else {
        r := Success(DagAction(flowGroup, flowName, flowExecutionId, jobName, dagActionType) in pending);
      }
    }

    /** Installs the contents a store mutation (the enforcement hook) left behind. */
    method Replace(next: StoreState)
      modifies this`dags, this`pending
      ensures State() == next
    {
      dags, pending := next.dags, next.pending;
    }
  }
}
