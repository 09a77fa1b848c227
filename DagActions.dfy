/** Dag actions, the identity of the DAG they address, and the task that carries one. */
module DagActions {

  /** The kinds of lifecycle action a processor may be asked to apply. */
  datatype DagActionType =
    | Launch
    | Kill
    | Resume
    | Retry
    | EnforceStartDeadline
    | EnforceCompletionDeadline

  /**
   * An immutable action descriptor. Equality is by the whole tuple, so two
   * actions with the same five fields are the same logical action.
   */
  datatype DagAction = DagAction(
    flowGroup: string,
    flowName: string,
    flowExecutionId: int,
    jobName: string,
    dagActionType: DagActionType)

  /** The identity of a DAG: flow group, flow name and flow execution id. */
  datatype DagId = DagId(flowGroup: string, flowName: string, flowExecutionId: int)

  /** A unit of dispatched work wrapping exactly one action. */
  datatype DagTask = DagTask(dagAction: DagAction)

  /** The DAG id an action addresses (derived by the DagProc base class). */
  function DagIdOf(a: DagAction): DagId
  {
    DagId(a.flowGroup, a.flowName, a.flowExecutionId)
  }
}
