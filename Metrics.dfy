/** The DAG processing engine's metrics sink, reduced to the records it receives. */
module Metrics {
  import opened DagActions

  /** One call of markDagActionsAct(actionType, flag). */
  datatype MetricRecord = DagActionsAct(dagActionType: DagActionType, flag: bool)

  class DagProcessingEngineMetrics {
    var records: seq<MetricRecord>

    constructor ()
      ensures records == []
    {
      records := [];
    }

    method MarkDagActionsAct(dagActionType: DagActionType, flag: bool)
      modifies this
      ensures records == old(records) + [DagActionsAct(dagActionType, flag)]
    {
      records := records + [DagActionsAct(dagActionType, flag)];
    }

    /** Appends the records some other caller (the enforcement hook) produced. */
    method RecordAll(rs: seq<MetricRecord>)
      modifies this
      ensures records == old(records) + rs
    {
      records := records + rs;
    }
  }
}
