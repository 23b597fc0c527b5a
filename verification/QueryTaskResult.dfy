/** The outcome of a query's task: result, published status and error code, built together. */
module QueryTaskResult {
  import opened Common
  import opened RunningQueries

  type QueryResult = int

  datatype Cause = ExecutionFailed(code: int) | SubtaskJoin | QueryCancelled | QueryTimeout | ConcurrencyLimit

  datatype QueryExecutionError = QueryExecution(queryId: QueryId, cause: Cause)

  datatype ErrorCode = Mapped(code: int) | LimitExceeded | QueryTask | Cancelled | Timeout

  datatype ExecutionTaskResult = ExecutionTaskResult(
    result: Result<QueryResult, QueryExecutionError>, status: Status, errorCode: Option<ErrorCode>)

  /** What the select of the task can resolve to. */
  datatype Outcome = Finished(inner: Result<QueryResult, int>) | JoinFailed | WasCancelled | TimedOut

  function FromQueryResult(id: QueryId, inner: Result<QueryResult, int>): ExecutionTaskResult {
    match inner
    case Ok(v) => ExecutionTaskResult(Ok(v), Success, None)
    case Err(e) => ExecutionTaskResult(Err(QueryExecution(id, ExecutionFailed(e))), Fail, Some(Mapped(e)))
  }

  function FromQueryLimitExceeded(id: QueryId): (r: ExecutionTaskResult)
    ensures Consistent(id, r) && r.status == Incident
    ensures r.result.error.cause == ConcurrencyLimit && r.errorCode == Some(LimitExceeded)
  {
    ExecutionTaskResult(Err(QueryExecution(id, ConcurrencyLimit)), Incident, Some(LimitExceeded))
  }

  /** A finished query succeeds exactly when its own result is Ok; every other way to end is an error. */
  function FromOutcome(id: QueryId, outcome: Outcome): (r: ExecutionTaskResult)
    ensures Consistent(id, r)
    ensures r.status == Success <==> outcome.Finished? && outcome.inner.Ok?
    ensures r.status == Incident <==> outcome.JoinFailed?
    ensures forall v :: r.result == Ok(v) <==> outcome == Finished(Ok(v))
    ensures forall e :: r.result == Err(QueryExecution(id, ExecutionFailed(e))) <==> outcome == Finished(Err(e))
    ensures forall e :: r.errorCode == Some(Mapped(e)) <==> outcome == Finished(Err(e))
    ensures r.result == Err(QueryExecution(id, SubtaskJoin)) <==> outcome == JoinFailed
    ensures r.errorCode == Some(QueryTask) <==> outcome == JoinFailed
    ensures r.result == Err(QueryExecution(id, QueryCancelled)) <==> outcome == WasCancelled
    ensures r.errorCode == Some(Cancelled) <==> outcome == WasCancelled
    ensures r.result == Err(QueryExecution(id, QueryTimeout)) <==> outcome == TimedOut
    ensures r.errorCode == Some(Timeout) <==> outcome == TimedOut
  {
    match outcome
    case Finished(inner) => FromQueryResult(id, inner)
    case JoinFailed => ExecutionTaskResult(Err(QueryExecution(id, SubtaskJoin)), Incident, Some(QueryTask))
    case WasCancelled => ExecutionTaskResult(Err(QueryExecution(id, QueryCancelled)), Fail, Some(Cancelled))
    case TimedOut => ExecutionTaskResult(Err(QueryExecution(id, QueryTimeout)), Fail, Some(Timeout))
  }

  /** Status, code and result tell one story, and an error carries the query's own id. */
  predicate Consistent(id: QueryId, r: ExecutionTaskResult) {
    && (r.result.Ok? <==> r.status == Success)
    && (r.result.Ok? <==> r.errorCode == None)
    && (r.result.Err? ==> r.result.error.queryId == id)
    && r.status != Running
  }
}
