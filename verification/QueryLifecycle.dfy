/**
 * The life of queries in the execution service as a step relation over the state that submitters,
 * query tasks, waiters, aborters, discard timers and retried requests share. Each step is one
 * atomic access to shared state; steps of different actors interleave in any order.
 */
module QueryLifecycle {
  import opened Common
  import opened RunningQueries
  import opened QueryTaskResult

  type ClientId = int

  /** The task spawned for a query, from its gate to the value its handle yields. */
  datatype Task =
    | Gated(signalled: bool)
    | Executing
    | Selected(res: ExecutionTaskResult)
    | Notified(res: ExecutionTaskResult)
    | Returned(res: ExecutionTaskResult)
    | Orphaned // notify found no entry: the task would return "query isn't running"

  /** The timer a notified task leaves behind to discard an unclaimed result. */
  datatype Discard = Sleeping | Took | Missed

  datatype Purpose = ForResult | ForAbort

  datatype Refusal =
    | LimitReached(res: ExecutionTaskResult)
    | NotRunning(id: QueryId)
    | StatusRecv(id: QueryId)

  datatype Client =
    | Arrived(request: RequestId, retry: bool)                 // handle_query_request, before the lookup
    | Calling(id: QueryId, requestOf: Option<RequestId>)       // submit, before the count check
    | Admitted(id: QueryId, requestOf: Option<RequestId>)      // task spawned, before the request index
    | Indexed(id: QueryId, requestOf: Option<RequestId>)       // before the registry insert
    | Registered(id: QueryId)                                  // before the start signal
    | Submitted(id: QueryId)                                   // submit returned
    | Aborting(id: QueryId)                                    // abort, before cancelling
    | Waiting(id: QueryId, purpose: Purpose)                   // before cloning the receiver
    | Receiving(id: QueryId, purpose: Purpose)                 // before borrow_and_update
    | Parked(id: QueryId, purpose: Purpose)                    // in changed().await
    | Observed(id: QueryId, purpose: Purpose, status: Status)  // wait_query_finished returned
    | Holding(id: QueryId, status: Status)                     // owns the result handle
    | Answered(id: QueryId, result: Result<QueryResult, QueryExecutionError>)
    | Aborted(id: QueryId, status: Status)
    | Refused(why: Refusal)

  /** Everything the shared state holds about one query whose id has been drawn. */
  datatype Query = Query(
    listed: Option<RunningQuery>, // its entry in the registry
    taken: Option<RunningQuery>,  // its entry once taken out of the registry, by whoever took it
    closed: bool,                 // the watch sender was dropped
    task: Option<Task>,
    discard: Option<Discard>)
  {
    /** The latest value of the query's watch channel. */
    function Published(): Option<Status> {
      if listed.Some? then listed.value.published
      else if taken.Some? then taken.value.published
      else None
    }

    function Cancelled(): bool {
      (listed.Some? && listed.value.cancelled) || (taken.Some? && taken.value.cancelled)
    }

    function TakeOut(): Query { this.(listed := None, taken := listed) }
  }

  const BLANK := Query(None, None, false, None, None)

  datatype Sys = Sys(
    limit: nat,
    queries: map<QueryId, Query>,
    requests: map<RequestId, QueryId>,
    clients: map<ClientId, Client>)

  /** Steps of a query's task, of the discard timer it leaves, and the drop of its sender. */
  datatype TaskMove = Begin | Select(outcome: Outcome) | Notify | Return | FireDiscard | DropSender

  /** Steps of a client that waits for or aborts a query. */
  datatype WaitMove = CancelToken | CloneReceiver | Borrow | Changed | Claim | Join

  datatype Label =
    | Arrive(c: ClientId, request: RequestId, retry: bool)
    | CallSubmit(c: ClientId, id: QueryId, requestOf: Option<RequestId>)
    | CallWait(c: ClientId, id: QueryId)
    | CallAbort(c: ClientId, id: QueryId)
    | Locate(c: ClientId, id: QueryId)
    | CheckCount(c: ClientId)
    | IndexRequest(c: ClientId)
    | InsertEntry(c: ClientId)
    | SignalStart(c: ClientId, thenWait: bool)
    | ByTask(id: QueryId, task: TaskMove)
    | ByWaiter(c: ClientId, wait: WaitMove)

  predicate Init(s: Sys) {
    s == Sys(s.limit, map[], map[], map[])
  }

  function Of(s: Sys, id: QueryId): Query {
    if id in s.queries then s.queries[id] else BLANK
  }

  function Ids(s: Sys): set<QueryId> {
    set id | id in s.queries && s.queries[id].listed.Some?
  }

  /** The shared registry: the listed entries and the request index. */
  function RegistryOf(s: Sys): Registry {
    Registry(map id | id in Ids(s) :: s.queries[id].listed.value, s.requests)
  }

  function With(s: Sys, id: QueryId, q: Query): Sys {
    s.(queries := s.queries[id := q])
  }

  function Put(s: Sys, c: ClientId, client: Client): Sys {
    s.(clients := s.clients[c := client])
  }

  // --------------------------------------------------------------------------------- the steps

  predicate Free(s: Sys, c: ClientId) { c !in s.clients }

  /** A retried request waits for the query indexed under its id; any other submits a fresh query. */
  function LocateStep(s: Sys, c: ClientId, id: QueryId): Option<Sys> {
    if c !in s.clients || !s.clients[c].Arrived? then None
    else
      var request := s.clients[c].request;
      if s.clients[c].retry && request in s.requests then
        Some(Put(s, c, Waiting(s.requests[request], ForResult)))
      else if id in s.queries then None
      else Some(Put(With(s, id, BLANK), c, Calling(id, Some(request))))
  }

  /** The count check; when it passes the gated task is spawned. */
  function CheckStep(s: Sys, c: ClientId): Option<Sys> {
    if c !in s.clients || !s.clients[c].Calling? then None
    else
      var id := s.clients[c].id;
      if |RegistryOf(s).queries| >= s.limit then
        Some(Put(s, c, Refused(LimitReached(FromQueryLimitExceeded(id)))))
      else Some(Put(With(s, id, Of(s, id).(task := Some(Gated(false)))), c, Admitted(id, s.clients[c].requestOf)))
  }

  function IndexStep(s: Sys, c: ClientId): Option<Sys> {
    if c !in s.clients || !s.clients[c].Admitted? then None
    else
      var id, requestOf := s.clients[c].id, s.clients[c].requestOf;
      var requests := if requestOf.Some? then s.requests[requestOf.value := id] else s.requests;
      Some(Put(s, c, Indexed(id, requestOf)).(requests := requests))
  }

  function InsertStep(s: Sys, c: ClientId): Option<Sys> {
    if c !in s.clients || !s.clients[c].Indexed? then None
    else
      var id := s.clients[c].id;
      var entry := RunningQuery(id, s.clients[c].requestOf, None, false);
      Some(Put(With(s, id, Of(s, id).(listed := Some(entry))), c, Registered(id)))
  }

  function SignalStep(s: Sys, c: ClientId, thenWait: bool): Option<Sys> {
    if c !in s.clients || !s.clients[c].Registered? then None
    else
      var id := s.clients[c].id;
      Some(Put(With(s, id, Of(s, id).(task := Some(Gated(true)))), c,
               if thenWait then Waiting(id, ForResult) else Submitted(id)))
  }

  /** The query's own task: gate, three-way select, notify and return; then its discard timer. */
  function TaskStep(id: QueryId, q: Query, move: TaskMove): Option<Query> {
    match move
    case Begin => if q.task == Some(Gated(true)) then Some(q.(task := Some(Executing))) else None
    case Select(outcome) =>
      if q.task != Some(Executing) || (outcome.WasCancelled? && !q.Cancelled()) then None
      else Some(q.(task := Some(Selected(FromOutcome(id, outcome)))))
    case Notify =>
      if q.task.None? || !q.task.value.Selected? then None
      else if q.listed.None? then Some(q.(task := Some(Orphaned)))
      else Some(q.(listed := Some(q.listed.value.(published := Some(q.task.value.res.status))),
                   task := Some(Notified(q.task.value.res)), discard := Some(Sleeping)))
    case Return =>
      if q.task.None? || !q.task.value.Notified? then None
      else Some(q.(task := Some(Returned(q.task.value.res))))
    case FireDiscard =>
      if q.discard != Some(Sleeping) then None
      else if q.listed.Some? then Some(q.TakeOut().(discard := Some(Took)))
      else Some(q.(discard := Some(Missed)))
    case DropSender => if q.taken.Some? then Some(q.(closed := true)) else None
  }

  /**
   * A client that waits for or aborts its query: what becomes of the client and of the query.
   * `changed` resolves on a new value and fails when the sender is gone without one.
   */
  function WaitStep(client: Client, q: Query, move: WaitMove): Option<(Client, Query)> {
    match client
    case Aborting(id) =>
      if move != CancelToken then None
      else if q.listed.None? then Some((Refused(NotRunning(id)), q))
      else Some((Waiting(id, ForAbort), q.(listed := Some(q.listed.value.(cancelled := true)))))
    case Waiting(id, purpose) =>
      if move != CloneReceiver then None
      else Some((if q.listed.Some? then Receiving(id, purpose) else Refused(NotRunning(id)), q))
    case Receiving(id, purpose) =>
      if move != Borrow then None
      else Some((if q.Published().Some? then Observed(id, purpose, q.Published().value) else Parked(id, purpose), q))
    case Parked(id, purpose) =>
      if move != Changed then None
      else if q.Published().Some? then Some((Receiving(id, purpose), q))
      else if q.closed then Some((Refused(StatusRecv(id)), q))
      else None
    case Observed(id, purpose, status) =>
      if move != Claim then None
      else if purpose == ForAbort then Some((Aborted(id, status), q))
      else if q.listed.Some? then Some((Holding(id, status), q.TakeOut()))
      else Some((Refused(NotRunning(id)), q))
    case Holding(id, _) =>
      if move == Join && q.task.Some? && q.task.value.Returned? then Some((Answered(id, q.task.value.res.result), q))
      else None
    case _ => None
  }

  /** The query a client is about; the id is irrelevant for clients about none. */
  function Subject(client: Client): QueryId {
    if client.Arrived? || client.Refused? then 0 else client.id
  }

  function ByTaskStep(s: Sys, id: QueryId, move: TaskMove): Option<Sys> {
    if id !in s.queries then None
    else
      var r := TaskStep(id, s.queries[id], move);
      if r.None? then None else Some(With(s, id, r.value))
  }

  function ByWaiterStep(s: Sys, c: ClientId, move: WaitMove): Option<Sys> {
    if c !in s.clients then None
    else
      var id := Subject(s.clients[c]);
      var r := WaitStep(s.clients[c], Of(s, id), move);
      if r.None? then None
      else if id in s.queries then Some(Put(With(s, id, r.value.1), c, r.value.0))
      else Some(Put(s, c, r.value.0))
  }

  /** One step, or None when it is not enabled. A query id is fresh when its context is built. */
  function Step(s: Sys, l: Label): Option<Sys> {
    match l
    case Arrive(c, request, retry) => if Free(s, c) then Some(Put(s, c, Arrived(request, retry))) else None
    case CallSubmit(c, id, requestOf) =>
      if Free(s, c) && id !in s.queries then Some(Put(With(s, id, BLANK), c, Calling(id, requestOf))) else None
    case CallWait(c, id) => if Free(s, c) then Some(Put(s, c, Waiting(id, ForResult))) else None
    case CallAbort(c, id) => if Free(s, c) then Some(Put(s, c, Aborting(id))) else None
    case Locate(c, id) => LocateStep(s, c, id)
    case CheckCount(c) => CheckStep(s, c)
    case IndexRequest(c) => IndexStep(s, c)
    case InsertEntry(c) => InsertStep(s, c)
    case SignalStart(c, thenWait) => SignalStep(s, c, thenWait)
    case ByTask(id, move) => ByTaskStep(s, id, move)
    case ByWaiter(c, move) => ByWaiterStep(s, c, move)
  }

  /** A run from s: every label enabled when it is taken. */
  function Run(s: Sys, ls: seq<Label>): Option<Sys> {
    if ls == [] then Some(s)
    else
      var before := Run(s, ls[..|ls| - 1]);
      if before.None? then None else Step(before.value, ls[|ls| - 1])
  }

  ghost predicate Reachable(s: Sys) {
    exists s0: Sys, ls: seq<Label> :: Init(s0) && Run(s0, ls) == Some(s)
  }

  // ------------------------------------------------------------------------- the invariant

  predicate TaskOk(id: QueryId, q: Query)
    requires q.task.Some?
  {
    match q.task.value
    case Gated(signalled) => q.taken.None? && q.Published() == None && (signalled ==> q.listed.Some?)
    case Executing => q.listed.Some? && q.Published() == None
    case Selected(res) => q.listed.Some? && q.Published() == None && Consistent(id, res)
    case Notified(res) => q.Published() == Some(res.status) && Consistent(id, res)
    case Returned(res) => q.Published() == Some(res.status) && Consistent(id, res)
    case Orphaned => false
  }

  /** What is known of a query in every reachable state. */
  predicate QueryOk(id: QueryId, q: Query) {
    && !(q.listed.Some? && q.taken.Some?)
    && (q.listed.Some? ==> q.listed.value.queryId == id)
    && (q.closed ==> q.taken.Some?)
    && (q.listed.Some? || q.taken.Some? ==> q.task.Some?)
    && (q.task.Some? ==> TaskOk(id, q))
    && (q.discard.Some? <==> q.task.Some? && (q.task.value.Notified? || q.task.value.Returned?))
    && (q.discard == Some(Took) ==> q.taken.Some?)
    && (q.taken.Some? ==> q.Published().Some?)
  }

  /** What is known of a client, from the query it is about. */
  predicate ClientOk(client: Client, q: Query) {
    match client
    case Calling(_, _) => q.task.None?
    case Admitted(_, _) => q.task == Some(Gated(false)) && q.listed.None?
    case Indexed(_, _) => q.task == Some(Gated(false)) && q.listed.None?
    case Registered(_) => q.task == Some(Gated(false)) && q.listed.Some?
    case Receiving(_, _) => q.listed.Some? || q.taken.Some?
    case Parked(_, _) => q.listed.Some? || q.taken.Some?
    case Observed(_, _, status) => q.Published() == Some(status)
    case Holding(_, status) => q.taken.Some? && q.Published() == Some(status)
    case Answered(_, result) =>
      q.taken.Some? && q.task.Some? && q.task.value.Returned? && q.task.value.res.result == result
    case Aborted(_, status) => q.Published() == Some(status)
    case Refused(why) => !why.StatusRecv?
    case _ => true
  }

  /** The id a client is submitting, until its task may run. */
  function SubmitId(client: Client): Option<QueryId> {
    match client
    case Calling(id, _) => Some(id)
    case Admitted(id, _) => Some(id)
    case Indexed(id, _) => Some(id)
    case Registered(id) => Some(id)
    case _ => None
  }

  /** The query whose result handle the client has taken. */
  function OwnedBy(client: Client): Option<QueryId> {
    match client
    case Holding(id, _) => Some(id)
    case Answered(id, _) => Some(id)
    case _ => None
  }

  predicate ClientOwns(s: Sys, c: ClientId, id: QueryId) {
    c in s.clients && OwnedBy(s.clients[c]) == Some(id)
  }

  predicate DiscardOwns(s: Sys, id: QueryId) { Of(s, id).discard == Some(Took) }

  ghost predicate SomeClientOwns(s: Sys, id: QueryId) {
    exists c :: ClientOwns(s, c, id)
  }

  ghost predicate QueriesOk(s: Sys) {
    forall id :: QueryOk(id, Of(s, id))
  }

  ghost predicate ClientsOk(s: Sys) {
    forall c :: c in s.clients ==>
      && ClientOk(s.clients[c], Of(s, Subject(s.clients[c])))
      && (SubmitId(s.clients[c]).Some? ==> SubmitId(s.clients[c]).value in s.queries)
  }

  /** No two clients submit under one id. */
  ghost predicate SubmittersDistinct(s: Sys) {
    forall c, d :: c in s.clients && d in s.clients && c != d && SubmitId(s.clients[c]).Some?
                   ==> SubmitId(s.clients[c]) != SubmitId(s.clients[d])
  }

  /** A result handle has at most one owner. */
  ghost predicate OwnersUnique(s: Sys) {
    && (forall c, d, id :: ClientOwns(s, c, id) && ClientOwns(s, d, id) ==> c == d)
    && (forall c, id :: ClientOwns(s, c, id) ==> !DiscardOwns(s, id))
  }

  /** The handle of an entry that was taken out has an owner. */
  ghost predicate TakenOwned(s: Sys) {
    forall id :: Of(s, id).taken.Some? ==> DiscardOwns(s, id) || SomeClientOwns(s, id)
  }

  ghost predicate Inv(s: Sys) {
    QueriesOk(s) && ClientsOk(s) && SubmittersDistinct(s) && OwnersUnique(s) && TakenOwned(s)
  }
}
