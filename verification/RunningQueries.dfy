/**
 * The registry of running queries: two shared maps, one by query id and one from request id to
 * query id. `Registry` is its value; the class updates the maps in place.
 */
module RunningQueries {
  import opened Common

  type QueryId = int
  type RequestId = int

  datatype Status = Running | Success | Fail | Incident

  /**
   * An entry owns the sender of a watch channel, whose latest value is `published`, the handle of
   * the query's task, and its cancellation token.
   */
  datatype RunningQuery = RunningQuery(
    queryId: QueryId, requestId: Option<RequestId>, published: Option<Status>, cancelled: bool)

  datatype RunningQueryId = ByQueryId(id: QueryId) | ByRequestId(request: RequestId)

  datatype RegistryError = QueryIsntRunning(id: QueryId) | QueryByRequestIdIsntRunning(request: RequestId)

  datatype Registry = Registry(queries: map<QueryId, RunningQuery>, requests: map<RequestId, QueryId>) {
    function Index(q: RunningQuery): Registry {
      if q.requestId.Some? then this.(requests := requests[q.requestId.value := q.queryId]) else this
    }

    function Insert(q: RunningQuery): Registry {
      this.(queries := queries[q.queryId := q])
    }

    function Remove(id: QueryId): Registry {
      this.(queries := queries - {id})
    }

    function Cancel(id: QueryId): Registry
      requires id in queries
    {
      this.(queries := queries[id := queries[id].(cancelled := true)])
    }

    function Publish(id: QueryId, status: Status): Registry
      requires id in queries
    {
      this.(queries := queries[id := queries[id].(published := Some(status))])
    }
  }

  /** The entry of a query, as a reader of the registry finds it. */
  function Find(r: Registry, id: QueryId): Option<RunningQuery> {
    if id in r.queries then Some(r.queries[id]) else None
  }

  /** The query a request id leads to. */
  function Located(r: Registry, request: RequestId): Option<QueryId> {
    if request in r.requests then Some(r.requests[request]) else None
  }

  /** An added query is found with its own entry and through its own request id; nothing else changes. */
  lemma AddedIsFound(r: Registry, q: RunningQuery, id: QueryId, request: RequestId)
    ensures Find(r.Index(q).Insert(q), id) == if id == q.queryId then Some(q) else Find(r, id)
    ensures Located(r.Index(q).Insert(q), request)
            == if q.requestId == Some(request) then Some(q.queryId) else Located(r, request)
  {
  }

  /** A removed query is gone and leaves its request id behind; nothing else changes. */
  lemma RemovedIsGone(r: Registry, gone: QueryId, id: QueryId, request: RequestId)
    ensures Find(r.Remove(gone), id) == if id == gone then None else Find(r, id)
    ensures Located(r.Remove(gone), request) == Located(r, request)
  {
  }

  /** Cancelling and publishing each change one part of one entry. */
  lemma EntryChanged(r: Registry, hit: QueryId, status: Status, id: QueryId, request: RequestId)
    requires hit in r.queries
    ensures
      var q := r.queries[hit];
      && Find(r.Cancel(hit), hit) == Some(RunningQuery(q.queryId, q.requestId, q.published, true))
      && Find(r.Publish(hit, status), hit) == Some(RunningQuery(q.queryId, q.requestId, Some(status), q.cancelled))
    ensures id != hit ==> Find(r.Cancel(hit), id) == Find(r.Publish(hit, status), id) == Find(r, id)
    ensures Located(r.Cancel(hit), request) == Located(r.Publish(hit, status), request) == Located(r, request)
  {
  }

  class RunningQueriesRegistry {
    var queries: map<QueryId, RunningQuery>
    var requests: map<RequestId, QueryId>

    function View(): Registry
      reads this
    {
      Registry(queries, requests)
    }

    constructor ()
      ensures View() == Registry(map[], map[])
    {
      queries, requests := map[], map[];
    }

    /** Indexes the request id first, then inserts the entry; other threads may run in between. */
    method Add(q: RunningQuery)
      modifies this
      ensures View() == old(View()).Index(q).Insert(q)
    {
      if q.requestId.Some? {
        requests := requests[q.requestId.value := q.queryId];
      }
      queries := queries[q.queryId := q];
    }

    method Remove(id: QueryId) returns (r: Result<RunningQuery, RegistryError>)
      modifies this
      ensures View() == old(View()).Remove(id)
      ensures r == if id in old(queries) then Ok(old(queries)[id]) else Err(QueryIsntRunning(id))
    {
      if id !in queries {
        assert queries - {id} == queries;
        return Err(QueryIsntRunning(id));
      }
      r := Ok(queries[id]);
      queries := queries - {id};
    }

    method Abort(id: QueryId) returns (r: Result<(), RegistryError>)
      modifies this
      ensures r == if id in old(queries) then Ok(()) else Err(QueryIsntRunning(id))
      ensures View() == if id in old(queries) then old(View()).Cancel(id) else old(View())
    {
      if id !in queries {
        return Err(QueryIsntRunning(id));
      }
      queries := queries[id := queries[id].(cancelled := true)];
      r := Ok(());
    }

    method NotifyQueryFinished(id: QueryId, status: Status) returns (r: Result<(), RegistryError>)
      modifies this
      ensures r == if id in old(queries) then Ok(()) else Err(QueryIsntRunning(id))
      ensures View() == if id in old(queries) then old(View()).Publish(id, status) else old(View())
    {
      if id !in queries {
        return Err(QueryIsntRunning(id));
      }
      queries := queries[id := queries[id].(published := Some(status))];
      r := Ok(());
    }

    /** A query id locates itself whether or not it runs; a request id must have been indexed. */
    method LocateQueryId(key: RunningQueryId) returns (r: Result<QueryId, RegistryError>)
      ensures key.ByQueryId? ==> r == Ok(key.id)
      ensures key.ByRequestId? ==>
                r == if key.request in requests then Ok(requests[key.request])
                     else Err(QueryByRequestIdIsntRunning(key.request))
    {
      match key {
        case ByQueryId(id) => r := Ok(id);
        case ByRequestId(request) =>
          if request in requests {
            r := Ok(requests[request]);
          } else {
            r := Err(QueryByRequestIdIsntRunning(request));
          }
      }
    }
  }
}
