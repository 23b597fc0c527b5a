/** Safety of the query lifecycle over whole runs, in the service's own terms. */
module QueryLifecycleTheorems {
  import opened Common
  import opened RunningQueries
  import opened QueryTaskResult
  import opened QueryLifecycle
  import opened QueryLifecycleProofs

  // ------------------------------------------------ what each step does to the shared registry

  /** The registry method, or half of `add`, that a step runs. */
  datatype Call =
    | NoCall
    | AddIndex(entry: RunningQuery)
    | AddInsert(entry: RunningQuery)
    | CallAbortOf(id: QueryId)
    | CallNotify(id: QueryId, status: Status)
    | CallRemove(id: QueryId)

  function CallOf(s: Sys, l: Label): Call {
    match l
    case IndexRequest(c) =>
      if c in s.clients && s.clients[c].Admitted? then
        AddIndex(RunningQuery(s.clients[c].id, s.clients[c].requestOf, None, false))
      else NoCall
    case InsertEntry(c) =>
      if c in s.clients && s.clients[c].Indexed? then
        AddInsert(RunningQuery(s.clients[c].id, s.clients[c].requestOf, None, false))
      else NoCall
    case ByTask(id, Notify) =>
      if Of(s, id).task.Some? && Of(s, id).task.value.Selected? then CallNotify(id, Of(s, id).task.value.res.status)
      else NoCall
    case ByTask(id, FireDiscard) => CallRemove(id)
    case ByWaiter(c, CancelToken) =>
      if c in s.clients && s.clients[c].Aborting? then CallAbortOf(s.clients[c].id) else NoCall
    case ByWaiter(c, Claim) =>
      if c in s.clients && s.clients[c].Observed? && s.clients[c].purpose == ForResult then CallRemove(s.clients[c].id)
      else NoCall
    case _ => NoCall
  }

  /** What the registry's methods promise of such a call. */
  function Perform(r: Registry, call: Call): Registry {
    match call
    case NoCall => r
    case AddIndex(entry) => r.Index(entry)
    case AddInsert(entry) => r.Insert(entry)
    case CallAbortOf(id) => if id in r.queries then r.Cancel(id) else r
    case CallNotify(id, status) => if id in r.queries then r.Publish(id, status) else r
    case CallRemove(id) => r.Remove(id)
  }

  lemma RequestsAfter(s: Sys, l: Label, s': Sys)
    requires Step(s, l) == Some(s')
    ensures Perform(RegistryOf(s), CallOf(s, l)).requests == s'.requests
  {
  }

  lemma EntriesAfter(s: Sys, l: Label, s': Sys, entries: map<QueryId, RunningQuery>)
    requires Inv(s) && Step(s, l) == Some(s') && entries == Perform(RegistryOf(s), CallOf(s, l)).queries
    ensures entries == map id | id in Ids(s') :: s'.queries[id].listed.value
  {
    forall id
      ensures id in entries <==> id in Ids(s')
      ensures id in entries ==> entries[id] == s'.queries[id].listed.value
    {
      EntryAfter(s, l, s', id);
    }
  }

  /** Every step changes the registry by exactly the registry call it makes. */
  lemma StepIsRegistryCall(s: Sys, l: Label, s': Sys)
    requires Reachable(s) && Step(s, l) == Some(s')
    ensures RegistryOf(s') == Perform(RegistryOf(s), CallOf(s, l))
  {
    ReachableInv(s);
    RequestsAfter(s, l, s');
    EntriesAfter(s, l, s', Perform(RegistryOf(s), CallOf(s, l)).queries);
  }

  lemma EntryAfter(s: Sys, l: Label, s': Sys, id: QueryId)
    requires Inv(s) && Step(s, l) == Some(s')
    ensures id in Perform(RegistryOf(s), CallOf(s, l)).queries <==> Of(s', id).listed.Some?
    ensures Of(s', id).listed.Some? ==> Perform(RegistryOf(s), CallOf(s, l)).queries[id] == Of(s', id).listed.value
  {
    assert QueryOk(id, Of(s, id));
    if l.ByTask? {
      EntryAfterTask(s, l.id, l.task, s', id);
    } else if l.ByWaiter? {
      EntryAfterWaiter(s, l.c, l.wait, s', id);
    }
  }

  lemma EntryAfterTask(s: Sys, x: QueryId, move: TaskMove, s': Sys, id: QueryId)
    requires Inv(s) && Step(s, ByTask(x, move)) == Some(s')
    ensures id in Perform(RegistryOf(s), CallOf(s, ByTask(x, move))).queries <==> Of(s', id).listed.Some?
    ensures Of(s', id).listed.Some? ==>
              Perform(RegistryOf(s), CallOf(s, ByTask(x, move))).queries[id] == Of(s', id).listed.value
  {
    assert QueryOk(x, Of(s, x));
  }

  lemma EntryAfterWaiter(s: Sys, c: ClientId, move: WaitMove, s': Sys, id: QueryId)
    requires Inv(s) && Step(s, ByWaiter(c, move)) == Some(s')
    ensures id in Perform(RegistryOf(s), CallOf(s, ByWaiter(c, move))).queries <==> Of(s', id).listed.Some?
    ensures Of(s', id).listed.Some? ==>
              Perform(RegistryOf(s), CallOf(s, ByWaiter(c, move))).queries[id] == Of(s', id).listed.value
  {
    assert ClientOk(s.clients[c], Of(s, Subject(s.clients[c])));
  }

  // -------------------------------------------------------- publication, notification and waiting

  /** A query leaves the registry only after its terminal status was published. */
  lemma LeavesOnlyAfterPublishing(s: Sys, l: Label, s': Sys, id: QueryId)
    requires Reachable(s) && Step(s, l) == Some(s')
    requires id in RegistryOf(s).queries && id !in RegistryOf(s').queries
    ensures Of(s, id).Published().Some? && Of(s, id).Published().value != Running
    ensures Of(s', id).Published() == Of(s, id).Published()
  {
    ReachableInv(s);
    assert QueryOk(id, Of(s, id));
    assert Of(s, id).listed.Some? && Of(s', id).listed.None?;
    if l.ByTask? {
      assert l.id == id;
    } else {
      assert l.ByWaiter?;
      assert ClientOk(s.clients[l.c], Of(s, id));
    }
  }

  /** A task that is about to notify finds its entry, so its own result is never lost. */
  lemma NotifyFindsEntry(s: Sys, id: QueryId, s': Sys)
    requires Reachable(s) && Step(s, ByTask(id, Notify)) == Some(s')
    ensures id in RegistryOf(s).queries
    ensures Of(s', id).task == Some(Notified(Of(s, id).task.value.res))
    ensures Of(s', id).Published() == Some(Of(s, id).task.value.res.status)
  {
    ReachableInv(s);
    assert QueryOk(id, Of(s, id));
  }

  /** The published status is the one the query's task settled on, and never changes. */
  lemma PublishedIsFinal(s: Sys, ls: seq<Label>, id: QueryId)
    requires Reachable(s) && Run(s, ls).Some? && Of(s, id).Published().Some?
    ensures Of(Run(s, ls).value, id).Published() == Of(s, id).Published()
  {
    ReachableInv(s);
    PublishedKept(s, ls, id);
  }

  lemma {:induction false} PublishedKept(s: Sys, ls: seq<Label>, id: QueryId)
    requires Inv(s) && Run(s, ls).Some? && Of(s, id).Published().Some?
    ensures Of(Run(s, ls).value, id).Published() == Of(s, id).Published()
  {
    if ls != [] {
      var init := ls[..|ls| - 1];
      PublishedKept(s, init, id);
      RunKeepsInv(s, init);
      PublishedKeptByStep(Run(s, init).value, ls[|ls| - 1], Run(s, ls).value, id);
    }
  }

  lemma PublishedKeptByStep(s: Sys, l: Label, s': Sys, id: QueryId)
    requires Inv(s) && Step(s, l) == Some(s') && Of(s, id).Published().Some?
    ensures Of(s', id).Published() == Of(s, id).Published()
  {
    assert QueryOk(id, Of(s, id));
    if l.InsertEntry? {
      assert ClientOk(s.clients[l.c], Of(s, Subject(s.clients[l.c])));
    }
  }

  /** A waiter never sees a receive error, and what it observes is the task's own final status. */
  lemma WaiterSeesFinalStatus(s: Sys, c: ClientId)
    requires Reachable(s) && c in s.clients
    ensures !(s.clients[c].Refused? && s.clients[c].why.StatusRecv?)
    ensures s.clients[c].Observed? ==>
              var q := Of(s, s.clients[c].id);
              q.task.Some? && (q.task.value.Notified? || q.task.value.Returned?)
              && q.task.value.res.status == s.clients[c].status
  {
    ReachableInv(s);
    assert ClientOk(s.clients[c], Of(s, Subject(s.clients[c])));
    assert QueryOk(Subject(s.clients[c]), Of(s, Subject(s.clients[c])));
  }

  /** A parked waiter wakes up exactly when the status is published, and then can read it. */
  lemma ParkedWakesToStatus(s: Sys, c: ClientId)
    requires Reachable(s) && c in s.clients && s.clients[c].Parked?
    ensures Step(s, ByWaiter(c, Changed)).Some? <==> Of(s, s.clients[c].id).Published().Some?
    ensures Step(s, ByWaiter(c, Changed)).Some? ==> Step(s, ByWaiter(c, Changed)).value.clients[c].Receiving?
  {
    ReachableInv(s);
    assert QueryOk(s.clients[c].id, Of(s, s.clients[c].id));
  }

  // ------------------------------------------------------------------------------ the result handle

  /** A registered query's result handle is in exactly one place. */
  lemma HandleInOnePlace(s: Sys, id: QueryId)
    requires Reachable(s) && (Of(s, id).listed.Some? || Of(s, id).taken.Some?)
    ensures (id in RegistryOf(s).queries) || DiscardOwns(s, id) || SomeClientOwns(s, id)
    ensures !((id in RegistryOf(s).queries) && DiscardOwns(s, id))
    ensures forall c :: ClientOwns(s, c, id) ==> id !in RegistryOf(s).queries && !DiscardOwns(s, id)
    ensures forall c, d :: ClientOwns(s, c, id) && ClientOwns(s, d, id) ==> c == d
  {
    ReachableInv(s);
    assert QueryOk(id, Of(s, id));
    if id in s.queries && s.queries[id].listed.Some? {
      assert id in Ids(s);
    }
    forall c | ClientOwns(s, c, id)
      ensures id !in RegistryOf(s).queries
    {
      assert ClientOk(s.clients[c], Of(s, Subject(s.clients[c])));
    }
  }

  /** An answer is Ok exactly when Success was published; an error names the query it belongs to. */
  lemma AnswerMatchesStatus(s: Sys, c: ClientId)
    requires Reachable(s) && c in s.clients && s.clients[c].Answered?
    ensures
      var (id, r) := (s.clients[c].id, s.clients[c].result);
      && (r.Ok? <==> Of(s, id).Published() == Some(Success))
      && (r.Err? ==> r.error.queryId == id)
      && Of(s, id).task.Some? && Of(s, id).task.value.Returned? && Of(s, id).task.value.res.result == r
  {
    ReachableInv(s);
    var id := s.clients[c].id;
    assert ClientOk(s.clients[c], Of(s, id));
    assert QueryOk(id, Of(s, id));
  }

  // --------------------------------------------------------------------------- retried requests

  predicate Submits(client: Client) { SubmitId(client).Some? || client.Submitted? }

  /** The client waits for, or got an answer about, query id; or it was refused. */
  predicate Follows(client: Client, id: QueryId) {
    || client.Refused?
    || ((client.Waiting? || client.Receiving? || client.Parked? || client.Observed?)
        && client.id == id && client.purpose == ForResult)
    || ((client.Holding? || client.Answered?) && client.id == id)
  }

  /** A request id that was indexed stays indexed. */
  lemma {:induction false} IndexedStaysIndexed(s: Sys, ls: seq<Label>, request: RequestId)
    requires Run(s, ls).Some? && request in s.requests
    ensures request in Run(s, ls).value.requests
  {
    if ls != [] {
      IndexedStaysIndexed(s, ls[..|ls| - 1], request);
    }
  }

  /** After k labels the request was looked up, and the client has followed that query since. */
  ghost predicate LocatedAt(s: Sys, ls: seq<Label>, c: ClientId, request: RequestId, k: nat) {
    && k < |ls| && Run(s, ls).Some? && Run(s, ls[..k]).Some?
    && request in Run(s, ls[..k]).value.requests && c in Run(s, ls).value.clients
    && Follows(Run(s, ls).value.clients[c], Run(s, ls[..k]).value.requests[request])
  }

  ghost predicate LocatedDuring(s: Sys, ls: seq<Label>, c: ClientId, request: RequestId) {
    exists k :: LocatedAt(s, ls, c, request, k)
  }

  /**
   * From the moment a request id is indexed, a request with that id and a positive retry count
   * never submits: it follows the query that was the latest one indexed under its id when it
   * looked, or is refused.
   */
  lemma {:induction false} RetryNeverSubmits(s: Sys, ls: seq<Label>, c: ClientId, request: RequestId)
    requires Run(s, ls).Some? && request in s.requests
    requires c in s.clients && s.clients[c] == Arrived(request, true)
    ensures c in Run(s, ls).value.clients && !Submits(Run(s, ls).value.clients[c])
    ensures Run(s, ls).value.clients[c] == Arrived(request, true) || LocatedDuring(s, ls, c, request)
  {
    if ls != [] {
      var init, l := ls[..|ls| - 1], ls[|ls| - 1];
      RetryNeverSubmits(s, init, c, request);
      IndexedStaysIndexed(s, init, request);
      var before, after := Run(s, init).value, Run(s, ls).value;
      if before.clients[c] == Arrived(request, true) {
        ArrivedRetry(before, l, after, c, request);
        if l.Locate? && l.c == c {
          assert LocatedAt(s, ls, c, request, |init|);
        }
      } else {
        var k: nat :| LocatedAt(s, init, c, request, k);
        assert ls[..k] == init[..k];
        FollowsOn(before, l, after, c, Run(s, init[..k]).value.requests[request]);
        assert LocatedAt(s, ls, c, request, k);
      }
    }
  }

  lemma ArrivedRetry(s: Sys, l: Label, s': Sys, c: ClientId, request: RequestId)
    requires Step(s, l) == Some(s') && request in s.requests && c in s.clients && s.clients[c] == Arrived(request, true)
    ensures c in s'.clients
    ensures s'.clients[c] == if l.Locate? && l.c == c then Waiting(s.requests[request], ForResult) else s.clients[c]
  {
  }

  lemma FollowsOn(s: Sys, l: Label, s': Sys, c: ClientId, id: QueryId)
    requires Step(s, l) == Some(s') && c in s.clients && Follows(s.clients[c], id)
    ensures c in s'.clients && Follows(s'.clients[c], id) && !Submits(s'.clients[c])
  {
  }
}
