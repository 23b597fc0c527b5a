/**
 * What a run of the query lifecycle did, read off its labels: where an answer comes from, what a
 * cancellation and a refusal mean, and how a request becomes a query.
 */
module QueryHistory {
  import opened Common
  import opened RunningQueries
  import opened QueryTaskResult
  import opened QueryLifecycle
  import opened QueryLifecycleProofs
  import opened QueryLifecycleTheorems

  /** The result a task has settled on, once it has. */
  function Settled(task: Option<Task>): Option<ExecutionTaskResult> {
    match task
    case Some(Selected(res)) => Some(res)
    case Some(Notified(res)) => Some(res)
    case Some(Returned(res)) => Some(res)
    case _ => None
  }

  // ----------------------------------------------------------------- where a result comes from

  ghost predicate SettledBy(ls: seq<Label>, id: QueryId, res: ExecutionTaskResult, outcome: Outcome) {
    ByTask(id, Select(outcome)) in ls && res == FromOutcome(id, outcome)
  }

  ghost predicate SettledInRun(ls: seq<Label>, id: QueryId, res: ExecutionTaskResult) {
    exists outcome :: SettledBy(ls, id, res, outcome)
  }

  lemma SettledByTask(id: QueryId, q: Query, move: TaskMove)
    requires QueryOk(id, q) && TaskStep(id, q, move).Some?
    ensures
      var settled, settled' := Settled(q.task), Settled(TaskStep(id, q, move).value.task);
      && (settled.Some? ==> settled' == settled)
      && (settled.None? && settled'.Some? ==> move.Select? && settled'.value == FromOutcome(id, move.outcome))
  {
  }

  /** No client settles a task. */
  lemma SettledByClient(s: Sys, l: Label, s': Sys, id: QueryId)
    requires Inv(s) && Step(s, l) == Some(s') && !l.ByTask?
    ensures Settled(Of(s', id).task) == Settled(Of(s, id).task)
  {
    if l.CheckCount? || l.InsertEntry? || l.SignalStart? {
      assert ClientOk(s.clients[l.c], Of(s, Subject(s.clients[l.c])));
    }
  }

  /** Only a select settles a task, and a settled task keeps its result. */
  lemma SettledByStep(s: Sys, l: Label, s': Sys, id: QueryId)
    requires Inv(s) && Step(s, l) == Some(s')
    ensures Settled(Of(s, id).task).Some? ==> Settled(Of(s', id).task) == Settled(Of(s, id).task)
    ensures Settled(Of(s, id).task).None? && Settled(Of(s', id).task).Some? ==>
              && l.ByTask? && l.id == id && l.task.Select?
              && Settled(Of(s', id).task).value == FromOutcome(id, l.task.outcome)
  {
    if !l.ByTask? {
      SettledByClient(s, l, s', id);
    } else if l.id == id {
      assert QueryOk(id, Of(s, id));
      SettledByTask(id, Of(s, id), l.task);
    }
  }

  /** A task's result is that of a select in the run. */
  lemma {:induction false} ResultWasSelected(s0: Sys, ls: seq<Label>, id: QueryId)
    requires Init(s0) && Run(s0, ls).Some? && Settled(Of(Run(s0, ls).value, id).task).Some?
    ensures SettledInRun(ls, id, Settled(Of(Run(s0, ls).value, id).task).value)
  {
    if ls != [] {
      var init, l := ls[..|ls| - 1], ls[|ls| - 1];
      var s, s' := Run(s0, init).value, Run(s0, ls).value;
      assert Reachable(s);
      ReachableInv(s);
      SettledByStep(s, l, s', id);
      if Settled(Of(s, id).task).Some? {
        ResultWasSelected(s0, init, id);
        var outcome :| SettledBy(init, id, Settled(Of(s, id).task).value, outcome);
        assert SettledBy(ls, id, Settled(Of(s', id).task).value, outcome);
      } else {
        assert SettledBy(ls, id, Settled(Of(s', id).task).value, l.task.outcome);
      }
    }
  }

  /** A select is taken on a task that has not settled, and settles it. */
  lemma SelectAt(s0: Sys, ls: seq<Label>, n: nat, id: QueryId, outcome: Outcome)
    requires Run(s0, ls).Some? && n < |ls| && ls[n] == ByTask(id, Select(outcome))
    ensures Run(s0, ls[..n]).Some? && Settled(Of(Run(s0, ls[..n]).value, id).task).None?
    ensures Run(s0, ls[..n + 1]).Some? && Settled(Of(Run(s0, ls[..n + 1]).value, id).task).Some?
  {
    RunPrefix(s0, ls, n + 1);
    assert ls[..n + 1][..n] == ls[..n];
  }

  /** A query is settled at most once in a run. */
  lemma SelectedOnce(s0: Sys, ls: seq<Label>, i: nat, j: nat, id: QueryId, a: Outcome, b: Outcome)
    requires Init(s0) && Run(s0, ls).Some? && i < j < |ls|
    ensures !(ls[i] == ByTask(id, Select(a)) && ls[j] == ByTask(id, Select(b)))
  {
    if ls[i] == ByTask(id, Select(a)) && ls[j] == ByTask(id, Select(b)) {
      SelectAt(s0, ls, i, id, a);
      StaysSettled(s0, ls, i + 1, j, id);
      SelectAt(s0, ls, j, id, b);
    }
  }

  lemma {:induction false} RunPrefix(s0: Sys, ls: seq<Label>, n: nat)
    requires Run(s0, ls).Some? && n <= |ls|
    ensures Run(s0, ls[..n]).Some?
  {
    if n == |ls| {
      assert ls[..n] == ls;
    } else {
      RunPrefix(s0, ls[..|ls| - 1], n);
      assert ls[..|ls| - 1][..n] == ls[..n];
    }
  }

  lemma {:induction false} StaysSettled(s0: Sys, ls: seq<Label>, i: nat, j: nat, id: QueryId)
    requires Init(s0) && Run(s0, ls).Some? && i <= j <= |ls|
    requires Run(s0, ls[..i]).Some? && Settled(Of(Run(s0, ls[..i]).value, id).task).Some?
    ensures Run(s0, ls[..j]).Some? && Settled(Of(Run(s0, ls[..j]).value, id).task).Some?
  {
    RunPrefix(s0, ls, j);
    if i < j {
      StaysSettled(s0, ls, i, j - 1, id);
      assert ls[..j][..j - 1] == ls[..j - 1];
      assert Reachable(Run(s0, ls[..j - 1]).value);
      ReachableInv(Run(s0, ls[..j - 1]).value);
      SettledByStep(Run(s0, ls[..j - 1]).value, ls[j - 1], Run(s0, ls[..j]).value, id);
    }
  }

  /** An answer is the query's own outcome: its value, or the error of the way it ended. */
  lemma AnswerIsOwnOutcome(s0: Sys, ls: seq<Label>, s: Sys, c: ClientId)
    requires Init(s0) && Run(s0, ls) == Some(s) && c in s.clients && s.clients[c].Answered?
    ensures
      var (id, r) := (s.clients[c].id, s.clients[c].result);
      match r
      case Ok(v) => ByTask(id, Select(Finished(Ok(v)))) in ls
      case Err(QueryExecution(x, cause)) =>
        && x == id && cause != ConcurrencyLimit
        && (forall e :: cause == ExecutionFailed(e) ==> ByTask(id, Select(Finished(Err(e)))) in ls)
        && (cause == SubtaskJoin ==> ByTask(id, Select(JoinFailed)) in ls)
        && (cause == QueryCancelled ==> ByTask(id, Select(WasCancelled)) in ls)
        && (cause == QueryTimeout ==> ByTask(id, Select(TimedOut)) in ls)
  {
    var id := s.clients[c].id;
    assert Reachable(s);
    AnswerMatchesStatus(s, c);
    ResultWasSelected(s0, ls, id);
    var res := Settled(Of(s, id).task).value;
    var outcome :| SettledBy(ls, id, res, outcome);
    assert res.result == s.clients[c].result;
  }

  // ------------------------------------------------------------------ what a client asked for

  /** The call a label starts, and the client as it starts. */
  function Started(l: Label): Option<(ClientId, Client)> {
    match l
    case Arrive(c, request, retry) => Some((c, Arrived(request, retry)))
    case CallSubmit(c, id, requestOf) => Some((c, Calling(id, requestOf)))
    case CallWait(c, id) => Some((c, Waiting(id, ForResult)))
    case CallAbort(c, id) => Some((c, Aborting(id)))
    case _ => None
  }

  predicate About(client: Client, id: QueryId) {
    !client.Arrived? && !client.Refused? && client.id == id
  }

  predicate Aborts(client: Client) {
    || client.Aborting? || client.Aborted?
    || ((client.Waiting? || client.Receiving? || client.Parked? || client.Observed?) && client.purpose == ForAbort)
  }

  /** While it submits, the client carries this request. */
  predicate Carries(client: Client, requestOf: Option<RequestId>) {
    client.Calling? || client.Admitted? || client.Indexed? ==> client.requestOf == requestOf
  }

  /** What a client that started as one may be later: about its own query, for its own purpose, or refused. */
  predicate Continues(start: Client, now: Client) {
    || now == start || now.Refused?
    || match start
       case Arrived(request, _) => !now.Arrived? && !Aborts(now) && Carries(now, Some(request))
       case Calling(id, requestOf) => About(now, id) && !Aborts(now) && Carries(now, requestOf)
       case Waiting(id, ForResult) => About(now, id) && !Aborts(now) && !Submits(now)
       case Aborting(id) => About(now, id) && Aborts(now)
       case _ => false
  }

  lemma ContinuesWaiting(call: Label, client: Client, q: Query, move: WaitMove)
    requires Started(call).Some? && Continues(Started(call).value.1, client) && WaitStep(client, q, move).Some?
    ensures Continues(Started(call).value.1, WaitStep(client, q, move).value.0)
  {
  }

  lemma ContinuesSubmitting(call: Label, s: Sys, l: Label, s': Sys, c: ClientId)
    requires Started(call).Some? && Step(s, l) == Some(s') && !l.ByWaiter?
    requires c in s.clients && Continues(Started(call).value.1, s.clients[c])
    ensures c in s'.clients && Continues(Started(call).value.1, s'.clients[c])
  {
  }

  lemma ContinuesOn(call: Label, s: Sys, l: Label, s': Sys, c: ClientId)
    requires Started(call).Some? && Step(s, l) == Some(s')
    requires c in s.clients && Continues(Started(call).value.1, s.clients[c])
    ensures c in s'.clients && Continues(Started(call).value.1, s'.clients[c])
  {
    if !l.ByWaiter? {
      ContinuesSubmitting(call, s, l, s', c);
    } else if l.c == c {
      ContinuesWaiting(call, s.clients[c], Of(s, Subject(s.clients[c])), l.wait);
    }
  }

  lemma Starts(s: Sys, l: Label, s': Sys, c: ClientId)
    requires Step(s, l) == Some(s') && c !in s.clients && c in s'.clients
    ensures Started(l) == Some((c, s'.clients[c]))
  {
  }

  /** Every client is where a call of its own in the run can have brought it. */
  lemma {:induction false} ClientFollowsCall(s0: Sys, ls: seq<Label>, c: ClientId) returns (l: Label)
    requires Init(s0) && Run(s0, ls).Some? && c in Run(s0, ls).value.clients
    ensures l in ls && Started(l).Some? && Started(l).value.0 == c
    ensures Continues(Started(l).value.1, Run(s0, ls).value.clients[c])
  {
    var init, last := ls[..|ls| - 1], ls[|ls| - 1];
    var s, s' := Run(s0, init).value, Run(s0, ls).value;
    if c in s.clients {
      l := ClientFollowsCall(s0, init, c);
      ContinuesOn(l, s, last, s', c);
    } else {
      l := last;
      Starts(s, last, s', c);
    }
  }

  // ------------------------------------------------------------------- what a cancellation means

  ghost predicate AbortedBy(ls: seq<Label>, id: QueryId, c: ClientId) {
    CallAbort(c, id) in ls && ByWaiter(c, CancelToken) in ls
  }

  ghost predicate AbortCalled(ls: seq<Label>, id: QueryId) {
    exists c :: AbortedBy(ls, id, c)
  }

  lemma AbortingWasCalled(s0: Sys, ls: seq<Label>, c: ClientId)
    requires Init(s0) && Run(s0, ls).Some? && c in Run(s0, ls).value.clients && Run(s0, ls).value.clients[c].Aborting?
    ensures CallAbort(c, Run(s0, ls).value.clients[c].id) in ls
  {
    var l := ClientFollowsCall(s0, ls, c);
  }

  lemma CancelledByStep(s: Sys, l: Label, s': Sys, id: QueryId)
    requires Inv(s) && Step(s, l) == Some(s') && Of(s', id).Cancelled()
    ensures Of(s, id).Cancelled()
            || (l.ByWaiter? && l.wait == CancelToken && l.c in s.clients && s.clients[l.c] == Aborting(id))
  {
    assert QueryOk(id, Of(s, id));
  }

  lemma {:induction false} CancelledWasAborted(s0: Sys, ls: seq<Label>, id: QueryId)
    requires Init(s0) && Run(s0, ls).Some? && Of(Run(s0, ls).value, id).Cancelled()
    ensures AbortCalled(ls, id)
  {
    if ls != [] {
      var init, l := ls[..|ls| - 1], ls[|ls| - 1];
      var s, s' := Run(s0, init).value, Run(s0, ls).value;
      assert Reachable(s);
      ReachableInv(s);
      CancelledByStep(s, l, s', id);
      if Of(s, id).Cancelled() {
        CancelledWasAborted(s0, init, id);
        var c :| AbortedBy(init, id, c);
        assert AbortedBy(ls, id, c);
      } else {
        AbortingWasCalled(s0, init, l.c);
        assert AbortedBy(ls, id, l.c);
      }
    }
  }

  /** No query ends as cancelled unless a client called abort for it, and its token was cancelled, before. */
  lemma CancelledOnlyAfterAbort(s0: Sys, ls: seq<Label>, n: nat, id: QueryId)
    requires Init(s0) && Run(s0, ls).Some? && n < |ls| && ls[n] == ByTask(id, Select(WasCancelled))
    ensures AbortCalled(ls[..n], id)
  {
    RunPrefix(s0, ls, n + 1);
    assert ls[..n + 1][..n] == ls[..n];
    CancelledWasAborted(s0, ls[..n], id);
  }

  // ------------------------------------------------------------------ what a refusal means

  /** "Not running" names the query asked for, and is said exactly of queries that are not registered. */
  lemma NotRunningIff(s: Sys, c: ClientId, move: WaitMove, s': Sys)
    requires c in s.clients && Step(s, ByWaiter(c, move)) == Some(s')
    requires s.clients[c].Aborting? || s.clients[c].Waiting?
             || (s.clients[c].Observed? && s.clients[c].purpose == ForResult)
    ensures (s'.clients[c].Refused? <==> s.clients[c].id !in RegistryOf(s).queries)
    ensures s'.clients[c].Refused? ==> s'.clients[c].why == NotRunning(s.clients[c].id) && s'.queries == s.queries
    ensures !s'.clients[c].Refused? ==> s'.clients[c].id == s.clients[c].id
  {
  }

  // ----------------------------------------------------------- how a request becomes a query

  /** A request that is no retry, or whose id was never indexed, submits a query of its own under a new id. */
  lemma FreshRequestSubmits(s: Sys, c: ClientId, id: QueryId, s': Sys)
    requires c in s.clients && s.clients[c].Arrived? && Step(s, Locate(c, id)) == Some(s')
    ensures !s.clients[c].retry || s.clients[c].request !in s.requests ==>
              id !in s.queries && id in s'.queries && s'.clients[c] == Calling(id, Some(s.clients[c].request))
    ensures SubmitId(s'.clients[c]).Some? <==> !s.clients[c].retry || s.clients[c].request !in s.requests
  {
  }

  /** An admitted submission runs to a registered, started query found under its id and its request. */
  lemma AdmittedIsRegistered(s: Sys, c: ClientId, id: QueryId, request: RequestId, thenWait: bool)
    requires c in s.clients && s.clients[c] == Admitted(id, Some(request))
    ensures
      var r := Run(s, [IndexRequest(c), InsertEntry(c), SignalStart(c, thenWait)]);
      && r.Some? && Of(r.value, id).task == Some(Gated(true))
      && Located(RegistryOf(r.value), request) == Some(id)
      && Find(RegistryOf(r.value), id) == Some(RunningQuery(id, Some(request), None, false))
      && r.value.clients[c] == (if thenWait then Waiting(id, ForResult) else Submitted(id))
  {
    var indexed := Step(s, IndexRequest(c)).value;
    var inserted := Step(indexed, InsertEntry(c)).value;
    RunThree(s, IndexRequest(c), InsertEntry(c), SignalStart(c, thenWait), indexed, inserted);
  }

  lemma RunThree(s: Sys, a: Label, b: Label, c: Label, one: Sys, two: Sys)
    requires Step(s, a) == Some(one) && Step(one, b) == Some(two)
    ensures Run(s, [a, b, c]) == Step(two, c)
  {
    assert [a, b, c][..2] == [a, b] && [a, b][..1] == [a] && [a][..0] == [];
    assert Run(s, [a]) == Some(one);
    assert Run(s, [a, b]) == Some(two);
  }
}
