/** From every reachable state, whoever waits for or aborts a started query can be brought to an end. */
module QueryProgress {
  import opened Common
  import opened RunningQueries
  import opened QueryTaskResult
  import opened QueryLifecycle
  import opened QueryLifecycleProofs

  /** The query's task has been allowed past its gate. */
  predicate Signalled(q: Query) { q.task.Some? && q.task.value != Gated(false) }

  /** The client is on its way to a result or to the end of an abort. */
  predicate Awaits(client: Client) {
    client.Aborting? || client.Waiting? || client.Receiving? || client.Parked? || client.Observed? || client.Holding?
  }

  /** The client got the result, finished its abort, or was told that the query is not running. */
  predicate Done(client: Client) {
    client.Answered? || client.Aborted? || (client.Refused? && client.why.NotRunning?)
  }

  lemma RunSnoc(s: Sys, ls: seq<Label>, mid: Sys, l: Label)
    requires Run(s, ls) == Some(mid)
    ensures Run(s, ls + [l]) == Step(mid, l)
  {
    assert (ls + [l])[..|ls|] == ls;
  }

  // ------------------------------------------------------------------------- the task comes to its end

  function TaskRank(q: Query): nat {
    if !Signalled(q) then 0
    else match q.task.value
      case Gated(_) => 4
      case Executing => 3
      case Selected(_) => 2
      case Notified(_) => 1
      case Returned(_) => 0
      case Orphaned => 0
  }

  /** The move a started task makes next, letting the query time out. */
  function NextMove(q: Query): TaskMove {
    if !Signalled(q) then Begin
    else match q.task.value
      case Gated(_) => Begin
      case Executing => Select(TimedOut)
      case Selected(_) => Notify
      case _ => Return
  }

  lemma TaskMoves(s: Sys, id: QueryId)
    requires Inv(s) && Signalled(Of(s, id)) && !Of(s, id).task.value.Returned?
    ensures
      var s' := Step(s, ByTask(id, NextMove(Of(s, id))));
      && s'.Some? && s'.value.clients == s.clients && Signalled(Of(s'.value, id))
      && TaskRank(Of(s'.value, id)) < TaskRank(Of(s, id))
  {
    assert QueryOk(id, Of(s, id));
  }

  /** A started task can return, without any client moving. */
  lemma {:induction false} TaskCanReturn(s0: Sys, ls: seq<Label>, s: Sys, id: QueryId)
      returns (ls': seq<Label>, s': Sys)
    requires Inv(s0) && Run(s0, ls) == Some(s) && Signalled(Of(s, id))
    ensures Run(s0, ls') == Some(s') && s'.clients == s.clients
    ensures Of(s', id).task.Some? && Of(s', id).task.value.Returned?
    decreases TaskRank(Of(s, id))
  {
    if Of(s, id).task.value.Returned? {
      ls', s' := ls, s;
    } else {
      RunKeepsInv(s0, ls);
      TaskMoves(s, id);
      var l := ByTask(id, NextMove(Of(s, id)));
      RunSnoc(s0, ls, s, l);
      ls', s' := TaskCanReturn(s0, ls + [l], Step(s, l).value, id);
    }
  }

  // ----------------------------------------------------------------------- the client comes to its end

  function ClientRank(client: Client): nat {
    match client
    case Aborting(_) => 6
    case Waiting(_, _) => 5
    case Parked(_, _) => 4
    case Receiving(_, _) => 3
    case Observed(_, _, _) => 2
    case Holding(_, _) => 1
    case _ => 0
  }

  function NextWait(client: Client): WaitMove {
    match client
    case Aborting(_) => CancelToken
    case Waiting(_, _) => CloneReceiver
    case Parked(_, _) => Changed
    case Receiving(_, _) => Borrow
    case Observed(_, _, _) => Claim
    case _ => Join
  }

  predicate Ended(q: Query) { q.task.Some? && q.task.value.Returned? }

  /** With the task at its end every waiting client has a next step that brings it closer. */
  lemma ClientMoves(client: Client, q: Query)
    requires QueryOk(Subject(client), q) && ClientOk(client, q) && Awaits(client) && Ended(q)
    ensures
      var r := WaitStep(client, q, NextWait(client));
      && r.Some? && Ended(r.value.1)
      && (Done(r.value.0) ||
          (Awaits(r.value.0) && Subject(r.value.0) == Subject(client) && ClientRank(r.value.0) < ClientRank(client)))
  {
  }

  lemma ClientSteps(s: Sys, c: ClientId)
    requires Inv(s) && c in s.clients && Awaits(s.clients[c]) && Ended(Of(s, s.clients[c].id))
    ensures
      var s' := Step(s, ByWaiter(c, NextWait(s.clients[c])));
      && s'.Some? && c in s'.value.clients
      && (Done(s'.value.clients[c]) ||
          (Awaits(s'.value.clients[c]) && Ended(Of(s'.value, s'.value.clients[c].id))
           && ClientRank(s'.value.clients[c]) < ClientRank(s.clients[c])))
  {
    var id := s.clients[c].id;
    assert QueryOk(id, Of(s, id)) && ClientOk(s.clients[c], Of(s, id));
    ClientMoves(s.clients[c], Of(s, id));
  }

  lemma {:induction false} ClientCanEnd(s0: Sys, ls: seq<Label>, s: Sys, c: ClientId) returns (ls': seq<Label>)
    requires Inv(s0) && Run(s0, ls) == Some(s) && c in s.clients && Awaits(s.clients[c])
    requires Ended(Of(s, s.clients[c].id))
    ensures Run(s0, ls').Some? && c in Run(s0, ls').value.clients && Done(Run(s0, ls').value.clients[c])
    decreases ClientRank(s.clients[c])
  {
    RunKeepsInv(s0, ls);
    ClientSteps(s, c);
    var l := ByWaiter(c, NextWait(s.clients[c]));
    RunSnoc(s0, ls, s, l);
    ls' := ls + [l];
    var s' := Step(s, l).value;
    if !Done(s'.clients[c]) {
      ls' := ClientCanEnd(s0, ls', s', c);
    }
  }

  /**
   * From every reachable state a client that waits for or aborts a started query has a continuation
   * to its answer, its finished abort or the news that the query is not running.
   */
  lemma WaiterCanEnd(s: Sys, c: ClientId) returns (ls: seq<Label>)
    requires Reachable(s) && c in s.clients && Awaits(s.clients[c]) && Signalled(Of(s, s.clients[c].id))
    ensures Run(s, ls).Some? && c in Run(s, ls).value.clients && Done(Run(s, ls).value.clients[c])
  {
    ReachableInv(s);
    var before, mid := TaskCanReturn(s, [], s, s.clients[c].id);
    ls := ClientCanEnd(s, before, mid, c);
  }
}
