/** What every run of the query lifecycle keeps. */
module QueryLifecycleProofs {
  import opened Common
  import opened RunningQueries
  import opened QueryTaskResult
  import opened QueryLifecycle

  // ---------------------------------------------------- one query and one client at a time

  /** The result handle of a query moves at most once: out of the registry to whoever takes it. */
  predicate Handover(id: QueryId, q: Query, q': Query, before: Option<QueryId>, after: Option<QueryId>) {
    && (q.taken.Some? ==> q'.taken.Some?)
    && (q.discard == Some(Took) ==> q'.discard == Some(Took))
    && (before.Some? ==> after == before)
    && (after != before ==> after == Some(id) && q.taken.None? && q'.discard != Some(Took))
    && (q'.discard == Some(Took) && q.discard != Some(Took) ==> q.taken.None?)
    && (q'.taken.Some? && q.taken.None? ==> after != before || q'.discard == Some(Took))
  }

  /** The task's own steps keep what is known of its query and of every client about it. */
  lemma TaskStepKeeps(id: QueryId, q: Query, move: TaskMove)
    requires QueryOk(id, q) && TaskStep(id, q, move).Some?
    ensures
      var q' := TaskStep(id, q, move).value;
      && QueryOk(id, q') && Handover(id, q, q', None, None)
      && forall client :: ClientOk(client, q) ==> ClientOk(client, q')
  {
  }

  /** A waiter's step keeps what is known of its query, of itself and of every bystander. */
  lemma WaitStepKeeps(id: QueryId, q: Query, client: Client, move: WaitMove)
    requires QueryOk(id, q) && ClientOk(client, q) && WaitStep(client, q, move).Some? && Subject(client) == id
    ensures
      var (client', q') := WaitStep(client, q, move).value;
      && QueryOk(id, q') && ClientOk(client', q') && Handover(id, q, q', OwnedBy(client), OwnedBy(client'))
      && (client'.Refused? || Subject(client') == id) && SubmitId(client') == None
      && (forall other :: ClientOk(other, q) ==> ClientOk(other, q'))
      && (q == BLANK ==> q' == BLANK)
  {
  }

  // ------------------------------------------------------- a local change keeps the whole system

  /** The clients after client c, if any, is replaced. */
  function Replaced(s: Sys, who: Option<(ClientId, Client)>): map<ClientId, Client> {
    if who.Some? then s.clients[who.value.0 := who.value.1] else s.clients
  }

  function OwnerBefore(s: Sys, who: Option<(ClientId, Client)>): Option<QueryId> {
    if who.Some? && who.value.0 in s.clients then OwnedBy(s.clients[who.value.0]) else None
  }

  function OwnerAfter(who: Option<(ClientId, Client)>): Option<QueryId> {
    if who.Some? then OwnedBy(who.value.1) else None
  }

  /** One query goes from its present state to q', and at most one client moves. */
  ghost predicate LocalChange(s: Sys, s': Sys, id: QueryId, q': Query, who: Option<(ClientId, Client)>) {
    && (s'.queries == s.queries[id := q'] || (s'.queries == s.queries && q' == Of(s, id)))
    && s'.clients == Replaced(s, who)
    && QueryOk(id, q')
    && Handover(id, Of(s, id), q', OwnerBefore(s, who), OwnerAfter(who))
    && (forall d :: d in s.clients && Subject(s.clients[d]) == id && !(who.Some? && d == who.value.0)
                    ==> ClientOk(s.clients[d], q'))
    && (who.Some? ==>
          var (c, client) := who.value;
          && ClientOk(client, Of(s', Subject(client)))
          && (SubmitId(client).Some? ==>
                && SubmitId(client) == Some(id) && id in s'.queries
                && ((c in s.clients && SubmitId(s.clients[c]) == Some(id)) || id !in s.queries)))
  }

  lemma ChangedClients(s: Sys, s': Sys, id: QueryId, q': Query, who: Option<(ClientId, Client)>)
    requires ClientsOk(s) && LocalChange(s, s', id, q', who)
    ensures ClientsOk(s')
  {
    forall c | c in s'.clients
      ensures ClientOk(s'.clients[c], Of(s', Subject(s'.clients[c])))
      ensures SubmitId(s'.clients[c]).Some? ==> SubmitId(s'.clients[c]).value in s'.queries
    {
      if !(who.Some? && c == who.value.0) {
        assert s'.clients[c] == s.clients[c];
        if Subject(s.clients[c]) != id {
          assert Of(s', Subject(s.clients[c])) == Of(s, Subject(s.clients[c]));
        }
      }
    }
  }

  lemma ChangedOwners(s: Sys, s': Sys, id: QueryId, q': Query, who: Option<(ClientId, Client)>)
    requires ClientsOk(s) && QueriesOk(s) && OwnersUnique(s) && LocalChange(s, s', id, q', who)
    ensures OwnersUnique(s')
  {
    forall c, x | ClientOwns(s', c, x)
      ensures
        || ClientOwns(s, c, x)
        || (who.Some? && c == who.value.0 && x == id && Of(s, id).taken.None? && q'.discard != Some(Took))
    {
    }
    forall c | ClientOwns(s, c, id)
      ensures Of(s, id).taken.Some?
    {
      assert ClientOk(s.clients[c], Of(s, Subject(s.clients[c])));
    }
    forall c, x | ClientOwns(s', c, x)
      ensures !DiscardOwns(s', x)
    {
      if x != id { assert Of(s', x) == Of(s, x); }
    }
  }

  lemma ChangedTaken(s: Sys, s': Sys, id: QueryId, q': Query, who: Option<(ClientId, Client)>)
    requires ClientsOk(s) && TakenOwned(s) && LocalChange(s, s', id, q', who)
    ensures TakenOwned(s')
  {
    forall x | Of(s', x).taken.Some?
      ensures DiscardOwns(s', x) || SomeClientOwns(s', x)
    {
      if x == id && Of(s, id).taken.None? {
        if q'.discard != Some(Took) {
          assert ClientOwns(s', who.value.0, id);
        }
      } else {
        if x != id { assert Of(s', x) == Of(s, x); }
        if !DiscardOwns(s, x) {
          var c :| ClientOwns(s, c, x);
          assert ClientOwns(s', c, x);
        }
      }
    }
  }

  lemma LocalChangeKeepsInv(s: Sys, s': Sys, id: QueryId, q': Query, who: Option<(ClientId, Client)>)
    requires Inv(s) && LocalChange(s, s', id, q', who)
    ensures Inv(s')
  {
    forall x
      ensures QueryOk(x, Of(s', x))
    {
      assert QueryOk(x, Of(s, x));
    }
    ChangedClients(s, s', id, q', who);
    ChangedOwners(s, s', id, q', who);
    ChangedTaken(s, s', id, q', who);
  }

  // ------------------------------------------------------------------ every step keeps the invariant

  lemma ByTaskKeeps(s: Sys, id: QueryId, move: TaskMove, s': Sys)
    requires Inv(s) && ByTaskStep(s, id, move) == Some(s')
    ensures Inv(s')
  {
    assert QueryOk(id, Of(s, id));
    TaskStepKeeps(id, s.queries[id], move);
    LocalChangeKeepsInv(s, s', id, TaskStep(id, s.queries[id], move).value, None);
  }

  lemma ByWaiterKeeps(s: Sys, c: ClientId, move: WaitMove, s': Sys)
    requires Inv(s) && ByWaiterStep(s, c, move) == Some(s')
    ensures Inv(s')
  {
    var client := s.clients[c];
    var id := Subject(client);
    assert QueryOk(id, Of(s, id));
    WaitStepKeeps(id, Of(s, id), client, move);
    var (client', q') := WaitStep(client, Of(s, id), move).value;
    assert ClientOk(client', Of(s', Subject(client')));
    LocalChangeKeepsInv(s, s', id, q', Some((c, client')));
  }

  lemma CallKeeps(s: Sys, l: Label, s': Sys)
    requires Inv(s) && (l.Arrive? || l.CallSubmit? || l.CallWait? || l.CallAbort?) && Step(s, l) == Some(s')
    ensures Inv(s')
  {
    var id := if l.Arrive? then 0 else l.id;
    assert QueryOk(id, Of(s, id));
    LocalChangeKeepsInv(s, s', id, Of(s, id), Some((l.c, s'.clients[l.c])));
  }

  lemma LocateKeeps(s: Sys, c: ClientId, id: QueryId, s': Sys)
    requires Inv(s) && LocateStep(s, c, id) == Some(s')
    ensures Inv(s')
  {
    assert QueryOk(id, Of(s, id));
    LocalChangeKeepsInv(s, s', id, Of(s, id), Some((c, s'.clients[c])));
  }

  lemma SubmitKeeps(s: Sys, l: Label, s': Sys)
    requires Inv(s) && (l.CheckCount? || l.IndexRequest? || l.InsertEntry? || l.SignalStart?) && Step(s, l) == Some(s')
    ensures Inv(s')
  {
    var c := l.c;
    var id := s.clients[c].id;
    assert QueryOk(id, Of(s, id)) && ClientOk(s.clients[c], Of(s, id));
    assert SubmitId(s.clients[c]) == Some(id);
    LocalChangeKeepsInv(s, s', id, Of(s', id), Some((c, s'.clients[c])));
  }

  lemma StepKeepsInv(s: Sys, l: Label, s': Sys)
    requires Inv(s) && Step(s, l) == Some(s')
    ensures Inv(s')
  {
    match l
    case Locate(c, id) => LocateKeeps(s, c, id, s');
    case ByTask(id, move) => ByTaskKeeps(s, id, move, s');
    case ByWaiter(c, move) => ByWaiterKeeps(s, c, move, s');
    case CheckCount(_) => SubmitKeeps(s, l, s');
    case IndexRequest(_) => SubmitKeeps(s, l, s');
    case InsertEntry(_) => SubmitKeeps(s, l, s');
    case SignalStart(_, _) => SubmitKeeps(s, l, s');
    case _ => CallKeeps(s, l, s');
  }

  lemma {:induction false} RunKeepsInv(s: Sys, ls: seq<Label>)
    requires Inv(s) && Run(s, ls).Some?
    ensures Inv(Run(s, ls).value)
  {
    if ls != [] {
      RunKeepsInv(s, ls[..|ls| - 1]);
      StepKeepsInv(Run(s, ls[..|ls| - 1]).value, ls[|ls| - 1], Run(s, ls).value);
    }
  }

  lemma ReachableInv(s: Sys)
    requires Reachable(s)
    ensures Inv(s)
  {
    var s0: Sys, ls: seq<Label> :| Init(s0) && Run(s0, ls) == Some(s);
    assert Inv(s0);
    RunKeepsInv(s0, ls);
  }
}
