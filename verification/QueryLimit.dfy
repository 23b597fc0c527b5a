/** How far the count check and the registry insert, being two steps, let the concurrency limit be exceeded. */
module QueryLimit {
  import opened Common
  import opened RunningQueries
  import opened QueryTaskResult
  import opened QueryLifecycle

  /** Clients between the count check and the registry insert. */
  function InFlight(s: Sys): set<ClientId> {
    set c | c in s.clients && (s.clients[c].Admitted? || s.clients[c].Indexed?)
  }

  /** Registered queries and admitted ones not yet registered. */
  function Load(s: Sys): nat { |Ids(s)| + |InFlight(s)| }

  lemma RegistrySize(s: Sys)
    ensures |RegistryOf(s).queries| == |Ids(s)|
  {
    assert RegistryOf(s).queries.Keys == Ids(s);
  }

  lemma CheckLoad(s: Sys, c: ClientId, s': Sys)
    requires CheckStep(s, c) == Some(s')
    ensures Ids(s') == Ids(s)
    ensures InFlight(s') == InFlight(s)
            || (InFlight(s') == InFlight(s) + {c} && c !in InFlight(s) && |Ids(s)| < s.limit)
  {
    RegistrySize(s);
    assert Ids(s') == Ids(s);
    if s'.clients[c].Admitted? {
      assert InFlight(s') == InFlight(s) + {c};
    } else {
      assert InFlight(s') == InFlight(s);
    }
  }

  lemma InsertLoad(s: Sys, c: ClientId, s': Sys)
    requires InsertStep(s, c) == Some(s')
    ensures c in InFlight(s) && InFlight(s') == InFlight(s) - {c}
    ensures Ids(s') == Ids(s) + {s.clients[c].id}
  {
  }

  lemma OtherLoad(s: Sys, l: Label, s': Sys)
    requires Step(s, l) == Some(s') && !l.CheckCount? && !l.InsertEntry?
    ensures Load(s') <= Load(s)
  {
    assert Ids(s') <= Ids(s);
    SubsetSize(Ids(s'), Ids(s));
    assert InFlight(s') == InFlight(s);
  }

  lemma SubsetSize<A>(a: set<A>, b: set<A>)
    requires a <= b
    ensures |a| <= |b|
  {
    assert b == a + (b - a);
  }

  lemma AddSize<A>(a: set<A>, x: A)
    ensures |a + {x}| <= |a| + 1
  {
    if x in a {
      assert a + {x} == a;
    }
  }

  /** Only the count check raises the load, by one, and only below the limit. */
  lemma LoadStep(s: Sys, l: Label, s': Sys)
    requires Step(s, l) == Some(s')
    ensures Load(s') <= Load(s) || (|Ids(s')| < s.limit && Load(s') == Load(s) + 1)
  {
    if l.CheckCount? {
      CheckLoad(s, l.c, s');
    } else if l.InsertEntry? {
      InsertLoad(s, l.c, s');
      AddSize(Ids(s), s.clients[l.c].id);
    } else {
      OtherLoad(s, l, s');
    }
  }

  lemma LimitFixed(s: Sys, l: Label, s': Sys)
    requires Step(s, l) == Some(s')
    ensures s'.limit == s.limit
  {
  }

  ghost predicate AtMostInFlight(s: Sys, ls: seq<Label>, k: nat) {
    forall n :: 0 <= n <= |ls| && Run(s, ls[..n]).Some? ==> |InFlight(Run(s, ls[..n]).value)| <= k
  }

  /**
   * With at most k submitters between check and insert, the registered and the admitted queries
   * together never exceed limit - 1 + k; with submissions one at a time, never the limit.
   */
  lemma {:induction false} ConcurrencyBound(s: Sys, ls: seq<Label>, k: nat)
    requires Init(s) && Run(s, ls).Some? && k >= 1 && AtMostInFlight(s, ls, k)
    ensures Run(s, ls).value.limit == s.limit
    ensures |RegistryOf(Run(s, ls).value).queries| + |InFlight(Run(s, ls).value)| <= s.limit - 1 + k
  {
    RegistrySize(Run(s, ls).value);
    if ls == [] {
      assert Ids(s) == {} && InFlight(s) == {};
    } else {
      var init := ls[..|ls| - 1];
      assert forall n :: 0 <= n <= |init| ==> init[..n] == ls[..n];
      ConcurrencyBound(s, init, k);
      RegistrySize(Run(s, init).value);
      LimitFixed(Run(s, init).value, ls[|ls| - 1], Run(s, ls).value);
      LoadStep(Run(s, init).value, ls[|ls| - 1], Run(s, ls).value);
      assert ls[..|ls|] == ls;
    }
  }

  // -------------------------------------------------------- the bound is reached, for every limit

  function Start(limit: nat): Sys { Sys(limit, map[], map[], map[]) }

  const GATED := BLANK.(task := Some(Gated(false)))

  /** Clients and queries from `next` on are unused; every submitter in flight has just been admitted. */
  ghost predicate Staged(s: Sys, next: int) {
    && (forall c :: c in s.clients ==> c < next)
    && (forall id :: id in s.queries ==> id < next)
    && (forall c :: c in InFlight(s) ==> s.clients[c] == Admitted(c, None) && Of(s, c) == GATED)
  }

  function Called(s: Sys, c: ClientId): Sys { Put(With(s, c, BLANK), c, Calling(c, None)) }

  function Passed(s: Sys, c: ClientId): Sys { Put(With(Called(s, c), c, GATED), c, Admitted(c, None)) }

  /** A fresh submitter calls. */
  lemma CallsIn(s: Sys, next: int)
    requires Staged(s, next)
    ensures Step(s, CallSubmit(next, next, None)) == Some(Called(s, next))
    ensures Ids(Called(s, next)) == Ids(s) && InFlight(Called(s, next)) == InFlight(s)
  {
  }

  /** It passes the count check while the registry is below the limit. */
  lemma PassesCheck(s: Sys, next: int)
    requires Staged(s, next) && |Ids(s)| < s.limit
    ensures Step(Called(s, next), CheckCount(next)) == Some(Passed(s, next))
    ensures Ids(Passed(s, next)) == Ids(s) && InFlight(Passed(s, next)) == InFlight(s) + {next} && next !in InFlight(s)
    ensures Staged(Passed(s, next), next + 1)
  {
    CallsIn(s, next);
    RegistrySize(Called(s, next));
    CheckLoad(Called(s, next), next, Passed(s, next));
    StagedPassed(s, next);
  }

  lemma StagedPassed(s: Sys, next: int)
    requires Staged(s, next)
    ensures Staged(Passed(s, next), next + 1)
  {
    forall c | c in InFlight(Passed(s, next))
      ensures Passed(s, next).clients[c] == Admitted(c, None) && Of(Passed(s, next), c) == GATED
    {
      assert c == next || c in InFlight(s);
    }
  }

  function Entered(s: Sys, c: ClientId): Sys {
    Put(With(s, c, GATED.(listed := Some(RunningQuery(c, None, None, false)))), c, Registered(c))
  }

  /** A submitter in flight indexes its request. */
  lemma Indexes(s: Sys, next: int, c: ClientId)
    requires Staged(s, next) && c in InFlight(s)
    ensures Step(s, IndexRequest(c)) == Some(Put(s, c, Indexed(c, None)))
    ensures Ids(Put(s, c, Indexed(c, None))) == Ids(s) && InFlight(Put(s, c, Indexed(c, None))) == InFlight(s)
  {
  }

  /** It inserts its entry. */
  lemma Enters(s: Sys, next: int, c: ClientId)
    requires Staged(s, next) && c in InFlight(s)
    ensures Step(Put(s, c, Indexed(c, None)), InsertEntry(c)) == Some(Entered(Put(s, c, Indexed(c, None)), c))
    ensures
      var end := Entered(Put(s, c, Indexed(c, None)), c);
      && Ids(end) == Ids(s) + {c} && c !in Ids(s) && InFlight(end) == InFlight(s) - {c}
      && Staged(end, next) && end.limit == s.limit
  {
    Indexes(s, next, c);
    InsertLoad(Put(s, c, Indexed(c, None)), c, Entered(Put(s, c, Indexed(c, None)), c));
  }

  lemma AtMostSnoc(s: Sys, ls: seq<Label>, mid: Sys, l: Label, end: Sys, k: nat)
    requires AtMostInFlight(s, ls, k) && Run(s, ls) == Some(mid) && Step(mid, l) == Some(end) && |InFlight(end)| <= k
    ensures Run(s, ls + [l]) == Some(end) && AtMostInFlight(s, ls + [l], k)
  {
    assert (ls + [l])[..|ls|] == ls;
    forall n | 0 <= n <= |ls| + 1 && Run(s, (ls + [l])[..n]).Some?
      ensures |InFlight(Run(s, (ls + [l])[..n]).value)| <= k
    {
      if n <= |ls| {
        assert (ls + [l])[..n] == ls[..n];
      } else {
        assert (ls + [l])[..n] == ls + [l];
      }
    }
  }

  /** A run of s0 to s with at most k in flight, `registered` entries and `admitted` submitters in flight. */
  ghost predicate Reaches(s0: Sys, ls: seq<Label>, k: nat, s: Sys, registered: nat, admitted: nat, next: int) {
    && Run(s0, ls) == Some(s) && AtMostInFlight(s0, ls, k) && s.limit == s0.limit
    && Staged(s, next) && |Ids(s)| == registered && |InFlight(s)| == admitted
  }

  lemma AdmitOne(s0: Sys, ls: seq<Label>, k: nat, s: Sys, registered: nat, admitted: nat, next: int)
      returns (ls': seq<Label>)
    requires Reaches(s0, ls, k, s, registered, admitted, next) && registered < s0.limit && admitted < k
    ensures Reaches(s0, ls', k, Passed(s, next), registered, admitted + 1, next + 1)
  {
    CallsIn(s, next);
    PassesCheck(s, next);
    AtMostSnoc(s0, ls, s, CallSubmit(next, next, None), Called(s, next), k);
    ls' := ls + [CallSubmit(next, next, None)];
    AtMostSnoc(s0, ls', Called(s, next), CheckCount(next), Passed(s, next), k);
    ls' := ls' + [CheckCount(next)];
  }

  lemma EnterOne(s0: Sys, ls: seq<Label>, k: nat, s: Sys, registered: nat, admitted: nat, next: int)
      returns (ls': seq<Label>, s': Sys)
    requires Reaches(s0, ls, k, s, registered, admitted, next) && admitted > 0
    ensures Reaches(s0, ls', k, s', registered + 1, admitted - 1, next)
  {
    var c := AnyOf(InFlight(s));
    var mid := Put(s, c, Indexed(c, None));
    s' := Entered(mid, c);
    assert ls[..|ls|] == ls;
    Indexes(s, next, c);
    Enters(s, next, c);
    AtMostSnoc(s0, ls, s, IndexRequest(c), mid, k);
    ls' := ls + [IndexRequest(c)];
    AtMostSnoc(s0, ls', mid, InsertEntry(c), s', k);
    ls' := ls' + [InsertEntry(c)];
  }

  /** Every count within the bound is reached by a run with at most k submitters in flight. */
  lemma {:induction false} BoundReached(limit: nat, k: nat, registered: nat, admitted: nat)
      returns (ls: seq<Label>, s: Sys, next: int)
    requires limit >= 1 && k >= 1 && admitted <= k && (registered < limit || registered + admitted <= limit - 1 + k)
    ensures Reaches(Start(limit), ls, k, s, registered, admitted, next)
    decreases 2 * registered + admitted
  {
    if registered + admitted == 0 {
      ls, s, next := [], Start(limit), 0;
      assert Ids(s) == {} && InFlight(s) == {};
    } else if admitted > 0 && registered < limit {
      ls, s, next := BoundReached(limit, k, registered, admitted - 1);
      ls := AdmitOne(Start(limit), ls, k, s, registered, admitted - 1, next);
      s, next := Passed(s, next), next + 1;
    } else {
      ls, s, next := BoundReached(limit, k, registered - 1, admitted + 1);
      ls, s := EnterOne(Start(limit), ls, k, s, registered - 1, admitted + 1, next);
    }
  }

  ghost predicate Exceeds(limit: nat, ls: seq<Label>) {
    Run(Start(limit), ls).Some? && |RegistryOf(Run(Start(limit), ls).value).queries| > limit
  }

  /**
   * A positive limit is kept by every run with at most k submitters between check and insert
   * exactly when k is one: two are enough to exceed it.
   */
  lemma LimitKeptIffOneAtATime(limit: nat, k: nat)
    requires limit >= 1 && k >= 1
    ensures (forall ls :: AtMostInFlight(Start(limit), ls, k) ==> !Exceeds(limit, ls)) <==> k == 1
  {
    if k == 1 {
      forall ls | AtMostInFlight(Start(limit), ls, k)
        ensures !Exceeds(limit, ls)
      {
        if Run(Start(limit), ls).Some? {
          ConcurrencyBound(Start(limit), ls, k);
        }
      }
    } else {
      var ls, s, _ := BoundReached(limit, k, limit - 1 + k, 0);
      RegistrySize(s);
      assert Exceeds(limit, ls);
    }
  }
}
