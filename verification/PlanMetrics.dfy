/** Flattening an execution plan into numbered entries with parent links, and rebuilding the plan from them. */
module PlanMetrics {
  import opened Common

  datatype Plan = Plan(name: string, metrics: int, children: seq<Plan>)

  datatype QueryMetric = QueryMetric(id: nat, parent: Option<nat>, name: string, metrics: int)

  // ------------------------------------------------------------------------------ flattening

  function Flatten(plan: Plan, parent: Option<nat>, start: nat): seq<QueryMetric>
    decreases plan, 0
  {
    [QueryMetric(start, parent, plan.name, plan.metrics)] + FlattenAll(plan.children, Some(start), start + 1)
  }

  function FlattenAll(plans: seq<Plan>, parent: Option<nat>, start: nat): seq<QueryMetric>
    decreases plans, |plans|
  {
    if plans == [] then []
    else
      var first := Flatten(plans[0], parent, start);
      first + FlattenAll(plans[1..], parent, start + |first|)
  }

  function Size(plan: Plan): nat
    decreases plan, 0
  {
    1 + SizeAll(plan.children)
  }

  function SizeAll(plans: seq<Plan>): nat
    decreases plans, |plans|
  {
    if plans == [] then 0 else Size(plans[0]) + SizeAll(plans[1..])
  }

  lemma Associative(a: seq<QueryMetric>, b: seq<QueryMetric>, c: seq<QueryMetric>)
    ensures a + (b + c) == a + b + c && |a + b| == |a| + |b|
  {
  }

  lemma {:induction false} FlattenSnoc(plans: seq<Plan>, last: Plan, parent: Option<nat>, start: nat)
    ensures
      var before := FlattenAll(plans, parent, start);
      FlattenAll(plans + [last], parent, start) == before + Flatten(last, parent, start + |before|)
  {
    if plans == [] {
      assert (plans + [last])[1..] == [];
    } else {
      var first := Flatten(plans[0], parent, start);
      assert (plans + [last])[0] == plans[0] && (plans + [last])[1..] == plans[1..] + [last];
      FlattenSnoc(plans[1..], last, parent, start + |first|);
      var before := FlattenAll(plans[1..], parent, start + |first|);
      Associative(first, before, Flatten(last, parent, start + |first| + |before|));
    }
  }

  /** The counter and the output list that the recursion shares. */
  class Collector {
    var counter: nat
    var out: seq<QueryMetric>

    constructor ()
      ensures counter == 0 && out == []
    {
      counter, out := 0, [];
    }

    method Collect(plan: Plan, parent: Option<nat>)
      modifies this
      ensures out == old(out) + Flatten(plan, parent, old(counter))
      ensures counter == old(counter) + |Flatten(plan, parent, old(counter))|
      decreases plan
    {
      var nodeId := counter;
      counter := counter + 1;
      out := out + [QueryMetric(nodeId, parent, plan.name, plan.metrics)];
      ghost var base := out;
      for i := 0 to |plan.children|
        invariant out == base + FlattenAll(plan.children[..i], Some(nodeId), nodeId + 1)
        invariant counter == nodeId + 1 + |FlattenAll(plan.children[..i], Some(nodeId), nodeId + 1)|
      {
        Collect(plan.children[i], Some(nodeId));
        FlattenSnoc(plan.children[..i], plan.children[i], Some(nodeId), nodeId + 1);
        assert plan.children[..i + 1] == plan.children[..i] + [plan.children[i]];
      }
      assert plan.children[..|plan.children|] == plan.children;
    }
  }

  // ---------------------------------------------------------------------- what the entries say

  /** The parent of an entry is the given one, or an entry between start and it. */
  predicate ParentIn(parent: Option<nat>, outer: Option<nat>, start: nat, id: nat) {
    parent == outer || (parent.Some? && start <= parent.value < id)
  }

  /** Entries are numbered in order, and only the first may have a parent outside. */
  predicate Numbered(entries: seq<QueryMetric>, outer: Option<nat>, start: nat) {
    forall i :: 0 <= i < |entries| ==>
      entries[i].id == start + i && ParentIn(entries[i].parent, outer, start, start + i)
  }

  lemma {:induction false} FlattenNumbered(plan: Plan, parent: Option<nat>, start: nat)
    ensures |Flatten(plan, parent, start)| == Size(plan) && Numbered(Flatten(plan, parent, start), parent, start)
    ensures forall i :: 1 <= i < Size(plan) ==>
              var p := Flatten(plan, parent, start)[i].parent;
              p.Some? && start <= p.value < start + i
    decreases plan, 0
  {
    FlattenAllNumbered(plan.children, start, start + 1);
    var rest := FlattenAll(plan.children, Some(start), start + 1);
    forall i | 1 <= i < Size(plan)
      ensures
        var e := Flatten(plan, parent, start)[i];
        e.id == start + i && e.parent.Some? && start <= e.parent.value < start + i
    {
      assert Flatten(plan, parent, start)[i] == rest[i - 1];
    }
  }

  lemma {:induction false} FlattenAllNumbered(plans: seq<Plan>, id: nat, start: nat)
    requires id < start
    ensures |FlattenAll(plans, Some(id), start)| == SizeAll(plans)
    ensures Numbered(FlattenAll(plans, Some(id), start), Some(id), start)
    decreases plans, |plans|
  {
    if plans != [] {
      FlattenNumbered(plans[0], Some(id), start);
      FlattenAllNumbered(plans[1..], id, start + Size(plans[0]));
      var first, rest := Flatten(plans[0], Some(id), start), FlattenAll(plans[1..], Some(id), start + Size(plans[0]));
      var all: seq<QueryMetric> := first + rest;
      forall i | 0 <= i < |all|
        ensures all[i].id == start + i && ParentIn(all[i].parent, Some(id), start, start + i)
      {
        if i >= |first| {
          assert all[i] == rest[i - |first|];
        }
      }
    }
  }

  // ------------------------------------------------------------------------------- rebuilding

  /** The plan an entry list describes at an entry: the entries that name it as parent, in order. */
  function Rebuild(entries: seq<QueryMetric>, id: nat): Plan
    requires id < |entries|
    decreases |entries| - id, 1, 0
  {
    Plan(entries[id].name, entries[id].metrics, ChildrenFrom(entries, id, id + 1))
  }

  function ChildrenFrom(entries: seq<QueryMetric>, id: nat, from: nat): seq<Plan>
    requires id < from <= |entries|
    decreases |entries| - id, 0, |entries| - from
  {
    if from == |entries| then []
    else if entries[from].parent == Some(id) then [Rebuild(entries, from)] + ChildrenFrom(entries, id, from + 1)
    else ChildrenFrom(entries, id, from + 1)
  }

  /** No entry in the range has that parent. */
  predicate Childless(entries: seq<QueryMetric>, id: nat, from: nat, to: nat)
    requires to <= |entries|
  {
    forall j :: from <= j < to ==> entries[j].parent != Some(id)
  }

  lemma {:induction false} SkipChildless(entries: seq<QueryMetric>, id: nat, from: nat, to: nat)
    requires id < from <= to <= |entries| && Childless(entries, id, from, to)
    ensures ChildrenFrom(entries, id, from) == ChildrenFrom(entries, id, to)
    decreases |entries| - from
  {
    if from < to {
      SkipChildless(entries, id, from + 1, to);
    }
  }

  /** The entries from `to` on have no parent in the range [from, to). */
  predicate Sealed(entries: seq<QueryMetric>, from: nat, to: nat) {
    forall j :: to <= j < |entries| && entries[j].parent.Some? ==> !(from <= entries[j].parent.value < to)
  }

  lemma {:induction false} RebuildSegment(entries: seq<QueryMetric>, plan: Plan, parent: Option<nat>, start: nat)
    requires start + Size(plan) <= |entries|
    requires entries[start..start + Size(plan)] == Flatten(plan, parent, start)
    requires Sealed(entries, start, start + Size(plan))
    ensures Rebuild(entries, start) == plan
    decreases plan, 0
  {
    FlattenNumbered(plan, parent, start);
    var end := start + Size(plan);
    FlattenAllNumbered(plan.children, start, start + 1);
    assert entries[start] == Flatten(plan, parent, start)[0];
    assert entries[start + 1..end] == entries[start..end][1..];
    assert Flatten(plan, parent, start)[1..] == FlattenAll(plan.children, Some(start), start + 1);
    RebuildChildren(entries, plan.children, start, start + 1);
  }

  lemma {:induction false} RebuildChildren(entries: seq<QueryMetric>, plans: seq<Plan>, id: nat, start: nat)
    requires id < start && start + SizeAll(plans) <= |entries|
    requires entries[start..start + SizeAll(plans)] == FlattenAll(plans, Some(id), start)
    requires Sealed(entries, start, start + SizeAll(plans)) && Childless(entries, id, start + SizeAll(plans), |entries|)
    ensures ChildrenFrom(entries, id, start) == plans
    decreases plans, |plans|
  {
    if plans == [] {
      SkipChildless(entries, id, start, |entries|);
    } else {
      var mid := start + Size(plans[0]);
      FirstSegment(entries, plans, id, start);
      TreeParents(entries, plans[0], id, start);
      ForestParents(entries, plans[1..], id, mid);
      RebuildSegment(entries, plans[0], Some(id), start);
      RebuildChildren(entries, plans[1..], id, mid);
      SkipChildless(entries, id, start + 1, mid);
      assert plans == [plans[0]] + plans[1..];
    }
  }

  lemma SplitSlice(entries: seq<QueryMetric>, a: nat, m: nat, b: nat, first: seq<QueryMetric>, rest: seq<QueryMetric>)
    requires a <= m <= b <= |entries| && entries[a..b] == first + rest && |first| == m - a
    ensures entries[a..m] == first && entries[m..b] == rest
    ensures forall j :: a <= j < m ==> entries[j] == first[j - a]
    ensures forall j :: m <= j < b ==> entries[j] == rest[j - m]
  {
    var whole := entries[a..b];
    assert entries[a..m] == whole[..|first|] == first;
    assert entries[m..b] == whole[|first|..] == rest;
    assert forall j :: a <= j < m ==> entries[a..m][j - a] == entries[j];
    assert forall j :: m <= j < b ==> entries[m..b][j - m] == entries[j];
  }

  /** A forest's entries split into its first tree's and the others'. */
  lemma FirstSegment(entries: seq<QueryMetric>, plans: seq<Plan>, id: nat, start: nat)
    requires plans != [] && id < start && start + SizeAll(plans) <= |entries|
    requires entries[start..start + SizeAll(plans)] == FlattenAll(plans, Some(id), start)
    ensures
      var (mid, end) := (start + Size(plans[0]), start + SizeAll(plans));
      && mid <= end
      && entries[start..mid] == Flatten(plans[0], Some(id), start)
      && entries[mid..end] == FlattenAll(plans[1..], Some(id), mid)
  {
    var (mid, end) := (start + Size(plans[0]), start + SizeAll(plans));
    FlattenNumbered(plans[0], Some(id), start);
    SplitSlice(entries, start, mid, end, Flatten(plans[0], Some(id), start), FlattenAll(plans[1..], Some(id), mid));
  }

  lemma TreeParents(entries: seq<QueryMetric>, plan: Plan, id: nat, start: nat)
    requires start + Size(plan) <= |entries| && entries[start..start + Size(plan)] == Flatten(plan, Some(id), start)
    ensures entries[start].parent == Some(id)
    ensures forall j :: start < j < start + Size(plan) ==>
              entries[j].parent.Some? && start <= entries[j].parent.value < j
  {
    FlattenNumbered(plan, Some(id), start);
    var tree := Flatten(plan, Some(id), start);
    assert entries[start] == tree[0];
    forall j | start < j < start + Size(plan)
      ensures entries[j].parent.Some? && start <= entries[j].parent.value < j
    {
      assert entries[j] == tree[j - start];
    }
  }

  lemma ForestParents(entries: seq<QueryMetric>, plans: seq<Plan>, id: nat, start: nat)
    requires id < start && start + SizeAll(plans) <= |entries|
    requires entries[start..start + SizeAll(plans)] == FlattenAll(plans, Some(id), start)
    ensures forall j :: start <= j < start + SizeAll(plans) ==> ParentIn(entries[j].parent, Some(id), start, j)
  {
    FlattenAllNumbered(plans, id, start);
    var forest := FlattenAll(plans, Some(id), start);
    forall j | start <= j < start + SizeAll(plans)
      ensures ParentIn(entries[j].parent, Some(id), start, j)
    {
      assert entries[j] == forest[j - start];
    }
  }

  /** Every plan is rebuilt, children in order, from the entries it was flattened to. */
  lemma FlattenedPlanIsRebuilt(plan: Plan)
    ensures |Flatten(plan, None, 0)| == Size(plan) && Rebuild(Flatten(plan, None, 0), 0) == plan
  {
    FlattenNumbered(plan, None, 0);
    var entries := Flatten(plan, None, 0);
    assert entries[0..Size(plan)] == entries;
    RebuildSegment(entries, plan, None, 0);
  }

  /** One entry per node, entry i numbered i, every parent numbered below its child; the list determines the plan. */
  method BuildPlanMetrics(plan: Plan) returns (entries: seq<QueryMetric>)
    ensures |entries| == Size(plan) && entries[0].parent == None
    ensures forall i :: 0 <= i < |entries| ==> entries[i].id == i
    ensures forall i :: 1 <= i < |entries| ==> entries[i].parent.Some? && entries[i].parent.value < i
    ensures Rebuild(entries, 0) == plan
  {
    var collector := new Collector();
    collector.Collect(plan, None);
    entries := collector.out;
    assert entries == Flatten(plan, None, 0);
    FlattenNumbered(plan, None, 0);
    FlattenedPlanIsRebuilt(plan);
  }
}
