/**
 * When the object store cached for a stored volume is that volume's own. A lookup that missed the
 * cache and then read the volume writes what it read, whatever has happened to the volume since.
 */
module MetastoreStale {
  import opened Common
  import opened MetastoreLock

  /** The cached store is the stored volume's own, or its writer is about to make it so. */
  predicate FreshAt(s: Sys, name: Name)
    requires name in s.volumes
  {
    (name in s.cache && s.cache[name] == s.volumes[name]) || BeingCached(s, name)
  }

  ghost predicate Fresh(s: Sys) {
    forall name :: name in s.volumes ==> FreshAt(s, name)
  }

  /** A thread between reading a volume and caching what it read, when that is no longer the volume's store. */
  predicate StaleReader(s: Sys, t: ThreadId) {
    var thread := At(s, t);
    && thread.ReadDone? && thread.found.Some? && thread.name in s.volumes
    && s.volumes[thread.name] != thread.found.value && !BeingCached(s, thread.name)
  }

  predicate StaleFill(s: Sys, l: Label) { l.Advance? && l.choice && StaleReader(s, l.t) }

  // ------------------------------------------------------------------------- one step, exactly

  /** A writer between map and cache has stored what it is about to cache. */
  ghost predicate WritersOk(s: Sys) {
    forall t :: WriterOk(s, t)
  }

  predicate WriterOk(s: Sys, t: ThreadId) {
    At(s, t).PutStored? ==> At(s, t).name in s.volumes && s.volumes[At(s, t).name] == At(s, t).store
  }

  lemma StepKeepsWriter(s: Sys, l: Label, s': Sys, t: ThreadId)
    requires Inv(s) && WritersOk(s) && Step(s, l) == Some(s')
    ensures WriterOk(s', t)
  {
    assert WriterOk(s, t) && ThreadOk(s, t) && ThreadOk(s, l.t);
    if t != l.t {
      assert At(s', t) == At(s, t);
    }
  }

  /** A stale fill leaves its volume with another store's entry. */
  lemma StaleFillBreaks(s: Sys, l: Label, s': Sys)
    requires Step(s, l) == Some(s') && StaleFill(s, l)
    ensures !Fresh(s')
  {
    var name := At(s, l.t).name;
    assert At(s', l.t) == Resting;
    assert s.lock.Writer? && s.lock.t != l.t ==> At(s', s.lock.t) == At(s, s.lock.t);
    assert name in s'.volumes && !FreshAt(s', name);
  }

  lemma OtherStepKeepsFresh(s: Sys, l: Label, s': Sys, name: Name)
    requires Inv(s) && WritersOk(s) && Fresh(s) && Step(s, l) == Some(s') && !StaleFill(s, l) && name in s'.volumes
    ensures FreshAt(s', name)
  {
    assert ThreadOk(s, l.t) && WriterOk(s, l.t);
    assert s.lock.Writer? ==> ThreadOk(s, s.lock.t);
    assert s.lock.Writer? && s.lock.t != l.t ==> At(s', s.lock.t) == At(s, s.lock.t);
    assert name in s.volumes ==> FreshAt(s, name);
  }

  /** From a state where every cached store is right, a step keeps it so exactly when it is no stale fill. */
  lemma StepKeepsFreshIff(s: Sys, l: Label, s': Sys)
    requires Inv(s) && WritersOk(s) && Fresh(s) && Step(s, l) == Some(s')
    ensures Fresh(s') <==> !StaleFill(s, l)
  {
    if StaleFill(s, l) {
      StaleFillBreaks(s, l, s');
    } else {
      forall name | name in s'.volumes
        ensures FreshAt(s', name)
      {
        OtherStepKeepsFresh(s, l, s', name);
      }
    }
  }

  // ----------------------------------------------------------------------------- whole runs

  lemma {:induction false} RunKeepsWriters(s: Sys, ls: seq<Label>)
    requires Inv(s) && WritersOk(s) && Run(s, ls).Some?
    ensures WritersOk(Run(s, ls).value)
  {
    if ls != [] {
      var init, l := ls[..|ls| - 1], ls[|ls| - 1];
      RunKeepsWriters(s, init);
      RunKeepsInv(s, init);
      forall t
        ensures WriterOk(Run(s, ls).value, t)
      {
        StepKeepsWriter(Run(s, init).value, l, Run(s, ls).value, t);
      }
    }
  }

  lemma ReachableWriters(s: Sys)
    requires Reachable(s)
    ensures WritersOk(s)
  {
    var s0, ls :| Init(s0) && Run(s0, ls) == Some(s);
    assert forall t :: ThreadOk(s0, t);
    RunKeepsWriters(s0, ls);
  }

  /** Each step from a reachable good state leads to a good one exactly when it is not a bad step. */
  ghost predicate Exact(good: Sys -> bool, bad: (Sys, Label) -> bool) {
    forall s: Sys, l: Label :: Reachable(s) && good(s) && Step(s, l).Some? ==> (good(Step(s, l).value) <==> !bad(s, l))
  }

  predicate GoodAfter(good: Sys -> bool, s: Sys, ls: seq<Label>, n: nat)
    requires n <= |ls|
  {
    Run(s, ls[..n]).Some? ==> good(Run(s, ls[..n]).value)
  }

  predicate BadAt(bad: (Sys, Label) -> bool, s: Sys, ls: seq<Label>, n: nat)
    requires n < |ls|
  {
    Run(s, ls[..n]).Some? && bad(Run(s, ls[..n]).value, ls[n])
  }

  ghost predicate GoodThroughout(good: Sys -> bool, s: Sys, ls: seq<Label>) {
    forall n: nat :: n <= |ls| ==> GoodAfter(good, s, ls, n)
  }

  ghost predicate NoBadStep(bad: (Sys, Label) -> bool, s: Sys, ls: seq<Label>) {
    forall n: nat :: n < |ls| ==> !BadAt(bad, s, ls, n)
  }

  lemma GoodBefore(good: Sys -> bool, s: Sys, ls: seq<Label>)
    requires ls != []
    ensures GoodThroughout(good, s, ls) <==> GoodThroughout(good, s, ls[..|ls| - 1]) && GoodAfter(good, s, ls, |ls|)
  {
    var init := ls[..|ls| - 1];
    assert forall n: nat :: n < |ls| ==> init[..n] == ls[..n];
    if GoodThroughout(good, s, ls) {
      forall n: nat | n <= |init|
        ensures GoodAfter(good, s, init, n)
      {
        assert GoodAfter(good, s, ls, n);
      }
    }
    if GoodThroughout(good, s, init) && GoodAfter(good, s, ls, |ls|) {
      forall n: nat | n <= |ls|
        ensures GoodAfter(good, s, ls, n)
      {
        assert n < |ls| ==> GoodAfter(good, s, init, n);
      }
    }
  }

  lemma NoBadBefore(bad: (Sys, Label) -> bool, s: Sys, ls: seq<Label>)
    requires ls != []
    ensures NoBadStep(bad, s, ls) <==> NoBadStep(bad, s, ls[..|ls| - 1]) && !BadAt(bad, s, ls, |ls| - 1)
  {
    var init := ls[..|ls| - 1];
    assert forall n: nat :: n < |ls| ==> init[..n] == ls[..n];
    if NoBadStep(bad, s, ls) {
      forall n: nat | n < |init|
        ensures !BadAt(bad, s, init, n)
      {
        assert !BadAt(bad, s, ls, n);
      }
    }
    if NoBadStep(bad, s, init) && !BadAt(bad, s, ls, |ls| - 1) {
      forall n: nat | n < |ls|
        ensures !BadAt(bad, s, ls, n)
      {
        assert n < |init| ==> !BadAt(bad, s, init, n);
      }
    }
  }

  lemma GoodAtEnd(good: Sys -> bool, s: Sys, ls: seq<Label>)
    requires ls != [] && GoodThroughout(good, s, ls[..|ls| - 1])
    ensures GoodAfter(good, s, ls, |ls| - 1)
  {
    var init := ls[..|ls| - 1];
    assert GoodAfter(good, s, init, |init|);
    assert init[..|init|] == ls[..|ls| - 1];
  }

  lemma {:induction false} RunGoodIff(good: Sys -> bool, bad: (Sys, Label) -> bool, s: Sys, ls: seq<Label>)
    requires Init(s) && good(s) && Run(s, ls).Some? && Exact(good, bad)
    ensures GoodThroughout(good, s, ls) <==> NoBadStep(bad, s, ls)
  {
    if ls == [] {
      assert ls[..0] == [];
    } else {
      RunGoodIff(good, bad, s, ls[..|ls| - 1]);
      GoodBefore(good, s, ls);
      NoBadBefore(bad, s, ls);
      if GoodThroughout(good, s, ls[..|ls| - 1]) {
        GoodAtEnd(good, s, ls);
        LastStep(good, bad, s, ls);
      }
    }
  }

  lemma LastStep(good: Sys -> bool, bad: (Sys, Label) -> bool, s: Sys, ls: seq<Label>)
    requires Init(s) && ls != [] && Run(s, ls).Some? && Exact(good, bad) && GoodAfter(good, s, ls, |ls| - 1)
    ensures GoodAfter(good, s, ls, |ls|) <==> !BadAt(bad, s, ls, |ls| - 1)
  {
    var before := Run(s, ls[..|ls| - 1]).value;
    assert ls[..|ls|] == ls;
    assert Reachable(before);
  }

  ghost function FreshFn(): Sys -> bool { (s: Sys) => Fresh(s) }

  function StaleFillFn(): (Sys, Label) -> bool { (s: Sys, l: Label) => StaleFill(s, l) }

  /** Every cached store is right throughout a run exactly when the run has no stale fill. */
  lemma RunFreshIff(s: Sys, ls: seq<Label>)
    requires Init(s) && Run(s, ls).Some?
    ensures GoodThroughout(FreshFn(), s, ls) <==> NoBadStep(StaleFillFn(), s, ls)
  {
    forall s: Sys, l: Label | Reachable(s) && Fresh(s) && Step(s, l).Some?
      ensures Fresh(Step(s, l).value) <==> !StaleFill(s, l)
    {
      ReachableInv(s);
      ReachableWriters(s);
      StepKeepsFreshIff(s, l, Step(s, l).value);
    }
    RunGoodIff(FreshFn(), StaleFillFn(), s, ls);
  }

  ghost predicate Spoils(s: Sys, l: Label) {
    Step(s, l).Some? && !Fresh(Step(s, l).value)
  }

  /** Some next step spoils a right cache exactly when a thread is outstanding that read another store. */
  lemma OutstandingReadsDecide(s: Sys)
    requires Reachable(s) && Fresh(s)
    ensures (exists l :: Spoils(s, l)) <==> (exists t :: StaleReader(s, t))
  {
    ReachableInv(s);
    ReachableWriters(s);
    if l :| Spoils(s, l) {
      StepKeepsFreshIff(s, l, Step(s, l).value);
      assert StaleReader(s, l.t);
    }
    if t :| StaleReader(s, t) {
      var l := Advance(t, true);
      StepKeepsFreshIff(s, l, Step(s, l).value);
      assert Spoils(s, l);
    }
  }

  // ----------------------------------------------------------------- stores of volumes that are gone

  /** The one volume that may be gone and still cached: the one whose deleter is about to drop its entry. */
  predicate BeingDropped(s: Sys, name: Name) {
    s.lock.Writer? && At(s, s.lock.t).DeleteRemoved? && At(s, s.lock.t).name == name
  }

  /** Nothing is cached but stores of stored volumes. */
  ghost predicate Lean(s: Sys) {
    forall name :: name in s.cache ==> name in s.volumes || BeingDropped(s, name)
  }

  /** A thread between reading a volume and caching what it read, when the volume is gone. */
  predicate LateReader(s: Sys, t: ThreadId) {
    var thread := At(s, t);
    thread.ReadDone? && thread.found.Some? && thread.name !in s.volumes && !BeingDropped(s, thread.name)
  }

  predicate LateFill(s: Sys, l: Label) { l.Advance? && l.choice && LateReader(s, l.t) }

  lemma LateFillBreaks(s: Sys, l: Label, s': Sys)
    requires Step(s, l) == Some(s') && LateFill(s, l)
    ensures !Lean(s')
  {
    var name := At(s, l.t).name;
    assert At(s', l.t) == Resting;
    assert s.lock.Writer? && s.lock.t != l.t ==> At(s', s.lock.t) == At(s, s.lock.t);
    assert name in s'.cache && name !in s'.volumes && !BeingDropped(s', name);
  }

  lemma OtherStepKeepsLean(s: Sys, l: Label, s': Sys, name: Name)
    requires Inv(s) && WritersOk(s) && Lean(s) && Step(s, l) == Some(s') && !LateFill(s, l) && name in s'.cache
    ensures name in s'.volumes || BeingDropped(s', name)
  {
    assert ThreadOk(s, l.t) && WriterOk(s, l.t);
    assert s.lock.Writer? ==> ThreadOk(s, s.lock.t);
    assert s.lock.Writer? && s.lock.t != l.t ==> At(s', s.lock.t) == At(s, s.lock.t);
    assert name in s.cache ==> name in s.volumes || BeingDropped(s, name);
  }

  /** From a state that caches stored volumes only, a step keeps it so exactly when it is no late fill. */
  lemma StepKeepsLeanIff(s: Sys, l: Label, s': Sys)
    requires Inv(s) && WritersOk(s) && Lean(s) && Step(s, l) == Some(s')
    ensures Lean(s') <==> !LateFill(s, l)
  {
    if LateFill(s, l) {
      LateFillBreaks(s, l, s');
    } else {
      forall name | name in s'.cache
        ensures name in s'.volumes || BeingDropped(s', name)
      {
        OtherStepKeepsLean(s, l, s', name);
      }
    }
  }

  ghost function LeanFn(): Sys -> bool { (s: Sys) => Lean(s) }

  function LateFillFn(): (Sys, Label) -> bool { (s: Sys, l: Label) => LateFill(s, l) }

  /** The cache holds stored volumes only throughout a run exactly when the run has no late fill. */
  lemma RunLeanIff(s: Sys, ls: seq<Label>)
    requires Init(s) && Run(s, ls).Some?
    ensures GoodThroughout(LeanFn(), s, ls) <==> NoBadStep(LateFillFn(), s, ls)
  {
    forall s: Sys, l: Label | Reachable(s) && Lean(s) && Step(s, l).Some?
      ensures Lean(Step(s, l).value) <==> !LateFill(s, l)
    {
      ReachableInv(s);
      ReachableWriters(s);
      StepKeepsLeanIff(s, l, Step(s, l).value);
    }
    RunGoodIff(LeanFn(), LateFillFn(), s, ls);
  }

  // -------------------------------------------------------------------------- a run that goes stale

  function Puts(t: ThreadId, name: Name, store: Store, create: bool): seq<Label> {
    [Start(t, WantPut(name, store, create)), Advance(t, true), Advance(t, true), Advance(t, true), Advance(t, true)]
  }

  lemma RunSnoc(s: Sys, ls: seq<Label>, mid: Sys, l: Label)
    requires Run(s, ls) == Some(mid)
    ensures Run(s, ls + [l]) == Step(mid, l)
  {
    assert (ls + [l])[..|ls|] == ls;
  }

  lemma RunTwo(s: Sys, ls: seq<Label>, mid: Sys, l: Label, next: Sys, m: Label)
    requires Run(s, ls) == Some(mid) && Step(mid, l) == Some(next)
    ensures Run(s, ls + [l, m]) == Step(next, m)
  {
    RunSnoc(s, ls, mid, l);
    RunSnoc(s, ls + [l], next, m);
    assert ls + [l] + [m] == ls + [l, m];
  }

  function Held(s: Sys, t: ThreadId, thread: Thread): Sys { Go(s, t, thread).(lock := Writer(t)) }

  function PutDone(s: Sys, t: ThreadId, name: Name, store: Store): Sys {
    Sys(Free, s.volumes[name := store], s.cache[name := store], s.threads[t := Resting])
  }

  lemma TakesLock(s: Sys, ls: seq<Label>, mid: Sys, t: ThreadId, call: Thread)
    requires Run(s, ls) == Some(mid) && mid.lock == Free && At(mid, t) == Resting && call.WantPut?
    ensures Run(s, ls + [Start(t, call), Advance(t, true)])
            == Some(Held(mid, t, PutHeld(call.name, call.store, call.create)))
  {
    RunTwo(s, ls, mid, Start(t, call), Go(mid, t, call), Advance(t, true));
    var held := PutHeld(call.name, call.store, call.create);
    assert mid.threads[t := call][t := held] == mid.threads[t := held];
  }

  lemma StoresAndCaches(s: Sys, ls: seq<Label>, mid: Sys, t: ThreadId, name: Name, store: Store, create: bool)
    requires Run(s, ls) == Some(Held(mid, t, PutHeld(name, store, create))) && create == (name !in mid.volumes)
    ensures Run(s, ls + [Advance(t, true), Advance(t, true)])
            == Some(PutDone(mid, t, name, store).(lock := Writer(t), threads := mid.threads[t := Unlocking]))
  {
    var held := Held(mid, t, PutHeld(name, store, create));
    var stored := Held(mid, t, PutStored(name, store)).(volumes := mid.volumes[name := store]);
    assert held.threads[t := PutStored(name, store)] == stored.threads;
    RunTwo(s, ls, held, Advance(t, true), stored, Advance(t, true));
    assert stored.threads[t := Unlocking] == mid.threads[t := Unlocking];
  }

  /** Creating or updating a volume with the lock free stores and caches it. */
  lemma PutRuns(s: Sys, ls: seq<Label>, mid: Sys, t: ThreadId, name: Name, store: Store, create: bool)
    requires Run(s, ls) == Some(mid) && mid.lock == Free && At(mid, t) == Resting && create == (name !in mid.volumes)
    ensures Run(s, ls + Puts(t, name, store, create)) == Some(PutDone(mid, t, name, store))
  {
    var start, a := Start(t, WantPut(name, store, create)), Advance(t, true);
    TakesLock(s, ls, mid, t, WantPut(name, store, create));
    StoresAndCaches(s, ls + [start, a], mid, t, name, store, create);
    var cached := PutDone(mid, t, name, store).(lock := Writer(t), threads := mid.threads[t := Unlocking]);
    Unlocks(s, ls + [start, a] + [a, a], cached, t);
    assert cached.threads[t := Resting] == mid.threads[t := Resting];
    FiveLabels(ls, start, a);
  }

  lemma Unlocks(s: Sys, ls: seq<Label>, held: Sys, t: ThreadId)
    requires Run(s, ls) == Some(held) && At(held, t) == Unlocking
    ensures Run(s, ls + [Advance(t, true)]) == Some(Go(held, t, Resting).(lock := Free))
  {
    RunSnoc(s, ls, held, Advance(t, true));
  }

  lemma FiveLabels(ls: seq<Label>, start: Label, a: Label)
    ensures ls + [start, a] + [a, a] + [a] == ls + [start, a, a, a, a]
  {
  }

  const EMPTY := Sys(Free, map[], map[], map[])

  const MISS := [Start(1, Lookup("v")), Advance(1, true)]
  const FILL := [Advance(1, true), Advance(1, true)]
  const STALE_RUN := MISS + Puts(2, "v", 10, true) + FILL + Puts(2, "v", 20, false) + [Advance(1, true)]

  /** The lookup misses, the volume is created, and the lookup reads it. */
  lemma ReadsOld()
    ensures
      var s := Run(EMPTY, MISS + Puts(2, "v", 10, true) + FILL);
      && s.Some? && s.value.lock == Free && s.value.volumes == map["v" := 10] && s.value.cache == map["v" := 10]
      && At(s.value, 1) == ReadDone("v", Some(10)) && At(s.value, 2) == Resting
  {
    var missed := Go(Go(EMPTY, 1, Lookup("v")), 1, WantRead("v"));
    RunTwo(EMPTY, [], EMPTY, MISS[0], Go(EMPTY, 1, Lookup("v")), MISS[1]);
    assert [] + [MISS[0], MISS[1]] == MISS;
    PutRuns(EMPTY, MISS, missed, 2, "v", 10, true);
    ReadOnce(MISS + Puts(2, "v", 10, true), PutDone(missed, 2, "v", 10));
  }

  /** Miss, create, read, update, fill: every call is over and the cache holds the store of the old volume. */
  lemma UpdatedVolumeCachedStale()
    ensures
      var s := Run(EMPTY, STALE_RUN);
      && s.Some? && s.value.lock == Free && At(s.value, 1) == Resting && At(s.value, 2) == Resting
      && s.value.volumes == map["v" := 20] && s.value.cache == map["v" := 10] && !Fresh(s.value)
  {
    ReadsOld();
    var before := MISS + Puts(2, "v", 10, true) + FILL;
    var read := Run(EMPTY, before).value;
    PutRuns(EMPTY, before, read, 2, "v", 20, false);
    RunSnoc(EMPTY, before + Puts(2, "v", 20, false), PutDone(read, 2, "v", 20), Advance(1, true));
    var end := Run(EMPTY, STALE_RUN).value;
    assert "v" in end.volumes && !FreshAt(end, "v");
  }

  function Deletes(t: ThreadId, name: Name): seq<Label> {
    [Start(t, WantDelete(name)), Advance(t, true), Advance(t, true), Advance(t, true), Advance(t, true)]
  }

  function DeleteDone(s: Sys, t: ThreadId, name: Name): Sys {
    Sys(Free, s.volumes - {name}, s.cache - {name}, s.threads[t := Resting])
  }

  lemma TakesLockToDelete(s: Sys, ls: seq<Label>, mid: Sys, t: ThreadId, name: Name)
    requires Run(s, ls) == Some(mid) && mid.lock == Free && At(mid, t) == Resting
    ensures Run(s, ls + [Start(t, WantDelete(name)), Advance(t, true)]) == Some(Held(mid, t, DeleteHeld(name)))
  {
    RunTwo(s, ls, mid, Start(t, WantDelete(name)), Go(mid, t, WantDelete(name)), Advance(t, true));
    assert mid.threads[t := WantDelete(name)][t := DeleteHeld(name)] == mid.threads[t := DeleteHeld(name)];
  }

  lemma RemovesAndDrops(s: Sys, ls: seq<Label>, mid: Sys, t: ThreadId, name: Name)
    requires Run(s, ls) == Some(Held(mid, t, DeleteHeld(name))) && name in mid.volumes
    ensures Run(s, ls + [Advance(t, true), Advance(t, true)])
            == Some(DeleteDone(mid, t, name).(lock := Writer(t), threads := mid.threads[t := Unlocking]))
  {
    var held := Held(mid, t, DeleteHeld(name));
    var removed := Held(mid, t, DeleteRemoved(name)).(volumes := mid.volumes - {name});
    assert held.threads[t := DeleteRemoved(name)] == removed.threads;
    RunTwo(s, ls, held, Advance(t, true), removed, Advance(t, true));
    assert removed.threads[t := Unlocking] == mid.threads[t := Unlocking];
  }

  /** Deleting a stored volume with the lock free removes it and its cache entry. */
  lemma DeleteRuns(s: Sys, ls: seq<Label>, mid: Sys, t: ThreadId, name: Name)
    requires Run(s, ls) == Some(mid) && mid.lock == Free && At(mid, t) == Resting && name in mid.volumes
    ensures Run(s, ls + Deletes(t, name)) == Some(DeleteDone(mid, t, name))
  {
    var start, a := Start(t, WantDelete(name)), Advance(t, true);
    TakesLockToDelete(s, ls, mid, t, name);
    RemovesAndDrops(s, ls + [start, a], mid, t, name);
    var dropped := DeleteDone(mid, t, name).(lock := Writer(t), threads := mid.threads[t := Unlocking]);
    Unlocks(s, ls + [start, a] + [a, a], dropped, t);
    assert dropped.threads[t := Resting] == mid.threads[t := Resting];
    FiveLabels(ls, start, a);
  }

  const LATE_RUN := MISS + Puts(2, "v", 10, true) + FILL + Deletes(2, "v") + [Advance(1, true)]

  /** Miss, create, read, delete, fill: every call is over, nothing is stored and the cache holds the deleted volume. */
  lemma DeletedVolumeStaysCached()
    ensures
      var s := Run(EMPTY, LATE_RUN);
      && s.Some? && s.value.lock == Free && At(s.value, 1) == Resting && At(s.value, 2) == Resting
      && s.value.volumes == map[] && s.value.cache == map["v" := 10] && !Lean(s.value)
  {
    ReadsOld();
    var before := MISS + Puts(2, "v", 10, true) + FILL;
    var read := Run(EMPTY, before).value;
    DeleteRuns(EMPTY, before, read, 2, "v");
    RunSnoc(EMPTY, before + Deletes(2, "v"), DeleteDone(read, 2, "v"), Advance(1, true));
    var end := Run(EMPTY, LATE_RUN).value;
    assert "v" in end.cache && "v" !in end.volumes;
  }

  lemma ReadOnce(ls: seq<Label>, s: Sys)
    requires Run(EMPTY, ls) == Some(s) && s.lock == Free && At(s, 1) == WantRead("v") && s.volumes == map["v" := 10]
    ensures Run(EMPTY, ls + [Advance(1, true), Advance(1, true)]) == Some(Go(s, 1, ReadDone("v", Some(10))))
  {
    var a := Advance(1, true);
    var held := Go(s, 1, ReadHeld("v")).(lock := Readers({1}));
    RunSnoc(EMPTY, ls, s, a);
    RunSnoc(EMPTY, ls + [a], held, a);
    assert held.lock.ts - {1} == {};
    assert held.threads[1 := ReadDone("v", Some(10))] == s.threads[1 := ReadDone("v", Some(10))];
    assert ls + [a] + [a] == ls + [a, a];
  }
}
