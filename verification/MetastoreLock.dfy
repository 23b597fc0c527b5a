/**
 * The metastore's read-write lock and its object-store cache, which lies outside the lock, under
 * all interleavings of volume writers, lazy cache fills and `create_table`. A step is one access to
 * the lock, the volume map or the cache.
 */
module MetastoreLock {
  import opened Common

  type ThreadId = int
  type Name = string
  type Store = int

  datatype Thread =
    | Resting
    // create_volume and update_volume
    | WantPut(name: Name, store: Store, create: bool)
    | PutHeld(name: Name, store: Store, create: bool)
    | PutStored(name: Name, store: Store)   // volume map written, cache not yet
    // delete_volume
    | WantDelete(name: Name)
    | DeleteHeld(name: Name)
    | DeleteRemoved(name: Name)             // removed from the volume map, cache not yet
    // volume_object_store called without the lock
    | Lookup(name: Name)
    | WantRead(name: Name)                  // the cache missed
    | ReadHeld(name: Name)
    | ReadDone(name: Name, found: Option<Store>)
    // create_table
    | WantTable(name: Name)
    | TableHeld(name: Name)
    | TableLookup(name: Name)               // the volume exists; inside volume_object_store
    | TableReading(name: Name)              // the cache missed: waits for a read lock under its own write lock
    | Unlocking

  datatype Lock = Free | Writer(t: ThreadId) | Readers(ts: set<ThreadId>)

  datatype Sys = Sys(
    lock: Lock, volumes: map<Name, Store>, cache: map<Name, Store>, threads: map<ThreadId, Thread>)

  /** `choice` resolves what is decided elsewhere: a refused deletion, a failed store, a failed check. */
  datatype Label = Start(t: ThreadId, call: Thread) | Advance(t: ThreadId, choice: bool)

  predicate Init(s: Sys) { s == Sys(Free, map[], map[], map[]) }

  predicate IsCall(call: Thread) { call.WantPut? || call.WantDelete? || call.Lookup? || call.WantTable? }

  function At(s: Sys, t: ThreadId): Thread {
    if t in s.threads then s.threads[t] else Resting
  }

  function Go(s: Sys, t: ThreadId, to: Thread): Sys { s.(threads := s.threads[t := to]) }

  function TakeWrite(s: Sys, t: ThreadId, to: Thread): Option<Sys> {
    if s.lock == Free then Some(Go(s, t, to).(lock := Writer(t))) else None
  }

  function TakeRead(s: Sys, t: ThreadId, to: Thread): Option<Sys> {
    match s.lock
    case Free => Some(Go(s, t, to).(lock := Readers({t})))
    case Readers(ts) => Some(Go(s, t, to).(lock := Readers(ts + {t})))
    case Writer(_) => None
  }

  function DropRead(s: Sys, t: ThreadId): Lock {
    if s.lock.Readers? && s.lock.ts - {t} != {} then Readers(s.lock.ts - {t}) else Free
  }

  function AdvanceStep(s: Sys, t: ThreadId, choice: bool): Option<Sys> {
    match At(s, t)
    case Resting => None
    case WantPut(name, store, create) => TakeWrite(s, t, PutHeld(name, store, create))
    case PutHeld(name, store, create) =>
      if create == (name !in s.volumes) then
        Some(Go(s, t, PutStored(name, store)).(volumes := s.volumes[name := store]))
      else Some(Go(s, t, Unlocking))
    case PutStored(name, store) => Some(Go(s, t, Unlocking).(cache := s.cache[name := store]))
    case WantDelete(name) => TakeWrite(s, t, DeleteHeld(name))
    case DeleteHeld(name) =>
      if choice && name in s.volumes then Some(Go(s, t, DeleteRemoved(name)).(volumes := s.volumes - {name}))
      else Some(Go(s, t, Unlocking))
    case DeleteRemoved(name) => Some(Go(s, t, Unlocking).(cache := s.cache - {name}))
    case Lookup(name) => Some(Go(s, t, if name in s.cache then Resting else WantRead(name)))
    case WantRead(name) => TakeRead(s, t, ReadHeld(name))
    case ReadHeld(name) =>
      var found := if name in s.volumes then Some(s.volumes[name]) else None;
      Some(Go(s, t, ReadDone(name, found)).(lock := DropRead(s, t)))
    case ReadDone(name, found) =>
      if found.Some? && choice then Some(Go(s, t, Resting).(cache := s.cache[name := found.value]))
      else Some(Go(s, t, Resting))
    case WantTable(name) => TakeWrite(s, t, TableHeld(name))
    case TableHeld(name) => Some(Go(s, t, if choice && name in s.volumes then TableLookup(name) else Unlocking))
    case TableLookup(name) => Some(Go(s, t, if name in s.cache then Unlocking else TableReading(name)))
    case TableReading(name) => TakeRead(s, t, Unlocking)
    case Unlocking => Some(Go(s, t, Resting).(lock := Free))
  }

  function Step(s: Sys, l: Label): Option<Sys> {
    match l
    case Start(t, call) => if At(s, t) == Resting && IsCall(call) then Some(Go(s, t, call)) else None
    case Advance(t, choice) => AdvanceStep(s, t, choice)
  }

  function Run(s: Sys, ls: seq<Label>): Option<Sys> {
    if ls == [] then Some(s)
    else
      var before := Run(s, ls[..|ls| - 1]);
      if before.None? then None else Step(before.value, ls[|ls| - 1])
  }

  ghost predicate Reachable(s: Sys) {
    exists s0: Sys, ls: seq<Label> :: Init(s0) && Run(s0, ls) == Some(s)
  }

  // ------------------------------------------------------------------------- the invariant

  predicate Writes(thread: Thread) {
    thread.PutHeld? || thread.PutStored? || thread.DeleteHeld? || thread.DeleteRemoved?
    || thread.TableHeld? || thread.TableLookup? || thread.TableReading? || thread.Unlocking?
  }

  /** The thread holds the lock its program counter says, and knows what it has established. */
  predicate ThreadOk(s: Sys, t: ThreadId) {
    && (Writes(At(s, t)) <==> s.lock == Writer(t))
    && (At(s, t).ReadHeld? <==> s.lock.Readers? && t in s.lock.ts)
    && (At(s, t).DeleteRemoved? ==> At(s, t).name !in s.volumes)
    && (At(s, t).TableLookup? ==> At(s, t).name in s.volumes)
    && !At(s, t).TableReading?
  }

  /** The one volume that may be stored but not yet cached: the one its writer is about to cache. */
  predicate BeingCached(s: Sys, name: Name) {
    s.lock.Writer? && At(s, s.lock.t).PutStored? && At(s, s.lock.t).name == name
  }

  ghost predicate Cached(s: Sys) {
    forall name :: name in s.volumes ==> name in s.cache || BeingCached(s, name)
  }

  ghost predicate Inv(s: Sys) {
    && (forall t :: ThreadOk(s, t))
    && Cached(s)
    && (s.lock.Readers? ==> s.lock.ts != {})
  }

  lemma StepKeepsItself(s: Sys, l: Label, s': Sys)
    requires Inv(s) && Step(s, l) == Some(s')
    ensures ThreadOk(s', l.t)
  {
    assert ThreadOk(s, l.t);
    assert Cached(s);
  }

  lemma StepKeepsOthers(s: Sys, l: Label, s': Sys, t: ThreadId)
    requires Inv(s) && Step(s, l) == Some(s') && t != l.t
    ensures ThreadOk(s', t)
  {
    assert ThreadOk(s, t) && ThreadOk(s, l.t);
    assert At(s', t) == At(s, t);
  }

  lemma StepKeepsCached(s: Sys, l: Label, s': Sys)
    requires Inv(s) && Step(s, l) == Some(s')
    ensures Cached(s')
  {
    assert ThreadOk(s, l.t);
    assert s.lock.Writer? ==> ThreadOk(s, s.lock.t);
    forall name | name in s'.volumes
      ensures name in s'.cache || BeingCached(s', name)
    {
      assert name in s.volumes ==> name in s.cache || BeingCached(s, name);
    }
  }

  lemma {:induction false} RunKeepsInv(s: Sys, ls: seq<Label>)
    requires Inv(s) && Run(s, ls).Some?
    ensures Inv(Run(s, ls).value)
  {
    if ls != [] {
      var init, l := ls[..|ls| - 1], ls[|ls| - 1];
      RunKeepsInv(s, init);
      var before, after := Run(s, init).value, Run(s, ls).value;
      forall t
        ensures ThreadOk(after, t)
      {
        if t == l.t {
          StepKeepsItself(before, l, after);
        } else {
          StepKeepsOthers(before, l, after, t);
        }
      }
      StepKeepsCached(before, l, after);
      assert ThreadOk(before, l.t);
    }
  }

  lemma ReachableInv(s: Sys)
    requires Reachable(s)
    ensures Inv(s)
  {
    var s0, ls :| Init(s0) && Run(s0, ls) == Some(s);
    assert forall t :: ThreadOk(s0, t);
    RunKeepsInv(s0, ls);
  }

  // ------------------------------------------------------------------------- the main results

  /** Whenever the lock is free, or held by readers, every stored volume is cached. */
  lemma StoredVolumesAreCached(s: Sys)
    requires Reachable(s) && !s.lock.Writer?
    ensures s.volumes.Keys <= s.cache.Keys
  {
    ReachableInv(s);
    assert Cached(s);
  }

  /** create_table, holding the write lock, never reaches the read-lock path; its lookup hits the cache. */
  lemma CreateTableNeverBlocksOnItself(s: Sys, t: ThreadId)
    requires Reachable(s)
    ensures !At(s, t).TableReading?
    ensures At(s, t).TableLookup? ==> At(s, t).name in s.cache
  {
    ReachableInv(s);
    assert ThreadOk(s, t);
    assert Cached(s);
  }

  predicate Enabled(s: Sys, t: ThreadId) { AdvanceStep(s, t, true).Some? }

  /** No deadlock: while any call is unfinished, some thread can take its next step. */
  lemma SomeThreadCanMove(s: Sys, t: ThreadId) returns (mover: ThreadId)
    requires Reachable(s) && At(s, t) != Resting
    ensures At(s, mover) != Resting && Enabled(s, mover)
  {
    ReachableInv(s);
    match s.lock
    case Free =>
      assert ThreadOk(s, t);
      mover := t;
    case Writer(w) =>
      assert ThreadOk(s, w);
      mover := w;
    case Readers(_) =>
      mover := AnyOf(s.lock.ts);
      assert ThreadOk(s, mover);
  }
}
