/** The volume map of the lock's steps is that of the metastore's operations, one call at a time. */
module MetastoreVolumeSteps {
  import opened Common
  import M = Metastore
  import opened MetastoreLock

  /** The stores of the stored volumes. */
  function StoresOf(volumes: map<Name, M.Volume>): map<Name, Store> {
    map name | name in volumes && volumes[name].store.Some? :: volumes[name].store.value
  }

  /** The two models hold the same volumes. */
  ghost predicate Agrees(s: Sys, state: M.State) {
    s.volumes == StoresOf(state.volumes) && forall name :: name in state.volumes ==> state.volumes[name].store.Some?
  }

  /** The operation a writer in its critical section performs; a refused deletion performs none. */
  function OpOf(thread: Thread, choice: bool): Option<M.Op> {
    match thread
    case PutHeld(name, store, create) =>
      var volume := M.Volume(name, Some(store));
      Some(if create then M.CreateVolume(name, volume) else M.UpdateVolume(name, volume))
    case DeleteHeld(name) => if choice then Some(M.DeleteVolume(name, true)) else None
    case _ => None
  }

  lemma StoresAfterPut(volumes: map<Name, M.Volume>, name: Name, store: Store)
    ensures StoresOf(volumes[name := M.Volume(name, Some(store))]) == StoresOf(volumes)[name := store]
  {
  }

  lemma StoresAfterDelete(volumes: map<Name, M.Volume>, name: Name)
    ensures StoresOf(volumes - {name}) == StoresOf(volumes) - {name}
  {
  }

  /** Outside the critical sections of the volume writers the volumes stay as they are. */
  lemma VolumesKept(s: Sys, l: Label, s': Sys)
    requires Step(s, l) == Some(s') && (l.Advance? ==> !At(s, l.t).PutHeld? && !At(s, l.t).DeleteHeld?)
    ensures s'.volumes == s.volumes
  {
  }

  lemma PutStep(s: Sys, t: ThreadId, choice: bool, s': Sys, state: M.State)
    requires Agrees(s, state) && At(s, t).PutHeld? && AdvanceStep(s, t, choice) == Some(s')
    ensures Agrees(s', M.Apply(state, OpOf(At(s, t), choice).value).state)
  {
    var (name, store) := (At(s, t).name, At(s, t).store);
    StoresAfterPut(state.volumes, name, store);
    assert name in s.volumes <==> name in state.volumes;
    var after := M.Apply(state, OpOf(At(s, t), choice).value).state;
    if s'.volumes != s.volumes || after != state {
      assert after.volumes == state.volumes[name := M.Volume(name, Some(store))];
      assert s'.volumes == s.volumes[name := store];
    }
  }

  lemma DeleteStep(s: Sys, t: ThreadId, choice: bool, s': Sys, state: M.State)
    requires Agrees(s, state) && At(s, t).DeleteHeld? && AdvanceStep(s, t, choice) == Some(s')
    ensures Agrees(s', if choice then M.Apply(state, OpOf(At(s, t), choice).value).state else state)
  {
    var name := At(s, t).name;
    StoresAfterDelete(state.volumes, name);
    if choice {
      var after := M.Apply(state, OpOf(At(s, t), choice).value).state;
      assert after.volumes == state.volumes - {name};
      assert s'.volumes == s.volumes - {name};
    }
  }

  /** A step changes the volumes as the operation it performs does, refusals included, and otherwise not at all. */
  lemma VolumeStepIsOperation(s: Sys, l: Label, s': Sys, state: M.State)
    requires Agrees(s, state) && Step(s, l) == Some(s')
    ensures
      var op := if l.Advance? then OpOf(At(s, l.t), l.choice) else None;
      Agrees(s', if op.Some? then M.Apply(state, op.value).state else state)
  {
    if l.Advance? && At(s, l.t).PutHeld? {
      PutStep(s, l.t, l.choice, s', state);
    } else if l.Advance? && At(s, l.t).DeleteHeld? {
      DeleteStep(s, l.t, l.choice, s', state);
    } else {
      VolumesKept(s, l, s');
    }
  }

  /** A writer that has stored its volume goes on to cache that store; one that was refused caches nothing. */
  lemma RefusedWriterLeavesCache(s: Sys, t: ThreadId, choice: bool, state: M.State)
    requires Agrees(s, state) && At(s, t).PutHeld?
    ensures
      var (s', op) := (AdvanceStep(s, t, choice).value, OpOf(At(s, t), choice).value);
      && s'.cache == s.cache
      && At(s', t) == if M.Apply(state, op).result.Ok? then PutStored(At(s, t).name, At(s, t).store) else Unlocking
  {
  }

  /** A lookup ends at once, with no lock, exactly on a cached name; after a miss it caches what it read. */
  lemma LookupReads(s: Sys, t: ThreadId, choice: bool, s': Sys)
    requires AdvanceStep(s, t, choice) == Some(s')
    ensures At(s, t).Lookup? ==>
              && (At(s', t) == Resting <==> At(s, t).name in s.cache)
              && (At(s', t) != Resting ==> At(s', t) == WantRead(At(s, t).name)) && s'.lock == s.lock
    ensures At(s, t).ReadHeld? ==>
              var name := At(s, t).name;
              At(s', t) == ReadDone(name, if name in s.volumes then Some(s.volumes[name]) else None)
    ensures At(s, t).ReadDone? && At(s, t).found.Some? && choice ==>
              At(s', t) == Resting && s'.cache == s.cache[At(s, t).name := At(s, t).found.value]
  {
  }
}
