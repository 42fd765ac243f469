/**
 The state service of app/hmstt/service.go over its store, its event channel
 and its change counter. Each method takes the faults of its remote steps as
 parameters and is proved against ServiceSpec; here nothing interleaves with it.
 */
module StateService {
  import opened Basics
  import opened States
  import opened StateStore
  import Spec = ServiceSpec

  /** app/hmstt/event.go: a channel to the broker's topic exchange. */
  class HmsttEvent {
    var log: seq<Message>

    constructor ()
      ensures log == []
    {
      log := [];
    }

    method StateChange(key: string, value: string, fails: bool) returns (ok: bool)
      modifies this
      ensures ok == !fails
      ensures log == old(log) + [Message(MQ_CHANNEL_HMSTT + KEY_DELIMITER + key, value, ok)]
    {
      var routing := MQ_CHANNEL_HMSTT + KEY_DELIMITER + key;
      log := log + [Message(routing, value, !fails)];
      return !fails;
    }
  }

  datatype GetError = InvalidTypeOrKey | GetStateError | InvalidType | NoKeysProvided | GetAllError

  datatype Answer<+T> = Found(value: T) | Error(error: GetError)

  /** What looking one entry up directly gives. */
  function Listed(store: Store, id: Id): Option<StateEntry> {
    if id in store then Some(ToState(id, store[id])) else None
  }

  /** The entries of the requested keys: in request order, duplicates kept, missing keys dropped. */
  function Batch(store: Store, tipe: string, keys: seq<string>): seq<StateEntry> {
    if keys == [] then [] else
      (if Listed(store, Id(tipe, keys[0])).Some? then [Listed(store, Id(tipe, keys[0])).value] else [])
      + Batch(store, tipe, keys[1..])
  }

  lemma {:induction false} BatchSnoc(store: Store, tipe: string, keys: seq<string>, k: string)
    ensures Batch(store, tipe, keys + [k]) == Batch(store, tipe, keys) + Batch(store, tipe, [k])
  {
    if keys == [] {
      assert keys + [k] == [k];
    } else {
      assert (keys + [k])[0] == keys[0] && (keys + [k])[1..] == keys[1..] + [k];
      BatchSnoc(store, tipe, keys[1..], k);
    }
  }

  /** The positions among the first `n` whose key is stored. */
  function StoredPositions(store: Store, tipe: string, keys: seq<string>, n: nat): set<nat>
    requires n <= |keys|
  {
    set j: nat | j < n && Id(tipe, keys[j]) in store
  }

  /** One entry for each position whose key is stored, in the order of the positions, and nothing else. */
  ghost predicate InRequestOrder(rs: seq<StateEntry>, store: Store, tipe: string, keys: seq<string>) {
    && |rs| == |StoredPositions(store, tipe, keys, |keys|)|
    && forall i: nat | i < |keys| && Id(tipe, keys[i]) in store ::
         var at, e := |StoredPositions(store, tipe, keys, i)|, store[Id(tipe, keys[i])];
         at < |rs| && rs[at] == StateEntry(tipe, keys[i], e.value, e.description, e.updatedAt)
  }

  lemma NextPosition(store: Store, tipe: string, keys: seq<string>, n: nat)
    requires n < |keys|
    ensures |StoredPositions(store, tipe, keys, n + 1)|
         == |StoredPositions(store, tipe, keys, n)| + if Id(tipe, keys[n]) in store then 1 else 0
  {
    var before := StoredPositions(store, tipe, keys, n);
    assert StoredPositions(store, tipe, keys, n + 1) == before + if Id(tipe, keys[n]) in store then {n} else {};
  }

  lemma SamePositions(store: Store, tipe: string, keys: seq<string>, more: seq<string>, n: nat)
    requires n <= |keys|
    ensures StoredPositions(store, tipe, keys + more, n) == StoredPositions(store, tipe, keys, n)
  {
  }

  lemma {:induction false} BatchInOrder(store: Store, tipe: string, keys: seq<string>)
    ensures InRequestOrder(Batch(store, tipe, keys), store, tipe, keys)
    decreases |keys|
  {
    if keys != [] {
      var front, k := Front(keys), Last(keys);
      assert keys == front + [k];
      BatchInOrder(store, tipe, front);
      BatchSnoc(store, tipe, front, k);
      BatchOfOne(store, tipe, k);
      NextPosition(store, tipe, keys, |front|);
      SamePositions(store, tipe, front, [k], |front|);
      forall i: nat | i < |keys| && Id(tipe, keys[i]) in store
        ensures var at, e := |StoredPositions(store, tipe, keys, i)|, store[Id(tipe, keys[i])];
                && at < |Batch(store, tipe, keys)|
                && Batch(store, tipe, keys)[at] == StateEntry(tipe, keys[i], e.value, e.description, e.updatedAt)
      {
        SamePositions(store, tipe, front, [k], i);
        assert i < |front| ==> front[i] == keys[i];
      }
    }
  }

  lemma BatchOfOne(store: Store, tipe: string, k: string)
    ensures Batch(store, tipe, [k]) ==
              if Id(tipe, k) in store then [ToState(Id(tipe, k), store[Id(tipe, k)])] else []
  {
    assert [k][1..] == [];
  }

  class HmsttService {
    const store: HmsttStore
    const event: HmsttEvent
    var changes: map<string, nat>

    ghost function World(): Spec.World
      reads this, store, event
    {
      Spec.World(store.Contents(), event.log, changes)
    }

    constructor (store: HmsttStore, event: HmsttEvent)
      ensures this.store == store && this.event == event && changes == map[]
    {
      this.store := store;
      this.event := event;
      changes := map[];
    }

    /** The counter is a process-wide metric; here it belongs to the service. */
    method IncChanges(tipe: string)
      modifies this
      ensures World() == Spec.Counted(old(World()), tipe)
    {
      changes := changes[tipe := (if tipe in changes then changes[tipe] else 0) + 1];
    }

    method GetState(id: Id, readFails: bool) returns (r: Answer<StateEntry>)
      ensures r == if id.tipe == "" || id.key == "" then Error(InvalidTypeOrKey)
                   else if readFails || id !in World().store then Error(GetStateError)
                   else var e := World().store[id]; Found(StateEntry(id.tipe, id.key, e.value, e.description, e.updatedAt))
    {
      if id.tipe == "" || id.key == "" {
        return Error(InvalidTypeOrKey);
      }
      var reply := store.GetState(id, readFails);
      if reply.Failed? {
        return Error(GetStateError);
      }
      return Found(reply.value);
    }

    /** Agrees with looking each key up directly, whatever order the store lists its entries in. */
    method GetStatesByKeys(tipe: string, keys: seq<string>, readFails: bool) returns (r: Answer<seq<StateEntry>>)
      ensures r == if tipe == "" then Error(InvalidType)
                   else if keys == [] then Error(NoKeysProvided)
                   else if readFails then Error(GetAllError)
                   else Found(Batch(World().store, tipe, keys))
      ensures r.Found? ==> InRequestOrder(r.value, World().store, tipe, keys)
    {
      if tipe == "" {
        return Error(InvalidType);
      }
      if keys == [] {
        return Error(NoKeysProvided);
      }
      var reply := store.GetAllByType(tipe, readFails);
      if reply.Failed? {
        return Error(GetAllError);
      }
      var entries := reply.value;
      var entryByKey := IndexByKey(entries, OfType(World().store, tipe), tipe);
      var results := Collect(entryByKey, keys, World().store, tipe);
      return Found(results);
    }

    /** The first loop of the batch lookup: an index of the listed entries by key. */
    static method IndexByKey(entries: seq<StateEntry>, ghost typed: Store, ghost tipe: string) returns (entryByKey: map<string, StateEntry>)
      requires Lists(entries, typed) && forall id | id in typed :: id.tipe == tipe
      ensures forall k: string :: Find(entryByKey, k) == Listed(typed, Id(tipe, k))
    {
      entryByKey := map[];
      for n := 0 to |entries|
        invariant forall i | 0 <= i < n :: entries[i].key in entryByKey
        invariant forall k | k in entryByKey :: Listed(typed, Id(tipe, k)) == Some(entryByKey[k])
      {
        assert IdOf(entries[n]) == Id(tipe, entries[n].key);
        entryByKey := entryByKey[entries[n].key := entries[n]];
      }
      forall k: string | Id(tipe, k) in typed
        ensures k in entryByKey
      {
        assert ToState(Id(tipe, k), typed[Id(tipe, k)]) in entries;
      }
    }

    /** The second loop: the indexed entries of the requested keys, in request order. */
    static method Collect(entryByKey: map<string, StateEntry>, keys: seq<string>, ghost store: Store, ghost tipe: string)
      returns (results: seq<StateEntry>)
      requires forall k: string :: Find(entryByKey, k) == Listed(store, Id(tipe, k))
      ensures results == Batch(store, tipe, keys) && InRequestOrder(results, store, tipe, keys)
    {
      results := [];
      for n := 0 to |keys|
        invariant results == Batch(store, tipe, keys[..n])
      {
        BatchSnoc(store, tipe, keys[..n], keys[n]);
        assert keys[..n + 1] == keys[..n] + [keys[n]];
        assert Find(entryByKey, keys[n]) == Listed(store, Id(tipe, keys[n]));
        if keys[n] in entryByKey {
          results := results + [entryByKey[keys[n]]];
        }
      }
      assert keys[..|keys|] == keys;
      BatchInOrder(store, tipe, keys);
    }

    method CreateState(id: Id, value: string, description: string, env: Spec.Env) returns (r: Spec.Result)
      modifies this, store, event
      ensures (World(), r) == Spec.Exec(old(World()), Spec.Create(id, value, description), env)
    {
      if !CanTypeChangedWithKey(id, value) {
        return Spec.Invalid;
      }
      var current := store.GetState(id, env.readFails);
      if current.Got? {
        return Spec.AlreadyExists;
      }
      var written := store.SetState(id, value, description, env.now, env.writeFails);
      if !written {
        return Spec.WriteError;
      }
      IncChanges(id.tipe);
      var generatedKey := GeneratedKey(id);
      var _ := event.StateChange(generatedKey, value, env.publishFails);
      return Spec.Ok;
    }

    method SetState(id: Id, value: string, description: Option<string>, env: Spec.Env) returns (r: Spec.Result)
      modifies this, store, event
      ensures (World(), r) == Spec.Exec(old(World()), Spec.Set(id, value, description), env)
    {
      if !CanTypeChangedWithKey(id, value) {
        return Spec.Invalid;
      }
      var current := store.GetState(id, env.readFails);
      var valueChanged := current.Failed? || current.value.value != value;
      var desc := if current.Got? then current.value.description else "";
      if description.Some? {
        desc := description.value;
      }
      Spec.ExecWrites(World(), Spec.Set(id, value, description), env, value, desc, valueChanged);
      var written := store.SetState(id, value, desc, env.now, env.writeFails);
      if !written {
        return Spec.WriteError;
      }
      if valueChanged {
        IncChanges(id.tipe);
        var generatedKey := GeneratedKey(id);
        var _ := event.StateChange(generatedKey, value, env.publishFails);
      }
      return Spec.Ok;
    }

    method PatchState(id: Id, value: Option<string>, description: Option<string>, env: Spec.Env) returns (r: Spec.Result)
      modifies this, store, event
      ensures (World(), r) == Spec.Exec(old(World()), Spec.Patch(id, value, description), env)
    {
      if value.None? && description.None? {
        return Spec.NothingToUpdate;
      }
      var current := store.GetState(id, env.readFails);
      if current.Failed? {
        return Spec.NotFound;
      }
      var newValue, newDesc, valueChanged := current.value.value, current.value.description, false;
      if value.Some? {
        if !CanTypeChangedWithKey(id, value.value) {
          return Spec.Invalid;
        }
        if current.value.value != value.value {
          valueChanged := true;
          newValue := value.value;
        }
      }
      if description.Some? {
        newDesc := description.value;
      }
      Spec.ExecWrites(World(), Spec.Patch(id, value, description), env, newValue, newDesc, valueChanged);
      var written := store.SetState(id, newValue, newDesc, env.now, env.writeFails);
      if !written {
        return Spec.WriteError;
      }
      if valueChanged {
        IncChanges(id.tipe);
        var generatedKey := GeneratedKey(id);
        var _ := event.StateChange(generatedKey, newValue, env.publishFails);
      }
      return Spec.Ok;
    }
  }
}
