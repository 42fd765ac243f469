/**
 What callers of the state service get, as decision tables that name no step of
 it, and what an entry holds after a whole run.
 */
module ServiceLaws {
  import opened Basics
  import opened States
  import opened ServiceSpec
  import ServiceRuns

  /** The values the service accepts: on or off, for a switch with a nonempty key. */
  predicate Acceptable(id: Id, value: string) {
    id.tipe == "switch" && id.key != "" && (value == "on" || value == "off")
  }

  lemma ValidityExactly(id: Id, value: string)
    ensures CanTypeChangedWithKey(id, value) <==> Acceptable(id, value)
  {
  }

  /** Every event of a switch goes out under this routing key. */
  lemma RoutingKeyIs(key: string)
    ensures RoutingKey(SwitchId(key)) == "hmstt_channel.hmstt.switch." + key
  {
  }

  /** One entry written, and its change announced and counted once if there was one. */
  predicate Updates(w: World, w': World, id: Id, e: Entry, changed: bool, accepted: bool) {
    && w'.store == w.store[id := e]
    && w'.log == w.log + (if changed then [Message("hmstt_channel.hmstt.switch." + id.key, e.value, accepted)] else [])
    && w'.changes == if changed then w.changes["switch" := Changes(w, "switch") + 1] else w.changes
  }

  /** Create: each answer, and what is stored, announced and counted. */
  lemma CreateOutcome(w: World, id: Id, value: string, description: string, env: Env)
    ensures var (w', r) := Exec(w, Create(id, value, description), env);
            && r == (if !Acceptable(id, value) then Invalid
                     else if id in w.store && !env.readFails then AlreadyExists
                     else if env.writeFails then WriteError
                     else Ok)
            && if r == Ok then Updates(w, w', id, Entry(value, description, env.now), true, !env.publishFails) else w' == w
  {
    if Acceptable(id, value) {
      RoutingKeyIs(id.key);
    }
  }

  /** Set: a description that is not given is kept if the entry could be read, and is empty otherwise. */
  lemma SetOutcome(w: World, id: Id, value: string, description: Option<string>, env: Env)
    ensures var (w', r) := Exec(w, Set(id, value, description), env);
            var seen := id in w.store && !env.readFails;
            && r == (if !Acceptable(id, value) then Invalid else if env.writeFails then WriteError else Ok)
            && if r == Ok then
                 var stored := if description.Some? then description.value else if seen then w.store[id].description else "";
                 Updates(w, w', id, Entry(value, stored, env.now), seen ==> w.store[id].value != value, !env.publishFails)
               else w' == w
  {
    if Acceptable(id, value) {
      RoutingKeyIs(id.key);
    }
  }

  /** Patch: what is not given is kept. */
  lemma PatchOutcome(w: World, id: Id, value: Option<string>, description: Option<string>, env: Env)
    ensures var (w', r) := Exec(w, Patch(id, value, description), env);
            var seen := id in w.store && !env.readFails;
            && r == (if value.None? && description.None? then NothingToUpdate
                     else if !seen then NotFound
                     else if value.Some? && !Acceptable(id, value.value) then Invalid
                     else if env.writeFails then WriteError
                     else Ok)
            && if r == Ok then
                 var old' := w.store[id];
                 Updates(w, w', id, Entry(if value.Some? then value.value else old'.value,
                                          if description.Some? then description.value else old'.description, env.now),
                         value.Some? && value.value != old'.value, !env.publishFails)
               else w' == w
  {
    if value.Some? && Acceptable(id, value.value) {
      RoutingKeyIs(id.key);
    }
  }

  // ---------- what an entry holds after a run ----------

  function GivenValue(call: Call): Option<string> {
    match call
    case Create(_, value, _) => Some(value)
    case Set(_, value, _) => Some(value)
    case Patch(_, value, _) => value
  }

  function GivenDescription(call: Call): Option<string> {
    match call
    case Create(_, _, description) => Some(description)
    case Set(_, _, description) => description
    case Patch(_, _, description) => description
  }

  /** The call succeeded on this entry. */
  predicate Succeeded(op: Op, r: Result, id: Id) {
    op.call.id == id && r == Ok
  }

  /** The value given by the latest successful call on an entry that gave one. */
  function LatestValue(ops: seq<Op>, rs: seq<Result>, id: Id): Option<string>
    requires |ops| == |rs|
  {
    if ops == [] then None
    else if Succeeded(Last(ops), Last(rs), id) && GivenValue(Last(ops).call).Some? then GivenValue(Last(ops).call)
    else LatestValue(Front(ops), Front(rs), id)
  }

  function LatestDescription(ops: seq<Op>, rs: seq<Result>, id: Id): Option<string>
    requires |ops| == |rs|
  {
    if ops == [] then None
    else if Succeeded(Last(ops), Last(rs), id) && GivenDescription(Last(ops).call).Some? then GivenDescription(Last(ops).call)
    else LatestDescription(Front(ops), Front(rs), id)
  }

  /** The time of the latest successful call on an entry. */
  function LatestTime(ops: seq<Op>, rs: seq<Result>, id: Id): Option<int>
    requires |ops| == |rs|
  {
    if ops == [] then None
    else if Succeeded(Last(ops), Last(rs), id) then Some(Last(ops).env.now)
    else LatestTime(Front(ops), Front(rs), id)
  }

  /** An entry is there once a call on it has succeeded, and holds the latest of everything given to it. */
  predicate HoldsLatest(current: Option<Entry>, ops: seq<Op>, rs: seq<Result>, id: Id)
    requires |ops| == |rs|
  {
    match LatestTime(ops, rs, id)
    case None => current == None
    case Some(time) =>
      current == Some(Entry(Or(LatestValue(ops, rs, id), ""), Or(LatestDescription(ops, rs, id), ""), time))
      && LatestValue(ops, rs, id).Some?
  }

  lemma {:induction false} ResultsLength(w: World, ops: seq<Op>)
    ensures |Results(w, ops)| == |ops|
    decreases |ops|
  {
    if ops != [] {
      ResultsLength(Exec(w, ops[0].call, ops[0].env).0, ops[1..]);
    }
  }

  /** What one more call does to an entry: nothing unless it succeeds there, and then what it was given. */
  lemma ExecGives(w: World, op: Op, id: Id)
    requires op.call.id == id ==> !op.env.readFails
    ensures var (w', r) := Exec(w, op.call, op.env);
            var before := Find(w.store, id);
            Find(w'.store, id) ==
              if !Succeeded(op, r, id) then before
              else Some(Entry(Or(GivenValue(op.call), if before.Some? then before.value.value else ""),
                              Or(GivenDescription(op.call), if before.Some? then before.value.description else ""),
                              op.env.now))
    ensures Succeeded(op, Exec(w, op.call, op.env).1, id) && GivenValue(op.call).None? ==> id in w.store
  {
    match op.call {
      case Create(i, value, description) => CreateOutcome(w, i, value, description, op.env);
      case Set(i, value, description) => SetOutcome(w, i, value, description, op.env);
      case Patch(i, value, description) => PatchOutcome(w, i, value, description, op.env);
    }
  }

  /** One more call, successful on this entry or not. */
  lemma HoldsNext(before: Option<Entry>, after: Option<Entry>, ops: seq<Op>, rs: seq<Result>, op: Op, r: Result, id: Id)
    requires |ops| == |rs| && HoldsLatest(before, ops, rs, id)
    requires after == if !Succeeded(op, r, id) then before
                      else Some(Entry(Or(GivenValue(op.call), if before.Some? then before.value.value else ""),
                                      Or(GivenDescription(op.call), if before.Some? then before.value.description else ""),
                                      op.env.now))
    requires Succeeded(op, r, id) && GivenValue(op.call).None? ==> before.Some?
    requires before.None? ==> LatestDescription(ops, rs, id).None?
    ensures HoldsLatest(after, ops + [op], rs + [r], id)
    ensures after.None? ==> LatestDescription(ops + [op], rs + [r], id).None?
  {
    Snoc(ops, op);
    Snoc(rs, r);
  }

  lemma {:induction false} RunHolds(ops: seq<Op>, id: Id)
    requires ServiceRuns.ReadsSucceed(ops, id)
    ensures |Results(EMPTY, ops)| == |ops| && HoldsLatest(Find(Run(EMPTY, ops).store, id), ops, Results(EMPTY, ops), id)
    ensures Find(Run(EMPTY, ops).store, id).None? ==> LatestDescription(ops, Results(EMPTY, ops), id).None?
    decreases |ops|
  {
    ResultsLength(EMPTY, ops);
    if ops != [] {
      var front, op := Front(ops), Last(ops);
      var w := Run(EMPTY, front);
      assert ops == front + [op];
      assert forall i | 0 <= i < |front| :: front[i] == ops[i];
      ResultsLength(EMPTY, front);
      RunHolds(front, id);
      RunSnoc(EMPTY, front, op);
      ExecGives(w, op, id);
      HoldsNext(Find(w.store, id), Find(Run(EMPTY, ops).store, id), front, Results(EMPTY, front), op,
                Exec(w, op.call, op.env).1, id);
    }
  }

  /**
   Last writer wins, field by field: after any run from an empty store in which
   the calls on an entry could read it, the entry is there exactly if one of them
   succeeded, and holds the value and the description given by the latest
   successful call that gave one, and the time of the latest successful call.
   */
  lemma EntryIsLatest(ops: seq<Op>, id: Id)
    requires ServiceRuns.ReadsSucceed(ops, id)
    ensures |Results(EMPTY, ops)| == |ops|
    ensures HoldsLatest(Find(Run(EMPTY, ops).store, id), ops, Results(EMPTY, ops), id)
  {
    RunHolds(ops, id);
  }
}
