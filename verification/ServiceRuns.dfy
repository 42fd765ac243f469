/** Laws of whole runs of the state service, calls executed one after another. */
module ServiceRuns {
  import opened Basics
  import opened States
  import opened ServiceSpec

  // ---------- replaying the event log ----------

  function LastBody(log: seq<Message>, routing: string): Option<string> {
    if log == [] then None
    else if Last(log).routing == routing then Some(Last(log).body)
    else LastBody(Front(log), routing)
  }

  /** Whether the latest attempt under a routing key reached the broker. */
  function LastArrived(log: seq<Message>, routing: string): bool {
    if log == [] then true
    else if Last(log).routing == routing then Last(log).accepted
    else LastArrived(Front(log), routing)
  }

  /** Every stored entry is a valid switch, and the latest attempt for a switch carries its stored value. */
  ghost predicate Replayable(w: World) {
    && ValidStore(w.store)
    && forall key :: ValueAt(w.store, SwitchId(key)) == LastBody(w.log, RoutingKey(SwitchId(key)))
  }

  lemma ExecReplayable(w: World, call: Call, env: Env)
    requires Replayable(w)
    ensures Replayable(Exec(w, call, env).0)
  {
    var w' := Exec(w, call, env).0;
    ExecFrame(w, call, env);
    forall key
      ensures ValueAt(w'.store, SwitchId(key)) == LastBody(w'.log, RoutingKey(SwitchId(key)))
    {
      assert ValueAt(w.store, SwitchId(key)) == LastBody(w.log, RoutingKey(SwitchId(key)));
      assert SwitchId(key) != call.id ==> Find(w'.store, SwitchId(key)) == Find(w.store, SwitchId(key));
      if w'.log != w.log {
        Snoc(w.log, Last(w'.log));
        RoutingInjective(call.id.key, key);
      }
    }
  }

  lemma {:induction false} RunReplayable(w: World, ops: seq<Op>)
    requires Replayable(w)
    ensures Replayable(Run(w, ops))
    decreases |ops|
  {
    if ops != [] {
      ExecReplayable(w, ops[0].call, ops[0].env);
      RunReplayable(Exec(w, ops[0].call, ops[0].env).0, ops[1..]);
    }
  }

  lemma {:induction false} DeliveredLastBody(log: seq<Message>, routing: string)
    ensures LastArrived(log, routing) ==> LastBody(Accepted(log), routing) == LastBody(log, routing)
  {
    if log != [] {
      DeliveredLastBody(Front(log), routing);
      if Last(log).accepted {
        Snoc(Accepted(Front(log)), Last(log));
      }
    }
  }

  /**
   Replay: whatever reads, writes and publishes fail, folding every publish
   attempt of a run from an empty store rebuilds exactly the stored values; the
   events that reached the broker rebuild them on every key whose latest attempt arrived.
   */
  lemma Replay(ops: seq<Op>)
    ensures var w := Run(EMPTY, ops);
            && ValidStore(w.store)
            && forall key :: var r := RoutingKey(SwitchId(key));
                 && ValueAt(w.store, SwitchId(key)) == LastBody(w.log, r)
                 && (LastArrived(w.log, r) ==> ValueAt(w.store, SwitchId(key)) == LastBody(Accepted(w.log), r))
  {
    RunReplayable(EMPTY, ops);
    var w := Run(EMPTY, ops);
    forall key
      ensures LastArrived(w.log, RoutingKey(SwitchId(key))) ==>
                ValueAt(w.store, SwitchId(key)) == LastBody(Accepted(w.log), RoutingKey(SwitchId(key)))
    {
      DeliveredLastBody(w.log, RoutingKey(SwitchId(key)));
    }
  }

  // ---------- events are published only on change ----------

  /** The value a call wrote to one entry, if it succeeded in writing there. */
  function Wrote(w: World, op: Op, id: Id): seq<string> {
    var (w', r) := Exec(w, op.call, op.env);
    if r == Ok && op.call.id == id && id in w'.store then [w'.store[id].value] else []
  }

  /** The values successive calls wrote to one entry. */
  function WrittenTo(w: World, ops: seq<Op>, id: Id): seq<string>
    decreases |ops|
  {
    if ops == [] then [] else
      Wrote(w, ops[0], id) + WrittenTo(Exec(w, ops[0].call, ops[0].env).0, ops[1..], id)
  }

  /** `vs` without the values that repeat their predecessor, `previous` standing before the first. */
  function Compress(previous: Option<string>, vs: seq<string>): seq<string>
    decreases |vs|
  {
    if vs == [] then []
    else if previous == Some(vs[0]) then Compress(previous, vs[1..])
    else [vs[0]] + Compress(Some(vs[0]), vs[1..])
  }

  lemma {:induction false} CompressHasNoRepeats(previous: Option<string>, vs: seq<string>)
    ensures var cs := Compress(previous, vs);
            && (cs != [] ==> previous != Some(cs[0]))
            && forall i | 0 < i < |cs| :: cs[i - 1] != cs[i]
    decreases |vs|
  {
    if vs != [] {
      CompressHasNoRepeats(if previous == Some(vs[0]) then previous else Some(vs[0]), vs[1..]);
    }
  }

  /** Every call on this entry reads it successfully; calls on other entries may fail to read theirs. */
  predicate ReadsSucceed(ops: seq<Op>, id: Id) {
    forall i | 0 <= i < |ops| :: ops[i].call.id == id ==> !ops[i].env.readFails
  }

  lemma BodiesAppend(log: seq<Message>, m: Message, routing: string)
    ensures Bodies(log + [m], routing) == Bodies(log, routing) + if m.routing == routing then [m.body] else []
  {
  }

  lemma ExecAnnounces(w: World, op: Op, key: string)
    requires op.call.id == SwitchId(key) ==> !op.env.readFails
    ensures var w', id := Exec(w, op.call, op.env).0, SwitchId(key);
            var before, after, wrote := ValueAt(w.store, id), ValueAt(w'.store, id), Wrote(w, op, id);
            && |wrote| <= 1 && after == (if wrote == [] then before else Some(wrote[0]))
            && Bodies(w'.log, RoutingKey(id)) == Bodies(w.log, RoutingKey(id)) + if before == after then [] else wrote
  {
    var w' := Exec(w, op.call, op.env).0;
    ExecFrame(w, op.call, op.env);
    if op.call.id != SwitchId(key) {
      assert Find(w'.store, SwitchId(key)) == Find(w.store, SwitchId(key));
    }
    if w'.log != w.log {
      BodiesAppend(w.log, Last(w'.log), RoutingKey(SwitchId(key)));
      RoutingInjective(op.call.id.key, key);
    }
  }

  /** Compressing one more value in front. */
  lemma CompressStep(before: Option<string>, wrote: seq<string>, vs: seq<string>)
    requires |wrote| <= 1
    ensures var after := if wrote == [] then before else Some(wrote[0]);
            Compress(before, wrote + vs) == (if before == after then [] else wrote) + Compress(after, vs)
  {
    if wrote == [] {
      assert wrote + vs == vs;
    } else {
      assert (wrote + vs)[0] == wrote[0] && (wrote + vs)[1..] == vs;
    }
  }

  lemma Joined(bodies: seq<string>, first: seq<string>, rest: seq<string>)
    ensures (bodies + first) + rest == bodies + (first + rest)
  {
  }

  lemma {:induction false} RunAnnounces(w: World, ops: seq<Op>, key: string)
    requires ReadsSucceed(ops, SwitchId(key))
    ensures var id := SwitchId(key);
            Bodies(Run(w, ops).log, RoutingKey(id))
              == Bodies(w.log, RoutingKey(id)) + Compress(ValueAt(w.store, id), WrittenTo(w, ops, id))
    decreases |ops|
  {
    if ops != [] {
      var id := SwitchId(key);
      var w' := Exec(w, ops[0].call, ops[0].env).0;
      ExecAnnounces(w, ops[0], key);
      RunAnnounces(w', ops[1..], key);
      var before, after := ValueAt(w.store, id), ValueAt(w'.store, id);
      var wrote, vs := Wrote(w, ops[0], id), WrittenTo(w', ops[1..], id);
      CompressStep(before, wrote, vs);
      Joined(Bodies(w.log, RoutingKey(id)), if before == after then [] else wrote, Compress(after, vs));
    }
  }

  /**
   Change-only events: when no read of a key fails, the publish attempts for it
   are exactly the values written to it with adjacent repetitions removed.
   */
  lemma ChangeOnly(ops: seq<Op>, key: string)
    requires ReadsSucceed(ops, SwitchId(key))
    ensures Bodies(Run(EMPTY, ops).log, RoutingKey(SwitchId(key)))
         == Compress(None, WrittenTo(EMPTY, ops, SwitchId(key)))
  {
    RunAnnounces(EMPTY, ops, key);
  }

  // ---------- one write operation suffices ----------

  /** The SetState a call amounts to in this store and under these faults, unless it changes nothing. */
  function AsSet(store: Store, call: Call, env: Env): Option<Call> {
    var current := Read(store, call.id, env.readFails);
    if Precheck(call).Some? || AfterRead(call, current).Reject? then None
    else match call
      case Create(id, value, description) => Some(Set(id, value, Some(description)))
      case Set(_, _, _) => Some(call)
      case Patch(id, value, description) => if current.Some? then Some(Set(id, Or(value, current.value.value), description)) else None
  }

  /** Each call is a SetState or does nothing. Without a value, Patch relies on the stored one being valid. */
  lemma CallIsSetOrNothing(w: World, call: Call, env: Env)
    requires ValidStore(w.store)
    ensures match AsSet(w.store, call, env)
            case None => Exec(w, call, env).0 == w && Exec(w, call, env).1 != Ok
            case Some(s) => s.Set? && Exec(w, call, env) == Exec(w, s, env)
  {
  }

  /** The run with every call replaced by its SetState and calls without effect dropped. */
  function SetsOnly(w: World, ops: seq<Op>): seq<Op>
    decreases |ops|
  {
    if ops == [] then [] else
      var s := AsSet(w.store, ops[0].call, ops[0].env);
      (if s.Some? then [Op(s.value, ops[0].env)] else []) + SetsOnly(Exec(w, ops[0].call, ops[0].env).0, ops[1..])
  }

  /** Every run, whatever fails in it, has the store, events and counters of a run of SetStates alone. */
  lemma {:induction false} RunIsSets(w: World, ops: seq<Op>)
    requires ValidStore(w.store)
    ensures forall op | op in SetsOnly(w, ops) :: op.call.Set?
    ensures Run(w, SetsOnly(w, ops)) == Run(w, ops)
    decreases |ops|
  {
    if ops != [] {
      var w' := Exec(w, ops[0].call, ops[0].env).0;
      CallIsSetOrNothing(w, ops[0].call, ops[0].env);
      ExecFrame(w, ops[0].call, ops[0].env);
      RunIsSets(w', ops[1..]);
      var s, rest := AsSet(w.store, ops[0].call, ops[0].env), SetsOnly(w', ops[1..]);
      if s.Some? {
        assert SetsOnly(w, ops) == [Op(s.value, ops[0].env)] + rest;
        assert SetsOnly(w, ops)[1..] == rest;
      } else {
        assert SetsOnly(w, ops) == rest;
      }
    }
  }

  // ---------- what the comments promise, and when it holds ----------

  /**
   A failed read looks like an absent entry, so three promises fail then:
   Create refuses an existing key, Set keeps a description it is not given,
   and Set announces only changes. Each holds exactly as stated here.
   */
  lemma PromisesOnPresentKeys(w: World, id: Id, value: string, description: string, env: Env)
    requires id in w.store && CanTypeChangedWithKey(id, value) && !env.writeFails
    ensures Exec(w, Create(id, value, description), env).1 == AlreadyExists <==> !env.readFails
    ensures Exec(w, Set(id, value, None), env).0.store[id].description == w.store[id].description
       <==> !env.readFails || w.store[id].description == ""
    ensures |Exec(w, Set(id, value, None), env).0.log| > |w.log|
       <==> env.readFails || w.store[id].value != value
  {
  }

}
