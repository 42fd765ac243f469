/**
 One call among many in flight: as long as no other call on its entry overlaps
 it, the call does to that entry what it would do alone in the world in which it
 was made. The comments' promises then hold exactly as they do for a call alone;
 overlapping calls break them without any fault.
 */
module IsolatedCalls {
  import opened Basics
  import opened States
  import opened ServiceSpec
  import opened ServiceRuns
  import opened Interleaving
  import opened Reduction

  /** The call numbered `cid` has got as far as it would have in `w`, and no other call is on its entry. */
  ghost predicate Undisturbed(s: State, w: World, cid: nat, call: Call) {
    && Sober(s) && cid in s.flights && cid < |s.spawned|
    && s.flights[cid].call == call && Partway(s.world, w, s.flights[cid])
    && forall c | c in s.flights && c != cid :: s.flights[c].call.id != call.id
  }

  lemma SpawnUndisturbed(s: State, w: World, cid: nat, call: Call, other: Call)
    requires Undisturbed(s, w, cid, call) && other.id != call.id
    ensures Undisturbed(Next(s, Spawn(other)), w, cid, call)
  {
    NextSober(s, Spawn(other));
  }

  lemma AdvanceUndisturbed(s: State, w: World, cid: nat, call: Call, c: nat, fails: bool, now: int)
    requires Undisturbed(s, w, cid, call) && c in s.flights
    ensures var s' := Next(s, Advance(c, fails, now)); cid in s'.flights ==> Undisturbed(s', w, cid, call)
  {
    var s' := Next(s, Advance(c, fails, now));
    NextSober(s, Advance(c, fails, now));
    AdvanceMoves(s, c, fails, now);
    if c == cid {
      AdvanceOwn(s, w, cid, fails, now);
    } else {
      AdvanceFrame(s, c, fails, now, call.id);
      PartwayStable(s.world, s'.world, w, w, s.flights[cid]);
    }
  }

  /** A call that has completed does not come back. */
  lemma {:induction false} GoneForGood(s: State, labels: seq<Label>, cid: nat)
    requires cid !in s.flights && cid < |s.spawned|
    ensures cid !in Trace(s, labels).flights
    decreases |labels|
  {
    if labels != [] {
      if labels[0].Advance? && labels[0].cid in s.flights {
        AdvanceMoves(s, labels[0].cid, labels[0].fails, labels[0].now);
      }
      GoneForGood(Next(s, labels[0]), labels[1..], cid);
    }
  }

  /** No call is made on this entry. */
  predicate LeftAlone(labels: seq<Label>, id: Id) {
    forall i | 0 <= i < |labels| && labels[i].Spawn? :: labels[i].call.id != id
  }

  lemma {:induction false} TraceUndisturbed(s: State, w: World, cid: nat, call: Call, labels: seq<Label>)
    requires Undisturbed(s, w, cid, call) && LeftAlone(labels, call.id) && cid in Trace(s, labels).flights
    ensures Undisturbed(Trace(s, labels), w, cid, call)
    decreases |labels|
  {
    if labels != [] {
      var s' := Next(s, labels[0]);
      match labels[0] {
        case Spawn(other) => SpawnUndisturbed(s, w, cid, call, other);
        case Advance(c, fails, now) =>
          if c in s.flights {
            AdvanceUndisturbed(s, w, cid, call, c, fails, now);
            AdvanceMoves(s, c, fails, now);
          }
      }
      if cid !in s'.flights {
        GoneForGood(s', labels[1..], cid);
      } else {
        TraceUndisturbed(s', w, cid, call, labels[1..]);
      }
    }
  }

  /**
   A call made after `earlier`, while no other call on its entry is in flight,
   and completed by its next step after `meanwhile`, in which none is made.
   */
  ghost predicate CompletesAlone(w0: World, earlier: seq<Label>, call: Call, meanwhile: seq<Label>, last: Label) {
    var made := Trace(Start(w0), earlier);
    var cid, s := |made.spawned|, Trace(Next(made, Spawn(call)), meanwhile);
    && !Busy(made, call.id) && LeftAlone(meanwhile, call.id)
    && last.Advance? && last.cid == cid && cid in s.flights && cid !in Next(s, last).flights
  }

  /**
   Isolation: whatever calls on other entries do, before or meanwhile and
   overlapping each other as they like, a call that overlaps none on its own
   entry answers, stores and publishes there exactly as it would alone in the
   world in which it was made.
   */
  lemma IsolatedCall(w0: World, earlier: seq<Label>, call: Call, meanwhile: seq<Label>, last: Label)
    requires ValidStore(w0.store) && CompletesAlone(w0, earlier, call, meanwhile, last)
    ensures var made := Trace(Start(w0), earlier);
            var s' := Next(Trace(Next(made, Spawn(call)), meanwhile), last);
            && s'.done != []
            && var d := Last(s'.done);
               && d.cid == |made.spawned| && d.op.call == call
               && d.result == Exec(made.world, call, d.op.env).1
               && AgreeAt(s'.world, Exec(made.world, call, d.op.env).0, call.id)
  {
    var made := Trace(Start(w0), earlier);
    var cid, s0 := |made.spawned|, Next(made, Spawn(call));
    TraceSober(Start(w0), earlier);
    if Precheck(call).Some? {
      GoneForGood(s0, meanwhile, cid);
    } else {
      NextSober(made, Spawn(call));
      assert forall c | c in made.flights :: made.flights[c].call.id != call.id;
      TraceUndisturbed(s0, made.world, cid, call, meanwhile);
      AdvanceLast(Trace(s0, meanwhile), made.world, cid, last.fails, last.now);
    }
  }

  /**
   The promises of PromisesOnPresentKeys among calls in flight: for a call that
   overlaps no other on its key and whose write works, Create refuses a key that
   was there when it was made, Set keeps the description, and Set announces,
   under exactly the conditions that hold for a call alone.
   */
  lemma IsolatedPromises(w0: World, earlier: seq<Label>, call: Call, meanwhile: seq<Label>, last: Label)
    requires ValidStore(w0.store) && CompletesAlone(w0, earlier, call, meanwhile, last) && !call.Patch?
    ensures var made := Trace(Start(w0), earlier);
            var s' := Next(Trace(Next(made, Spawn(call)), meanwhile), last);
            var id, r, before := call.id, RoutingKey(call.id), made.world.store;
            s'.done != [] &&
            var d := Last(s'.done);
            var env := d.op.env;
            call.id in before && CanTypeChangedWithKey(id, call.value) && !env.writeFails ==>
              && id in s'.world.store
              && (call.Create? ==> (d.result == AlreadyExists <==> !env.readFails))
              && (call.Set? && call.newDescription.None? ==>
                    (s'.world.store[id].description == before[id].description <==> !env.readFails || before[id].description == ""))
              && (call.Set? ==>
                    (|Under(s'.world.log, r)| > |Under(made.world.log, r)| <==> env.readFails || before[id].value != call.value))
  {
    IsolatedCall(w0, earlier, call, meanwhile, last);
    var made := Trace(Start(w0), earlier);
    var s' := Next(Trace(Next(made, Spawn(call)), meanwhile), last);
    var env := Last(s'.done).op.env;
    if call.id in made.world.store && CanTypeChangedWithKey(call.id, call.value) && !env.writeFails {
      PromisesOnPresentKeys(made.world, call.id, call.value, if call.Create? then call.description else "", env);
      ExecCounts(made.world, call, env);
    }
  }

  /** A call's messages all come under its own routing key. */
  lemma ExecCounts(w: World, call: Call, env: Env)
    requires call.id.tipe == PREFIX_SWITCH
    ensures var w', r := Exec(w, call, env).0, RoutingKey(call.id);
            |Under(w'.log, r)| - |Under(w.log, r)| == |w'.log| - |w.log|
  {
    ExecFrame(w, call, env);
  }

  // ---------- what overlapping calls break ----------

  /** A Set that has read before a Patch of the description, and writes after it. */
  function LateSet(id: Id, value: string, description: string): seq<Label> {
    var put, patch := Advance(0, false, 0), Advance(1, false, 0);
    [Spawn(Set(id, value, None)), Spawn(Patch(id, None, Some(description)))] + ([put, patch] + ([patch, put] + []))
  }

  /** Both calls have read the same entry. */
  function BothInformed(id: Id, value: string, old': string, new': string): State {
    var put, patch := Set(id, value, None), Patch(id, None, Some(new'));
    State(World(map[id := Entry(value, old', 0)], [], map[]),
          map[0 := Flight(put, Writing(value, old', false), FRESH), 1 := Flight(patch, Writing(value, new', false), FRESH)],
          [put, patch], [], [])
  }

  lemma LateReads(id: Id, value: string, old': string, new': string)
    requires CanTypeChangedWithKey(id, value)
    ensures var s := Start(World(map[id := Entry(value, old', 0)], [], map[]));
            var s' := Next(Next(s, Spawn(Set(id, value, None))), Spawn(Patch(id, None, Some(new'))));
            Next(Next(s', Advance(0, false, 0)), Advance(1, false, 0)) == BothInformed(id, value, old', new')
  {
  }

  /** The Patch has completed, and the Set has yet to write. */
  function PatchWritten(id: Id, value: string, old': string, new': string): State {
    var put, patch := Set(id, value, None), Patch(id, None, Some(new'));
    State(World(map[id := Entry(value, new', 0)], [], map[]), map[0 := Flight(put, Writing(value, old', false), FRESH)],
          [put, patch], [Done(1, Op(patch, FRESH), Ok)], [Effect.Wrote(1, id, value)])
  }

  lemma PatchWrites(id: Id, value: string, old': string, new': string)
    ensures Next(BothInformed(id, value, old', new'), Advance(1, false, 0)) == PatchWritten(id, value, old', new')
  {
  }

  lemma LateWrite(s: State, call: Call, value: string, description: string)
    requires s.flights == map[0 := Flight(call, Writing(value, description, false), FRESH)]
    ensures var s' := Next(s, Advance(0, false, 0));
            && s'.flights == map[] && ResultsOf(s'.done) == ResultsOf(s.done) + [Ok]
            && Find(s'.world.store, call.id) == Some(Entry(value, description, 0))
  {
    Snoc(s.done, Done(0, Op(call, FRESH), Ok));
  }

  /** Without a fault and with both calls successful, the Patch's description is gone. */
  lemma OverlapLosesDescription(id: Id, value: string, old': string, new': string)
    requires CanTypeChangedWithKey(id, value)
    ensures var s := Trace(Start(World(map[id := Entry(value, old', 0)], [], map[])), LateSet(id, value, new'));
            && s.flights == map[] && ResultsOf(s.done) == [Ok, Ok]
            && Find(s.world.store, id) == Some(Entry(value, old', 0))
  {
    var s0, s3 := Start(World(map[id := Entry(value, old', 0)], [], map[])), BothInformed(id, value, old', new');
    var put, patch := Spawn(Set(id, value, None)), Spawn(Patch(id, None, Some(new')));
    var go0, go1 := Advance(0, false, 0), Advance(1, false, 0);
    LateReads(id, value, old', new');
    PatchWrites(id, value, old', new');
    LateWrite(PatchWritten(id, value, old', new'), Set(id, value, None), value, old');
    assert ResultsOf([Done(1, Op(Patch(id, None, Some(new')), FRESH), Ok)]) == [Ok];
    TraceTwo(s0, put, patch, [go0, go1] + ([go1, go0] + []));
    TraceTwo(Next(Next(s0, put), patch), go0, go1, [go1, go0] + []);
    TraceTwo(s3, go1, go0, []);
  }

  /** Two Creates of one key that both read before either writes. */
  function TwoCreates(id: Id, value: string): seq<Label> {
    var go0, go1 := Advance(0, false, 0), Advance(1, false, 0);
    [Spawn(Create(id, value, "")), Spawn(Create(id, value, ""))]
    + ([go0, go1] + ([go0, go1] + ([go0, go0] + ([go1, go1] + []))))
  }

  /** Without a fault both Creates of the same key succeed. */
  lemma OverlapCreatesTwice(id: Id, value: string)
    requires CanTypeChangedWithKey(id, value)
    ensures var s := Trace(Start(EMPTY), TwoCreates(id, value));
            s.flights == map[] && ResultsOf(s.done) == [Ok, Ok]
  {
    var call, go0, go1 := Create(id, value, ""), Advance(0, false, 0), Advance(1, false, 0);
    var s0 := Start(EMPTY).(spawned := [call], flights := map[0 := Flight(call, Reading, FRESH)]);
    var s1 := s0.(spawned := [call, call], flights := map[0 := Flight(call, Reading, FRESH), 1 := Flight(call, Reading, FRESH)]);
    var s2 := s1.(flights := s1.flights[0 := Flight(call, Writing(value, "", true), FRESH)]);
    var s3 := s2.(flights := s2.flights[1 := Flight(call, Writing(value, "", true), FRESH)]);
    assert Next(Start(EMPTY), Spawn(call)) == s0;
    assert Next(s0, Spawn(call)) == s1;
    assert Next(s1, go0) == s2;
    assert Next(s2, go1) == s3;
    CreateStores(s3, 0, call);
    var s4 := Next(s3, go0);
    CreateStores(s4, 1, call);
    var s5 := Next(s4, go1);
    CreatePublishes(s5, 0, call);
    var s7 := Next(Next(s5, go0), go0);
    CreatePublishes(s7, 1, call);
    var s9 := Next(Next(s7, go1), go1);
    assert s9.flights == map[];
    assert ResultsOf(s3.done) == [] && [] + [Ok] + [Ok] == [Ok, Ok];
    TraceTwo(Start(EMPTY), Spawn(call), Spawn(call), [go0, go1] + ([go0, go1] + ([go0, go0] + ([go1, go1] + []))));
    TraceTwo(s1, go0, go1, [go0, go1] + ([go0, go0] + ([go1, go1] + [])));
    TraceTwo(s3, go0, go1, [go0, go0] + ([go1, go1] + []));
    TraceTwo(s5, go0, go0, [go1, go1] + []);
    TraceTwo(s7, go1, go1, []);
  }

  lemma CreateStores(s: State, cid: nat, call: Call)
    requires call.Create? && Find(s.flights, cid) == Some(Flight(call, Writing(call.value, "", true), FRESH))
    ensures var s' := Next(s, Advance(cid, false, 0));
            s'.flights == s.flights[cid := Flight(call, Counting(call.value), FRESH)] && s'.done == s.done
  {
  }

  lemma CreatePublishes(s: State, cid: nat, call: Call)
    requires call.Create? && Find(s.flights, cid) == Some(Flight(call, Counting(call.value), FRESH))
    ensures var go := Advance(cid, false, 0);
            var s' := Next(Next(s, go), go);
            s'.flights == s.flights - {cid} && ResultsOf(s'.done) == ResultsOf(s.done) + [Ok]
  {
    var go := Advance(cid, false, 0);
    var s1 := Next(s, go);
    assert s1.flights == s.flights[cid := Flight(call, Publishing(call.value), FRESH)] && s1.done == s.done;
    var d := Done(cid, Op(call, FRESH), Ok);
    assert Next(s1, go).done == s.done + [d];
    Snoc(s.done, d);
  }
}
