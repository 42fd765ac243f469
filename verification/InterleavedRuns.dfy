/**
 What calls in flight keep of the laws of sequential runs, and a run of two
 overlapping calls that does not.
 */
module InterleavedRuns {
  import opened Basics
  import opened States
  import opened ServiceSpec
  import opened ServiceRuns
  import opened Interleaving
  import opened Reduction
  import ServiceLaws

  lemma {:induction false} LastBodyOfUnder(log: seq<Message>, routing: string)
    ensures LastBody(log, routing) == if Under(log, routing) == [] then None else Some(Last(Under(log, routing)).body)
  {
    if log != [] {
      LastBodyOfUnder(Front(log), routing);
    }
  }

  lemma {:induction false} BodiesOfUnder(log: seq<Message>, routing: string)
    ensures Bodies(log, routing) == Bodies(Under(log, routing), routing)
  {
    if log != [] {
      BodiesOfUnder(Front(log), routing);
      if Last(log).routing == routing {
        BodiesAppend(Under(Front(log), routing), Last(log), routing);
      }
    }
  }

  /** A key no call has written and not yet published is where the sequential run of the completed calls has it. */
  lemma AgreesWithRun(labels: seq<Label>, id: Id)
    requires Separated(Start(EMPTY), labels) && !Pending(Trace(Start(EMPTY), labels), id)
    ensures var s := Trace(Start(EMPTY), labels);
            AgreeAt(s.world, Run(EMPTY, OpsOf(s.done)), id) && Results(EMPTY, OpsOf(s.done)) == ResultsOf(s.done)
  {
    assert InPublish(Start(EMPTY).flights) == {};
    TraceSimulates(Start(EMPTY), EMPTY, labels);
    AgreesUnlessPending(Trace(Start(EMPTY), labels), EMPTY, id);
  }

  /**
   Replay under interleaving: at every moment of a run in which calls on one
   entry do not overlap, whatever fails, all attempts so far rebuild the stored
   value of every key that no call has written and not yet published, and the
   accepted ones do when the latest of its attempts arrived.
   */
  lemma InterleavedReplay(labels: seq<Label>, key: string)
    requires Separated(Start(EMPTY), labels) && !Pending(Trace(Start(EMPTY), labels), SwitchId(key))
    ensures var s, id, r := Trace(Start(EMPTY), labels), SwitchId(key), RoutingKey(SwitchId(key));
            && ValueAt(s.world.store, id) == LastBody(s.world.log, r)
            && (LastArrived(s.world.log, r) ==> ValueAt(s.world.store, id) == LastBody(Accepted(s.world.log), r))
  {
    var s, r := Trace(Start(EMPTY), labels), RoutingKey(SwitchId(key));
    AgreesWithRun(labels, SwitchId(key));
    Replay(OpsOf(s.done));
    LastBodyOfUnder(s.world.log, r);
    LastBodyOfUnder(Run(EMPTY, OpsOf(s.done)).log, r);
    DeliveredLastBody(s.world.log, r);
  }

  /**
   Change-only events under interleaving: the attempts for such a key are the
   values its completed calls wrote, without adjacent repetitions, when none of
   them failed to read.
   */
  lemma InterleavedChangeOnly(labels: seq<Label>, key: string)
    requires Separated(Start(EMPTY), labels) && !Pending(Trace(Start(EMPTY), labels), SwitchId(key))
    requires ReadsSucceed(OpsOf(Trace(Start(EMPTY), labels).done), SwitchId(key))
    ensures var s, id := Trace(Start(EMPTY), labels), SwitchId(key);
            Bodies(s.world.log, RoutingKey(id)) == Compress(None, WrittenTo(EMPTY, OpsOf(s.done), id))
  {
    var s, r := Trace(Start(EMPTY), labels), RoutingKey(SwitchId(key));
    AgreesWithRun(labels, SwitchId(key));
    ChangeOnly(OpsOf(s.done), key);
    BodiesOfUnder(s.world.log, r);
    BodiesOfUnder(Run(EMPTY, OpsOf(s.done)).log, r);
  }

  /**
   Last writer wins under interleaving: such an entry holds what the latest of its
   completed calls gave, when none of those calls failed to read.
   */
  lemma InterleavedEntry(labels: seq<Label>, id: Id)
    requires Separated(Start(EMPTY), labels) && !Pending(Trace(Start(EMPTY), labels), id)
    requires ReadsSucceed(OpsOf(Trace(Start(EMPTY), labels).done), id)
    ensures var s := Trace(Start(EMPTY), labels);
            && |OpsOf(s.done)| == |ResultsOf(s.done)|
            && ServiceLaws.HoldsLatest(Find(s.world.store, id), OpsOf(s.done), ResultsOf(s.done), id)
  {
    AgreesWithRun(labels, id);
    ServiceLaws.EntryIsLatest(OpsOf(Trace(Start(EMPTY), labels).done), id);
  }

  /** Two overlapping calls on one key that store in one order and publish in the other. */
  function Crossed(key: string): seq<Label> {
    var go0, go1 := Advance(0, false, 0), Advance(1, false, 0);
    [Spawn(Set(SwitchId(key), STATE_ON, None)), Spawn(Set(SwitchId(key), STATE_OFF, None))]
    + ([go0, go1] + ([go0, go1] + ([go1, go1] + ([go0, go0] + []))))
  }

  /** Both calls have read an absent entry. */
  function BothRead(key: string): State {
    var id := SwitchId(key);
    var on, off := Set(id, STATE_ON, None), Set(id, STATE_OFF, None);
    State(EMPTY, map[0 := Flight(on, Writing(STATE_ON, "", true), FRESH), 1 := Flight(off, Writing(STATE_OFF, "", true), FRESH)],
          [on, off], [], [])
  }

  /** Both calls have stored, the second over the first, and neither has published. */
  function BothStored(key: string): State {
    var id := SwitchId(key);
    var on, off := Set(id, STATE_ON, None), Set(id, STATE_OFF, None);
    State(World(map[id := Entry(STATE_OFF, "", 0)], [], map[]),
          map[0 := Flight(on, Counting(STATE_ON), FRESH), 1 := Flight(off, Counting(STATE_OFF), FRESH)],
          [on, off], [], [Effect.Wrote(0, id, STATE_ON), Effect.Wrote(1, id, STATE_OFF)])
  }

  lemma CrossedReads(key: string)
    requires key != ""
    ensures var id, go0, go1 := SwitchId(key), Advance(0, false, 0), Advance(1, false, 0);
            var s := Next(Next(Start(EMPTY), Spawn(Set(id, STATE_ON, None))), Spawn(Set(id, STATE_OFF, None)));
            Next(Next(s, go0), go1) == BothRead(key)
  {
  }

  lemma CrossedWrites(key: string)
    requires key != ""
    ensures Next(Next(BothRead(key), Advance(0, false, 0)), Advance(1, false, 0)) == BothStored(key)
  {
  }

  lemma CrossedStores(key: string, rest: seq<Label>)
    requires key != ""
    ensures var go0, go1 := Advance(0, false, 0), Advance(1, false, 0);
            var spawns := [Spawn(Set(SwitchId(key), STATE_ON, None)), Spawn(Set(SwitchId(key), STATE_OFF, None))];
            Trace(Start(EMPTY), spawns + ([go0, go1] + ([go0, go1] + rest))) == Trace(BothStored(key), rest)
  {
    var id, go0, go1 := SwitchId(key), Advance(0, false, 0), Advance(1, false, 0);
    var on, off := Set(id, STATE_ON, None), Set(id, STATE_OFF, None);
    CrossedReads(key);
    CrossedWrites(key);
    TraceTwo(Start(EMPTY), Spawn(on), Spawn(off), [go0, go1] + ([go0, go1] + rest));
    TraceTwo(Next(Next(Start(EMPTY), Spawn(on)), Spawn(off)), go0, go1, [go0, go1] + rest);
    TraceTwo(BothRead(key), go0, go1, rest);
  }

  lemma CrossedPublishes(key: string)
    requires key != ""
    ensures var go0, go1 := Advance(0, false, 0), Advance(1, false, 0);
            var s := Trace(BothStored(key), [go1, go1] + ([go0, go0] + []));
            && s.flights == map[] && s.world.store == BothStored(key).world.store
            && s.world.log == [Message(RoutingKey(SwitchId(key)), STATE_OFF, true), Message(RoutingKey(SwitchId(key)), STATE_ON, true)]
  {
    var id, go0, go1 := SwitchId(key), Advance(0, false, 0), Advance(1, false, 0);
    var on, off := Set(id, STATE_ON, None), Set(id, STATE_OFF, None);
    var s0 := BothStored(key);
    var s1 := s0.(flights := s0.flights[1 := Flight(off, Publishing(STATE_OFF), FRESH)], world := Counted(s0.world, id.tipe));
    var s2 := Next(s1, go1);
    assert Next(s0, go1) == s1;
    assert s2.flights == map[0 := Flight(on, Counting(STATE_ON), FRESH)];
    assert s2.world == Published(s1.world, id, STATE_OFF, false);
    var s3 := s2.(flights := map[0 := Flight(on, Publishing(STATE_ON), FRESH)], world := Counted(s2.world, id.tipe));
    var s4 := Next(s3, go0);
    assert Next(s2, go0) == s3;
    assert s4.flights == map[];
    assert s4.world == Published(s3.world, id, STATE_ON, false);
    TraceTwo(s0, go1, go1, [go0, go0] + []);
    TraceTwo(s2, go0, go0, []);
  }

  /** The whole run: off is stored and on is published last. */
  lemma OverlapRuns(key: string)
    requires key != ""
    ensures var s, r := Trace(Start(EMPTY), Crossed(key)), RoutingKey(SwitchId(key));
            && s.flights == map[] && ValueAt(s.world.store, SwitchId(key)) == Some(STATE_OFF)
            && s.world.log == [Message(r, STATE_OFF, true), Message(r, STATE_ON, true)]
  {
    var go0, go1 := Advance(0, false, 0), Advance(1, false, 0);
    CrossedStores(key, [go1, go1] + ([go0, go0] + []));
    CrossedPublishes(key);
  }

  /** Without that hypothesis replay fails: no fault occurs, and the last event is not the stored value. */
  lemma OverlapBreaksReplay(key: string)
    requires key != ""
    ensures var s := Trace(Start(EMPTY), Crossed(key));
            && s.flights == map[]
            && ValueAt(s.world.store, SwitchId(key)) == Some(STATE_OFF)
            && LastBody(s.world.log, RoutingKey(SwitchId(key))) == Some(STATE_ON)
  {
    OverlapRuns(key);
  }
}
