/**
 Where convergence stops: what the order of steps in `setup` leaves, exactly, and
 runs in which its gap and overlapping calls leave a drained device wrong.
 */
module Scenarios {
  import opened Basics
  import opened States
  import opened StateService
  import opened ServiceSpec
  import opened Interleaving
  import opened DeviceSpec
  import opened DeviceLaws
  import opened Replication
  import opened Convergence
  import opened DeviceRuns
  import opened InterleavedRuns

  // ---------- the setup order ----------

  function ServerEvents(labels: seq<Label>): seq<Event> {
    if labels == [] then [] else [Server(labels[0])] + ServerEvents(labels[1..])
  }

  /** While the device is not subscribed, the service works without it. */
  lemma {:induction false} UnsubscribedServer(b: Board, sys: System, labels: seq<Label>)
    requires Fits(b, sys.panel) && !sys.subscribed
    ensures Play(b, sys, ServerEvents(labels)) == sys.(svc := Trace(sys.svc, labels))
    decreases |labels|
  {
    if labels != [] {
      var sys' := sys.(svc := Next(sys.svc, labels[0]));
      assert Step(b, sys, Server(labels[0])) == sys';
      assert ServerEvents(labels)[0] == Server(labels[0]) && ServerEvents(labels)[1..] == ServerEvents(labels[1..]);
      UnsubscribedServer(b, sys', labels[1..]);
    }
  }

  /** `setup` takes its snapshot before it subscribes, with the service at work during and after the sync. */
  function SetupEvents(r: Response, during: seq<Label>, after: seq<Label>): seq<Event> {
    SyncWith(r, ServerEvents(during)) + ServerEvents(after) + [Subscribe]
  }

  lemma SetupRuns(b: Board, sys: System, r: Response, during: seq<Label>, after: seq<Label>)
    requires Fits(b, sys.panel) && !sys.subscribed && sys.snap.None? && Answers(b, sys, r)
    ensures Play(b, sys, SetupEvents(r, during, after)) ==
              System(Trace(Trace(sys.svc, during), after), true, [], SyncPanel(b, sys.panel, r), None, false, {})
  {
    var end := if r.Success() then ApplySnapshot else FailSync;
    var s1 := Step(b, sys, TakeSnapshot);
    var s2 := Play(b, s1, ServerEvents(during));
    var s3 := Step(b, s2, end);
    var s4 := Play(b, s3, ServerEvents(after));
    PlaySplit(b, sys, SyncWith(r, ServerEvents(during)) + ServerEvents(after), [Subscribe]);
    PlaySplit(b, sys, SyncWith(r, ServerEvents(during)), ServerEvents(after));
    PlaySplit(b, sys, [TakeSnapshot] + ServerEvents(during), [end]);
    PlaySplit(b, sys, [TakeSnapshot], ServerEvents(during));
    PlayOne(b, sys, TakeSnapshot);
    UnsubscribedServer(b, s1, during);
    PlayOne(b, s2, end);
    UnsubscribedServer(b, s3, after);
    PlayOne(b, s4, Subscribe);
  }

  /**
   What `setup` leaves: whatever the service does until the subscription stands,
   a switch stored by then shows its stored value exactly when the sync carried
   that same value, or, if it carried none, when the switch showed it already.
   */
  lemma SetupShows(b: Board, sys: System, r: Response, during: seq<Label>, after: seq<Label>, i: nat)
    requires b.WellFormed() && Fits(b, sys.panel) && i < |b.names|
    requires !sys.subscribed && sys.snap.None? && Sober(sys.svc) && Answers(b, sys, r)
    ensures var sys', key := Play(b, sys, SetupEvents(r, during, after)), b.Key(i);
            var before, now := StoredAt(sys, key), StoredAt(sys', key);
            && sys'.svc == Trace(Trace(sys.svc, during), after) && sys'.subscribed && sys'.queue == [] && sys'.lost == {}
            && (now.Some? ==>
                  (Shows(b, sys'.panel, i, now.value == STATE_ON) <==>
                     if r.Success() && before.Some? then before == now else Shows(b, sys.panel, i, now.value == STATE_ON)))
  {
    SetupRuns(b, sys, r, during, after);
    TraceSober(sys.svc, during);
    TraceSober(Trace(sys.svc, during), after);
    if r.Success() {
      EndToEndSync(b, sys.panel, sys.svc.world.store, i);
    }
  }

  /**
   From power-on, when every switch is believed on and driven off, `setup` leaves
   a stored switch right exactly when its sync succeeds and the stored value is
   the same at the snapshot and at the subscription.
   */
  lemma SetupFromPowerOn(b: Board, w: World, pins: map<int, Level>, r: Response, during: seq<Label>, after: seq<Label>, i: nat)
    requires b.WellFormed() && i < |b.names| && ValidStore(w.store)
    requires Answers(b, Boot(w, PoweredOn(b, pins)), r)
    ensures var sys, key := Boot(w, PoweredOn(b, pins)), b.Key(i);
            var sys' := Play(b, sys, SetupEvents(r, during, after));
            StoredAt(sys', key).Some? ==>
              (Shows(b, sys'.panel, i, StoredAt(sys', key).value == STATE_ON) <==>
                 r.Success() && StoredAt(sys, key) == StoredAt(sys', key))
  {
    SetupShows(b, Boot(w, PoweredOn(b, pins)), r, during, after, i);
    PinsOffAt(b, pins, |b.names|, i);
  }

  /** All the steps of one SetState, met by no fault. */
  function SetSteps(id: Id, value: string): seq<Label> {
    var go := Advance(0, false, 0);
    [Spawn(Set(id, value, None)), go, go, go, go]
  }

  /** After its first three steps the call has decided, stored and counted. */
  lemma SetStores(w: World, id: Id, value: string)
    requires CanTypeChangedWithKey(id, value) && ValueAt(w.store, id).Some? && ValueAt(w.store, id) != Some(value)
    ensures var go := Advance(0, false, 0);
            var s := Next(Next(Next(Start(w), Spawn(Set(id, value, None))), go), go);
            s.flights == map[0 := Flight(Set(id, value, None), Counting(value), FRESH)] && ValueAt(s.world.store, id) == Some(value)
  {
  }

  lemma SetPublishes(s: State, id: Id, value: string)
    requires s.flights == map[0 := Flight(Set(id, value, None), Counting(value), FRESH)]
    ensures var go := Advance(0, false, 0);
            var s' := Next(Next(s, go), go);
            s'.flights == map[] && s'.world.store == s.world.store
  {
  }

  lemma SetAlone(w: World, id: Id, value: string)
    requires CanTypeChangedWithKey(id, value) && ValueAt(w.store, id).Some? && ValueAt(w.store, id) != Some(value)
    ensures var s := Trace(Start(w), SetSteps(id, value));
            s.flights == map[] && ValueAt(s.world.store, id) == Some(value)
  {
    var call, go := Set(id, value, None), Advance(0, false, 0);
    SetStores(w, id, value);
    var s3 := Next(Next(Next(Start(w), Spawn(call)), go), go);
    SetPublishes(s3, id, value);
    TraceTwo(Start(w), Spawn(call), go, [go, go, go]);
    TraceThree(Next(Next(Start(w), Spawn(call)), go), go);
    assert SetSteps(id, value) == [Spawn(call), go] + [go, go, go];
  }

  lemma TraceThree(s: State, a: Label)
    ensures Trace(s, [a, a, a]) == Next(Next(Next(s, a), a), a)
  {
    TraceTwo(s, a, a, [a]);
    assert [a, a, a] == [a, a] + [a];
    assert [a][1..] == [];
  }

  /**
   The gap in that order: one change made while `setup` waits for its snapshot.
   Every call has completed, every publish was accepted, nothing is queued, and
   still the device shows off what is stored on.
   */
  lemma SetupOrderMisses(b: Board, p: Panel, i: nat, description: string)
    requires Replicable(b) && Fits(b, p) && i < |b.names|
    ensures var id := SwitchId(b.Key(i));
            var w := World(map[id := Entry(STATE_OFF, description, 0)], [], map[]);
            var r := Response(200, Some(Snapshot(w.store, Keys(b))));
            var sys := Play(b, Boot(w, p), SetupEvents(r, SetSteps(id, STATE_ON), []));
            && sys.svc.flights == map[] && sys.queue == [] && sys.snap.None? && sys.subscribed && sys.lost == {}
            && StoredAt(sys, b.Key(i)) == Some(STATE_ON) && Shows(b, sys.panel, i, false)
  {
    var id := SwitchId(b.Key(i));
    KeyNonempty(b, i);
    var w := World(map[id := Entry(STATE_OFF, description, 0)], [], map[]);
    SetupRuns(b, Boot(w, p), Response(200, Some(Snapshot(w.store, Keys(b)))), SetSteps(id, STATE_ON), []);
    SetAlone(w, id, STATE_ON);
    EndToEndSync(b, p, w.store, i);
  }

  // ---------- overlapping calls ----------

  function PushesOf(log: seq<Message>): seq<Push> {
    if log == [] then [] else PushesOf(Front(log)) + [Push(Bridge(Last(log).routing), Last(log).body)]
  }

  predicate Faultless(labels: seq<Label>) {
    forall i | 0 <= i < |labels| && labels[i].Advance? :: !labels[i].fails
  }

  lemma FaultlessStep(sys: System, act: Label)
    requires act.Advance? ==> !act.fails
    requires sys.subscribed && sys.lost == {} && sys.queue == PushesOf(sys.svc.world.log)
    ensures ServerStep(sys, act) == sys.(svc := Next(sys.svc, act), queue := PushesOf(Next(sys.svc, act).world.log))
  {
    if act.Advance? && act.cid in sys.svc.flights {
      var f := sys.svc.flights[act.cid];
      ServerStepIs(sys, act.cid, false, act.now);
      if f.pc.Publishing? {
        Snoc(sys.svc.world.log, Message(RoutingKey(f.call.id), f.pc.value, true));
      }
    }
  }

  /** From a fresh subscription on, the queue of a faultless run holds its whole log. */
  lemma {:induction false} FaultlessServer(b: Board, sys: System, labels: seq<Label>)
    requires Fits(b, sys.panel) && Faultless(labels)
    requires sys.subscribed && sys.lost == {} && sys.queue == PushesOf(sys.svc.world.log)
    ensures Play(b, sys, ServerEvents(labels)) ==
              sys.(svc := Trace(sys.svc, labels), queue := PushesOf(Trace(sys.svc, labels).world.log))
    decreases |labels|
  {
    if labels != [] {
      FaultlessStep(sys, labels[0]);
      assert ServerEvents(labels)[0] == Server(labels[0]) && ServerEvents(labels)[1..] == ServerEvents(labels[1..]);
      FaultlessServer(b, Step(b, sys, Server(labels[0])), labels[1..]);
    }
  }

  /** A device that has subscribed and synced with an empty store. */
  lemma FreshSync(b: Board, p: Panel)
    requires Fits(b, p)
    ensures Play(b, Boot(EMPTY, p), [Subscribe, TakeSnapshot, ApplySnapshot]) == System(Start(EMPTY), true, [], p, None, true, {})
  {
    var s1 := Boot(EMPTY, p).(subscribed := true);
    var s2 := Step(b, s1, TakeSnapshot);
    EmptySnapshot(Keys(b));
    assert s2.snap.value.items == [] && s2.snap.value.heals == {};
    var s3 := Step(b, s2, ApplySnapshot);
    assert [Subscribe, TakeSnapshot, ApplySnapshot] == [Subscribe] + ([TakeSnapshot] + [ApplySnapshot]);
    PlaySplit(b, Boot(EMPTY, p), [Subscribe], [TakeSnapshot] + [ApplySnapshot]);
    PlaySplit(b, s1, [TakeSnapshot], [ApplySnapshot]);
    PlayOne(b, Boot(EMPTY, p), Subscribe);
    PlayOne(b, s1, TakeSnapshot);
    PlayOne(b, s2, ApplySnapshot);
  }

  lemma {:induction false} EmptySnapshot(keys: seq<string>)
    ensures Snapshot(map[], keys) == []
    decreases |keys|
  {
    if keys != [] {
      EmptySnapshot(Front(keys));
      BatchSnoc(map[], PREFIX_SWITCH, Front(keys), Last(keys));
      assert keys == Front(keys) + [Last(keys)];
    }
  }

  /** Two pushes for a switch, delivered one after the other, leave it as the second says. */
  lemma TwoDeliveries(b: Board, sys: System, i: nat)
    requires Replicable(b) && Fits(b, sys.panel) && i < |b.names| && sys.subscribed && sys.snap.None?
    requires sys.queue == [Push(TopicOf(b.Key(i)), STATE_OFF), Push(TopicOf(b.Key(i)), STATE_ON)]
    ensures var sys' := Play(b, sys, [Deliver, Deliver]);
            sys' == sys.(queue := [], panel := sys'.panel) && Shows(b, sys'.panel, i, true)
  {
    var topic := TopicOf(b.Key(i));
    var s1 := Step(b, sys, Deliver);
    assert s1.queue == [Push(topic, STATE_ON)];
    assert [Deliver, Deliver] == [Deliver] + [Deliver];
    PlaySplit(b, sys, [Deliver], [Deliver]);
    PlayOne(b, sys, Deliver);
    PlayOne(b, s1, Deliver);
    PushMatches(b, topic, i);
    PlainTopic(b.Key(i), b.Key(i));
    ValidText(STATE_ON);
    SetSwitchAt(b, s1.panel, topic, STATE_ON, i);
  }

  /**
   What Converges needs its hypothesis for: a synced device, two overlapping calls
   on one key, no fault, every push delivered, and the device shows on what is
   stored off, with nothing left on its way that could correct it.
   */
  lemma OverlapBreaksConvergence(b: Board, p: Panel, i: nat)
    requires Replicable(b) && Fits(b, p) && i < |b.names|
    ensures var ready := Play(b, Boot(EMPTY, p), [Subscribe, TakeSnapshot, ApplySnapshot]);
            var sys := Play(b, Play(b, ready, ServerEvents(Crossed(b.Key(i)))), [Deliver, Deliver]);
            && ready.subscribed && ready.synced
            && sys.subscribed && sys.synced && sys.snap.None? && sys.queue == [] && sys.lost == {} && sys.svc.flights == map[]
            && StoredAt(sys, b.Key(i)) == Some(STATE_OFF) && Shows(b, sys.panel, i, true)
  {
    var key := b.Key(i);
    KeyNonempty(b, i);
    FreshSync(b, p);
    var start := System(Start(EMPTY), true, [], p, None, true, {});
    FaultlessServer(b, start, Crossed(key));
    OverlapRuns(key);
    var log := Trace(Start(EMPTY), Crossed(key)).world.log;
    assert log == [Message(RoutingKey(SwitchId(key)), STATE_OFF, true)] + [Message(RoutingKey(SwitchId(key)), STATE_ON, true)];
    assert PushesOf(log) == [Push(TopicOf(key), STATE_OFF), Push(TopicOf(key), STATE_ON)];
    TwoDeliveries(b, Play(b, start, ServerEvents(Crossed(key))), i);
  }
}
