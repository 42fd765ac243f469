/**
 Convergence: while calls on one entry do not overlap, the device, brought up to
 date by the snapshot and the pushes on their way to it, is the store.
 */
module Convergence {
  import opened Basics
  import opened States
  import opened ServiceSpec
  import opened Interleaving
  import opened Reduction
  import opened DeviceSpec
  import opened DeviceLaws
  import opened Replication

  /** Nothing more is on its way to the device for this key. */
  ghost predicate Settled(sys: System, key: string) {
    !Pending(sys.svc, SwitchId(key)) && LastPayload(sys.queue, TopicOf(key)).None?
  }

  predicate Live(sys: System) {
    sys.snap.Some? && sys.snap.value.live
  }

  /** No publish of this key has been lost, or the snapshot on its way makes it good. */
  predicate Sound(sys: System, key: string) {
    var r := RoutingKey(SwitchId(key));
    r in sys.lost ==> sys.snap.Some? && r in sys.snap.value.heals
  }

  function StoredAt(sys: System, key: string): Option<string> {
    ValueAt(sys.svc.world.store, SwitchId(key))
  }

  /** The invariant for switch `i`: what is queued last, shown, or carried by the snapshot is what is stored. */
  ghost predicate KeyInv(b: Board, sys: System, i: nat)
    requires Fits(b, sys.panel) && i < |b.names|
  {
    var key := b.Key(i);
    && (sys.subscribed && Sound(sys, key) && !Pending(sys.svc, SwitchId(key)) && LastPayload(sys.queue, TopicOf(key)).Some?
        ==> StoredAt(sys, key) == LastPayload(sys.queue, TopicOf(key)))
    && (sys.synced && RoutingKey(SwitchId(key)) !in sys.lost && Settled(sys, key) && StoredAt(sys, key).Some?
        ==> Shows(b, sys.panel, i, StoredAt(sys, key).value == STATE_ON))
    && (Live(sys) && Sound(sys, key) && Settled(sys, key) && StoredAt(sys, key).Some?
        ==> LastValue(sys.snap.value.items, key) == StoredAt(sys, key))
  }

  ghost predicate Inv(b: Board, sys: System) {
    && Fits(b, sys.panel) && Coherent(sys.svc)
    && (forall m | m in sys.queue :: m.topic != "" && m.topic[0] == 'h')
    && (sys.synced ==> sys.subscribed) && (Live(sys) ==> sys.subscribed)
    && (sys.snap.Some? && !sys.snap.value.live ==> !sys.subscribed)
    && forall i: nat | i < |b.names| :: KeyInv(b, sys, i)
  }

  // ---------- steps of the service ----------

  lemma TopicsDiffer(a: string, c: string)
    requires Plain(a)
    ensures TopicOf(c) == TopicOf(a) <==> c == a
  {
    PlainTopic(a, c);
    PlainTopic(a, a);
  }

  /** Only a publish attempt reaches the broker, as one message. */
  lemma ServerStepIs(sys: System, cid: nat, fails: bool, now: int)
    requires cid in sys.svc.flights
    ensures var f := sys.svc.flights[cid];
            var sys' := sys.(svc := Next(sys.svc, Advance(cid, fails, now)));
            ServerStep(sys, Advance(cid, fails, now)) ==
              if f.pc.Publishing? then Announce(sys', Message(RoutingKey(f.call.id), f.pc.value, !fails)) else sys'
  {
  }

  /** A step of the service that leaves this entry alone. */
  lemma ServiceFrame(b: Board, sys: System, s': State, i: nat)
    requires Fits(b, sys.panel) && i < |b.names| && KeyInv(b, sys, i)
    requires Pending(s', SwitchId(b.Key(i))) <==> Pending(sys.svc, SwitchId(b.Key(i)))
    requires Find(s'.world.store, SwitchId(b.Key(i))) == Find(sys.svc.world.store, SwitchId(b.Key(i)))
    ensures KeyInv(b, sys.(svc := s'), i)
  {
  }

  /** A step of a call on another entry. */
  lemma OtherStep(b: Board, sys: System, cid: nat, fails: bool, now: int, i: nat)
    requires Inv(b, sys) && Replicable(b) && i < |b.names| && cid in sys.svc.flights
    requires sys.svc.flights[cid].call.id != SwitchId(b.Key(i))
    ensures KeyInv(b, ServerStep(sys, Advance(cid, fails, now)), i)
  {
    var key, f, s' := b.Key(i), sys.svc.flights[cid], Next(sys.svc, Advance(cid, fails, now));
    AdvanceInformed(sys.svc, cid, fails, now);
    AdvanceMoves(sys.svc, cid, fails, now);
    PendingFrame(sys.svc, s', cid, SwitchId(key));
    ServiceFrame(b, sys, s', i);
    ServerStepIs(sys, cid, fails, now);
    if f.pc.Publishing? {
      assert f.call.id == SwitchId(f.call.id.key);
      TopicsDiffer(key, f.call.id.key);
      RoutingInjective(f.call.id.key, key);
      AnnounceOther(b, sys.(svc := s'), Message(RoutingKey(f.call.id), f.pc.value, !fails), i);
    }
  }

  lemma PendingFrame(s: State, s': State, cid: nat, id: Id)
    requires MovesOrCompletes(s, s', cid) && s.flights[cid].call.id != id
    ensures Pending(s', id) <==> Pending(s, id)
  {
    if Pending(s, id) {
      var c :| c in s.flights && s.flights[c].call.id == id && Owing(s.flights[c]);
      assert c in s'.flights && s'.flights[c] == s.flights[c];
    }
    if Pending(s', id) {
      var c :| c in s'.flights && s'.flights[c].call.id == id && Owing(s'.flights[c]);
      assert c in s.flights && s'.flights[c] == s.flights[c];
    }
  }

  lemma AnnounceOther(b: Board, sys: System, m: Message, i: nat)
    requires Fits(b, sys.panel) && i < |b.names| && KeyInv(b, sys, i)
    requires Bridge(m.routing) != TopicOf(b.Key(i)) && m.routing != RoutingKey(SwitchId(b.Key(i)))
    ensures KeyInv(b, Announce(sys, m), i)
  {
  }

  /** A step of the call on this very entry, short of publishing; there is only one such call. */
  lemma OwnQuietStep(b: Board, sys: System, cid: nat, fails: bool, now: int, i: nat)
    requires Inv(b, sys) && i < |b.names| && cid in sys.svc.flights
    requires sys.svc.flights[cid].call.id == SwitchId(b.Key(i)) && !sys.svc.flights[cid].pc.Publishing?
    ensures KeyInv(b, sys.(svc := Next(sys.svc, Advance(cid, fails, now))), i)
  {
    var s, f, id := sys.svc, sys.svc.flights[cid], SwitchId(b.Key(i));
    var s' := Next(s, Advance(cid, fails, now));
    AdvanceMoves(s, cid, fails, now);
    PendingOwn(s, s', cid);
    if !Pending(s', id) {
      assert !f.pc.Counting?;
      assert Informed(s.world.store, f);
      assert ValueAt(s'.world.store, id) == ValueAt(s.world.store, id);
      assert KeyInv(b, sys, i);
    }
  }

  /** The publish of this entry's call: what the queue now ends with is what is stored. */
  lemma OwnPublishStep(b: Board, sys: System, cid: nat, fails: bool, now: int, i: nat)
    requires Inv(b, sys) && i < |b.names| && cid in sys.svc.flights
    requires sys.svc.flights[cid].call.id == SwitchId(b.Key(i)) && sys.svc.flights[cid].pc.Publishing?
    ensures KeyInv(b, ServerStep(sys, Advance(cid, fails, now)), i)
  {
  }

  lemma PendingOwn(s: State, s': State, cid: nat)
    requires Coherent(s) && MovesOrCompletes(s, s', cid)
    ensures Pending(s, s.flights[cid].call.id) <==> Owing(s.flights[cid])
    ensures Pending(s', s.flights[cid].call.id) <==> cid in s'.flights && Owing(s'.flights[cid])
  {
  }

  lemma SpawnStep(b: Board, sys: System, call: Call, i: nat)
    requires Inv(b, sys) && i < |b.names|
    ensures KeyInv(b, ServerStep(sys, Spawn(call)), i)
  {
    var s, s', id := sys.svc, Next(sys.svc, Spawn(call)), SwitchId(b.Key(i));
    assert KeyInv(b, sys, i);
    assert |s.spawned| !in s.flights;
    SpawnShape(s, call);
    if Pending(s, id) {
      var c :| c in s.flights && s.flights[c].call.id == id && Owing(s.flights[c]);
      assert c in s'.flights && s'.flights[c] == s.flights[c];
    }
    if Pending(s', id) {
      var c :| c in s'.flights && s'.flights[c].call.id == id && Owing(s'.flights[c]);
      assert c in s.flights && s'.flights[c] == s.flights[c];
    }
  }

  lemma ServerInv(b: Board, sys: System, act: Label)
    requires Inv(b, sys) && Replicable(b) && (act.Spawn? ==> !Busy(sys.svc, act.call.id))
    ensures Inv(b, ServerStep(sys, act))
  {
    NextCoherent(sys.svc, act);
    ServerQueue(b, sys, act);
    forall i: nat | i < |b.names|
      ensures KeyInv(b, ServerStep(sys, act), i)
    {
      match act
      case Spawn(call) => SpawnStep(b, sys, call, i);
      case Advance(cid, fails, now) =>
        if cid !in sys.svc.flights {
          assert KeyInv(b, sys, i) && ServerStep(sys, act) == sys;
        } else if sys.svc.flights[cid].call.id == SwitchId(b.Key(i)) {
          if sys.svc.flights[cid].pc.Publishing? {
            OwnPublishStep(b, sys, cid, fails, now, i);
          } else {
            ServerStepIs(sys, cid, fails, now);
            OwnQuietStep(b, sys, cid, fails, now, i);
          }
        } else {
          OtherStep(b, sys, cid, fails, now, i);
        }
    }
  }

  lemma ServerQueue(b: Board, sys: System, act: Label)
    requires Inv(b, sys)
    ensures var sys' := ServerStep(sys, act);
            && (forall m | m in sys'.queue :: m.topic != "" && m.topic[0] == 'h')
            && sys'.subscribed == sys.subscribed && sys'.synced == sys.synced && sys'.panel == sys.panel
            && sys'.snap.Some? == sys.snap.Some? && Live(sys') == Live(sys)
  {
  }

  // ---------- steps of the device ----------

  lemma {:induction false} LastPayloadFront(m: Push, queue: seq<Push>, topic: string)
    ensures LastPayload([m] + queue, topic) ==
              if LastPayload(queue, topic).Some? then LastPayload(queue, topic)
              else if m.topic == topic then Some(m.payload) else None
  {
    if queue == [] {
      assert [m] + queue == [m];
      assert Front([m]) == [];
    } else {
      assert Front([m] + queue) == [m] + Front(queue) && Last([m] + queue) == Last(queue);
      LastPayloadFront(m, Front(queue), topic);
    }
  }

  lemma ValidText(value: string)
    requires value == STATE_ON || value == STATE_OFF
    ensures CString(value) == value && IsOn(value) == (value == STATE_ON)
  {
  }

  lemma DeliverStep(b: Board, sys: System, i: nat)
    requires Inv(b, sys) && Replicable(b) && i < |b.names|
    requires sys.subscribed && sys.snap.None? && sys.queue != []
    ensures KeyInv(b, Step(b, sys, Deliver), i)
  {
    var key, m, rest := b.Key(i), sys.queue[0], sys.queue[1..];
    assert KeyInv(b, sys, i);
    assert sys.queue == [m] + rest && m in sys.queue;
    LastPayloadFront(m, rest, TopicOf(key));
    PushMatches(b, m.topic, i);
    PlainTopic(key, key);
    SetSwitchAt(b, sys.panel, m.topic, CString(m.payload), i);
    if StoredAt(sys, key).Some? {
      ValidText(StoredAt(sys, key).value);
    }
  }

  lemma DeliverInv(b: Board, sys: System)
    requires Inv(b, sys) && Replicable(b)
    ensures Inv(b, Step(b, sys, Deliver))
  {
    var sys' := Step(b, sys, Deliver);
    if sys.subscribed && sys.snap.None? && sys.queue != [] {
      forall i: nat | i < |b.names|
        ensures KeyInv(b, sys', i)
      {
        DeliverStep(b, sys, i);
      }
    }
  }

  lemma TakeInv(b: Board, sys: System)
    requires Inv(b, sys) && Replicable(b)
    ensures Inv(b, Step(b, sys, TakeSnapshot))
  {
    var sys' := Step(b, sys, TakeSnapshot);
    forall i: nat | i < |b.names|
      ensures KeyInv(b, sys', i)
    {
      assert KeyInv(b, sys, i);
      StoredNonempty(sys.svc.world.store);
      SnapshotValue(sys.svc.world.store, Keys(b), b.Key(i));
      assert Keys(b)[i] == b.Key(i);
    }
  }

  lemma ApplyStep(b: Board, sys: System, i: nat)
    requires Inv(b, sys) && Replicable(b) && i < |b.names| && sys.snap.Some?
    ensures KeyInv(b, Step(b, sys, ApplySnapshot), i)
  {
    var key, sys' := b.Key(i), Step(b, sys, ApplySnapshot);
    assert KeyInv(b, sys, i);
    if sys'.synced && RoutingKey(SwitchId(key)) !in sys'.lost && Settled(sys', key) && StoredAt(sys', key).Some? {
      assert Live(sys) && Sound(sys, key) && Settled(sys, key);
      assert LastValue(sys.snap.value.items, key) == StoredAt(sys, key);
      ApplyItemsAt(b, sys.panel, sys.snap.value.items, i);
      ValidText(StoredAt(sys, key).value);
    }
  }

  lemma ApplyInv(b: Board, sys: System)
    requires Inv(b, sys) && Replicable(b)
    ensures Inv(b, Step(b, sys, ApplySnapshot))
  {
    if sys.snap.Some? {
      forall i: nat | i < |b.names|
        ensures KeyInv(b, Step(b, sys, ApplySnapshot), i)
      {
        ApplyStep(b, sys, i);
      }
    }
  }

  /** Failing syncs, disconnecting and subscribing leave nothing to show. */
  lemma LinkInv(b: Board, sys: System, e: Event)
    requires Inv(b, sys) && (e.FailSync? || e.Disconnect? || e.Subscribe?)
    ensures Inv(b, Step(b, sys, e))
  {
    var sys' := Step(b, sys, e);
    forall i: nat | i < |b.names|
      ensures KeyInv(b, sys', i)
    {
      assert KeyInv(b, sys, i);
    }
  }

  lemma StepInv(b: Board, sys: System, e: Event)
    requires Inv(b, sys) && Replicable(b)
    requires e.Server? && e.act.Spawn? ==> !Busy(sys.svc, e.act.call.id)
    ensures Inv(b, Step(b, sys, e))
  {
    match e
    case Server(act) => ServerInv(b, sys, act);
    case Deliver => DeliverInv(b, sys);
    case TakeSnapshot => TakeInv(b, sys);
    case ApplySnapshot => ApplyInv(b, sys);
    case FailSync => LinkInv(b, sys, e);
    case Disconnect => LinkInv(b, sys, e);
    case Subscribe => LinkInv(b, sys, e);
  }

  lemma {:induction false} PlayInv(b: Board, sys: System, events: seq<Event>)
    requires Inv(b, sys) && Replicable(b) && Orderly(b, sys, events)
    ensures Inv(b, Play(b, sys, events))
    decreases |events|
  {
    if events != [] {
      StepInv(b, sys, events[0]);
      PlayInv(b, Step(b, sys, events[0]), events[1..]);
    }
  }

  lemma BootInv(b: Board, w: World, p: Panel)
    requires Fits(b, p) && ValidStore(w.store)
    ensures Inv(b, Boot(w, p))
  {
  }

  // ---------- the theorems ----------

  /**
   The device overlaid with the snapshot on its way to it, then with the queue,
   then with the calls that have yet to publish, has this value at switch `i`.
   */
  ghost predicate Overlaid(b: Board, sys: System, i: nat, value: string)
    requires Fits(b, sys.panel) && i < |b.names|
  {
    var id, topic := SwitchId(b.Key(i)), TopicOf(b.Key(i));
    if Pending(sys.svc, id) then
      forall c | c in sys.svc.flights && sys.svc.flights[c].call.id == id && Owing(sys.svc.flights[c]) ::
        sys.svc.flights[c].pc.value == value
    else if LastPayload(sys.queue, topic).Some? then LastPayload(sys.queue, topic).value == value
    else if Live(sys) then LastValue(sys.snap.value.items, b.Key(i)) == Some(value)
    else Shows(b, sys.panel, i, value == STATE_ON)
  }

  /** The device may be trusted with this key: its snapshot is on the way or applied, and no publish of it is missing. */
  predicate Trusted(sys: System, key: string) {
    if Live(sys) then Sound(sys, key) else sys.synced && RoutingKey(SwitchId(key)) !in sys.lost
  }

  /**
   Convergence: in every run from a valid store and any state of the device,
   whatever reads, writes, publishes and syncs fail and however often the
   connection drops, from the moment a snapshot is taken under the present
   subscription the overlaid device is the store on every stored switch without a lost publish.
   */
  lemma Converges(b: Board, w: World, p: Panel, events: seq<Event>, i: nat)
    requires Replicable(b) && Fits(b, p) && ValidStore(w.store) && i < |b.names|
    requires Orderly(b, Boot(w, p), events)
    ensures var sys := Play(b, Boot(w, p), events);
            Trusted(sys, b.Key(i)) && StoredAt(sys, b.Key(i)).Some? ==> Overlaid(b, sys, i, StoredAt(sys, b.Key(i)).value)
  {
    BootInv(b, w, p);
    PlayInv(b, Boot(w, p), events);
    var sys := Play(b, Boot(w, p), events);
    assert KeyInv(b, sys, i);
  }

  /** A synced device whose queue has drained shows the store on every switch no call is at work on and whose publishes arrived. */
  lemma DrainedDeviceShowsStore(b: Board, w: World, p: Panel, events: seq<Event>, i: nat)
    requires Replicable(b) && Fits(b, p) && ValidStore(w.store) && i < |b.names|
    requires Orderly(b, Boot(w, p), events)
    ensures var sys := Play(b, Boot(w, p), events);
            var key := b.Key(i);
            sys.synced && sys.queue == [] && !Pending(sys.svc, SwitchId(key)) && RoutingKey(SwitchId(key)) !in sys.lost
            && StoredAt(sys, key).Some?
            ==> Shows(b, sys.panel, i, StoredAt(sys, key).value == STATE_ON)
  {
    BootInv(b, w, p);
    PlayInv(b, Boot(w, p), events);
    assert KeyInv(b, Play(b, Boot(w, p), events), i);
  }

  /** Delivering the whole queue empties it. */
  lemma {:induction false} Drain(b: Board, sys: System, n: nat)
    requires Fits(b, sys.panel) && sys.subscribed && sys.snap.None? && n == |sys.queue|
    ensures var events := seq(n, _ => Deliver);
            var sys' := Play(b, sys, events);
            && sys'.queue == [] && sys' == sys.(queue := [], panel := sys'.panel)
            && Orderly(b, sys, events)
    decreases n
  {
    var events := seq(n, _ => Deliver);
    if n > 0 {
      var next := Step(b, sys, Deliver);
      assert events[0] == Deliver && events[1..] == seq(n - 1, _ => Deliver);
      Drain(b, next, n - 1);
    }
  }

  /**
   A device that is synced and a service with no call in flight: once the queue
   has been delivered, every stored switch without a lost publish shows the store.
   */
  lemma DrainConverges(b: Board, w: World, p: Panel, events: seq<Event>, i: nat)
    requires Replicable(b) && Fits(b, p) && ValidStore(w.store) && i < |b.names|
    requires Orderly(b, Boot(w, p), events)
    ensures var sys := Play(b, Boot(w, p), events);
            sys.synced && sys.snap.None? && sys.svc.flights == map[] ==>
              var sys' := Play(b, sys, seq(|sys.queue|, _ => Deliver));
              && sys'.queue == [] && sys'.svc == sys.svc
              && (RoutingKey(SwitchId(b.Key(i))) !in sys.lost && StoredAt(sys, b.Key(i)).Some?
                  ==> Shows(b, sys'.panel, i, StoredAt(sys, b.Key(i)).value == STATE_ON))
  {
    BootInv(b, w, p);
    PlayInv(b, Boot(w, p), events);
    var sys := Play(b, Boot(w, p), events);
    if sys.synced && sys.snap.None? && sys.svc.flights == map[] {
      Drain(b, sys, |sys.queue|);
      PlayInv(b, sys, seq(|sys.queue|, _ => Deliver));
      assert KeyInv(b, Play(b, sys, seq(|sys.queue|, _ => Deliver)), i);
    }
  }
}
