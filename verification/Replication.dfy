/**
 The whole system: calls of the service in flight, the broker and the bridge to
 MQTT as a queue, and the device with its snapshots. The queue keeps its order
 and is emptied when the session ends, as sections 4.6 and 3.1.2.4 of MQTT 3.1.1 have it.
 */
module Replication {
  import opened Basics
  import opened States
  import opened ServiceSpec
  import opened Interleaving
  import opened Reduction
  import opened DeviceSpec
  import opened DeviceLaws

  // ---------- topics ----------

  /** The bridge turns a dotted routing key into a slashed topic. */
  function Bridge(routing: string): (topic: string)
    ensures |topic| == |routing|
  {
    seq(|routing|, i requires 0 <= i < |routing| => if routing[i] == '.' then '/' else routing[i])
  }

  function TopicOf(key: string): string {
    Bridge(RoutingKey(SwitchId(key)))
  }

  /** The topic under which the device knows the switch of a key. */
  function DeviceTopic(key: string): string {
    MQTT_PREFIX_TOPIC + "/" + (SWITCH_PATH + key)
  }

  predicate Plain(key: string) {
    '.' !in key && '/' !in key
  }

  lemma TopicIs(key: string)
    ensures TopicOf(key) == MQTT_PREFIX_TOPIC + "/" + (SWITCH_PATH + Bridge(key))
  {
  }

  lemma TopicSuffix(a: string, b: string)
    ensures MQTT_PREFIX_TOPIC + "/" + (SWITCH_PATH + a) == MQTT_PREFIX_TOPIC + "/" + (SWITCH_PATH + b) <==> a == b
  {
    var head := MQTT_PREFIX_TOPIC + "/" + SWITCH_PATH;
    assert MQTT_PREFIX_TOPIC + "/" + (SWITCH_PATH + a) == head + a;
    assert MQTT_PREFIX_TOPIC + "/" + (SWITCH_PATH + b) == head + b;
    assert (head + a)[|head|..] == a && (head + b)[|head|..] == b;
  }

  lemma PlainTopic(key: string, other: string)
    requires Plain(key)
    ensures TopicOf(other) == DeviceTopic(key) <==> other == key
  {
    TopicIs(other);
    TopicSuffix(Bridge(other), key);
    if Bridge(other) == key {
      assert forall i | 0 <= i < |other| :: key[i] == Bridge(other)[i];
    }
  }

  /** A device topic stands for its own key and for no other. */
  ghost predicate Faithful(key: string) {
    forall other: string :: TopicOf(other) == DeviceTopic(key) <==> other == key
  }

  /**
   The bridged topics that spell a key's device topic are exactly that key's when,
   and only when, the key has no '.' and no '/'. The device's buffer is not in this
   statement; ReplicableExactly has it.
   */
  lemma FaithfulTopics(key: string)
    ensures Faithful(key) <==> Plain(key)
  {
    TopicIs(key);
    TopicSuffix(Bridge(key), key);
    if Plain(key) {
      forall other: string
        ensures TopicOf(other) == DeviceTopic(key) <==> other == key
      {
        PlainTopic(key, other);
      }
    } else if '.' in key {
      var i :| 0 <= i < |key| && key[i] == '.';
      assert Bridge(key)[i] == '/';
      assert TopicOf(key) != DeviceTopic(key);
    } else {
      var i :| 0 <= i < |key| && key[i] == '/';
      var other := key[i := '.'];
      assert other[i] != key[i];
      assert Bridge(other) == key;
      TopicIs(other);
      assert TopicOf(other) == DeviceTopic(key);
    }
  }

  /** A board whose switches can be replicated: plain keys whose topics fit the device's buffer. */
  ghost predicate Replicable(b: Board) {
    b.WellFormed() && b.TopicsFit() && forall i: nat | i < |b.names| :: Plain(b.Key(i))
  }

  /** The board the device is built with; pins carry their D numbers. */
  const BOARD := Board(
    ["switch/server_1", "switch/server_2", "switch/server_3", "switch/server_4",
     "switch/server_5", "switch/server_6", "switch/server_7", "switch/server_8"],
    [8, 7, 6, 5, 4, 3, 2, 0],
    [true, true, true, true, true, true, true, true],
    1)

  const DIGITS := "12345678"

  lemma ServerName(digit: char)
    requires '1' <= digit <= '8'
    ensures var name := "switch/server_" + [digit];
            Named(name) && ExtractKeyName(name) == "server_" + [digit] && Plain("server_" + [digit])
  {
    var name, key := "switch/server_" + [digit], "server_" + [digit];
    assert name[..7] == SWITCH_PATH;
    assert name == SWITCH_PATH + key;
    KeyOfSwitchPath(key);
  }

  lemma BoardName(i: nat)
    requires i < 8
    ensures Named(BOARD.names[i]) && Plain(BOARD.Key(i)) && |BOARD.names[i]| == 15 && BOARD.names[i][14] == DIGITS[i]
  {
    assert BOARD.names[i] == "switch/server_" + [DIGITS[i]];
    ServerName(DIGITS[i]);
  }

  lemma BoardWellFormed()
    ensures BOARD.WellFormed()
  {
    forall i: nat | i < 8
      ensures Named(BOARD.names[i]) && BOARD.names[i][14] == DIGITS[i]
    {
      BoardName(i);
    }
    assert forall i, j | 0 <= i < j < 8 :: DIGITS[i] != DIGITS[j];
  }

  /** Everything proved of replicable boards holds of the real one. */
  lemma BoardReplicable()
    ensures Replicable(BOARD)
  {
    BoardWellFormed();
    forall i: nat | i < |BOARD.names|
      ensures Plain(BOARD.Key(i)) && |MQTT_PREFIX_TOPIC + "/" + BOARD.names[i]| < TOPIC_BUFFER
    {
      BoardName(i);
    }
  }

  /** A push selects switch `i` exactly when it comes under that switch's topic. */
  lemma PushMatches(b: Board, topic: string, i: nat)
    requires b.WellFormed() && b.TopicsFit() && i < |b.names| && topic != "" && topic[0] == 'h'
    ensures FirstMatch(b, topic, 0) == i <==> topic == DeviceTopic(b.Key(i))
  {
    forall j: nat | j < |b.names|
      ensures Matches(b, j, topic) <==> topic == DeviceTopic(b.Key(j))
    {
      KeyNonempty(b, j);
      assert b.names[j][0] == 's';
    }
    KeyNonempty(b, i);
    forall j: nat | j < |b.names| && j != i
      ensures DeviceTopic(b.Key(j)) != DeviceTopic(b.Key(i))
    {
      KeyNonempty(b, j);
      TopicSuffix(b.Key(i), b.Key(j));
    }
  }

  /** Each switch is selected by its own key's events and by no others. */
  ghost predicate PushesSelect(b: Board) {
    forall i: nat, other: string | i < |b.names| :: Selects(b, other, i) <==> other == b.Key(i)
  }

  /** The event of a switch key, once bridged, makes the device set switch `i`. */
  predicate Selects(b: Board, key: string, i: nat)
    requires i < |b.names|
  {
    FirstMatch(b, TopicOf(key), 0) == i
  }

  /** A switch whose own events select it has a topic that fits the buffer and survives the bridge. */
  lemma OwnEventsFit(b: Board, i: nat)
    requires b.WellFormed() && i < |b.names| && Selects(b, b.Key(i), i)
    ensures |MQTT_PREFIX_TOPIC + "/" + b.names[i]| < TOPIC_BUFFER && TopicOf(b.Key(i)) == DeviceTopic(b.Key(i))
  {
    KeyNonempty(b, i);
    TopicIs(b.Key(i));
    assert b.names[i][0] == 's' && TopicOf(b.Key(i))[0] == 'h';
    assert TopicOf(b.Key(i)) == FullTopic(b.names[i]);
  }

  /**
   The boards the device keeps up by push: for distinct named switches, each is
   set by its own key's events and no others exactly when every key has no '.' and
   no '/' and every full topic fits the device's 128-byte buffer.
   */
  lemma ReplicableExactly(b: Board)
    requires b.WellFormed()
    ensures Replicable(b) <==> PushesSelect(b)
  {
    if Replicable(b) {
      forall i: nat, other: string | i < |b.names|
        ensures Selects(b, other, i) <==> other == b.Key(i)
      {
        TopicIs(other);
        PushMatches(b, TopicOf(other), i);
        PlainTopic(b.Key(i), other);
      }
    }
    if PushesSelect(b) {
      forall i: nat | i < |b.names|
        ensures Plain(b.Key(i)) && |MQTT_PREFIX_TOPIC + "/" + b.names[i]| < TOPIC_BUFFER
      {
        assert Selects(b, b.Key(i), i);
        OwnEventsFit(b, i);
        FaithfulTopics(b.Key(i));
        if !Plain(b.Key(i)) {
          var other: string :| !(TopicOf(other) == DeviceTopic(b.Key(i)) <==> other == b.Key(i));
          assert Selects(b, other, i);
        }
      }
    }
  }

  // ---------- the system and its steps ----------

  /** A snapshot on its way to the device; it is live while the subscription it was taken under stands. */
  datatype Snap = Snap(items: seq<Item>, live: bool, heals: set<string>)

  /**
   `synced` records that a snapshot taken under the present subscription has been
   applied, `lost` the routing keys whose latest publish failed under it and has
   not been made good since.
   */
  datatype System = System(svc: State, subscribed: bool, queue: seq<Push>, panel: Panel,
                           snap: Option<Snap>, synced: bool, lost: set<string>)

  datatype Event = Server(act: Label) | Deliver | TakeSnapshot | ApplySnapshot | FailSync | Disconnect | Subscribe

  function Boot(w: World, p: Panel): System {
    System(Start(w), false, [], p, None, false, {})
  }

  function LastPayload(queue: seq<Push>, topic: string): Option<string> {
    if queue == [] then None
    else if Last(queue).topic == topic then Some(Last(queue).payload)
    else LastPayload(Front(queue), topic)
  }

  /** What the broker does with a publish attempt of the service. */
  function Announce(sys: System, m: Message): System {
    if !sys.subscribed then sys
    else if m.accepted then sys.(queue := sys.queue + [Push(Bridge(m.routing), m.body)], lost := sys.lost - {m.routing})
    else sys.(lost := sys.lost + {m.routing},
              snap := if sys.snap.Some? then Some(sys.snap.value.(heals := sys.snap.value.heals - {m.routing})) else None)
  }

  function ServerStep(sys: System, act: Label): System {
    var svc' := Next(sys.svc, act);
    var sys' := sys.(svc := svc');
    if |svc'.world.log| > |sys.svc.world.log| then Announce(sys', Last(svc'.world.log)) else sys'
  }

  function Step(b: Board, sys: System, e: Event): (sys': System)
    requires Fits(b, sys.panel)
    ensures Fits(b, sys'.panel)
  {
    match e
    case Server(act) => ServerStep(sys, act)
    case Deliver =>
      // The device is single-threaded: it takes no push while it waits for a snapshot.
      if sys.subscribed && sys.snap.None? && sys.queue != [] then
        sys.(panel := SetSwitch(b, sys.panel, sys.queue[0].topic, CString(sys.queue[0].payload)), queue := sys.queue[1..])
      else sys
    case TakeSnapshot =>
      if sys.snap.Some? then sys else
        sys.(snap := Some(Snap(Snapshot(sys.svc.world.store, Keys(b)), sys.subscribed,
                               set r | r in sys.lost && LastPayload(sys.queue, Bridge(r)).None?)))
    case ApplySnapshot =>
      if sys.snap.None? then sys else
        var sys' := sys.(panel := ApplyItems(b, sys.panel, sys.snap.value.items), snap := None);
        if sys.snap.value.live then sys'.(synced := true, lost := sys.lost - sys.snap.value.heals) else sys'
    case FailSync => sys.(snap := None)
    case Disconnect =>
      sys.(subscribed := false, queue := [], synced := false,
           snap := if sys.snap.Some? then Some(sys.snap.value.(live := false)) else None)
    case Subscribe =>
      if sys.subscribed || sys.snap.Some? then sys else sys.(subscribed := true, queue := [], synced := false, lost := {})
  }

  /** What happens without the device: steps of the service, and losing the connection. */
  predicate Outside(e: Event) {
    e.Server? || e.Disconnect?
  }

  predicate AllOutside(gap: seq<Event>) {
    forall e | e in gap :: Outside(e)
  }

  function Play(b: Board, sys: System, events: seq<Event>): (sys': System)
    requires Fits(b, sys.panel)
    ensures Fits(b, sys'.panel)
    decreases |events|
  {
    if events == [] then sys else Play(b, Step(b, sys, events[0]), events[1..])
  }

  /** Playing one stretch of events after another. */
  lemma {:induction false} PlaySplit(b: Board, sys: System, a: seq<Event>, more: seq<Event>)
    requires Fits(b, sys.panel)
    ensures Play(b, sys, a + more) == Play(b, Play(b, sys, a), more)
    decreases |a|
  {
    if a == [] {
      assert a + more == more;
    } else {
      assert (a + more)[0] == a[0] && (a + more)[1..] == a[1..] + more;
      PlaySplit(b, Step(b, sys, a[0]), a[1..], more);
    }
  }

  lemma PlayOne(b: Board, sys: System, e: Event)
    requires Fits(b, sys.panel)
    ensures Play(b, sys, [e]) == Step(b, sys, e)
  {
  }

  lemma PlayThen(b: Board, sys: System, e: Event, rest: seq<Event>)
    requires Fits(b, sys.panel)
    ensures Play(b, sys, [e] + rest) == Play(b, Step(b, sys, e), rest)
  {
    PlaySplit(b, sys, [e], rest);
    PlayOne(b, sys, e);
  }

  /** No call is made on an entry while another call on it is in flight. */
  ghost predicate Orderly(b: Board, sys: System, events: seq<Event>)
    requires Fits(b, sys.panel)
    decreases |events|
  {
    events != [] ==>
      && (events[0].Server? && events[0].act.Spawn? ==> !Busy(sys.svc, events[0].act.call.id))
      && Orderly(b, Step(b, sys, events[0]), events[1..])
  }

  // ---------- what calls in flight know of the store ----------

  /** A call that has decided on a value still finds the store as it left it. */
  predicate Informed(store: Store, f: Flight) {
    && Precheck(f.call).None?
    && (f.pc.Writing? ==> CanTypeChangedWithKey(f.call.id, f.pc.value)
                          && (!f.pc.changed ==> ValueAt(store, f.call.id) == Some(f.pc.value)))
    && (Owing(f) ==> CanTypeChangedWithKey(f.call.id, f.pc.value) && ValueAt(store, f.call.id) == Some(f.pc.value))
  }

  ghost predicate Coherent(s: State) {
    && ValidStore(s.world.store)
    && (forall c, d | c in s.flights && d in s.flights && c != d :: s.flights[c].call.id != s.flights[d].call.id)
    && (forall c | c in s.flights :: c < |s.spawned| && Informed(s.world.store, s.flights[c]))
  }

  lemma SpawnCoherent(s: State, call: Call)
    requires Coherent(s) && !Busy(s, call.id)
    ensures Coherent(Next(s, Spawn(call)))
  {
  }

  lemma AdvanceInformed(s: State, cid: nat, fails: bool, now: int)
    requires ValidStore(s.world.store) && cid in s.flights && Informed(s.world.store, s.flights[cid])
    ensures var s' := Next(s, Advance(cid, fails, now));
            && ValidStore(s'.world.store)
            && (cid in s'.flights ==> Informed(s'.world.store, s'.flights[cid]))
            && forall id | id != s.flights[cid].call.id :: Find(s'.world.store, id) == Find(s.world.store, id)
  {
  }

  lemma MoveCoherent(s: State, s': State, cid: nat)
    requires Coherent(s) && MovesOrCompletes(s, s', cid) && ValidStore(s'.world.store)
    requires cid in s'.flights ==> Informed(s'.world.store, s'.flights[cid])
    requires forall id | id != s.flights[cid].call.id :: Find(s'.world.store, id) == Find(s.world.store, id)
    ensures Coherent(s')
  {
    forall c | c in s'.flights && c != cid
      ensures c in s.flights && s'.flights[c] == s.flights[c] && Informed(s'.world.store, s'.flights[c])
    {
      assert Find(s'.world.store, s.flights[c].call.id) == Find(s.world.store, s.flights[c].call.id);
    }
  }

  lemma NextCoherent(s: State, act: Label)
    requires Coherent(s) && (act.Spawn? ==> !Busy(s, act.call.id))
    ensures Coherent(Next(s, act))
  {
    match act
    case Spawn(call) => SpawnCoherent(s, call);
    case Advance(cid, fails, now) =>
      if cid in s.flights {
        AdvanceInformed(s, cid, fails, now);
        AdvanceMoves(s, cid, fails, now);
        MoveCoherent(s, Next(s, act), cid);
      }
  }
}
