/**
 The device's own program as a run of the system: each turn of its loop, with
 whatever the service and the link do between and during its steps, is a stretch
 of events, so the convergence theorems speak of the panel the program computes.
 */
module DeviceRuns {
  import opened States
  import opened ServiceSpec
  import opened DeviceSpec
  import opened DeviceLaws
  import opened Replication
  import opened Convergence
  import opened Recovery

  /** The device waits for its snapshot while `during` happens. */
  function SyncWith(r: Response, during: seq<Event>): seq<Event> {
    [TakeSnapshot] + during + [if r.Success() then ApplySnapshot else FailSync]
  }

  /** A turn of the loop and what happens at each point of it. */
  datatype Round = Round(turn: Turn, subscribing: seq<Event>, reconnecting: seq<Event>, beforePush: seq<Event>,
                         beforeSync: seq<Event>, syncing: seq<Event>, afterwards: seq<Event>) {
    predicate Interrupted() {
      && AllOutside(subscribing) && AllOutside(reconnecting) && AllOutside(beforePush)
      && AllOutside(beforeSync) && AllOutside(syncing) && AllOutside(afterwards)
    }
  }

  /** Without a connection the loop first subscribes, then takes a snapshot, and then looks for a push. */
  function UntilPush(k: Round): seq<Event> {
    (if k.turn.connected then [] else [Subscribe] + k.subscribing + SyncWith(k.turn.reconnectReply, k.reconnecting))
    + k.beforePush
  }

  function UntilSync(k: Round): seq<Event> {
    (if k.turn.push.Some? then [Deliver] else []) + k.beforeSync
  }

  function UntilEnd(c: Ctl, k: Round): seq<Event> {
    (if Due(c, k.turn) then SyncWith(k.turn.periodicReply, k.syncing) else []) + k.afterwards
  }

  function RoundEvents(c: Ctl, k: Round): seq<Event> {
    UntilPush(k) + UntilSync(k) + UntilEnd(c, k)
  }

  /** A successful reply carries the store's present values of the requested keys. */
  predicate Answers(b: Board, sys: System, r: Response) {
    r.Success() ==> r.items.value == Snapshot(sys.svc.world.store, Keys(b))
  }

  function AtPush(b: Board, sys: System, k: Round): (sys': System)
    requires Fits(b, sys.panel)
    ensures Fits(b, sys'.panel)
  {
    Play(b, sys, UntilPush(k))
  }

  function AtSync(b: Board, sys: System, k: Round): (sys': System)
    requires Fits(b, sys.panel)
    ensures Fits(b, sys'.panel)
  {
    Play(b, AtPush(b, sys, k), UntilSync(k))
  }

  /** The turn meets the system: its connection, its push and its replies are what the system has for it. */
  predicate Meets(b: Board, sys: System, c: Ctl, k: Round)
    requires Fits(b, sys.panel)
  {
    && k.Interrupted() && sys.snap.None? && sys.subscribed == k.turn.connected
    && (!k.turn.connected ==> Answers(b, Play(b, sys, [Subscribe] + k.subscribing), k.turn.reconnectReply))
    && (k.turn.push.Some? ==> var s := AtPush(b, sys, k); s.subscribed && s.queue != [] && s.queue[0] == k.turn.push.value)
    && (Due(c, k.turn) ==> Answers(b, AtSync(b, sys, k), k.turn.periodicReply))
  }

  // ---------- one turn ----------

  /** A sync applies what was stored when it began, and counts if the connection outlasts it. */
  lemma SyncPlays(b: Board, sys: System, r: Response, during: seq<Event>)
    requires Fits(b, sys.panel) && sys.snap.None? && Answers(b, sys, r) && AllOutside(during)
    ensures var sys' := Play(b, sys, SyncWith(r, during));
            && sys'.panel == SyncPanel(b, sys.panel, r) && sys'.snap.None?
            && (sys'.subscribed ==> sys.subscribed && (sys'.synced <==> sys.synced || r.Success()))
  {
    var end := if r.Success() then ApplySnapshot else FailSync;
    var s1 := Step(b, sys, TakeSnapshot);
    var s2 := Play(b, s1, during);
    PlaySplit(b, sys, [TakeSnapshot] + during, [end]);
    PlaySplit(b, sys, [TakeSnapshot], during);
    PlayOne(b, sys, TakeSnapshot);
    OutsideKeeps(b, s1, during);
    PlayOne(b, s2, end);
  }

  lemma ReconnectPlays(b: Board, sys: System, c: Ctl, k: Round)
    requires Fits(b, sys.panel) && Meets(b, sys, c, k)
    ensures var sys' := AtPush(b, sys, k);
            && sys'.panel == (if k.turn.connected then sys.panel else SyncPanel(b, sys.panel, k.turn.reconnectReply))
            && sys'.snap.None?
            && (sys'.subscribed ==> (sys'.synced <==> if k.turn.connected then sys.synced else k.turn.reconnectReply.Success()))
  {
    if k.turn.connected {
      assert UntilPush(k) == k.beforePush;
      OutsideKeeps(b, sys, k.beforePush);
    } else {
      var s1 := Step(b, sys, Subscribe);
      var s2 := Play(b, s1, k.subscribing);
      var s3 := Play(b, s2, SyncWith(k.turn.reconnectReply, k.reconnecting));
      PlaySplit(b, sys, [Subscribe] + k.subscribing + SyncWith(k.turn.reconnectReply, k.reconnecting), k.beforePush);
      PlaySplit(b, sys, [Subscribe] + k.subscribing, SyncWith(k.turn.reconnectReply, k.reconnecting));
      PlaySplit(b, sys, [Subscribe], k.subscribing);
      PlayOne(b, sys, Subscribe);
      OutsideKeeps(b, s1, k.subscribing);
      SyncPlays(b, s2, k.turn.reconnectReply, k.reconnecting);
      OutsideKeeps(b, s3, k.beforePush);
    }
  }

  lemma PushPlays(b: Board, sys: System, k: Round)
    requires Fits(b, sys.panel) && sys.snap.None? && AllOutside(k.beforeSync)
    requires k.turn.push.Some? ==> sys.subscribed && sys.queue != [] && sys.queue[0] == k.turn.push.value
    ensures var sys', push := Play(b, sys, UntilSync(k)), k.turn.push;
            && sys'.panel == (if push.Some? then SetSwitch(b, sys.panel, push.value.topic, CString(push.value.payload)) else sys.panel)
            && sys'.snap.None? && (sys'.subscribed ==> sys.subscribed && sys'.synced == sys.synced)
  {
    var delivery := if k.turn.push.Some? then [Deliver] else [];
    var s1 := Play(b, sys, delivery);
    PlaySplit(b, sys, delivery, k.beforeSync);
    if k.turn.push.Some? {
      PlayOne(b, sys, Deliver);
    }
    OutsideKeeps(b, s1, k.beforeSync);
  }

  lemma PeriodicPlays(b: Board, sys: System, c: Ctl, k: Round)
    requires Fits(b, sys.panel) && sys.snap.None? && AllOutside(k.syncing) && AllOutside(k.afterwards)
    requires Due(c, k.turn) ==> Answers(b, sys, k.turn.periodicReply)
    ensures var sys' := Play(b, sys, UntilEnd(c, k));
            && sys'.panel == (if Due(c, k.turn) then SyncPanel(b, sys.panel, k.turn.periodicReply) else sys.panel)
            && sys'.snap.None?
            && (sys'.subscribed ==> sys.subscribed)
            && (sys'.subscribed ==> (sys'.synced <==> sys.synced || (Due(c, k.turn) && k.turn.periodicReply.Success())))
  {
    var sync := if Due(c, k.turn) then SyncWith(k.turn.periodicReply, k.syncing) else [];
    var s1 := Play(b, sys, sync);
    PlaySplit(b, sys, sync, k.afterwards);
    if Due(c, k.turn) {
      SyncPlays(b, sys, k.turn.periodicReply, k.syncing);
    }
    OutsideKeeps(b, s1, k.afterwards);
  }

  /** Whether a turn whose connection stands at its end leaves the device synced. */
  predicate SyncedBy(c: Ctl, t: Turn, synced: bool) {
    || (if t.connected then synced else t.reconnectReply.Success())
    || (Due(c, t) && t.periodicReply.Success())
  }

  /**
   A turn of the loop does to the panel what its events do in the system, whatever
   the service and the link do at any point of it, snapshots in flight included.
   */
  lemma RoundIsTurn(b: Board, sys: System, c: Ctl, k: Round)
    requires Fits(b, sys.panel) && Meets(b, sys, c, k)
    ensures var sys' := Play(b, sys, RoundEvents(c, k));
            && sys'.panel == TurnPanel(b, sys.panel, c, k.turn) && sys'.snap.None?
            && (sys'.subscribed ==> (sys'.synced <==> SyncedBy(c, k.turn, sys.synced)))
  {
    PlaySplit(b, sys, UntilPush(k) + UntilSync(k), UntilEnd(c, k));
    PlaySplit(b, sys, UntilPush(k), UntilSync(k));
    ReconnectPlays(b, sys, c, k);
    PushPlays(b, AtPush(b, sys, k), k);
    PeriodicPlays(b, AtSync(b, sys, k), c, k);
  }

  // ---------- any number of turns ----------

  /** The panel after these turns of the program. */
  function LoopPanel(b: Board, p: Panel, c: Ctl, rounds: seq<Round>): (p': Panel)
    requires Fits(b, p)
    ensures Fits(b, p')
    decreases |rounds|
  {
    if rounds == [] then p
    else LoopPanel(b, TurnPanel(b, p, c, rounds[0].turn), TurnCtl(c, rounds[0].turn), rounds[1..])
  }

  function LoopEvents(c: Ctl, rounds: seq<Round>): seq<Event>
    decreases |rounds|
  {
    if rounds == [] then [] else RoundEvents(c, rounds[0]) + LoopEvents(TurnCtl(c, rounds[0].turn), rounds[1..])
  }

  /** Every turn meets the system the turns before it left. */
  predicate LoopMeets(b: Board, sys: System, c: Ctl, rounds: seq<Round>)
    requires Fits(b, sys.panel)
    decreases |rounds|
  {
    rounds != [] ==>
      && Meets(b, sys, c, rounds[0])
      && LoopMeets(b, Play(b, sys, RoundEvents(c, rounds[0])), TurnCtl(c, rounds[0].turn), rounds[1..])
  }

  lemma {:induction false} LoopIsPlay(b: Board, sys: System, c: Ctl, rounds: seq<Round>)
    requires Fits(b, sys.panel) && sys.snap.None? && LoopMeets(b, sys, c, rounds)
    ensures var sys' := Play(b, sys, LoopEvents(c, rounds));
            sys'.panel == LoopPanel(b, sys.panel, c, rounds) && sys'.snap.None?
    decreases |rounds|
  {
    if rounds != [] {
      var sys' := Play(b, sys, RoundEvents(c, rounds[0]));
      RoundIsTurn(b, sys, c, rounds[0]);
      PlaySplit(b, sys, RoundEvents(c, rounds[0]), LoopEvents(TurnCtl(c, rounds[0].turn), rounds[1..]));
      LoopIsPlay(b, sys', TurnCtl(c, rounds[0].turn), rounds[1..]);
    }
  }

  /**
   Convergence of the program: after any run that leaves no snapshot in flight,
   such as the steps of `setup`, and then any number of turns of the loop, with
   the service working and the connection dropping at any point of them, the
   panel the program has computed, overlaid with the queue and the pending
   publishes, is the store on every trusted switch; with nothing left on its way
   it shows the store.
   */
  lemma LoopConverges(b: Board, w: World, p: Panel, before: seq<Event>, c: Ctl, rounds: seq<Round>, i: nat)
    requires Replicable(b) && Fits(b, p) && ValidStore(w.store) && i < |b.names|
    requires Orderly(b, Boot(w, p), before)
    requires var sys := Play(b, Boot(w, p), before);
             sys.snap.None? && LoopMeets(b, sys, c, rounds) && Orderly(b, sys, LoopEvents(c, rounds))
    ensures var sys := Play(b, Boot(w, p), before);
            var sys', key := Play(b, sys, LoopEvents(c, rounds)), b.Key(i);
            && sys'.panel == LoopPanel(b, sys.panel, c, rounds)
            && (Trusted(sys', key) && StoredAt(sys', key).Some? ==>
                  && Overlaid(b, sys', i, StoredAt(sys', key).value)
                  && (Settled(sys', key) ==> Shows(b, LoopPanel(b, sys.panel, c, rounds), i, StoredAt(sys', key).value == STATE_ON)))
  {
    BootInv(b, w, p);
    PlayInv(b, Boot(w, p), before);
    var sys := Play(b, Boot(w, p), before);
    PlayInv(b, sys, LoopEvents(c, rounds));
    LoopIsPlay(b, sys, c, rounds);
    assert KeyInv(b, Play(b, sys, LoopEvents(c, rounds)), i);
  }

  /** Turns that take one push each while nothing else happens. */
  predicate Draining(c: Ctl, rounds: seq<Round>)
    decreases |rounds|
  {
    rounds != [] ==>
      var k := rounds[0];
      && k.turn.connected && k.turn.push.Some? && !Due(c, k.turn)
      && k.beforePush == [] && k.beforeSync == [] && k.afterwards == []
      && Draining(TurnCtl(c, k.turn), rounds[1..])
  }

  lemma {:induction false} DrainingEvents(c: Ctl, rounds: seq<Round>)
    requires Draining(c, rounds)
    ensures LoopEvents(c, rounds) == seq(|rounds|, _ => Deliver)
    decreases |rounds|
  {
    if rounds != [] {
      DrainingEvents(TurnCtl(c, rounds[0].turn), rounds[1..]);
      assert RoundEvents(c, rounds[0]) == [Deliver];
    }
  }

  /** Once the service is idle and the device synced, as many turns as pushes are queued make the panel show the store. */
  lemma LoopDrains(b: Board, w: World, p: Panel, before: seq<Event>, c: Ctl, rounds: seq<Round>, i: nat)
    requires Replicable(b) && Fits(b, p) && ValidStore(w.store) && i < |b.names|
    requires Orderly(b, Boot(w, p), before)
    requires var sys := Play(b, Boot(w, p), before);
             && sys.synced && sys.snap.None? && sys.svc.flights == map[]
             && Draining(c, rounds) && |rounds| == |sys.queue| && LoopMeets(b, sys, c, rounds)
    ensures var sys, key := Play(b, Boot(w, p), before), b.Key(i);
            RoutingKey(SwitchId(key)) !in sys.lost && StoredAt(sys, key).Some?
            ==> Shows(b, LoopPanel(b, sys.panel, c, rounds), i, StoredAt(sys, key).value == STATE_ON)
  {
    DrainConverges(b, w, p, before, i);
    DrainingEvents(c, rounds);
    LoopIsPlay(b, Play(b, Boot(w, p), before), c, rounds);
  }
}
