/**
 Lost publishes in terms of the log: which of them a sync or a reconnection makes
 good while the service keeps working, and convergence stated without the
 system's own record of them.
 */
module Recovery {
  import opened States
  import opened ServiceSpec
  import opened ServiceRuns
  import opened Interleaving
  import opened DeviceSpec
  import opened Replication
  import opened Convergence

  function LogLength(sys: System): nat {
    |sys.svc.world.log|
  }

  /** Of the publish attempts of this key since the log had length `n`, the latest arrived, or there is none. */
  predicate Arrived(sys: System, key: string, n: nat) {
    n <= LogLength(sys) && LastArrived(sys.svc.world.log[n..], RoutingKey(SwitchId(key)))
  }

  // ---------- what one step does to the log ----------

  lemma NextLog(s: State, act: Label)
    ensures var log, log' := s.world.log, Next(s, act).world.log;
            log' == log || (log' != [] && log' == log + [Last(log')])
  {
  }

  /** A step adds at most one attempt to the log, and then the broker sees it. */
  lemma StepLog(b: Board, sys: System, e: Event)
    requires Fits(b, sys.panel)
    ensures var sys' := Step(b, sys, e);
            var log, log' := sys.svc.world.log, sys'.svc.world.log;
            && (log' == log || (e.Server? && log' != [] && log' == log + [Last(log')]))
            && (e.Server? ==> sys' == if log' == log then sys.(svc := sys'.svc) else Announce(sys.(svc := sys'.svc), Last(log')))
  {
    if e.Server? {
      NextLog(sys.svc, e.act);
    }
  }

  /** What one more attempt does to the latest one. */
  lemma ArrivedSnoc(log: seq<Message>, n: nat, m: Message, routing: string)
    requires n <= |log|
    ensures LastArrived((log + [m])[n..], routing) == if m.routing == routing then m.accepted else LastArrived(log[n..], routing)
  {
    assert (log + [m])[n..] == log[n..] + [m];
    Snoc(log[n..], m);
  }

  lemma StepArrived(b: Board, sys: System, e: Event, key: string, n: nat)
    requires Fits(b, sys.panel) && n <= LogLength(sys)
    ensures var sys' := Step(b, sys, e);
            && LogLength(sys) <= LogLength(sys')
            && (Arrived(sys', key, n) <==>
                  if LogLength(sys') > LogLength(sys) && Last(sys'.svc.world.log).routing == RoutingKey(SwitchId(key))
                  then Last(sys'.svc.world.log).accepted else Arrived(sys, key, n))
  {
    StepLog(b, sys, e);
    var log' := Step(b, sys, e).svc.world.log;
    if log' != sys.svc.world.log {
      ArrivedSnoc(sys.svc.world.log, n, Last(log'), RoutingKey(SwitchId(key)));
    }
  }

  lemma {:induction false} ArrivedLater(log: seq<Message>, n: nat, m: nat, routing: string)
    requires n <= m <= |log| && LastArrived(log[n..], routing)
    ensures LastArrived(log[m..], routing)
    decreases |log|
  {
    if m < |log| {
      var front := Front(log);
      assert Front(log[n..]) == front[n..] && Front(log[m..]) == front[m..];
      if Last(log).routing != routing {
        ArrivedLater(front, n, m, routing);
      }
    }
  }

  // ---------- what counts as lost ----------

  /** While the subscription stands, a key counts as lost only if its latest attempt since then has failed. */
  predicate Covered(sys: System, key: string, n: nat) {
    n <= LogLength(sys) && (sys.subscribed && RoutingKey(SwitchId(key)) in sys.lost ==> !Arrived(sys, key, n))
  }

  lemma StepCovered(b: Board, sys: System, e: Event, key: string, n: nat)
    requires Fits(b, sys.panel) && Covered(sys, key, n)
    ensures Covered(Step(b, sys, e), key, n)
  {
    StepLog(b, sys, e);
    StepArrived(b, sys, e, key, n);
  }

  lemma {:induction false} PlayCovered(b: Board, sys: System, events: seq<Event>, key: string, n: nat)
    requires Fits(b, sys.panel) && Covered(sys, key, n)
    ensures Covered(Play(b, sys, events), key, n)
    decreases |events|
  {
    if events != [] {
      StepCovered(b, sys, events[0], key, n);
      PlayCovered(b, Step(b, sys, events[0]), events[1..], key, n);
    }
  }

  lemma CoveredEarlier(sys: System, key: string, n: nat, m: nat)
    requires Covered(sys, key, m) && n <= m
    ensures Covered(sys, key, n)
  {
    if Arrived(sys, key, n) {
      ArrivedLater(sys.svc.world.log, n, m, RoutingKey(SwitchId(key)));
    }
  }

  /** While the subscription stands, a key is sound exactly when its latest attempt since then arrived. */
  predicate Exact(sys: System, key: string, n: nat) {
    && sys.subscribed && n <= LogLength(sys) && (sys.snap.Some? ==> sys.snap.value.live)
    && (Sound(sys, key) <==> Arrived(sys, key, n))
  }

  lemma OutsideExact(b: Board, sys: System, e: Event, key: string, n: nat)
    requires Fits(b, sys.panel) && Exact(sys, key, n) && Outside(e) && Step(b, sys, e).subscribed
    ensures Exact(Step(b, sys, e), key, n)
  {
    StepLog(b, sys, e);
    StepArrived(b, sys, e, key, n);
  }

  /** Applying the snapshot makes good what it carries, and nothing else. */
  lemma ApplyExact(b: Board, sys: System, key: string, n: nat)
    requires Fits(b, sys.panel) && Exact(sys, key, n)
    ensures Exact(Step(b, sys, ApplySnapshot), key, n)
  {
  }

  /** A snapshot taken while no push of the key is queued makes a fresh start for it. */
  lemma TakeExact(b: Board, sys: System, key: string, n: nat)
    requires Fits(b, sys.panel) && sys.subscribed && sys.snap.None?
    ensures var sys' := Step(b, sys, TakeSnapshot);
            if LastPayload(sys.queue, TopicOf(key)).None? then Exact(sys', key, LogLength(sys))
            else Exact(sys, key, n) ==> Exact(sys', key, n)
  {
  }

  // ---------- what is out of the device's hands ----------

  /** The panel, and the snapshot while the connection stands, are out of reach from outside. */
  predicate OutOfReach(sys: System, sys': System) {
    && sys'.panel == sys.panel && sys'.snap.Some? == sys.snap.Some?
    && (sys.snap.Some? ==> sys'.snap.value.items == sys.snap.value.items)
    && (sys'.subscribed ==> sys.subscribed && sys'.synced == sys.synced)
    && (sys'.subscribed && sys.snap.Some? ==> sys'.snap.value.live == sys.snap.value.live)
  }

  lemma {:induction false} OutsideKeeps(b: Board, sys: System, gap: seq<Event>)
    requires Fits(b, sys.panel) && AllOutside(gap)
    ensures OutOfReach(sys, Play(b, sys, gap))
    decreases |gap|
  {
    if gap != [] {
      assert gap[0] in gap && Outside(gap[0]);
      OutsideKeeps(b, Step(b, sys, gap[0]), gap[1..]);
    }
  }

  lemma {:induction false} GapExact(b: Board, sys: System, gap: seq<Event>, key: string, n: nat)
    requires Fits(b, sys.panel) && Exact(sys, key, n) && AllOutside(gap) && Play(b, sys, gap).subscribed
    ensures Exact(Play(b, sys, gap), key, n)
    decreases |gap|
  {
    if gap != [] {
      assert gap[0] in gap && Outside(gap[0]);
      OutsideKeeps(b, Step(b, sys, gap[0]), gap[1..]);
      OutsideExact(b, sys, gap[0], key, n);
      GapExact(b, Step(b, sys, gap[0]), gap[1..], key, n);
    }
  }

  // ---------- what a sync makes good ----------

  /** A sync in two stretches: the snapshot, and what happens until it is applied. */
  lemma SyncSplit(b: Board, sys: System, during: seq<Event>)
    requires Fits(b, sys.panel)
    ensures Play(b, sys, [TakeSnapshot] + during + [ApplySnapshot])
         == Step(b, Play(b, Step(b, sys, TakeSnapshot), during), ApplySnapshot)
  {
    PlaySplit(b, sys, [TakeSnapshot] + during, [ApplySnapshot]);
    PlayThen(b, sys, TakeSnapshot, during);
    PlayOne(b, Play(b, Step(b, sys, TakeSnapshot), during), ApplySnapshot);
  }

  lemma SyncExact(b: Board, sys: System, key: string, during: seq<Event>, n: nat)
    requires Fits(b, sys.panel) && sys.subscribed && sys.snap.None? && AllOutside(during)
    requires Exact(Step(b, sys, TakeSnapshot), key, n)
    ensures var s := Play(b, sys, [TakeSnapshot] + during + [ApplySnapshot]);
            s.subscribed ==> s.synced && s.snap.None? && Exact(s, key, n) && (Trusted(s, key) <==> Arrived(s, key, n))
  {
    var s1 := Step(b, sys, TakeSnapshot);
    SyncSplit(b, sys, during);
    OutsideKeeps(b, s1, during);
    if Play(b, s1, during).subscribed {
      GapExact(b, s1, during, key, n);
      ApplyExact(b, Play(b, s1, during), key, n);
    }
  }

  /** Syncing does not bring a connection back. */
  lemma SyncConnects(b: Board, sys: System, during: seq<Event>)
    requires Fits(b, sys.panel) && AllOutside(during)
    ensures Play(b, sys, [TakeSnapshot] + during + [ApplySnapshot]).subscribed ==> sys.subscribed
  {
    SyncSplit(b, sys, during);
    OutsideKeeps(b, Step(b, sys, TakeSnapshot), during);
  }

  /**
   A sync begun with no push of a key queued, the service working all through it:
   if the connection outlasts it, the key may be trusted exactly when its latest
   attempt since the snapshot was taken arrived, whatever was lost before.
   */
  lemma SyncRecovers(b: Board, sys: System, key: string, during: seq<Event>)
    requires Fits(b, sys.panel) && sys.subscribed && sys.snap.None? && AllOutside(during)
    requires LastPayload(sys.queue, TopicOf(key)).None?
    ensures var s := Play(b, sys, [TakeSnapshot] + during + [ApplySnapshot]);
            s.subscribed ==> s.synced && s.snap.None? && (Trusted(s, key) <==> Arrived(s, key, LogLength(sys)))
  {
    TakeExact(b, sys, key, 0);
    SyncExact(b, sys, key, during, LogLength(sys));
  }

  /**
   A reconnection from any state, the service working at every point of it: the
   key may be trusted exactly when its latest attempt arrived, counted from the
   snapshot if no push of it was queued then, and from the subscription otherwise.
   */
  lemma ReconnectRecovers(b: Board, sys: System, key: string, g0: seq<Event>, g1: seq<Event>, g2: seq<Event>, g3: seq<Event>)
    requires Fits(b, sys.panel) && AllOutside(g0) && AllOutside(g1) && AllOutside(g2) && AllOutside(g3)
    ensures var open := Play(b, sys, [Disconnect] + g0 + [FailSync] + g1);
            var at := Play(b, open, [Subscribe] + g2);
            var s := Play(b, at, [TakeSnapshot] + g3 + [ApplySnapshot]);
            s.subscribed ==>
              && s.synced && s.snap.None?
              && (Trusted(s, key) <==>
                    Arrived(s, key, if LastPayload(at.queue, TopicOf(key)).None? then LogLength(at) else LogLength(open)))
  {
    var open := Play(b, sys, [Disconnect] + g0 + [FailSync] + g1);
    var at := Play(b, open, [Subscribe] + g2);
    DropEnds(b, sys, g0, g1);
    SubscribeExact(b, open, key, g2);
    SyncConnects(b, at, g3);
    if at.subscribed {
      TakeExact(b, at, key, LogLength(open));
      SyncExact(b, at, key, g3, if LastPayload(at.queue, TopicOf(key)).None? then LogLength(at) else LogLength(open));
    }
  }

  /** A new subscription owes the device nothing from before it. */
  lemma SubscribeExact(b: Board, sys: System, key: string, gap: seq<Event>)
    requires Fits(b, sys.panel) && !sys.subscribed && sys.snap.None? && AllOutside(gap)
    ensures var at := Play(b, sys, [Subscribe] + gap);
            at.snap.None? && (at.subscribed ==> Exact(at, key, LogLength(sys)))
  {
    var s1 := Step(b, sys, Subscribe);
    PlayThen(b, sys, Subscribe, gap);
    OutsideKeeps(b, s1, gap);
    if Play(b, s1, gap).subscribed {
      GapExact(b, s1, gap, key, LogLength(sys));
    }
  }

  lemma DropSplit(b: Board, sys: System, g0: seq<Event>, g1: seq<Event>)
    requires Fits(b, sys.panel)
    ensures Play(b, sys, [Disconnect] + g0 + [FailSync] + g1)
         == Play(b, Step(b, Play(b, Step(b, sys, Disconnect), g0), FailSync), g1)
  {
    PlaySplit(b, sys, [Disconnect] + g0 + [FailSync], g1);
    PlaySplit(b, sys, [Disconnect] + g0, [FailSync]);
    PlayThen(b, sys, Disconnect, g0);
    PlayOne(b, Play(b, Step(b, sys, Disconnect), g0), FailSync);
  }

  lemma DisconnectEnds(b: Board, sys: System, gap: seq<Event>)
    requires Fits(b, sys.panel) && AllOutside(gap)
    ensures !Play(b, Step(b, sys, Disconnect), gap).subscribed
  {
    OutsideKeeps(b, Step(b, sys, Disconnect), gap);
  }

  lemma FailEnds(b: Board, sys: System, gap: seq<Event>)
    requires Fits(b, sys.panel) && AllOutside(gap) && !sys.subscribed
    ensures var open := Play(b, Step(b, sys, FailSync), gap); !open.subscribed && open.snap.None?
  {
    OutsideKeeps(b, Step(b, sys, FailSync), gap);
  }

  /** Losing the connection ends the subscription and, in time, any sync under way. */
  lemma DropEnds(b: Board, sys: System, g0: seq<Event>, g1: seq<Event>)
    requires Fits(b, sys.panel) && AllOutside(g0) && AllOutside(g1)
    ensures var open := Play(b, sys, [Disconnect] + g0 + [FailSync] + g1); !open.subscribed && open.snap.None?
  {
    DropSplit(b, sys, g0, g1);
    DisconnectEnds(b, sys, g0);
    FailEnds(b, Play(b, Step(b, sys, Disconnect), g0), g1);
  }

  // ---------- convergence in terms of the log ----------

  lemma CoveredTrusted(sys: System, key: string, n: nat)
    requires Covered(sys, key, n) && sys.subscribed && (sys.synced || Live(sys)) && Arrived(sys, key, n)
    ensures Trusted(sys, key)
  {
    var r := RoutingKey(SwitchId(key));
    assert r !in sys.lost;
  }

  /**
   Convergence by the log: counting from any moment without a subscription, once
   a snapshot has been taken under the present one, the overlaid device is the
   store on every stored switch whose latest publish attempt arrived.
   */
  lemma ConvergesByLog(b: Board, w: World, p: Panel, before: seq<Event>, since: seq<Event>, i: nat)
    requires Replicable(b) && Fits(b, p) && ValidStore(w.store) && i < |b.names|
    requires Orderly(b, Boot(w, p), before) && !Play(b, Boot(w, p), before).subscribed
    requires Orderly(b, Play(b, Boot(w, p), before), since)
    ensures var sys0, key := Play(b, Boot(w, p), before), b.Key(i);
            var sys := Play(b, sys0, since);
            (sys.synced || Live(sys)) && Arrived(sys, key, LogLength(sys0)) && StoredAt(sys, key).Some?
            ==> Overlaid(b, sys, i, StoredAt(sys, key).value)
  {
    BootInv(b, w, p);
    PlayInv(b, Boot(w, p), before);
    var sys0, key := Play(b, Boot(w, p), before), b.Key(i);
    PlayInv(b, sys0, since);
    PlayCovered(b, sys0, since, key, LogLength(sys0));
    var sys := Play(b, sys0, since);
    if (sys.synced || Live(sys)) && Arrived(sys, key, LogLength(sys0)) {
      CoveredTrusted(sys, key, LogLength(sys0));
      assert KeyInv(b, sys, i);
    }
  }

  predicate Connected(events: seq<Event>) {
    forall e | e in events :: !e.Disconnect?
  }

  predicate Unfailing(events: seq<Event>) {
    forall e | e in events :: !e.Disconnect? && !e.FailSync?
  }

  /** A subscription under which any snapshot on its way was taken. */
  predicate Linked(sys: System) {
    sys.subscribed && (sys.snap.Some? ==> sys.snap.value.live)
  }

  /** A standing connection keeps the device synced, and a snapshot it waits for on its way. */
  lemma {:induction false} StaysLinked(b: Board, sys: System, events: seq<Event>)
    requires Fits(b, sys.panel) && Linked(sys) && Connected(events)
    ensures var sys' := Play(b, sys, events);
            && Linked(sys') && (sys.synced ==> sys'.synced)
            && (Unfailing(events) && sys.snap.Some? ==> sys'.snap.Some? || sys'.synced)
    decreases |events|
  {
    if events != [] {
      assert events[0] in events && forall e | e in events[1..] :: e in events;
      var next := Step(b, sys, events[0]);
      assert Linked(next) && (sys.synced ==> next.synced);
      StaysLinked(b, next, events[1..]);
    }
  }

  lemma Regroup<T>(a: seq<T>, x: seq<T>, y: seq<T>, z: seq<T>)
    ensures a + x + y + z == a + (x + y + z)
  {
  }

  lemma SessionSplit(b: Board, sys: System, opening: seq<Event>, during: seq<Event>, after: seq<Event>)
    requires Fits(b, sys.panel)
    ensures Play(b, sys, [Subscribe] + opening + [TakeSnapshot] + during + [ApplySnapshot] + after)
         == Play(b, Play(b, Play(b, Step(b, sys, Subscribe), opening), [TakeSnapshot] + during + [ApplySnapshot]), after)
  {
    var head := [Subscribe] + opening;
    PlaySplit(b, sys, head + [TakeSnapshot] + during + [ApplySnapshot], after);
    Regroup(head, [TakeSnapshot], during, [ApplySnapshot]);
    PlaySplit(b, sys, head, [TakeSnapshot] + during + [ApplySnapshot]);
    PlayThen(b, sys, Subscribe, opening);
  }

  /** A sync that does not fail, under a standing connection, leaves the device synced. */
  lemma SyncSyncs(b: Board, sys: System, during: seq<Event>)
    requires Fits(b, sys.panel) && Linked(sys) && Unfailing(during)
    ensures var s := Play(b, sys, [TakeSnapshot] + during + [ApplySnapshot]); Linked(s) && s.synced
  {
    SyncSplit(b, sys, during);
    StaysLinked(b, Step(b, sys, TakeSnapshot), during);
  }

  /** After subscribing, a snapshot that is taken and applied leaves the device synced until the connection drops. */
  lemma SyncedSince(b: Board, sys: System, opening: seq<Event>, during: seq<Event>, after: seq<Event>)
    requires Fits(b, sys.panel) && !sys.subscribed && sys.snap.None?
    requires Connected(opening) && Unfailing(during) && Connected(after)
    ensures Play(b, sys, [Subscribe] + opening + [TakeSnapshot] + during + [ApplySnapshot] + after).synced
  {
    var s1 := Step(b, sys, Subscribe);
    var s2 := Play(b, s1, opening);
    SessionSplit(b, sys, opening, during, after);
    StaysLinked(b, s1, opening);
    SyncSyncs(b, s2, during);
    StaysLinked(b, Play(b, s2, [TakeSnapshot] + during + [ApplySnapshot]), after);
  }

  /**
   Convergence by events: once the device has subscribed and a snapshot has been
   taken and applied, with the connection standing since, the overlaid device is
   the store on every stored switch whose latest publish attempt since the
   subscription arrived, in particular if every publish since then succeeded.
   */
  lemma ConvergesByEvents(b: Board, w: World, p: Panel, before: seq<Event>,
                          opening: seq<Event>, during: seq<Event>, after: seq<Event>, i: nat)
    requires Replicable(b) && Fits(b, p) && ValidStore(w.store) && i < |b.names|
    requires Orderly(b, Boot(w, p), before)
    requires var sys0 := Play(b, Boot(w, p), before);
             && !sys0.subscribed && sys0.snap.None?
             && Orderly(b, sys0, [Subscribe] + opening + [TakeSnapshot] + during + [ApplySnapshot] + after)
    requires Connected(opening) && Unfailing(during) && Connected(after)
    ensures var sys0, key := Play(b, Boot(w, p), before), b.Key(i);
            var sys := Play(b, sys0, [Subscribe] + opening + [TakeSnapshot] + during + [ApplySnapshot] + after);
            Arrived(sys, key, LogLength(sys0)) && StoredAt(sys, key).Some?
            ==> Overlaid(b, sys, i, StoredAt(sys, key).value)
  {
    var since := [Subscribe] + opening + [TakeSnapshot] + during + [ApplySnapshot] + after;
    ConvergesByLog(b, w, p, before, since, i);
    SyncedSince(b, Play(b, Boot(w, p), before), opening, during, after);
  }
}
