/**
 What the device program makes good by itself: which turns recover a lost publish,
 how long one can stay unseen, and convergence of the program by the log.
 */
module LoopRecovery {
  import opened States
  import opened ServiceSpec
  import opened DeviceSpec
  import opened DeviceLaws
  import opened Replication
  import opened Convergence
  import opened Recovery
  import opened DeviceRuns

  // ---------- one turn ----------

  lemma LogGrows(b: Board, sys: System, events: seq<Event>)
    requires Fits(b, sys.panel)
    ensures LogLength(sys) <= LogLength(Play(b, sys, events))
    decreases |events|
  {
    if events != [] {
      StepLog(b, sys, events[0]);
      LogGrows(b, Step(b, sys, events[0]), events[1..]);
    }
  }

  /** The rest of a turn whose periodic sync is due and succeeds. */
  lemma SyncedEnd(b: Board, sys: System, c: Ctl, k: Round)
    requires Fits(b, sys.panel) && Due(c, k.turn) && k.turn.periodicReply.Success()
    ensures Play(b, sys, UntilEnd(c, k)) == Play(b, Play(b, sys, [TakeSnapshot] + k.syncing + [ApplySnapshot]), k.afterwards)
  {
    PlaySplit(b, sys, [TakeSnapshot] + k.syncing + [ApplySnapshot], k.afterwards);
  }

  lemma SyncedEndExact(b: Board, sys: System, c: Ctl, k: Round, key: string)
    requires Fits(b, sys.panel) && sys.snap.None? && k.Interrupted()
    requires Due(c, k.turn) && k.turn.periodicReply.Success() && LastPayload(sys.queue, TopicOf(key)).None?
    ensures var end := Play(b, sys, UntilEnd(c, k));
            end.subscribed ==> end.snap.None? && end.synced && Exact(end, key, LogLength(sys))
  {
    var s := Play(b, sys, [TakeSnapshot] + k.syncing + [ApplySnapshot]);
    SyncedEnd(b, sys, c, k);
    OutsideKeeps(b, s, k.afterwards);
    SyncConnects(b, sys, k.syncing);
    if Play(b, s, k.afterwards).subscribed {
      TakeExact(b, sys, key, 0);
      SyncExact(b, sys, key, k.syncing, LogLength(sys));
      GapExact(b, s, k.afterwards, key, LogLength(sys));
    }
  }

  lemma RoundSplit(b: Board, sys: System, c: Ctl, k: Round)
    requires Fits(b, sys.panel)
    ensures var at, end := AtSync(b, sys, k), Play(b, sys, RoundEvents(c, k));
            end == Play(b, at, UntilEnd(c, k)) && LogLength(sys) <= LogLength(at) <= LogLength(end)
  {
    PlaySplit(b, sys, UntilPush(k) + UntilSync(k), UntilEnd(c, k));
    PlaySplit(b, sys, UntilPush(k), UntilSync(k));
    LogGrows(b, sys, UntilPush(k));
    LogGrows(b, AtPush(b, sys, k), UntilSync(k));
    LogGrows(b, AtSync(b, sys, k), UntilEnd(c, k));
  }

  /**
   A turn whose periodic sync succeeds with no push of a key queued, whatever
   happens at any point of it: if the connection stands at its end, the key may be
   trusted exactly when its latest attempt since that snapshot arrived.
   */
  lemma RoundRecovers(b: Board, sys: System, c: Ctl, k: Round, key: string)
    requires Fits(b, sys.panel) && Meets(b, sys, c, k)
    requires Due(c, k.turn) && k.turn.periodicReply.Success()
    requires LastPayload(AtSync(b, sys, k).queue, TopicOf(key)).None?
    ensures var at, end := AtSync(b, sys, k), Play(b, sys, RoundEvents(c, k));
            && LogLength(sys) <= LogLength(at) <= LogLength(end)
            && (end.subscribed ==> (Trusted(end, key) <==> Arrived(end, key, LogLength(at))))
  {
    RoundSplit(b, sys, c, k);
    ReconnectPlays(b, sys, c, k);
    PushPlays(b, AtPush(b, sys, k), k);
    SyncedEndExact(b, AtSync(b, sys, k), c, k, key);
  }

  /** After such a turn only attempts made since its beginning can leave the key lost. */
  lemma RoundCovers(b: Board, sys: System, c: Ctl, k: Round, key: string)
    requires Fits(b, sys.panel) && Meets(b, sys, c, k)
    requires Due(c, k.turn) && k.turn.periodicReply.Success()
    requires LastPayload(AtSync(b, sys, k).queue, TopicOf(key)).None?
    ensures var end := Play(b, sys, RoundEvents(c, k));
            && Covered(end, key, LogLength(sys)) && (end.subscribed ==> end.synced)
  {
    var end, at := Play(b, sys, RoundEvents(c, k)), AtSync(b, sys, k);
    RoundRecovers(b, sys, c, k, key);
    RoundIsTurn(b, sys, c, k);
    assert Covered(end, key, LogLength(at));
    CoveredEarlier(end, key, LogLength(sys), LogLength(at));
  }

  // ---------- many turns ----------

  /** Every sync of these turns succeeds, and no periodic one begins with a push of this key queued. */
  predicate CleanSyncs(b: Board, sys: System, c: Ctl, rounds: seq<Round>, key: string)
    requires Fits(b, sys.panel)
    decreases |rounds|
  {
    rounds != [] ==>
      var k := rounds[0];
      && (!k.turn.connected ==> k.turn.reconnectReply.Success())
      && (Due(c, k.turn) ==> k.turn.periodicReply.Success() && LastPayload(AtSync(b, sys, k).queue, TopicOf(key)).None?)
      && CleanSyncs(b, Play(b, sys, RoundEvents(c, k)), TurnCtl(c, k.turn), rounds[1..], key)
  }

  function TurnsOf(rounds: seq<Round>): (turns: seq<Turn>)
    ensures |turns| == |rounds|
    ensures forall j | 0 <= j < |turns| :: turns[j] == rounds[j].turn
  {
    seq(|rounds|, j requires 0 <= j < |rounds| => rounds[j].turn)
  }

  /** While every sync succeeds, a device that is connected is synced. */
  lemma {:induction false} LoopStaysSynced(b: Board, sys: System, c: Ctl, rounds: seq<Round>, key: string)
    requires Fits(b, sys.panel) && LoopMeets(b, sys, c, rounds) && CleanSyncs(b, sys, c, rounds, key)
    requires sys.subscribed ==> sys.synced
    ensures var end := Play(b, sys, LoopEvents(c, rounds)); end.subscribed ==> end.synced
    decreases |rounds|
  {
    if rounds != [] {
      var k, next := rounds[0], Play(b, sys, RoundEvents(c, rounds[0]));
      RoundIsTurn(b, sys, c, k);
      PlaySplit(b, sys, RoundEvents(c, k), LoopEvents(TurnCtl(c, k.turn), rounds[1..]));
      LoopStaysSynced(b, next, TurnCtl(c, k.turn), rounds[1..], key);
    }
  }

  /** From a turn whose periodic sync is due on. */
  lemma DueCovers(b: Board, sys: System, c: Ctl, rounds: seq<Round>, key: string)
    requires Fits(b, sys.panel) && LoopMeets(b, sys, c, rounds) && CleanSyncs(b, sys, c, rounds, key)
    requires rounds != [] && Due(c, rounds[0].turn)
    ensures var end := Play(b, sys, LoopEvents(c, rounds));
            && Covered(end, key, LogLength(sys)) && (end.subscribed ==> end.synced)
  {
    var k, rest := rounds[0], rounds[1..];
    var c', next := TurnCtl(c, k.turn), Play(b, sys, RoundEvents(c, k));
    PlaySplit(b, sys, RoundEvents(c, k), LoopEvents(c', rest));
    RoundCovers(b, sys, c, k, key);
    PlayCovered(b, next, LoopEvents(c', rest), key, LogLength(sys));
    LoopStaysSynced(b, next, c', rest, key);
  }

  /** The timer over the turns of these rounds, one at a time. */
  lemma FirstOnTime(c: Ctl, rounds: seq<Round>, lastTrue: int)
    requires rounds != [] && FiresOnTime(c, TurnsOf(rounds), lastTrue)
    ensures var t := rounds[0].turn;
            && (Due(c, t) <==> t.now - lastTrue >= Reconnected(c, t).interval)
            && FiresOnTime(TurnCtl(c, t), TurnsOf(rounds[1..]), if Due(c, t) then t.now else lastTrue)
  {
    assert TurnsOf(rounds)[1..] == TurnsOf(rounds[1..]);
  }

  /** Turns up to the moment a periodic sync must have come: what was lost before them no longer counts. */
  lemma {:induction false} LoopCovers(b: Board, sys: System, c: Ctl, rounds: seq<Round>, key: string, lastTrue: int)
    requires Fits(b, sys.panel) && LoopMeets(b, sys, c, rounds) && CleanSyncs(b, sys, c, rounds, key)
    requires Paused(c) && FiresOnTime(c, TurnsOf(rounds), lastTrue)
    requires rounds != [] && Last(rounds).turn.now - lastTrue >= DEFAULT_INTERVAL
    ensures var end := Play(b, sys, LoopEvents(c, rounds));
            && Covered(end, key, LogLength(sys)) && (end.subscribed ==> end.synced)
    decreases |rounds|
  {
    var k, rest := rounds[0], rounds[1..];
    var c' := TurnCtl(c, k.turn);
    FirstOnTime(c, rounds, lastTrue);
    PausedTurn(c, k.turn);
    if Due(c, k.turn) {
      DueCovers(b, sys, c, rounds, key);
    } else {
      var next := Play(b, sys, RoundEvents(c, k));
      assert Last(rest) == Last(rounds);
      LoopCovers(b, next, c', rest, key, lastTrue);
      PlaySplit(b, sys, RoundEvents(c, k), LoopEvents(c', rest));
      LogGrows(b, sys, RoundEvents(c, k));
      CoveredEarlier(Play(b, next, LoopEvents(c', rest)), key, LogLength(sys), LogLength(next));
    }
  }

  /**
   How long a lost publish can stay unseen. Whatever was lost before, once turns of
   the loop have gone on until five minutes after the last periodic sync, over any
   number of rollovers and dropped connections, with every sync successful and none
   of the periodic ones begun with a push of the key queued, a device that is
   connected shows, up to what is on its way, the store at every stored switch
   whose latest attempt during those turns arrived.
   */
  lemma LostPublishIsSeen(b: Board, w: World, p: Panel, before: seq<Event>, c: Ctl, rounds: seq<Round>, lastTrue: nat, i: nat)
    requires Replicable(b) && Fits(b, p) && ValidStore(w.store) && i < |b.names|
    requires Orderly(b, Boot(w, p), before)
    requires var sys := Play(b, Boot(w, p), before);
             && sys.snap.None? && LoopMeets(b, sys, c, rounds) && Orderly(b, sys, LoopEvents(c, rounds))
             && CleanSyncs(b, sys, c, rounds, b.Key(i))
    requires Paused(c) && c.lastRequest == Wrapped(lastTrue) && rounds != []
    requires lastTrue <= rounds[0].turn.now < lastTrue + WRAP && Paced(TurnsOf(rounds)[1..], rounds[0].turn.now, TOLERANCE)
    requires Last(rounds).turn.now - lastTrue >= DEFAULT_INTERVAL
    ensures var sys, key := Play(b, Boot(w, p), before), b.Key(i);
            var end := Play(b, sys, LoopEvents(c, rounds));
            end.subscribed && Arrived(end, key, LogLength(sys)) && StoredAt(end, key).Some? ==>
              && Overlaid(b, end, i, StoredAt(end, key).value)
              && (Settled(end, key) ==> Shows(b, LoopPanel(b, sys.panel, c, rounds), i, StoredAt(end, key).value == STATE_ON))
  {
    var sys, key := Play(b, Boot(w, p), before), b.Key(i);
    var end := Play(b, sys, LoopEvents(c, rounds));
    TimerFrom(c, TurnsOf(rounds), lastTrue);
    LoopCovers(b, sys, c, rounds, key, lastTrue);
    if end.subscribed && Arrived(end, key, LogLength(sys)) {
      CoveredTrusted(end, key, LogLength(sys));
      LoopConverges(b, w, p, before, c, rounds, i);
    }
  }

  // ---------- convergence of the program by the log ----------

  /**
   Counting from any moment without a connection, and whatever happens until the
   loop and during it: where the program ends synced, the panel it has computed is,
   up to what is on its way, the store on every stored switch whose latest publish
   attempt arrived.
   */
  lemma LoopConvergesByLog(b: Board, w: World, p: Panel, before: seq<Event>, since: seq<Event>, c: Ctl, rounds: seq<Round>, i: nat)
    requires Replicable(b) && Fits(b, p) && ValidStore(w.store) && i < |b.names|
    requires Orderly(b, Boot(w, p), before + since) && !Play(b, Boot(w, p), before).subscribed
    requires var sys := Play(b, Boot(w, p), before + since);
             sys.snap.None? && LoopMeets(b, sys, c, rounds) && Orderly(b, sys, LoopEvents(c, rounds))
    ensures var n, sys, key := LogLength(Play(b, Boot(w, p), before)), Play(b, Boot(w, p), before + since), b.Key(i);
            var end := Play(b, sys, LoopEvents(c, rounds));
            && end.panel == LoopPanel(b, sys.panel, c, rounds)
            && (end.synced && Arrived(end, key, n) && StoredAt(end, key).Some? ==>
                  && Overlaid(b, end, i, StoredAt(end, key).value)
                  && (Settled(end, key) ==> Shows(b, LoopPanel(b, sys.panel, c, rounds), i, StoredAt(end, key).value == STATE_ON)))
  {
    var sys0, sys, key := Play(b, Boot(w, p), before), Play(b, Boot(w, p), before + since), b.Key(i);
    var end := Play(b, sys, LoopEvents(c, rounds));
    PlaySplit(b, Boot(w, p), before, since);
    PlayCovered(b, sys0, since, key, LogLength(sys0));
    PlayCovered(b, sys, LoopEvents(c, rounds), key, LogLength(sys0));
    LoopConverges(b, w, p, before + since, c, rounds, i);
    BootInv(b, w, p);
    PlayInv(b, Boot(w, p), before + since);
    PlayInv(b, sys, LoopEvents(c, rounds));
    if end.synced && Arrived(end, key, LogLength(sys0)) {
      CoveredTrusted(end, key, LogLength(sys0));
    }
  }

  /**
   The same without a word about what the system records: a turn reconnects and its
   sync succeeds, and the connection stands from then on.
   */
  lemma ReconnectedLoopConverges(b: Board, w: World, p: Panel, before: seq<Event>, c: Ctl, rounds: seq<Round>, i: nat)
    requires Replicable(b) && Fits(b, p) && ValidStore(w.store) && i < |b.names|
    requires Orderly(b, Boot(w, p), before)
    requires var sys := Play(b, Boot(w, p), before);
             sys.snap.None? && LoopMeets(b, sys, c, rounds) && Orderly(b, sys, LoopEvents(c, rounds))
    requires rounds != [] && !rounds[0].turn.connected && rounds[0].turn.reconnectReply.Success()
    requires Connected(LoopEvents(c, rounds))
    ensures var sys, key := Play(b, Boot(w, p), before), b.Key(i);
            var end := Play(b, sys, LoopEvents(c, rounds));
            Arrived(end, key, LogLength(sys)) && StoredAt(end, key).Some? ==>
              && Overlaid(b, end, i, StoredAt(end, key).value)
              && (Settled(end, key) ==> Shows(b, LoopPanel(b, sys.panel, c, rounds), i, StoredAt(end, key).value == STATE_ON))
  {
    var sys, k := Play(b, Boot(w, p), before), rounds[0];
    var rest := LoopEvents(TurnCtl(c, k.turn), rounds[1..]);
    var next := Play(b, sys, RoundEvents(c, k));
    assert before + [] == before;
    LoopConvergesByLog(b, w, p, before, [], c, rounds, i);
    RoundIsTurn(b, sys, c, k);
    PlaySplit(b, sys, RoundEvents(c, k), rest);
    RoundStaysConnected(b, sys, c, k);
    assert forall e | e in rest :: e in LoopEvents(c, rounds);
    StaysLinked(b, next, rest);
  }

  /** A turn that connects and meets no disconnection ends connected. */
  lemma RoundStaysConnected(b: Board, sys: System, c: Ctl, k: Round)
    requires Fits(b, sys.panel) && sys.snap.None? && !sys.subscribed && !k.turn.connected && Connected(RoundEvents(c, k))
    ensures Linked(Play(b, sys, RoundEvents(c, k)))
  {
    var events := RoundEvents(c, k);
    assert events[0] == Subscribe;
    assert forall e | e in events[1..] :: e in events;
    StaysLinked(b, Step(b, sys, Subscribe), events[1..]);
  }
}
