/** Laws of the device: what a sync achieves end to end, its backoff, and its timer across rollovers. */
module DeviceLaws {
  import opened Basics
  import opened States
  import opened StateStore
  import opened StateService
  import opened ServiceSpec
  import opened DeviceSpec

  // ---------- end-to-end sync ----------

  /** The snapshot items of a batch answer. */
  function ItemsOf(rs: seq<StateEntry>): (items: seq<Item>)
    ensures |items| == |rs| && forall i | 0 <= i < |rs| :: items[i] == Item(rs[i].key, rs[i].value)
  {
    if rs == [] then [] else ItemsOf(Front(rs)) + [Item(Last(rs).key, Last(rs).value)]
  }

  /** What the server answers to the device's request, taken from this store. */
  function Snapshot(store: Store, keys: seq<string>): seq<Item> {
    ItemsOf(Batch(store, PREFIX_SWITCH, keys))
  }

  /** The request names the switches' keys, in order. */
  function Keys(b: Board): (keys: seq<string>)
    ensures |keys| == |b.names| && forall i | 0 <= i < |keys| :: keys[i] == b.Key(i)
  {
    seq(|b.names|, i requires 0 <= i < |b.names| => b.Key(i))
  }

  /** A snapshot carries exactly the stored values of the requested keys. */
  lemma {:induction false} SnapshotValue(store: Store, keys: seq<string>, key: string)
    requires forall k | SwitchId(k) in store :: store[SwitchId(k)].value != ""
    ensures LastValue(Snapshot(store, keys), key) == if key in keys then ValueAt(store, SwitchId(key)) else None
    decreases |keys|
  {
    if keys != [] {
      var front, k := Front(keys), Last(keys);
      assert keys == front + [k];
      SnapshotValue(store, front, key);
      BatchSnoc(store, PREFIX_SWITCH, front, k);
      var more := Batch(store, PREFIX_SWITCH, [k]);
      var whole := Batch(store, PREFIX_SWITCH, keys);
      if SwitchId(k) in store {
        assert more == [ToState(SwitchId(k), store[SwitchId(k)])];
        assert Front(whole) == Batch(store, PREFIX_SWITCH, front) && Last(whole) == more[0];
        Snoc(Snapshot(store, front), Item(k, store[SwitchId(k)].value));
      } else {
        assert more == [];
        assert whole == Batch(store, PREFIX_SWITCH, front);
      }
    }
  }

  /**
   End-to-end sync: whatever the wiring, a successful sync turns every switch
   that is stored to its stored value, pin level included, and leaves every
   other switch and every other pin as it was.
   */
  lemma EndToEndSync(b: Board, p: Panel, store: Store, i: nat)
    requires b.WellFormed() && Fits(b, p) && ValidStore(store) && i < |b.names|
    ensures var p' := SyncPanel(b, p, Response(200, Some(Snapshot(store, Keys(b)))));
            && (match ValueAt(store, SwitchId(b.Key(i)))
                case Some(value) => Shows(b, p', i, value == STATE_ON)
                case None => SameAt(b, p, p', i))
            && SameElsewhere(b, p, p')
  {
    StoredNonempty(store);
    SnapshotValue(store, Keys(b), b.Key(i));
    assert Keys(b)[i] == b.Key(i);
    ApplyItemsAt(b, p, Snapshot(store, Keys(b)), i);
    OnOff();
  }

  lemma StoredNonempty(store: Store)
    requires ValidStore(store)
    ensures forall k | SwitchId(k) in store :: store[SwitchId(k)].value != ""
  {
  }

  // ---------- when a pin agrees with what the device believes ----------

  /** Everything the device does to a switch is naming it and giving it a state. */
  datatype Setting = Setting(name: string, state: string)

  function Settings(b: Board, p: Panel, sets: seq<Setting>): (p': Panel)
    requires Fits(b, p)
    ensures Fits(b, p')
  {
    if sets == [] then p else SetSwitch(b, Settings(b, p, Front(sets)), Last(sets).name, Last(sets).state)
  }

  predicate Agrees(b: Board, p: Panel, i: nat)
    requires Fits(b, p) && i < |b.names|
  {
    Shows(b, p, i, p.states[i])
  }

  predicate Mentioned(b: Board, sets: seq<Setting>, i: nat) {
    exists n :: 0 <= n < |sets| && FirstMatch(b, sets[n].name, 0) == i
  }

  /** The panel `setup` starts from: every switch believed on, every pin driven to off. */
  function PoweredOn(b: Board, pins: map<int, Level>): (p: Panel)
    requires b.Sized()
    ensures Fits(b, p)
  {
    Panel(seq(|b.names|, _ => true), PinsOff(b, pins, |b.names|))
  }

  lemma MentionedLast(b: Board, sets: seq<Setting>, i: nat)
    requires sets != []
    ensures Mentioned(b, sets, i) <==> Mentioned(b, Front(sets), i) || FirstMatch(b, Last(sets).name, 0) == i
  {
    var front := Front(sets);
    assert forall n | 0 <= n < |front| :: front[n] == sets[n];
    if Mentioned(b, front, i) {
      var n :| 0 <= n < |front| && FirstMatch(b, front[n].name, 0) == i;
      assert FirstMatch(b, sets[n].name, 0) == i;
    }
    if Mentioned(b, sets, i) {
      var n :| 0 <= n < |sets| && FirstMatch(b, sets[n].name, 0) == i;
      assert n < |front| ==> FirstMatch(b, front[n].name, 0) == i;
    }
  }

  /** One setting makes its switch agree, and leaves every other switch as it was. */
  lemma AgreementStep(b: Board, p: Panel, name: string, state: string, i: nat)
    requires b.WellFormed() && Fits(b, p) && i < |b.names|
    ensures var p' := SetSwitch(b, p, name, state);
            if FirstMatch(b, name, 0) == i then Agrees(b, p', i) else SameAt(b, p, p', i) && (Agrees(b, p', i) <==> Agrees(b, p, i))
  {
    SetSwitchAt(b, p, name, state, i);
  }

  /**
   The device starts out believing every switch on while every pin is off: the
   two agree on a switch exactly when something has set that switch since.
   */
  lemma {:induction false} PinAgreement(b: Board, pins: map<int, Level>, sets: seq<Setting>, i: nat)
    requires b.WellFormed() && i < |b.names|
    ensures var p := Settings(b, PoweredOn(b, pins), sets);
            && (Agrees(b, p, i) <==> Mentioned(b, sets, i))
            && (!Mentioned(b, sets, i) ==> SameAt(b, PoweredOn(b, pins), p, i))
  {
    if sets == [] {
      PinsOffAt(b, pins, |b.names|, i);
    } else {
      PinAgreement(b, pins, Front(sets), i);
      MentionedLast(b, sets, i);
      AgreementStep(b, Settings(b, PoweredOn(b, pins), Front(sets)), Last(sets).name, Last(sets).state, i);
    }
  }

  // ---------- backoff ----------

  /** The intervals the device ever waits for; after a success it waits for the default one. */
  predicate Paused(c: Ctl) {
    && (c.interval == 5000 || c.interval == 10000 || c.interval == 15000 || c.interval == 300000)
    && (c.lastStatus ==> c.interval == 300000)
  }

  function AfterReplies(c: Ctl, rs: seq<Response>): Ctl
    decreases |rs|
  {
    if rs == [] then c else AfterReplies(SyncCtl(c, rs[0]), rs[1..])
  }

  lemma {:induction false} PausedAlways(c: Ctl, rs: seq<Response>)
    requires Paused(c)
    ensures Paused(AfterReplies(c, rs))
    decreases |rs|
  {
    if rs != [] {
      PausedAlways(SyncCtl(c, rs[0]), rs[1..]);
    }
  }

  /** `n` transport failures in a row from a state that has already seen `k` of them. */
  lemma {:induction false} FailuresFrom(c: Ctl, rs: seq<Response>, k: nat)
    requires forall r | r in rs :: r.TransportFailure()
    requires if k == 0 then c.lastStatus else !c.lastStatus && c.interval == Min(5000 * k, 15000)
    requires k + |rs| >= 1
    ensures AfterReplies(c, rs).interval == Min(5000 * (k + |rs|), 15000)
    decreases |rs|
  {
    if rs != [] {
      FailuresFrom(SyncCtl(c, rs[0]), rs[1..], k + 1);
    }
  }

  /**
   Backoff in closed form: from power-on the interval is always one of four
   values; right after a success, n transport failures in a row make it
   min(5000 n, 15000); parse errors and HTTP error codes leave it alone.
   */
  lemma Backoff(before: seq<Response>, ok: Response, failures: seq<Response>, other: Response)
    requires ok.Success() && failures != [] && forall r | r in failures :: r.TransportFailure()
    requires !other.Success() && !other.TransportFailure()
    ensures var c := AfterReplies(POWER_ON, before);
            && Paused(c)
            && AfterReplies(SyncCtl(c, ok), failures).interval == Min(5000 * |failures|, 15000)
            && SyncCtl(c, other).interval == c.interval && !SyncCtl(c, other).lastStatus
  {
    PausedAlways(POWER_ON, before);
    FailuresFrom(SyncCtl(AfterReplies(POWER_ON, before), ok), failures, 0);
  }

  /** The replies that are transport failures. */
  function Failures(rs: seq<Response>): nat {
    if rs == [] then 0 else Failures(Front(rs)) + if Last(rs).code < 0 then 1 else 0
  }

  /** None of these replies brought a snapshot. */
  predicate AllFail(rs: seq<Response>) {
    forall r | r in rs :: !(r.code == 200 && r.items.Some?)
  }

  lemma {:induction false} RepliesSplit(c: Ctl, rs: seq<Response>, more: seq<Response>)
    ensures AfterReplies(c, rs + more) == AfterReplies(AfterReplies(c, rs), more)
    decreases |rs|
  {
    if rs == [] {
      assert rs + more == more;
    } else {
      assert (rs + more)[0] == rs[0] && (rs + more)[1..] == rs[1..] + more;
      RepliesSplit(SyncCtl(c, rs[0]), rs[1..], more);
    }
  }

  /** One more reply without a snapshot, `n` transport failures after the interval was `v`. */
  lemma FailingStep(c: Ctl, r: Response, v: nat, n: nat)
    requires !c.lastStatus && v <= 300000 && !(r.code == 200 && r.items.Some?)
    requires c.interval == if n == 0 then v else Min(v + 5000 * n, 15000)
    ensures var c', n' := SyncCtl(c, r), if r.code < 0 then n + 1 else n;
            !c'.lastStatus && c'.interval == if n' == 0 then v else Min(v + 5000 * n', 15000)
  {
  }

  /**
   Once a sync has failed, every transport failure adds five seconds up to fifteen,
   and parse errors and HTTP errors among them add nothing.
   */
  lemma {:induction false} FailingFrom(c: Ctl, rs: seq<Response>)
    requires !c.lastStatus && c.interval <= 300000 && AllFail(rs)
    ensures var c', n := AfterReplies(c, rs), Failures(rs);
            !c'.lastStatus && c'.interval == if n == 0 then c.interval else Min(c.interval + 5000 * n, 15000)
    decreases |rs|
  {
    if rs != [] {
      var front := Front(rs);
      assert rs == front + [Last(rs)] && Last(rs) in rs;
      assert forall r | r in front :: r in rs;
      FailingFrom(c, front);
      RepliesSplit(c, front, [Last(rs)]);
      OneReply(AfterReplies(c, front), Last(rs));
      FailingStep(AfterReplies(c, front), Last(rs), c.interval, Failures(front));
    }
  }

  lemma OneReply(c: Ctl, r: Response)
    ensures AfterReplies(c, [r]) == SyncCtl(c, r)
  {
    assert [r][1..] == [];
  }

  lemma {:induction false} FailuresSplit(rs: seq<Response>, more: seq<Response>)
    ensures Failures(rs + more) == Failures(rs) + Failures(more)
  {
    if more == [] {
      assert rs + more == rs;
    } else {
      assert Front(rs + more) == rs + Front(more) && Last(rs + more) == Last(more);
      FailuresSplit(rs, Front(more));
    }
  }

  /** The first reply after a success decides where the growth starts. */
  lemma FirstFailure(c: Ctl, r: Response)
    requires c.lastStatus && c.interval == 300000 && !(r.code == 200 && r.items.Some?)
    ensures !SyncCtl(c, r).lastStatus && SyncCtl(c, r).interval == if r.code < 0 then 5000 else 300000
  {
  }

  lemma FailingAfterSuccess(c: Ctl, since: seq<Response>)
    requires c.lastStatus && c.interval == 300000 && AllFail(since)
    ensures AfterReplies(c, since).interval ==
              if Failures(since) == 0 then 300000
              else if since[0].code < 0 then Min(5000 * Failures(since), 15000)
              else 15000
  {
    if since != [] {
      var first, rest := [since[0]], since[1..];
      assert since == first + rest && since[0] in since;
      assert forall r | r in rest :: r in since;
      assert Front(first) == [] && Failures(first) == if since[0].code < 0 then 1 else 0;
      FailuresSplit(first, rest);
      FirstFailure(c, since[0]);
      FailingFrom(SyncCtl(c, since[0]), rest);
    }
  }

  /** A success resets the backoff, whatever came before it. */
  lemma SuccessResets(earlier: seq<Response>, ok: Response)
    requires ok.code == 200 && ok.items.Some?
    ensures var c := AfterReplies(POWER_ON, earlier + [ok]); c.lastStatus && c.interval == 300000
  {
    RepliesSplit(POWER_ON, earlier, [ok]);
    OneReply(AfterReplies(POWER_ON, earlier), ok);
  }

  /**
   The interval after any history of replies. Without a success so far, it is five
   minutes until the first transport failure and fifteen seconds from then on. After
   the latest success, it is five minutes until the first transport failure; from
   then on it grows by five seconds a failure up to fifteen, or is fifteen at once
   when a parse or HTTP error came in between.
   */
  lemma BackoffEverywhere(earlier: seq<Response>, ok: Response, since: seq<Response>)
    requires ok.code == 200 && ok.items.Some? && AllFail(since)
    ensures AfterReplies(POWER_ON, since).interval == if Failures(since) == 0 then 300000 else 15000
    ensures AfterReplies(POWER_ON, earlier + [ok] + since).interval ==
              if Failures(since) == 0 then 300000
              else if since[0].code < 0 then Min(5000 * Failures(since), 15000)
              else 15000
  {
    FailingFrom(POWER_ON, since);
    RepliesSplit(POWER_ON, earlier + [ok], since);
    SuccessResets(earlier, ok);
    FailingAfterSuccess(AfterReplies(POWER_ON, earlier + [ok]), since);
  }

  /** A sync that brings no snapshot leaves switches and pins alone. */
  lemma FailedSyncKeepsPanel(b: Board, p: Panel, r: Response)
    requires Fits(b, p) && !(r.code == 200 && r.items.Some?)
    ensures SyncPanel(b, p, r) == p
  {
  }

  /** The replies the syncs of these turns meet, in order. */
  function RepliesMet(c: Ctl, turns: seq<Turn>): seq<Response>
    decreases |turns|
  {
    if turns == [] then [] else
      var t := turns[0];
      (if t.connected then [] else [t.reconnectReply]) + (if Due(c, t) then [t.periodicReply] else [])
      + RepliesMet(TurnCtl(c, t), turns[1..])
  }

  function AfterTurns(c: Ctl, turns: seq<Turn>): Ctl
    decreases |turns|
  {
    if turns == [] then c else AfterTurns(TurnCtl(c, turns[0]), turns[1..])
  }

  /** Over any turns of the loop the interval is that of all the replies met so far, those on reconnecting included. */
  lemma {:induction false} TurnsBackOff(c: Ctl, turns: seq<Turn>)
    ensures AfterTurns(c, turns).interval == AfterReplies(c, RepliesMet(c, turns)).interval
    ensures AfterTurns(c, turns).lastStatus == AfterReplies(c, RepliesMet(c, turns)).lastStatus
    decreases |turns|
  {
    if turns != [] {
      var t, c' := turns[0], TurnCtl(c, turns[0]);
      var first := if t.connected then [] else [t.reconnectReply];
      var second := if Due(c, t) then [t.periodicReply] else [];
      TurnsBackOff(c', turns[1..]);
      RepliesSplit(c, first + second, RepliesMet(c', turns[1..]));
      RepliesSplit(c, first, second);
      assert forall r: Response :: [r][1..] == [];
      var met := AfterReplies(c, first + second);
      assert met.interval == c'.interval && met.lastStatus == c'.lastStatus;
      RepliesOnly(met, c', RepliesMet(c', turns[1..]));
    }
  }

  /** The time of the last request has no part in the backoff. */
  lemma {:induction false} RepliesOnly(a: Ctl, c: Ctl, rs: seq<Response>)
    requires a.interval == c.interval && a.lastStatus == c.lastStatus
    ensures AfterReplies(a, rs).interval == AfterReplies(c, rs).interval
    ensures AfterReplies(a, rs).lastStatus == AfterReplies(c, rs).lastStatus
    decreases |rs|
  {
    if rs != [] {
      RepliesOnly(SyncCtl(a, rs[0]), SyncCtl(c, rs[0]), rs[1..]);
    }
  }

  // ---------- the timer ----------

  /** Turns follow each other at most `gap` milliseconds apart. */
  predicate Paced(turns: seq<Turn>, previous: int, gap: int)
    decreases |turns|
  {
    turns == [] || (0 <= turns[0].now - previous <= gap && Paced(turns[1..], turns[0].now, gap))
  }

  /** The widest gap between turns that the timer tolerates: 2^32 - 300000 ms. */
  const TOLERANCE: int := WRAP - DEFAULT_INTERVAL

  /** In every turn the periodic sync fires exactly when the true time since it last fired has reached the interval. */
  predicate FiresOnTime(c: Ctl, turns: seq<Turn>, lastTrue: int)
    decreases |turns|
  {
    turns != [] ==>
      var t := turns[0];
      && (Due(c, t) <==> t.now - lastTrue >= Reconnected(c, t).interval)
      && FiresOnTime(TurnCtl(c, t), turns[1..], if Due(c, t) then t.now else lastTrue)
  }

  lemma WrapDifference(now: nat, last: nat)
    requires last <= now < last + WRAP
    ensures Wrapped(Wrapped(now) - Wrapped(last)) == now - last
  {
  }

  /** Whatever a turn meets, the interval stays one of the four, and only firing moves the last request. */
  lemma PausedTurn(c: Ctl, t: Turn)
    requires Paused(c)
    ensures Paused(Reconnected(c, t)) && Paused(TurnCtl(c, t))
    ensures TurnCtl(c, t).lastRequest == if Due(c, t) then Wrapped(t.now) else c.lastRequest
  {
  }

  /** One turn fires on time, and leaves less than an interval behind it. */
  lemma TurnOnTime(c: Ctl, t: Turn, lastTrue: nat)
    requires Paused(c) && c.lastRequest == Wrapped(lastTrue) && lastTrue <= t.now < lastTrue + WRAP
    ensures Due(c, t) <==> t.now - lastTrue >= Reconnected(c, t).interval
    ensures !Due(c, t) ==> t.now - lastTrue < DEFAULT_INTERVAL
  {
    WrapDifference(t.now, lastTrue);
    PausedTurn(c, t);
  }

  lemma {:induction false} TimerFrom(c: Ctl, turns: seq<Turn>, lastTrue: nat)
    requires Paused(c) && c.lastRequest == Wrapped(lastTrue)
    requires turns != [] ==> lastTrue <= turns[0].now < lastTrue + WRAP && Paced(turns[1..], turns[0].now, TOLERANCE)
    ensures FiresOnTime(c, turns, lastTrue)
    decreases |turns|
  {
    if turns != [] {
      TurnOnTime(c, turns[0], lastTrue);
      PausedTurn(c, turns[0]);
      TimerFrom(TurnCtl(c, turns[0]), turns[1..], if Due(c, turns[0]) then turns[0].now else lastTrue);
    }
  }

  /** The first turn comes before the first rollover, and no gap between turns exceeds `gap`. */
  predicate InPace(turns: seq<Turn>, gap: int) {
    turns != [] ==> turns[0].now < WRAP && Paced(turns[1..], turns[0].now, gap)
  }

  predicate OnTime(setup: Response, turns: seq<Turn>) {
    FiresOnTime(SyncCtl(POWER_ON, setup), turns, 0)
  }

  /**
   Wrap-safe timer: over any number of rollovers of the millisecond counter the
   periodic sync fires exactly on time, if the first turn comes before the first
   rollover and no gap between turns exceeds the tolerance.
   */
  lemma TimerExact(setup: Response, turns: seq<Turn>)
    requires InPace(turns, TOLERANCE)
    ensures OnTime(setup, turns)
  {
    TimerFrom(SyncCtl(POWER_ON, setup), turns, 0);
  }

  /** One millisecond more between two turns, and a due sync can be missed. */
  lemma TimerGapIsTight(r: Response)
    requires r.Success()
    ensures var first := Turn(true, r, None, DEFAULT_INTERVAL - 1, r);
            var second := Turn(true, r, None, WRAP, r);
            && second.now - first.now == TOLERANCE + 1
            && !OnTime(r, [first, second])
  {
    var first, second := Turn(true, r, None, DEFAULT_INTERVAL - 1, r), Turn(true, r, None, WRAP, r);
    var c := SyncCtl(POWER_ON, r);
    assert !Due(c, first) && TurnCtl(c, first) == c && !Due(c, second);
    assert !FiresOnTime(c, [second], 0);
    assert [first, second][1..] == [second];
    assert !FiresOnTime(c, [first, second], 0);
  }

  ghost predicate AlwaysOnTime(gap: int) {
    forall setup: Response, turns: seq<Turn> :: InPace(turns, gap) ==> OnTime(setup, turns)
  }

  /** The timer is wrap-safe, whatever the syncs meet, for exactly the gaps up to that tolerance. */
  lemma TimerExactly(gap: int)
    ensures AlwaysOnTime(gap) <==> gap <= TOLERANCE
  {
    if gap <= TOLERANCE {
      forall setup: Response, turns: seq<Turn> | InPace(turns, gap)
        ensures OnTime(setup, turns)
      {
        if turns != [] {
          PacedWider(turns[1..], turns[0].now, gap, TOLERANCE);
          TimerExact(setup, turns);
        }
      }
    } else {
      var r := Response(200, Some([]));
      var turns := [Turn(true, r, None, DEFAULT_INTERVAL - 1, r), Turn(true, r, None, WRAP, r)];
      TimerGapIsTight(r);
      assert InPace(turns, gap) by {
        assert turns[1..] == [turns[1]] && turns[1..][1..] == [];
      }
      assert !OnTime(r, turns);
    }
  }

  lemma {:induction false} PacedWider(turns: seq<Turn>, previous: int, gap: int, wider: int)
    requires Paced(turns, previous, gap) && gap <= wider
    ensures Paced(turns, previous, wider)
    decreases |turns|
  {
    if turns != [] {
      PacedWider(turns[1..], turns[0].now, gap, wider);
    }
  }
}
