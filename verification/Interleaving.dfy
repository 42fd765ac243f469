/**
 Many calls of the state service in flight at once. The service takes no lock,
 so the read, the write, the counter and the publish of one call are separate
 steps between which any other call may run (app/hmstt/service.go).
 */
module Interleaving {
  import opened States
  import opened ServiceSpec

  /** Where a call in flight stands: the remote step it takes next. */
  datatype Pc =
    | Reading
    | Writing(value: string, description: string, changed: bool)
    | Counting(value: string)
    | Publishing(value: string)

  /** A call in flight, with the faults and the timestamp it has met so far. */
  datatype Flight = Flight(call: Call, pc: Pc, env: Env)

  datatype Done = Done(cid: nat, op: Op, result: Result)

  datatype Effect = Wrote(cid: nat, id: Id, value: string) | Attempted(cid: nat, id: Id, value: string, accepted: bool)

  /**
   `spawned` lists the calls ever made, a call's number being its index; `done`
   lists the completed ones in order of completion; `history` what they did outside.
   */
  datatype State = State(world: World, flights: map<nat, Flight>, spawned: seq<Call>, done: seq<Done>, history: seq<Effect>)

  datatype Label = Spawn(call: Call) | Advance(cid: nat, fails: bool, now: int)

  const FRESH := Env(false, false, false, 0)

  function Start(w: World): State {
    State(w, map[], [], [], [])
  }

  function Finish(s: State, cid: nat, f: Flight, r: Result): State {
    s.(flights := s.flights - {cid}, done := s.done + [Done(cid, Op(f.call, f.env), r)])
  }

  function Move(s: State, cid: nat, f: Flight): State {
    s.(flights := s.flights[cid := f])
  }

  /** The next step of one call in flight. */
  function AdvanceFlight(s: State, cid: nat, f: Flight, fails: bool, now: int): State {
    var id := f.call.id;
    match f.pc
    case Reading =>
      var env := f.env.(readFails := fails);
      (match AfterRead(f.call, Read(s.world.store, id, fails))
       case Reject(r) => Finish(s, cid, f.(env := env), r)
       case Write(value, description, changed) => Move(s, cid, Flight(f.call, Writing(value, description, changed), env)))
    case Writing(value, description, changed) =>
      var env := f.env.(writeFails := fails, now := now);
      if fails then Finish(s, cid, f.(env := env), WriteError) else
        var s' := s.(world := Stored(s.world, id, Entry(value, description, now)),
                     history := s.history + [Wrote(cid, id, value)]);
        if changed then Move(s', cid, Flight(f.call, Counting(value), env)) else Finish(s', cid, f.(env := env), Ok)
    case Counting(value) =>
      Move(s.(world := Counted(s.world, id.tipe)), cid, f.(pc := Publishing(value)))
    case Publishing(value) =>
      var s' := s.(world := Published(s.world, id, value, fails), history := s.history + [Attempted(cid, id, value, !fails)]);
      Finish(s', cid, f.(env := f.env.(publishFails := fails)), Ok)
  }

  function Next(s: State, act: Label): State {
    match act
    case Spawn(call) =>
      var cid := |s.spawned|;
      var s' := s.(spawned := s.spawned + [call]);
      if Precheck(call).Some? then Finish(s', cid, Flight(call, Reading, FRESH), Precheck(call).value)
      else Move(s', cid, Flight(call, Reading, FRESH))
    case Advance(cid, fails, now) =>
      if cid in s.flights then AdvanceFlight(s, cid, s.flights[cid], fails, now) else s
  }

  function Trace(s: State, labels: seq<Label>): State
    decreases |labels|
  {
    if labels == [] then s else Trace(Next(s, labels[0]), labels[1..])
  }

  lemma TraceTwo(s: State, a: Label, c: Label, rest: seq<Label>)
    ensures Trace(s, [a, c] + rest) == Trace(Next(Next(s, a), c), rest)
  {
    var labels := [a, c] + rest;
    assert labels[0] == a && labels[1..] == [c] + rest;
    assert ([c] + rest)[0] == c && ([c] + rest)[1..] == rest;
  }

  // ---------- safety of every interleaving ----------

  /** The calls that have been counted but not yet published. */
  function InPublish(flights: map<nat, Flight>): set<nat> {
    set cid | cid in flights && flights[cid].pc.Publishing?
  }

  /** What a call in flight may rely on, whatever the others do. */
  ghost predicate FlightSafe(s: State, cid: nat, f: Flight) {
    && cid < |s.spawned| && s.spawned[cid] == f.call && Precheck(f.call).None?
    && (f.pc.Writing? ==> CanTypeChangedWithKey(f.call.id, f.pc.value))
    && (f.pc.Counting? || f.pc.Publishing? ==>
          CanTypeChangedWithKey(f.call.id, f.pc.value) && Wrote(cid, f.call.id, f.pc.value) in s.history)
  }

  /** Every publish follows a write of the same value to the same entry by the same call. */
  ghost predicate WritesPrecedePublishes(history: seq<Effect>) {
    forall j | 0 <= j < |history| && history[j].Attempted? ::
      Wrote(history[j].cid, history[j].id, history[j].value) in history[..j]
  }

  /** The messages the history accounts for. */
  function LogOf(history: seq<Effect>): seq<Message> {
    if history == [] then []
    else match Last(history)
      case Wrote(_, _, _) => LogOf(Front(history))
      case Attempted(_, id, value, accepted) => LogOf(Front(history)) + [Message(RoutingKey(id), value, accepted)]
  }

  /** Only switch changes are counted, once per attempt, the attempts still to come included. */
  ghost predicate CounterExact(s: State) {
    && Changes(s.world, PREFIX_SWITCH) == |s.world.log| + |InPublish(s.flights)|
    && forall tipe | tipe != PREFIX_SWITCH :: Changes(s.world, tipe) == 0
  }

  ghost predicate Safe(s: State) {
    && ValidStore(s.world.store)
    && (forall cid | cid in s.flights :: FlightSafe(s, cid, s.flights[cid]))
    && WritesPrecedePublishes(s.history) && s.world.log == LogOf(s.history)
    && CounterExact(s)
  }

  lemma HistoryGrows(history: seq<Effect>, e: Effect)
    requires WritesPrecedePublishes(history)
    requires e.Attempted? ==> Wrote(e.cid, e.id, e.value) in history
    ensures WritesPrecedePublishes(history + [e])
  {
    var h := history + [e];
    forall j | 0 <= j < |h| && h[j].Attempted?
      ensures Wrote(h[j].cid, h[j].id, h[j].value) in h[..j]
    {
      if j < |history| {
        assert h[..j] == history[..j];
      } else {
        assert h[..j] == history;
      }
    }
  }

  lemma InPublishChanges(s: State, s': State, cid: nat)
    requires s'.flights - {cid} == s.flights - {cid}
    ensures InPublish(s'.flights) - {cid} == InPublish(s.flights) - {cid}
    ensures |InPublish(s'.flights)| - (if cid in InPublish(s'.flights) then 1 else 0)
         == |InPublish(s.flights)| - (if cid in InPublish(s.flights) then 1 else 0)
  {
    var a, b := InPublish(s.flights), InPublish(s'.flights);
    forall c | c != cid
      ensures c in a <==> c in b
    {
      assert c in s.flights <==> c in s.flights - {cid};
      assert c in s'.flights <==> c in s'.flights - {cid};
      if c in s.flights {
        assert s.flights[c] == (s.flights - {cid})[c];
      }
      if c in s'.flights {
        assert s'.flights[c] == (s'.flights - {cid})[c];
      }
    }
    assert b - {cid} == a - {cid};
    CardinalityWithout(a, cid);
    CardinalityWithout(b, cid);
  }

  lemma CardinalityWithout<T>(a: set<T>, x: T)
    ensures |a - {x}| == |a| - (if x in a then 1 else 0)
  {
  }

  lemma AdvanceKeepsStore(s: State, cid: nat, fails: bool, now: int)
    requires Safe(s) && cid in s.flights
    ensures ValidStore(Next(s, Advance(cid, fails, now)).world.store)
  {
  }

  lemma AdvanceKeepsHistory(s: State, cid: nat, fails: bool, now: int)
    requires Safe(s) && cid in s.flights
    ensures var s' := Next(s, Advance(cid, fails, now));
            WritesPrecedePublishes(s'.history) && s'.world.log == LogOf(s'.history)
  {
    var s', id := Next(s, Advance(cid, fails, now)), s.flights[cid].call.id;
    assert FlightSafe(s, cid, s.flights[cid]);
    match s.flights[cid].pc {
      case Reading => assert s'.history == s.history && s'.world == s.world;
      case Counting(_) => assert s'.history == s.history && s'.world.log == s.world.log;
      case Writing(value, _, _) =>
        HistoryGrows(s.history, Wrote(cid, id, value));
        Snoc(s.history, Wrote(cid, id, value));
      case Publishing(value) =>
        HistoryGrows(s.history, Attempted(cid, id, value, !fails));
        Snoc(s.history, Attempted(cid, id, value, !fails));
    }
  }

  /** What one step of one call does to the counter, to the log and to the set of calls about to publish. */
  lemma AdvanceCounts(s: State, cid: nat, fails: bool, now: int)
    requires cid in s.flights
    ensures var s', f := Next(s, Advance(cid, fails, now)), s.flights[cid];
            && s'.flights - {cid} == s.flights - {cid}
            && s'.world.changes == (if f.pc.Counting? then Counted(s.world, f.call.id.tipe).changes else s.world.changes)
            && |s'.world.log| == |s.world.log| + (if f.pc.Publishing? then 1 else 0)
            && (cid in InPublish(s'.flights) <==> f.pc.Counting?)
            && (f.pc.Publishing? ==> cid !in s'.flights)
  {
  }

  lemma AdvanceKeepsCounter(s: State, cid: nat, fails: bool, now: int)
    requires CounterExact(s) && cid in s.flights
    requires s.flights[cid].pc.Counting? ==> s.flights[cid].call.id.tipe == PREFIX_SWITCH
    ensures CounterExact(Next(s, Advance(cid, fails, now)))
  {
    var s' := Next(s, Advance(cid, fails, now));
    AdvanceCounts(s, cid, fails, now);
    InPublishChanges(s, s', cid);
    CountedChanges(s.world, PREFIX_SWITCH);
    forall tipe: string
      ensures Changes(s'.world, tipe) == Changes(s.world, tipe)
                + if s.flights[cid].pc.Counting? && tipe == PREFIX_SWITCH then 1 else 0
    {
    }
  }

  lemma CountedChanges(w: World, tipe: string)
    ensures forall t :: Changes(Counted(w, tipe), t) == Changes(w, t) + if t == tipe then 1 else 0
  {
  }

  lemma SpawnSafe(s: State, call: Call)
    requires Safe(s)
    ensures Safe(Next(s, Spawn(call)))
  {
    var s', cid := Next(s, Spawn(call)), |s.spawned|;
    assert cid in s.flights ==> FlightSafe(s, cid, s.flights[cid]);
    assert s'.flights - {cid} == s.flights - {cid};
    InPublishChanges(s, s', cid);
    forall c | c in s'.flights
      ensures FlightSafe(s', c, s'.flights[c])
    {
      if c != cid {
        assert s'.flights[c] == s.flights[c] && FlightSafe(s, c, s.flights[c]);
      }
    }
    forall tipe | tipe != PREFIX_SWITCH
      ensures Changes(s'.world, tipe) == 0
    {
      assert Changes(s.world, tipe) == 0;
    }
  }

  lemma NextSafe(s: State, act: Label)
    requires Safe(s)
    ensures Safe(Next(s, act))
  {
    match act
    case Spawn(call) => SpawnSafe(s, call);
    case Advance(cid, fails, now) =>
      if cid in s.flights {
        AdvanceKeepsStore(s, cid, fails, now);
        AdvanceKeepsHistory(s, cid, fails, now);
        assert FlightSafe(s, cid, s.flights[cid]);
        AdvanceKeepsCounter(s, cid, fails, now);
        AdvanceKeepsFlights(s, cid, fails, now);
      }
  }

  lemma AdvanceOwnSafe(s: State, cid: nat, fails: bool, now: int)
    requires ValidStore(s.world.store) && cid in s.flights && FlightSafe(s, cid, s.flights[cid])
    ensures var s' := Next(s, Advance(cid, fails, now));
            && (cid in s'.flights ==> FlightSafe(s', cid, s'.flights[cid]))
            && s.history <= s'.history && s'.spawned == s.spawned
            && forall c | c in s'.flights && c != cid :: c in s.flights && s'.flights[c] == s.flights[c]
  {
  }

  lemma AdvanceKeepsFlights(s: State, cid: nat, fails: bool, now: int)
    requires Safe(s) && cid in s.flights
    ensures var s' := Next(s, Advance(cid, fails, now));
            forall c | c in s'.flights :: FlightSafe(s', c, s'.flights[c])
  {
    var s' := Next(s, Advance(cid, fails, now));
    AdvanceOwnSafe(s, cid, fails, now);
    OthersSafe(s, s', cid);
  }

  lemma OthersSafe(s: State, s': State, cid: nat)
    requires forall c | c in s.flights :: FlightSafe(s, c, s.flights[c])
    requires s.history <= s'.history && s'.spawned == s.spawned
    requires forall c | c in s'.flights && c != cid :: c in s.flights && s'.flights[c] == s.flights[c]
    ensures forall c | c in s'.flights && c != cid :: FlightSafe(s', c, s'.flights[c])
  {
  }

  lemma {:induction false} TraceSafe(s: State, labels: seq<Label>)
    requires Safe(s)
    ensures Safe(Trace(s, labels))
    decreases |labels|
  {
    if labels != [] {
      NextSafe(s, labels[0]);
      TraceSafe(Next(s, labels[0]), labels[1..]);
    }
  }

  /**
   Safety under every interleaving, overlapping calls on one key included: the
   store stays valid, publishes follow writes, and the change counter is exact.
   */
  lemma AlwaysSafe(labels: seq<Label>)
    ensures Safe(Trace(Start(EMPTY), labels))
  {
    TraceSafe(Start(EMPTY), labels);
  }

  // ---------- services that did not start empty ----------

  /** The part of safety that does not look back to the start. */
  ghost predicate Sober(s: State) {
    && ValidStore(s.world.store)
    && forall cid | cid in s.flights :: SoberFlight(s.flights[cid])
  }

  predicate SoberFlight(f: Flight) {
    Precheck(f.call).None? && (!f.pc.Reading? ==> CanTypeChangedWithKey(f.call.id, f.pc.value))
  }

  lemma NextSober(s: State, act: Label)
    requires Sober(s)
    ensures Sober(Next(s, act))
  {
  }

  lemma {:induction false} TraceSober(s: State, labels: seq<Label>)
    requires Sober(s)
    ensures Sober(Trace(s, labels))
    decreases |labels|
  {
    if labels != [] {
      NextSober(s, labels[0]);
      TraceSober(Next(s, labels[0]), labels[1..]);
    }
  }
}
