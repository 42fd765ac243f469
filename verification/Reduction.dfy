/**
 Reduction: as long as calls on one entry do not overlap, interleaving the steps
 of the service's calls is the same as running the calls one after another.
 */
module Reduction {
  import opened Basics
  import opened States
  import opened ServiceSpec
  import opened Interleaving

  /** Whether some call on this entry is in flight. */
  ghost predicate Busy(s: State, id: Id) {
    exists cid :: cid in s.flights && s.flights[cid].call.id == id
  }

  /** A call that has stored a change and has yet to publish it. */
  predicate Owing(f: Flight) {
    f.pc.Counting? || f.pc.Publishing?
  }

  /** Some call has written this entry and has yet to publish it. */
  ghost predicate Pending(s: State, id: Id) {
    exists c :: c in s.flights && s.flights[c].call.id == id && Owing(s.flights[c])
  }

  /** No call is made on an entry while another call on it is in flight. */
  ghost predicate Separated(s: State, labels: seq<Label>)
    decreases |labels|
  {
    labels != [] ==>
      && (labels[0].Spawn? ==> !Busy(s, labels[0].call.id))
      && Separated(Next(s, labels[0]), labels[1..])
  }

  /** The completed calls as a sequential run, in order of completion, and their answers. */
  function OpsOf(done: seq<Done>): seq<Op> {
    if done == [] then [] else OpsOf(Front(done)) + [Last(done).op]
  }

  function ResultsOf(done: seq<Done>): seq<Result> {
    if done == [] then [] else ResultsOf(Front(done)) + [Last(done).result]
  }

  /** Two worlds look the same to the calls and the subscribers of one entry. */
  predicate AgreeAt(a: World, b: World, id: Id) {
    && Find(a.store, id) == Find(b.store, id)
    && (id.tipe == PREFIX_SWITCH ==> Under(a.log, RoutingKey(id)) == Under(b.log, RoutingKey(id)))
  }

  /** How far a call in flight has brought its entry, `w` being the world before the call. */
  predicate Partway(s: World, w: World, f: Flight) {
    var id, plan := f.call.id, AfterRead(f.call, Read(w.store, f.call.id, f.env.readFails));
    && Precheck(f.call).None?
    && match f.pc
       case Reading => AgreeAt(s, w, id)
       case Writing(value, description, changed) =>
         AgreeAt(s, w, id) && plan == Write(value, description, changed)
       case Counting(value) => Written(s, w, f, value)
       case Publishing(value) => Written(s, w, f, value)
  }

  predicate Written(s: World, w: World, f: Flight, value: string) {
    var id, plan := f.call.id, AfterRead(f.call, Read(w.store, f.call.id, f.env.readFails));
    && plan.Write? && plan.changed && plan.value == value && !f.env.writeFails
    && Find(s.store, id) == Some(Entry(value, plan.description, f.env.now))
    && id.tipe == PREFIX_SWITCH && Under(s.log, RoutingKey(id)) == Under(w.log, RoutingKey(id))
  }

  /** The interleaved state `s` against the sequential run of the calls completed so far. */
  ghost predicate Simulates(s: State, w0: World) {
    var w := Run(w0, OpsOf(s.done));
    && Results(w0, OpsOf(s.done)) == ResultsOf(s.done)
    && (forall c, d | c in s.flights && d in s.flights && c != d :: s.flights[c].call.id != s.flights[d].call.id)
    && (forall cid | cid in s.flights :: cid < |s.spawned| && Partway(s.world, w, s.flights[cid]))
    && (forall id | !Busy(s, id) :: AgreeAt(s.world, w, id))
    && (forall tipe :: Changes(s.world, tipe) == Changes(w, tipe) + if tipe == PREFIX_SWITCH then |InPublish(s.flights)| else 0)
  }

  // ---------- what one step leaves alone ----------

  lemma UnderOther(log: seq<Message>, id: Id, other: Id, body: string, accepted: bool)
    requires id.tipe == PREFIX_SWITCH && id != other
    ensures other.tipe == PREFIX_SWITCH ==>
              Under(log + [Message(RoutingKey(id), body, accepted)], RoutingKey(other)) == Under(log, RoutingKey(other))
    ensures Under(log + [Message(RoutingKey(id), body, accepted)], RoutingKey(id))
         == Under(log, RoutingKey(id)) + [Message(RoutingKey(id), body, accepted)]
  {
    Snoc(log, Message(RoutingKey(id), body, accepted));
    RoutingInjective(id.key, other.key);
  }

  lemma AdvanceFrame(s: State, cid: nat, fails: bool, now: int, other: Id)
    requires cid in s.flights && other != s.flights[cid].call.id
    requires s.flights[cid].pc.Publishing? ==> s.flights[cid].call.id.tipe == PREFIX_SWITCH
    ensures AgreeAt(s.world, Next(s, Advance(cid, fails, now)).world, other)
  {
    var f := s.flights[cid];
    if f.pc.Publishing? {
      UnderOther(s.world.log, f.call.id, other, f.pc.value, !fails);
    }
  }

  lemma ExecFrameAt(w: World, op: Op, other: Id)
    requires other != op.call.id
    ensures AgreeAt(w, Exec(w, op.call, op.env).0, other)
  {
    var w' := Exec(w, op.call, op.env).0;
    ExecFrame(w, op.call, op.env);
    if w'.log != w.log {
      UnderOther(w.log, op.call.id, other, Last(w'.log).body, !op.env.publishFails);
    }
  }

  // ---------- what one step does to its own entry ----------

  /** A call that stays in flight. */
  lemma AdvanceOwn(s: State, w: World, cid: nat, fails: bool, now: int)
    requires cid in s.flights && Partway(s.world, w, s.flights[cid])
    ensures var s', f := Next(s, Advance(cid, fails, now)), s.flights[cid];
            cid in s'.flights ==> s'.done == s.done && s'.flights[cid].call == f.call && Partway(s'.world, w, s'.flights[cid])
  {
  }

  /** A completed call, added to the sequential run, gives its answer and its entry there too. */
  ghost predicate Completes(s: State, s': State, w: World, cid: nat) {
    && |s'.done| == |s.done| + 1 && Front(s'.done) == s.done
    && var d := Last(s'.done);
       var (w', r) := Exec(w, d.op.call, d.op.env);
       && cid in s.flights && d.cid == cid && d.op.call == s.flights[cid].call && d.result == r
       && AgreeAt(s'.world, w', d.op.call.id)
       && w'.changes == if s.flights[cid].pc.Publishing? then Counted(w, PREFIX_SWITCH).changes else w.changes
  }

  lemma LastAtReading(s: State, w: World, cid: nat, fails: bool, now: int)
    requires cid in s.flights && Partway(s.world, w, s.flights[cid]) && s.flights[cid].pc.Reading?
    ensures var s' := Next(s, Advance(cid, fails, now)); cid !in s'.flights ==> Completes(s, s', w, cid)
  {
  }

  lemma LastAtWriting(s: State, w: World, cid: nat, fails: bool, now: int)
    requires cid in s.flights && Partway(s.world, w, s.flights[cid]) && s.flights[cid].pc.Writing?
    ensures var s' := Next(s, Advance(cid, fails, now)); cid !in s'.flights ==> Completes(s, s', w, cid)
  {
  }

  /** The sequential run of a call that has stored its change. */
  lemma ExecOfWritten(s: World, w: World, f: Flight, value: string, fails: bool)
    requires Precheck(f.call).None? && Written(s, w, f, value)
    ensures var env := f.env.(publishFails := fails);
            Exec(w, f.call, env) ==
              (Published(Counted(Stored(w, f.call.id, s.store[f.call.id]), PREFIX_SWITCH), f.call.id, value, fails), Ok)
  {
  }

  /** Where two logs agree on a key they still do after the same attempt. */
  lemma UnderBoth(a: seq<Message>, b: seq<Message>, m: Message)
    requires Under(a, m.routing) == Under(b, m.routing)
    ensures Under(a + [m], m.routing) == Under(b + [m], m.routing)
  {
    Snoc(a, m);
    Snoc(b, m);
  }

  lemma PublishedAgree(s: World, w: World, id: Id, value: string, fails: bool)
    requires id in s.store && Under(s.log, RoutingKey(id)) == Under(w.log, RoutingKey(id))
    ensures AgreeAt(Published(s, id, value, fails), Published(Counted(Stored(w, id, s.store[id]), PREFIX_SWITCH), id, value, fails), id)
  {
    UnderBoth(s.log, w.log, Message(RoutingKey(id), value, !fails));
  }

  /** Publishing it brings the entry to where the whole call would have brought it alone. */
  lemma PublishAgrees(s: World, w: World, f: Flight, value: string, fails: bool)
    requires Precheck(f.call).None? && Written(s, w, f, value)
    ensures var (w', r) := Exec(w, f.call, f.env.(publishFails := fails));
            && r == Ok && AgreeAt(Published(s, f.call.id, value, fails), w', f.call.id)
            && w'.changes == Counted(w, PREFIX_SWITCH).changes
  {
    ExecOfWritten(s, w, f, value, fails);
    PublishedAgree(s, w, f.call.id, value, fails);
  }

  lemma LastAtPublishing(s: State, w: World, cid: nat, fails: bool, now: int)
    requires cid in s.flights && Partway(s.world, w, s.flights[cid]) && s.flights[cid].pc.Publishing?
    ensures var s' := Next(s, Advance(cid, fails, now)); Completes(s, s', w, cid)
  {
    var s', f := Next(s, Advance(cid, fails, now)), s.flights[cid];
    var d := Done(cid, Op(f.call, f.env.(publishFails := fails)), Ok);
    assert s'.done == s.done + [d] && s'.world == Published(s.world, f.call.id, f.pc.value, fails);
    Snoc(s.done, d);
    PublishAgrees(s.world, w, f, f.pc.value, fails);
  }

  /** A call that completes: from here on the sequential run includes it. */
  lemma AdvanceLast(s: State, w: World, cid: nat, fails: bool, now: int)
    requires cid in s.flights && Partway(s.world, w, s.flights[cid])
    ensures var s' := Next(s, Advance(cid, fails, now)); cid !in s'.flights ==> Completes(s, s', w, cid)
  {
    var f := s.flights[cid];
    match f.pc {
      case Reading => LastAtReading(s, w, cid, fails, now);
      case Writing(_, _, _) => LastAtWriting(s, w, cid, fails, now);
      case Counting(_) =>
      case Publishing(_) => LastAtPublishing(s, w, cid, fails, now);
    }
  }

  // ---------- the simulation ----------

  lemma PartwayStable(s: World, s': World, w: World, w': World, f: Flight)
    requires Partway(s, w, f) && AgreeAt(s, s', f.call.id) && AgreeAt(w, w', f.call.id)
    ensures Partway(s', w', f)
  {
  }

  /** A call turned away before it reads anything. */
  lemma RejectedSimulates(s: State, w0: World, call: Call)
    requires Simulates(s, w0) && Precheck(call).Some?
    ensures Simulates(Next(s, Spawn(call)), w0)
  {
    var s', cid := Next(s, Spawn(call)), |s.spawned|;
    var d := Done(cid, Op(call, FRESH), Precheck(call).value);
    assert s'.flights == s.flights;
    Snoc(s.done, d);
    RunSnoc(w0, OpsOf(s.done), d.op);
    assert Run(w0, OpsOf(s'.done)) == Run(w0, OpsOf(s.done));
    forall id | !Busy(s', id)
      ensures !Busy(s, id)
    {
    }
  }

  /** What a call accepted into flight does to the others and to the counters. */
  lemma AcceptedShape(s: State, call: Call)
    requires Precheck(call).None? && |s.spawned| !in s.flights
    ensures var s', cid := Next(s, Spawn(call)), |s.spawned|;
            && s'.flights == s.flights[cid := Flight(call, Reading, FRESH)] && InPublish(s'.flights) == InPublish(s.flights)
            && s'.world == s.world && s'.done == s.done && |s'.spawned| == cid + 1
  {
    var s' := Next(s, Spawn(call));
    assert s'.flights - {|s.spawned|} == s.flights - {|s.spawned|};
  }

  /** An entry without a call in flight after a spawn had none before. */
  lemma StillFree(s: State, s': State, id: Id)
    requires !Busy(s', id) && forall c | c in s.flights :: c in s'.flights && s'.flights[c] == s.flights[c]
    ensures !Busy(s, id)
  {
  }

  lemma AcceptedSimulates(s: State, w0: World, call: Call)
    requires Simulates(s, w0) && !Busy(s, call.id) && Precheck(call).None?
    ensures Simulates(Next(s, Spawn(call)), w0)
  {
    var s', cid, w := Next(s, Spawn(call)), |s.spawned|, Run(w0, OpsOf(s.done));
    AcceptedShape(s, call);
    assert AgreeAt(s.world, w, call.id);
    assert Partway(s'.world, w, s'.flights[cid]);
    forall id | !Busy(s', id)
      ensures AgreeAt(s'.world, w, id)
    {
      StillFree(s, s', id);
    }
  }

  /** One step of one call either moves it or completes it. */
  ghost predicate MovesOrCompletes(s: State, s': State, cid: nat) {
    && cid in s.flights && s'.spawned == s.spawned
    && if cid in s'.flights then
         s'.done == s.done && s'.flights == s.flights[cid := s'.flights[cid]] && s'.flights[cid].call == s.flights[cid].call
       else
         && s'.flights == s.flights - {cid} && s'.done != [] && s'.done == s.done + [Last(s'.done)]
         && Last(s'.done).cid == cid && Last(s'.done).op.call == s.flights[cid].call
  }

  lemma AdvanceMoves(s: State, cid: nat, fails: bool, now: int)
    requires cid in s.flights
    ensures MovesOrCompletes(s, Next(s, Advance(cid, fails, now)), cid)
  {
  }

  lemma AdvanceSimulates(s: State, w0: World, cid: nat, fails: bool, now: int)
    requires Simulates(s, w0) && cid in s.flights
    ensures Simulates(Next(s, Advance(cid, fails, now)), w0)
  {
    var s' := Next(s, Advance(cid, fails, now));
    var w := Run(w0, OpsOf(s.done));
    AdvanceOwn(s, w, cid, fails, now);
    AdvanceLast(s, w, cid, fails, now);
    AdvanceCounts(s, cid, fails, now);
    AdvanceMoves(s, cid, fails, now);
    forall other: Id | other != s.flights[cid].call.id
      ensures AgreeAt(s.world, s'.world, other)
    {
      AdvanceFrame(s, cid, fails, now, other);
    }
    StepSimulates(s, s', w0, cid);
  }

  /** One step keeps the simulation: the sequential run moves exactly when a call completes. */
  lemma StepSimulates(s: State, s': State, w0: World, cid: nat)
    requires Simulates(s, w0) && MovesOrCompletes(s, s', cid)
    requires s'.flights - {cid} == s.flights - {cid}
    requires forall other: Id | other != s.flights[cid].call.id :: AgreeAt(s.world, s'.world, other)
    requires var w := Run(w0, OpsOf(s.done));
             if cid in s'.flights then Partway(s'.world, w, s'.flights[cid]) else Completes(s, s', w, cid)
    requires cid in InPublish(s'.flights) <==> s.flights[cid].pc.Counting?
    requires s.flights[cid].pc.Publishing? ==> cid !in s'.flights
    requires s'.world.changes == if s.flights[cid].pc.Counting? then Counted(s.world, PREFIX_SWITCH).changes else s.world.changes
    ensures Simulates(s', w0)
  {
    var w := Run(w0, OpsOf(s.done));
    var w' := w;
    if cid !in s'.flights {
      var op := Last(s'.done).op;
      RunSnoc(w0, OpsOf(s.done), op);
      w' := Exec(w, op.call, op.env).0;
      forall other: Id | other != op.call.id
        ensures AgreeAt(w, w', other)
      {
        ExecFrameAt(w, op, other);
      }
    }
    assert w' == Run(w0, OpsOf(s'.done)) && Results(w0, OpsOf(s'.done)) == ResultsOf(s'.done);
    OthersSimulate(s, s', w, w', cid);
    CountersSimulate(s, s', w, w', cid);
  }

  lemma CountersSimulate(s: State, s': State, w: World, w': World, cid: nat)
    requires cid in s.flights && s'.flights - {cid} == s.flights - {cid}
    requires cid in InPublish(s'.flights) <==> s.flights[cid].pc.Counting?
    requires s'.world.changes == if s.flights[cid].pc.Counting? then Counted(s.world, PREFIX_SWITCH).changes else s.world.changes
    requires w'.changes == if s.flights[cid].pc.Publishing? then Counted(w, PREFIX_SWITCH).changes else w.changes
    requires forall tipe :: Changes(s.world, tipe) == Changes(w, tipe) + if tipe == PREFIX_SWITCH then |InPublish(s.flights)| else 0
    ensures forall tipe :: Changes(s'.world, tipe) == Changes(w', tipe) + if tipe == PREFIX_SWITCH then |InPublish(s'.flights)| else 0
  {
    InPublishChanges(s, s', cid);
    forall tipe
      ensures Changes(s'.world, tipe) == Changes(w', tipe) + if tipe == PREFIX_SWITCH then |InPublish(s'.flights)| else 0
    {
      assert Changes(s.world, tipe) == Changes(w, tipe) + if tipe == PREFIX_SWITCH then |InPublish(s.flights)| else 0;
    }
  }

  lemma OtherFlight(s: State, s': State, cid: nat, c: nat)
    requires s'.flights - {cid} == s.flights - {cid}
    ensures c != cid ==> Find(s'.flights, c) == Find(s.flights, c)
  {
    assert Find(s'.flights - {cid}, c) == Find(s.flights - {cid}, c);
  }

  /** The flights and the entries that one step did not concern. */
  lemma OthersSimulate(s: State, s': State, w: World, w': World, cid: nat)
    requires cid in s.flights && s'.flights - {cid} == s.flights - {cid} && s'.spawned == s.spawned
    requires forall c, d | c in s.flights && d in s.flights && c != d :: s.flights[c].call.id != s.flights[d].call.id
    requires forall c | c in s.flights :: c < |s.spawned| && Partway(s.world, w, s.flights[c])
    requires forall id | !Busy(s, id) :: AgreeAt(s.world, w, id)
    requires forall other: Id | other != s.flights[cid].call.id :: AgreeAt(s.world, s'.world, other) && AgreeAt(w, w', other)
    requires cid in s'.flights ==> s'.flights[cid].call == s.flights[cid].call && Partway(s'.world, w', s'.flights[cid])
    requires cid !in s'.flights ==> AgreeAt(s'.world, w', s.flights[cid].call.id)
    ensures forall c, d | c in s'.flights && d in s'.flights && c != d :: s'.flights[c].call.id != s'.flights[d].call.id
    ensures forall c | c in s'.flights :: c < |s'.spawned| && Partway(s'.world, w', s'.flights[c])
    ensures forall id | !Busy(s', id) :: AgreeAt(s'.world, w', id)
  {
    forall c: nat | c in s'.flights
      ensures c in s.flights && s'.flights[c].call == s.flights[c].call
      ensures c < |s'.spawned| && Partway(s'.world, w', s'.flights[c])
    {
      if c != cid {
        OtherFlight(s, s', cid, c);
        PartwayStable(s.world, s'.world, w, w', s.flights[c]);
      }
    }
    forall id | !Busy(s', id)
      ensures AgreeAt(s'.world, w', id)
    {
      if id != s.flights[cid].call.id {
        forall c | c in s.flights
          ensures s.flights[c].call.id != id
        {
          OtherFlight(s, s', cid, c);
          assert c == cid || s'.flights[c].call.id != id;
        }
        assert !Busy(s, id);
        assert AgreeAt(s.world, s'.world, id) && AgreeAt(w, w', id);
      } else {
        assert cid in s'.flights ==> Busy(s', id);
      }
    }
  }

  lemma {:induction false} TraceSimulates(s: State, w0: World, labels: seq<Label>)
    requires Simulates(s, w0) && Separated(s, labels)
    ensures Simulates(Trace(s, labels), w0)
    decreases |labels|
  {
    if labels != [] {
      match labels[0] {
        case Spawn(call) =>
          if Precheck(call).Some? {
            RejectedSimulates(s, w0, call);
          } else {
            AcceptedSimulates(s, w0, call);
          }
        case Advance(cid, fails, now) =>
          if cid in s.flights {
            AdvanceSimulates(s, w0, cid, fails, now);
          }
      }
      TraceSimulates(Next(s, labels[0]), w0, labels[1..]);
    }
  }

  /** Before its call stores, and after it publishes, an entry is where the sequential run has it. */
  lemma AgreesUnlessPending(s: State, w0: World, id: Id)
    requires Simulates(s, w0) && !Pending(s, id)
    ensures AgreeAt(s.world, Run(w0, OpsOf(s.done)), id)
  {
    if Busy(s, id) {
      var cid :| cid in s.flights && s.flights[cid].call.id == id;
      assert Partway(s.world, Run(w0, OpsOf(s.done)), s.flights[cid]) && !Owing(s.flights[cid]);
    }
  }

  // ---------- every call made is completed exactly once ----------

  function CallsMade(labels: seq<Label>): seq<Call> {
    if labels == [] then [] else
      (if labels[0].Spawn? then [labels[0].call] else []) + CallsMade(labels[1..])
  }

  function CidsOf(done: seq<Done>): seq<nat> {
    if done == [] then [] else CidsOf(Front(done)) + [Last(done).cid]
  }

  /** The numbers below `n`, each once. */
  function UpTo(n: nat): multiset<nat> {
    if n == 0 then multiset{} else UpTo(n - 1) + multiset{n - 1}
  }

  /** Calls in flight and completed calls together are the calls made, each one once. */
  ghost predicate EachOnce(s: State) {
    multiset(CidsOf(s.done)) + multiset(s.flights.Keys) == UpTo(|s.spawned|)
  }

  /** Whatever is recorded of a call is recorded under its number. */
  ghost predicate Numbered(s: State) {
    && (forall i | 0 <= i < |s.done| :: s.done[i].cid < |s.spawned| && s.done[i].op.call == s.spawned[s.done[i].cid])
    && (forall cid | cid in s.flights :: cid < |s.spawned| && s.flights[cid].call == s.spawned[cid])
  }

  lemma MoveCounted(s: State, s': State, cid: nat)
    requires EachOnce(s) && MovesOrCompletes(s, s', cid)
    ensures EachOnce(s')
  {
  }

  lemma MoveNumbered(s: State, s': State, cid: nat)
    requires Numbered(s) && MovesOrCompletes(s, s', cid)
    ensures Numbered(s')
  {
  }

  /** A new call gets the next number, in flight or turned away at once. */
  ghost predicate Spawns(s: State, s': State, call: Call) {
    var cid := |s.spawned|;
    && s'.spawned == s.spawned + [call]
    && if cid in s'.flights then
         s'.done == s.done && s'.flights == s.flights[cid := s'.flights[cid]] && s'.flights[cid].call == call
       else
         && s'.flights == s.flights - {cid} && s'.done != [] && s'.done == s.done + [Last(s'.done)]
         && Last(s'.done).cid == cid && Last(s'.done).op.call == call
  }

  lemma SpawnShape(s: State, call: Call)
    requires |s.spawned| !in s.flights
    ensures Spawns(s, Next(s, Spawn(call)), call)
  {
  }

  lemma SpawnCounted(s: State, s': State, call: Call)
    requires EachOnce(s) && |s.spawned| !in s.flights && Spawns(s, s', call)
    ensures EachOnce(s')
  {
  }

  lemma SpawnNumbered(s: State, s': State, call: Call)
    requires Numbered(s) && Spawns(s, s', call)
    ensures Numbered(s')
  {
  }

  lemma {:induction false} TraceEachOnce(s: State, labels: seq<Label>)
    requires EachOnce(s) && Numbered(s)
    ensures EachOnce(Trace(s, labels)) && Numbered(Trace(s, labels))
    decreases |labels|
  {
    if labels != [] {
      match labels[0] {
        case Spawn(call) =>
          assert |s.spawned| !in s.flights;
          SpawnShape(s, call);
          SpawnCounted(s, Next(s, labels[0]), call);
          SpawnNumbered(s, Next(s, labels[0]), call);
        case Advance(cid, fails, now) =>
          if cid in s.flights {
            AdvanceMoves(s, cid, fails, now);
            MoveCounted(s, Next(s, labels[0]), cid);
            MoveNumbered(s, Next(s, labels[0]), cid);
          }
      }
      TraceEachOnce(Next(s, labels[0]), labels[1..]);
    }
  }

  lemma {:induction false} TraceSpawned(s: State, labels: seq<Label>)
    ensures Trace(s, labels).spawned == s.spawned + CallsMade(labels)
    decreases |labels|
  {
    if labels != [] {
      assert Next(s, labels[0]).spawned == s.spawned + if labels[0].Spawn? then [labels[0].call] else [];
      TraceSpawned(Next(s, labels[0]), labels[1..]);
    }
  }

  /** With no call in flight the two runs have the same store, messages and counters. */
  lemma QuietAgrees(s: State, w0: World)
    requires Simulates(s, w0) && s.flights == map[]
    ensures var w := Run(w0, OpsOf(s.done));
            && s.world.store == w.store
            && (forall key :: Under(s.world.log, RoutingKey(SwitchId(key))) == Under(w.log, RoutingKey(SwitchId(key))))
            && (forall tipe :: Changes(s.world, tipe) == Changes(w, tipe))
  {
    var w := Run(w0, OpsOf(s.done));
    assert InPublish(s.flights) == {};
    assert forall id :: !Busy(s, id);
    forall id: Id
      ensures Find(s.world.store, id) == Find(w.store, id)
    {
      assert AgreeAt(s.world, w, id);
    }
    FindExtensional(s.world.store, w.store);
    forall key
      ensures Under(s.world.log, RoutingKey(SwitchId(key))) == Under(w.log, RoutingKey(SwitchId(key)))
    {
      assert AgreeAt(s.world, w, SwitchId(key));
    }
  }

  /**
   Reduction: when every call has completed, running the calls one after another
   in order of completion gives the same store, the same answers, the same
   messages under every switch's routing key and the same counters.
   */
  lemma Reduce(w0: World, labels: seq<Label>)
    requires Separated(Start(w0), labels) && Trace(Start(w0), labels).flights == map[]
    ensures var s := Trace(Start(w0), labels);
            var w := Run(w0, OpsOf(s.done));
            && s.world.store == w.store
            && ResultsOf(s.done) == Results(w0, OpsOf(s.done))
            && (forall key :: Under(s.world.log, RoutingKey(SwitchId(key))) == Under(w.log, RoutingKey(SwitchId(key))))
            && (forall tipe :: Changes(s.world, tipe) == Changes(w, tipe))
            && s.spawned == CallsMade(labels) && Numbered(s)
            && multiset(CidsOf(s.done)) == UpTo(|s.spawned|)
  {
    var start := Start(w0);
    assert InPublish(start.flights) == {};
    TraceSimulates(start, w0, labels);
    TraceEachOnce(start, labels);
    TraceSpawned(start, labels);
    QuietAgrees(Trace(start, labels), w0);
  }
}
