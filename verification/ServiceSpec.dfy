/**
 What one call of the state service does when nothing interleaves with it
 (app/hmstt/service.go), given which of its three remote steps fail.
 */
module ServiceSpec {
  import opened Basics
  import opened States

  datatype Call =
    | Create(id: Id, value: string, description: string)
    | Set(id: Id, value: string, newDescription: Option<string>)
    | Patch(id: Id, newValue: Option<string>, newDescription: Option<string>)

  /** The remote steps that fail, and the time a write is stamped with. */
  datatype Env = Env(readFails: bool, writeFails: bool, publishFails: bool, now: int)

  datatype Result = Ok | AlreadyExists | NotFound | NothingToUpdate | Invalid | WriteError

  /** The store, every publish attempt, and the change counter per type. */
  datatype World = World(store: Store, log: seq<Message>, changes: map<string, nat>)

  const EMPTY := World(map[], [], map[])

  function Changes(w: World, tipe: string): nat {
    if tipe in w.changes then w.changes[tipe] else 0
  }

  /** What a call decides to do once it has read the store. */
  datatype Plan = Reject(result: Result) | Write(value: string, description: string, changed: bool)

  /** The answer a call gives before it reads anything, if it gives one. */
  function Precheck(call: Call): Option<Result> {
    match call
    case Create(id, value, _) => if CanTypeChangedWithKey(id, value) then None else Some(Invalid)
    case Set(id, value, _) => if CanTypeChangedWithKey(id, value) then None else Some(Invalid)
    case Patch(_, value, description) => if value.None? && description.None? then Some(NothingToUpdate) else None
  }

  function Or(a: Option<string>, otherwise: string): string {
    if a.Some? then a.value else otherwise
  }

  /** The decision taken on what was read; a failed read looks like an absent entry. */
  function AfterRead(call: Call, current: Option<Entry>): Plan {
    match call
    case Create(_, value, description) =>
      if current.Some? then Reject(AlreadyExists) else Write(value, description, true)
    case Set(_, value, description) =>
      Write(value, Or(description, if current.Some? then current.value.description else ""),
            current.None? || current.value.value != value)
    case Patch(id, value, description) =>
      if current.None? then Reject(NotFound)
      else if value.Some? && !CanTypeChangedWithKey(id, value.value) then Reject(Invalid)
      else Write(Or(value, current.value.value), Or(description, current.value.description),
                 value.Some? && current.value.value != value.value)
  }

  function Read(store: Store, id: Id, fails: bool): Option<Entry> {
    if fails then None else Find(store, id)
  }

  function Counted(w: World, tipe: string): World {
    w.(changes := w.changes[tipe := Changes(w, tipe) + 1])
  }

  function Published(w: World, id: Id, value: string, fails: bool): World {
    w.(log := w.log + [Message(RoutingKey(id), value, !fails)])
  }

  function Stored(w: World, id: Id, e: Entry): World {
    w.(store := w.store[id := e])
  }

  function Exec(w: World, call: Call, env: Env): (World, Result) {
    if Precheck(call).Some? then (w, Precheck(call).value) else
      match AfterRead(call, Read(w.store, call.id, env.readFails))
      case Reject(r) => (w, r)
      case Write(value, description, changed) =>
        if env.writeFails then (w, WriteError) else
          var w' := Stored(w, call.id, Entry(value, description, env.now));
          (if changed then Published(Counted(w', call.id.tipe), call.id, value, env.publishFails) else w', Ok)
  }

  /** What is left of a call once it has decided to write. */
  lemma ExecWrites(w: World, call: Call, env: Env, value: string, description: string, changed: bool)
    requires Precheck(call).None?
    requires AfterRead(call, Read(w.store, call.id, env.readFails)) == Write(value, description, changed)
    ensures var w' := Stored(w, call.id, Entry(value, description, env.now));
            Exec(w, call, env) == if env.writeFails then (w, WriteError)
              else if changed then (Published(Counted(w', call.id.tipe), call.id, value, env.publishFails), Ok) else (w', Ok)
  {
  }

  datatype Op = Op(call: Call, env: Env)

  function Run(w: World, ops: seq<Op>): World
    decreases |ops|
  {
    if ops == [] then w else Run(Exec(w, ops[0].call, ops[0].env).0, ops[1..])
  }

  function Results(w: World, ops: seq<Op>): seq<Result>
    decreases |ops|
  {
    if ops == [] then [] else
      var (w', r) := Exec(w, ops[0].call, ops[0].env);
      [r] + Results(w', ops[1..])
  }

  lemma {:induction false} RunSnoc(w: World, ops: seq<Op>, op: Op)
    ensures Run(w, ops + [op]) == Exec(Run(w, ops), op.call, op.env).0
    ensures Results(w, ops + [op]) == Results(w, ops) + [Exec(Run(w, ops), op.call, op.env).1]
    decreases |ops|
  {
    if ops == [] {
      assert ops + [op] == [op];
    } else {
      assert (ops + [op])[0] == ops[0] && (ops + [op])[1..] == ops[1..] + [op];
      RunSnoc(Exec(w, ops[0].call, ops[0].env).0, ops[1..], op);
    }
  }

  /** The value stored for a switch, as the publish side sees it. */
  function ValueAt(store: Store, id: Id): Option<string> {
    if id in store then Some(store[id].value) else None
  }

  /** The log has grown by one message, for a switch and carrying the value now stored there. */
  predicate Announces(w: World, w': World, id: Id, fails: bool) {
    && w'.log != [] && Front(w'.log) == w.log
    && Last(w'.log) == Message(RoutingKey(id), Last(w'.log).body, !fails)
    && CanTypeChangedWithKey(id, Last(w'.log).body) && ValueAt(w'.store, id) == Some(Last(w'.log).body)
  }

  /** What a call changes: at most its own entry and one message of its own. */
  lemma ExecFrame(w: World, call: Call, env: Env)
    ensures var w' := Exec(w, call, env).0;
            && (forall id | id != call.id :: Find(w'.store, id) == Find(w.store, id))
            && (w'.log == w.log || Announces(w, w', call.id, env.publishFails))
            && (ValidStore(w.store) ==> ValidStore(w'.store))
  {
    var w' := Exec(w, call, env).0;
    if w'.log != w.log {
      var plan := AfterRead(call, Read(w.store, call.id, env.readFails));
      var m := Message(RoutingKey(call.id), plan.value, !env.publishFails);
      Snoc(w.log, m);
      assert w'.log == w.log + [m];
    }
  }
}
