/** State entries, identifiers and routing keys (app/hmstt/constant.go, util.go, event.go). */
module States {

  const MQ_CHANNEL_HMSTT := "hmstt_channel"
  const PREFIX_HMSTT := "hmstt"
  const PREFIX_SWITCH := "switch"
  const STATE_OFF := "off"
  const STATE_ON := "on"
  const KEY_DELIMITER := "."

  datatype Id = Id(tipe: string, key: string)

  function SwitchId(key: string): Id {
    Id(PREFIX_SWITCH, key)
  }

  /** The JSON document stored under a field: value, description and time of writing. */
  datatype Entry = Entry(value: string, description: string, updatedAt: int)

  type Store = map<Id, Entry>

  predicate CanTypeChangedWithKey(id: Id, value: string) {
    if id.tipe == "" || id.key == "" then false
    else if id.tipe == PREFIX_SWITCH then value == STATE_ON || value == STATE_OFF
    else false
  }

  /** Every stored entry is a switch with a nonempty key that is on or off. */
  ghost predicate ValidStore(store: Store) {
    forall id | id in store :: CanTypeChangedWithKey(id, store[id].value)
  }

  /** The key the service generates, and the routing key the event is published under. */
  function GeneratedKey(id: Id): string {
    PREFIX_HMSTT + KEY_DELIMITER + id.tipe + KEY_DELIMITER + id.key
  }

  function RoutingKey(id: Id): string {
    MQ_CHANNEL_HMSTT + KEY_DELIMITER + GeneratedKey(id)
  }

  /** A publish attempt, as the broker connection saw it. */
  datatype Message = Message(routing: string, body: string, accepted: bool)

  /** Switch events of different keys never share a routing key. */
  lemma RoutingInjective(a: string, b: string)
    ensures RoutingKey(SwitchId(a)) == RoutingKey(SwitchId(b)) <==> a == b
  {
    var head := MQ_CHANNEL_HMSTT + KEY_DELIMITER + (PREFIX_HMSTT + KEY_DELIMITER + PREFIX_SWITCH + KEY_DELIMITER);
    assert RoutingKey(SwitchId(a)) == head + a;
    assert RoutingKey(SwitchId(b)) == head + b;
    assert (head + a)[|head|..] == a && (head + b)[|head|..] == b;
  }

  // ---------- reading a message log ----------

  function Front<T>(s: seq<T>): seq<T>
    requires s != []
  {
    s[..|s| - 1]
  }

  function Last<T>(s: seq<T>): T
    requires s != []
  {
    s[|s| - 1]
  }

  /** The messages under one routing key, in order. */
  function Under(log: seq<Message>, routing: string): seq<Message> {
    if log == [] then []
    else if Last(log).routing == routing then Under(Front(log), routing) + [Last(log)]
    else Under(Front(log), routing)
  }

  /** The bodies published under one routing key, in order. */
  function Bodies(log: seq<Message>, routing: string): seq<string> {
    if log == [] then []
    else if Last(log).routing == routing then Bodies(Front(log), routing) + [Last(log).body]
    else Bodies(Front(log), routing)
  }

  /** The messages the broker accepted. */
  function Accepted(log: seq<Message>): seq<Message> {
    if log == [] then []
    else if Last(log).accepted then Accepted(Front(log)) + [Last(log)]
    else Accepted(Front(log))
  }

  lemma Snoc<T>(s: seq<T>, x: T)
    ensures Front(s + [x]) == s && Last(s + [x]) == x
  {
  }
}
