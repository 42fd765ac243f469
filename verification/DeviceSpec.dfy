/**
 The device of mqttelectric.ino as functions on values: which switch a name
 selects, what a snapshot or a push does to switches and pins, and when and how
 often the device asks for a snapshot.
 */
module DeviceSpec {
  import opened Basics
  import opened States

  const MQTT_PREFIX_TOPIC := "hmstt_channel/hmstt"
  const TOPIC_BUFFER: nat := 128
  const SWITCH_PATH := "switch/"

  // ---------- strings ----------

  /** A C string ends at its first NUL. */
  function CString(s: string): string {
    if s == "" || s[0] == '\0' then "" else [s[0]] + CString(s[1..])
  }

  predicate IsSpace(c: char) {
    c == ' ' || '\t' <= c <= '\r'
  }

  function TrimLeft(s: string): string {
    if s != "" && IsSpace(s[0]) then TrimLeft(s[1..]) else s
  }

  function TrimRight(s: string): string {
    if s != "" && IsSpace(s[|s| - 1]) then TrimRight(s[..|s| - 1]) else s
  }

  function LowerChar(c: char): char {
    if 'A' <= c <= 'Z' then (c as int + 32) as char else c
  }

  function Lower(s: string): string {
    if s == "" then "" else [LowerChar(s[0])] + Lower(s[1..])
  }

  /** Whether a state text, trimmed and in lower case, means on. */
  function IsOn(state: string): bool {
    Lower(TrimRight(TrimLeft(state))) == STATE_ON
  }

  /** What snprintf leaves in the topic buffer, a char standing for a byte: one place is taken by the terminating NUL. */
  function InBuffer(s: string): string {
    if |s| < TOPIC_BUFFER then s else s[..TOPIC_BUFFER - 1]
  }

  function FullTopic(name: string): string {
    InBuffer(MQTT_PREFIX_TOPIC + "/" + name)
  }

  function Separator(name: string): nat
    ensures Separator(name) <= |name|
    ensures forall i | 0 <= i < Separator(name) :: name[i] != '/'
    ensures Separator(name) < |name| ==> name[Separator(name)] == '/'
  {
    if name == "" || name[0] == '/' then 0 else 1 + Separator(name[1..])
  }

  /** The part after the first '/', or the whole name when there is none or nothing follows it. */
  function ExtractKeyName(name: string): string {
    var i := Separator(name);
    if i == |name| || i + 1 == |name| then name else name[i + 1..]
  }

  lemma KeyOfSwitchPath(key: string)
    requires key != ""
    ensures ExtractKeyName(SWITCH_PATH + key) == key
  {
    var name := SWITCH_PATH + key;
    assert name[6] == '/' && forall i | 0 <= i < 6 :: name[i] != '/';
    assert name[7..] == key;
  }

  lemma OnOff()
    ensures IsOn(STATE_ON) && !IsOn(STATE_OFF)
  {
  }

  // ---------- switches and pins ----------

  datatype Level = LOW | HIGH

  /** The switches' names, pins and wiring, and the pin that enables the board. */
  datatype Board = Board(names: seq<string>, pinOf: seq<int>, activeLow: seq<bool>, keyPin: int) {
    predicate Sized() {
      |pinOf| == |names| && |activeLow| == |names|
    }

    /** Distinct names `switch/<key>` and distinct pins, whatever the wiring. */
    predicate WellFormed() {
      && Sized()
      && (forall i | 0 <= i < |names| :: Named(names[i]))
      && (forall i, j | 0 <= i < j < |names| :: names[i] != names[j])
      && (forall i, j | 0 <= i < j < |names| :: pinOf[i] != pinOf[j])
      && keyPin !in pinOf
    }

    /** Every full topic fits the topic buffer. */
    predicate TopicsFit() {
      forall i | 0 <= i < |names| :: |MQTT_PREFIX_TOPIC + "/" + names[i]| < TOPIC_BUFFER
    }

    function Key(i: nat): string
      requires i < |names|
    {
      ExtractKeyName(names[i])
    }
  }

  predicate Named(name: string) {
    |name| > |SWITCH_PATH| && name[..|SWITCH_PATH|] == SWITCH_PATH
  }

  /** The switches as the device believes them to be, and the levels written to pins. */
  datatype Panel = Panel(states: seq<bool>, pins: map<int, Level>)

  function LevelFor(activeLow: bool, on: bool): Level {
    if activeLow then (if on then LOW else HIGH) else (if on then HIGH else LOW)
  }

  predicate Matches(b: Board, i: nat, name: string)
    requires i < |b.names|
  {
    name == FullTopic(b.names[i]) || name == b.names[i]
  }

  /** The first switch from `i` on that a name or topic selects, or the number of switches. */
  function FirstMatch(b: Board, name: string, i: nat): (r: nat)
    requires i <= |b.names|
    ensures i <= r <= |b.names|
    ensures forall k | i <= k < r :: !Matches(b, k, name)
    ensures r < |b.names| ==> Matches(b, r, name)
    decreases |b.names| - i
  {
    if i == |b.names| || Matches(b, i, name) then i else FirstMatch(b, name, i + 1)
  }

  predicate Fits(b: Board, p: Panel) {
    b.Sized() && |p.states| == |b.names|
  }

  function SetSwitch(b: Board, p: Panel, name: string, state: string): (p': Panel)
    requires Fits(b, p)
    ensures Fits(b, p')
  {
    var i := FirstMatch(b, name, 0);
    if i == |b.names| then p
    else Panel(p.states[i := IsOn(state)], p.pins[b.pinOf[i] := LevelFor(b.activeLow[i], IsOn(state))])
  }

  /** One entry of the snapshot's data array; missing members read as empty strings. */
  datatype Item = Item(key: string, value: string)

  function ApplyItem(b: Board, p: Panel, item: Item): (p': Panel)
    requires Fits(b, p)
    ensures Fits(b, p')
  {
    if item.key == "" || item.value == "" then p else SetSwitch(b, p, SWITCH_PATH + item.key, item.value)
  }

  function ApplyItems(b: Board, p: Panel, items: seq<Item>): (p': Panel)
    requires Fits(b, p)
    ensures Fits(b, p')
  {
    if items == [] then p else ApplyItem(b, ApplyItems(b, p, Front(items)), Last(items))
  }

  /**
   Switch `i` is believed on or off, and its pin was written accordingly: an
   active-low pin is low, and an active-high one high, exactly when the switch is on.
   */
  predicate Shows(b: Board, p: Panel, i: nat, on: bool)
    requires Fits(b, p) && i < |b.names|
  {
    && p.states[i] == on && b.pinOf[i] in p.pins
    && if b.activeLow[i] then p.pins[b.pinOf[i]] == LOW <==> on else p.pins[b.pinOf[i]] == HIGH <==> on
  }

  /** Switch `i` and its pin are the same in both panels. */
  predicate SameAt(b: Board, p: Panel, p': Panel, i: nat)
    requires Fits(b, p) && Fits(b, p') && i < |b.names|
  {
    p.states[i] == p'.states[i] && Find(p.pins, b.pinOf[i]) == Find(p'.pins, b.pinOf[i])
  }

  /** Every pin that drives no switch is the same in both panels. */
  ghost predicate SameElsewhere(b: Board, p: Panel, p': Panel) {
    forall pin | pin !in b.pinOf :: Find(p.pins, pin) == Find(p'.pins, pin)
  }

  lemma SetSwitchAt(b: Board, p: Panel, name: string, state: string, i: nat)
    requires b.WellFormed() && Fits(b, p) && i < |b.names|
    ensures var p' := SetSwitch(b, p, name, state);
            && (if FirstMatch(b, name, 0) == i then Shows(b, p', i, IsOn(state)) else SameAt(b, p, p', i))
            && SameElsewhere(b, p, p')
  {
  }

  /** A snapshot's name selects exactly the switch that carries it. */
  lemma SnapshotNameMatches(b: Board, key: string, i: nat)
    requires b.WellFormed() && i < |b.names| && key != ""
    ensures FirstMatch(b, SWITCH_PATH + key, 0) == i <==> b.Key(i) == key
  {
    var name := SWITCH_PATH + key;
    forall k | 0 <= k < |b.names|
      ensures Matches(b, k, name) <==> b.names[k] == name
    {
      assert FullTopic(b.names[k])[0] == 'h' && name[0] == 's';
    }
    assert b.names[i] == SWITCH_PATH + b.names[i][|SWITCH_PATH|..];
    KeyOfSwitchPath(b.names[i][|SWITCH_PATH|..]);
    KeyOfSwitchPath(key);
  }

  /** The last usable value a snapshot carries for a key. */
  function LastValue(items: seq<Item>, key: string): Option<string> {
    if items == [] then None
    else if Last(items).key == key && Last(items).value != "" then Some(Last(items).value)
    else LastValue(Front(items), key)
  }

  /** Applying a snapshot sets every switch it mentions, pin included, and leaves everything else alone. */
  lemma {:induction false} ApplyItemsAt(b: Board, p: Panel, items: seq<Item>, i: nat)
    requires b.WellFormed() && Fits(b, p) && i < |b.names|
    ensures var p' := ApplyItems(b, p, items);
            && (match LastValue(items, b.Key(i))
                case Some(value) => Shows(b, p', i, IsOn(value))
                case None => SameAt(b, p, p', i))
            && SameElsewhere(b, p, p')
  {
    if items != [] {
      var item, before := Last(items), ApplyItems(b, p, Front(items));
      ApplyItemsAt(b, p, Front(items), i);
      KeyNonempty(b, i);
      if item.key != "" && item.value != "" {
        SetSwitchAt(b, before, SWITCH_PATH + item.key, item.value, i);
        SnapshotNameMatches(b, item.key, i);
      }
    }
  }

  lemma KeyNonempty(b: Board, i: nat)
    requires b.WellFormed() && i < |b.names|
    ensures b.Key(i) != "" && b.names[i] == SWITCH_PATH + b.Key(i)
  {
    var key := b.names[i][|SWITCH_PATH|..];
    assert b.names[i] == SWITCH_PATH + key;
    KeyOfSwitchPath(key);
  }

  // ---------- the sync timer ----------

  const DEFAULT_INTERVAL: int := 300000
  const BACKOFF_INTERVAL: int := 5000
  const MAX_BACKOFF: int := 15000
  const WRAP: int := 0x1_0000_0000

  type uint32 = x: int | 0 <= x < WRAP

  /** Arithmetic on a 32-bit unsigned long. */
  function Wrapped(x: int): uint32 {
    x % WRAP
  }

  function MinUL(a: uint32, b: uint32): uint32 {
    if a < b then a else b
  }

  /** The answer to a snapshot request: an HTTP code, negative when transport failed, and the parsed items if parsing worked. */
  datatype Response = Response(code: int, items: Option<seq<Item>>) {
    predicate Success() {
      code == 200 && items.Some?
    }

    predicate TransportFailure() {
      code < 0
    }
  }

  datatype Ctl = Ctl(interval: uint32, lastStatus: bool, lastRequest: uint32)

  const POWER_ON := Ctl(DEFAULT_INTERVAL, false, 0)

  function SyncCtl(c: Ctl, r: Response): Ctl {
    if r.Success() then c.(interval := DEFAULT_INTERVAL, lastStatus := true)
    else if r.TransportFailure() then
      c.(interval := if c.lastStatus then BACKOFF_INTERVAL else MinUL(Wrapped(c.interval + BACKOFF_INTERVAL), MAX_BACKOFF),
         lastStatus := false)
    else c.(lastStatus := false)
  }

  function SyncPanel(b: Board, p: Panel, r: Response): (p': Panel)
    requires Fits(b, p)
    ensures Fits(b, p')
  {
    if r.Success() then ApplyItems(b, p, r.items.value) else p
  }

  datatype Push = Push(topic: string, payload: string)

  /**
   What one turn of the device's loop meets: whether the broker connection still
   stood, the reply to the snapshot taken on reconnecting, the push that arrived,
   the true time in milliseconds since power-on, and the reply to a periodic sync.
   */
  datatype Turn = Turn(connected: bool, reconnectReply: Response, push: Option<Push>, now: nat, periodicReply: Response)

  function Reconnected(c: Ctl, t: Turn): Ctl {
    if t.connected then c else SyncCtl(c, t.reconnectReply)
  }

  predicate Due(c: Ctl, t: Turn) {
    Wrapped(Wrapped(t.now) - c.lastRequest) >= Reconnected(c, t).interval
  }

  function TurnCtl(c: Ctl, t: Turn): Ctl {
    if Due(c, t) then SyncCtl(Reconnected(c, t), t.periodicReply).(lastRequest := Wrapped(t.now)) else Reconnected(c, t)
  }

  function TurnPanel(b: Board, p: Panel, c: Ctl, t: Turn): (p': Panel)
    requires Fits(b, p)
    ensures Fits(b, p')
  {
    var p1 := if t.connected then p else SyncPanel(b, p, t.reconnectReply);
    var p2 := if t.push.Some? then SetSwitch(b, p1, t.push.value.topic, CString(t.push.value.payload)) else p1;
    if Due(c, t) then SyncPanel(b, p2, t.periodicReply) else p2
  }

  /** Every switch pin at the level that means off. */
  function PinsOff(b: Board, pins: map<int, Level>, n: nat): map<int, Level>
    requires b.Sized() && n <= |b.names|
  {
    if n == 0 then pins else PinsOff(b, pins, n - 1)[b.pinOf[n - 1] := LevelFor(b.activeLow[n - 1], false)]
  }

  lemma {:induction false} PinsOffAt(b: Board, pins: map<int, Level>, n: nat, i: nat)
    requires b.WellFormed() && n <= |b.names| && i < n
    ensures Find(PinsOff(b, pins, n), b.pinOf[i]) == Some(if b.activeLow[i] then HIGH else LOW)
  {
    if i < n - 1 {
      PinsOffAt(b, pins, n - 1, i);
    }
  }
}
