/**
 The device program of mqttelectric.ino: its globals as fields, its functions as
 methods. What the network answers comes in as parameters.
 */
module Device {
  import opened Basics
  import opened States
  import opened DeviceSpec

  class Device {
    const board: Board
    var states: array<bool>
    var pins: map<int, Level>
    var requestInterval: uint32
    var lastRequestTime: uint32
    var lastStatus: bool
    var connected: bool

    ghost predicate Valid()
      reads this
    {
      board.Sized() && states.Length == |board.names|
    }

    ghost function Shown(): Panel
      reads this, states
    {
      Panel(states[..], pins)
    }

    ghost function Control(): Ctl
      reads this
    {
      Ctl(requestInterval, lastStatus, lastRequestTime)
    }

    /** Power-on: every switch is believed on although no pin has been driven yet. */
    constructor (board: Board)
      requires board.Sized()
      ensures Valid() && fresh(states) && this.board == board
      ensures Shown() == Panel(seq(|board.names|, i => true), map[]) && Control() == POWER_ON && !connected
    {
      this.board := board;
      states := new bool[|board.names|](i => true);
      pins := map[];
      requestInterval, lastRequestTime, lastStatus := DEFAULT_INTERVAL, 0, false;
      connected := false;
    }

    method SetStateData(name: string, state: string)
      requires Valid()
      modifies this`pins, states
      ensures Shown() == SetSwitch(board, old(Shown()), name, state)
    {
      var sstate := TrimRight(TrimLeft(state));
      sstate := Lower(sstate);
      for i := 0 to |board.names|
        invariant FirstMatch(board, name, 0) == FirstMatch(board, name, i)
        invariant Shown() == old(Shown())
      {
        var fullTopic := InBuffer(MQTT_PREFIX_TOPIC + "/" + board.names[i]);
        if name == fullTopic || name == board.names[i] {
          var on := sstate == STATE_ON;
          states[i] := on;
          if board.activeLow[i] {
            pins := pins[board.pinOf[i] := if on then LOW else HIGH];
          } else {
            pins := pins[board.pinOf[i] := if on then HIGH else LOW];
          }
          return;
        }
      }
    }

    /** The keys of the snapshot request's query, in the order of the switches. */
    method RequestKeys() returns (keys: seq<string>)
      requires Valid()
      ensures |keys| == |board.names| && forall i | 0 <= i < |keys| :: keys[i] == board.Key(i)
    {
      keys := [];
      for i := 0 to |board.names|
        invariant |keys| == i && forall k | 0 <= k < i :: keys[k] == board.Key(k)
      {
        keys := keys + [ExtractKeyName(board.names[i])];
      }
    }

    method SyncPersistentData(reply: Response) returns (requested: seq<string>)
      requires Valid()
      modifies this`pins, this`requestInterval, this`lastStatus, states
      ensures |requested| == |board.names| && forall i | 0 <= i < |requested| :: requested[i] == board.Key(i)
      ensures Shown() == SyncPanel(board, old(Shown()), reply)
      ensures Control() == SyncCtl(old(Control()), reply)
    {
      requested := RequestKeys();
      if reply.code == 200 {
        if reply.items.None? {
          lastStatus := false;
          return;
        }
        var data := reply.items.value;
        for n := 0 to |data|
          invariant Shown() == ApplyItems(board, old(Shown()), data[..n])
          invariant Control() == old(Control())
        {
          assert Front(data[..n + 1]) == data[..n];
          if data[n].key == "" || data[n].value == "" {
            continue;
          }
          SetStateData(SWITCH_PATH + data[n].key, data[n].value);
        }
        assert data[..|data|] == data;
        lastStatus := true;
        requestInterval := DEFAULT_INTERVAL;
      } else {
        if reply.code < 0 {
          if lastStatus {
            requestInterval := BACKOFF_INTERVAL;
          } else {
            requestInterval := MinUL(Wrapped(requestInterval + BACKOFF_INTERVAL), MAX_BACKOFF);
          }
        }
        lastStatus := false;
      }
    }

    /** Retries until the broker accepts, after `failures` refused attempts; reports whether it had to connect. */
    method ConnectToMQTTBroker(failures: nat) returns (reconnected: bool)
      modifies this`connected
      ensures connected && reconnected == !old(connected)
    {
      var refused := 0;
      while !connected
        invariant refused <= failures && connected == old(connected)
        decreases failures - refused
      {
        if refused == failures {
          connected := true;
          return true;
        }
        refused := refused + 1;
      }
      return false;
    }

    method MqttCallback(topic: string, payload: array<char>)
      requires Valid()
      modifies this`pins, states
      ensures Shown() == SetSwitch(board, old(Shown()), topic, CString(payload[..]))
    {
      var message := new char[payload.Length + 1](i => '\0');
      for i := 0 to payload.Length
        invariant message[..i] == payload[..i] && payload[..] == old(payload[..])
        invariant Shown() == old(Shown())
      {
        message[i] := payload[i];
      }
      message[payload.Length] := '\0';
      assert message[..] == payload[..] + ['\0'];
      CStringTerminated(payload[..]);
      SetStateData(topic, CString(message[..]));
    }

    /** Every pin is driven to off, a snapshot is taken, and only then is the broker subscribed to. */
    method Setup(reply: Response, failures: nat)
      requires Valid() && !connected
      modifies this, states
      ensures Valid() && states == old(states) && connected
      ensures var start := Panel(old(Shown()).states, PinsOff(board, old(pins), |board.names|));
              var synced := SyncPanel(board, start, reply);
              Shown() == synced.(pins := synced.pins[board.keyPin := HIGH])
      ensures Control() == SyncCtl(old(Control()), reply)
      ensures Find(pins, board.keyPin) == Some(HIGH)
      ensures board.WellFormed() && !(reply.code == 200 && reply.items.Some?) ==>
                forall i | 0 <= i < |board.names| :: Find(pins, board.pinOf[i]) == Some(if board.activeLow[i] then HIGH else LOW)
    {
      for i := 0 to |board.names|
        invariant Valid() && states == old(states) && states[..] == old(states[..]) && !connected
        invariant pins == PinsOff(board, old(pins), i) && Control() == old(Control())
      {
        if board.activeLow[i] {
          pins := pins[board.pinOf[i] := HIGH];
        } else {
          pins := pins[board.pinOf[i] := LOW];
        }
      }
      var _ := SyncPersistentData(reply);
      var _ := ConnectToMQTTBroker(failures);
      pins := pins[board.keyPin := HIGH];
      if board.WellFormed() {
        forall i: nat | i < |board.names|
          ensures Find(PinsOff(board, old(pins), |board.names|), board.pinOf[i]) == Some(if board.activeLow[i] then HIGH else LOW)
        {
          PinsOffAt(board, old(pins), |board.names|, i);
        }
      }
    }

    /** One turn of the loop; `payload` is the buffer of the push, if one arrived. */
    method Loop(turn: Turn, failures: nat, payload: array<char>)
      requires Valid() && connected == turn.connected
      requires turn.push.Some? ==> payload[..] == turn.push.value.payload
      modifies this, states
      ensures Valid() && states == old(states) && connected
      ensures Shown() == TurnPanel(board, old(Shown()), old(Control()), turn)
      ensures Control() == TurnCtl(old(Control()), turn)
    {
      if !connected {
        var reconnected := ConnectToMQTTBroker(failures);
        if reconnected {
          var _ := SyncPersistentData(turn.reconnectReply);
        }
      }
      assert Control() == Reconnected(old(Control()), turn);
      if turn.push.Some? {
        MqttCallback(turn.push.value.topic, payload);
      }
      var currentTime := Wrapped(turn.now);
      assert Due(old(Control()), turn) <==> Wrapped(currentTime - lastRequestTime) >= requestInterval;
      if Wrapped(currentTime - lastRequestTime) >= requestInterval {
        var _ := SyncPersistentData(turn.periodicReply);
        lastRequestTime := currentTime;
      }
    }
  }

  lemma {:induction false} CStringTerminated(s: string)
    ensures CString(s + ['\0']) == CString(s)
  {
    if s != "" {
      assert (s + ['\0'])[1..] == s[1..] + ['\0'];
      CStringTerminated(s[1..]);
    }
  }
}
