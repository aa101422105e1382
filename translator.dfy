/** Translation between MQTT and the mesh: a command payload becomes one
    packet (`mesh_send`), the bridge acknowledges its own packet at once, and
    a parsed status becomes a state publication (`mqtt_send_state`). */
module Translator {
  import opened Common
  import opened Codec
  import opened Fragments
  import opened Mqtt

  /** The outcome of the dispatch in `mesh_send`: no recognised key (the
      function returns False), one packet, or an exception raised while
      building it (a value of the wrong type or range, a zero mired, an
      address outside two bytes). */
  datatype Command = NoPacket | Packet(bytes: seq<byte>) | Failed

  /** A JSON value used where Python expects an int; `bool` is an `int` there. */
  function AsInt(j: Json): Option<int>
  {
    match j
    case JInt(i) => Some(i)
    case JBool(b) => Some(if b then 1 else 0)
    case _ => None
  }

  /** `(int)(1000000 / mired)`: true division, then truncation toward zero. */
  function Kelvin(mired: int): (k: int)
    requires mired != 0
    ensures mired > 0 ==> 0 <= k && k * mired <= 1000000 < (k + 1) * mired
    ensures mired < 0 ==> k <= 0
  {
    if mired > 0 then 1000000 / mired else -(1000000 / -mired)
  }

  lemma MulLeft(a: int, b: int, c: int)
    requires 0 <= a && b <= c
    ensures a * b <= a * c
  {
  }

  /** The kelvin value fits the packet's two bytes exactly when the mired
      value is at least 16, or below -1000000 (where truncation gives 0). */
  lemma KelvinFits(mired: int)
    requires mired != 0
    ensures 0 <= Kelvin(mired) < 0x1_0000 <==> mired >= 16 || mired < -1000000
  {
    var k := Kelvin(mired);
    if mired >= 16 {
      MulLeft(k, 16, mired);
      assert k * 16 <= 1000000;
    } else if mired > 0 {
      MulLeft(k + 1, mired, 15);
      assert (k + 1) * 15 > 1000000;
    } else if mired >= -1000000 {
      assert 1000000 / -mired >= 1;
    } else {
      assert 1000000 / -mired == 0;
    }
  }

  /** The state a payload asks for: `brightness` first, then `state`
      as 255 or 0, used when neither `brightness` nor `color_temp` is present. */
  function RequestedLevel(payload: map<string, Json>): Option<int>
  {
    if "brightness" in payload then AsInt(payload["brightness"])
    else if "color_temp" in payload then None
    else if "state" in payload then Some(if payload["state"] == JStr("ON") then 255 else 0)
    else None
  }

  /** Whether the key that takes precedence carries a value Python can encode. */
  predicate Encodable(payload: map<string, Json>)
  {
    if "brightness" in payload then
      var b := AsInt(payload["brightness"]);
      b.Some? && 0 <= b.value < 256
    else if "color_temp" in payload then
      var m := AsInt(payload["color_temp"]);
      m.Some? && (m.value >= 16 || m.value < -1000000)
    else true
  }

  /** The dispatch in `mesh_send`. The precedence is brightness, then
      color_temp, then state; parsing the packet gives back what was asked. */
  function CommandPacket(avid: int, payload: map<string, Json>): (r: Command)
    ensures r.NoPacket? <==> "brightness" !in payload && "color_temp" !in payload && "state" !in payload
    ensures r.Packet? <==> !r.NoPacket? && ValidId(avid) && Encodable(payload)
    ensures r.Packet? ==> WellFramed(r.bytes)
    ensures r.Packet? && "brightness" in payload ==>
      r.bytes == BrightnessPacket(avid, AsInt(payload["brightness"]).value)
    ensures r.Packet? && "brightness" !in payload && "color_temp" in payload ==>
      r.bytes == ColorTempPacket(avid, Kelvin(AsInt(payload["color_temp"]).value))
    ensures r.Packet? && "brightness" !in payload && "color_temp" !in payload ==>
      r.bytes == BrightnessPacket(avid, if payload["state"] == JStr("ON") then 255 else 0)
    ensures r.Packet? && "color_temp" !in payload ==>
      ParseCommand(avid, r.bytes) == Some(StateUpdate(avid, RequestedLevel(payload), None))
    ensures r.Packet? && "brightness" !in payload && "color_temp" in payload ==>
      ParseCommand(avid, r.bytes) == Some(StateUpdate(avid, None, Some(Kelvin(AsInt(payload["color_temp"]).value))))
    ensures r.Packet? && "brightness" in payload ==>
      ParseCommand(avid, r.bytes) == Some(StateUpdate(avid, RequestedLevel(payload), None))
  {
    if "brightness" in payload then
      var b := AsInt(payload["brightness"]);
      if b.Some? && 0 <= b.value < 256 && ValidId(avid) then
        BrightnessRoundTrip(avid, b.value);
        Packet(BrightnessPacket(avid, b.value))
      else Failed
    else if "color_temp" in payload then
      var m := AsInt(payload["color_temp"]);
      if m.None? || m.value == 0 then Failed
      else
        var k := Kelvin(m.value);
        KelvinFits(m.value);
        if 0 <= k < 0x1_0000 && ValidId(avid) then
          ColorTempRoundTrip(avid, k);
          Packet(ColorTempPacket(avid, k))
        else Failed
    else if "state" in payload then
      if ValidId(avid) then
        var level := if payload["state"] == JStr("ON") then 255 else 0;
        BrightnessRoundTrip(avid, level);
        Packet(BrightnessPacket(avid, level))
      else Failed
    else NoPacket
  }

  /** Python's `needle in hay` on two strings: a substring test. */
  predicate Contains(hay: string, needle: string)
    decreases |hay|
  {
    |needle| <= |hay| && (hay[..|needle|] == needle || (|hay| > 0 && Contains(hay[1..], needle)))
  }

  /** The dispatch of `mesh_send` on whatever `json.loads` returned. An
      object goes through `CommandPacket`. A number, boolean or null makes
      the first `in` test raise. A string or a list passes an `in` test
      when it holds the key as a substring or as an element, and then the
      subscript raises; otherwise it falls through to "Unknown payload". */
  function MeshCommand(avid: int, payload: Json): (r: Command)
    ensures payload.JObject? ==> r == CommandPacket(avid, payload.fields)
    ensures r.Packet? ==> payload.JObject?
    ensures payload.JNull? || payload.JBool? || payload.JInt? ==> r.Failed?
    ensures payload.JStr? ==>
      (r.NoPacket? <==> !Contains(payload.s, "brightness") && !Contains(payload.s, "color_temp")
                        && !Contains(payload.s, "state"))
    ensures payload.JList? ==>
      (r.NoPacket? <==> JStr("brightness") !in payload.items && JStr("color_temp") !in payload.items
                        && JStr("state") !in payload.items)
  {
    match payload
    case JObject(fields) => CommandPacket(avid, fields)
    case JStr(text) =>
      if Contains(text, "brightness") || Contains(text, "color_temp") || Contains(text, "state") then Failed
      else NoPacket
    case JList(items) =>
      if JStr("brightness") in items || JStr("color_temp") in items || JStr("state") in items then Failed
      else NoPacket
    case _ => Failed
  }

  /** Payloads that are not objects: a key inside a string or a list raises,
      anything else in a string or list is an unknown payload, a bare
      number raises. */
  lemma MeshCommandNonObjects()
    ensures MeshCommand(1, JStr("state")) == Failed
    ensures MeshCommand(1, JStr("on")) == NoPacket
    ensures MeshCommand(1, JList([JStr("brightness"), JInt(3)])) == Failed
    ensures MeshCommand(1, JList([JInt(3)])) == NoPacket
    ensures MeshCommand(1, JInt(128)) == Failed
  {
    assert JList([JStr("brightness"), JInt(3)]).items[0] == JStr("brightness");
  }

  /** `mqtt_send_state`: a brightness publishes on/off with the level, a
      colour temperature publishes just that, anything else nothing; state
      publications are retained. */
  function StatePublication(u: StateUpdate): (r: Option<Message>)
    ensures r.Some? <==> u.brightness.Some? || u.colorTemp.Some?
    ensures r.Some? ==> r.value.topic == StateTopic(u.avid) && r.value.retain
    ensures u.brightness.Some? ==>
      (&& r.value.payload.State? && r.value.payload.state.OnOff?
       && r.value.payload.state.brightness == u.brightness.value
       && (r.value.payload.state.state == "ON" <==> u.brightness.value != 0)
       && (r.value.payload.state.state == "OFF" <==> u.brightness.value == 0))
    ensures u.brightness.None? && u.colorTemp.Some? ==>
      r.value.payload == State(ColorTemp(u.colorTemp.value))
  {
    var topic := StateTopic(u.avid);
    if u.brightness.Some? then
      var b := u.brightness.value;
      Some(Message(topic, State(OnOff(if b != 0 then "ON" else "OFF", b)), true))
    else if u.colorTemp.Some? then
      Some(Message(topic, State(ColorTemp(u.colorTemp.value)), true))
    else None
  }

  /** `if parsed: await mqtt_send_state(mqtt, parsed)`. */
  function StateMessages(parsed: Option<StateUpdate>): seq<Message>
  {
    if parsed.Some? && StatePublication(parsed.value).Some? then [StatePublication(parsed.value).value] else []
  }

  /** The state the bridge acknowledges for a command it could encode. */
  function ExpectedState(payload: map<string, Json>): StatePayload
    requires Encodable(payload)
    requires "brightness" in payload || "color_temp" in payload || "state" in payload
  {
    if "brightness" !in payload && "color_temp" in payload then
      ColorTemp(Kelvin(AsInt(payload["color_temp"]).value))
    else
      var b := RequestedLevel(payload).value;
      OnOff(if b != 0 then "ON" else "OFF", b)
  }

  /** The optimistic acknowledgement: after a send, exactly one retained state
      message for the commanded address, carrying what the command asked. */
  lemma AcknowledgementMatchesCommand(avid: int, payload: map<string, Json>)
    requires CommandPacket(avid, payload).Packet?
    ensures Encodable(payload)
    ensures StateMessages(ParseCommand(avid, CommandPacket(avid, payload).bytes))
         == [Message(StateTopic(avid), State(ExpectedState(payload)), true)]
  {
    if "brightness" !in payload && "color_temp" !in payload {
      assert "state" in payload;
    }
  }

  /** `mesh_send`: dispatch, write the encrypted packet as two fragments,
      then publish the state parsed back from our own packet. `encrypt`
      stands for the mesh library's packet sealing with a fresh sequence
      number. */
  method MeshSend(avid: int, payload: Json, encrypt: seq<byte> -> seq<byte>,
                  link: GattLink, broker: Broker) returns (r: Command)
    modifies link, broker
    ensures r == MeshCommand(avid, payload)
    ensures link.writes == old(link.writes) + (if r.Packet? then FragmentWrites(encrypt(r.bytes)) else [])
    ensures broker.published == old(broker.published)
      + (if r.Packet? then StateMessages(ParseCommand(avid, r.bytes)) else [])
  {
    r := MeshCommand(avid, payload);
    if r.Packet? {
      var ok := link.WritePacket(encrypt(r.bytes));
      if ok {
        var parsed := ParseCommand(avid, r.bytes);
        if parsed.Some? {
          var message := StatePublication(parsed.value);
          if message.Some? {
            broker.Publish(message.value.topic, message.value.payload, message.value.retain);
          }
        }
      }
    }
  }

  /** What `decrypt_packet` hands back: the sender and the plain payload. */
  datatype Decrypted = Decrypted(source: int, payload: seq<byte>)

  /** The state publications one callback outcome leads to. A payload too
      short for the unguarded reads raises inside the callback and publishes
      nothing. */
  function NotificationMessages(received: Received, decrypt: seq<byte> -> Decrypted): seq<Message>
  {
    if received.Reassembled? then
      var d := decrypt(received.encrypted);
      if WellFramed(d.payload) then StateMessages(ParseCommand(d.source, d.payload)) else []
    else []
  }

  /** The notification callback `cb` of `mesh_subscribe`. `decrypt` stands for
      the mesh library's decryption with the session key. */
  method OnNotification(buffer: NotificationBuffer, characteristic: string, data: seq<byte>,
                        decrypt: seq<byte> -> Decrypted, broker: Broker)
    modifies buffer, broker
    ensures buffer.lowBytes == Receive(old(buffer.lowBytes), GattWrite(characteristic, data)).0
    ensures broker.published == old(broker.published)
      + NotificationMessages(Receive(old(buffer.lowBytes), GattWrite(characteristic, data)).1, decrypt)
  {
    var received := buffer.OnNotify(characteristic, data);
    if received.Reassembled? {
      var d := decrypt(received.encrypted);
      if WellFramed(d.payload) {
        var parsed := ParseCommand(d.source, d.payload);
        if parsed.Some? {
          var message := StatePublication(parsed.value);
          if message.Some? {
            broker.Publish(message.value.topic, message.value.payload, message.value.retain);
          }
        }
      }
    }
  }

  /** `{"brightness": 128}` to node 40000: a WRITE/DIMMING packet and the
      acknowledgement `{"state": "ON", "brightness": 128}` on its state topic. */
  lemma BrightnessCommandExample()
    ensures var r := CommandPacket(40000, map["brightness" := JInt(128)]);
      && r.Packet? && r.bytes[3] == VerbCode(Write) && r.bytes[4] == NounCode(Dimming)
      && StateMessages(ParseCommand(40000, r.bytes))
         == [Message("hmd/light/avid/40000/state", State(OnOff("ON", 128)), true)]
  {
    var payload := map["brightness" := JInt(128)];
    var r := CommandPacket(40000, payload);
    assert r == Packet(BrightnessPacket(40000, 128));
    AcknowledgementMatchesCommand(40000, payload);
    assert ExpectedState(payload) == OnOff("ON", 128);
    StateTopicExample();
  }

  lemma StateTopicExample()
    ensures StateTopic(40000) == "hmd/light/avid/40000/state"
  {
    assert Digit(4) == '4' && Digit(0) == '0';
    assert Natural(4) == "4";
    assert Natural(40) == "40";
    assert Natural(400) == "400";
    assert Natural(4000) == "4000";
    assert Natural(40000) == "40000";
  }

  /** Mired to kelvin truncates: 250 gives 4000 and 370 gives 2702. */
  lemma KelvinExamples()
    ensures Kelvin(250) == 4000 && Kelvin(370) == 2702
  {
  }
}
