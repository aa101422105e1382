/** The mesh command packet: the verb/noun opcode model, the packet builder
    and the two-stage notification parser. */
module Codec {
  import opened Common

  /** Command class of a mesh instruction. */
  datatype Verb =
    | Write | Read | Insert | Truncate | Count | Delete | Ping | Sync | Ota
    | Push | ScanWifi | CancelDatastream | Update | Trim | DisconnectOta
    | Unregister | Mark | Reboot | Restart | OpenSsh | VerbNone

  /** Attribute class of a mesh instruction. */
  datatype Noun =
    | Dimming | FadeTime | Countdown | Date | Time | Schedule | Groups
    | SunriseSunset | Association | WakeStatus | Color | Config | WifiNetworks
    | DimmingTable | AssociatedWifiNetwork | AssociatedWifiNetworkStatus
    | Scenes | Schedule2 | RabIp | RabEnv | RabConfig | Thermometer
    | FirmwareVersion | LuxValue | TestMode | HarcodedString | RabMarks
    | MotionSensor | AlsDimming | Association2 | RtcSunRiseSetTable | RtcDate
    | RtcTime | RtcDaylightSavingTimeTable | AvionSensor | NounNone

  function VerbCode(v: Verb): byte
  {
    match v
    case Write => 0
    case Read => 1
    case Insert => 2
    case Truncate => 3
    case Count => 4
    case Delete => 5
    case Ping => 6
    case Sync => 7
    case Ota => 8
    case Push => 11
    case ScanWifi => 12
    case CancelDatastream => 13
    case Update => 16
    case Trim => 17
    case DisconnectOta => 18
    case Unregister => 20
    case Mark => 21
    case Reboot => 22
    case Restart => 23
    case OpenSsh => 32
    case VerbNone => 255
  }

  function NounCode(n: Noun): byte
  {
    match n
    case Dimming => 10
    case FadeTime => 25
    case Countdown => 9
    case Date => 21
    case Time => 22
    case Schedule => 7
    case Groups => 3
    case SunriseSunset => 6
    case Association => 27
    case WakeStatus => 28
    case Color => 29
    case Config => 30
    case WifiNetworks => 31
    case DimmingTable => 17
    case AssociatedWifiNetwork => 32
    case AssociatedWifiNetworkStatus => 33
    case Scenes => 34
    case Schedule2 => 35
    case RabIp => 36
    case RabEnv => 37
    case RabConfig => 38
    case Thermometer => 39
    case FirmwareVersion => 40
    case LuxValue => 41
    case TestMode => 42
    case HarcodedString => 43
    case RabMarks => 44
    case MotionSensor => 45
    case AlsDimming => 46
    case Association2 => 48
    case RtcSunRiseSetTable => 71
    case RtcDate => 72
    case RtcTime => 73
    case RtcDaylightSavingTimeTable => 74
    case AvionSensor => 91
    case NounNone => 255
  }

  /** `Verb(code)`: the verb with that code, or None where Python raises
      ValueError for a code outside the enumeration. */
  function VerbOf(code: int): (r: Option<Verb>)
    ensures r.Some? ==> VerbCode(r.value) == code
  {
    if code == 0 then Some(Write)
    else if code == 1 then Some(Read)
    else if code == 2 then Some(Insert)
    else if code == 3 then Some(Truncate)
    else if code == 4 then Some(Count)
    else if code == 5 then Some(Delete)
    else if code == 6 then Some(Ping)
    else if code == 7 then Some(Sync)
    else if code == 8 then Some(Ota)
    else if code == 11 then Some(Push)
    else if code == 12 then Some(ScanWifi)
    else if code == 13 then Some(CancelDatastream)
    else if code == 16 then Some(Update)
    else if code == 17 then Some(Trim)
    else if code == 18 then Some(DisconnectOta)
    else if code == 20 then Some(Unregister)
    else if code == 21 then Some(Mark)
    else if code == 22 then Some(Reboot)
    else if code == 23 then Some(Restart)
    else if code == 32 then Some(OpenSsh)
    else if code == 255 then Some(VerbNone)
    else None
  }

  /** `Noun(code)`: the noun with that code, or None for an unknown code. */
  function NounOf(code: int): (r: Option<Noun>)
    ensures r.Some? ==> 0 <= code < 256
  {
    match code
    case 10 => Some(Dimming)
    case 25 => Some(FadeTime)
    case 9 => Some(Countdown)
    case 21 => Some(Date)
    case 22 => Some(Time)
    case 7 => Some(Schedule)
    case 3 => Some(Groups)
    case 6 => Some(SunriseSunset)
    case 27 => Some(Association)
    case 28 => Some(WakeStatus)
    case 29 => Some(Color)
    case 30 => Some(Config)
    case 31 => Some(WifiNetworks)
    case 17 => Some(DimmingTable)
    case 32 => Some(AssociatedWifiNetwork)
    case 33 => Some(AssociatedWifiNetworkStatus)
    case 34 => Some(Scenes)
    case 35 => Some(Schedule2)
    case 36 => Some(RabIp)
    case 37 => Some(RabEnv)
    case 38 => Some(RabConfig)
    case 39 => Some(Thermometer)
    case 40 => Some(FirmwareVersion)
    case 41 => Some(LuxValue)
    case 42 => Some(TestMode)
    case 43 => Some(HarcodedString)
    case 44 => Some(RabMarks)
    case 45 => Some(MotionSensor)
    case 46 => Some(AlsDimming)
    case 48 => Some(Association2)
    case 71 => Some(RtcSunRiseSetTable)
    case 72 => Some(RtcDate)
    case 73 => Some(RtcTime)
    case 74 => Some(RtcDaylightSavingTimeTable)
    case 91 => Some(AvionSensor)
    case 255 => Some(NounNone)
    case _ => None
  }

  /** Every verb is recovered from its code. */
  lemma VerbRoundTrip(v: Verb)
    ensures VerbOf(VerbCode(v)) == Some(v)
  {
  }

  /** A noun is only ever decoded from its own code. */
  lemma NounOfSound(code: int)
    ensures NounOf(code).Some? ==> NounCode(NounOf(code).value) == code
  {
    if code < 28 {
    } else if code < 40 {
    } else {
    }
  }

  /** Every noun is recovered from its code. */
  lemma NounRoundTrip(n: Noun)
    ensures NounOf(NounCode(n)) == Some(n)
  {
  }

  /** Framing marker at index 2 of every packet. */
  const MARKER: byte := 0x73

  /** Addresses below this are group addresses, the rest device addresses. */
  const GROUP_LIMIT := 32896

  /** Source bytes (0x00, 0x80) stand for the local node. */
  const LOCAL_HI: byte := 0x80

  /** An address that `int.to_bytes(2)` accepts. */
  predicate ValidId(id: int)
  {
    0 <= id < 0x1_0000
  }

  /** `create_packet`: the address goes to the group field for group
      addresses and to the byte-swapped target field otherwise. */
  function CreatePacket(targetId: int, verb: Verb, noun: Noun, value: seq<byte>): (p: seq<byte>)
    requires ValidId(targetId)
    ensures |p| == 10 + |value|
    ensures p[2] == MARKER && p[3] == VerbCode(verb) && p[4] == NounCode(noun) && p[7] == 0
    ensures p[8..8 + |value|] == value
    ensures p[|p| - 2] == 0 && p[|p| - 1] == 0
    ensures targetId < GROUP_LIMIT ==> p[0] == 0 && p[1] == 0 && p[5] as int * 256 + p[6] == targetId
    ensures targetId >= GROUP_LIMIT ==> p[5] == 0 && p[6] == 0 && p[1] as int * 256 + p[0] == targetId
  {
    var target := if targetId < GROUP_LIMIT then 0 else targetId;
    var group := if targetId < GROUP_LIMIT then targetId else 0;
    [target % 256, target / 256, MARKER, VerbCode(verb), NounCode(noun), group / 256, group % 256, 0]
      + value + [0, 0]
  }

  /** `mesh_get_brightness_packet`. */
  function BrightnessPacket(targetId: int, brightness: byte): (p: seq<byte>)
    requires ValidId(targetId)
    ensures |p| == 13 && p[3] == VerbCode(Write) && p[4] == NounCode(Dimming)
    ensures p[8..11] == [brightness, 0, 0]
  {
    CreatePacket(targetId, Write, Dimming, [brightness, 0, 0])
  }

  /** `mesh_get_color_temp_packet`: a one byte flag then the kelvin value big-endian. */
  function ColorTempPacket(targetId: int, kelvin: int): (p: seq<byte>)
    requires ValidId(targetId) && 0 <= kelvin < 0x1_0000
    ensures |p| == 13 && p[3] == VerbCode(Write) && p[4] == NounCode(Color)
    ensures p[8] == 1 && p[9] as int * 256 + p[10] == kelvin
  {
    CreatePacket(targetId, Write, Color, [1, kelvin / 256, kelvin % 256])
  }

  /** `mesh_read_all`: a READ/DIMMING request to address 0. */
  function ReadAllPacket(): (p: seq<byte>)
    ensures |p| == 13 && p[..8] == [0, 0, MARKER, VerbCode(Read), NounCode(Dimming), 0, 0, 0]
    ensures p[8..] == [0, 0, 0, 0, 0]
  {
    CreatePacket(0, Read, Dimming, [0, 0, 0])
  }

  /** The dictionary a parse yields: an address and either a brightness or a
      colour temperature (the optional fields stand for optional keys). */
  datatype StateUpdate = StateUpdate(avid: int, brightness: Option<int>, colorTemp: Option<int>)

  /** Python's clamped slice `s[i:j]`. */
  function Slice(s: seq<byte>, i: nat, j: nat): (r: seq<byte>)
    ensures |r| == if Min(j, |s|) <= Min(i, |s|) then 0 else Min(j, |s|) - Min(i, |s|)
  {
    var lo := Min(i, |s|);
    var hi := Min(j, |s|);
    if hi <= lo then [] else s[lo..hi]
  }

  /** `int.from_bytes(s, byteorder="big")`; 0 for the empty string. */
  function FromBytes(s: seq<byte>): (r: nat)
    ensures s == [] ==> r == 0
    ensures |s| == 1 ==> r == s[0]
    ensures |s| == 2 ==> r == s[0] as int * 256 + s[1]
  {
    if s == [] then 0 else FromBytes(s[..|s| - 1]) * 256 + s[|s| - 1]
  }

  /** The value bytes of an inner payload: after the target for WRITE,
      right after the opcode otherwise. */
  function ValueBytes(data: seq<byte>): seq<byte>
    requires |data| >= 2
  {
    if data[0] == VerbCode(Write) then Slice(data, 4, |data|) else data[2..]
  }

  /** When the inner parser yields a result. */
  predicate Recognised(targetId: int, data: seq<byte>)
  {
    && |data| >= 2
    && !(data[0] == 0 && data[1] == 0)
    && VerbOf(data[0]).Some?
    && (NounOf(data[1]) == Some(Dimming) || NounOf(data[1]) == Some(Color))
    && !(data[0] == VerbCode(Write) && targetId == 0 && |data| < 4)
  }

  /** `mesh_parse_data`: the inner payload (opcode first). Unknown codes, an
      unsupported noun, an empty opcode or a missing WRITE target give no
      result. The emptiness test reads byte 0, and byte 1 when byte 0 is
      zero, outside the `try`, hence the precondition; a single non-zero
      byte fails inside the `try` and gives no result. */
  function ParseData(targetId: int, data: seq<byte>): (r: Option<StateUpdate>)
    requires |data| >= 1 && (data[0] == 0 ==> |data| >= 2)
    ensures |data| < 2 ==> r.None?
    ensures |data| >= 2 && data[0] == 0 && data[1] == 0 ==> r.None?
    ensures VerbOf(data[0]).None? || (|data| >= 2 && NounOf(data[1]).None?) ==> r.None?
    ensures r.Some? <==> Recognised(targetId, data)
    ensures r.Some? && data[0] == VerbCode(Write) && targetId == 0 ==> r.value.avid == data[2] as int * 256 + data[3]
    ensures r.Some? && !(data[0] == VerbCode(Write) && targetId == 0) ==> r.value.avid == targetId
    ensures r.Some? && |data| >= 2 && data[1] == NounCode(Dimming) ==>
      var v := ValueBytes(data);
      r.value.brightness == Some(if |v| >= 2 then v[1] else 0) && r.value.colorTemp.None?
    ensures r.Some? && |data| >= 2 && data[1] == NounCode(Color) ==>
      var v := ValueBytes(data);
      r.value.brightness.None? &&
      r.value.colorTemp == Some(if |v| >= 4 then v[2] as int * 256 + v[3] else if |v| == 3 then v[2] else 0)
  {
    if data[0] == 0 && data[1] == 0 then None
    else if |data| < 2 then None
    else
      match (VerbOf(data[0]), NounOf(data[1]))
      case (Some(verb), Some(noun)) =>
        if verb == Write && targetId == 0 && |data| < 4 then None
        else
          var target := if verb == Write && targetId == 0 then FromBytes([data[2], data[3]]) else targetId;
          var value := if verb == Write then Slice(data, 4, |data|) else data[2..];
          if noun == Dimming then
            Some(StateUpdate(target, Some(FromBytes(Slice(value, 1, 2))), None))
          else if noun == Color then
            Some(StateUpdate(target, None, Some(FromBytes(Slice(value, 2, 4)))))
          else None
      case _ => None
  }

  /** What `mesh_parse_command` reads without a guard: bytes 0 to 2, and
      once the marker matches, the inner bytes the emptiness test reads. */
  predicate WellFramed(data: seq<byte>)
  {
    |data| >= 3 && (data[2] == MARKER ==> |data| >= 4 && (data[3] == 0 ==> |data| >= 5))
  }

  /** The address a notification comes from: the caller's for the local
      marker (0x00, 0x80), the byte-swapped first two bytes otherwise. */
  function SourceOf(source: int, data: seq<byte>): int
    requires |data| >= 2
  {
    if data[0] == 0 && data[1] == LOCAL_HI then source else data[1] as int * 256 + data[0]
  }

  /** `mesh_parse_command`: the envelope check, then the inner parse of
      everything after the marker. */
  function ParseCommand(source: int, data: seq<byte>): (r: Option<StateUpdate>)
    requires WellFramed(data)
    ensures data[2] != MARKER ==> r.None?
    ensures r.Some? <==> data[2] == MARKER && Recognised(SourceOf(source, data), data[3..])
    ensures data[2] == MARKER ==> r == ParseData(SourceOf(source, data), data[3..])
  {
    if data[2] == MARKER then
      if data[0] == 0 && data[1] == LOCAL_HI then ParseData(source, data[3..])
      else ParseData(FromBytes([data[1], data[0]]), data[3..])
    else None
  }

  /** Parsing our own brightness packet gives back the address and level. */
  lemma BrightnessRoundTrip(avid: int, brightness: byte)
    requires ValidId(avid)
    ensures WellFramed(BrightnessPacket(avid, brightness))
    ensures ParseCommand(avid, BrightnessPacket(avid, brightness))
         == Some(StateUpdate(avid, Some(brightness), None))
  {
    var p := BrightnessPacket(avid, brightness);
    var inner := p[3..];
    assert inner == [VerbCode(Write), NounCode(Dimming), p[5], p[6], 0, brightness, 0, 0, 0, 0];
    assert ValueBytes(inner) == [0, brightness, 0, 0, 0, 0];
  }

  /** Parsing our own colour packet gives back the address and kelvin value. */
  lemma ColorTempRoundTrip(avid: int, kelvin: int)
    requires ValidId(avid) && 0 <= kelvin < 0x1_0000
    ensures WellFramed(ColorTempPacket(avid, kelvin))
    ensures ParseCommand(avid, ColorTempPacket(avid, kelvin))
         == Some(StateUpdate(avid, None, Some(kelvin)))
  {
    var p := ColorTempPacket(avid, kelvin);
    var inner := p[3..];
    assert inner == [VerbCode(Write), NounCode(Color), p[5], p[6], 0, 1, kelvin / 256, kelvin % 256, 0, 0];
    assert ValueBytes(inner) == [0, 1, kelvin / 256, kelvin % 256, 0, 0];
  }

  /** A one-byte inner payload that is not zero fails inside the `try`:
      no result, directly or behind the marker. */
  lemma ShortInnerPayload()
    ensures ParseData(0, [5]) == None
    ensures WellFramed([0x40, 0x9c, MARKER, 1])
    ensures ParseCommand(7, [0x40, 0x9c, MARKER, 1]) == None
  {
  }

  /** A READ/DIMMING status from node 256 (bytes 0-1 swapped) is a
      brightness update; the level is the second value byte. */
  lemma ReadDimmingStatus(source: int)
    ensures ParseCommand(source, [0, 1, MARKER, 1, 10, 0, 0, 5, 0, 200, 0])
         == Some(StateUpdate(256, Some(0), None))
  {
  }
}
