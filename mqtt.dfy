/** The messages the bridge publishes to the broker, as records rather than
    JSON text, and the broker connection seen as the list of publications. */
module Mqtt {
  import opened Common

  /** The `device` block of a discovery configuration. */
  datatype DeviceInfo = DeviceInfo(
    identifiers: seq<string>,
    name: string,
    manufacturer: Option<string>,
    model: Option<string>,
    serialNumber: Option<string>)

  /** The auto-discovery configuration of one light entity. */
  datatype DiscoveryConfig = DiscoveryConfig(
    component: string,
    objectId: string,
    uniqueId: string,
    schema: string,
    payloadOff: string,
    payloadOn: string,
    brightness: bool,
    colorMode: bool,
    effect: bool,
    retain: bool,
    stateTopic: string,
    jsonAttributesTopic: string,
    commandTopic: string,
    name: Option<string>,
    device: DeviceInfo,
    supportedColorModes: Option<seq<string>>)

  /** `{"state", "brightness"}` or `{"color_temp"}`. */
  datatype StatePayload = OnOff(state: string, brightness: int) | ColorTemp(colorTemp: int)

  datatype Payload = Discovery(config: DiscoveryConfig) | State(state: StatePayload)

  datatype Message = Message(topic: string, payload: Payload, retain: bool)

  function LightTopic(avid: int, leaf: string): string
  {
    "hmd/light/avid/" + Decimal(avid) + "/" + leaf
  }

  function StateTopic(avid: int): string
  {
    LightTopic(avid, "state")
  }

  function ConfigTopic(avid: int): string
  {
    "homeassistant/light/avid_" + Decimal(avid) + "/config"
  }

  /** The broker connection; `published` lists every publication in order. */
  class Broker {
    var published: seq<Message>

    constructor ()
      ensures published == []
    {
      published := [];
    }

    method Publish(topic: string, payload: Payload, retain: bool)
      modifies this
      ensures published == old(published) + [Message(topic, payload, retain)]
    {
      published := published + [Message(topic, payload, retain)];
    }
  }
}
