/** The discovery registry: capability policy, one auto-discovery
    configuration per admitted entity, and the include/exclude admission
    rule with the optional exclusion of group members. */
module Registry {
  import opened Common
  import opened Mqtt

  const DEFAULT_DIMMING: set<int> := {0, 90, 93, 94, 97, 134, 137, 162}
  const DEFAULT_COLOR_TEMP: set<int> := {0, 93, 134, 137, 162}

  const PRODUCT_NAMES: map<int, string> := map[
    0 := "Group",
    90 := "Lamp Dimmer",
    93 := "Recessed Downlight (RL)",
    94 := "Light Adapter",
    97 := "Smart Dimmer",
    134 := "Smart Bulb (A19)",
    137 := "Surface Downlight (BLD)",
    162 := "MicroEdge (HLB)",
    167 := "Smart Switch"]

  /** A device or group of the location. `devices` lists a group's member
      pids and is empty for a device. */
  datatype Entity = Entity(pid: string, productId: int, avid: int, name: string, devices: seq<string>)

  datatype Location = Location(devices: seq<Entity>, groups: seq<Entity>)

  /** The import policy of one category; `excludeInGroup` is read for devices only. */
  datatype Category = Category(
    importing: bool,
    included: Option<set<string>>,
    excluded: Option<set<string>>,
    excludeInGroup: bool)

  /** Extra product ids granted each capability. */
  datatype Overrides = Overrides(dimming: Option<seq<int>>, colorTemp: Option<seq<int>>)

  function Elements(ids: Option<seq<int>>): set<int>
  {
    if ids.None? then {} else set id | id in ids.value
  }

  /** The two capability sets, changed only by settings overrides at startup. */
  class Capabilities {
    var dimming: set<int>
    var colorTemp: set<int>

    constructor ()
      ensures dimming == DEFAULT_DIMMING && colorTemp == DEFAULT_COLOR_TEMP
    {
      dimming := DEFAULT_DIMMING;
      colorTemp := DEFAULT_COLOR_TEMP;
    }

    /** `apply_overrides_from_settings`: only ever adds ids. */
    method ApplyOverrides(overrides: Option<Overrides>)
      modifies this
      ensures old(dimming) <= dimming && old(colorTemp) <= colorTemp
      ensures overrides.None? ==> dimming == old(dimming) && colorTemp == old(colorTemp)
      ensures overrides.Some? ==>
        && dimming == old(dimming) + Elements(overrides.value.dimming)
        && colorTemp == old(colorTemp) + Elements(overrides.value.colorTemp)
    {
      if overrides.Some? {
        var dimmingIds := overrides.value.dimming;
        if dimmingIds.Some? {
          for i := 0 to |dimmingIds.value|
            invariant dimming == old(dimming) + set id | id in dimmingIds.value[..i]
            invariant colorTemp == old(colorTemp)
          {
            assert dimmingIds.value[..i + 1] == dimmingIds.value[..i] + [dimmingIds.value[i]];
            dimming := dimming + {dimmingIds.value[i]};
          }
          assert dimmingIds.value[..|dimmingIds.value|] == dimmingIds.value;
        }
        var colorIds := overrides.value.colorTemp;
        if colorIds.Some? {
          for i := 0 to |colorIds.value|
            invariant colorTemp == old(colorTemp) + set id | id in colorIds.value[..i]
            invariant dimming == old(dimming) + Elements(dimmingIds)
          {
            assert colorIds.value[..i + 1] == colorIds.value[..i] + [colorIds.value[i]];
            colorTemp := colorTemp + {colorIds.value[i]};
          }
          assert colorIds.value[..|colorIds.value|] == colorIds.value;
        }
      }
    }
  }

  /** The settings the registry reads; the devices policy is written back
      when group members are excluded. */
  class Settings {
    const groups: Category
    var devices: Category
    const singleDevice: bool
    const all: Option<string>  // the name of the optional catch-all entity

    constructor (groups: Category, devices: Category, singleDevice: bool, all: Option<string>)
      ensures this.groups == groups && this.devices == devices
      ensures this.singleDevice == singleDevice && this.all == all
    {
      this.groups := groups;
      this.devices := devices;
      this.singleDevice := singleDevice;
      this.all := all;
    }
  }

  /** `PRODUCT_NAMES.get(product_id, f"Unknown product ({product_id})")`. */
  function ProductName(productId: int): (r: string)
    ensures productId in PRODUCT_NAMES ==> r == PRODUCT_NAMES[productId]
    ensures productId !in PRODUCT_NAMES ==> |r| > 17 && r[..17] == "Unknown product (" && r[|r| - 1] == ')'
    ensures productId !in PRODUCT_NAMES ==> r[17..|r| - 1] == Decimal(productId)
  {
    if productId in PRODUCT_NAMES then PRODUCT_NAMES[productId]
    else "Unknown product (" + Decimal(productId) + ")"
  }

  /** The configuration `mqtt_register` publishes for one entity. */
  function DiscoveryConfigFor(singleDevice: bool, e: Entity, dimming: set<int>, colorTemp: set<int>): (c: DiscoveryConfig)
    ensures c.component == "light" && c.schema == "json"
    ensures c.payloadOn == "ON" && c.payloadOff == "OFF"
    ensures c.brightness <==> e.productId in dimming
    ensures c.colorMode <==> e.productId in colorTemp
    ensures c.supportedColorModes.Some? <==> e.productId in colorTemp
    ensures c.supportedColorModes.Some? ==> c.supportedColorModes.value == ["color_temp"]
    ensures c.stateTopic == StateTopic(e.avid) && c.commandTopic == LightTopic(e.avid, "command")
    ensures c.jsonAttributesTopic == LightTopic(e.avid, "attributes")
    ensures c.objectId == "avid_" + Decimal(e.avid)
    ensures c.uniqueId == e.pid && !c.retain && !c.effect
    ensures c.name == (if singleDevice then Some(e.name) else None)
    ensures singleDevice ==> c.device == DeviceInfo(["avionmqtt"], "Avi-on MQTT Bridge", None, None, None)
    ensures !singleDevice ==>
      c.device == DeviceInfo([e.pid], e.name, Some("Avi-on"), Some(ProductName(e.productId)), Some(e.pid))
  {
    var device :=
      if singleDevice then DeviceInfo(["avionmqtt"], "Avi-on MQTT Bridge", None, None, None)
      else DeviceInfo([e.pid], e.name, Some("Avi-on"), Some(ProductName(e.productId)), Some(e.pid));
    DiscoveryConfig(
      "light", "avid_" + Decimal(e.avid), e.pid, "json", "OFF", "ON",
      e.productId in dimming, e.productId in colorTemp, false, false,
      StateTopic(e.avid), LightTopic(e.avid, "attributes"), LightTopic(e.avid, "command"),
      if singleDevice then Some(e.name) else None,
      device,
      if e.productId in colorTemp then Some(["color_temp"]) else None)
  }

  function ConfigMessage(singleDevice: bool, e: Entity, dimming: set<int>, colorTemp: set<int>): Message
  {
    Message(ConfigTopic(e.avid), Discovery(DiscoveryConfigFor(singleDevice, e, dimming, colorTemp)), false)
  }

  /** `mqtt_register`. */
  method Register(singleDevice: bool, broker: Broker, e: Entity, caps: Capabilities)
    modifies broker
    ensures broker.published == old(broker.published) + [ConfigMessage(singleDevice, e, caps.dimming, caps.colorTemp)]
  {
    var config := DiscoveryConfigFor(singleDevice, e, caps.dimming, caps.colorTemp);
    broker.Publish(ConfigTopic(e.avid), Discovery(config), false);
  }

  function ExcludeOf(c: Category): set<string>
  {
    if c.excluded.None? then {} else c.excluded.value
  }

  /** The admission test of `mqtt_register_category`: listed in `include`,
      or simply not in `exclude`; an include list does not restrict. */
  predicate Admitted(c: Category, pid: string)
    ensures c.included.Some? && pid in c.included.value ==> Admitted(c, pid)
    ensures pid !in ExcludeOf(c) ==> Admitted(c, pid)
    ensures c.included.None? ==> (Admitted(c, pid) <==> pid !in ExcludeOf(c))
  {
    (c.included.Some? && pid in c.included.value) || pid !in ExcludeOf(c)
  }

  /** The configurations of the admitted entities, in input order. */
  function Registrations(singleDevice: bool, c: Category, es: seq<Entity>, dimming: set<int>, colorTemp: set<int>): seq<Message>
  {
    if es == [] then []
    else
      var last := es[|es| - 1];
      Registrations(singleDevice, c, es[..|es| - 1], dimming, colorTemp)
        + (if Admitted(c, last.pid) then [ConfigMessage(singleDevice, last, dimming, colorTemp)] else [])
  }

  /** Everything `mqtt_register_category` publishes. */
  function CategoryMessages(singleDevice: bool, c: Category, es: seq<Entity>, dimming: set<int>, colorTemp: set<int>): seq<Message>
  {
    if c.importing then Registrations(singleDevice, c, es, dimming, colorTemp) else []
  }

  /** Registration keeps the input order: the registrations of a
      concatenation are those of each part, one after the other. */
  lemma {:induction false} RegistrationsAppend(singleDevice: bool, c: Category, a: seq<Entity>, b: seq<Entity>,
                                               dimming: set<int>, colorTemp: set<int>)
    ensures Registrations(singleDevice, c, a + b, dimming, colorTemp)
         == Registrations(singleDevice, c, a, dimming, colorTemp) + Registrations(singleDevice, c, b, dimming, colorTemp)
    decreases |b|
  {
    if b != [] {
      var ab := a + b;
      assert ab[..|ab| - 1] == a + b[..|b| - 1];
      assert ab[|ab| - 1] == b[|b| - 1];
      RegistrationsAppend(singleDevice, c, a, b[..|b| - 1], dimming, colorTemp);
    } else {
      assert a + b == a;
    }
  }

  /** A configuration is published exactly for the admitted entities. */
  lemma {:induction false} RegisteredIff(singleDevice: bool, c: Category, es: seq<Entity>,
                                         dimming: set<int>, colorTemp: set<int>, m: Message)
    ensures m in Registrations(singleDevice, c, es, dimming, colorTemp)
        <==> exists e :: e in es && Admitted(c, e.pid) && m == ConfigMessage(singleDevice, e, dimming, colorTemp)
    decreases |es|
  {
    if es != [] {
      var init := es[..|es| - 1];
      var last := es[|es| - 1];
      assert es == init + [last];
      RegisteredIff(singleDevice, c, init, dimming, colorTemp, m);
      if m in Registrations(singleDevice, c, es, dimming, colorTemp) {
        if m !in Registrations(singleDevice, c, init, dimming, colorTemp) {
          assert last in es && Admitted(c, last.pid) && m == ConfigMessage(singleDevice, last, dimming, colorTemp);
        }
      } else {
        forall e | e in es && Admitted(c, e.pid)
          ensures m != ConfigMessage(singleDevice, e, dimming, colorTemp)
        {
          if e in init {
          } else {
            assert e == last;
          }
        }
      }
    }
  }

  lemma RegistrationsStep(singleDevice: bool, c: Category, es: seq<Entity>, i: nat, dimming: set<int>, colorTemp: set<int>)
    requires i < |es|
    ensures Registrations(singleDevice, c, es[..i + 1], dimming, colorTemp)
         == Registrations(singleDevice, c, es[..i], dimming, colorTemp)
          + (if Admitted(c, es[i].pid) then [ConfigMessage(singleDevice, es[i], dimming, colorTemp)] else [])
  {
    assert es[..i + 1][..i] == es[..i];
  }

  /** `mqtt_register_category`. */
  method RegisterCategory(singleDevice: bool, c: Category, es: seq<Entity>, caps: Capabilities, broker: Broker)
    modifies broker
    ensures broker.published == old(broker.published) + CategoryMessages(singleDevice, c, es, caps.dimming, caps.colorTemp)
  {
    if c.importing {
      ghost var dimming, colorTemp := caps.dimming, caps.colorTemp;
      var i := 0;
      while i < |es|
        invariant 0 <= i <= |es|
        invariant caps.dimming == dimming && caps.colorTemp == colorTemp
        invariant broker.published == old(broker.published) + Registrations(singleDevice, c, es[..i], dimming, colorTemp)
      {
        var e := es[i];
        RegistrationsStep(singleDevice, c, es, i, dimming, colorTemp);
        if Admitted(c, e.pid) {
          Register(singleDevice, broker, e, caps);
        }
        i := i + 1;
      }
      assert es[..|es|] == es;
    }
  }

  /** `set(group["devices"])`. */
  function MemberSet(group: Entity): set<string>
  {
    set d | d in group.devices
  }

  /** Every pid listed as a member of some group. */
  function GroupMembers(groups: seq<Entity>): set<string>
  {
    if groups == [] then {}
    else GroupMembers(groups[..|groups| - 1]) + MemberSet(groups[|groups| - 1])
  }

  lemma {:induction false} GroupMembersIff(groups: seq<Entity>, pid: string)
    ensures pid in GroupMembers(groups) <==> exists i :: 0 <= i < |groups| && pid in groups[i].devices
    decreases |groups|
  {
    if groups != [] {
      var init := groups[..|groups| - 1];
      GroupMembersIff(init, pid);
      if pid in GroupMembers(init) {
        var i :| 0 <= i < |init| && pid in init[i].devices;
        assert groups[i] == init[i];
      }
      if exists i :: 0 <= i < |groups| && pid in groups[i].devices {
        var i :| 0 <= i < |groups| && pid in groups[i].devices;
        if i < |init| {
          assert init[i] == groups[i];
        }
      }
    }
  }

  /** The devices policy after `exclude_in_group`: the old exclude set
      together with every group's members. */
  function ExcludingGroupMembers(devices: Category, groups: seq<Entity>): (r: Category)
    ensures r.importing == devices.importing && r.included == devices.included
    ensures r.excludeInGroup == devices.excludeInGroup
    ensures ExcludeOf(devices) <= ExcludeOf(r)
    ensures devices.excludeInGroup ==> ExcludeOf(r) == ExcludeOf(devices) + GroupMembers(groups)
    ensures !devices.excludeInGroup ==> r == devices
  {
    if devices.excludeInGroup then devices.(excluded := Some(ExcludeOf(devices) + GroupMembers(groups)))
    else devices
  }

  /** Re-registering (the hub coming back online) leaves the policy unchanged. */
  lemma ExcludingGroupMembersIdempotent(devices: Category, groups: seq<Entity>)
    ensures ExcludingGroupMembers(ExcludingGroupMembers(devices, groups), groups)
         == ExcludingGroupMembers(devices, groups)
  {
  }

  /** With `exclude_in_group`, a group member is not registered as a device
      unless it is listed in `include`. */
  lemma GroupMemberNotAdmitted(devices: Category, groups: seq<Entity>, i: nat, pid: string)
    requires devices.excludeInGroup
    requires i < |groups| && pid in groups[i].devices
    requires devices.included.None? || pid !in devices.included.value
    ensures !Admitted(ExcludingGroupMembers(devices, groups), pid)
  {
    GroupMembersIff(groups, pid);
  }

  /** The synthetic catch-all entity. */
  function AllEntity(name: string): Entity
  {
    Entity("avion_all", 0, 0, name, [])
  }

  /** `mqtt_register_lights`: groups, then devices under the updated policy,
      then the optional catch-all entity. */
  method RegisterLights(settings: Settings, location: Location, caps: Capabilities, broker: Broker)
    modifies settings, broker
    ensures settings.devices == ExcludingGroupMembers(old(settings.devices), location.groups)
    ensures broker.published == old(broker.published)
      + CategoryMessages(settings.singleDevice, settings.groups, location.groups, caps.dimming, caps.colorTemp)
      + CategoryMessages(settings.singleDevice, settings.devices, location.devices, caps.dimming, caps.colorTemp)
      + (if settings.all.Some?
         then [ConfigMessage(settings.singleDevice, AllEntity(settings.all.value), caps.dimming, caps.colorTemp)]
         else [])
  {
    var singleDevice := settings.singleDevice;
    RegisterCategory(singleDevice, settings.groups, location.groups, caps, broker);
    if settings.devices.excludeInGroup {
      var exclude := ExcludeOf(settings.devices);
      for i := 0 to |location.groups|
        invariant exclude == ExcludeOf(old(settings.devices)) + GroupMembers(location.groups[..i])
      {
        assert location.groups[..i + 1][..i] == location.groups[..i];
        exclude := exclude + MemberSet(location.groups[i]);
      }
      assert location.groups[..|location.groups|] == location.groups;
      settings.devices := settings.devices.(excluded := Some(exclude));
    }
    RegisterCategory(singleDevice, settings.devices, location.devices, caps, broker);
    if settings.all.Some? {
      Register(singleDevice, broker, AllEntity(settings.all.value), caps);
    }
  }

  /** With the default sets, product 97 dims only, 134 dims and has colour
      temperature, 167 has neither; an unlisted product gets a fallback name. */
  lemma DefaultCapabilityExamples(singleDevice: bool, e: Entity)
    ensures e.productId == 97 ==>
      var c := DiscoveryConfigFor(singleDevice, e, DEFAULT_DIMMING, DEFAULT_COLOR_TEMP);
      c.brightness && !c.colorMode && c.supportedColorModes.None?
    ensures e.productId == 134 ==>
      var c := DiscoveryConfigFor(singleDevice, e, DEFAULT_DIMMING, DEFAULT_COLOR_TEMP);
      c.brightness && c.colorMode && c.supportedColorModes == Some(["color_temp"])
    ensures e.productId == 167 ==>
      var c := DiscoveryConfigFor(singleDevice, e, DEFAULT_DIMMING, DEFAULT_COLOR_TEMP);
      !c.brightness && !c.colorMode && c.supportedColorModes.None?
    ensures ProductName(5) == "Unknown product (5)"
  {
  }
}
