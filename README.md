# avionmqtt core, modelled in Dafny

avionmqtt bridges an Avi-on Bluetooth mesh of lights to an MQTT broker and
Home Assistant. This project models the parts of the bridge that are pure
byte, record and string work, or small stateful steps around them:

- `common.dfy` (`Common`): Option/Result, bytes, a JSON value type, ASCII
  lower-casing and decimal numerals (Python's `str(int)`).
- `codec.dfy` (`Codec`): the `Verb`/`Noun` opcode tables, `create_packet`
  and its brightness / colour-temperature / read-all variants, and the two
  parsers `mesh_parse_command` and `mesh_parse_data`. The round trip
  "parse what we built" is proved for every address and value.
- `fragments.dfy` (`Fragments`): the split of an encrypted packet into a
  20-byte low write and a high write (`mesh_write_gatt`). It also has the
  notification callback's one-slot low-fragment store, modelled as the
  `GattLink` and `NotificationBuffer` classes. For packets delivered in
  order, it proves that every packet is reassembled exactly.
- `mqtt.dfy` (`Mqtt`): discovery configurations, state payloads and
  messages as records. `Broker` is a class whose `published` field lists
  every publication.
- `translator.dfy` (`Translator`): the command dispatch of `mesh_send`,
  including mired-to-kelvin conversion, the optimistic acknowledgement, and
  `mqtt_send_state`. It also composes the notification callback with
  parsing and publication.
- `registry.dfy` (`Registry`): the capability sets and their overrides,
  `mqtt_register`, the include/exclude admission rule of
  `mqtt_register_category`, and `mqtt_register_lights` with
  `exclude_in_group`.
- `scan.dfy` (`Scan`): `mac_ordered_by_rssi`. This is a stable sort on
  rssi, an in-place reverse, then lower-casing.
- `http.dfy` (`AvionHttp`): MAC address formatting and the device and group
  list projections. It also has the host normalisation and the credentials
  check done before the account is read.

Encryption, decryption, the BLE link, the MQTT client and HTTP are outside
the model. Wherever the code hands bytes to them, the model takes a function
parameter (`encrypt`, `decrypt`) or a value (an HTTP response, a scan
result).

Three behaviours of the code worth knowing:

- A packet is `10 + len(value)` bytes long: eight header bytes, the value,
  then two zero bytes.
- `(int)(1000000 / mired)` truncates, so mired 370 gives 2702 kelvin.
- `single_device` is read from the top level of the settings.

## Model

| member | source | states |
|---|---|---|
| Codec.VerbOf | src/avionmqtt/__init__.py:36-57 | a decoded verb carries exactly the code it was decoded from |
| Codec.VerbRoundTrip | src/avionmqtt/__init__.py:36-57 | every verb is recovered from its code (`Verb(v.value) == v`) |
| Codec.NounOfSound | src/avionmqtt/__init__.py:60-96 | a noun is decoded only from its own code |
| Codec.NounRoundTrip | src/avionmqtt/__init__.py:60-96 | every noun is recovered from its code |
| Codec.CreatePacket | src/avionmqtt/__init__.py:180-203 | packet length is 10 + value length; marker 0x73, verb, noun, a zero id byte, the value, then two zero bytes; an address below 32896 goes big-endian into the group field with a zero target, any other address goes byte-swapped into the target field with a zero group |
| Codec.NounOf | src/avionmqtt/__init__.py:60-96 | `Noun(code)`: a result only for codes in a byte; with NounOfSound and NounRoundTrip, exactly the enumeration's codes, each decoded to its own noun |
| Codec.BrightnessPacket | src/avionmqtt/__init__.py:226-227 | a 13-byte WRITE/DIMMING packet whose value bytes are the level then two zeros |
| Codec.ColorTempPacket | src/avionmqtt/__init__.py:217-223 | a 13-byte WRITE/COLOR packet whose value is the flag 1 then the kelvin value big-endian |
| Codec.ReadAllPacket | src/avionmqtt/__init__.py:346-348 | the poll request is a 13-byte READ/DIMMING packet to address 0: the header, three zero value bytes and the two zero trailer bytes |
| Codec.FromBytes | src/avionmqtt/__init__.py:314-325 | 0 for no bytes, and the big-endian value of one or two bytes |
| Codec.ParseData | src/avionmqtt/__init__.py:302-330 | no result for a single byte, an all-zero opcode, an unknown verb or noun, a noun other than DIMMING/COLOR, or a WRITE with no target bytes; a result exactly when none of those holds; the address comes from bytes 2-3 for a WRITE with target 0 and is the given target otherwise; DIMMING reads value byte 1 and COLOR value bytes 2-3 big-endian, with Python's short-slice behaviour |
| Codec.ParseCommand | src/avionmqtt/__init__.py:334-343 | no result without the 0x73 marker; with it, the inner parse of the rest, addressed to the caller's source for the local prefix (0x00, 0x80) and to the byte-swapped first two bytes otherwise |
| Codec.ShortInnerPayload | src/avionmqtt/__init__.py:305-329 | a one-byte inner payload [5] gives no result, on its own and behind the marker in a 4-byte notification |
| Codec.BrightnessRoundTrip | src/avionmqtt/__init__.py:226-227 | parsing a brightness packet built for any valid address gives back that address and level |
| Codec.ColorTempRoundTrip | src/avionmqtt/__init__.py:217-223 | parsing a colour-temperature packet built for any valid address gives back that address and kelvin value |
| Codec.ReadDimmingStatus | src/avionmqtt/__init__.py:302-343 | a READ/DIMMING status from node 256 parses to brightness 0 for node 256 |
| Fragments.Split | src/avionmqtt/__init__.py:210-211 | the low part has min(20, n) bytes and low ++ high is the packet |
| Fragments.FragmentWrites | src/avionmqtt/__init__.py:210-213 | exactly two writes, low characteristic first, whose data concatenates back to the packet |
| Fragments.GattLink.constructor | src/avionmqtt/__init__.py:206-214 | a fresh link has seen no writes |
| Fragments.GattLink.WritePacket | src/avionmqtt/__init__.py:206-214 | appends the two fragment writes in order and reports success |
| Fragments.Receive | src/avionmqtt/__init__.py:352-356 | a low notification overwrites the store; a high one reassembles stored ++ data exactly when a low fragment was stored, fails (missing low fragment) exactly when none was, and leaves the store as it was |
| Fragments.DeliverInOrder | src/avionmqtt/__init__.py:352-356 | when fragments arrive in the order they were written, each packet is stored then reassembled exactly, whatever was left in the store |
| Fragments.NotificationBuffer.constructor | src/avionmqtt/__init__.py:351-356 | a new connection has no stored low fragment |
| Fragments.NotificationBuffer.OnNotify | src/avionmqtt/__init__.py:352-356 | the callback's store update and outcome are those of `Receive` |
| Mqtt.Broker.constructor | src/avionmqtt/__init__.py:275-292 | a fresh broker connection has published nothing |
| Mqtt.Broker.Publish | src/avionmqtt/__init__.py:292 | appends exactly one publication |
| Translator.Kelvin | src/avionmqtt/__init__.py:236 | for positive mired, the largest k with k * mired <= 1000000; non-positive for negative mired |
| Translator.KelvinFits | src/avionmqtt/__init__.py:217-238 | the kelvin value fits two bytes exactly when mired >= 16 or mired < -1000000 |
| Translator.CommandPacket | src/avionmqtt/__init__.py:230-245 | no packet exactly when none of brightness, color_temp, state is present; a packet exactly when, in addition, the address fits two bytes and the key that takes precedence has an encodable value; the packet is the brightness packet for `brightness`, the colour-temperature packet of the converted kelvin for `color_temp`, and the brightness packet of 255 or 0 for `state`; parsing it gives back the requested level or kelvin |
| Translator.StatePublication | src/avionmqtt/__init__.py:275-292 | a retained message on the state topic exactly when a brightness or colour temperature is present; "ON" exactly when brightness is non-zero; colour temperature alone otherwise |
| Translator.AcknowledgementMatchesCommand | src/avionmqtt/__init__.py:247-250 | an encodable command is acknowledged with exactly one retained state message carrying what was commanded |
| Translator.MeshCommand | src/avionmqtt/__init__.py:231-243 | an object is dispatched as `CommandPacket`; only an object yields a packet; a number, boolean or null raises; a string or list is an unknown payload exactly when it holds none of the three keys (as substring or element), and raises otherwise |
| Translator.MeshCommandNonObjects | src/avionmqtt/__init__.py:231-243 | "state" as a string and a list holding "brightness" raise; "on" and [3] are unknown payloads; a bare number raises |
| Translator.MeshSend | src/avionmqtt/__init__.py:230-250 | the dispatch result of `MeshCommand` on the decoded JSON value; the two fragment writes of the sealed packet when there is one; then the acknowledgement publications |
| Translator.OnNotification | src/avionmqtt/__init__.py:352-360 | the store update of `Receive`, and a state publication only for a reassembled notification that is well framed after decryption (`WellFramed`) and recognised |
| Translator.BrightnessCommandExample | src/avionmqtt/__init__.py:230-250 | `{"brightness": 128}` to node 40000 gives a WRITE/DIMMING packet and `{"state": "ON", "brightness": 128}` on `hmd/light/avid/40000/state` |
| Translator.KelvinExamples | src/avionmqtt/__init__.py:236 | mired 250 gives 4000 and 370 gives 2702 |
| Registry.Capabilities.constructor | src/avionmqtt/__init__.py:22 | the default dimming and colour-temperature product sets |
| Registry.Capabilities.ApplyOverrides | src/avionmqtt/__init__.py:368-378 | the sets only grow; with overrides they become the old sets plus the listed ids; without overrides they are unchanged |
| Registry.Settings.constructor | src/avionmqtt/__init__.py:162-177 | the settings hold the given policies, the single-device flag and the optional catch-all name |
| Registry.DiscoveryConfigFor | src/avionmqtt/__init__.py:110-145 | component "light", schema "json", payloads "ON" and "OFF"; brightness and colour mode exactly by capability membership; supported modes ["color_temp"] exactly for colour-temperature products; object id `avid_<avid>`; the state, command and attributes topics; unique id, retain and effect false; the entity name only in single-device mode; the whole device block per mode (the bridge's, or the entity's pid, name, manufacturer, product name or fallback, and serial number) |
| Registry.ProductName | src/avionmqtt/__init__.py:140 | the listed product name, or for an unlisted id "Unknown product (" then the id's decimal numeral then ")" |
| Registry.Register | src/avionmqtt/__init__.py:110-149 | publishes exactly one unretained configuration on the entity's config topic |
| Registry.Admitted | src/avionmqtt/__init__.py:158 | an entity in `include` is admitted whatever `exclude` says; one not in `exclude` is admitted; without `include`, admitted exactly when not in `exclude` |
| Registry.RegistrationsAppend | src/avionmqtt/__init__.py:155-159 | registration keeps input order: the registrations of a concatenation are those of each part in turn |
| Registry.RegisteredIff | src/avionmqtt/__init__.py:155-159 | a configuration is published exactly for the entities that are in `include` or not in `exclude` |
| Registry.RegisterCategory | src/avionmqtt/__init__.py:152-159 | publishes the admitted entities' configurations in order when `import` is set, nothing otherwise |
| Registry.GroupMembersIff | src/avionmqtt/__init__.py:169-171 | a pid is in the collected set exactly when some group lists it as a member |
| Registry.ExcludingGroupMembers | src/avionmqtt/__init__.py:167-172 | with `exclude_in_group`, the exclude set becomes the old set plus every group's members; otherwise the policy is unchanged; the rest of the policy is kept |
| Registry.ExcludingGroupMembersIdempotent | src/avionmqtt/__init__.py:167-172 | widening the exclude set a second time (on re-registration) changes nothing |
| Registry.GroupMemberNotAdmitted | src/avionmqtt/__init__.py:155-173 | with `exclude_in_group`, a group member not in `include` is not registered as a device |
| Registry.RegisterLights | src/avionmqtt/__init__.py:162-177 | the devices policy is written back with the group members excluded; groups are published first, then devices under the new policy, then the optional catch-all entity |
| Registry.DefaultCapabilityExamples | src/avionmqtt/__init__.py:22-33 | product 97 dims only, 134 dims and has colour temperature, 167 has neither; an unlisted product is named "Unknown product (5)" |
| Scan.SortByRssi | src/avionmqtt/__init__.py:297 | the sorted positions, one per scanned device; SortPrefixSorted proves them ascending by (rssi, position) and a permutation |
| Scan.InsertAscending | src/avionmqtt/__init__.py:297 | stable insertion of a later position keeps the order ascending by (rssi, position) |
| Scan.SortPrefixSorted | src/avionmqtt/__init__.py:297 | the stable sort is ascending by (rssi, discovery position) and holds exactly the positions scanned |
| Scan.RssiOrderDescending | src/avionmqtt/__init__.py:297-298 | after the reverse, every scanned device appears exactly once, rssi is non-increasing, and equal rssi appear in reverse discovery order |
| Scan.ReverseInPlace | src/avionmqtt/__init__.py:298 | the array holds the reversal of its old contents |
| Scan.LowerMacs | src/avionmqtt/__init__.py:299 | the lower-cased addresses, one per position, in the given order |
| Scan.MacOrderedByRssi | src/avionmqtt/__init__.py:295-299 | the lower-cased addresses in the order proved by `RssiOrderDescending` |
| Scan.ScanExample | src/avionmqtt/__init__.py:295-299 | signals A:-80, B:-40, C:-60 come out as b, c, a |
| AvionHttp.Pairs | src/avionhttp/__init__.py:10-11 | n characters give n / 2 consecutive non-overlapping pairs |
| AvionHttp.FormatMac | src/avionhttp/__init__.py:9-12 | the output is empty exactly when the input has fewer than two characters; FormatMacShape and the lemmas after it give its layout |
| AvionHttp.FormatMacShape | src/avionhttp/__init__.py:9-12 | fewer than two characters give ""; 2n characters give 3n - 1, every third a colon, the others the lower-cased input in order |
| AvionHttp.FormatMacLowerCase | src/avionhttp/__init__.py:9-12 | the output contains no upper-case letter |
| AvionHttp.FormatMacRemoveColons | src/avionhttp/__init__.py:9-12 | removing the colons from the output gives the lower-cased input (less a trailing odd character), with its own colons removed too |
| AvionHttp.FormatMacOddLength | src/avionhttp/__init__.py:10-11 | an odd-length input formats as if its last character were absent |
| AvionHttp.FormatMacExample | src/avionhttp/__init__.py:9-12 | "A4C138" formats as "a4:c1:38" |
| AvionHttp.LoadDevices | src/avionhttp/__init__.py:42-50 | the loop builds the filtered projection of the raw list |
| AvionHttp.DevicesOf | src/avionhttp/__init__.py:42-50 | at most one record per raw entry; DevicesOfAppend and DevicesOfIff give its order and contents |
| AvionHttp.DevicesOfAppend | src/avionhttp/__init__.py:42-50 | the filter keeps relative order |
| AvionHttp.DevicesOfSound | src/avionhttp/__init__.py:42-50 | every produced record comes from a raw entry of type "device" |
| AvionHttp.DevicesOfComplete | src/avionhttp/__init__.py:42-50 | every raw entry of type "device" has its record produced |
| AvionHttp.DevicesOfIff | src/avionhttp/__init__.py:42-50 | a record is produced exactly when some raw entry of type "device" projects to it |
| AvionHttp.LoadGroups | src/avionhttp/__init__.py:60-64 | every group, in order, as avid and name |
| AvionHttp.NormalizeHost | src/avionhttp/__init__.py:99-100 | the host ends with "/", and "/" is appended exactly when it was missing |
| AvionHttp.AuthToken | src/avionhttp/__init__.py:104-106 | the invalid-credentials error exactly when "credentials" is absent; the token exactly when credentials is an object with "auth_token" |

## Left out

- Encryption and decryption (`csrmesh.crypto.make_packet`, `decrypt_packet`, `generate_key`, `random_seq`) are function parameters. The fresh random sequence number is folded into `encrypt`.
- BLE scanning and connections, the MQTT client, `mqtt_subscribe`'s topic routing, the main loop with its retries, the web server, and settings-file and argument parsing are all I/O.
- The HTTP request chain is out of scope (`http_make_request`, `http_load_location(s)`); responses are parameters.
- JSON is a small value type, not text: malformed text (`json.loads` raising) and numbers with a fraction (floating point) are not modelled. Only integer and boolean values are modelled for `brightness` and `color_temp`; Python accepts `bool` as an `int`.
- Translator.Kelvin: uses exact integer division. Python divides in floating point first; for integer mired that truncates to the same value, but float payloads are not modelled.
- Common.LowerChar: lower-cases ASCII letters only. Python's `str.lower` also folds non-ASCII letters.
- Exceptions raised inside the parsers and the callback are modelled as "no result" or "nothing published". The cases are short payloads, a high fragment before any low one, and codes with no enum member. Exceptions that escape `mesh_send` for out-of-range values are `Command.Failed`. The logging around them is omitted.
- Codec.CreatePacket: requires an address in [0, 65535]. Outside that range Python's `to_bytes(2)` raises; `mesh_send` models that path as `Failed`.
- Codec.ParseData and Codec.ParseCommand: require the bytes the code reads before its `try` block. For the inner payload that is byte 0, and byte 1 when byte 0 is zero. For the envelope it is bytes 0-2, then those inner bytes after the marker. Shorter input raises in Python. A single non-zero inner byte is not excluded: it fails inside the `try` and gives no result.
- `http_load_devices` and `http_load_groups` produce records without `pid`, `product_id` or `devices`, and the registry reads all three. Registry entities take those fields as given.
- Raw HTTP records are typed records; a missing key (a `KeyError` in Python) is not modelled.
- `include` and `exclude` are sets. If `exclude` comes from the settings file as a list, `exclude |= set(...)` would raise, and that is not modelled.
- The RSSI order is computed, but the main loop passes it through `set(...)` (src/avionmqtt/__init__.py:429), which discards the order. The connection order is outside the model.
