# TemperatureDaemon core, modelled in Dafny

TemperatureDaemon polls DS18x20 thermometers on one or more OneWire buses
("wires", each a USART device). The daemon keeps a registry of the wires
given on its command line. For every wire a worker opens the bus driver,
enumerates the thermometers on it and reads each one's scratchpad and
temperature. The collected snapshot is then published in up to three forms:

- a TSV file with a bus table and a thermometer table;
- a JSON document with a `devices` and a `thermometers` array;
- MQTT messages: one per wire, and three per thermometer (scratchpad,
  temperature, info).

Every form numbers the thermometers with one running index that the wires
share.

The project has one module per concern:

- `TempTypes` (`temp_types.dfy`): the records of `temp_types.h`. The growth
  steps, the 8-byte ROM code, the 9-byte scratchpad and its named byte
  positions, the thermometer record, and `WireView`, which is what a writer
  reads from a wire.
- `Format` (`format.dfy`): the `printf` pieces the writers use. These are
  `snprintf` cutting to a buffer, `%d`, `%02X` runs with and without colons,
  and tab or comma separated fields. Each comes with a parser and a
  round-trip lemma.
- `Snapshot` (`snapshot.dfy`): the wire-major walk that the three writers
  share, with its running index `t`.
- `Files` (`files.dfy`): the temporary `<file>.tmp` name, `rename`, and
  writing into a file opened without `O_TRUNC`.
- `Daemon` (`daemon.dfy`): the wire registry (`Registry`, growing in steps of
  `WIRE_COUNT_STEP`) and the per-wire passes (`Wire`). The driver's answers
  are an oracle value, `Bus`.
- `TsvOutput`, `JsonOutput`, `MqttOutput` (`tsv.dfy`, `json.dfy`,
  `mqtt.dfy`): each writer is a method with the source's nested loops and
  running index. Each method is proved equal to a specification function.
  The lemmas then state what the output contains, where each thermometer
  appears, how it reads back, and what each I/O failure does to the files
  and the return code.

The writers take the snapshot as a value (`seq<WireView>`): they only read
the registry.

Inputs the model takes as parameters:

- the `%.4f` and `%.5f` rendering of a temperature (`fmt4`, `fmt5`);
- what each `write`, `open` and `rename` call does (`TsvIo`, `JsonIo`);
- whether an allocation succeeds (`reallocOk`, `urlAllocated`);
- the driver's replies (`Bus`).

## Model

| member | source | states |
|---|---|---|
| TempTypes.ScratchpadFieldsInOrder | src/mqtt_output.c:122-125 | the nine named scratchpad bytes SCR_L ... SCR_CRC, printed in that order, are the whole scratchpad in storage order, each byte once |
| Format.Truncate | src/mqtt_output.c:98-100 | `snprintf` into a buffer of `size` leaves a prefix of the formatted text: the whole text when it is shorter than the buffer, otherwise exactly its first `size - 1` characters |
| Format.IntStringRoundTrip | src/temp_output_tsv.c:40-42 | a `%d` rendering parses back to the same integer |
| Format.HexRunRoundTrip | src/mqtt_output.c:19 | a run of `%02X` pairs parses back to the same bytes |
| Format.AddressTextRoundTrip | src/temp_output_json.c:36-42 | the colon-separated `%02X` ROM code (23 characters) parses back to the eight address bytes |
| Format.ScratchpadTextRoundTrip | src/temp_output_tsv.c:67-80 | the colon-separated scratchpad (26 characters) parses back to the nine scratchpad bytes |
| Files.TmpName | src/temp_output_tsv.c:22 | the temporary name is `<file>.tmp` whenever that fits the buffer, which makes it differ from the target, and it is always shorter than the buffer |
| Files.Rename | src/temp_output_tsv.c:94 | after `rename` the target holds the source's content, the source is gone and every other path is unchanged; a missing source changes nothing |
| Files.Overwrite | src/temp_output_tsv.c:24 | a file opened without `O_TRUNC` starts with the new bytes, and what it held beyond them survives |
| Snapshot.EntryAt | src/temp_output_tsv.c:60-90 | thermometer `j` of wire `i` is step `CountUpTo(i) + j` of the walk, numbered with that index and tagged with wire `i` |
| Snapshot.EntriesOrigin | src/temp_output_json.c:16-59 | the walk has one step per thermometer; step `k` carries number `k` and the wire it comes from, and holds that wire's thermometer at offset `k - CountUpTo(wire)` |
| Snapshot.EntriesWireMajor | src/mqtt_output.c:94-110 | along the walk the owning wire index never decreases |
| Daemon.Wire.constructor | src/main.c:141-142 | a new wire records its device path and has no thermometer array |
| Daemon.Wire.InitWire | src/main.c:274-294 | returns 0 when the driver opens and -1 otherwise; the driver is held afterwards exactly when it opened |
| Daemon.Wire.CollectThermometers | src/main.c:305-341 | -1 with no array when the one-time reallocation fails. Otherwise 0: `thermo_count` becomes the number of addresses found and slot `k` below it holds the `k`-th address found. `thermo_max` never changes, so with a nonzero `thermo_max` the count stays within it, while after the reallocation path a nonempty bus leaves `thermo_count > thermo_max`. When `thermo_max` was 0 the array is a fresh one of THERMO_COUNT_STEP slots; otherwise it is kept and only the addresses of its first slots change |
| Daemon.CollectOverrunsAfterSetup | src/main.c:314-334 | on a wire as setup leaves it (`thermo_max` 5, the array's size), a bus with six thermometers does not fit: the search's sixth store is at index 5, the array's length |
| Daemon.Wire.CollectThermometersGrowing | src/main.c:305-341 | discovery with the capacity checked before each found address is stored: -1 exactly when reallocation fails and the bus has more than `thermo_max` thermometers; otherwise every address is stored in order and `thermo_count <= thermo_max`, the array's size, whatever the bus holds |
| Daemon.Wire.GrowingAcceptsWhatFits | src/main.c:314-334 | a bus that fits a wire with a nonzero `thermo_max` (what the code as written requires) needs no growth, so the corrected discovery succeeds on it even when reallocation would fail |
| Daemon.Wire.ReadTemperatures | src/main.c:343-398 | a failed conversion returns -1 and touches nothing. Otherwise every thermometer below `thermo_count` is refreshed from its reply, status 1 with the decoded temperature on success, status 0 with the old temperature on failure. The result is 0 exactly when every status is 1 and -2 otherwise; slots above the count are untouched |
| Daemon.Wire.TempThread | src/main.c:249-272 | `tret` is -1 exactly when discovery failed. Otherwise it is 0 and each discovered thermometer holds its address and, after a successful conversion, its reply's scratchpad, status and temperature. `View()` lists exactly the discovered addresses. `thermo_max` and `status` keep their values; with a nonzero `thermo_max` the array is kept, each discovered slot is its old record with the new address, refreshed when the conversion succeeded (keeping the old temperature on a failed read), and the slots above the count are untouched. The init result is ignored |
| Daemon.Registry.constructor | src/main.c:101-107 | the registry starts with room for WIRE_COUNT_STEP wires and none registered |
| Daemon.Registry.AppendDevice | src/main.c:130-144 | appending grows the array by WIRE_COUNT_STEP exactly when it is full. Earlier wires are kept, and the device list becomes the old list plus the new path |
| Daemon.Registry.SetupThermometers | src/main.c:205-208 | every registered wire gets a fresh array of THERMO_COUNT_STEP thermometers, count 0 and max THERMO_COUNT_STEP; the device list and each wire's `status`, `tret` and driver are unchanged |
| TsvOutput.WriteThermoTable | src/temp_output_tsv.c:60-90 | the nested loops append the thermometer rows in walk order, stopping at the first failing write, and report whether one failed |
| TsvOutput.WriteTables | src/temp_output_tsv.c:31-90 | the successful writes are exactly the full write list up to the first failure; the code is the one that failure's step returns, or 0 |
| TsvOutput.OutTsv | src/temp_output_tsv.c:16-97 | the return code and the file system equal `TsvOutcome`: open failure is -1; written lines go to `<file>.tmp` over its old content; the rename happens only after all writes |
| TsvOutput.TsvLayout | src/temp_output_tsv.c:31-90 | a full run is the bus header, one line per wire in index order, the thermometer header, then one line per walk step: `wire_count + 2 + total` writes |
| TsvOutput.TsvThermoLineAt | src/temp_output_tsv.c:60-90 | thermometer `j` of wire `i` is written at line `wire_count + 2 + CountUpTo(i) + j`, with number `CountUpTo(i) + j` and wire `i` |
| TsvOutput.TsvTextSections | src/temp_output_tsv.c:31-58 | the file text is the bus header, the bus lines, the blank-line-led thermometer header, and the thermometer lines, concatenated |
| TsvOutput.DeviceLineRoundTrip | src/temp_output_tsv.c:40-42 | for a device path without tabs, a bus line that fits the buffer parses back to the wire index, device path, status and thermometer count |
| TsvOutput.ThermoLineRoundTrip | src/temp_output_tsv.c:67-80 | a thermometer line that fits the buffer parses back to its number, wire index, ROM code bytes, scratchpad bytes and temperature text |
| TsvOutput.ThermoLineLength | src/temp_output_tsv.c:67-80 | a thermometer line is 54 characters plus its two indices and the temperature text |
| TsvOutput.TsvSucceedsIff | src/temp_output_tsv.c:16-97 | `out_tsv` returns 0 exactly when the open and every one of the `wire_count + 2 + total` writes succeed |
| TsvOutput.TsvErrorCodes | src/temp_output_tsv.c:26-88 | -1, -2, -3 and -4 are returned exactly when the first failure is, respectively, the open or the bus header, a bus line, the thermometer header, or a thermometer line |
| TsvOutput.TsvFailureKeepsTarget | src/temp_output_tsv.c:26-88 | for a name of at most 123 characters (so `<file>.tmp` fits the 128-byte buffer), a failed run changes no path but `<file>.tmp`; the target keeps its content |
| TsvOutput.TsvSuccessPublishes | src/temp_output_tsv.c:94-96 | for a name of at most 123 characters, after a fully successful run the target starts with the snapshot text, and equals it when no `<file>.tmp` existed; an older, longer temporary file's tail survives after the text. The temporary file is gone and other paths are unchanged |
| TsvOutput.TsvRenameFailureUnreported | src/temp_output_tsv.c:94-96 | for a name of at most 123 characters, a failing rename still returns 0; the target is unchanged and the text stays in `<file>.tmp` |
| TsvOutput.TsvLongNameClobbersTarget | src/temp_output_tsv.c:22-42 | with a 127-character name the temporary name is the target itself, so a run whose first bus line fails returns an error with the bus header already written over the target |
| JsonOutput.BuildDocument | src/temp_output_json.c:13-66 | the nested loops build the document `JsonDoc`: one device object per wire and one thermometer object per walk step, in walk order |
| JsonOutput.OutJson | src/temp_output_json.c:9-75 | always returns 0. The file system becomes `JsonOutcome`: the dumped prefix of the text replaces `<file>.tmp` when it opens, then the rename runs whatever happened |
| JsonOutput.JsonObjectsWellFormed | src/temp_output_json.c:18-59 | the top object, every device object and every thermometer object has distinct keys |
| JsonOutput.JsonDocShape | src/temp_output_json.c:63-66 | the document has exactly the keys `devices` and `thermometers`, holding the two arrays |
| JsonOutput.DeviceObjectFields | src/temp_output_json.c:19-24 | a device object has keys `num`, `device`, `status`, `thermo_count`, in that order, holding the wire index, path, status and thermometer count |
| JsonOutput.ThermoObjectFields | src/temp_output_json.c:29-42 | a thermometer object holds the step number, wire index and status, and an address string that parses back to the ROM code |
| JsonOutput.ThermoObjectReading | src/temp_output_json.c:44-53 | `scratchpad` and `temperature` are present exactly when the status is not FAIL; then the temperature is the reading and the scratchpad parses back to its bytes |
| JsonOutput.JsonThermometerAt | src/temp_output_json.c:26-56 | thermometer `j` of wire `i` is item `CountUpTo(i) + j` of `thermometers`, numbered so and tagged with wire `i` |
| JsonOutput.JsonPublishes | src/temp_output_json.c:61-72 | for a name of at most 123 characters, a complete dump and a successful rename leave exactly the dumped text at the target, no temporary file, and other paths unchanged |
| JsonOutput.JsonPublishesPartialDump | src/temp_output_json.c:68-72 | for a name of at most 123 characters, a dump cut short is still renamed over the target, which then holds a strict prefix of the document text |
| JsonOutput.JsonPublishesStaleTmp | src/temp_output_json.c:68-72 | for a name of at most 123 characters, when the dump cannot create its file, an older `<file>.tmp` replaces the target, and without one nothing changes |
| JsonOutput.JsonLongNameDumpsOverTarget | src/temp_output_json.c:61-72 | with a 127-character name the temporary name is the target itself, so the target holds whatever part of the document the dump wrote, rename or not |
| MqttOutput.MqttClient.constructor | src/mqtt_output.c:27-32 | before `mqtt_open` there is no topic base, no last-will topic, no connect request and nothing sent |
| MqttOutput.MqttClient.Open | src/mqtt_output.c:42-77 | the topic base is always stored. When the URL buffer is allocated, the last-will topic is `<base>/lwt` (cut to the buffer) and a connect is requested with URL `tcp://server:port`, client id `temp_daemon`, keep-alive 60, clean session and will "offline". Otherwise nothing else changes |
| MqttOutput.MqttClient.OnConnect | src/mqtt_output.c:184-195 | the connect callback sends exactly one message, "online" on the last-will topic |
| MqttOutput.MqttClient.Send | src/mqtt_output.c:79-174 | `mqtt_send` appends exactly `SendMessages(base, wires)` to what was sent, and changes nothing else |
| MqttOutput.MqttClient.SendWire | src/mqtt_output.c:94-172 | one outer pass sends wire `i`'s device message then three messages per thermometer, and leaves `t` at `CountUpTo(i + 1)` |
| MqttOutput.ThermoRunAt | src/mqtt_output.c:110-171 | step `k` of a run of thermometers owns messages `3k`, `3k + 1`, `3k + 2`, in scratchpad, temperature, info order |
| MqttOutput.SendCount | src/mqtt_output.c:94-110 | one send publishes `wire_count + 3 * total` messages |
| MqttOutput.SendDeviceAt | src/mqtt_output.c:96-105 | wire `i`'s device message is message `i + 3 * CountUpTo(i)`, on `<base>/device/<i>`, with the wire's path, status and count |
| MqttOutput.SendThermometerAt | src/mqtt_output.c:110-168 | thermometer `j` of wire `i` (step `t = CountUpTo(i) + j`) owns messages `i + 1 + 3t` to `i + 3 + 3t`. They go to its own scratchpad, temperature and info topics, and the info carries `t` and `i` |
| MqttOutput.WireMessagesAt | src/mqtt_output.c:110-171 | within wire `i`'s messages, thermometer `j`'s three follow the device message and `j` earlier triples |
| MqttOutput.DeviceTopicRoundTrip | src/mqtt_output.c:17 | a device topic that fits is `<base>/device/<i>` and parses back to `i` |
| MqttOutput.SensorTopicRoundTrip | src/mqtt_output.c:13-16 | a sensor topic that fits is `<base>/ds18x20/` + 16 upper-case hex digits + `/<leaf>` and parses back to the ROM code and leaf |
| MqttOutput.LwtTopicShape | src/mqtt_output.c:61 | with a base that fits, the last-will topic is `<base>/lwt` |
| MqttOutput.TopicNotLwt | src/mqtt_output.c:13-17 | for a base of at most 251 characters, no device or sensor topic equals the last-will topic of its base |
| MqttOutput.LongBaseHitsLwt | src/mqtt_output.c:13-17 | with a base of 254 characters or more every device and sensor topic is cut to the first 255 characters of `<base>/`, which is also the cut last-will topic, so data is published on the last-will topic |
| MqttOutput.SendAvoidsLwt | src/mqtt_output.c:79-174 | for a base of at most 251 characters, every message a send publishes goes to a device or sensor topic, never to the last-will topic |
| MqttOutput.InfoPayloadRoundTrip | src/mqtt_output.c:21 | an info payload that fits the 64-byte buffer parses back to the step number, wire index and status |
| MqttOutput.DeviceInfoPayloadRoundTrip | src/mqtt_output.c:22 | a device payload that fits parses back to the path, status and thermometer count (a path without commas) |
| MqttOutput.ScratchpadPayload | src/mqtt_output.c:122-125 | the scratchpad payload is 18 upper-case hex digits that parse back to the nine bytes |
| MqttOutput.PayloadCut | src/mqtt_output.c:24-25 | a formatted payload goes out whole exactly when it is shorter than 64 characters, and otherwise as its first 63 |

## Left out

- Command-line parsing, daemonisation, the periodic loop, `sleep`, thread creation and joining (`pthread_*`), `release_wires`, `unlink` and `print_address` are not modelled. Each worker is modelled as one sequential call on its own wire.
- Logging (`printf`/`perror`/`syslog`) is left out, including the failure message of `read_temperatures`, which names the registry's first device rather than the failing wire.
- The OneWire/Dallas driver (`owu_*`, `ds_*`, `init_driver_linux_usart`) is an oracle `Bus`. `ds_get_temp_c` is the parameter `tempC`, and the constants from `dallas.h` are taken as scratchpad positions 0 to 8, length 9 and FAIL status 0.
- Temperatures are exact reals. Float rounding and the `%.4f`/`%.5f` renderings are not modelled: they are the parameters `fmt4` and `fmt5`.
- The JSON library is reduced to the value it is given. Its text layout, escaping and the indentation of `json_dump_file` are the parameter `JsonIo.dump`, and a `json_string` that fails on invalid UTF-8 is not modelled.
- The MQTT client library is not modelled:
  - a publish is an entry in `MqttClient.outbox`;
  - QoS 1 and the retained flag are not recorded;
  - the busy-wait on `published` and the `onSend`/`onSendFail` callbacks that end it are left out;
  - `onConnectFailure`, `onDisconnect` and `mqtt_close` are left out;
  - the return codes of `MQTTAsync_create`/`MQTTAsync_connect` (ignored by the source) are left out.
- Allocation failures are modelled only for the discovery reallocation and the MQTT URL buffer. The startup `malloc`/`realloc` of the wire array and the per-wire thermometer `malloc` at setup are assumed to succeed; their failure is only logged, or ends the daemon.
- Short writes (a `write` that sends fewer bytes than asked) are not modelled: each `write` either sends its whole line or fails.
- Daemon.Wire.CollectThermometers: requires `SearchFits`, i.e. that the bus enumerates no more thermometers than the array holds. Past that the source writes beyond the array, which is undefined and not modelled; the overrun is shown by `Daemon.CollectOverrunsAfterSetup` and corrected in `Daemon.Wire.CollectThermometersGrowing` (see Findings).
- Daemon.Wire.Valid: states `thermo_count <= thermo_max` nowhere as an invariant, because the source breaks it on the reallocation path (`thermo_max` stays 0); it bounds both counters by the array and makes a nonzero `thermo_max` the array's size. `CollectThermometers` states both sides.
- Daemon.Wire.TempThread: requires `SearchFits` for the same reason.
- TsvOutput.OutTsv: requires `LinesFit`, i.e. that no formatted line is longer than the 88-byte buffer. `write` is given the formatted length, so a longer line reads past the buffer. A line of exactly 88 characters is modelled as sent: 87 characters and the terminating NUL.
- Strings are sequences of characters and every buffer size is compared with their length: device paths, file names, the topic base and the server name are taken to be NUL-free ASCII, so one character is one byte. A multi-byte character would make the source cut a text earlier than the model does, and an embedded NUL would end a C string early.
- Names of 124 to 127 characters make `<file>.tmp` cut to the 128-byte buffer, so the temporary path is a shortened name or the target itself. The failure and publication lemmas of both file writers assume names of at most 123 characters; `TsvLongNameClobbersTarget` and `JsonLongNameDumpsOverTarget` show the 127-character case. Longer names are not characterised further.
- The driver's search step that finds nothing is taken to write nothing into the slot it is given. At main.c:326 that slot is one past the last address found, so `SearchFits` lets a bus fill the array exactly. `CollectThermometersGrowing` makes the same assumption and grows only for a found address that has no slot. The driver is not part of this model.
- Topic bases of 252 characters or more make the 256-byte topic buffer cut device and sensor topics near or onto the last-will topic. `TopicNotLwt` and `SendAvoidsLwt` assume at most 251 characters; `LongBaseHitsLwt` shows the collision for 254 characters or more. Bases of 252 and 253 characters are not characterised further.
- MqttClient fields: `main_topic` is a NULL pointer before `mqtt_open`, modelled as the empty string.

## Findings

| source | as written | input that shows it | evidently intended | confidence | as-written member | corrected member |
|---|---|---|---|---|---|---|
| src/main.c:314-334 | discovery checks the capacity once, before the search, and never raises `thermo_max`; the search loop then stores addresses without a bound | a wire as setup leaves it (`thermo_max` 5, five slots) on a bus with six thermometers: the sixth address is stored at index 5, past the array | check the capacity before each found address is stored and grow the array by THERMO_COUNT_STEP, raising `thermo_max` with it | medium, not executed | Daemon.CollectOverrunsAfterSetup | Daemon.Wire.CollectThermometersGrowing |

The worker `Daemon.Wire.TempThread` keeps the discovery as written, under `SearchFits`, because it models the daemon as it runs.
