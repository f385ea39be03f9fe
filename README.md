# KiLL local network: request handling

A model of `LocalNetwork`, the component of the KiLL smart-boiler controller
(an ESP32 project) that serves the device's local HTTP API. A companion app
provisions the device once with Wi-Fi credentials and an app id (`POST /setup`).
After that it sends authenticated requests to switch the boiler on or off, set its
target temperature (`POST /command`), read its status (`POST /status`) or reset the
device to factory settings (`POST /kill_reset_factory`). `GET /` and `GET /local`
answer with fixed text, and any other route gets 404.

The model is written in two layers:

- `Handlers` (handlers.dfy) gives each handler as a function from the device state
  (`Protocol.Device`) and a request body to the new state and an ordered list of
  effects: responses sent, credentials written to memory, factory reset triggered.
  These functions' contracts state the rules the handlers keep:
  - one response per request;
  - setup only on an unprovisioned device, checked before the body is looked at;
  - authentication before any change;
  - target temperature bounds [minimum, maximum], both inclusive;
  - an unknown command is a 200 no-op;
  - acknowledge first, then write or reset.

  `Run` folds `Handle` over a sequence of requests. The lemmas next to it prove the
  same rules for whole runs.
- `Server` (server.dfy) holds the class `LocalNetwork`, with the collaborators' state
  as plain fields and a `trace` of effects. Its methods are the handlers, written as
  in the source: early returns, calls to `server.send`, `Memory::write` and the
  factory reset. Each method is proved to produce exactly the state and trace its
  `Handlers` function gives.

`Mdns` (mdns.dfy) models the mDNS retry loop of `setupLocalNetwork` over an
abstract sequence of `MDNS.begin` outcomes. `Names` (names.dfy) gives the network
name and host URL built from the device id. `Protocol` (protocol.dfy) holds the
request, response and effect values. `Wrappers` (wrappers.dfy) holds `Option`.

Collaborators whose code is not part of this model appear as the following:

- `Utils::verifyRequest` is the `authentic` flag of a parsed document.
- ArduinoJson deserialisation is the three-way `Body` (absent, unparsable, a `Document`).
- `String::toInt` is the integer `value` of a document.
- `Memory` is an `Option<Record>`.
- `KiLL::resetToFactorySettings` is a flag and a `ResetToFactory` effect.
- The boiler and the display are plain fields.
- `WiFi.status()` and the two addresses are a `Wifi` value.
- `KiLL::MAXIMUM_TEMPERATURE` and `MAX_MDNS_RETRIES` are declared in headers that
  are not part of this model. They appear as the parameters `maxTemperature` and
  `maxRetries`.

Where the design description and the code differ, the model follows the code.
A `value` that is not a number becomes 0 through `toInt`, and 0 is accepted
whenever the boiler's minimum is at most 0. Factory reset is handed entirely to
`KiLL::resetToFactorySettings`; this component does not clear the record itself.

## Model

| member | source | states |
|---|---|---|
| Handlers.CheckRequestData | lib/LocalNetwork/LocalNetwork.cpp:106-123 | accepts exactly a body that is present and parses, returning its document; no body gives 400 "No Data", unparsable text 400 "Invalid Data" |
| Handlers.Setup | lib/LocalNetwork/LocalNetwork.cpp:137-187 | one response; a provisioned device answers 400 "KiLL already setup." whatever the body and changes nothing; otherwise the body check's error; the record changes iff the device is fresh and ssid, password and appId are all non-empty, and then the effects are 200 OK followed by the write of exactly those three; otherwise 400 "Missing Data" and nothing written |
| Handlers.ResetFactory | lib/LocalNetwork/LocalNetwork.cpp:189-199 | one response; an authenticated request gives 200 OK and then the factory reset; any other gives the gate's error and changes nothing; the reset flag changes only when authenticated |
| Handlers.Command | lib/LocalNetwork/LocalNetwork.cpp:201-231 | one response, no memory write; unauthenticated requests change nothing; only isOn, target and display can change; a changed target lies in [minimum, maximum] and the display shows it; the invariant minimum <= target <= maximum is preserved; turn_on/turn_off set isOn; set_temperature answers 200 iff the parsed value is in range, and otherwise 400 echoing the parsed integer with nothing changed; any other command is a 200 no-op |
| Handlers.Status | lib/LocalNetwork/LocalNetwork.cpp:233-247 | changes nothing; one response; unauthenticated requests get the gate's error; authenticated ones get 200 with target, current, isOn and minimum as they are, and the station address when connected, the soft-AP address otherwise; under the invariant the reported minimum is at most the reported target |
| Handlers.RouteOf | lib/LocalNetwork/LocalNetwork.cpp:59-66 | a bound (method, path) pair goes to its handler, any other pair to not-found |
| Handlers.Handle | lib/LocalNetwork/LocalNetwork.cpp:125-247 | every request gets exactly one response; device id, maximum, network, current temperature and minimum never change; the target invariant is preserved; a provisioned record never changes and is never rewritten; from a fresh device the writes are exactly the record it ends up with; an unauthenticated request changes nothing but the record |
| Handlers.RunRespondsOncePerRequest | lib/LocalNetwork/LocalNetwork.cpp:106-247 | a run of n requests sends exactly n responses |
| Handlers.RunKeepsTargetInRange | lib/LocalNetwork/LocalNetwork.cpp:215-228 | minimum <= target <= maximum holds after any run that starts with it |
| Handlers.RunWritesAtMostOnce | lib/LocalNetwork/LocalNetwork.cpp:137-186 | any run writes memory at most once; never once provisioned, and then the record is unchanged; from a fresh device it writes exactly the final record, if any |
| Handlers.RunWithoutAuthentication | lib/LocalNetwork/LocalNetwork.cpp:189-247 | a run with no authenticated request leaves boiler, display and reset flag unchanged; only setup's record can change |
| Handlers.SecondSetupRejected | lib/LocalNetwork/LocalNetwork.cpp:137-142 | after a setup that stored a record, any further setup, whatever its body, answers 400 "KiLL already setup." and changes nothing |
| Handlers.SetThenStatusReportsTarget | lib/LocalNetwork/LocalNetwork.cpp:215-247 | an in-range set_temperature answers 200 and a following status request reports that target |
| Server.LocalNetwork.constructor | lib/LocalNetwork/LocalNetwork.cpp:7 | starts from the given collaborator state, with no reset and an empty trace |
| Server.LocalNetwork.CheckRequestData | lib/LocalNetwork/LocalNetwork.cpp:106-123 | returns true and sends nothing for a parsable body; otherwise sends the one 400 response and returns false |
| Server.LocalNetwork.HandleRoot | lib/LocalNetwork/LocalNetwork.cpp:125-127 | sends 200 "KiLL" |
| Server.LocalNetwork.HandleLocal | lib/LocalNetwork/LocalNetwork.cpp:129-131 | sends 200 with the device id |
| Server.LocalNetwork.HandleNotFound | lib/LocalNetwork/LocalNetwork.cpp:133-135 | sends 404 "Not found" |
| Server.LocalNetwork.HandleSetup | lib/LocalNetwork/LocalNetwork.cpp:137-187 | new state and appended trace are exactly those of Handlers.Setup |
| Server.LocalNetwork.HandleResetFactory | lib/LocalNetwork/LocalNetwork.cpp:189-199 | new state and appended trace are exactly those of Handlers.ResetFactory |
| Server.LocalNetwork.HandleCommand | lib/LocalNetwork/LocalNetwork.cpp:201-231 | new state and appended trace are exactly those of Handlers.Command |
| Server.LocalNetwork.HandleStatus | lib/LocalNetwork/LocalNetwork.cpp:233-247 | state unchanged; appended trace is exactly that of Handlers.Status |
| Server.LocalNetwork.Serve | lib/LocalNetwork/LocalNetwork.cpp:59-66 | dispatches by method and path; new state and trace are those of Handlers.Handle |
| Mdns.SetupLocalNetwork | lib/LocalNetwork/LocalNetwork.cpp:81-98 | the loop ends with the counter at the first success or at MAX_MDNS_RETRIES + 1, every earlier call having failed; it restarts iff the counter reached MAX_MDNS_RETRIES, that is iff the first MAX_MDNS_RETRIES calls all failed |
| Mdns.CounterAfterIsFirstSuccess | lib/LocalNetwork/LocalNetwork.cpp:85-90 | the counter stops at the first successful call, bounded by MAX_MDNS_RETRIES + 1, and all calls before it failed |
| Mdns.RestartsAsWrittenIff | lib/LocalNetwork/LocalNetwork.cpp:86-94 | the restart test as written holds iff the first MAX_MDNS_RETRIES calls failed |
| Mdns.StartedYetRestarts | lib/LocalNetwork/LocalNetwork.cpp:86-94 | when only the call with the counter at MAX_MDNS_RETRIES succeeds, the responder is running and the device restarts anyway |
| Mdns.FourthCallSucceedsYetRestarts | lib/LocalNetwork/LocalNetwork.cpp:86-94 | with MAX_MDNS_RETRIES = 3 and a success on the fourth call, the device restarts |
| Mdns.SetupLocalNetworkChecked | lib/LocalNetwork/LocalNetwork.cpp:81-98 | the same loop with the restart decided by the last outcome: it restarts iff the responder did not start, that is iff every call made failed |
| Names.SSID | lib/LocalNetwork/LocalNetwork.cpp:13-15 | the network name is "KiLL-" followed by the device id |
| Names.Hostname | lib/LocalNetwork/LocalNetwork.cpp:9-11 | the host URL is "http://" + the network name + ".local/" |
| Names.SSIDInjective | lib/LocalNetwork/LocalNetwork.cpp:13-15 | distinct device ids give distinct network names |

## Findings

| source | as written | input that shows it | evidently intended | confidence | as-written member | corrected member |
|---|---|---|---|---|---|---|
| lib/LocalNetwork/LocalNetwork.cpp:86-92 | the loop retries while the counter is `<=` MAX_MDNS_RETRIES, but the device restarts when the counter is `>=` MAX_MDNS_RETRIES; the outcome of the last call is never looked at | MAX_MDNS_RETRIES = 3, `MDNS.begin` fails three times and succeeds on the fourth call: the counter stops at 3, the responder is running, and the device restarts | restart only when the responder did not start | medium; not executed | Mdns.StartedYetRestarts | Mdns.SetupLocalNetworkChecked |

## Left out

- Access point configuration, start and stop (lib/LocalNetwork/LocalNetwork.cpp:35-57), and the station connect/disconnect callbacks (17-33): radio I/O and logging only.
- Server start, stop and polling (59-79, 100-102): library plumbing. Of `setupServer`, only the route table and its not-found default are modelled (`Handlers.RouteOf`).
- All `Serial` logging, the `source` label passed to `checkRequestData`, and `delay(1000)` in the mDNS loop.
- JSON and number parsing: ArduinoJson and `String::toInt` are abstract parse outcomes (`Body`, `Document.value`). The 32-bit width of `int temperature` is not modelled: the value arrives already parsed as an unbounded integer.
- The byte layout of the JSON replies: replies are structured values. `Protocol.ErrorText` gives the error strings, and the status reply is a record.
- `Utils::verifyRequest`, `Memory`, the boiler and the display: foreign code. They are an abstract flag and plain fields. `Memory::verifyContent()` is taken to mean that a record is stored. The boiler's own `turnOn`, `turnOff` and `setTargetTemperature` are plain field writes.
- `KiLL::resetToFactorySettings`: modelled as a flag and an effect. The memory clearing and the restart it performs are not modelled. In a `Run`, requests after a reset are still served, and the stored record is kept.
- `ESP.restart()` in `setupLocalNetwork`: returned as the `restart` result. `Mdns.SetupLocalNetwork` requires MAX_MDNS_RETRIES below 255. With 255, the 8-bit counter would wrap and the loop could run forever.
- `KiLL::espId()` and `KiLL::MAXIMUM_TEMPERATURE`: values fixed in other files. They are the device parameters `espId` and `maxTemperature`.
