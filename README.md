# Ledger iOS BLE transport and device identity, in Dafny

This project models two parts of the Ledger hardware-wallet client library:

- the iOS Bluetooth LE transport (`lib/src/transport/ble_ios.rs`). This covers:
  - waiting for the central manager to power on;
  - scanning and classifying advertised peripherals;
  - listing them and remembering them for `connect`;
  - the connect handshake: connect, service discovery, characteristic discovery, subscribe;
  - the outbound APDU framing of `write_command`;
  - the inbound reassembly of `read_data`;
  - `exchange`, which is a write followed by a read;
- the device identity functions (`lib/src/info.rs`): `Model::from_pid`, `LedgerInfo::kind`, `From<ConnType> for Filters` and the `Display` texts.

CoreBluetooth is modelled as data (`Platform`):

- The central event channel is a finite sequence of `CentralEvent`s. Reaching its end means the channel is closed.
- Every call the transport makes into the platform (scan, connect, discover, subscribe, write) is appended to a call log.
- `Platform.Link` is a class holding both, the `pending` events and the `log`.
- `BleTransport` and `BleDevice` are classes whose methods drive a `Link` step by step with `while` loops, as the Rust code does.
- Each method is proved equal to a function of the events it starts from:
  - `WriteCommandRun` and `WriteCommandActions` for `write_command`;
  - `ReadDataRun` and `ReadDataActions` for `read_data`;
  - `ConnectHandshake` for `connect`;
  - `ScanMatches` for `scan_internal`;
  - `PowerOn` for `wait_for_power_on`.
- The properties the transport promises are proved as lemmas about those functions.

The connect handshake has two definitions. `ConnectHandshake` runs stage by stage through the four waits. `ConnectMachine` is an explicit state machine that consumes one event at a time. `ConnectIsMachine` proves the two agree on every input.

Modules and files:

| file | module | contents |
|---|---|---|
| errors.dfy | `Errors` | the crate's `Error` variants, `Option`, `Result` |
| bytes.dfy | `Bytes` | `byte`, the big-endian `u16` encoding with its truncating cast, concatenation |
| platform.dfy | `Platform` | ids, events, calls, the wait predicate, `Await`, the `Link` class |
| info.dfy | `Info` | `Model`, `ConnInfo`, `ConnType`, `Filters`, `LedgerInfo`, their functions and Display texts |
| framing.dfy | `BleFraming` | the length-prefixed body, its chunks and frames, the first-response header check |
| discovery.dfy | `BleDiscovery` | name classification and scan matching |
| session.dfy | `BleSession` | `write_command`, `read_data` and `exchange` as functions of the events |
| handshake.dfy | `BleHandshake` | `BLE_SPECS`, the lookups, the connect stages, the state machine |
| ble_ios.dfy | `BleIos` | the `BleDevice` and `BleTransport` classes and `wait_for_power_on` |

Behaviour reproduced as written:

- A wait loop in the connect, subscription, write-result and power-on paths may run out of events. When it does, control falls through to the next step, as in the code:
  - `connect` still returns a device when the channel closes before the subscription result;
  - `write_command` goes on with the next chunk.
- `read_data` does not truncate the response to its declared length.
- `read_data` does not check the tags of continuation frames.
- A continuation frame of exactly 5 bytes adds nothing.
- A continuation frame shorter than 5 bytes is the out-of-bounds slice `value[5..]`, which panics in Rust. The model returns it as the error `IndexPanic`.
- `payload.len() as u16` and `i as u16` keep the low 16 bits.
- The write characteristic is chosen with `else if`, so a characteristic carrying the notify UUID is never taken for writing.
- Both characteristic picks keep the last matching characteristic.
- The subscription wait of `connect` accepts a result for any characteristic of the peripheral.
- The subscription wait of `read_data` accepts only the notify characteristic.

## Model

| member | source | states |
|---|---|---|
| Bytes.BeU16 | lib/src/transport/ble_ios.rs:327 | `(n as u16).to_be_bytes()` is two bytes |
| Bytes.BeU16RoundTrip | lib/src/transport/ble_ios.rs:327 | decoding the two bytes gives back `n` modulo 65536, so the cast keeps the low 16 bits |
| Info.FromPid | lib/src/info.rs:63-72 | `from_pid`: the model is chosen by the top byte of the pid. `FromPidCases`, `FromPidIgnoresLowByte` and `FromPidExamples` state its contract |
| Info.FromPidCases | lib/src/info.rs:63-72 | `from_pid` is total. It gives NanoX exactly when `pid & 0xFF00 == 0x4000` and NanoSPlus exactly when it is `0x5000`. Otherwise it gives `Unknown` carrying the whole unmasked pid. It never gives NanoS or Stax |
| Info.FromPidIgnoresLowByte | lib/src/info.rs:64 | two pids with the same top byte `0x40` or `0x50` give the same known model, whatever their low bytes |
| Info.FromPidExamples | lib/src/info.rs:63-72 | 0x4001 is NanoX, 0x5002 is NanoSPlus, 0x1234 is `Unknown(0x1234)` |
| Info.Kind | lib/src/info.rs:27-40 | `kind` is Usb, Tcp or Ble exactly when the connection info is the Usb, Tcp or Ble variant |
| Info.ToFilters | lib/src/info.rs:98-106 | `Filters::from(ConnType)`. `ToFiltersBijective` states that it maps Usb to Hid, Tcp to Tcp and Ble to Ble, one to one and onto |
| Info.ToFiltersBijective | lib/src/info.rs:98-106 | `Filters::from` is injective (Usb→Hid, Tcp→Tcp, Ble→Ble) and every filter is reached |
| Info.BleInfoText | lib/src/transport/ble_ios.rs:35-39 | a `BleInfo` displays as its name. `ConnInfoTextKind` and `LedgerInfoTextParts` state the displays that contain it |
| Info.ConnInfoText | lib/src/info.rs:109-124 | the connection display: a kind prefix, then the inner display. `ConnInfoTextKind` states that the prefix gives back the kind |
| Info.ConnInfoTextKind | lib/src/info.rs:109-124 | the displayed prefix "HID ", "TCP " or "BLE " gives back the connection kind |
| Info.LedgerInfoText | lib/src/info.rs:19-23 | the display `"{model} ({conn})"`. `LedgerInfoTextParts` states its parts |
| Info.LedgerInfoTextParts | lib/src/info.rs:19-23 | a `LedgerInfo` displays as the model text, " (", the connection display, ")" |
| BleFraming.Body | lib/src/transport/ble_ios.rs:326-328 | the length-prefixed body. `BodyLayout`, `FramingRoundTrip` and `LengthPrefixTruncates` state its contract |
| BleFraming.BodyLayout | lib/src/transport/ble_ios.rs:326-328 | the body is the payload after two length bytes. Below 65536 bytes those are `len >> 8` and `len & 0xFF`. Above that the length is kept modulo 65536 |
| BleFraming.Chunks | lib/src/transport/ble_ios.rs:333 | `data.chunks(n)`: the pieces join back to the data. Each is non-empty and at most `n` bytes, and all but the last are exactly `n` bytes |
| BleFraming.ChunksCount | lib/src/transport/ble_ios.rs:333 | there are `ceil(|data| / n)` chunks |
| BleFraming.FramesFrom | lib/src/transport/ble_ios.rs:333-343 | one frame per chunk, in chunk order; frame `k` is the frame of chunk `k` numbered `i + k` |
| BleFraming.Frame | lib/src/transport/ble_ios.rs:336-343 | one frame of the chunk loop. `FrameLayout` states its layout and size |
| BleFraming.FrameLayout | lib/src/transport/ble_ios.rs:336-343 | a frame consists of the tag (`cmd` for frame 0, 0x03 after it), then `i` big-endian, then the chunk. It is 4 to `n + 3` bytes long |
| BleFraming.Frames | lib/src/transport/ble_ios.rs:326-343 | the frames `write_command` sends. `FramesCount`, `FramesHeaders`, `FramesCarryBody` and `FramingRoundTrip` state their number, headers, sizes and content |
| BleFraming.FramesCount | lib/src/transport/ble_ios.rs:333 | a body of `B` bytes gives `ceil(B / (mtu - 3))` frames, and there is at least one |
| BleFraming.FramesHeaders | lib/src/transport/ble_ios.rs:333-343 | every frame is at most `mtu` bytes. Frame `i` is tagged `cmd` when `i == 0` and 0x03 otherwise, carries `i` big-endian in bytes 1-2, then carries chunk `i` of the body |
| BleFraming.FramesCarryBody | lib/src/transport/ble_ios.rs:333-343 | removing the 3-byte header of each frame and concatenating in order gives back the body exactly |
| BleFraming.FramingRoundTrip | lib/src/transport/ble_ios.rs:326-343 | for payloads under 65536 bytes, deframing the frames gives back the body, and parsing the body gives back the payload |
| BleFraming.LengthPrefixTruncates | lib/src/transport/ble_ios.rs:327 | a payload of 65536 bytes gets the length prefix `[0, 0]`, so its body no longer describes it |
| BleFraming.ResponseHeader | lib/src/transport/ble_ios.rs:423-436 | the checks on the first response notification. `ResponseHeaderCases` states each outcome exactly |
| BleFraming.ResponseHeaderCases | lib/src/transport/ble_ios.rs:423-436 | the first response is `UnexpectedResponse` exactly when it is shorter than 5 bytes or not tagged 0x05. It is `EmptyResponse` exactly when byte 4 is 0. Otherwise byte 4 is the declared length |
| BleFraming.ResponseHeaderExamples | lib/src/transport/ble_ios.rs:423-436 | one concrete first response for each of the three outcomes |
| BleDiscovery.ContainsIsSubstring | lib/src/transport/ble_ios.rs:132-134 | `contains` holds exactly when the text occurs at some offset |
| BleDiscovery.Classify | lib/src/transport/ble_ios.rs:131-138 | the name test of the scan. `ClassifyCases` states its outcomes exactly; `ClassifyNanoX1234`, `ClassifyBothNames` and `ClassifyNanoS` give instances |
| BleDiscovery.ClassifyCases | lib/src/transport/ble_ios.rs:131-138 | a name containing "Nano X" is NanoX, even when it also contains "Stax". Otherwise a name containing "Stax" is Stax. Every other name is dropped |
| BleDiscovery.ClassifyNanoX1234 | lib/src/transport/ble_ios.rs:132-133 | "Nano X 1234" is a Nano X |
| BleDiscovery.ClassifyBothNames | lib/src/transport/ble_ios.rs:132-138 | "Stax Nano X" is a Nano X: the "Nano X" test comes first |
| BleDiscovery.ClassifyNanoS | lib/src/transport/ble_ios.rs:136-137 | "Nano S" is dropped |
| BleDiscovery.DeviceName | lib/src/transport/ble_ios.rs:128-129 | the local name, or else the peripheral id as text. `ScanMatchesShape` states it for every match |
| BleDiscovery.Entry | lib/src/transport/ble_ios.rs:120-151 | the match of one event, if any. `ScanMatchesShape` states the shape of every match |
| BleDiscovery.ScanMatches | lib/src/transport/ble_ios.rs:119-152 | the matches of a run of events. `ScanMatchesAppend`, `ScanMatchesShape`, `Infos` and `ScanExample` state its contract |
| BleDiscovery.ScanMatchesAppend | lib/src/transport/ble_ios.rs:120-153 | matching keeps event order: the matches of two batches are the first batch's followed by the second's |
| BleDiscovery.ScanMatchesComplete | lib/src/transport/ble_ios.rs:120-151 | every discovery event whose name classifies is listed, as a BLE `LedgerInfo` with that model, name and the peripheral's id, paired with the peripheral. It sits at the position right after the matches of the events before it |
| BleDiscovery.ScanMatchesShape | lib/src/transport/ble_ios.rs:120-151 | every match is a NanoX or a Stax over BLE. Its model is its name's classification, and its address is its peripheral's id. Its name is the local name of a discovery event for that peripheral, or else the peripheral's id text |
| BleDiscovery.Infos | lib/src/transport/ble_ios.rs:171 | the infos are the first halves of the matches, in the same order |
| BleDiscovery.ScanExample | lib/src/transport/ble_ios.rs:120-151 | one discovery of "Nano X 1234" gives one NanoX match under that name |
| BleIos.PowerOn | lib/src/transport/ble_ios.rs:91-104 | `wait_for_power_on` on values. `PowerOnSkips`, `PowerOnDecides`, `PowerOnClosed` and `BleTransport.WaitForPowerOn` state its contract |
| Platform.Matches | lib/src/transport/ble_ios.rs:93-97 | which events each wait loop accepts: the decisive power states; a connect or connect-failed of the peripheral; its services; its characteristics; a subscription result of the peripheral for any characteristic (`connect`) or for the notify characteristic (`read_data`); a write result and a value of the peripheral and characteristic. These are the guards at ble_ios.rs:93-97, 211-217, 235-239, 262-266, 292-296, 356-361, 388-393, 406-411 and 449-454. `FirstMatch`, `Await`, `AwaitAccepted` and `Link.RecvMatching` state the waits built on it |
| Platform.FirstMatch | lib/src/transport/ble_ios.rs:354-368 | the index of the first event the wait accepts: no earlier event is accepted, and it is the length when none is |
| Platform.Await | lib/src/transport/ble_ios.rs:354-368 | a wait returns an accepted event and a strictly shorter rest. If it returns none, no event was accepted and the channel is drained |
| Platform.AwaitAccepted | lib/src/transport/ble_ios.rs:354-368 | a wait returns the first accepted event, and the accepted events after it are those of the rest |
| Platform.Link.constructor | lib/src/transport/ble_ios.rs:81 | a new channel holds the given events and no calls |
| Platform.Link.Issue | lib/src/transport/ble_ios.rs:347-351 | a platform call is appended to the log; the channel is untouched |
| Platform.Link.Recv | lib/src/transport/ble_ios.rs:120 | `recv`/`try_recv`: the next event and the rest, or nothing on a closed channel |
| Platform.Link.RecvMatching | lib/src/transport/ble_ios.rs:354-368 | the skip loop returns what `Await` returns and leaves what `Await` leaves |
| BleSession.WriteCommandRun | lib/src/transport/ble_ios.rs:318-372 | `write_command` on values: with no write characteristic it is `Unknown`; otherwise it is the chunk loop over `Frames`. `WriteFramesResults`, `WriteFramesClosedChannel` and `BleDevice.WriteCommand` state its contract |
| BleSession.WriteFrames | lib/src/transport/ble_ios.rs:333-369 | the chunk loop writes no more frames than there are |
| BleSession.AwaitWriteResults | lib/src/transport/ble_ios.rs:354-368 | a write-result wait consumes the first write result of this peripheral and characteristic |
| BleSession.WriteFramesSkipsOthers | lib/src/transport/ble_ios.rs:353-368 | the chunk loop depends only on this characteristic's write results, in order; every error is `Unknown` |
| BleSession.WriteStopsAtFirstFailure | lib/src/transport/ble_ios.rs:363 | on the write results alone, the loop goes through all frames exactly when none of the results it reads is an error. Otherwise it stops right after the first error |
| BleSession.WriteFramesResults | lib/src/transport/ble_ios.rs:333-371 | `write_command` succeeds, having written every frame, exactly when none of its write results is an error. Otherwise it fails with `Unknown` right after the frame whose result was the first error |
| BleSession.WriteFramesClosedChannel | lib/src/transport/ble_ios.rs:354-368 | on a closed channel every frame is written and the write succeeds |
| BleSession.WriteCommandActions | lib/src/transport/ble_ios.rs:347-351 | the `write_characteristic` calls of `write_command`: none without a write characteristic, otherwise one per frame sent. `WriteActions`, `ExchangeWriteFailure` and `BleDevice.WriteCommand` state them |
| BleSession.WriteActions | lib/src/transport/ble_ios.rs:347-351 | the calls are one write per frame, in ascending frame order |
| BleSession.AwaitNotifications | lib/src/transport/ble_ios.rs:447-461 | a value wait consumes the first notification of this peripheral and characteristic |
| BleSession.Reassemble | lib/src/transport/ble_ios.rs:441-468 | the continuation loop of `read_data` on values. `ReassembleSkipsOthers`, `ReassembleFromPrefix`, `ReassembleFromOutcomes` and `ReadDataContinuation` state its contract |
| BleSession.ReassembleSkipsOthers | lib/src/transport/ble_ios.rs:445-468 | reassembly depends only on the notifications of this peripheral and characteristic, in order |
| BleSession.FramesUsed | lib/src/transport/ble_ios.rs:445-468 | reassembly consumes no more notifications than there are |
| BleSession.ReassembleFromPrefix | lib/src/transport/ble_ios.rs:445-468 | a successful reassembly is the buffer followed by `value[5..]` of the notifications it consumed. Each of those has 5 bytes or more. The result reaches the declared length, and no shorter prefix of them reached it |
| BleSession.ReassembleFromOk | lib/src/transport/ble_ios.rs:441-468 | the same, stated as: some prefix of the notifications has this property |
| BleSession.ReassembleFromOutcomes | lib/src/transport/ble_ios.rs:445-468 | reassembly gives `Closed` exactly when every notification is a frame of 5 bytes or more and together they fall short of the length. It gives `Unknown` exactly when the first notification still needed is an error. It gives the out-of-bounds slice exactly when that notification is shorter than 5 bytes. No other error is possible |
| BleSession.ReadDataRun | lib/src/transport/ble_ios.rs:375-474 | `read_data` on values. `ReadDataFirstFrame`, `ReadDataOk`, `ReadDataContinuation` and `BleDevice.ReadData` state its contract |
| BleSession.ReadDataActions | lib/src/transport/ble_ios.rs:381-472 | the calls of `read_data`: none without a notify characteristic, otherwise `subscribe`, then `unsubscribe` only on success. `BleDevice.ReadData` and `ExchangeExample` state them |
| BleSession.ReadDataFirstFrame | lib/src/transport/ble_ios.rs:375-436 | with no notify characteristic the read is `Unknown` and consumes nothing. An error subscription result is `Unknown`. After the subscription wait, a closed channel is `Closed`, an error value is `Unknown`, a short or mistagged first frame is `UnexpectedResponse`, and a zero length byte is `EmptyResponse`. Otherwise (a valid first frame) the read is the reassembly from `value[5..]` for `value[4]` bytes |
| BleSession.ReadDataOk | lib/src/transport/ble_ios.rs:403-473 | on success the first frame was valid, and the result is its `value[5..]` followed by the continuation payloads consumed. It is at least the declared length, and no shorter prefix reached it |
| BleSession.ReadDataContinuation | lib/src/transport/ble_ios.rs:441-468 | after a valid first frame, `read_data` is `Closed` exactly when the channel runs out of notifications while bytes are still needed. It is `Unknown` exactly when the next notification needed is an error, and the out-of-bounds slice exactly when that notification is shorter than 5 bytes |
| BleSession.Exchange | lib/src/transport/ble_ios.rs:485-499 | `exchange` on values. `ExchangeWriteFailure`, `ExchangeExample` and `BleDevice.Exchange` state its contract |
| BleSession.ExchangeWriteFailure | lib/src/transport/ble_ios.rs:487-489 | a failed write ends `exchange` with `Unknown` before any subscription; only frame writes were made |
| BleSession.ExchangeExample | lib/src/transport/ble_ios.rs:485-499 | a one-frame command and the response `[05 00 00 00 02 CC DD]` give `[CC DD]`, with the calls write, subscribe, unsubscribe |
| BleSession.ReadDataNotTruncated | lib/src/transport/ble_ios.rs:441-468 | a response longer than its declared length is returned whole |
| BleSession.ReadDataEmptyContinuation | lib/src/transport/ble_ios.rs:445-468 | a 5-byte continuation adds nothing, and continuation tags are not checked |
| BleSession.ReadDataShortContinuation | lib/src/transport/ble_ios.rs:467 | a continuation shorter than 5 bytes is the out-of-bounds slice |
| BleSession.ReadDataSkipsEarlyValues | lib/src/transport/ble_ios.rs:386-418 | a value that arrives before the subscription result is skipped by the subscription wait |
| BleHandshake.FindSpec | lib/src/transport/ble_ios.rs:197-203 | the spec lookup over the model's spec table. `FindSpecIn`, `BleSpecsTable` and `ScannedDevicesHaveSpecs` state its contract |
| BleHandshake.FindSpecIn | lib/src/transport/ble_ios.rs:197-203 | the result is none exactly when no spec has the model; otherwise it is the first spec that has it |
| BleHandshake.BleSpecsTable | lib/src/transport/ble_ios.rs:61-76 | exactly NanoX and Stax have a spec, one each; within a spec the four UUIDs are distinct |
| BleHandshake.ScannedDevicesHaveSpecs | lib/src/transport/ble_ios.rs:132-138 | every listed device has a spec, so `connect`'s spec lookup never fails for one |
| BleHandshake.FindPeripheral | lib/src/transport/ble_ios.rs:182-192 | the result is none exactly when no remembered entry has this connection info; otherwise it is the first entry that has it |
| BleHandshake.LastWithId | lib/src/transport/ble_ios.rs:268-274 | a picked characteristic carries the wanted UUID |
| BleHandshake.LastWithIdSpec | lib/src/transport/ble_ios.rs:268-274 | the pick is none exactly when no characteristic has the UUID; otherwise it is the last one that has it |
| BleHandshake.PickWrite | lib/src/transport/ble_ios.rs:268-274 | a picked write characteristic has the write UUID and not the notify UUID. When the two UUIDs differ, the pick is the last characteristic with the write UUID |
| BleHandshake.SubscribeStage | lib/src/transport/ble_ios.rs:290-310 | the stage fails (`Unknown`) exactly when the subscription wait returns an error result. Otherwise, even on a closed channel, the result is the device at MTU 23 with the two characteristics. The rest is what the wait leaves |
| BleHandshake.CharacteristicsStage | lib/src/transport/ble_ios.rs:255-310 | from characteristic discovery on, the result is `Unknown` or a device for this info and peripheral. That device has MTU 23 and the spec's notify and write characteristics |
| BleHandshake.ServicesStage | lib/src/transport/ble_ios.rs:228-310 | the same from service discovery on |
| BleHandshake.ConnectionStage | lib/src/transport/ble_ios.rs:206-310 | the same from the connect call on |
| BleHandshake.ConnectionFails | lib/src/transport/ble_ios.rs:209-223 | the handshake stops with `Unknown`, making no further call, exactly when the connection wait returns a connect-failed event |
| BleHandshake.ServicesFail | lib/src/transport/ble_ios.rs:232-250 | service discovery stops with `Unknown`, with no characteristic discovery, exactly when the services reply is an error or empty, or the channel closes first |
| BleHandshake.CharacteristicsFail | lib/src/transport/ble_ios.rs:257-284 | characteristic discovery stops with `Unknown`, with no subscribe call, exactly when the reply is an error, or it lacks the notify or the write characteristic |
| BleHandshake.ConnectHandshake | lib/src/transport/ble_ios.rs:180-311 | `connect` on values. `ConnectOutcomes`, `ConnectUnlisted`, `ConnectIsMachine` and `BleTransport.Connect` state its contract |
| BleHandshake.ConnectOutcomes | lib/src/transport/ble_ios.rs:180-311 | `connect` fails with `NoDevices` exactly when the info is not remembered, and then consumes nothing and makes no call. Every other failure is `Unknown`. On success the device is that entry's peripheral with the given info, MTU 23, and the notify and write characteristics of the model's spec |
| BleHandshake.ConnectUnlisted | lib/src/transport/ble_ios.rs:166-192 | `connect` with info that `list` did not return is `NoDevices`, with nothing consumed and no call made |
| BleHandshake.Step | lib/src/transport/ble_ios.rs:209-302 | one event of the handshake state machine. `RunSkips`, `RunAwait` and the four `…Agree(s)` lemmas state what it does per stage |
| BleHandshake.ConnectMachine | lib/src/transport/ble_ios.rs:180-311 | the handshake as a state machine. `ConnectIsMachine` states that it agrees with `ConnectHandshake` |
| BleHandshake.RunSkips | lib/src/transport/ble_ios.rs:209-223 | the state machine skips events the current stage is not waiting for |
| BleHandshake.RunAwait | lib/src/transport/ble_ios.rs:209-302 | a waiting stage runs as its step on the awaited event, or as its close on a channel without one |
| BleHandshake.SubscribedAgrees | lib/src/transport/ble_ios.rs:290-302 | the machine's subscription stage gives what `SubscribeStage` gives |
| BleHandshake.CharacteristicsAgree | lib/src/transport/ble_ios.rs:257-284 | the machine's characteristic stage gives what `CharacteristicsStage` gives |
| BleHandshake.ServicesAgree | lib/src/transport/ble_ios.rs:232-250 | the machine's service stage gives what `ServicesStage` gives |
| BleHandshake.ConnectionAgrees | lib/src/transport/ble_ios.rs:209-223 | the machine's connection stage gives what `ConnectionStage` gives |
| BleHandshake.ConnectIsMachine | lib/src/transport/ble_ios.rs:180-311 | the stage-by-stage handshake and the one-event-at-a-time state machine agree on result, rest and calls, for every input |
| BleHandshake.ClosedBeforeSubscriptionResult | lib/src/transport/ble_ios.rs:290-310 | a channel that closes before the subscription result still yields a device at MTU 23 |
| BleIos.PowerOnSkips | lib/src/transport/ble_ios.rs:92-101 | events other than a PoweredOn, Unsupported or Unauthorized state change are skipped |
| BleIos.PowerOnDecides | lib/src/transport/ble_ios.rs:93-97 | PoweredOn succeeds, and Unsupported and Unauthorized fail with `Unknown`; the channel resumes right after |
| BleIos.PowerOnClosed | lib/src/transport/ble_ios.rs:103 | a channel closed before a decisive state is `Unknown` |
| BleIos.Delivered | lib/src/transport/ble_ios.rs:117-120 | the scan drains the buffered events, or every event if fewer are left |
| BleIos.WriteStep | lib/src/transport/ble_ios.rs:333-343 | one chunk round sends the head chunk, numbered `i`, and leaves the frames of the remaining chunks |
| BleIos.WriteRoundFrame | lib/src/transport/ble_ios.rs:336-343 | the frame built in round `i` is frame `i` of `Frames` |
| BleIos.WriteRoundResult | lib/src/transport/ble_ios.rs:353-368 | an error write result ends the run after `i + 1` frames; anything else leaves the run of the frames after `i` |
| BleIos.WriteFramesStep | lib/src/transport/ble_ios.rs:353-368 | one write-and-wait round of the chunk loop, from frame `i` |
| BleIos.WriteDone | lib/src/transport/ble_ios.rs:369-371 | at the end of the loop every frame has been written and the run succeeds |
| BleIos.ScanStep | lib/src/transport/ble_ios.rs:120-153 | draining one more event adds its match, if any, to the end of the matches |
| BleIos.PickCharacteristics | lib/src/transport/ble_ios.rs:268-274 | the `for char in chars` loop picks exactly `LastWithId` for notify and `PickWrite` for write |
| BleIos.BleDevice.constructor | lib/src/transport/ble_ios.rs:304-310 | the device holds the fields it is built with and the transport's channel |
| BleIos.BleDevice.WriteCommand | lib/src/transport/ble_ios.rs:318-372 | the result, the remaining events and the write calls are those of `WriteCommandRun`. No write characteristic is `Unknown` with nothing written |
| BleIos.BleDevice.WriteChunks | lib/src/transport/ble_ios.rs:333-370 | the chunk loop's result and rest are `WriteFrames`'s, and it logs exactly the frames that run sent, in order |
| BleIos.BleDevice.WriteFrame | lib/src/transport/ble_ios.rs:347-368 | logs one write, then consumes up to and including that write's first result; reports whether it is an error |
| BleIos.BleDevice.ReadData | lib/src/transport/ble_ios.rs:375-474 | the result, the remaining events and the calls (subscribe; unsubscribe only on success) are those of `ReadDataRun` |
| BleIos.BleDevice.Exchange | lib/src/transport/ble_ios.rs:485-499 | the result, rest and calls are `write_command(0x05, command)` followed, unless it failed, by `read_data` |
| BleIos.BleTransport.constructor | lib/src/transport/ble_ios.rs:79-89 | a new transport remembers no peripherals and has made no call |
| BleIos.BleTransport.WaitForPowerOn | lib/src/transport/ble_ios.rs:91-104 | the result and rest are those of `PowerOn`; no call is made |
| BleIos.BleTransport.ScanInternal | lib/src/transport/ble_ios.rs:107-156 | issues the scan, drains the delivered events and returns their matches in order; nothing else is consumed |
| BleIos.BleTransport.List | lib/src/transport/ble_ios.rs:166-177 | the remembered table becomes exactly the scan's matches, and the returned infos are theirs, in the same order |
| BleIos.BleTransport.Connect | lib/src/transport/ble_ios.rs:180-311 | the result, the remaining events and the calls are those of `ConnectHandshake`. A returned device is new and shares the transport's channel |
| BleIos.BleTransport.AwaitConnection | lib/src/transport/ble_ios.rs:206-229 | the connection wait and everything after it, as `ConnectionStage` |
| BleIos.BleTransport.AwaitServices | lib/src/transport/ble_ios.rs:232-255 | the service wait and everything after it, as `ServicesStage` |
| BleIos.BleTransport.AwaitCharacteristics | lib/src/transport/ble_ios.rs:257-287 | the characteristic wait and everything after it, as `CharacteristicsStage` |
| BleIos.BleTransport.AwaitSubscription | lib/src/transport/ble_ios.rs:290-310 | the subscription wait and the device at MTU 23, as `SubscribeStage` |

## Left out

- Timing.
  - The sleep of `scan_internal` (ble_ios.rs:117) is replaced by the parameter `buffered`: the number of events already delivered when the sleep ends.
  - The timeout around `read_data` in `exchange` (ble_ios.rs:494-498) is not modelled. An exchange is the read's outcome.
- CoreBluetooth itself. `CentralManager::new`, the scan, connect, discover, subscribe and write calls are entries in the call log, and their replies are events in the channel. The content of a platform error is not kept.
- `Uuid::from_bytes(*x.as_bytes())` (ble_ios.rs:228, 252-253) is the identity. A UUID is its canonical text, so `id().to_string()` is that text.
- `BleDevice` has no `receiver` field in the source, but its methods read `self.receiver`. In the model the device shares the transport's channel.
- The write and notify characteristics are `Option`s, because the code unwraps them with `ok_or_else`. What `connect` builds always has both.
- `IndexPanic` is not a variant of the crate's `Error`. It names the panic of `value[5..]` on a continuation frame shorter than 5 bytes.
- BleIos.BleDevice.WriteCommand requires `mtu > 3`. For a smaller MTU, `mtu - 3` underflows in the code. `connect` always sets 23.
- `list`'s `Filters` argument is `()` and is dropped.
- `scan_internal` and `list` never fail, so the model returns their vectors directly.
- `connect` is one Rust method. The model splits it into five methods at its wait loops.
- The chunk loop of `write_command` is its own method, `WriteChunks`.
- `is_connected` (ble_ios.rs:476-480) always returns `Ok(true)` and is not modelled.
- Tracing and logging macros are not modelled.
- The `Display` of `Model` comes from a derive macro. It is modelled as the variant name, which is what that derive prints.
- `UsbInfo` and `TcpInfo` belong to transports outside this model and are carried as their display text.
- All three `ConnInfo` variants are present; the cargo features that select them are not modelled.
- `AppInfo` and `DeviceInfo` (info.rs:147-162) carry no logic and are not modelled.
- `lib/src/transport/ios/` holds only unimplemented stubs and framework links, and is not part of this model.
