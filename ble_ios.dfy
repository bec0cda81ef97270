/** `BleTransport` and `BleDevice`: the objects of the iOS BLE transport,
    driving a `Link` (the CoreBluetooth event channel and call log) step by
    step, each method proved against the function that specifies it. */
module BleIos {
  import opened Bytes
  import opened Errors
  import opened Platform
  import opened Info
  import opened BleFraming
  import opened BleSession
  import opened BleDiscovery
  import opened BleHandshake

  /** The result of `wait_for_power_on` and what is left of the channel. */
  datatype PowerRun = PowerRun(result: Result<()>, rest: seq<CentralEvent>)

  /** `wait_for_power_on`: the first decisive manager state; a closed
      channel is `Unknown`. */
  function PowerOn(es: seq<CentralEvent>): PowerRun
  {
    var a := Await(PowerDecision, es);
    if a.event.Some? && a.event.value.newState == PoweredOn then PowerRun(Ok(()), a.rest)
    else PowerRun(Err(Error.Unknown), a.rest)
  }

  /** Events other than a PoweredOn, Unsupported or Unauthorized state change are skipped. */
  lemma PowerOnSkips(e: CentralEvent, es: seq<CentralEvent>)
    requires !(e.ManagerStateChanged? && e.newState in {PoweredOn, Unsupported, Unauthorized})
    ensures PowerOn([e] + es) == PowerOn(es)
  {
    assert ([e] + es)[1..] == es;
    var k := FirstMatch(PowerDecision, es);
    if k < |es| {
      assert ([e] + es)[k + 1..][1..] == es[k + 1..];
    }
  }

  /** PoweredOn succeeds, Unsupported and Unauthorized fail with `Unknown`;
      the channel resumes right after that event. */
  lemma PowerOnDecides(s: ManagerState, es: seq<CentralEvent>)
    requires s in {PoweredOn, Unsupported, Unauthorized}
    ensures PowerOn([ManagerStateChanged(s)] + es)
            == PowerRun(if s == PoweredOn then Ok(()) else Err(Error.Unknown), es)
  {
    assert ([ManagerStateChanged(s)] + es)[1..] == es;
  }

  /** A channel that closes before a decisive state is `Unknown`. */
  lemma PowerOnClosed()
    ensures PowerOn([]) == PowerRun(Err(Error.Unknown), [])
  {
  }

  /** How many events the scan finds already delivered after its sleep. */
  function Delivered(es: seq<CentralEvent>, buffered: nat): (k: nat)
    ensures k <= |es| && k <= buffered
    ensures k < buffered ==> k == |es|
  {
    if buffered < |es| then buffered else |es|
  }

  /** A connected device. `link` is the transport's channel, which the
      device shares. */
  class BleDevice {
    const info: BleInfo
    const mtu: byte
    const peripheral: Peripheral
    const writeCharacteristic: Option<Characteristic>
    const notifyCharacteristic: Option<Characteristic>
    const link: Link

    constructor (d: Device, link: Link)
      ensures View() == d && this.link == link
    {
      info := d.info;
      mtu := d.mtu;
      peripheral := d.peripheral;
      writeCharacteristic := d.writeCharacteristic;
      notifyCharacteristic := d.notifyCharacteristic;
      this.link := link;
    }

    function View(): Device
    {
      Device(info, mtu, peripheral, writeCharacteristic, notifyCharacteristic)
    }

    /** `write_command(cmd, payload)`: the frames of `Frames(cmd, payload, mtu)`
        are written one by one, each followed by a wait for its write result. */
    method WriteCommand(cmd: byte, payload: seq<byte>) returns (r: Result<()>)
      requires mtu as nat > HeaderLen
      modifies link
      ensures var run := WriteCommandRun(peripheral, writeCharacteristic, mtu, cmd, payload, old(link.pending));
        && r == run.outcome
        && link.pending == run.rest
        && link.log == old(link.log) + WriteCommandActions(peripheral, writeCharacteristic, mtu, cmd, payload, run)
    {
      if writeCharacteristic.None? {
        return Err(Error.Unknown);
      }
      var wc := writeCharacteristic.value;
      ghost var fs := Frames(cmd, payload, mtu);
      ghost var run := WriteFrames(peripheral, wc, fs, link.pending);
      assert WriteCommandRun(peripheral, writeCharacteristic, mtu, cmd, payload, link.pending) == run;
      r := WriteChunks(wc, cmd, BeU16(|payload|) + payload, mtu as nat - HeaderLen, fs);
      assert WriteCommandActions(peripheral, writeCharacteristic, mtu, cmd, payload, run)
             == WriteActions(peripheral, wc, fs[..run.sent]);
    }

    /** The `for (i, chunk) in data.chunks(..)` loop of `write_command` over `data`, the
        length prefix and the payload, in chunks of `n` bytes: the frames
        written are a prefix of `fs`, as many as the run sends. */
    method WriteChunks(wc: Characteristic, cmd: byte, data: seq<byte>, n: nat, ghost fs: seq<seq<byte>>)
      returns (r: Result<()>)
      requires n > 0 && fs == FramesFrom(cmd, Chunks(data, n), 0)
      modifies link
      ensures var run := WriteFrames(peripheral, wc, fs, old(link.pending));
        && r == run.outcome
        && link.pending == run.rest
        && link.log == old(link.log) + WriteActions(peripheral, wc, fs[..run.sent])
    {
      var p := peripheral;
      ghost var es0 := link.pending;
      var i := 0;
      var rest := data;
      while rest != []
        invariant i <= |fs|
        invariant FramesFrom(cmd, Chunks(rest, n), i) == fs[i..]
        invariant WriteFrames(p, wc, fs, es0) == Shift(WriteFrames(p, wc, fs[i..], link.pending), i)
        invariant link.log == old(link.log) + WriteActions(p, wc, fs[..i])
        decreases |rest|
      {
        var c := if |rest| <= n then rest else rest[..n];
        var buff := [if i == 0 then cmd else ContinuationTag] + BeU16(i) + c;
        WriteRoundFrame(cmd, rest, n, i, fs);
        WriteActionsSnoc(old(link.log), p, wc, fs, i);
        WriteRoundResult(p, wc, fs, es0, i, link.pending);
        var failed := WriteFrame(wc, buff);
        if failed {
          return Err(Error.Unknown);
        }
        rest := rest[|c|..];
        i := i + 1;
      }
      WriteDone(p, wc, cmd, n, fs, es0, i, link.pending);
      r := Ok(());
    }

    /** One round of that loop: write one frame with response, then the
        `recv` loop waiting for its write result; reports whether that result
        is an error. */
    method WriteFrame(wc: Characteristic, buff: seq<byte>) returns (failed: bool)
      modifies link
      ensures var a := Await(WriteResult(peripheral.id, wc.id), old(link.pending));
        && failed == (a.event.Some? && a.event.value.result.Failed?)
        && link.pending == a.rest
        && link.log == old(link.log) + [Write(peripheral, wc, buff)]
    {
      link.Issue(Write(peripheral, wc, buff));
      var e := link.RecvMatching(WriteResult(peripheral.id, wc.id));
      failed := e.Some? && e.value.result.Failed?;
    }

    /** `read_data()`: subscribe, wait for the subscription result and the
        first response, check its header, then append `value[5..]` of the
        following notifications until the declared length is reached. */
    method ReadData() returns (r: Result<seq<byte>>)
      modifies link
      ensures var run := ReadDataRun(peripheral, notifyCharacteristic, old(link.pending));
        && r == run.result
        && link.pending == run.rest
        && link.log == old(link.log) + ReadDataActions(peripheral, notifyCharacteristic, run)
    {
      if notifyCharacteristic.None? {
        return Err(Error.Unknown);
      }
      var nc := notifyCharacteristic.value;
      var p := peripheral;
      link.Issue(Subscribe(p, nc));
      var s := link.RecvMatching(SubscriptionOf(p.id, nc.id));
      if s.Some? && s.value.result.Failed? {
        return Err(Error.Unknown);
      }
      var f := link.RecvMatching(Value(p.id, nc.id));
      if f.None? {
        return Err(Closed);
      }
      if f.value.value.Failed? {
        return Err(Error.Unknown);
      }
      var value := f.value.value.value;
      if |value| < 5 {
        return Err(UnexpectedResponse);
      } else if value[0] != 0x05 {
        return Err(UnexpectedResponse);
      }
      var len := value[4] as nat;
      if len == 0 {
        return Err(EmptyResponse);
      }
      ghost var es1 := link.pending;
      var buff := value[5..];
      while |buff| < len
        invariant Reassemble(p, nc, value[5..], len, es1) == Reassemble(p, nc, buff, len, link.pending)
        invariant link.log == old(link.log) + [Subscribe(p, nc)]
        decreases |link.pending|
      {
        var g := link.RecvMatching(Value(p.id, nc.id));
        if g.None? {
          return Err(Closed);
        }
        if g.value.value.Failed? {
          return Err(Error.Unknown);
        }
        var v := g.value.value.value;
        if |v| < 5 {
          return Err(IndexPanic);
        }
        buff := buff + v[5..];
      }
      link.Issue(Unsubscribe(p, nc));
      AppendAssoc(old(link.log), [Subscribe(p, nc)], [Unsubscribe(p, nc)]);
      r := Ok(buff);
    }

    /** `exchange(command)`: the command written with tag 0x05, then the response read. */
    method Exchange(command: seq<byte>) returns (r: Result<seq<byte>>)
      requires mtu as nat > HeaderLen
      modifies link
      ensures var x := BleSession.Exchange(peripheral, writeCharacteristic, notifyCharacteristic, mtu, command, old(link.pending));
        && r == x.result
        && link.pending == x.rest
        && link.log == old(link.log) + x.actions
    {
      var w := WriteCommand(ApduCommand, command);
      if w.Err? {
        return Err(w.error);
      }
      ghost var log1 := link.log;
      ghost var read := ReadDataRun(peripheral, notifyCharacteristic, link.pending);
      r := ReadData();
      AppendAssoc(old(link.log), log1[|old(link.log)|..], ReadDataActions(peripheral, notifyCharacteristic, read));
    }
  }

  /** One round of the chunk loop writes frame `i`: the head chunk of what
      is left, numbered `i`, and leaves the frames of the remaining chunks. */
  lemma WriteStep(cmd: byte, rest: seq<byte>, n: nat, i: nat)
    requires n > 0 && rest != []
    ensures |Chunks(rest, n)| > 0
    ensures var c := if |rest| <= n then rest else rest[..n];
      && FramesFrom(cmd, Chunks(rest, n), i)[0] == [if i == 0 then cmd else ContinuationTag] + BeU16(i) + c
      && FramesFrom(cmd, Chunks(rest, n), i)[1..] == FramesFrom(cmd, Chunks(rest[|c|..], n), i + 1)
  {
    var c := if |rest| <= n then rest else rest[..n];
    if |rest| <= n {
      assert rest[|c|..] == [];
    }
  }

  /** Writing frame `i` extends the log by that write. */
  lemma WriteActionsSnoc(log: seq<Action>, p: Peripheral, c: Characteristic, fs: seq<seq<byte>>, i: nat)
    requires i < |fs|
    ensures log + WriteActions(p, c, fs[..i + 1]) == (log + WriteActions(p, c, fs[..i])) + [Write(p, c, fs[i])]
  {
    assert WriteActions(p, c, fs[..i + 1]) == WriteActions(p, c, fs[..i]) + [Write(p, c, fs[i])];
  }

  /** One round of the chunk loop of `write_command` sends frame `i`: the
      head chunk of what is left, numbered `i`; the remaining chunks are the
      frames after it. */
  lemma WriteRoundFrame(cmd: byte, rest: seq<byte>, n: nat, i: nat, fs: seq<seq<byte>>)
    requires n > 0 && rest != []
    requires i <= |fs| && FramesFrom(cmd, Chunks(rest, n), i) == fs[i..]
    ensures var c := if |rest| <= n then rest else rest[..n];
      && i < |fs|
      && fs[i] == [if i == 0 then cmd else ContinuationTag] + BeU16(i) + c
      && FramesFrom(cmd, Chunks(rest[|c|..], n), i + 1) == fs[i + 1..]
  {
    WriteStep(cmd, rest, n, i);
    assert fs[i..][1..] == fs[i + 1..];
  }

  /** The wait after frame `i`: an error result ends the run after `i + 1`
      frames; anything else leaves the run of the frames after `i`. */
  lemma WriteRoundResult(p: Peripheral, wc: Characteristic, fs: seq<seq<byte>>, es0: seq<CentralEvent>,
                         i: nat, es: seq<CentralEvent>)
    requires i < |fs| && WriteFrames(p, wc, fs, es0) == Shift(WriteFrames(p, wc, fs[i..], es), i)
    ensures var a := Await(WriteResult(p.id, wc.id), es);
      && (a.event.Some? && a.event.value.result.Failed? ==>
            WriteFrames(p, wc, fs, es0) == WriteRun(Err(Error.Unknown), i + 1, a.rest))
      && (!(a.event.Some? && a.event.value.result.Failed?) ==>
            WriteFrames(p, wc, fs, es0) == Shift(WriteFrames(p, wc, fs[i + 1..], a.rest), i + 1))
  {
    WriteFramesStep(p, wc, fs, i, es);
  }

  /** The chunk loop ends with every frame sent and the run a success. */
  lemma WriteDone(p: Peripheral, wc: Characteristic, cmd: byte, n: nat,
                  fs: seq<seq<byte>>, es0: seq<CentralEvent>, i: nat, es: seq<CentralEvent>)
    requires n > 0
    requires i <= |fs|
      && FramesFrom(cmd, Chunks([], n), i) == fs[i..]
      && WriteFrames(p, wc, fs, es0) == Shift(WriteFrames(p, wc, fs[i..], es), i)
    ensures i == |fs|
    ensures WriteFrames(p, wc, fs, es0) == WriteRun(Ok(()), i, es)
    ensures fs[..i] == fs
  {
  }

  /** A run of the chunk loop that started `k` frames later. */
  function Shift(w: WriteRun, k: nat): WriteRun
  {
    WriteRun(w.outcome, w.sent + k, w.rest)
  }

  /** One round of `WriteFrames` from frame `i`: an error result stops after
      this frame, anything else goes on with frame `i + 1`. */
  lemma WriteFramesStep(p: Peripheral, c: Characteristic, fs: seq<seq<byte>>, i: nat, es: seq<CentralEvent>)
    requires i < |fs|
    ensures var a := Await(WriteResult(p.id, c.id), es);
      var w := WriteFrames(p, c, fs[i + 1..], a.rest);
      WriteFrames(p, c, fs[i..], es)
        == if a.event.Some? && a.event.value.result.Failed? then WriteRun(Err(Error.Unknown), 1, a.rest)
           else Shift(w, 1)
  {
    assert fs[i..][1..] == fs[i + 1..];
  }

  lemma AppendAssoc(log: seq<Action>, a: seq<Action>, b: seq<Action>)
    ensures (log + a) + b == log + (a + b)
  {
  }

  /** Draining one more event adds its entry, if any, to the matches. */
  lemma ScanStep(es: seq<CentralEvent>, n: nat)
    requires n < |es|
    ensures ScanMatches(es[..n + 1]) == ScanMatches(es[..n]) + (match Entry(es[n]) case Some(d) => [d] case None => [])
  {
    assert es[..n + 1] == es[..n] + [es[n]];
    ScanMatchesAppend(es[..n], [es[n]]);
    assert [es[n]][1..] == [];
  }

  /** The `for char in chars` loop of `connect`. */
  method PickCharacteristics(chars: seq<Characteristic>, notifyUuid: Uuid, writeUuid: Uuid)
    returns (notify: Option<Characteristic>, write: Option<Characteristic>)
    ensures notify == LastWithId(chars, notifyUuid)
    ensures write == PickWrite(chars, notifyUuid, writeUuid)
  {
    notify := None;
    write := None;
    var i := 0;
    while i < |chars|
      invariant i <= |chars|
      invariant notify == LastWithId(chars[..i], notifyUuid)
      invariant write == PickWrite(chars[..i], notifyUuid, writeUuid)
    {
      var ch := chars[i];
      assert chars[..i + 1][..i] == chars[..i];
      if ch.id == notifyUuid {
        notify := Some(ch);
      } else if ch.id == writeUuid {
        write := Some(ch);
      }
      i := i + 1;
    }
    assert chars[..i] == chars;
  }

  /** The transport: the channel, and the devices remembered by the last `list`. */
  class BleTransport {
    const link: Link
    var peripherals: seq<(LedgerInfo, Peripheral)>

    /** `BleTransport::new()`: nothing remembered yet. */
    constructor (events: seq<CentralEvent>)
      ensures fresh(link) && link.pending == events && link.log == [] && peripherals == []
    {
      link := new Link(events);
      peripherals := [];
    }

    /** `wait_for_power_on()`. */
    method WaitForPowerOn() returns (r: Result<()>)
      modifies link
      ensures r == PowerOn(old(link.pending)).result
      ensures link.pending == PowerOn(old(link.pending)).rest && link.log == old(link.log)
    {
      var e := link.RecvMatching(PowerDecision);
      if e.Some? && e.value.newState == PoweredOn {
        r := Ok(());
      } else {
        r := Err(Error.Unknown);
      }
    }

    /** `scan_internal`: start a scan, then drain the `buffered` events
        delivered during the sleep (fewer if the channel ends first),
        keeping the discovered Nano X and Stax peripherals in order. */
    method ScanInternal(buffered: nat) returns (matched: seq<(LedgerInfo, Peripheral)>)
      modifies link
      ensures var k := Delivered(old(link.pending), buffered);
        && matched == ScanMatches(old(link.pending)[..k])
        && link.pending == old(link.pending)[k..]
        && link.log == old(link.log) + [Scan]
    {
      link.Issue(Scan);
      matched := [];
      var n := 0;
      while n < buffered && link.pending != []
        invariant n <= buffered && n <= |old(link.pending)|
        invariant link.pending == old(link.pending)[n..]
        invariant matched == ScanMatches(old(link.pending)[..n])
        invariant link.log == old(link.log) + [Scan]
        decreases buffered - n
      {
        var e := link.Recv();
        var ev := e.value;
        ScanStep(old(link.pending), n);
        if ev.PeripheralDiscovered? {
          var name := DeviceName(ev.peripheral, ev.localName);
          var model := Classify(name);
          if model.Some? {
            matched := matched + [(LedgerInfo(model.value, Ble(BleInfo(name, ev.peripheral.id))), ev.peripheral)];
          }
        }
        n := n + 1;
      }
    }

    /** `list(())`: scan, remember the matches for `connect`, return their infos. */
    method List(buffered: nat) returns (infos: seq<LedgerInfo>)
      modifies this, link
      ensures var k := Delivered(old(link.pending), buffered);
        && peripherals == ScanMatches(old(link.pending)[..k])
        && infos == Infos(peripherals)
        && link.pending == old(link.pending)[k..]
        && link.log == old(link.log) + [Scan]
    {
      var devices := ScanInternal(buffered);
      infos := Infos(devices);
      peripherals := devices;
    }

    /** `connect(info)`. */
    method Connect(info: BleInfo) returns (r: Result<BleDevice>)
      modifies link
      ensures var run := ConnectHandshake(peripherals, info, old(link.pending));
        && link.pending == run.rest
        && link.log == old(link.log) + run.actions
        && (r.Err? ==> run.result == Err(r.error))
        && (r.Ok? ==> run.result == Ok(r.value.View()) && r.value.link == link && fresh(r.value))
    {
      ghost var run := ConnectHandshake(peripherals, info, link.pending);
      var found := FindPeripheral(peripherals, Ble(info));
      if found.None? {
        assert run == ConnectRun(Err(NoDevices), link.pending, []);
        return Err(NoDevices);
      }
      var d := found.value.0;
      var p := found.value.1;
      var specs := FindSpec(d.model);
      if specs.None? {
        assert run == ConnectRun(Err(Error.Unknown), link.pending, []);
        return Err(Error.Unknown);
      }
      var spec := specs.value;
      ghost var stage := ConnectionStage(info, p, spec, link.pending);
      assert run == Prepend([Action.Connect(p)], stage);
      link.Issue(Action.Connect(p));
      r := AwaitConnection(info, p, spec);
      AppendAssoc(old(link.log), [Action.Connect(p)], stage.actions);
    }

    /** The `recv` loop of `connect` waiting for the connection, then service discovery. */
    method AwaitConnection(info: BleInfo, p: Peripheral, spec: BleSpec) returns (r: Result<BleDevice>)
      modifies link
      ensures var run := ConnectionStage(info, p, spec, old(link.pending));
        && link.pending == run.rest
        && link.log == old(link.log) + run.actions
        && (r.Err? ==> run.result == Err(r.error))
        && (r.Ok? ==> run.result == Ok(r.value.View()) && r.value.link == link && fresh(r.value))
    {
      var e := link.RecvMatching(Connection(p.id));
      if e.Some? && e.value.PeripheralConnectFailed? {
        return Err(Error.Unknown);
      }
      ghost var stage := ServicesStage(info, p, spec, link.pending);
      link.Issue(DiscoverServices(p, [spec.serviceUuid]));
      r := AwaitServices(info, p, spec);
      AppendAssoc(old(link.log), [DiscoverServices(p, [spec.serviceUuid])], stage.actions);
    }

    /** Wait for the services, take the first, then discover its characteristics. */
    method AwaitServices(info: BleInfo, p: Peripheral, spec: BleSpec) returns (r: Result<BleDevice>)
      modifies link
      ensures var run := ServicesStage(info, p, spec, old(link.pending));
        && link.pending == run.rest
        && link.log == old(link.log) + run.actions
        && (r.Err? ==> run.result == Err(r.error))
        && (r.Ok? ==> run.result == Ok(r.value.View()) && r.value.link == link && fresh(r.value))
    {
      var e := link.RecvMatching(Services(p.id));
      var service: Option<Service> := None;
      if e.Some? {
        match e.value.services
        case Failed =>
          return Err(Error.Unknown);
        case Done(svcs) =>
          if svcs != [] {
            service := Some(svcs[0]);
          }
      }
      if service.None? {
        return Err(Error.Unknown);
      }
      ghost var stage := CharacteristicsStage(info, p, spec, link.pending);
      link.Issue(DiscoverCharacteristics(p, service.value, [spec.notifyUuid, spec.writeUuid]));
      r := AwaitCharacteristics(info, p, spec);
      AppendAssoc(old(link.log), [DiscoverCharacteristics(p, service.value, [spec.notifyUuid, spec.writeUuid])], stage.actions);
    }

    /** Wait for the characteristics, pick notify and write, then subscribe. */
    method AwaitCharacteristics(info: BleInfo, p: Peripheral, spec: BleSpec) returns (r: Result<BleDevice>)
      modifies link
      ensures var run := CharacteristicsStage(info, p, spec, old(link.pending));
        && link.pending == run.rest
        && link.log == old(link.log) + run.actions
        && (r.Err? ==> run.result == Err(r.error))
        && (r.Ok? ==> run.result == Ok(r.value.View()) && r.value.link == link && fresh(r.value))
    {
      var e := link.RecvMatching(Characteristics(p.id));
      var notifyChar: Option<Characteristic> := None;
      var writeChar: Option<Characteristic> := None;
      if e.Some? {
        match e.value.characteristics
        case Failed =>
          return Err(Error.Unknown);
        case Done(chars) =>
          notifyChar, writeChar := PickCharacteristics(chars, spec.notifyUuid, spec.writeUuid);
      }
      if notifyChar.None? || writeChar.None? {
        return Err(Error.Unknown);
      }
      ghost var stage := SubscribeStage(info, p, notifyChar.value, writeChar.value, link.pending);
      link.Issue(Subscribe(p, notifyChar.value));
      r := AwaitSubscription(info, p, notifyChar.value, writeChar.value);
      AppendAssoc(old(link.log), [Subscribe(p, notifyChar.value)], stage.actions);
    }

    /** Wait for the subscription result, then build the device at MTU 23. */
    method AwaitSubscription(info: BleInfo, p: Peripheral, n: Characteristic, w: Characteristic) returns (r: Result<BleDevice>)
      modifies link
      ensures var run := SubscribeStage(info, p, n, w, old(link.pending));
        && link.pending == run.rest
        && link.log == old(link.log) + run.actions
        && (r.Err? ==> run.result == Err(r.error))
        && (r.Ok? ==> run.result == Ok(r.value.View()) && r.value.link == link && fresh(r.value))
    {
      var e := link.RecvMatching(Subscription(p.id));
      if e.Some? && e.value.result.Failed? {
        return Err(Error.Unknown);
      }
      var dev := new BleDevice(Device(info, DefaultMtu, p, Some(w), Some(n)), link);
      r := Ok(dev);
    }
  }
}
