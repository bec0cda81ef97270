/** The connect handshake of `BleTransport::connect`: the per-model GATT
    table, the lookups, the stage-by-stage waits, and the same handshake as
    a state machine that consumes one event at a time. */
module BleHandshake {
  import opened Bytes
  import opened Errors
  import opened Platform
  import opened Info
  import opened BleFraming
  import opened BleDiscovery

  /** GATT UUIDs of one supported BLE model. */
  datatype BleSpec = BleSpec(model: Model, serviceUuid: Uuid, notifyUuid: Uuid, writeUuid: Uuid, writeCmdUuid: Uuid)

  /** BLE_SPECS. */
  const BleSpecs: seq<BleSpec> := [
    BleSpec(NanoX,
            Uuid("13d63400-2c97-0004-0000-4c6564676572"),
            Uuid("13d63400-2c97-0004-0001-4c6564676572"),
            Uuid("13d63400-2c97-0004-0002-4c6564676572"),
            Uuid("13d63400-2c97-0004-0003-4c6564676572")),
    BleSpec(Stax,
            Uuid("13d63400-2c97-6004-0000-4c6564676572"),
            Uuid("13d63400-2c97-6004-0001-4c6564676572"),
            Uuid("13d63400-2c97-6004-0002-4c6564676572"),
            Uuid("13d63400-2c97-6004-0003-4c6564676572"))
  ]

  /** `BLE_SPECS.iter().find(|s| s.model == model)`. */
  function FindSpecIn(specs: seq<BleSpec>, model: Model): (r: Option<BleSpec>)
    ensures r.None? <==> forall i :: 0 <= i < |specs| ==> specs[i].model != model
    ensures r.Some? ==> exists i :: 0 <= i < |specs| && specs[i] == r.value && r.value.model == model
                          && forall j :: 0 <= j < i ==> specs[j].model != model
  {
    if specs == [] then None
    else if specs[0].model == model then Some(specs[0])
    else
      var r := FindSpecIn(specs[1..], model);
      assert forall j :: 0 < j < |specs| ==> specs[j] == specs[1..][j - 1];
      r
  }

  function FindSpec(model: Model): Option<BleSpec>
  {
    FindSpecIn(BleSpecs, model)
  }

  /** Exactly the Nano X and the Stax have a spec, one each, and within a
      spec the four UUIDs are distinct. */
  lemma BleSpecsTable(m: Model)
    ensures FindSpec(m).Some? <==> m == NanoX || m == Stax
    ensures FindSpec(m).Some? ==> FindSpec(m).value.model == m
    ensures forall i, j :: 0 <= i < j < |BleSpecs| ==> BleSpecs[i].model != BleSpecs[j].model
    ensures forall i :: 0 <= i < |BleSpecs| ==>
      var s := BleSpecs[i];
      s.serviceUuid != s.notifyUuid && s.serviceUuid != s.writeUuid && s.notifyUuid != s.writeUuid
      && s.writeCmdUuid != s.notifyUuid && s.writeCmdUuid != s.writeUuid && s.writeCmdUuid != s.serviceUuid
  {
    var s0 := BleSpecs[0].notifyUuid.text;
    var s1 := BleSpecs[0].writeUuid.text;
    assert s0[22] != s1[22];
  }

  /** Every device a scan can list has a spec, so the spec lookup of
      `connect` never fails for it. */
  lemma ScannedDevicesHaveSpecs(es: seq<CentralEvent>)
    ensures forall k :: 0 <= k < |ScanMatches(es)| ==> FindSpec(ScanMatches(es)[k].0.model).Some?
  {
    ScanMatchesShape(es);
    BleSpecsTable(NanoX);
    BleSpecsTable(Stax);
  }

  /** The first remembered peripheral whose connection info equals `conn`. */
  function FindPeripheral(table: seq<(LedgerInfo, Peripheral)>, conn: ConnInfo): (r: Option<(LedgerInfo, Peripheral)>)
    ensures r.None? <==> forall i :: 0 <= i < |table| ==> table[i].0.conn != conn
    ensures r.Some? ==> exists i :: 0 <= i < |table| && table[i] == r.value && r.value.0.conn == conn
                          && forall j :: 0 <= j < i ==> table[j].0.conn != conn
  {
    if table == [] then None
    else if table[0].0.conn == conn then Some(table[0])
    else
      var r := FindPeripheral(table[1..], conn);
      assert forall j :: 0 < j < |table| ==> table[j] == table[1..][j - 1];
      r
  }

  /** The last characteristic with id `u`: the `for char in chars` loop
      overwrites its pick at every match. */
  function LastWithId(cs: seq<Characteristic>, u: Uuid): (r: Option<Characteristic>)
    ensures r.Some? ==> r.value.id == u
  {
    if cs == [] then None
    else if cs[|cs| - 1].id == u then Some(cs[|cs| - 1])
    else LastWithId(cs[..|cs| - 1], u)
  }

  lemma {:induction false} LastWithIdSpec(cs: seq<Characteristic>, u: Uuid)
    ensures LastWithId(cs, u).None? <==> forall i :: 0 <= i < |cs| ==> cs[i].id != u
    ensures LastWithId(cs, u).Some? ==>
      exists i :: 0 <= i < |cs| && cs[i] == LastWithId(cs, u).value && cs[i].id == u
        && forall j :: i < j < |cs| ==> cs[j].id != u
  {
    if cs != [] && cs[|cs| - 1].id != u {
      var init := cs[..|cs| - 1];
      LastWithIdSpec(init, u);
      assert forall i :: 0 <= i < |init| ==> init[i] == cs[i];
    }
  }

  /** The write characteristic the loop picks: the `else if` means a
      characteristic with the notify UUID is never taken for writing; when
      the two UUIDs differ (as in every spec of `BleSpecs`) it is the last
      characteristic with the write UUID. */
  function PickWrite(cs: seq<Characteristic>, notifyUuid: Uuid, writeUuid: Uuid): (r: Option<Characteristic>)
    ensures r.Some? ==> r.value.id == writeUuid && r.value.id != notifyUuid
    ensures notifyUuid != writeUuid ==> r == LastWithId(cs, writeUuid)
  {
    if notifyUuid == writeUuid then None else LastWithId(cs, writeUuid)
  }

  /** A connected device as `connect` builds it. */
  datatype Device = Device(info: BleInfo, mtu: byte, peripheral: Peripheral,
                           writeCharacteristic: Option<Characteristic>, notifyCharacteristic: Option<Characteristic>)

  /** The result of `connect`, what is left of the channel, and the calls made. */
  datatype ConnectRun = ConnectRun(result: Result<Device>, rest: seq<CentralEvent>, actions: seq<Action>)

  function Prepend(a: seq<Action>, r: ConnectRun): ConnectRun
  {
    ConnectRun(r.result, r.rest, a + r.actions)
  }

  /** What a handshake that found `p` and `spec` can end in: `Unknown`, or a
      device for `info` and `p` at the default MTU holding the spec's notify
      and write characteristics. */
  predicate Delivers(r: ConnectRun, info: BleInfo, p: Peripheral, spec: BleSpec)
  {
    && (r.result.Err? ==> r.result.error == Error.Unknown)
    && (r.result.Ok? ==>
          var d := r.result.value;
          && d.info == info && d.mtu == DefaultMtu && d.peripheral == p
          && d.notifyCharacteristic.Some? && d.notifyCharacteristic.value.id == spec.notifyUuid
          && d.writeCharacteristic.Some? && d.writeCharacteristic.value.id == spec.writeUuid)
  }

  /** Subscription wait (any characteristic of the peripheral): only an error
      result fails; a closed channel still yields the device. */
  function SubscribeStage(info: BleInfo, p: Peripheral, n: Characteristic, w: Characteristic,
                          es: seq<CentralEvent>): (r: ConnectRun)
    ensures r.result.Err? ==> r.result.error == Error.Unknown
    ensures r.result.Ok? ==> r.result.value == Device(info, DefaultMtu, p, Some(w), Some(n))
    ensures r.actions == []
    ensures var a := Await(Subscription(p.id), es);
      && (r.result.Err? <==> a.event.Some? && a.event.value.result.Failed?)
      && r.rest == a.rest
  {
    var a := Await(Subscription(p.id), es);
    if a.event.Some? && a.event.value.result.Failed? then ConnectRun(Err(Error.Unknown), a.rest, [])
    else ConnectRun(Ok(Device(info, DefaultMtu, p, Some(w), Some(n))), a.rest, [])
  }

  /** Characteristic discovery wait, then the picks, then subscribe. */
  function CharacteristicsStage(info: BleInfo, p: Peripheral, spec: BleSpec, es: seq<CentralEvent>): (r: ConnectRun)
    ensures Delivers(r, info, p, spec)
  {
    var a := Await(Characteristics(p.id), es);
    if a.event.Some? && a.event.value.characteristics.Failed? then ConnectRun(Err(Error.Unknown), a.rest, [])
    else
      var cs := if a.event.Some? then a.event.value.characteristics.value else [];
      var n := LastWithId(cs, spec.notifyUuid);
      var w := PickWrite(cs, spec.notifyUuid, spec.writeUuid);
      if n.None? || w.None? then ConnectRun(Err(Error.Unknown), a.rest, [])
      else Prepend([Subscribe(p, n.value)], SubscribeStage(info, p, n.value, w.value, a.rest))
  }

  /** Service discovery wait: the first service returned, then characteristic discovery. */
  function ServicesStage(info: BleInfo, p: Peripheral, spec: BleSpec, es: seq<CentralEvent>): (r: ConnectRun)
    ensures Delivers(r, info, p, spec)
  {
    var a := Await(Services(p.id), es);
    if a.event.Some? && a.event.value.services.Failed? then ConnectRun(Err(Error.Unknown), a.rest, [])
    else if a.event.None? || a.event.value.services.value == [] then ConnectRun(Err(Error.Unknown), a.rest, [])
    else
      var service := a.event.value.services.value[0];
      Prepend([DiscoverCharacteristics(p, service, [spec.notifyUuid, spec.writeUuid])],
              CharacteristicsStage(info, p, spec, a.rest))
  }

  /** Connection wait: a connect-failed event fails; connected or a closed
      channel goes on to service discovery. */
  function ConnectionStage(info: BleInfo, p: Peripheral, spec: BleSpec, es: seq<CentralEvent>): (r: ConnectRun)
    ensures Delivers(r, info, p, spec)
  {
    var a := Await(Connection(p.id), es);
    if a.event.Some? && a.event.value.PeripheralConnectFailed? then ConnectRun(Err(Error.Unknown), a.rest, [])
    else Prepend([DiscoverServices(p, [spec.serviceUuid])], ServicesStage(info, p, spec, a.rest))
  }

  /** A connect-failed event for the peripheral (the first connection event
      the wait accepts) fails the handshake with `Unknown` before any further
      call; anything else goes on to discover services. */
  lemma ConnectionFails(info: BleInfo, p: Peripheral, spec: BleSpec, es: seq<CentralEvent>)
    ensures var a := Await(Connection(p.id), es);
      var r := ConnectionStage(info, p, spec, es);
      && (a.event.Some? && a.event.value.PeripheralConnectFailed? <==> r.actions == [])
      && (a.event.Some? && a.event.value.PeripheralConnectFailed? ==> r == ConnectRun(Err(Error.Unknown), a.rest, []))
  {
  }

  /** Service discovery fails with `Unknown`, and no characteristic discovery
      is made, exactly when the services reply is an error or empty, or the
      channel closes first. */
  lemma ServicesFail(info: BleInfo, p: Peripheral, spec: BleSpec, es: seq<CentralEvent>)
    ensures var a := Await(Services(p.id), es);
      var r := ServicesStage(info, p, spec, es);
      var failed := a.event.None? || a.event.value.services.Failed? || a.event.value.services.value == [];
      && (failed <==> r.actions == [])
      && (failed ==> r == ConnectRun(Err(Error.Unknown), a.rest, []))
  {
  }

  /** Characteristic discovery fails with `Unknown`, and no subscribe call is
      made, exactly when the reply is an error, or it lacks the notify or the
      write characteristic (a closed channel lacks both). */
  lemma CharacteristicsFail(info: BleInfo, p: Peripheral, spec: BleSpec, es: seq<CentralEvent>)
    ensures var a := Await(Characteristics(p.id), es);
      var r := CharacteristicsStage(info, p, spec, es);
      var cs := if a.event.Some? && a.event.value.characteristics.Done? then a.event.value.characteristics.value else [];
      var failed := (a.event.Some? && a.event.value.characteristics.Failed?)
                    || LastWithId(cs, spec.notifyUuid).None? || PickWrite(cs, spec.notifyUuid, spec.writeUuid).None?;
      && (failed <==> r.actions == [])
      && (failed ==> r == ConnectRun(Err(Error.Unknown), a.rest, []))
  {
  }

  /** `connect(info)` against the remembered table and the channel's events. */
  function ConnectHandshake(table: seq<(LedgerInfo, Peripheral)>, info: BleInfo, es: seq<CentralEvent>): ConnectRun
  {
    match FindPeripheral(table, Ble(info))
    case None => ConnectRun(Err(NoDevices), es, [])
    case Some((d, p)) =>
      match FindSpec(d.model)
      case None => ConnectRun(Err(Error.Unknown), es, [])
      case Some(spec) => Prepend([Action.Connect(p)], ConnectionStage(info, p, spec, es))
  }

  /** Failures of `connect`: info not in the table is `NoDevices` with nothing
      consumed and no call made; every other failure is `Unknown`. On success
      the device is the table's peripheral for `info`, has MTU 23, `info`
      itself, and the notify and write characteristics of its model's spec. */
  lemma ConnectOutcomes(table: seq<(LedgerInfo, Peripheral)>, info: BleInfo, es: seq<CentralEvent>)
    ensures var r := ConnectHandshake(table, info, es);
      && (FindPeripheral(table, Ble(info)).None? <==> r.result == Err(NoDevices))
      && (r.result == Err(NoDevices) ==> r.rest == es && r.actions == [])
      && (r.result.Err? ==> r.result.error in {NoDevices, Error.Unknown})
      && (r.result.Ok? ==>
            var d := r.result.value;
            var found := FindPeripheral(table, Ble(info));
            && found.Some?
            && d.info == info && d.mtu == 23 && d.peripheral == found.value.1
            && FindSpec(found.value.0.model).Some?
            && d.notifyCharacteristic.Some? && d.writeCharacteristic.Some?
            && d.notifyCharacteristic.value.id == FindSpec(found.value.0.model).value.notifyUuid
            && d.writeCharacteristic.value.id == FindSpec(found.value.0.model).value.writeUuid)
  {
    match FindPeripheral(table, Ble(info))
    case None =>
    case Some((d, p)) =>
  }

  /** A `connect` for info that the last `list` did not return fails with
      `NoDevices`, consumes no event and makes no call. */
  lemma ConnectUnlisted(table: seq<(LedgerInfo, Peripheral)>, info: BleInfo, es: seq<CentralEvent>)
    requires forall i :: 0 <= i < |Infos(table)| ==> Infos(table)[i].conn != Ble(info)
    ensures ConnectHandshake(table, info, es) == ConnectRun(Err(NoDevices), es, [])
  {
    assert forall i :: 0 <= i < |table| ==> table[i].0 == Infos(table)[i];
  }

  // ---- The same handshake as an explicit state machine ----

  datatype Ctx = Ctx(info: BleInfo, peripheral: Peripheral, spec: BleSpec)

  datatype Stage =
    | AwaitConnected(ctx: Ctx)
    | AwaitServices(ctx: Ctx)
    | AwaitCharacteristics(ctx: Ctx)
    | AwaitSubscribed(ctx: Ctx, notify: Characteristic, write: Characteristic)
    | Connected(device: Device)
    | Stopped(error: Error)
  {
    predicate Waiting()
    {
      !Connected? && !Stopped?
    }
  }

  /** The event a waiting stage is gated on. */
  function StageWait(s: Stage): Wait
    requires s.Waiting()
  {
    match s
    case AwaitConnected(ctx) => Connection(ctx.peripheral.id)
    case AwaitServices(ctx) => Services(ctx.peripheral.id)
    case AwaitCharacteristics(ctx) => Characteristics(ctx.peripheral.id)
    case AwaitSubscribed(ctx, _, _) => Subscription(ctx.peripheral.id)
  }

  /** A move of the machine and the calls it makes. */
  datatype Transition = Transition(next: Stage, actions: seq<Action>)

  function Subscribed(ctx: Ctx, n: Characteristic, w: Characteristic): Stage
  {
    Connected(Device(ctx.info, DefaultMtu, ctx.peripheral, Some(w), Some(n)))
  }

  /** What the characteristic stage does with a discovered list. */
  function Picked(ctx: Ctx, cs: seq<Characteristic>): Transition
  {
    var n := LastWithId(cs, ctx.spec.notifyUuid);
    var w := PickWrite(cs, ctx.spec.notifyUuid, ctx.spec.writeUuid);
    if n.None? || w.None? then Transition(Stopped(Error.Unknown), [])
    else Transition(AwaitSubscribed(ctx, n.value, w.value), [Subscribe(ctx.peripheral, n.value)])
  }

  /** One event: an event the stage is not gated on is skipped. */
  function Step(s: Stage, e: CentralEvent): Transition
    requires s.Waiting()
  {
    if !Matches(StageWait(s), e) then Transition(s, [])
    else match s
      case AwaitConnected(ctx) =>
        if e.PeripheralConnected? then
          Transition(AwaitServices(ctx), [DiscoverServices(ctx.peripheral, [ctx.spec.serviceUuid])])
        else Transition(Stopped(Error.Unknown), [])
      case AwaitServices(ctx) =>
        (match e.services
         case Failed => Transition(Stopped(Error.Unknown), [])
         case Done(svcs) =>
           if svcs == [] then Transition(Stopped(Error.Unknown), [])
           else Transition(AwaitCharacteristics(ctx),
                           [DiscoverCharacteristics(ctx.peripheral, svcs[0], [ctx.spec.notifyUuid, ctx.spec.writeUuid])]))
      case AwaitCharacteristics(ctx) =>
        (match e.characteristics
         case Failed => Transition(Stopped(Error.Unknown), [])
         case Done(cs) => Picked(ctx, cs))
      case AwaitSubscribed(ctx, n, w) =>
        (match e.result
         case Failed => Transition(Stopped(Error.Unknown), [])
         case Done(_) => Transition(Subscribed(ctx, n, w), []))
  }

  /** The channel closes while the stage waits: the wait falls through to
      the next step of the handshake. */
  function Close(s: Stage): Transition
    requires s.Waiting()
  {
    match s
    case AwaitConnected(ctx) =>
      Transition(Stopped(Error.Unknown), [DiscoverServices(ctx.peripheral, [ctx.spec.serviceUuid])])
    case AwaitServices(_) => Transition(Stopped(Error.Unknown), [])
    case AwaitCharacteristics(_) => Transition(Stopped(Error.Unknown), [])
    case AwaitSubscribed(ctx, n, w) => Transition(Subscribed(ctx, n, w), [])
  }

  datatype Machine = Machine(stage: Stage, rest: seq<CentralEvent>, actions: seq<Action>)

  /** Runs the machine until it stops or the channel closes. */
  function Run(s: Stage, es: seq<CentralEvent>): Machine
    decreases |es|
  {
    if !s.Waiting() then Machine(s, es, [])
    else if es == [] then Machine(Close(s).next, [], Close(s).actions)
    else
      var t := Step(s, es[0]);
      var m := Run(t.next, es[1..]);
      Machine(m.stage, m.rest, t.actions + m.actions)
  }

  /** The lookups before the first wait. */
  function Start(table: seq<(LedgerInfo, Peripheral)>, info: BleInfo): Transition
  {
    match FindPeripheral(table, Ble(info))
    case None => Transition(Stopped(NoDevices), [])
    case Some((d, p)) =>
      match FindSpec(d.model)
      case None => Transition(Stopped(Error.Unknown), [])
      case Some(spec) => Transition(AwaitConnected(Ctx(info, p, spec)), [Action.Connect(p)])
  }

  function Outcome(s: Stage): Result<Device>
  {
    match s
    case Connected(d) => Ok(d)
    case Stopped(e) => Err(e)
    case _ => Err(Error.Unknown)
  }

  /** The handshake as a state machine. */
  function ConnectMachine(table: seq<(LedgerInfo, Peripheral)>, info: BleInfo, es: seq<CentralEvent>): ConnectRun
  {
    var t := Start(table, info);
    var m := Run(t.next, es);
    ConnectRun(Outcome(m.stage), m.rest, t.actions + m.actions)
  }

  function AsConnectRun(m: Machine): ConnectRun
  {
    ConnectRun(Outcome(m.stage), m.rest, m.actions)
  }

  /** Skipping to the awaited event does not change the run. */
  lemma {:induction false} RunSkips(s: Stage, es: seq<CentralEvent>)
    requires s.Waiting()
    ensures Run(s, es) == Run(s, es[FirstMatch(StageWait(s), es)..])
    decreases |es|
  {
    if es != [] && !Matches(StageWait(s), es[0]) {
      RunSkips(s, es[1..]);
      assert es[1..][FirstMatch(StageWait(s), es[1..])..] == es[FirstMatch(StageWait(s), es)..];
      assert Run(s, es) == Run(s, es[1..]);
    }
  }

  /** A run of a waiting stage is its step on the awaited event, or its
      close when the channel has no such event. */
  lemma RunAwait(s: Stage, es: seq<CentralEvent>)
    requires s.Waiting()
    ensures var a := Await(StageWait(s), es);
      a.event.None? ==> Run(s, es) == Machine(Close(s).next, [], Close(s).actions)
    ensures var a := Await(StageWait(s), es);
      a.event.Some? ==>
        var t := Step(s, a.event.value);
        var m := Run(t.next, a.rest);
        Run(s, es) == Machine(m.stage, m.rest, t.actions + m.actions)
  {
    RunSkips(s, es);
    var k := FirstMatch(StageWait(s), es);
    if k < |es| {
      assert es[k..][1..] == es[k + 1..];
    }
  }

  lemma SubscribedAgrees(ctx: Ctx, n: Characteristic, w: Characteristic, es: seq<CentralEvent>)
    ensures AsConnectRun(Run(AwaitSubscribed(ctx, n, w), es))
            == SubscribeStage(ctx.info, ctx.peripheral, n, w, es)
  {
    RunAwait(AwaitSubscribed(ctx, n, w), es);
  }

  lemma CharacteristicsAgree(ctx: Ctx, es: seq<CentralEvent>)
    ensures AsConnectRun(Run(AwaitCharacteristics(ctx), es))
            == CharacteristicsStage(ctx.info, ctx.peripheral, ctx.spec, es)
  {
    var s := AwaitCharacteristics(ctx);
    RunAwait(s, es);
    var a := Await(StageWait(s), es);
    if a.event.Some? && a.event.value.characteristics.Done? {
      var t := Picked(ctx, a.event.value.characteristics.value);
      if t.next.AwaitSubscribed? {
        SubscribedAgrees(ctx, t.next.notify, t.next.write, a.rest);
      }
    }
  }

  lemma ServicesAgree(ctx: Ctx, es: seq<CentralEvent>)
    ensures AsConnectRun(Run(AwaitServices(ctx), es))
            == ServicesStage(ctx.info, ctx.peripheral, ctx.spec, es)
  {
    var s := AwaitServices(ctx);
    RunAwait(s, es);
    var a := Await(StageWait(s), es);
    if a.event.Some? && a.event.value.services.Done? && a.event.value.services.value != [] {
      CharacteristicsAgree(ctx, a.rest);
    }
  }

  lemma ConnectionAgrees(ctx: Ctx, es: seq<CentralEvent>)
    ensures AsConnectRun(Run(AwaitConnected(ctx), es))
            == ConnectionStage(ctx.info, ctx.peripheral, ctx.spec, es)
  {
    var s := AwaitConnected(ctx);
    RunAwait(s, es);
    var a := Await(StageWait(s), es);
    if a.event.Some? && a.event.value.PeripheralConnected? {
      ServicesAgree(ctx, a.rest);
    } else if a.event.None? {
      assert Await(Services(ctx.peripheral.id), []).event.None?;
    }
  }

  /** The stage-by-stage handshake and the event-at-a-time state machine agree
      on the result, the events consumed and the calls made, for every table,
      info and event sequence. */
  lemma ConnectIsMachine(table: seq<(LedgerInfo, Peripheral)>, info: BleInfo, es: seq<CentralEvent>)
    ensures ConnectHandshake(table, info, es) == ConnectMachine(table, info, es)
  {
    match FindPeripheral(table, Ble(info))
    case None =>
    case Some((d, p)) =>
      match FindSpec(d.model)
      case None =>
      case Some(spec) => ConnectionAgrees(Ctx(info, p, spec), es);
  }

  /** A channel that closes after the subscribe call, before any subscription
      result, still yields a connected device. */
  lemma ClosedBeforeSubscriptionResult(info: BleInfo, p: Peripheral, spec: BleSpec, svc: Service,
                                       n: Characteristic, w: Characteristic)
    requires n.id == spec.notifyUuid && w.id == spec.writeUuid && spec.notifyUuid != spec.writeUuid
    ensures ConnectionStage(info, p, spec, [PeripheralConnected(p), ServicesDiscovered(p, Done([svc])),
                                            CharacteristicsDiscovered(p, svc, Done([n, w]))]).result
            == Ok(Device(info, 23, p, Some(w), Some(n)))
  {
    var es := [PeripheralConnected(p), ServicesDiscovered(p, Done([svc])), CharacteristicsDiscovered(p, svc, Done([n, w]))];
    assert FirstMatch(Connection(p.id), es) == 0;
    assert FirstMatch(Services(p.id), es[1..]) == 0;
    assert FirstMatch(Characteristics(p.id), es[1..][1..]) == 0;
    assert es[1..][1..][1..] == [];
    var cs := [n, w];
    assert cs[..1] == [n];
    assert LastWithId(cs, spec.notifyUuid) == Some(n);
    assert LastWithId(cs, spec.writeUuid) == Some(w);
  }
}
