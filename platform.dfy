/** The CoreBluetooth side of the BLE transport, as data: the central event
    channel is a finite sequence of events whose end means the channel is
    closed, and every call made into the platform is appended to a log. */
module Platform {
  import opened Bytes
  import opened Errors

  /** A platform UUID, identified with its canonical text, so that
      `id().to_string()` is `text`. */
  datatype Uuid = Uuid(text: string)

  datatype Peripheral = Peripheral(id: Uuid)
  datatype Service = Service(id: Uuid)
  /** A characteristic object: its UUID and an opaque platform handle. */
  datatype Characteristic = Characteristic(id: Uuid, handle: nat)

  datatype ManagerState = StateUnknown | Resetting | Unsupported | Unauthorized | PoweredOff | PoweredOn

  /** A platform result: `Ok(value)` or an error whose content the core never reads. */
  datatype Reply<+T> = Done(value: T) | Failed

  datatype CentralEvent =
    | ManagerStateChanged(newState: ManagerState)
    | PeripheralDiscovered(peripheral: Peripheral, localName: Option<string>)
    | PeripheralConnected(peripheral: Peripheral)
    | PeripheralConnectFailed(peripheral: Peripheral)
    | PeripheralDisconnected(peripheral: Peripheral)
    | ServicesDiscovered(peripheral: Peripheral, services: Reply<seq<Service>>)
    | CharacteristicsDiscovered(peripheral: Peripheral, service: Service, characteristics: Reply<seq<Characteristic>>)
    | SubscriptionChangeResult(peripheral: Peripheral, characteristic: Characteristic, result: Reply<()>)
    | WriteCharacteristicResult(peripheral: Peripheral, characteristic: Characteristic, result: Reply<()>)
    | CharacteristicValue(peripheral: Peripheral, characteristic: Characteristic, value: Reply<seq<byte>>)

  /** The calls the core makes into CoreBluetooth. Writes are `WithResponse`. */
  datatype Action =
    | Scan
    | Connect(peripheral: Peripheral)
    | DiscoverServices(peripheral: Peripheral, uuids: seq<Uuid>)
    | DiscoverCharacteristics(peripheral: Peripheral, service: Service, uuids: seq<Uuid>)
    | Subscribe(peripheral: Peripheral, characteristic: Characteristic)
    | Unsubscribe(peripheral: Peripheral, characteristic: Characteristic)
    | Write(peripheral: Peripheral, characteristic: Characteristic, data: seq<byte>)

  /** What one `while let Ok(event) = receiver.recv()` loop is waiting for;
      every other event is skipped. Peripherals and characteristics are
      compared by `id()`. */
  datatype Wait =
    | PowerDecision                                 // PoweredOn, Unsupported or Unauthorized
    | Connection(peripheral: Uuid)                  // connected or connect-failed
    | Services(peripheral: Uuid)
    | Characteristics(peripheral: Uuid)
    | Subscription(peripheral: Uuid)                // any characteristic
    | SubscriptionOf(peripheral: Uuid, characteristic: Uuid)
    | WriteResult(peripheral: Uuid, characteristic: Uuid)
    | Value(peripheral: Uuid, characteristic: Uuid)

  predicate Matches(w: Wait, e: CentralEvent)
  {
    match w
    case PowerDecision =>
      e.ManagerStateChanged? && e.newState in {PoweredOn, Unsupported, Unauthorized}
    case Connection(p) =>
      (e.PeripheralConnected? || e.PeripheralConnectFailed?) && e.peripheral.id == p
    case Services(p) => e.ServicesDiscovered? && e.peripheral.id == p
    case Characteristics(p) => e.CharacteristicsDiscovered? && e.peripheral.id == p
    case Subscription(p) => e.SubscriptionChangeResult? && e.peripheral.id == p
    case SubscriptionOf(p, c) =>
      e.SubscriptionChangeResult? && e.peripheral.id == p && e.characteristic.id == c
    case WriteResult(p, c) =>
      e.WriteCharacteristicResult? && e.peripheral.id == p && e.characteristic.id == c
    case Value(p, c) =>
      e.CharacteristicValue? && e.peripheral.id == p && e.characteristic.id == c
  }

  /** Index of the first event `w` accepts, or `|es|` when there is none. */
  function FirstMatch(w: Wait, es: seq<CentralEvent>): (k: nat)
    ensures k <= |es|
    ensures k < |es| ==> Matches(w, es[k])
    ensures forall j :: 0 <= j < k ==> !Matches(w, es[j])
  {
    if es == [] then 0
    else if Matches(w, es[0]) then 0
    else 1 + FirstMatch(w, es[1..])
  }

  datatype Awaited = Awaited(event: Option<CentralEvent>, rest: seq<CentralEvent>)

  /** One wait loop: the first accepted event and what is left of the channel
      after it; `None` with nothing left when the channel closes first. */
  function Await(w: Wait, es: seq<CentralEvent>): (a: Awaited)
    ensures a.event.Some? ==> Matches(w, a.event.value) && |a.rest| < |es|
    ensures a.event.None? ==> a.rest == [] && forall j :: 0 <= j < |es| ==> !Matches(w, es[j])
  {
    var k := FirstMatch(w, es);
    if k < |es| then Awaited(Some(es[k]), es[k + 1..]) else Awaited(None, [])
  }

  /** The events `w` accepts, in channel order. */
  function Accepted(w: Wait, es: seq<CentralEvent>): (r: seq<CentralEvent>)
  {
    if es == [] then []
    else (if Matches(w, es[0]) then [es[0]] else []) + Accepted(w, es[1..])
  }

  /** A wait returns the first accepted event, and the accepted events after
      it are those of the rest of the channel. */
  lemma {:induction false} AwaitAccepted(w: Wait, es: seq<CentralEvent>)
    ensures var a := Await(w, es);
      if a.event.None? then Accepted(w, es) == [] && a.rest == []
      else Accepted(w, es) == [a.event.value] + Accepted(w, a.rest) && |a.rest| < |es|
  {
    if es != [] {
      AwaitAccepted(w, es[1..]);
      var k := FirstMatch(w, es[1..]);
      if Matches(w, es[0]) {
        assert Accepted(w, es) == [es[0]] + Accepted(w, es[1..]);
      } else {
        assert Accepted(w, es) == Accepted(w, es[1..]);
        if k < |es[1..]| {
          assert es[1..][k + 1..] == es[k + 2..];
        }
      }
    }
  }

  /** The receiving end of the central's event channel and the calls issued
      to the central manager and peripherals. */
  class Link {
    var pending: seq<CentralEvent>
    var log: seq<Action>

    constructor (events: seq<CentralEvent>)
      ensures pending == events && log == []
    {
      pending := events;
      log := [];
    }

    /** A call into the platform. */
    method Issue(a: Action)
      modifies this
      ensures log == old(log) + [a] && pending == old(pending)
    {
      log := log + [a];
    }

    /** `receiver.recv()` / `try_recv()`: the next event, or `None` once the
        channel is closed (or, for `try_recv`, empty). */
    method Recv() returns (e: Option<CentralEvent>)
      modifies this
      ensures old(pending) == [] ==> e == None && pending == []
      ensures old(pending) != [] ==> e == Some(old(pending)[0]) && pending == old(pending)[1..]
      ensures log == old(log)
    {
      if pending == [] {
        e := None;
      } else {
        e := Some(pending[0]);
        pending := pending[1..];
      }
    }

    /** `while let Ok(event) = receiver.recv() { match event { <w> => .., _ => continue } }`:
        skips events until one that `w` accepts. */
    method RecvMatching(w: Wait) returns (e: Option<CentralEvent>)
      modifies this
      ensures e == Await(w, old(pending)).event
      ensures pending == Await(w, old(pending)).rest
      ensures log == old(log)
    {
      ghost var skipped := 0;
      e := Recv();
      while e.Some? && !Matches(w, e.value)
        invariant skipped < |old(pending)| ==> e == Some(old(pending)[skipped]) && pending == old(pending)[skipped + 1..]
        invariant skipped <= |old(pending)|
        invariant skipped == |old(pending)| <==> e.None?
        invariant e.None? ==> pending == []
        invariant forall j :: 0 <= j < skipped ==> !Matches(w, old(pending)[j])
        invariant log == old(log)
        decreases |pending|, e.Some?
      {
        skipped := skipped + 1;
        e := Recv();
      }
      assert skipped == FirstMatch(w, old(pending));
    }
  }
}
