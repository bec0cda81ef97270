/** What `BleDevice::write_command`, `read_data` and `exchange` do to the
    event channel and the call log, as functions of the channel's events. */
module BleSession {
  import opened Bytes
  import opened Errors
  import opened Platform
  import opened BleFraming

  /** The outcome of the chunk loop, how many frames were written, and what
      is left of the channel. */
  datatype WriteRun = WriteRun(outcome: Result<()>, sent: nat, rest: seq<CentralEvent>)

  /** Write each frame, then wait for a write result of this peripheral and
      characteristic: an error result stops with `Unknown`; a closed channel
      is not an error and the loop goes on to the next frame. */
  function WriteFrames(p: Peripheral, c: Characteristic, fs: seq<seq<byte>>, es: seq<CentralEvent>): (r: WriteRun)
    ensures r.sent <= |fs|
    decreases |fs|
  {
    if fs == [] then WriteRun(Ok(()), 0, es)
    else
      var a := Await(WriteResult(p.id, c.id), es);
      if a.event.Some? && a.event.value.result.Failed? then WriteRun(Err(Unknown), 1, a.rest)
      else
        var r := WriteFrames(p, c, fs[1..], a.rest);
        WriteRun(r.outcome, r.sent + 1, r.rest)
  }

  /** The write results reported for this peripheral and characteristic, in channel order. */
  function WriteResults(p: Peripheral, c: Characteristic, es: seq<CentralEvent>): seq<Reply<()>>
  {
    if es == [] then []
    else (if Matches(WriteResult(p.id, c.id), es[0]) then [es[0].result] else []) + WriteResults(p, c, es[1..])
  }

  lemma {:induction false} AwaitWriteResults(p: Peripheral, c: Characteristic, es: seq<CentralEvent>)
    ensures var a := Await(WriteResult(p.id, c.id), es);
      if a.event.None? then WriteResults(p, c, es) == []
      else WriteResults(p, c, es) == [a.event.value.result] + WriteResults(p, c, a.rest)
  {
    var w := WriteResult(p.id, c.id);
    if es != [] {
      AwaitWriteResults(p, c, es[1..]);
      var k := FirstMatch(w, es[1..]);
      if !Matches(w, es[0]) && k < |es[1..]| {
        assert es[1..][k + 1..] == es[k + 2..];
      }
    }
  }

  /** The chunk loop over `n` frames on the write results `rs` alone:
      whether it fails, and how many frames it writes. */
  function WriteStops(n: nat, rs: seq<Reply<()>>): bool
  {
    if n == 0 then false
    else if rs != [] && rs[0].Failed? then true
    else WriteStops(n - 1, if rs == [] then [] else rs[1..])
  }

  function WriteCount(n: nat, rs: seq<Reply<()>>): nat
  {
    if n == 0 then 0
    else if rs != [] && rs[0].Failed? then 1
    else 1 + WriteCount(n - 1, if rs == [] then [] else rs[1..])
  }

  /** The chunk loop only depends on the write results of this peripheral
      and characteristic, in order: every other event is skipped. */
  lemma {:induction false} WriteFramesSkipsOthers(p: Peripheral, c: Characteristic, fs: seq<seq<byte>>, es: seq<CentralEvent>)
    ensures var r := WriteFrames(p, c, fs, es);
      var rs := WriteResults(p, c, es);
      && r.sent == WriteCount(|fs|, rs)
      && (r.outcome.Ok? <==> !WriteStops(|fs|, rs))
      && (r.outcome.Err? ==> r.outcome.error == Unknown)
    decreases |fs|
  {
    if fs != [] {
      var a := Await(WriteResult(p.id, c.id), es);
      AwaitWriteResults(p, c, es);
      var rs := WriteResults(p, c, es);
      if a.event.None? {
        WriteFramesSkipsOthers(p, c, fs[1..], a.rest);
        assert rs == [];
      } else if a.event.value.result.Done? {
        WriteFramesSkipsOthers(p, c, fs[1..], a.rest);
        assert rs[1..] == WriteResults(p, c, a.rest);
      }
    }
  }

  /** On the results alone: the loop goes through all `n` frames exactly when
      none of the first `n` results is an error, and otherwise stops right
      after the first error. */
  lemma {:induction false} WriteStopsAtFirstFailure(n: nat, rs: seq<Reply<()>>)
    ensures !WriteStops(n, rs) <==> forall j :: 0 <= j < n && j < |rs| ==> rs[j].Done?
    ensures !WriteStops(n, rs) ==> WriteCount(n, rs) == n
    ensures WriteStops(n, rs) ==>
      && 1 <= WriteCount(n, rs) <= |rs|
      && rs[WriteCount(n, rs) - 1].Failed?
      && forall j :: 0 <= j < WriteCount(n, rs) - 1 ==> rs[j].Done?
  {
    if n > 0 && !(rs != [] && rs[0].Failed?) {
      var rs' := if rs == [] then [] else rs[1..];
      WriteStopsAtFirstFailure(n - 1, rs');
      assert forall j :: 0 < j < |rs| ==> rs[j] == rs'[j - 1];
      if WriteStops(n - 1, rs') {
        var j :| 0 <= j < n - 1 && j < |rs'| && !rs'[j].Done?;
        assert rs[j + 1] == rs'[j];
      }
    }
  }

  /** The chunk loop succeeds, having written every frame, exactly when none
      of the write results it consumes is an error; otherwise it fails with
      `Unknown` right after the frame whose result was the first error. Other
      events are skipped, and a channel that closes early ends in success. */
  lemma WriteFramesResults(p: Peripheral, c: Characteristic, fs: seq<seq<byte>>, es: seq<CentralEvent>)
    ensures var r := WriteFrames(p, c, fs, es);
      var rs := WriteResults(p, c, es);
      && (r.outcome.Ok? <==> forall j :: 0 <= j < |fs| && j < |rs| ==> rs[j].Done?)
      && (r.outcome.Ok? ==> r.sent == |fs|)
      && (r.outcome.Err? ==>
            && r.outcome.error == Unknown
            && 1 <= r.sent <= |rs|
            && rs[r.sent - 1].Failed?
            && forall j :: 0 <= j < r.sent - 1 ==> rs[j].Done?)
  {
    WriteFramesSkipsOthers(p, c, fs, es);
    WriteStopsAtFirstFailure(|fs|, WriteResults(p, c, es));
  }

  /** With the channel closed, every frame is written and the write succeeds. */
  lemma WriteFramesClosedChannel(p: Peripheral, c: Characteristic, fs: seq<seq<byte>>)
    ensures WriteFrames(p, c, fs, []) == WriteRun(Ok(()), |fs|, [])
  {
    WriteFramesResults(p, c, fs, []);
  }

  /** The calls that write the frames `fs`, in order. */
  function WriteActions(p: Peripheral, c: Characteristic, fs: seq<seq<byte>>): (r: seq<Action>)
    ensures |r| == |fs|
    ensures forall i :: 0 <= i < |fs| ==> r[i] == Write(p, c, fs[i])
  {
    if fs == [] then [] else [Write(p, c, fs[0])] + WriteActions(p, c, fs[1..])
  }

  /** `write_command(cmd, payload)` on a device with these handles and MTU. */
  function WriteCommandRun(p: Peripheral, wc: Option<Characteristic>, mtu: byte, cmd: byte,
                           payload: seq<byte>, es: seq<CentralEvent>): WriteRun
    requires mtu as nat > HeaderLen
  {
    if wc.None? then WriteRun(Err(Unknown), 0, es)
    else WriteFrames(p, wc.value, Frames(cmd, payload, mtu), es)
  }

  /** The calls `write_command` makes for a run: a prefix of the frames. */
  function WriteCommandActions(p: Peripheral, wc: Option<Characteristic>, mtu: byte, cmd: byte,
                               payload: seq<byte>, r: WriteRun): seq<Action>
    requires mtu as nat > HeaderLen
    requires r.sent <= |Frames(cmd, payload, mtu)|
  {
    if wc.None? then [] else WriteActions(p, wc.value, Frames(cmd, payload, mtu)[..r.sent])
  }

  /** The result of a read and what is left of the channel. */
  datatype ReadRun = ReadRun(result: Result<seq<byte>>, rest: seq<CentralEvent>)

  /** `value[5..]`, the payload of a notification of at least 5 bytes. */
  function NotifyPayload(v: seq<byte>): seq<byte>
    requires |v| >= NotifyHeaderLen
  {
    v[NotifyHeaderLen..]
  }

  /** The `while buff.len() < len` loop: wait for a value of this peripheral
      and characteristic and append `value[5..]`; no tag is checked on these
      frames and the buffer is not cut back to `len`. */
  function Reassemble(p: Peripheral, c: Characteristic, buff: seq<byte>, len: nat, es: seq<CentralEvent>): ReadRun
    decreases |es|
  {
    if |buff| >= len then ReadRun(Ok(buff), es)
    else
      var a := Await(Value(p.id, c.id), es);
      if a.event.None? then ReadRun(Err(Closed), a.rest)
      else match a.event.value.value
        case Failed => ReadRun(Err(Unknown), a.rest)
        case Done(v) =>
          if |v| < NotifyHeaderLen then ReadRun(Err(IndexPanic), a.rest)
          else Reassemble(p, c, buff + NotifyPayload(v), len, a.rest)
  }

  /** The values notified for this peripheral and characteristic, in channel order. */
  function Notifications(p: Peripheral, c: Characteristic, es: seq<CentralEvent>): seq<Reply<seq<byte>>>
  {
    if es == [] then []
    else (if Matches(Value(p.id, c.id), es[0]) then [es[0].value] else []) + Notifications(p, c, es[1..])
  }

  /** A wait for a value returns the first notification, and the
      notifications after it are those of the rest of the channel. */
  lemma {:induction false} AwaitNotifications(p: Peripheral, c: Characteristic, es: seq<CentralEvent>)
    ensures var a := Await(Value(p.id, c.id), es);
      if a.event.None? then Notifications(p, c, es) == []
      else Notifications(p, c, es) == [a.event.value.value] + Notifications(p, c, a.rest)
  {
    var w := Value(p.id, c.id);
    if es != [] {
      AwaitNotifications(p, c, es[1..]);
      var k := FirstMatch(w, es[1..]);
      if !Matches(w, es[0]) && k < |es[1..]| {
        assert es[1..][k + 1..] == es[k + 2..];
      }
    }
  }

  /** Reference reassembly over the notified values alone. */
  function ReassembleFrom(buff: seq<byte>, len: nat, ns: seq<Reply<seq<byte>>>): Result<seq<byte>>
    decreases |ns|
  {
    if |buff| >= len then Ok(buff)
    else if ns == [] then Err(Closed)
    else match ns[0]
      case Failed => Err(Unknown)
      case Done(v) =>
        if |v| < NotifyHeaderLen then Err(IndexPanic)
        else ReassembleFrom(buff + NotifyPayload(v), len, ns[1..])
  }

  /** Reassembly only depends on the values of this peripheral and
      characteristic, in order: every other event is skipped. */
  lemma {:induction false} ReassembleSkipsOthers(p: Peripheral, c: Characteristic, buff: seq<byte>, len: nat, es: seq<CentralEvent>)
    ensures Reassemble(p, c, buff, len, es).result == ReassembleFrom(buff, len, Notifications(p, c, es))
    decreases |es|
  {
    if |buff| < len {
      var a := Await(Value(p.id, c.id), es);
      AwaitNotifications(p, c, es);
      if a.event.Some? && a.event.value.value.Done? && |a.event.value.value.value| >= NotifyHeaderLen {
        ReassembleSkipsOthers(p, c, buff + NotifyPayload(a.event.value.value.value), len, a.rest);
      }
    }
  }

  /** Concatenation of `value[5..]` over notified values. */
  function Payloads(ns: seq<Reply<seq<byte>>>): seq<byte>
  {
    if ns == [] then []
    else (if ns[0].Done? && |ns[0].value| >= NotifyHeaderLen then NotifyPayload(ns[0].value) else [])
         + Payloads(ns[1..])
  }

  /** Good frames: values of 5 bytes or more. */
  predicate GoodFrames(ns: seq<Reply<seq<byte>>>)
  {
    forall j :: 0 <= j < |ns| ==> ns[j].Done? && |ns[j].value| >= NotifyHeaderLen
  }

  /** No proper prefix of the first `n` values brings `buff` to `len` bytes. */
  predicate Minimal(buff: seq<byte>, len: nat, ns: seq<Reply<seq<byte>>>, n: nat)
    requires n <= |ns|
  {
    forall m :: 0 <= m < n ==> |buff| + |Payloads(ns[..m])| < len
  }

  lemma PayloadsPrefix(ns: seq<Reply<seq<byte>>>, m: nat)
    requires 1 <= m <= |ns|
    requires ns[0].Done? && |ns[0].value| >= NotifyHeaderLen
    ensures Payloads(ns[..m]) == NotifyPayload(ns[0].value) + Payloads(ns[1..][..m - 1])
  {
    assert ns[..m][1..] == ns[1..][..m - 1];
  }

  lemma GoodFramesCons(ns: seq<Reply<seq<byte>>>, n: nat)
    requires 1 <= n <= |ns|
    requires ns[0].Done? && |ns[0].value| >= NotifyHeaderLen
    requires GoodFrames(ns[1..][..n - 1])
    ensures GoodFrames(ns[..n])
  {
    assert forall j :: 1 <= j < n ==> ns[..n][j] == ns[1..][..n - 1][j - 1];
  }

  lemma MinimalCons(buff: seq<byte>, len: nat, ns: seq<Reply<seq<byte>>>, n: nat)
    requires 1 <= n <= |ns|
    requires ns[0].Done? && |ns[0].value| >= NotifyHeaderLen
    requires |buff| < len
    requires Minimal(buff + NotifyPayload(ns[0].value), len, ns[1..], n - 1)
    ensures Minimal(buff, len, ns, n)
  {
    forall m | 0 <= m < n ensures |buff| + |Payloads(ns[..m])| < len {
      if m == 0 {
        assert ns[..0] == [];
      } else {
        PayloadsPrefix(ns, m);
        assert |buff + NotifyPayload(ns[0].value)| + |Payloads(ns[1..][..m - 1])| < len;
      }
    }
  }

  /** `r` is `buff` followed by `value[5..]` of the first `n` values, for some
      `n`: each of them a good frame of 5 bytes or more, `r` at least `len`
      bytes long (possibly longer), and no shorter prefix reaching `len`. */
  ghost predicate Reassembled(buff: seq<byte>, len: nat, ns: seq<Reply<seq<byte>>>, r: seq<byte>)
  {
    exists n :: 0 <= n <= |ns| && GoodFrames(ns[..n]) && r == buff + Payloads(ns[..n]) && |r| >= len
      && Minimal(buff, len, ns, n)
  }

  /** How many notified values a reassembly from `buff` consumes. */
  function FramesUsed(buff: seq<byte>, len: nat, ns: seq<Reply<seq<byte>>>): (n: nat)
    ensures n <= |ns|
    decreases |ns|
  {
    if |buff| >= len || ns == [] || ns[0].Failed? || |ns[0].value| < NotifyHeaderLen then 0
    else 1 + FramesUsed(buff + NotifyPayload(ns[0].value), len, ns[1..])
  }

  /** A successful reassembly consumes `FramesUsed` good frames and stops at
      the first prefix that reaches `len` bytes. */
  lemma {:induction false} ReassembleFromPrefix(buff: seq<byte>, len: nat, ns: seq<Reply<seq<byte>>>)
    requires ReassembleFrom(buff, len, ns).Ok?
    ensures var n := FramesUsed(buff, len, ns);
      GoodFrames(ns[..n]) && ReassembleFrom(buff, len, ns).value == buff + Payloads(ns[..n])
      && |buff + Payloads(ns[..n])| >= len && Minimal(buff, len, ns, n)
    decreases |ns|
  {
    if |buff| >= len {
      assert ns[..0] == [];
    } else {
      var v := ns[0].value;
      var buff' := buff + NotifyPayload(v);
      var tl := ns[1..];
      ReassembleFromPrefix(buff', len, tl);
      var n' := FramesUsed(buff', len, tl);
      assert FramesUsed(buff, len, ns) == n' + 1;
      PayloadsPrefix(ns, n' + 1);
      GoodFramesCons(ns, n' + 1);
      MinimalCons(buff, len, ns, n' + 1);
      assert buff' + Payloads(tl[..n']) == buff + (NotifyPayload(v) + Payloads(tl[..n']));
    }
  }

  /** What a successful reassembly returns. */
  lemma ReassembleFromOk(buff: seq<byte>, len: nat, ns: seq<Reply<seq<byte>>>)
    requires ReassembleFrom(buff, len, ns).Ok?
    ensures Reassembled(buff, len, ns, ReassembleFrom(buff, len, ns).value)
  {
    ReassembleFromPrefix(buff, len, ns);
    var n := FramesUsed(buff, len, ns);
    assert GoodFrames(ns[..n]) && Minimal(buff, len, ns, n);
  }

  /** Where a reassembly stops: it succeeds once the consumed good frames
      reach `len`. It is `Closed` exactly when every notification is a good
      frame and together they are still short. It is `Unknown` exactly when
      the next notification needed is an error, and `IndexPanic` exactly
      when that notification is shorter than 5 bytes. */
  lemma {:induction false} ReassembleFromOutcomes(buff: seq<byte>, len: nat, ns: seq<Reply<seq<byte>>>)
    ensures var r := ReassembleFrom(buff, len, ns);
      var n := FramesUsed(buff, len, ns);
      var short := |buff| + |Payloads(ns[..n])| < len;
      && GoodFrames(ns[..n])
      && (r.Ok? <==> !short)
      && (r == Err(Closed) <==> GoodFrames(ns) && |buff| + |Payloads(ns)| < len)
      && (r == Err(Unknown) <==> short && n < |ns| && ns[n].Failed?)
      && (r == Err(IndexPanic) <==> short && n < |ns| && ns[n].Done? && |ns[n].value| < NotifyHeaderLen)
      && (r.Err? ==> r.error in {Closed, Unknown, IndexPanic})
    decreases |ns|
  {
    if |buff| >= len || ns == [] || ns[0].Failed? || |ns[0].value| < NotifyHeaderLen {
      assert ns[..0] == [];
      if ns != [] {
        assert !GoodFrames(ns) || |buff| >= len;
      }
    } else {
      var v := ns[0].value;
      var buff' := buff + NotifyPayload(v);
      var tl := ns[1..];
      ReassembleFromOutcomes(buff', len, tl);
      var n' := FramesUsed(buff', len, tl);
      assert FramesUsed(buff, len, ns) == n' + 1;
      PayloadsPrefix(ns, n' + 1);
      GoodFramesCons(ns, n' + 1);
      assert ns[n' + 1 ..] == tl[n'..];
      assert Payloads(ns) == NotifyPayload(v) + Payloads(tl);
      assert GoodFrames(ns) <==> GoodFrames(tl) by {
        assert forall j :: 0 < j < |ns| ==> ns[j] == tl[j - 1];
      }
      assert |buff'| + |Payloads(tl[..n'])| == |buff| + |Payloads(ns[..n' + 1])|;
      assert |buff'| + |Payloads(tl)| == |buff| + |Payloads(ns)|;
      assert n' < |tl| ==> ns[n' + 1] == tl[n'];
    }
  }

  /** `read_data` on a device with this peripheral and notify handle. */
  function ReadDataRun(p: Peripheral, nc: Option<Characteristic>, es: seq<CentralEvent>): ReadRun
  {
    if nc.None? then ReadRun(Err(Unknown), es)
    else
      var c := nc.value;
      var s := Await(SubscriptionOf(p.id, c.id), es);
      if s.event.Some? && s.event.value.result.Failed? then ReadRun(Err(Unknown), s.rest)
      else
        var f := Await(Value(p.id, c.id), s.rest);
        if f.event.None? then ReadRun(Err(Closed), f.rest)
        else match f.event.value.value
          case Failed => ReadRun(Err(Unknown), f.rest)
          case Done(v) =>
            match ResponseHeader(v)
            case Err(e) => ReadRun(Err(e), f.rest)
            case Ok(len) => Reassemble(p, c, NotifyPayload(v), len, f.rest)
  }

  /** The calls `read_data` makes: subscribe, and unsubscribe once the response is complete. */
  function ReadDataActions(p: Peripheral, nc: Option<Characteristic>, r: ReadRun): seq<Action>
  {
    if nc.None? then []
    else [Subscribe(p, nc.value)] + (if r.result.Ok? then [Unsubscribe(p, nc.value)] else [])
  }

  /** Without a notify characteristic `read_data` is `Unknown` and consumes
      nothing. The first response notification (after the subscription wait)
      decides the error cases: a closed channel is `Closed`, an error value is
      `Unknown`, a frame shorter than 5
      bytes or not tagged 0x05 is `UnexpectedResponse`, a zero length byte is
      `EmptyResponse`; otherwise the response is reassembled from its
      `value[5..]` and the notifications after it, for the declared length. */
  lemma ReadDataFirstFrame(p: Peripheral, c: Characteristic, es: seq<CentralEvent>)
    ensures ReadDataRun(p, None, es) == ReadRun(Err(Unknown), es)
    ensures var s := Await(SubscriptionOf(p.id, c.id), es);
      var f := Await(Value(p.id, c.id), s.rest);
      var r := ReadDataRun(p, Some(c), es).result;
      s.event.Some? && s.event.value.result.Failed? ==> r == Err(Unknown)
    ensures var s := Await(SubscriptionOf(p.id, c.id), es);
      var f := Await(Value(p.id, c.id), s.rest);
      var r := ReadDataRun(p, Some(c), es).result;
      (s.event.None? || s.event.value.result.Done?) ==>
        && (f.event.None? ==> r == Err(Closed))
        && (f.event.Some? && f.event.value.value.Failed? ==> ReadDataRun(p, Some(c), es) == ReadRun(Err(Unknown), f.rest))
        && (f.event.Some? && f.event.value.value.Done? ==>
              var v := f.event.value.value.value;
              && (|v| < 5 || v[0] != 0x05 ==> r == Err(UnexpectedResponse))
              && (|v| >= 5 && v[0] == 0x05 && v[4] == 0 ==> r == Err(EmptyResponse))
              && (|v| >= 5 && v[0] == 0x05 && v[4] != 0 ==>
                    ReadDataRun(p, Some(c), es) == Reassemble(p, c, v[5..], v[4] as nat, f.rest)))
  {
    var s := Await(SubscriptionOf(p.id, c.id), es);
    var f := Await(Value(p.id, c.id), s.rest);
    if f.event.Some? && f.event.value.value.Done? {
      ResponseHeaderCases(f.event.value.value.value);
    }
  }

  /** On success `read_data` has met a first notification (after the
      subscription wait) of 5 bytes or more, tagged 0x05, with a non-zero
      length byte, and returns its `value[5..]` followed by that of the
      continuation notifications consumed, in order: at least the declared
      length long, and no shorter prefix of them already reached it. */
  lemma ReadDataOk(p: Peripheral, c: Characteristic, es: seq<CentralEvent>)
    requires ReadDataRun(p, Some(c), es).result.Ok?
    ensures var s := Await(SubscriptionOf(p.id, c.id), es);
      var f := Await(Value(p.id, c.id), s.rest);
      && f.event.Some? && f.event.value.value.Done?
      && var v := f.event.value.value.value;
      && |v| >= 5 && v[0] == 0x05 && v[4] != 0
      && Reassembled(v[5..], v[4] as nat, Notifications(p, c, f.rest), ReadDataRun(p, Some(c), es).result.value)
  {
    var s := Await(SubscriptionOf(p.id, c.id), es);
    var f := Await(Value(p.id, c.id), s.rest);
    var v := f.event.value.value.value;
    ResponseHeaderCases(v);
    assert ReadDataRun(p, Some(c), es) == Reassemble(p, c, NotifyPayload(v), v[4] as nat, f.rest);
    ReassembleSkipsOthers(p, c, NotifyPayload(v), v[4] as nat, f.rest);
    ReassembleFromOk(NotifyPayload(v), v[4] as nat, Notifications(p, c, f.rest));
  }

  /** After a valid first notification, `read_data` fails with `Closed`
      exactly when the channel runs out of notifications while a frame is
      still needed. It fails with `Unknown` exactly when the next notification
      needed is an error, and with the out-of-bounds slice exactly when that
      notification is shorter than 5 bytes; other events are skipped. */
  lemma ReadDataContinuation(p: Peripheral, c: Characteristic, es: seq<CentralEvent>)
    ensures var s := Await(SubscriptionOf(p.id, c.id), es);
      var f := Await(Value(p.id, c.id), s.rest);
      var r := ReadDataRun(p, Some(c), es).result;
      (s.event.None? || s.event.value.result.Done?) && f.event.Some? && f.event.value.value.Done? ==>
        var v := f.event.value.value.value;
        |v| >= 5 && v[0] == 0x05 && v[4] != 0 ==>
          var ns := Notifications(p, c, f.rest);
          var n := FramesUsed(v[5..], v[4] as nat, ns);
          var short := |v[5..]| + |Payloads(ns[..n])| < v[4] as nat;
          && (r == Err(Closed) <==> GoodFrames(ns) && |v[5..]| + |Payloads(ns)| < v[4] as nat)
          && (r == Err(Unknown) <==> short && n < |ns| && ns[n].Failed?)
          && (r == Err(IndexPanic) <==> short && n < |ns| && ns[n].Done? && |ns[n].value| < 5)
  {
    var s := Await(SubscriptionOf(p.id, c.id), es);
    var f := Await(Value(p.id, c.id), s.rest);
    if (s.event.None? || s.event.value.result.Done?) && f.event.Some? && f.event.value.value.Done? {
      var v := f.event.value.value.value;
      if |v| >= 5 && v[0] == 0x05 && v[4] != 0 {
        ResponseHeaderCases(v);
        assert ReadDataRun(p, Some(c), es) == Reassemble(p, c, NotifyPayload(v), v[4] as nat, f.rest);
        ReassembleSkipsOthers(p, c, NotifyPayload(v), v[4] as nat, f.rest);
        ReassembleFromOutcomes(NotifyPayload(v), v[4] as nat, Notifications(p, c, f.rest));
      }
    }
  }

  /** The result, what is left of the channel, and the calls of one `exchange`. */
  datatype ExchangeRun = ExchangeRun(result: Result<seq<byte>>, rest: seq<CentralEvent>, actions: seq<Action>)

  /** `exchange(command)`: `write_command(0x05, command)`, then `read_data`,
      unless the write failed. */
  function Exchange(p: Peripheral, wc: Option<Characteristic>, nc: Option<Characteristic>, mtu: byte,
                    command: seq<byte>, es: seq<CentralEvent>): ExchangeRun
    requires mtu as nat > HeaderLen
  {
    var w := WriteCommandRun(p, wc, mtu, ApduCommand, command, es);
    var wa := WriteCommandActions(p, wc, mtu, ApduCommand, command, w);
    if w.outcome.Err? then ExchangeRun(Err(w.outcome.error), w.rest, wa)
    else
      var r := ReadDataRun(p, nc, w.rest);
      ExchangeRun(r.result, r.rest, wa + ReadDataActions(p, nc, r))
  }

  /** A failed write ends the exchange with its error before anything is
      read: no subscription is made and only frame writes were issued. */
  lemma ExchangeWriteFailure(p: Peripheral, wc: Option<Characteristic>, nc: Option<Characteristic>, mtu: byte,
                             command: seq<byte>, es: seq<CentralEvent>)
    requires mtu as nat > HeaderLen
    requires WriteCommandRun(p, wc, mtu, ApduCommand, command, es).outcome.Err?
    ensures var x := Exchange(p, wc, nc, mtu, command, es);
      && x.result == Err(Unknown)
      && x.rest == WriteCommandRun(p, wc, mtu, ApduCommand, command, es).rest
      && forall i :: 0 <= i < |x.actions| ==> x.actions[i].Write?
  {
    if wc.Some? {
      WriteFramesResults(p, wc.value, Frames(ApduCommand, command, mtu), es);
    }
  }

  /** The exchange of the end-to-end scenario: a one-frame command and a
      one-frame response `[0x05, 0, 0, 0, 2, 0xCC, 0xDD]` give `[0xCC, 0xDD]`. */
  lemma ExchangeExample(p: Peripheral, wc: Characteristic, nc: Characteristic)
    ensures var es := [WriteCharacteristicResult(p, wc, Done(())),
                       SubscriptionChangeResult(p, nc, Done(())),
                       CharacteristicValue(p, nc, Done([0x05, 0, 0, 0, 2, 0xCC, 0xDD]))];
      var x := Exchange(p, Some(wc), Some(nc), DefaultMtu, [0xAA, 0xBB], es);
      x.result == Ok([0xCC, 0xDD]) && x.rest == [] &&
      x.actions == [Write(p, wc, [0x05, 0, 0, 0, 2, 0xAA, 0xBB]), Subscribe(p, nc), Unsubscribe(p, nc)]
  {
    var body: seq<byte> := [0, 2, 0xAA, 0xBB];
    assert Body([0xAA, 0xBB]) == body;
    assert Chunks(body, 20) == [body];
    var frame: seq<byte> := [0x05, 0, 0, 0, 2, 0xAA, 0xBB];
    assert Frame(ApduCommand, 0, body) == frame;
    var fs := Frames(ApduCommand, [0xAA, 0xBB], DefaultMtu);
    assert fs == [frame];
    var es := [WriteCharacteristicResult(p, wc, Done(())),
               SubscriptionChangeResult(p, nc, Done(())),
               CharacteristicValue(p, nc, Done([0x05, 0, 0, 0, 2, 0xCC, 0xDD]))];
    assert FirstMatch(WriteResult(p.id, wc.id), es) == 0;
    var es2 := es[1..];
    assert WriteFrames(p, wc, fs[1..], es2) == WriteRun(Ok(()), 0, es2);
    var w := WriteFrames(p, wc, fs, es);
    assert w == WriteRun(Ok(()), 1, es2);
    assert FirstMatch(SubscriptionOf(p.id, nc.id), es2) == 0;
    var es3 := es2[1..];
    assert FirstMatch(Value(p.id, nc.id), es3) == 0;
    var v: seq<byte> := [0x05, 0, 0, 0, 2, 0xCC, 0xDD];
    assert ResponseHeader(v) == Ok(2);
    assert NotifyPayload(v) == [0xCC, 0xDD];
    assert es3[1..] == [];
    assert ReadDataRun(p, Some(nc), es2) == ReadRun(Ok([0xCC, 0xDD]), []);
  }

  /** The response is not truncated to its declared length. */
  lemma ReadDataNotTruncated(p: Peripheral, c: Characteristic)
    ensures ReadDataRun(p, Some(c), [SubscriptionChangeResult(p, c, Done(())),
                                     CharacteristicValue(p, c, Done([0x05, 0, 0, 0, 1, 0xCC, 0xDD]))]).result
            == Ok([0xCC, 0xDD])
  {
    var v0: seq<byte> := [0x05, 0, 0, 0, 1, 0xCC, 0xDD];
    var e0 := [SubscriptionChangeResult(p, c, Done(())), CharacteristicValue(p, c, Done(v0))];
    assert FirstMatch(SubscriptionOf(p.id, c.id), e0) == 0;
    assert FirstMatch(Value(p.id, c.id), e0[1..]) == 0;
    assert ResponseHeader(v0) == Ok(1) && NotifyPayload(v0) == [0xCC, 0xDD];
    assert e0[1..][1..] == [];
  }

  /** Continuation frames of exactly 5 bytes add nothing, and their tags are
      not checked. */
  lemma ReadDataEmptyContinuation(p: Peripheral, c: Characteristic)
    ensures ReadDataRun(p, Some(c), [SubscriptionChangeResult(p, c, Done(())),
                                     CharacteristicValue(p, c, Done([0x05, 0, 0, 0, 1])),
                                     CharacteristicValue(p, c, Done([0x05, 0, 0, 0, 9])),
                                     CharacteristicValue(p, c, Done([0x03, 0, 1, 0, 0, 0xEE]))]).result
            == Ok([0xEE])
  {
    var w := Value(p.id, c.id);
    var sub := SubscriptionChangeResult(p, c, Done(()));
    var v1: seq<byte> := [0x05, 0, 0, 0, 1];
    var v2: seq<byte> := [0x05, 0, 0, 0, 9];
    var v3: seq<byte> := [0x03, 0, 1, 0, 0, 0xEE];
    var es := [CharacteristicValue(p, c, Done(v1)), CharacteristicValue(p, c, Done(v2)), CharacteristicValue(p, c, Done(v3))];
    assert FirstMatch(SubscriptionOf(p.id, c.id), [sub] + es) == 0;
    assert ([sub] + es)[1..] == es;
    assert FirstMatch(w, es) == 0;
    assert ResponseHeader(v1) == Ok(1) && NotifyPayload(v1) == [];
    assert FirstMatch(w, es[1..]) == 0 && es[1..][1..] == es[2..];
    var empty: seq<byte> := [];
    assert empty + NotifyPayload(v2) == empty;
    assert Reassemble(p, c, empty, 1, es[1..]) == Reassemble(p, c, empty, 1, es[2..]);
    assert Await(w, es[2..]) == Awaited(Some(CharacteristicValue(p, c, Done(v3))), []);
    assert empty + NotifyPayload(v3) == [0xEE];
    assert Reassemble(p, c, empty, 1, es[2..]) == Reassemble(p, c, [0xEE], 1, []);
  }

  /** A continuation frame shorter than 5 bytes is the out-of-bounds slice. */
  lemma ReadDataShortContinuation(p: Peripheral, c: Characteristic)
    ensures ReadDataRun(p, Some(c), [SubscriptionChangeResult(p, c, Done(())),
                                     CharacteristicValue(p, c, Done([0x05, 0, 0, 0, 2, 0xCC])),
                                     CharacteristicValue(p, c, Done([0x03, 0, 1]))]).result
            == Err(IndexPanic)
  {
    var w := Value(p.id, c.id);
    var sub := SubscriptionChangeResult(p, c, Done(()));
    var u0: seq<byte> := [0x05, 0, 0, 0, 2, 0xCC];
    var u1: seq<byte> := [0x03, 0, 1];
    var es' := [CharacteristicValue(p, c, Done(u0)), CharacteristicValue(p, c, Done(u1))];
    assert FirstMatch(SubscriptionOf(p.id, c.id), [sub] + es') == 0;
    assert ([sub] + es')[1..] == es';
    assert FirstMatch(w, es') == 0;
    assert ResponseHeader(u0) == Ok(2) && NotifyPayload(u0) == [0xCC];
    assert FirstMatch(w, es'[1..]) == 0;
  }

  /** Values that arrive before the subscription result are skipped by the
      subscription wait. */
  lemma ReadDataSkipsEarlyValues(p: Peripheral, c: Characteristic)
    ensures ReadDataRun(p, Some(c), [CharacteristicValue(p, c, Done([0x05, 0, 0, 0, 1, 0xCC])),
                                     SubscriptionChangeResult(p, c, Done(()))]).result
            == Err(Closed)
  {
    var e4 := [CharacteristicValue(p, c, Done([0x05, 0, 0, 0, 1, 0xCC])), SubscriptionChangeResult(p, c, Done(()))];
    assert FirstMatch(SubscriptionOf(p.id, c.id), e4) == 1;
    assert e4[2..] == [];
  }
}
