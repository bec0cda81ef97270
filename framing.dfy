/** The BLE APDU framing of `BleDevice::write_command` and the header of the
    first response notification read by `BleDevice::read_data`, on bytes. */
module BleFraming {
  import opened Bytes
  import opened Errors

  /** BLE_HEADER_LEN: command byte and 2-byte sequence number. */
  const HeaderLen: nat := 3
  /** Command byte of every frame after the first. */
  const ContinuationTag: byte := 0x03
  /** Tag of the first notification of a response. */
  const ResponseTag: byte := 0x05
  /** Command byte of the frames `exchange` writes. */
  const ApduCommand: byte := 0x05
  /** Offset of the payload in a response notification. */
  const NotifyHeaderLen: nat := 5
  /** The MTU a device gets from `connect`. */
  const DefaultMtu: byte := 23

  /** The outgoing message: the payload length as a big-endian u16, then the payload. */
  function Body(payload: seq<byte>): seq<byte>
  {
    BeU16(|payload|) + payload
  }

  /** The body is the two length bytes `[len >> 8, len & 0xFF]` followed by
      the payload; for a payload of 65536 bytes or more the length is kept
      modulo 65536, as the `as u16` cast does. */
  lemma BodyLayout(payload: seq<byte>)
    ensures |Body(payload)| == |payload| + 2
    ensures Body(payload)[2..] == payload
    ensures FromBeU16(Body(payload)[0], Body(payload)[1]) == |payload| % 0x1_0000
    ensures |payload| < 0x1_0000 ==>
      Body(payload)[0] as int == |payload| / 0x100 && Body(payload)[1] as int == |payload| % 0x100
  {
    BeU16RoundTrip(|payload|);
  }

  lemma MulSmall(n: int, k: int)
    requires n > 0 && -n < n * k < n
    ensures k == 0
  {
  }

  /** `x / n` gains one for every `n` added to `x`. */
  lemma DivStep(x: nat, n: nat)
    requires n > 0
    ensures (x + n) / n == x / n + 1
  {
    var q, r := x / n, x % n;
    var q2, r2 := (x + n) / n, (x + n) % n;
    assert x == n * q + r;
    assert x + n == n * q2 + r2;
    assert n * (q2 - q - 1) == r - r2 by {
      assert n * (q2 - q - 1) == n * q2 - n * q - n;
    }
    MulSmall(n, q2 - q - 1);
  }

  lemma DivSmall(x: nat, n: nat)
    requires x < n
    ensures x / n == 0
  {
    var q, r := x / n, x % n;
    assert x == n * q + r;
    MulSmall(n, q);
  }

  /** `data.chunks(n)`: consecutive pieces of `n` bytes, the last one possibly
      shorter, which concatenate back to `data`. */
  function Chunks(data: seq<byte>, n: nat): (cs: seq<seq<byte>>)
    requires n > 0
    ensures Join(cs) == data
    ensures forall i :: 0 <= i < |cs| ==> 0 < |cs[i]| <= n
    ensures forall i :: 0 <= i < |cs| - 1 ==> |cs[i]| == n
    decreases |data|
  {
    if data == [] then []
    else if |data| <= n then [data]
    else
      assert data[..n] + data[n..] == data;
      [data[..n]] + Chunks(data[n..], n)
  }

  /** There are `ceil(|data| / n)` chunks. */
  lemma {:induction false} ChunksCount(data: seq<byte>, n: nat)
    requires n > 0
    ensures |Chunks(data, n)| == (|data| + n - 1) / n
    decreases |data|
  {
    if data == [] {
      DivSmall(n - 1, n);
    } else if |data| <= n {
      DivSmall(|data| - 1, n);
      DivStep(|data| - 1, n);
    } else {
      ChunksCount(data[n..], n);
      DivStep(|data| - 1, n);
    }
  }

  /** The command byte of frame `i`. */
  function Tag(cmd: byte, i: nat): byte
  {
    if i == 0 then cmd else ContinuationTag
  }

  /** Frame `i`: command byte, `i as u16` big-endian, chunk. */
  function Frame(cmd: byte, i: nat, chunk: seq<byte>): seq<byte>
  {
    [Tag(cmd, i)] + BeU16(i) + chunk
  }

  /** The frames of chunks `cs`, numbered from `i`. */
  function FramesFrom(cmd: byte, cs: seq<seq<byte>>, i: nat): (fs: seq<seq<byte>>)
    ensures |fs| == |cs|
    ensures forall k :: 0 <= k < |cs| ==> fs[k] == Frame(cmd, i + k, cs[k])
    decreases |cs|
  {
    if cs == [] then [] else [Frame(cmd, i, cs[0])] + FramesFrom(cmd, cs[1..], i + 1)
  }

  /** Everything `write_command(cmd, payload)` writes, in order, on a device with this MTU. */
  function Frames(cmd: byte, payload: seq<byte>, mtu: byte): seq<seq<byte>>
    requires mtu as nat > HeaderLen
  {
    FramesFrom(cmd, Chunks(Body(payload), mtu as nat - HeaderLen), 0)
  }

  /** Concatenation of every part with its first `k` bytes removed (a part
      shorter than `k` contributes nothing). */
  function JoinTails(parts: seq<seq<byte>>, k: nat): seq<byte>
  {
    if parts == [] then []
    else (if |parts[0]| >= k then parts[0][k..] else []) + JoinTails(parts[1..], k)
  }

  lemma {:induction false} JoinTailsAppend(a: seq<seq<byte>>, b: seq<seq<byte>>, k: nat)
    ensures JoinTails(a + b, k) == JoinTails(a, k) + JoinTails(b, k)
  {
    if a == [] {
      assert a + b == b;
    } else {
      assert (a + b)[1..] == a[1..] + b;
      JoinTailsAppend(a[1..], b, k);
    }
  }

  lemma {:induction false} FramesFromTails(cmd: byte, cs: seq<seq<byte>>, i: nat)
    ensures JoinTails(FramesFrom(cmd, cs, i), HeaderLen) == Join(cs)
    decreases |cs|
  {
    if cs != [] {
      var fs := FramesFrom(cmd, cs, i);
      assert fs[0][HeaderLen..] == cs[0];
      assert fs[1..] == FramesFrom(cmd, cs[1..], i + 1);
      FramesFromTails(cmd, cs[1..], i + 1);
    }
  }

  /** Frame `i` is the tag, `i` big-endian and chunk `i`, and is one to `n + 3` bytes longer than its header. */
  lemma {:induction false} FrameLayout(cmd: byte, i: nat, chunk: seq<byte>, n: nat)
    requires 0 < |chunk| <= n
    ensures var f := Frame(cmd, i, chunk);
      HeaderLen < |f| <= n + HeaderLen && f[0] == Tag(cmd, i) && f[1..3] == BeU16(i) && f[HeaderLen..] == chunk
  {
    var f := Frame(cmd, i, chunk);
    assert f[1..3] == BeU16(i);
  }

  /** The outbound frames of a body of `B` bytes number `ceil(B / (mtu - 3))`,
      at least one. */
  lemma FramesCount(cmd: byte, payload: seq<byte>, mtu: byte)
    requires mtu as nat > HeaderLen
    ensures var n := mtu as nat - HeaderLen;
      |Frames(cmd, payload, mtu)| == (|payload| + 2 + n - 1) / n >= 1
  {
    var n := mtu as nat - HeaderLen;
    ChunksCount(Body(payload), n);
    DivStep(|payload| + 1, n);
  }

  /** Every outbound frame is at most `mtu` bytes and carries data; frame `i`
      is tagged `cmd` when `i == 0` and `0x03` otherwise, carries `i` (modulo
      65536) big-endian in bytes 1-2, and then chunk `i` of the body. */
  lemma FramesHeaders(cmd: byte, payload: seq<byte>, mtu: byte)
    requires mtu as nat > HeaderLen
    ensures var fs := Frames(cmd, payload, mtu);
      forall i :: 0 <= i < |fs| ==>
        && HeaderLen < |fs[i]| <= mtu as nat
        && fs[i][0] == Tag(cmd, i)
        && fs[i][1..3] == BeU16(i)
        && fs[i][HeaderLen..] == Chunks(Body(payload), mtu as nat - HeaderLen)[i]
  {
    var n := mtu as nat - HeaderLen;
    var cs := Chunks(Body(payload), n);
    var fs := Frames(cmd, payload, mtu);
    forall i | 0 <= i < |fs|
      ensures HeaderLen < |fs[i]| <= mtu as nat && fs[i][0] == Tag(cmd, i)
      ensures fs[i][1..3] == BeU16(i) && fs[i][HeaderLen..] == cs[i]
    {
      FrameLayout(cmd, i, cs[i], n);
    }
  }

  /** Removing the 3-byte header of every outbound frame and concatenating
      in order gives back the body exactly. */
  lemma FramesCarryBody(cmd: byte, payload: seq<byte>, mtu: byte)
    requires mtu as nat > HeaderLen
    ensures JoinTails(Frames(cmd, payload, mtu), HeaderLen) == Body(payload)
  {
    FramesFromTails(cmd, Chunks(Body(payload), mtu as nat - HeaderLen), 0);
  }

  /** Headers a receiver of the frames would check: the tag and sequence number of each. */
  predicate HeadersValid(cmd: byte, fs: seq<seq<byte>>)
  {
    forall i :: 0 <= i < |fs| ==>
      |fs[i]| >= HeaderLen && fs[i][0] == Tag(cmd, i) && fs[i][1..3] == BeU16(i)
  }

  /** An inverse of the outbound framing: the body, if every header is in place. */
  function Deframe(cmd: byte, fs: seq<seq<byte>>): Option<seq<byte>>
  {
    if HeadersValid(cmd, fs) then Some(JoinTails(fs, HeaderLen)) else None
  }

  /** The payload of a body whose length prefix agrees with its size. */
  function ParseBody(body: seq<byte>): Option<seq<byte>>
  {
    if |body| < 2 then None
    else if FromBeU16(body[0], body[1]) == |body| - 2 then Some(body[2..])
    else None
  }

  /** Outbound round trip: deframing the frames and parsing the body gives
      back the payload, for every payload the u16 length prefix can describe. */
  lemma FramingRoundTrip(cmd: byte, payload: seq<byte>, mtu: byte)
    requires mtu as nat > HeaderLen
    requires |payload| < 0x1_0000
    ensures Deframe(cmd, Frames(cmd, payload, mtu)) == Some(Body(payload))
    ensures ParseBody(Body(payload)) == Some(payload)
  {
    FramesHeaders(cmd, payload, mtu);
    FramesCarryBody(cmd, payload, mtu);
    BodyLayout(payload);
  }

  /** A payload of 65536 bytes gets the length prefix 0, so its body no longer parses. */
  lemma LengthPrefixTruncates(payload: seq<byte>)
    requires |payload| == 0x1_0000
    ensures Body(payload)[..2] == [0, 0]
    ensures ParseBody(Body(payload)) == None
  {
    BodyLayout(payload);
  }

  /** The checks `read_data` makes on the first notification: its declared
      response length, or the error. */
  function ResponseHeader(v: seq<byte>): Result<nat>
  {
    if |v| < NotifyHeaderLen then Err(UnexpectedResponse)
    else if v[0] != ResponseTag then Err(UnexpectedResponse)
    else if v[4] == 0 then Err(EmptyResponse)
    else Ok(v[4] as nat)
  }

  /** A first notification is accepted exactly when it has 5 bytes or more,
      tag 0x05 and a non-zero length byte, which is then the declared length
      (at most 255). */
  lemma ResponseHeaderCases(v: seq<byte>)
    ensures ResponseHeader(v) == Err(UnexpectedResponse) <==> |v| < 5 || v[0] != 0x05
    ensures ResponseHeader(v) == Err(EmptyResponse) <==> |v| >= 5 && v[0] == 0x05 && v[4] == 0
    ensures ResponseHeader(v).Ok? <==> |v| >= 5 && v[0] == 0x05 && v[4] != 0
    ensures ResponseHeader(v).Ok? ==> ResponseHeader(v).value == v[4] as nat && 0 < v[4] as nat < 0x100
  {
  }

  lemma ResponseHeaderExamples()
    ensures ResponseHeader([0x05, 0, 0, 0]) == Err(UnexpectedResponse)
    ensures ResponseHeader([0x01, 0, 0, 0, 2]) == Err(UnexpectedResponse)
    ensures ResponseHeader([0x05, 0, 0, 0, 0]) == Err(EmptyResponse)
    ensures ResponseHeader([0x05, 0, 0, 0, 2, 0xCC, 0xDD]) == Ok(2)
  {
  }
}
