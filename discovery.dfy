/** Classification of advertised peripherals in `BleTransport::scan_internal`. */
module BleDiscovery {
  import opened Errors
  import opened Platform
  import opened Info

  /** `t` occurs in `s` at offset `i`. */
  ghost predicate OccursAt(t: string, s: string, i: int)
  {
    0 <= i <= |s| - |t| && s[i..i + |t|] == t
  }

  /** `t` occurs in `s` at some offset. */
  ghost predicate IsSubstring(t: string, s: string)
  {
    exists i :: OccursAt(t, s, i)
  }

  /** `s.contains(t)`, searching from the front. */
  predicate Contains(s: string, t: string)
    decreases |s|
  {
    t <= s || (s != [] && Contains(s[1..], t))
  }

  lemma {:induction false} ContainsIsSubstring(s: string, t: string)
    ensures Contains(s, t) <==> IsSubstring(t, s)
    decreases |s|
  {
    if t <= s {
      assert OccursAt(t, s, 0);
    } else if s == [] {
    } else {
      ContainsIsSubstring(s[1..], t);
      if IsSubstring(t, s) {
        var i :| OccursAt(t, s, i);
        assert OccursAt(t, s[1..], i - 1) by {
          assert s[1..][i - 1..i - 1 + |t|] == s[i..i + |t|];
        }
      }
      if IsSubstring(t, s[1..]) {
        var i :| OccursAt(t, s[1..], i);
        assert OccursAt(t, s, i + 1) by {
          assert s[i + 1..i + 1 + |t|] == s[1..][i..i + |t|];
        }
      }
    }
  }

  /** The model an advertised name stands for: "Nano X" is looked for
      before "Stax"; any other name is not a supported device. */
  function Classify(name: string): Option<Model>
  {
    if Contains(name, "Nano X") then Some(NanoX)
    else if Contains(name, "Stax") then Some(Stax)
    else None
  }

  /** A name containing "Nano X" is a Nano X even when it also contains
      "Stax"; otherwise one containing "Stax" is a Stax; every other name is
      dropped. */
  lemma ClassifyCases(name: string)
    ensures Classify(name) == Some(NanoX) <==> IsSubstring("Nano X", name)
    ensures Classify(name) == Some(Stax) <==> !IsSubstring("Nano X", name) && IsSubstring("Stax", name)
    ensures Classify(name) == None <==> !IsSubstring("Nano X", name) && !IsSubstring("Stax", name)
  {
    ContainsIsSubstring(name, "Nano X");
    ContainsIsSubstring(name, "Stax");
  }

  lemma ClassifyNanoX1234()
    ensures Classify("Nano X 1234") == Some(NanoX)
  {
    assert "Nano X" <= "Nano X 1234";
  }

  lemma ClassifyBothNames()
    ensures Classify("Stax Nano X") == Some(NanoX)
  {
    var n := "Stax Nano X";
    assert "Nano X" <= n[5..];
    assert Contains(n[4..], "Nano X") by { assert n[4..][1..] == n[5..]; }
    assert Contains(n[3..], "Nano X") by { assert n[3..][1..] == n[4..]; }
    assert Contains(n[2..], "Nano X") by { assert n[2..][1..] == n[3..]; }
    assert Contains(n[1..], "Nano X") by { assert n[1..][1..] == n[2..]; }
  }

  lemma ClassifyNanoS()
    ensures Classify("Nano S") == None
  {
    var n := "Nano S";
    ClassifyCases(n);
    forall i | 0 <= i <= |n| - 6 ensures !OccursAt("Nano X", n, i) {
      assert n[i..i + 6] == n;
    }
    forall i | 0 <= i <= |n| - 4 ensures !OccursAt("Stax", n, i) {
      assert n[i..i + 4][0] == n[i] && n[i..i + 4][1] == n[i + 1];
    }
  }

  /** The name of a discovered peripheral: its advertised local name, else its id as text. */
  function DeviceName(p: Peripheral, localName: Option<string>): string
  {
    localName.GetOr(p.id.text)
  }

  /** What one drained event adds to the scan result. */
  function Entry(e: CentralEvent): Option<(LedgerInfo, Peripheral)>
  {
    if !e.PeripheralDiscovered? then None
    else
      var name := DeviceName(e.peripheral, e.localName);
      match Classify(name)
      case None => None
      case Some(m) => Some((LedgerInfo(m, Ble(BleInfo(name, e.peripheral.id))), e.peripheral))
  }

  /** The matched devices of a batch of drained events, in event order. */
  function ScanMatches(es: seq<CentralEvent>): seq<(LedgerInfo, Peripheral)>
  {
    if es == [] then []
    else (match Entry(es[0]) case Some(d) => [d] case None => []) + ScanMatches(es[1..])
  }

  /** Matching keeps event order: the matches of two batches drained one after
      the other are those of the first followed by those of the second. */
  lemma {:induction false} ScanMatchesAppend(a: seq<CentralEvent>, b: seq<CentralEvent>)
    ensures ScanMatches(a + b) == ScanMatches(a) + ScanMatches(b)
  {
    if a == [] {
      assert a + b == b;
    } else {
      assert (a + b)[1..] == a[1..] + b;
      ScanMatchesAppend(a[1..], b);
    }
  }

  /** Every match is a Nano X or a Stax discovered over BLE, named by its local
      name or its id, whose model is the classification of that name and
      whose connection info carries the peripheral's id. */
  lemma {:induction false} ScanMatchesShape(es: seq<CentralEvent>)
    ensures forall k :: 0 <= k < |ScanMatches(es)| ==>
      var d := ScanMatches(es)[k];
      && d.0.conn.Ble?
      && d.0.conn.ble.addr == d.1.id
      && Classify(d.0.conn.ble.name) == Some(d.0.model)
      && (d.0.model == NanoX || d.0.model == Stax)
      && exists i :: 0 <= i < |es| && es[i].PeripheralDiscovered? && es[i].peripheral == d.1
                     && d.0.conn.ble.name == DeviceName(es[i].peripheral, es[i].localName)
  {
    if es != [] {
      ScanMatchesShape(es[1..]);
      var head := match Entry(es[0]) case Some(d) => [d] case None => [];
      assert ScanMatches(es) == head + ScanMatches(es[1..]);
      forall k | 0 <= k < |ScanMatches(es)|
        ensures exists i :: 0 <= i < |es| && es[i].PeripheralDiscovered? && es[i].peripheral == ScanMatches(es)[k].1
                    && ScanMatches(es)[k].0.conn.ble.name == DeviceName(es[i].peripheral, es[i].localName)
      {
        if k < |head| {
          assert es[0].PeripheralDiscovered?;
        } else {
          var d := ScanMatches(es[1..])[k - |head|];
          var i :| 0 <= i < |es[1..]| && es[1..][i].PeripheralDiscovered? && es[1..][i].peripheral == d.1
                   && d.0.conn.ble.name == DeviceName(es[1..][i].peripheral, es[1..][i].localName);
          assert es[i + 1] == es[1..][i];
        }
      }
    }
  }

  /** Every discovery event whose name classifies is listed: its match sits
      right after the matches of the events before it. */
  lemma {:induction false} ScanMatchesComplete(es: seq<CentralEvent>, i: nat)
    requires i < |es| && es[i].PeripheralDiscovered?
    requires Classify(DeviceName(es[i].peripheral, es[i].localName)).Some?
    ensures var name := DeviceName(es[i].peripheral, es[i].localName);
      var d := (LedgerInfo(Classify(name).value, Ble(BleInfo(name, es[i].peripheral.id))), es[i].peripheral);
      && |ScanMatches(es[..i])| < |ScanMatches(es)|
      && ScanMatches(es)[|ScanMatches(es[..i])|] == d
      && d in ScanMatches(es)
  {
    var tail := [es[i]] + es[i + 1..];
    assert es == es[..i] + tail;
    ScanMatchesAppend(es[..i], tail);
    assert tail[1..] == es[i + 1..];
    assert ScanMatches(tail) == [Entry(es[i]).value] + ScanMatches(es[i + 1..]);
  }

  /** The `LedgerInfo` half of each match, in order. */
  function Infos(devices: seq<(LedgerInfo, Peripheral)>): (r: seq<LedgerInfo>)
    ensures |r| == |devices|
    ensures forall i :: 0 <= i < |devices| ==> r[i] == devices[i].0
  {
    if devices == [] then [] else [devices[0].0] + Infos(devices[1..])
  }

  /** The end-to-end scenario: a peripheral advertising "Nano X 1234" is
      listed as a Nano X under that name. */
  lemma ScanExample(p: Peripheral)
    ensures ScanMatches([PeripheralDiscovered(p, Some("Nano X 1234"))])
            == [(LedgerInfo(NanoX, Ble(BleInfo("Nano X 1234", p.id))), p)]
  {
    ClassifyNanoX1234();
    var es := [PeripheralDiscovered(p, Some("Nano X 1234"))];
    assert es[1..] == [];
  }
}
