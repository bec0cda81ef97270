/** Device identity: models, connection information and its kinds. */
module Info {
  import opened Errors
  import opened Platform

  datatype Model = NanoS | NanoSPlus | NanoX | Stax | Unknown(pid: bv16)

  /** USB connection data and TCP connection data belong to transports that
      are not part of this model; they are carried as their display text. */
  datatype UsbInfo = UsbInfo(text: string)
  datatype TcpInfo = TcpInfo(text: string)

  /** BLE connection data: the advertised (or fallback) name and the peripheral id. */
  datatype BleInfo = BleInfo(name: string, addr: Uuid)

  datatype ConnInfo = Usb(usb: UsbInfo) | Tcp(tcp: TcpInfo) | Ble(ble: BleInfo)

  datatype ConnType = UsbConn | TcpConn | BleConn

  /** Discovery filters (`crate::Filters`). */
  datatype Filters = Hid | TcpFilter | BleFilter

  datatype LedgerInfo = LedgerInfo(model: Model, conn: ConnInfo)

  /** `Model::from_pid`: only the top byte of the product id selects the model. */
  function FromPid(pid: bv16): (m: Model)
  {
    if pid & 0xFF00 == 0x4000 then NanoX
    else if pid & 0xFF00 == 0x5000 then NanoSPlus
    else Model.Unknown(pid)
  }

  /** `from_pid` is total and classifies by the masked top byte alone; an
      unrecognised pid is kept whole, and Nano S and Stax are never produced. */
  lemma FromPidCases(pid: bv16)
    ensures FromPid(pid) == NanoX <==> pid & 0xFF00 == 0x4000
    ensures FromPid(pid) == NanoSPlus <==> pid & 0xFF00 == 0x5000
    ensures FromPid(pid).Unknown? <==> pid & 0xFF00 != 0x4000 && pid & 0xFF00 != 0x5000
    ensures FromPid(pid).Unknown? ==> FromPid(pid).pid == pid
    ensures FromPid(pid) != NanoS && FromPid(pid) != Stax
  {
  }

  /** Two pids with the same known top byte name the same model. */
  lemma FromPidIgnoresLowByte(a: bv16, b: bv16)
    requires a >> 8 == b >> 8
    requires a >> 8 == 0x40 || a >> 8 == 0x50
    ensures FromPid(a) == FromPid(b)
    ensures !FromPid(a).Unknown?
  {
  }

  lemma FromPidExamples()
    ensures FromPid(0x4001) == NanoX
    ensures FromPid(0x5002) == NanoSPlus
    ensures FromPid(0x1234) == Model.Unknown(0x1234)
  {
  }

  function KindOf(c: ConnInfo): ConnType
  {
    match c
    case Usb(_) => UsbConn
    case Tcp(_) => TcpConn
    case Ble(_) => BleConn
  }

  /** `LedgerInfo::kind`. */
  function Kind(info: LedgerInfo): (t: ConnType)
    ensures t == UsbConn <==> info.conn.Usb?
    ensures t == TcpConn <==> info.conn.Tcp?
    ensures t == BleConn <==> info.conn.Ble?
  {
    KindOf(info.conn)
  }

  /** `From<ConnType> for Filters`. */
  function ToFilters(t: ConnType): Filters
  {
    match t
    case UsbConn => Hid
    case TcpConn => TcpFilter
    case BleConn => BleFilter
  }

  /** Each connection type has its own discovery filter, and every filter is
      the image of some connection type. */
  lemma ToFiltersBijective(s: ConnType, t: ConnType, f: Filters)
    ensures ToFilters(s) == ToFilters(t) ==> s == t
    ensures exists u :: ToFilters(u) == f
  {
    match f
    case Hid => assert ToFilters(UsbConn) == f;
    case TcpFilter => assert ToFilters(TcpConn) == f;
    case BleFilter => assert ToFilters(BleConn) == f;
  }

  /** The derived `Display` of `Model` prints the variant name. */
  function ModelName(m: Model): string
  {
    match m
    case NanoS => "NanoS"
    case NanoSPlus => "NanoSPlus"
    case NanoX => "NanoX"
    case Stax => "Stax"
    case Unknown(_) => "Unknown"
  }

  /** `Display for BleInfo`: the name. */
  function BleInfoText(b: BleInfo): string
  {
    b.name
  }

  /** `Display for ConnInfo`: a transport prefix, then the inner display. */
  function ConnInfoText(c: ConnInfo): string
  {
    match c
    case Usb(u) => "HID " + u.text
    case Tcp(t) => "TCP " + t.text
    case Ble(b) => "BLE " + BleInfoText(b)
  }

  /** `Display for LedgerInfo`: `"{model} ({conn})"`. */
  function LedgerInfoText(info: LedgerInfo): string
  {
    ModelName(info.model) + " (" + ConnInfoText(info.conn) + ")"
  }

  /** The connection type named by the first four characters of a display text. */
  function KindOfText(s: string): Option<ConnType>
  {
    if |s| < 4 then None
    else if s[..4] == "HID " then Some(UsbConn)
    else if s[..4] == "TCP " then Some(TcpConn)
    else if s[..4] == "BLE " then Some(BleConn)
    else None
  }

  /** The displayed prefix gives back the connection kind. */
  lemma ConnInfoTextKind(c: ConnInfo)
    ensures KindOfText(ConnInfoText(c)) == Some(KindOf(c))
  {
    var s := ConnInfoText(c);
    match c
    case Usb(u) => assert s[..4] == "HID ";
    case Tcp(t) => assert s[..4] == "TCP ";
    case Ble(b) => assert s[..4] == "BLE ";
  }

  /** A `LedgerInfo` display is the model name, then the parenthesised
      connection display. */
  lemma LedgerInfoTextParts(info: LedgerInfo)
    ensures var s := LedgerInfoText(info);
      var n := |ModelName(info.model)|;
      |s| == n + |ConnInfoText(info.conn)| + 3 &&
      s[..n] == ModelName(info.model) &&
      s[n..n + 2] == " (" &&
      s[n + 2..|s| - 1] == ConnInfoText(info.conn) &&
      s[|s| - 1] == ')'
  {
  }
}
