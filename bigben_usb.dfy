// The user-space C layer over libusb (BigbenControllerApp/Sources/CUSBController/
// BigbenUSB.c and include/BigbenUSB.h): the 20-byte XInput report and its
// decoder, the XInput button masks, the rumble frame, the library reference
// count and the controller's open/close/read flags. libusb and pthread calls
// are not modelled; their outcomes are parameters.

module BigbenUsb {
  import opened CTypes

  const BigbenVid := 0x146B
  const BigbenPidPc := 0x0603
  const BigbenPidPs4 := 0x0D05

  const EndpointIn := 0x81
  const EndpointOut := 0x02
  const ReadTimeoutMs := 100

  // Status codes of libusb that the layer tests for.
  const ErrorIo := -1
  const ErrorNoDevice := -4
  const ErrorTimeout := -7

  /** The size of the buffer `bigben_poll` reads into, and the bytes a decode needs. */
  const PollBufferSize := 64
  const DecodedBytes := 14
  const XInputReportSize := 20

  // The packed 20-byte XInput report.

  type Reserved6 = s: seq<byte> | |s| == 6 witness Zeros(6)

  datatype XInputReport = XInputReport(
    reportId: byte, reportSize: byte, buttons: uint16,
    leftTrigger: byte, rightTrigger: byte,
    leftStickX: int16, leftStickY: int16, rightStickX: int16, rightStickY: int16,
    reserved: Reserved6)

  /** An `int16_t` as it lies in memory: its two's-complement 16-bit word. */
  function Int16Word(x: int16): (w: uint16)
    ensures ToInt16(w) == x
  {
    if x < 0 then x + 0x1_0000 else x
  }

  lemma WordInt16(w: uint16)
    ensures Int16Word(ToInt16(w)) == w
  {
  }

  /** The report's 20 bytes: fields at offsets 0, 1, 2, 4, 5, 6, 8, 10, 12, reserved 14 .. 19. */
  function XInputReportBytes(r: XInputReport): (b: seq<byte>)
    ensures |b| == XInputReportSize
  {
    [r.reportId, r.reportSize, LowByte(r.buttons), HighByte(r.buttons), r.leftTrigger, r.rightTrigger,
     LowByte(Int16Word(r.leftStickX)), HighByte(Int16Word(r.leftStickX)),
     LowByte(Int16Word(r.leftStickY)), HighByte(Int16Word(r.leftStickY)),
     LowByte(Int16Word(r.rightStickX)), HighByte(Int16Word(r.rightStickX)),
     LowByte(Int16Word(r.rightStickY)), HighByte(Int16Word(r.rightStickY))] + r.reserved
  }

  /** `data[i] | (data[i + 1] << 8)`. */
  function Word(data: seq<byte>, i: nat): uint16
    requires i + 1 < |data|
  {
    OrShift(data[i], data[i + 1], 8);
    assert Pow2(8) == 0x100;
    BitOr(data[i], data[i + 1] * Pow2(8))
  }

  lemma WordValue(data: seq<byte>, i: nat)
    requires i + 1 < |data|
    ensures Word(data, i) == Le16(data[i], data[i + 1])
  {
    OrShift(data[i], data[i + 1], 8);
    assert Pow2(8) == 0x100;
  }

  /** The fields `bigben_poll` writes from a transfer of at least 14 bytes; the
    * reserved bytes keep what the report held. */
  function Decode(data: seq<byte>, report: XInputReport): XInputReport
    requires |data| >= DecodedBytes
  {
    report.(
      reportId := data[0],
      reportSize := data[1],
      buttons := Word(data, 2),
      leftTrigger := data[4],
      rightTrigger := data[5],
      leftStickX := ToInt16(Word(data, 6)),
      leftStickY := ToInt16(Word(data, 8)),
      rightStickX := ToInt16(Word(data, 10)),
      rightStickY := ToInt16(Word(data, 12)))
  }

  /** Decoding reads back a report's own bytes. */
  lemma DecodeEncode(r: XInputReport, other: XInputReport)
    ensures Decode(XInputReportBytes(r), other.(reserved := r.reserved)) == r
  {
    var b := XInputReportBytes(r);
    WordValue(b, 2);
    WordValue(b, 6);
    WordValue(b, 8);
    WordValue(b, 10);
    WordValue(b, 12);
    WordBytes(r.buttons);
    WordBytes(Int16Word(r.leftStickX));
    WordBytes(Int16Word(r.leftStickY));
    WordBytes(Int16Word(r.rightStickX));
    WordBytes(Int16Word(r.rightStickY));
  }

  /** Re-serialising the decoded report reproduces bytes 0 .. 13 of the transfer. */
  lemma EncodeDecode(data: seq<byte>, report: XInputReport)
    requires |data| >= DecodedBytes
    ensures XInputReportBytes(Decode(data, report))[..DecodedBytes] == data[..DecodedBytes]
  {
    var d := Decode(data, report);
    var b := XInputReportBytes(d);
    WordValue(data, 2);
    WordValue(data, 6);
    WordValue(data, 8);
    WordValue(data, 10);
    WordValue(data, 12);
    WordInt16(Le16(data[6], data[7]));
    WordInt16(Le16(data[8], data[9]));
    WordInt16(Le16(data[10], data[11]));
    WordInt16(Le16(data[12], data[13]));
    assert forall i :: 0 <= i < DecodedBytes ==> b[i] == data[i];
  }

  // XInput button masks.

  datatype XButton =
    | DPadUp | DPadDown | DPadLeft | DPadRight | StartButton | BackButton
    | LeftThumb | RightThumb | LeftBumper | RightBumper | Guide
    | ButtonA | ButtonB | ButtonX | ButtonY

  function XButtonMask(b: XButton): uint16
  {
    match b
    case DPadUp => 0x0001
    case DPadDown => 0x0002
    case DPadLeft => 0x0004
    case DPadRight => 0x0008
    case StartButton => 0x0010
    case BackButton => 0x0020
    case LeftThumb => 0x0040
    case RightThumb => 0x0080
    case LeftBumper => 0x0100
    case RightBumper => 0x0200
    case Guide => 0x0400
    case ButtonA => 0x1000
    case ButtonB => 0x2000
    case ButtonX => 0x4000
    case ButtonY => 0x8000
  }

  /** The bit each mask occupies. */
  function XButtonBit(b: XButton): nat
  {
    match b
    case DPadUp => 0
    case DPadDown => 1
    case DPadLeft => 2
    case DPadRight => 3
    case StartButton => 4
    case BackButton => 5
    case LeftThumb => 6
    case RightThumb => 7
    case LeftBumper => 8
    case RightBumper => 9
    case Guide => 10
    case ButtonA => 12
    case ButtonB => 13
    case ButtonX => 14
    case ButtonY => 15
  }

  /** Every mask is a single bit of the 16-bit word, no two buttons share one, and
    * bit 11 (0x0800) belongs to no button. The D-pad is four such bits, so opposite
    * directions can be reported together. */
  lemma XButtonMasks(b: XButton, c: XButton)
    ensures XButtonMask(b) == Pow2(XButtonBit(b)) && XButtonBit(b) < 16
    ensures b != c ==> XButtonBit(b) != XButtonBit(c)
    ensures XButtonBit(b) != 11
  {
    assert Pow2(15) == 0x8000;
  }

  lemma XButtonsDisjoint(b: XButton, c: XButton)
    requires b != c
    ensures BitAnd(XButtonMask(b), XButtonMask(c)) == 0
  {
    XButtonMasks(b, c);
    XButtonMasks(c, b);
    PowersDisjoint(XButtonBit(b), XButtonBit(c));
  }

  // The rumble frame.

  /** The 8 bytes `bigben_set_rumble` sends. */
  function RumbleFrame(weak: byte, strong: byte): (f: seq<byte>)
    ensures |f| == 8
  {
    [0x00, 0x08, 0x00, weak, strong, 0x00, 0x00, 0x00]
  }

  /** The frame carries both intensities and nothing else varies: two frames are equal
    * exactly when their intensities are. */
  lemma RumbleFrameFields(weak: byte, strong: byte, weak2: byte, strong2: byte)
    ensures RumbleFrame(weak, strong)[3] == weak && RumbleFrame(weak, strong)[4] == strong
    ensures (RumbleFrame(weak, strong) == RumbleFrame(weak2, strong2)) == (weak == weak2 && strong == strong2)
  {
    if RumbleFrame(weak, strong) == RumbleFrame(weak2, strong2) {
      assert RumbleFrame(weak, strong)[3] == RumbleFrame(weak2, strong2)[3];
      assert RumbleFrame(weak, strong)[4] == RumbleFrame(weak2, strong2)[4];
    }
  }

  // Device lookup.

  /** What `libusb_get_device_descriptor` gives for one device, if it succeeds. */
  datatype DeviceDescriptor = DeviceDescriptor(idVendor: uint16, idProduct: uint16)

  predicate IsBigben(d: Option<DeviceDescriptor>)
  {
    d.Some? && d.value.idVendor == BigbenVid
    && (d.value.idProduct == BigbenPidPc || d.value.idProduct == BigbenPidPs4)
  }

  /** `find_bigben_device`: the first device of the list whose descriptor names a
    * Bigben controller; none when the list cannot be read or holds none. */
  method FindBigbenDevice(devs: Option<seq<Option<DeviceDescriptor>>>) returns (found: Option<nat>)
    ensures devs.None? ==> found.None?
    ensures found.Some? ==>
      devs.Some? && found.value < |devs.value| && IsBigben(devs.value[found.value])
      && forall j :: 0 <= j < found.value ==> !IsBigben(devs.value[j])
    ensures devs.Some? && found.None? ==> forall j :: 0 <= j < |devs.value| ==> !IsBigben(devs.value[j])
  {
    if devs.None? {
      return None;
    }
    var list := devs.value;
    found := None;
    var i := 0;
    while i < |list| && found.None?
      invariant 0 <= i <= |list|
      invariant found.None? ==> forall j :: 0 <= j < i ==> !IsBigben(list[j])
      invariant found.Some? ==>
        found.value == i - 1 && IsBigben(list[i - 1])
        && forall j :: 0 <= j < i - 1 ==> !IsBigben(list[j])
    {
      if IsBigben(list[i]) {
        found := Some(i);
      }
      i := i + 1;
    }
  }

  // The library reference count.

  /** The globals `init_count` and `usb_ctx`. */
  class UsbLibrary {
    var initCount: int
    var hasContext: bool

    /** The count never goes negative, and the library is set up exactly while it is positive. */
    ghost predicate Valid()
      reads this
    {
      initCount >= 0 && (hasContext <==> initCount > 0)
    }

    constructor ()
      ensures Valid() && initCount == 0 && !hasContext
    {
      initCount := 0;
      hasContext := false;
    }

    /** `bigben_init`: only a call at count 0 initialises libusb (with outcome
      * `libusbInit`); a failed initialisation leaves the count as it was. */
    method Init(libusbInit: int) returns (r: int)
      requires Valid()
      modifies this
      ensures Valid()
      ensures old(initCount) > 0 ==> r == 0 && initCount == old(initCount) + 1 && hasContext
      ensures old(initCount) == 0 && libusbInit < 0 ==> r == libusbInit && initCount == 0 && !hasContext
      ensures old(initCount) == 0 && libusbInit >= 0 ==> r == 0 && initCount == 1 && hasContext
    {
      var was := initCount;
      initCount := initCount + 1;
      if was > 0 {
        return 0;
      }
      if libusbInit < 0 {
        initCount := initCount - 1;
        return libusbInit;
      }
      hasContext := true;
      return 0;
    }

    /** `bigben_cleanup`: tears down only when the count drops to 0 or below, and then
      * resets it to 0. */
    method Cleanup()
      requires Valid()
      modifies this
      ensures Valid()
      ensures old(initCount) > 1 ==> initCount == old(initCount) - 1 && hasContext
      ensures old(initCount) <= 1 ==> initCount == 0 && !hasContext
    {
      initCount := initCount - 1;
      if initCount > 0 {
        return;
      }
      if hasContext {
        hasContext := false;
      }
      initCount := 0;
    }
  }

  // The controller.

  /** The fields of a controller at one moment. */
  datatype ControllerState = ControllerState(
    handle: bool, running: bool, connected: bool,
    hasInputCallback: bool, hasConnectionCallback: bool,
    notifications: seq<bool>, delivered: seq<XInputReport>, readers: nat)

  /** A controller as `calloc` leaves it. */
  const ZeroController := ControllerState(false, false, false, false, false, [], [], 0)

  /** `struct BigbenController`: the device handle, the reader and connection flags,
    * which callbacks are set, and the calls made to them so far. `readers` counts the
    * reader threads started. */
  class Controller {
    var handle: bool
    var running: bool
    var connected: bool
    var hasInputCallback: bool
    var hasConnectionCallback: bool
    var notifications: seq<bool>
    var delivered: seq<XInputReport>
    var readers: nat

    /** Every field, so that a contract can say which of them an operation changes. */
    function State(): ControllerState
      reads this
    {
      ControllerState(handle, running, connected, hasInputCallback, hasConnectionCallback,
        notifications, delivered, readers)
    }

    /** `calloc`: every field zero. */
    constructor ()
      ensures State() == ZeroController
    {
      handle, running, connected := false, false, false;
      hasInputCallback, hasConnectionCallback := false, false;
      notifications, delivered, readers := [], [], 0;
    }
  }

  /** `bigben_create`: a zeroed controller, or null when allocation fails. */
  method Create(allocates: bool) returns (c: Controller?)
    ensures allocates == (c != null)
    ensures c != null ==> fresh(c) && c.State() == ZeroController
  {
    if !allocates {
      return null;
    }
    c := new Controller();
  }

  /** `bigben_set_input_callback`: sets or clears the input callback and nothing else. */
  method SetInputCallback(c: Controller?, present: bool)
    modifies c
    ensures c != null ==> c.State() == old(c.State()).(hasInputCallback := present)
  {
    if c != null {
      c.hasInputCallback := present;
    }
  }

  /** `bigben_set_connection_callback`: sets or clears the connection callback and nothing else. */
  method SetConnectionCallback(c: Controller?, present: bool)
    modifies c
    ensures c != null ==> c.State() == old(c.State()).(hasConnectionCallback := present)
  {
    if c != null {
      c.hasConnectionCallback := present;
    }
  }

  /** `bigben_is_connected`. */
  function IsConnected(c: Controller?): (b: bool)
    reads c
    ensures b <==> c != null && c.connected
  {
    c != null && c.connected
  }

  /** Tells the connection callback, if one is set. */
  method Notify(c: Controller, isConnected: bool)
    modifies c`notifications
    ensures c.notifications == old(c.notifications) + (if c.hasConnectionCallback then [isConnected] else [])
  {
    if c.hasConnectionCallback {
      c.notifications := c.notifications + [isConnected];
    }
  }

  /** Some device of a readable list is a Bigben controller. */
  predicate HasBigben(devs: Option<seq<Option<DeviceDescriptor>>>)
  {
    devs.Some? && exists j :: 0 <= j < |devs.value| && IsBigben(devs.value[j])
  }

  /**
   * `bigben_open`, given the device list `find_bigben_device` reads and the outcomes
   * of `libusb_open` and `libusb_claim_interface`. A handle that is already open makes
   * it a no-op; only a fully successful open takes the handle, connects and notifies,
   * once; every failure leaves the controller as it was.
   */
  method Open(c: Controller?, lib: UsbLibrary, devs: Option<seq<Option<DeviceDescriptor>>>,
    openResult: int, claimResult: int) returns (r: int)
    modifies c
    ensures c == null || !lib.hasContext ==> r == -1
    ensures c != null && !lib.hasContext ==> c.State() == old(c.State())
    ensures c != null && lib.hasContext ==>
      if old(c.handle) then r == 0 && c.State() == old(c.State())
      else if !HasBigben(devs) then r == -1 && c.State() == old(c.State())
      else if openResult < 0 then r == openResult && c.State() == old(c.State())
      else if claimResult < 0 then r == claimResult && c.State() == old(c.State())
      else r == 0 && c.State() == old(c.State()).(handle := true, connected := true,
        notifications := old(c.notifications) + (if old(c.hasConnectionCallback) then [true] else []))
  {
    if c == null || !lib.hasContext {
      return -1;
    }
    if c.handle {
      return 0;
    }
    var dev := FindBigbenDevice(devs);
    if dev.None? {
      return -1;
    }
    if openResult < 0 {
      return openResult;
    }
    c.handle := true;
    if claimResult < 0 {
      c.handle := false;
      return claimResult;
    }
    c.connected := true;
    Notify(c, true);
    return 0;
  }

  /** `bigben_stop_reading`: clears `running` and nothing else, so it is a no-op unless
    * running; the join is not modelled. */
  method StopReading(c: Controller?)
    modifies c
    ensures c != null ==> c.State() == old(c.State()).(running := false)
  {
    if c == null || !c.running {
      return;
    }
    c.running := false;
  }

  /** After `bigben_close` or `bigben_destroy`: no reader, no handle and no connection;
    * the callback hears `false` only when the controller was connected. */
  function Closed(s: ControllerState): ControllerState
  {
    s.(running := false, handle := false, connected := false,
       notifications := s.notifications + (if s.connected && s.hasConnectionCallback then [false] else []))
  }

  /** `bigben_close`: the controller is `Closed`, so a second close is silent. */
  method Close(c: Controller?)
    modifies c
    ensures c != null ==> c.State() == Closed(old(c.State()))
  {
    if c == null {
      return;
    }
    StopReading(c);
    if c.handle {
      c.handle := false;
    }
    if c.connected {
      c.connected := false;
      Notify(c, false);
    }
  }

  /** `bigben_destroy`: stops reading and closes; freeing is not modelled. */
  method Destroy(c: Controller?)
    modifies c
    ensures c != null ==> c.State() == Closed(old(c.State()))
  {
    if c == null {
      return;
    }
    StopReading(c);
    Close(c);
  }

  /** Closing twice is closing once: the second close changes nothing. */
  lemma ClosedIdempotent(s: ControllerState)
    ensures Closed(Closed(s)) == Closed(s)
    ensures !Closed(s).running && !Closed(s).handle && !Closed(s).connected
  {
  }

  /** The outcome of one `libusb_interrupt_transfer` on the input endpoint. */
  datatype Transfer = Transfer(status: int, data: seq<byte>)

  predicate ValidTransfer(t: Transfer)
  {
    t.status <= 0 && |t.data| <= PollBufferSize
  }

  /**
   * `bigben_poll`: -1 without a controller, handle or report; a transfer error is
   * returned as it is; a successful transfer decodes into the report when it holds at
   * least 14 bytes and returns 0 either way. The report is written only in that case.
   */
  method Poll(c: Controller?, report: Option<XInputReport>, t: Transfer) returns (r: int, out: Option<XInputReport>)
    requires ValidTransfer(t)
    ensures c == null || !c.handle || report.None? ==> r == -1 && out == report
    ensures c != null && c.handle && report.Some? ==>
      r == (if t.status < 0 then t.status else 0)
      && out == (if t.status == 0 && |t.data| >= DecodedBytes then Some(Decode(t.data, report.value)) else report)
    ensures r <= 0
  {
    if c == null || !c.handle || report.None? {
      return -1, report;
    }
    if t.status == ErrorTimeout {
      return t.status, report;
    }
    if t.status < 0 {
      return t.status, report;
    }
    out := report;
    if |t.data| >= DecodedBytes {
      out := Some(Decode(t.data, report.value));
    }
    r := 0;
  }

  /** What `bigben_poll` returns for a transfer: -1 without a handle, else the transfer's status. */
  function PollStatus(handle: bool, t: Transfer): int
  {
    if !handle then -1 else t.status
  }

  /** A poll result the reader takes for a lost device. */
  predicate Lost(handle: bool, t: Transfer)
  {
    PollStatus(handle, t) == ErrorNoDevice || PollStatus(handle, t) == ErrorIo
  }

  /** The report the reader holds after one successful or failed poll. */
  function After(handle: bool, report: XInputReport, t: Transfer): XInputReport
  {
    if handle && t.status == 0 && |t.data| >= DecodedBytes then Decode(t.data, report) else report
  }

  /**
   * One pass of the reader loop of `read_thread_func`, run while `running` holds, with
   * the loop's report variable. A lost device (NO_DEVICE or IO) disconnects, notifies
   * and ends the loop, but leaves `running` set; a successful poll hands the report to
   * the input callback.
   */
  method ReadStep(c: Controller, report: XInputReport, t: Transfer) returns (continues: bool, next: XInputReport)
    requires c.running && ValidTransfer(t)
    modifies c
    ensures c.running && c.handle == old(c.handle) && c.readers == old(c.readers)
    ensures c.hasInputCallback == old(c.hasInputCallback) && c.hasConnectionCallback == old(c.hasConnectionCallback)
    ensures next == After(old(c.handle), report, t)
    ensures continues == !Lost(old(c.handle), t)
    ensures !continues ==>
      !c.connected
      && c.notifications == old(c.notifications) + (if c.hasConnectionCallback then [false] else [])
      && c.delivered == old(c.delivered)
    ensures continues ==>
      c.connected == old(c.connected) && c.notifications == old(c.notifications)
      && c.delivered == old(c.delivered)
         + (if PollStatus(old(c.handle), t) == 0 && c.hasInputCallback then [next] else [])
  {
    var r, out := Poll(c, Some(report), t);
    next := out.value;
    if r == ErrorNoDevice || r == ErrorIo {
      c.connected := false;
      Notify(c, false);
      return false, next;
    }
    if r == 0 && c.hasInputCallback {
      c.delivered := c.delivered + [next];
    }
    continues := true;
  }

  /** The passes the reader makes over a run of transfers: up to and including the first
    * one that finds the device lost. */
  function Passes(handle: bool, ts: seq<Transfer>): (n: nat)
    ensures n <= |ts|
    ensures ts != [] ==> n > 0
  {
    if ts == [] then 0
    else if Lost(handle, ts[0]) then 1
    else 1 + Passes(handle, ts[1..])
  }

  /** The reports handed to the input callback over a run of transfers, starting from
    * `report`: one per poll that returns 0, until the device is lost. */
  function Feed(handle: bool, hasCallback: bool, report: XInputReport, ts: seq<Transfer>): seq<XInputReport>
    decreases |ts|
  {
    if ts == [] || Lost(handle, ts[0]) then []
    else
      var next := After(handle, report, ts[0]);
      (if PollStatus(handle, ts[0]) == 0 && hasCallback then [next] else [])
      + Feed(handle, hasCallback, next, ts[1..])
  }

  /** Without an input callback nothing is delivered; with one, a run whose every poll
    * returns 0 delivers exactly one report per transfer. */
  lemma {:induction false} FeedCount(handle: bool, hasCallback: bool, report: XInputReport, ts: seq<Transfer>)
    ensures !hasCallback ==> Feed(handle, hasCallback, report, ts) == []
    ensures hasCallback && handle && (forall i :: 0 <= i < |ts| ==> ts[i].status == 0) ==>
      |Feed(handle, hasCallback, report, ts)| == |ts|
    ensures |Feed(handle, hasCallback, report, ts)| <= Passes(handle, ts)
    decreases |ts|
  {
    if ts != [] && !Lost(handle, ts[0]) {
      FeedCount(handle, hasCallback, After(handle, report, ts[0]), ts[1..]);
    }
  }

  /** One pass that keeps the device: the pass is counted and its report delivered. */
  lemma RunStep(handle: bool, hasCallback: bool, report: XInputReport, ts: seq<Transfer>)
    requires ts != [] && !Lost(handle, ts[0])
    ensures Passes(handle, ts) == 1 + Passes(handle, ts[1..])
    ensures Feed(handle, hasCallback, report, ts)
      == (if PollStatus(handle, ts[0]) == 0 && hasCallback then [After(handle, report, ts[0])] else [])
         + Feed(handle, hasCallback, After(handle, report, ts[0]), ts[1..])
  {
  }

  /** The pass that loses the device is the last one and delivers nothing. */
  lemma RunLost(handle: bool, hasCallback: bool, report: XInputReport, ts: seq<Transfer>)
    requires ts != [] && Lost(handle, ts[0])
    ensures Passes(handle, ts) == 1 && Feed(handle, hasCallback, report, ts) == []
  {
  }

  /** One pass of the reader over the first of the remaining transfers, stated as the
    * step it takes through `Passes` and `Feed`. */
  method Pass(c: Controller, report: XInputReport, rest: seq<Transfer>) returns (continues: bool, next: XInputReport)
    requires c.running && rest != [] && ValidTransfer(rest[0])
    modifies c
    ensures c.running && c.handle == old(c.handle) && c.readers == old(c.readers)
    ensures c.hasInputCallback == old(c.hasInputCallback) && c.hasConnectionCallback == old(c.hasConnectionCallback)
    ensures continues == !Lost(old(c.handle), rest[0]) && next == After(old(c.handle), report, rest[0])
    ensures !continues ==>
      Passes(old(c.handle), rest) == 1
      && c.delivered == old(c.delivered) + Feed(old(c.handle), old(c.hasInputCallback), report, rest)
      && !c.connected
      && c.notifications == old(c.notifications) + (if c.hasConnectionCallback then [false] else [])
    ensures continues ==>
      Passes(old(c.handle), rest) == 1 + Passes(old(c.handle), rest[1..])
      && c.delivered + Feed(old(c.handle), old(c.hasInputCallback), next, rest[1..])
         == old(c.delivered) + Feed(old(c.handle), old(c.hasInputCallback), report, rest)
      && c.connected == old(c.connected) && c.notifications == old(c.notifications)
  {
    var h, cb := c.handle, c.hasInputCallback;
    continues, next := ReadStep(c, report, rest[0]);
    if continues {
      RunStep(h, cb, report, rest);
    } else {
      RunLost(h, cb, report, rest);
    }
  }

  /**
   * `read_thread_func` run over the outcomes of successive transfers, for as long as
   * `running` stays set (the stop from another thread is the end of the sequence). The
   * loop ends at the first lost device, disconnecting once; the callback gets the reports
   * `Feed` names.
   */
  method ReadThread(c: Controller, report: XInputReport, ts: seq<Transfer>) returns (passes: nat)
    requires c.running
    requires forall i :: 0 <= i < |ts| ==> ValidTransfer(ts[i])
    modifies c
    ensures passes == Passes(old(c.handle), ts)
    ensures c.running && c.handle == old(c.handle) && c.readers == old(c.readers)
    ensures c.hasInputCallback == old(c.hasInputCallback) && c.hasConnectionCallback == old(c.hasConnectionCallback)
    ensures c.delivered == old(c.delivered) + Feed(old(c.handle), old(c.hasInputCallback), report, ts)
    ensures passes < |ts| ==> passes > 0 && Lost(old(c.handle), ts[passes - 1])
    ensures forall j :: 0 <= j < passes - 1 ==> !Lost(old(c.handle), ts[j])
    ensures var lost := passes > 0 && Lost(old(c.handle), ts[passes - 1]);
      (lost ==>
         !c.connected
         && c.notifications == old(c.notifications) + (if old(c.hasConnectionCallback) then [false] else []))
      && (!lost ==> c.connected == old(c.connected) && c.notifications == old(c.notifications))
  {
    var h := c.handle;
    var cb := c.hasInputCallback;
    var current := report;
    var i := 0;
    passes := 0;
    while i < |ts|
      invariant 0 <= i <= |ts| && passes == i
      invariant c.running && c.handle == h && c.readers == old(c.readers)
      invariant c.hasInputCallback == cb && c.hasConnectionCallback == old(c.hasConnectionCallback)
      invariant forall j :: 0 <= j < i ==> !Lost(h, ts[j])
      invariant Passes(h, ts) == i + Passes(h, ts[i..])
      invariant c.delivered + Feed(h, cb, current, ts[i..]) == old(c.delivered) + Feed(h, cb, report, ts)
      invariant c.connected == old(c.connected) && c.notifications == old(c.notifications)
    {
      var rest := ts[i..];
      assert rest[0] == ts[i] && rest[1..] == ts[i + 1..];
      var continues, next := Pass(c, current, rest);
      passes := passes + 1;
      if !continues {
        return;
      }
      current := next;
      i := i + 1;
    }
    assert ts[i..] == [];
  }

  /** `bigben_start_reading`, given whether `pthread_create` succeeds: -1 without a
    * handle, 0 without starting anything while `running` is set; only a started thread
    * changes the controller. */
  method StartReading(c: Controller?, threadCreated: bool) returns (r: int)
    modifies c
    ensures c == null ==> r == -1
    ensures c != null && !old(c.handle) ==> r == -1 && c.State() == old(c.State())
    ensures c != null && old(c.handle) && old(c.running) ==> r == 0 && c.State() == old(c.State())
    ensures c != null && old(c.handle) && !old(c.running) ==>
      if threadCreated then r == 0 && c.State() == old(c.State()).(running := true, readers := old(c.readers) + 1)
      else r == -1 && c.State() == old(c.State())
  {
    if c == null || !c.handle {
      return -1;
    }
    if c.running {
      return 0;
    }
    c.running := true;
    if !threadCreated {
      c.running := false;
      return -1;
    }
    c.readers := c.readers + 1;
    return 0;
  }

  /**
   * The reader cannot be restarted after the device disappears: once a pass of the
   * loop ends on NO_DEVICE, `bigben_start_reading` reports success but starts no
   * thread, as long as the handle is still open.
   */
  method RestartAfterDisconnect(c: Controller, report: XInputReport, threadCreated: bool) returns (r: int)
    requires c.running && c.handle
    modifies c
    ensures r == 0 && c.readers == old(c.readers) && !c.connected
  {
    var continues, _ := ReadStep(c, report, Transfer(ErrorNoDevice, []));
    assert !continues;
    r := StartReading(c, threadCreated);
  }

  /**
   * `bigben_set_rumble`, given the outcome of the transfer: -1 and nothing sent
   * without a handle, else the rumble frame is sent and a transfer error returned.
   */
  method SetRumble(c: Controller?, weak: byte, strong: byte, writeResult: int) returns (r: int, sent: Option<seq<byte>>)
    ensures c == null || !c.handle ==> r == -1 && sent.None?
    ensures c != null && c.handle ==>
      sent == Some(RumbleFrame(weak, strong))
      && r == (if writeResult < 0 then writeResult else 0)
  {
    if c == null || !c.handle {
      return -1, None;
    }
    var data := [0x00, 0x08, 0x00, weak, strong, 0x00, 0x00, 0x00];
    sent := Some(data);
    if writeResult < 0 {
      return writeResult, sent;
    }
    r := 0;
  }
}
