// The proprietary Bigben wire protocol (Shared/BigbenProtocol.h): report
// IDs and sizes, the packed 64-byte input report, the button, D-pad and
// LED encodings, the 8-byte LED and rumble output reports, and the two
// helper macros.

module BigbenProtocol {
  import opened CTypes

  const VendorId := 0x146B
  const ProductPcCompact := 0x0603
  const ProductPs4Compact := 0x0D05
  const ProductPs3Minipad := 0x0902

  const ReportIdInput: byte := 0x01
  const ReportIdLed: byte := 0x01
  const ReportIdRumble: byte := 0x02

  const InputReportSize := 64
  const OutputReportSize := 8

  /** The second byte of both output reports. */
  const OutputMarker: byte := 0x08

  /** An ID-1 frame may be an input report or an LED report: the two IDs coincide. */
  lemma ReportIdsShared()
    ensures ReportIdInput == ReportIdLed
    ensures ReportIdRumble != ReportIdLed && ReportIdRumble != ReportIdInput
  {
  }

  type Reserved = s: seq<byte> | |s| == 54 witness Zeros(54)

  /** The packed 64-byte input report. */
  datatype InputReport = InputReport(
    reportId: byte,
    leftStickX: byte, leftStickY: byte, rightStickX: byte, rightStickY: byte,
    dpad: byte,
    buttons: uint16,
    leftTrigger: byte, rightTrigger: byte,
    reserved: Reserved)

  /** The report as it lies in memory: one byte per member, `buttons` little-endian. */
  function InputReportBytes(r: InputReport): (b: seq<byte>)
    ensures |b| == InputReportSize
  {
    [r.reportId, r.leftStickX, r.leftStickY, r.rightStickX, r.rightStickY, r.dpad,
     LowByte(r.buttons), HighByte(r.buttons), r.leftTrigger, r.rightTrigger] + r.reserved
  }

  /** The report read from a 64-byte buffer at the struct's offsets. */
  function InputReportOf(b: seq<byte>): InputReport
    requires |b| == InputReportSize
  {
    InputReport(b[0], b[1], b[2], b[3], b[4], b[5], Le16(b[6], b[7]), b[8], b[9], b[10..])
  }

  lemma InputReportRoundTrip(r: InputReport)
    ensures InputReportOf(InputReportBytes(r)) == r
  {
    WordBytes(r.buttons);
    assert InputReportBytes(r)[10..] == r.reserved;
  }

  lemma InputReportBytesRoundTrip(b: seq<byte>)
    requires |b| == InputReportSize
    ensures InputReportBytes(InputReportOf(b)) == b
  {
    var r := InputReportOf(b);
    assert InputReportBytes(r) == b[..10] + b[10..];
  }

  // Buttons: one bit each, bits 0 .. 12.

  datatype Button = A | B | X | Y | LB | RB | LT | RT | Back | Start | LStick | RStick | Home

  const AllButtons := [A, B, X, Y, LB, RB, LT, RT, Back, Start, LStick, RStick, Home]

  function ButtonMask(b: Button): uint16
  {
    match b
    case A => 0x0001
    case B => 0x0002
    case X => 0x0004
    case Y => 0x0008
    case LB => 0x0010
    case RB => 0x0020
    case LT => 0x0040
    case RT => 0x0080
    case Back => 0x0100
    case Start => 0x0200
    case LStick => 0x0400
    case RStick => 0x0800
    case Home => 0x1000
  }

  /** The bit a button occupies: its position in the enumeration. */
  function ButtonBit(b: Button): (i: nat)
    ensures i < 13 && AllButtons[i] == b
  {
    match b
    case A => 0
    case B => 1
    case X => 2
    case Y => 3
    case LB => 4
    case RB => 5
    case LT => 6
    case RT => 7
    case Back => 8
    case Start => 9
    case LStick => 10
    case RStick => 11
    case Home => 12
  }

  /** Each mask is the single bit of its button. */
  lemma ButtonMaskBit(b: Button)
    ensures ButtonMask(b) == Pow2(ButtonBit(b))
  {
    assert Pow2(12) == 0x1000;
  }

  /** Distinct buttons have disjoint masks. */
  lemma ButtonMasksDisjoint(b: Button, c: Button)
    requires b != c
    ensures BitAnd(ButtonMask(b), ButtonMask(c)) == 0
  {
    ButtonMaskBit(b);
    ButtonMaskBit(c);
    PowersDisjoint(ButtonBit(b), ButtonBit(c));
  }

  /** The OR of the masks of a list of buttons. */
  function MaskUnion(bs: seq<Button>): nat
  {
    if bs == [] then 0 else BitOr(MaskUnion(bs[..|bs| - 1]), ButtonMask(bs[|bs| - 1]))
  }

  /** Buttons listed in the order of their bits cover the bits below the list's length. */
  lemma {:induction false} MaskUnionInOrder(bs: seq<Button>)
    requires forall i :: 0 <= i < |bs| ==> ButtonBit(bs[i]) == i
    ensures MaskUnion(bs) == Pow2(|bs|) - 1
  {
    if bs != [] {
      var k := |bs| - 1;
      MaskUnionInOrder(bs[..k]);
      ButtonMaskBit(bs[k]);
      OrShift(Pow2(k) - 1, 1, k);
    }
  }

  /** Together the thirteen buttons cover exactly bits 0 .. 12. */
  lemma ButtonUnion()
    ensures MaskUnion(AllButtons) == 0x1FFF
  {
    MaskUnionInOrder(AllButtons);
    assert Pow2(13) == 0x2000;
  }

  // The D-pad: eight directions clockwise from Up, then neutral.

  datatype DPad = Up | UpRight | Right | DownRight | Down | DownLeft | Left | UpLeft | Neutral

  const DPadNeutral: byte := 8

  function DPadValue(d: DPad): (v: byte)
    ensures v <= DPadNeutral
    ensures (v == DPadNeutral) == (d == Neutral)
  {
    match d
    case Up => 0
    case UpRight => 1
    case Right => 2
    case DownRight => 3
    case Down => 4
    case DownLeft => 5
    case Left => 6
    case UpLeft => 7
    case Neutral => 8
  }

  /** The D-pad position a byte names, if any. */
  function DPadOf(v: byte): (d: Option<DPad>)
    ensures d.Some? <==> v <= DPadNeutral
  {
    if v > DPadNeutral then None else Some([Up, UpRight, Right, DownRight, Down, DownLeft, Left, UpLeft, Neutral][v])
  }

  lemma DPadRoundTrip(d: DPad)
    ensures DPadOf(DPadValue(d)) == Some(d)
  {
  }

  lemma DPadValueRoundTrip(v: byte)
    requires v <= DPadNeutral
    ensures DPadValue(DPadOf(v).value) == v
  {
  }

  // The LEDs.

  datatype Led = Led1 | Led2 | Led3 | Led4

  function LedMask(l: Led): byte
  {
    match l
    case Led1 => 0x01
    case Led2 => 0x02
    case Led3 => 0x04
    case Led4 => 0x08
  }

  const LedAll: byte := 0x0F

  /** `BIGBEN_LED_ALL` is the OR of the four LED bits, each a single bit. */
  lemma LedAllIsUnion(l: Led)
    ensures BitOr(BitOr(BitOr(LedMask(Led1), LedMask(Led2)), LedMask(Led3)), LedMask(Led4)) == LedAll
    ensures LedMask(l) == Pow2(match l case Led1 => 0 case Led2 => 1 case Led3 => 2 case Led4 => 3)
  {
  }

  // The two 8-byte output reports.

  type Padding5 = s: seq<byte> | |s| == 5 witness Zeros(5)
  type Padding3 = s: seq<byte> | |s| == 3 witness Zeros(3)

  datatype LedReport = LedReport(reportId: byte, reserved1: byte, ledState: byte, padding: Padding5)

  datatype RumbleReport = RumbleReport(
    reportId: byte, reserved1: byte, rightMotorOn: byte, leftMotorForce: byte, duration: byte,
    padding: Padding3)

  function LedReportBytes(r: LedReport): (b: seq<byte>)
    ensures |b| == OutputReportSize
  {
    [r.reportId, r.reserved1, r.ledState] + r.padding
  }

  function LedReportOf(b: seq<byte>): LedReport
    requires |b| == OutputReportSize
  {
    LedReport(b[0], b[1], b[2], b[3..])
  }

  function RumbleReportBytes(r: RumbleReport): (b: seq<byte>)
    ensures |b| == OutputReportSize
  {
    [r.reportId, r.reserved1, r.rightMotorOn, r.leftMotorForce, r.duration] + r.padding
  }

  function RumbleReportOf(b: seq<byte>): RumbleReport
    requires |b| == OutputReportSize
  {
    RumbleReport(b[0], b[1], b[2], b[3], b[4], b[5..])
  }

  lemma LedReportRoundTrip(r: LedReport, b: seq<byte>)
    requires |b| == OutputReportSize
    ensures LedReportOf(LedReportBytes(r)) == r
    ensures LedReportBytes(LedReportOf(b)) == b
  {
    assert LedReportBytes(r)[3..] == r.padding;
    assert LedReportBytes(LedReportOf(b)) == b[..3] + b[3..];
  }

  lemma RumbleReportRoundTrip(r: RumbleReport, b: seq<byte>)
    requires |b| == OutputReportSize
    ensures RumbleReportOf(RumbleReportBytes(r)) == r
    ensures RumbleReportBytes(RumbleReportOf(b)) == b
  {
    assert RumbleReportBytes(r)[5..] == r.padding;
    assert RumbleReportBytes(RumbleReportOf(b)) == b[..5] + b[5..];
  }

  // The helper macros.

  /** `BIGBEN_ANALOG_TO_SIGNED(x)`: `(int8_t)(x - 128)`. */
  function AnalogToSigned(x: byte): int8
  {
    ToInt8(x - 128)
  }

  /** The conversion is a bijection from 0..255 onto -128..127 that keeps the order;
    * the centre goes to 0 and 0 goes to -128. */
  lemma AnalogToSignedBijection(x: byte, y: byte, s: int8)
    ensures AnalogToSigned(128) == 0 && AnalogToSigned(0) == -128 && AnalogToSigned(255) == 127
    ensures x < y ==> AnalogToSigned(x) < AnalogToSigned(y)
    ensures AnalogToSigned((s + 128) as byte) == s
  {
  }

  /** `BIGBEN_BTN_PRESSED(report, btn)`. */
  function BtnPressed(r: InputReport, btn: nat): bool
  {
    BitAnd(r.buttons, btn) != 0
  }

  /** For one of the named buttons the macro tests that button's bit. */
  lemma BtnPressedBit(r: InputReport, b: Button)
    ensures BtnPressed(r, ButtonMask(b)) == TestBit(r.buttons, ButtonBit(b))
  {
    ButtonMaskBit(b);
    MaskTest(r.buttons, ButtonBit(b));
  }
}
