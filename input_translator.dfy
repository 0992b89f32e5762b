// The driver's input translator (BigbenControllerDriver/Sources/InputTranslator.h
// and InputTranslator.cpp): the static conversions from the proprietary
// 64-byte report to the 10-byte HID report, and the translator object that
// holds the two configurable deadzones.

module Translator {
  import opened CTypes
  import opened BigbenProtocol
  import opened HidReportDescriptor

  const DefaultDeadzone: byte := 12
  const AxisCenter := 128
  const AxisMin := 0
  const AxisMax := 255
  const HatNeutral: byte := 8
  /** The largest stick deadzone the translator stores. */
  const MaxDeadzone: byte := 127
  /** The buttons the translator passes on: bits 0 .. 12. */
  const ActiveButtonsMask: uint16 := 0x1FFF

  // HID button indices: bit n of the report's `buttons` is HID button n + 1.

  datatype HidButton =
    | HidA | HidB | HidX | HidY | HidLB | HidRB | HidLT | HidRT
    | HidBack | HidStart | HidLStick | HidRStick | HidHome
    | Reserved14 | Reserved15 | Reserved16

  function HidButtonIndex(b: HidButton): (i: nat)
    ensures i <= 15
  {
    match b
    case HidA => 0
    case HidB => 1
    case HidX => 2
    case HidY => 3
    case HidLB => 4
    case HidRB => 5
    case HidLT => 6
    case HidRT => 7
    case HidBack => 8
    case HidStart => 9
    case HidLStick => 10
    case HidRStick => 11
    case HidHome => 12
    case Reserved14 => 13
    case Reserved15 => 14
    case Reserved16 => 15
  }

  /** The HID button a Bigben button maps to. */
  function HidButtonOf(b: Button): HidButton
  {
    match b
    case A => HidA
    case B => HidB
    case X => HidX
    case Y => HidY
    case LB => HidLB
    case RB => HidRB
    case LT => HidLT
    case RT => HidRT
    case Back => HidBack
    case Start => HidStart
    case LStick => HidLStick
    case RStick => HidRStick
    case Home => HidHome
  }

  /** The mapping keeps bit positions; the three reserved indices are 13 .. 15, the
    * bits the 13-bit mask removes. */
  lemma HidButtonIndices(b: Button, h: HidButton)
    ensures HidButtonIndex(HidButtonOf(b)) == ButtonBit(b)
    ensures (HidButtonIndex(h) >= 13) == (h in {Reserved14, Reserved15, Reserved16})
  {
  }

  // The static conversions.

  /** `translateButtons`: `buttons & 0x1FFF`. */
  function TranslateButtons(buttons: uint16): (r: uint16)
  {
    BitAnd(buttons, ActiveButtonsMask)
  }

  /** Bits 0 .. 12 pass unchanged and bits 13 .. 15 are cleared. */
  lemma TranslateButtonsBits(buttons: uint16, i: nat)
    ensures TestBit(TranslateButtons(buttons), i) == (i < 13 && TestBit(buttons, i))
  {
    assert Pow2(13) - 1 == ActiveButtonsMask;
    AndBit(buttons, Pow2(13) - 1, i);
    LowMaskBit(13, i);
  }

  /** The translation keeps the low 13 bits. */
  lemma TranslateButtonsValue(buttons: uint16)
    ensures TranslateButtons(buttons) == buttons % 0x2000
  {
    assert Pow2(13) - 1 == ActiveButtonsMask;
    LowMask(buttons, 13);
  }

  /** So it is idempotent. */
  lemma TranslateButtonsIdempotent(buttons: uint16)
    ensures TranslateButtons(TranslateButtons(buttons)) == TranslateButtons(buttons)
  {
    TranslateButtonsValue(buttons);
    TranslateButtonsValue(buttons % 0x2000);
  }

  /** All thirteen buttons come out pressed exactly when all thirteen went in, whatever
    * bits 13 .. 15 hold (so 0xFFFF and 0x1FFF both give 0x1FFF). */
  lemma TranslateAllButtons(buttons: uint16)
    ensures (TranslateButtons(buttons) == ActiveButtonsMask) == (buttons % 0x2000 == 0x1FFF)
  {
    TranslateButtonsValue(buttons);
  }

  /** `translateDPadToHat`: values above neutral become neutral. */
  function TranslateDPadToHat(dpad: byte): (hat: byte)
  {
    if dpad > DPadNeutral then HatNeutral else dpad
  }

  /** The identity on 0 .. 8 and neutral above, so the result is always a hat position
    * or the hat's null value. */
  lemma TranslateDPadToHatRange(dpad: byte)
    ensures TranslateDPadToHat(dpad) <= HatNeutral && HatNeutral == HatNull
    ensures dpad <= DPadNeutral ==> TranslateDPadToHat(dpad) == dpad
    ensures dpad > DPadNeutral ==> TranslateDPadToHat(dpad) == HatNeutral
    ensures TranslateDPadToHat(TranslateDPadToHat(dpad)) == TranslateDPadToHat(dpad)
  {
  }

  /** The offset from the centre after rescaling, before it is moved back and clamped:
    * outside the deadzone the remaining travel is stretched back to the full range,
    * with C's truncating division. */
  function RescaleOffset(offset: int, deadzone: byte): int
  {
    if 0 < deadzone < 128 then
      var maxRange := 127;
      var activeRange := maxRange - deadzone;
      if activeRange > 0 then
        if offset > 0 then TruncDiv((offset - deadzone) * maxRange, activeRange)
        else TruncDiv((offset + deadzone) * maxRange, activeRange)
      else offset
    else offset
  }

  /** `applyDeadzone`. */
  function ApplyDeadzone(value: byte, deadzone: byte): (r: byte)
  {
    var offset := value - AxisCenter;
    var dz: int := deadzone;
    if -dz < offset < dz then AxisCenter
    else
      var result := RescaleOffset(offset, deadzone) + AxisCenter;
      if result < AxisMin then AxisMin
      else if result > AxisMax then AxisMax
      else result
  }

  /** `applyTriggerDeadzone`. */
  function ApplyTriggerDeadzone(value: byte, deadzone: byte): (r: byte)
  {
    if value < deadzone then 0
    else if 0 < deadzone < 255 then
      var activeRange := 255 - deadzone;
      var adjusted := value - deadzone;
      var scaled := (adjusted * 255) / activeRange;
      if scaled > 255 then 255 else scaled
    else value
  }

  // Properties of the stick deadzone.

  /** Deadzone 0 leaves every value unchanged. */
  lemma DeadzoneZeroIsIdentity(value: byte)
    ensures ApplyDeadzone(value, 0) == value
  {
  }

  /** Values strictly inside the deadzone snap to the centre. For the deadzones the
    * rescaling applies to, the centre is produced by exactly the values within the
    * deadzone or on its edge: the edge 128 +/- deadzone maps to 128, so the output is
    * continuous there. */
  lemma DeadzoneCentre(value: byte, deadzone: byte)
    ensures 128 - deadzone < value < 128 + deadzone ==> ApplyDeadzone(value, deadzone) == AxisCenter
    ensures deadzone < 127 ==>
      ((ApplyDeadzone(value, deadzone) == AxisCenter) == (128 - deadzone <= value <= 128 + deadzone))
  {
    var offset := value - 128;
    if 0 < deadzone < 127 && (offset >= deadzone || offset <= -(deadzone as int)) {
      if offset > 0 {
        DivBounds((offset - deadzone) * 127, 127 - deadzone, 0, 127);
        if offset > deadzone {
          DivBounds((offset - deadzone) * 127, 127 - deadzone, 1, 127);
        }
      } else {
        DivBounds(-(offset + deadzone) * 127, 127 - deadzone, 0, 254);
        if offset < -(deadzone as int) {
          DivBounds(-(offset + deadzone) * 127, 127 - deadzone, 1, 254);
        }
      }
    }
  }

  /** Outside the deadzone the rescaled offset lies in -254 .. 127: every intermediate
    * value fits the `int16_t` the source stores it in, and the upper clamp never fires. */
  lemma DeadzoneNoOverflow(value: byte, deadzone: byte)
    requires value - 128 >= deadzone || value - 128 <= -(deadzone as int)
    ensures -254 <= RescaleOffset(value - 128, deadzone) <= 127
  {
    var offset := value - 128;
    if 0 < deadzone < 127 {
      if offset > 0 {
        DivBounds((offset - deadzone) * 127, 127 - deadzone, 0, 127);
      } else {
        DivBounds(-(offset + deadzone) * 127, 127 - deadzone, 0, 254);
      }
    }
  }

  /** The output stays on the input's side of the centre. */
  lemma DeadzoneKeepsSide(value: byte, deadzone: byte)
    ensures value >= 128 ==> ApplyDeadzone(value, deadzone) >= AxisCenter
    ensures value <= 128 ==> ApplyDeadzone(value, deadzone) <= AxisCenter
  {
    var offset := value - 128;
    if 0 < deadzone < 127 && (offset >= deadzone || offset <= -(deadzone as int)) {
      DeadzoneNoOverflow(value, deadzone);
      if offset > 0 {
        DivBounds((offset - deadzone) * 127, 127 - deadzone, 0, 127);
      } else {
        DivBounds(-(offset + deadzone) * 127, 127 - deadzone, 0, 254);
      }
    }
  }

  /** Full deflection stays full deflection: 255 maps to 255 for every deadzone the
    * translator stores, and 0 maps to 0 for each of those and for 128. */
  lemma DeadzoneEndpoints(deadzone: byte)
    ensures deadzone <= MaxDeadzone ==> ApplyDeadzone(255, deadzone) == 255
    ensures deadzone <= 128 ==> ApplyDeadzone(0, deadzone) == 0
  {
    if 0 < deadzone < 127 {
      var a := 127 - deadzone;
      assert (127 - deadzone) * 127 == a * 127;
      DivBounds(a * 127, a, 127, 127);
      DivBounds((128 - deadzone) * 127, a, 127, 254);
      assert (128 - deadzone) * 127 == a * 127 + 127;
      assert (128 - deadzone) * 127 >= a * 128;
      DivBounds((128 - deadzone) * 127, a, 128, 254);
    }
  }

  /** A larger input never gives a smaller output. */
  lemma DeadzoneMonotone(v: byte, w: byte, deadzone: byte)
    requires v <= w
    ensures ApplyDeadzone(v, deadzone) <= ApplyDeadzone(w, deadzone)
  {
    DeadzoneKeepsSide(v, deadzone);
    DeadzoneKeepsSide(w, deadzone);
    var ov, ow := v - 128, w - 128;
    if 0 < deadzone < 127 && (ov >= deadzone || ov <= -(deadzone as int)) && (ow >= deadzone || ow <= -(deadzone as int)) {
      if ov > 0 {
        TruncDivMono((ov - deadzone) * 127, (ow - deadzone) * 127, 127 - deadzone);
      } else if ow <= 0 {
        TruncDivMono((ov + deadzone) * 127, (ow + deadzone) * 127, 127 - deadzone);
      }
    }
  }

  /** The values the driver's tests pin, including the one that shows the division
    * truncates toward zero: (100 - 128 + 12) * 127 / 115 is -17 in C, where a flooring
    * division would give -18 and the output 110. */
  lemma DeadzoneExamples()
    ensures ApplyDeadzone(100, 12) == 111
    ensures ApplyDeadzone(141, 12) == 129 && ApplyDeadzone(255, 12) == 255 && ApplyDeadzone(0, 12) == 0
    ensures ApplyDeadzone(192, 60) > 128 && ApplyDeadzone(200, 10) > 128
    ensures ApplyDeadzone(133, 12) == 128 && ApplyDeadzone(117, 12) == 128 && ApplyDeadzone(113, 20) == 128
  {
  }

  // Properties of the trigger deadzone.

  /** Deadzone 0 leaves every value unchanged. */
  lemma TriggerZeroIsIdentity(value: byte)
    ensures ApplyTriggerDeadzone(value, 0) == value
  {
  }

  /** Below a deadzone short of 255 a trigger reads 0, and it reads 0 only up to the
    * deadzone: the first value above it already gives a positive output. */
  lemma TriggerReleased(value: byte, deadzone: byte)
    ensures value < deadzone ==> ApplyTriggerDeadzone(value, deadzone) == 0
    ensures deadzone < 255 ==> ((ApplyTriggerDeadzone(value, deadzone) == 0) == (value <= deadzone))
  {
    if 0 < deadzone < 255 && value > deadzone {
      DivBounds((value - deadzone) * 255, 255 - deadzone, 1, 255);
    }
  }

  /** The scaled value never exceeds 255, so the clamp never fires, and full pull
    * always reads 255. */
  lemma TriggerRange(value: byte, deadzone: byte)
    ensures 0 < deadzone < 255 && value >= deadzone ==> (value - deadzone) * 255 / (255 - deadzone) <= 255
    ensures ApplyTriggerDeadzone(255, deadzone) == 255
  {
    if 0 < deadzone < 255 {
      if value >= deadzone {
        DivBounds((value - deadzone) * 255, 255 - deadzone, 0, 255);
      }
      DivBounds((255 - deadzone) * 255, 255 - deadzone, 255, 255);
    }
  }

  /** A harder pull never reads less. */
  lemma TriggerMonotone(v: byte, w: byte, deadzone: byte)
    requires v <= w
    ensures ApplyTriggerDeadzone(v, deadzone) <= ApplyTriggerDeadzone(w, deadzone)
  {
    if 0 < deadzone < 255 && v >= deadzone {
      DivMono((v - deadzone) * 255, (w - deadzone) * 255, 255 - deadzone);
    }
  }

  lemma TriggerExamples()
    ensures ApplyTriggerDeadzone(0, 30) == 0 && ApplyTriggerDeadzone(10, 30) == 0
    ensures ApplyTriggerDeadzone(29, 30) == 0 && ApplyTriggerDeadzone(31, 30) > 0
    ensures ApplyTriggerDeadzone(255, 30) == 255 && ApplyTriggerDeadzone(30, 50) == 0
    ensures ApplyTriggerDeadzone(100, 50) > 0
  {
  }

  // Whole reports.

  /** The HID report `translate` writes for an input report under the given deadzones:
    * report ID 1 and each field converted by its helper. */
  function TranslateWith(input: InputReport, deadzone: byte, triggerDeadzone: byte): HidReport
  {
    HidReport(
      reportId := ReportIdInput,
      buttons := TranslateButtons(input.buttons),
      leftStickX := ApplyDeadzone(input.leftStickX, deadzone),
      leftStickY := ApplyDeadzone(input.leftStickY, deadzone),
      rightStickX := ApplyDeadzone(input.rightStickX, deadzone),
      rightStickY := ApplyDeadzone(input.rightStickY, deadzone),
      leftTrigger := ApplyTriggerDeadzone(input.leftTrigger, triggerDeadzone),
      rightTrigger := ApplyTriggerDeadzone(input.rightTrigger, triggerDeadzone),
      hatSwitch := TranslateDPadToHat(input.dpad))
  }

  /** `initializeNeutralReport`'s value: nothing pressed, sticks centred, hat released. */
  function NeutralReport(): HidReport
  {
    HidReport(ReportIdInput, 0, AxisCenter, AxisCenter, AxisCenter, AxisCenter, 0, 0, HatNeutral)
  }

  /** An input report at rest: sticks centred, triggers released, D-pad neutral. */
  predicate AtRest(input: InputReport)
  {
    input.buttons == 0 && input.dpad == DPadNeutral
    && input.leftStickX == 128 && input.leftStickY == 128
    && input.rightStickX == 128 && input.rightStickY == 128
    && input.leftTrigger == 0 && input.rightTrigger == 0
  }

  /** A controller at rest translates to the neutral report, whatever the deadzones. */
  lemma RestTranslatesToNeutral(input: InputReport, deadzone: byte, triggerDeadzone: byte)
    requires AtRest(input)
    ensures TranslateWith(input, deadzone, triggerDeadzone) == NeutralReport()
  {
    assert TranslateButtons(0) == 0 by {
      TranslateButtonsValue(0);
    }
  }

  /** A translated report carries report ID 1, no reserved button, and a hat value the
    * descriptor allows (a position 0 .. 7 or the null value 8). */
  lemma TranslatedReportValid(input: InputReport, deadzone: byte, triggerDeadzone: byte)
    ensures var r := TranslateWith(input, deadzone, triggerDeadzone);
      r.reportId == ReportIdInput && r.buttons < 0x2000 && r.hatSwitch <= HatNull
  {
    TranslateButtonsValue(input.buttons);
  }

  /** `isButtonPressed`: false for no report or an index above 15, else bit `button`
    * of the report's buttons. */
  function IsButtonPressed(report: Option<HidReport>, button: nat): (pressed: bool)
    ensures pressed == (report.Some? && button <= 15 && TestBit(report.value.buttons, button))
  {
    if report.None? || button > 15 then false
    else
      MaskTest(report.value.buttons, button);
      BitAnd(report.value.buttons, Pow2(button)) != 0
  }

  /** After translation a Bigben button reads as pressed at its HID index exactly when
    * it was pressed in the input, and the reserved buttons never read as pressed. */
  lemma TranslatedButtons(input: InputReport, deadzone: byte, triggerDeadzone: byte, b: Button, h: HidButton)
    ensures var r := Some(TranslateWith(input, deadzone, triggerDeadzone));
      IsButtonPressed(r, HidButtonIndex(HidButtonOf(b))) == BtnPressed(input, ButtonMask(b))
      && (h in {Reserved14, Reserved15, Reserved16} ==> !IsButtonPressed(r, HidButtonIndex(h)))
  {
    HidButtonIndices(b, h);
    TranslateButtonsBits(input.buttons, ButtonBit(b));
    TranslateButtonsBits(input.buttons, HidButtonIndex(h));
    BtnPressedBit(input, b);
  }

  /** The neutral report has no button pressed. */
  lemma NeutralReportReleased(button: nat)
    ensures !IsButtonPressed(Some(NeutralReport()), button)
  {
    ZeroBits(button);
  }

  /**
   * The translator object: the stick deadzone, kept within 0 .. 127, and the
   * trigger deadzone, any byte.
   */
  class InputTranslator {
    var deadzone: byte
    var triggerDeadzone: byte

    ghost predicate Valid()
      reads this
    {
      deadzone <= MaxDeadzone
    }

    /** The default constructor. */
    constructor ()
      ensures Valid()
      ensures deadzone == DefaultDeadzone && triggerDeadzone == 0
    {
      deadzone := DefaultDeadzone;
      triggerDeadzone := 0;
    }

    /** The constructor with a stick deadzone, clamped to 127. */
    constructor WithDeadzone(dz: byte)
      ensures Valid()
      ensures deadzone == (if dz > MaxDeadzone then MaxDeadzone else dz) && triggerDeadzone == 0
    {
      deadzone := dz;
      triggerDeadzone := 0;
      new;
      if deadzone > 127 {
        deadzone := 127;
      }
    }

    /** Storage that was zero-filled without running a constructor: both deadzones 0. */
    constructor ZeroFilled()
      ensures Valid()
      ensures deadzone == 0 && triggerDeadzone == 0
    {
      deadzone := 0;
      triggerDeadzone := 0;
    }

    method SetDeadzone(dz: byte)
      modifies this
      ensures Valid()
      ensures deadzone == (if dz > MaxDeadzone then MaxDeadzone else dz)
      ensures triggerDeadzone == old(triggerDeadzone)
    {
      deadzone := if dz > 127 then 127 else dz;
    }

    method SetTriggerDeadzone(dz: byte)
      requires Valid()
      modifies this
      ensures Valid()
      ensures triggerDeadzone == dz && deadzone == old(deadzone)
    {
      triggerDeadzone := dz;
    }

    method GetDeadzone() returns (dz: byte)
      requires Valid()
      ensures dz == deadzone && dz <= MaxDeadzone
    {
      dz := deadzone;
    }

    method GetTriggerDeadzone() returns (dz: byte)
      ensures dz == triggerDeadzone
    {
      dz := triggerDeadzone;
    }

    /**
     * `translate`: a missing input or output yields false and leaves the output as it
     * was; otherwise the output becomes the translation of the input under this
     * translator's deadzones.
     */
    method Translate(input: Option<InputReport>, output: Option<HidReport>) returns (ok: bool, result: Option<HidReport>)
      ensures ok == (input.Some? && output.Some?)
      ensures result == if ok then Some(TranslateWith(input.value, deadzone, triggerDeadzone)) else output
    {
      if input.None? || output.None? {
        return false, output;
      }
      var out := HidReport(0, 0, 0, 0, 0, 0, 0, 0, 0);
      out := out.(reportId := ReportIdInput);
      out := out.(buttons := TranslateButtons(input.value.buttons));
      out := out.(leftStickX := ApplyDeadzone(input.value.leftStickX, deadzone));
      out := out.(leftStickY := ApplyDeadzone(input.value.leftStickY, deadzone));
      out := out.(rightStickX := ApplyDeadzone(input.value.rightStickX, deadzone));
      out := out.(rightStickY := ApplyDeadzone(input.value.rightStickY, deadzone));
      out := out.(leftTrigger := ApplyTriggerDeadzone(input.value.leftTrigger, triggerDeadzone));
      out := out.(rightTrigger := ApplyTriggerDeadzone(input.value.rightTrigger, triggerDeadzone));
      out := out.(hatSwitch := TranslateDPadToHat(input.value.dpad));
      return true, Some(out);
    }
  }

  /** `initializeNeutralReport`: no report, nothing written; otherwise the neutral report. */
  method InitializeNeutralReport(report: Option<HidReport>) returns (result: Option<HidReport>)
    ensures result == if report.None? then None else Some(NeutralReport())
  {
    if report.None? {
      return None;
    }
    var r := HidReport(0, 0, 0, 0, 0, 0, 0, 0, 0);
    r := r.(reportId := ReportIdInput, buttons := 0);
    r := r.(leftStickX := AxisCenter, leftStickY := AxisCenter);
    r := r.(rightStickX := AxisCenter, rightStickY := AxisCenter);
    r := r.(leftTrigger := 0, rightTrigger := 0, hatSwitch := HatNeutral);
    return Some(r);
  }
}
