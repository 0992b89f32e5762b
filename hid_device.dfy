// The virtual HID device (BigbenControllerDriver/Sources/BigbenHIDDevice.cpp):
// it translates each proprietary input report, caches the result for GET_REPORT
// requests, hands it to the HID stack, and turns SET_REPORT requests into the
// LED and rumble frames meant for the USB driver.

module HidDevice {
  import opened CTypes
  import opened BigbenProtocol
  import opened HidReportDescriptor
  import opened Translator
  import opened IoKit

  /** The LED pattern a new device starts with: the first LED alone. */
  const InitialLedState: byte := 0x01

  /** A report the device may hold in its cache: ID 1, no reserved button, a hat value
    * the descriptor allows. Both the neutral and every translated report are such. */
  predicate CacheableReport(r: HidReport)
  {
    r.reportId == ReportIdInput && r.buttons < 0x2000 && r.hatSwitch <= HatNull
  }

  lemma NeutralReportCacheable()
    ensures CacheableReport(NeutralReport())
  {
  }

  /** The LED frame `sendLEDToUSB` builds for a mask. */
  function LedFrameFor(mask: byte): (f: LedReport)
    ensures f.reportId == ReportIdLed && f.reserved1 == OutputMarker && f.ledState == mask
    ensures LedReportBytes(f) == [ReportIdLed, OutputMarker, mask, 0, 0, 0, 0, 0]
  {
    LedReport(ReportIdLed, OutputMarker, mask, Zeros(5))
  }

  /** The rumble frame `sendRumbleToUSB` builds: the right motor becomes on or off,
    * the left motor force is kept, the duration is "until changed". */
  function RumbleFrameFor(leftMotor: byte, rightMotor: byte): (f: RumbleReport)
    ensures f.reportId == ReportIdRumble && f.reserved1 == OutputMarker
    ensures f.rightMotorOn <= 1 && (f.rightMotorOn == 1 <==> rightMotor > 0)
    ensures f.leftMotorForce == leftMotor && f.duration == 0xFF
    ensures RumbleReportBytes(f) == [ReportIdRumble, OutputMarker, f.rightMotorOn, leftMotor, 0xFF, 0, 0, 0]
  {
    RumbleReport(ReportIdRumble, OutputMarker, if rightMotor > 0 then 1 else 0, leftMotor, 0xFF, Zeros(3))
  }

  /**
   * A rumble report that arrives through SET_REPORT is rebuilt, not passed on:
   * the rebuilt frame is the request itself exactly when the request already
   * has the marker byte, an on/off right motor, the "until changed" duration
   * and zero padding.
   */
  lemma RumbleRebuild(request: RumbleReport)
    requires request.reportId == ReportIdRumble
    ensures var f := RumbleReportOf(RumbleReportBytes(request));
      RumbleFrameFor(f.leftMotorForce, f.rightMotorOn) == request
      <==> (request.reserved1 == OutputMarker && request.rightMotorOn <= 1 && request.duration == 0xFF
            && request.padding == Zeros(3))
  {
    RumbleReportRoundTrip(request, RumbleReportBytes(request));
  }

  /** A SET_REPORT request the device reads as an LED report. */
  predicate LedRequest(present: bool, reportType: ReportType, mapResult: IOReturn, data: seq<byte>)
  {
    present && reportType == OutputType && mapResult == Success
    && |data| >= OutputReportSize && data[0] == ReportIdLed
  }

  /** A SET_REPORT request the device reads as a rumble report. */
  predicate RumbleRequest(present: bool, reportType: ReportType, mapResult: IOReturn, data: seq<byte>)
  {
    present && reportType == OutputType && mapResult == Success
    && |data| >= OutputReportSize && data[0] == ReportIdRumble
  }

  /**
   * The device's instance variables. The report descriptor cached by `Start`
   * is not modelled; `dispatched` records the reports handed to the HID stack
   * with `handleReport`, oldest first.
   */
  class BigbenHidDevice {
    var hasUsbDriver: bool
    var currentLedState: byte
    var isStarted: bool
    var translator: InputTranslator
    var lastReport: HidReport
    var hasValidReport: bool
    var dispatched: seq<HidReport>

    /** The translator keeps its deadzone in range and the cache holds a cacheable report. */
    ghost predicate Valid()
      reads this, translator
    {
      translator.Valid() && CacheableReport(lastReport)
    }

    /** The report GET_REPORT answers with: the cached one once there is one, else neutral. */
    function Reported(): HidReport
      reads this
    {
      if hasValidReport then lastReport else NeutralReport()
    }

    /**
     * `init`: the instance variables are allocated zero-filled, so the embedded
     * translator's constructor does not run and both its deadzones are 0; then
     * no USB driver, the first LED, not started, a neutral report and no valid
     * report.
     */
    constructor ()
      ensures Valid() && fresh(translator)
      ensures translator.deadzone == 0 && translator.triggerDeadzone == 0
      ensures !hasUsbDriver && currentLedState == InitialLedState && !isStarted
      ensures lastReport == NeutralReport() && !hasValidReport && dispatched == []
    {
      var neutral := InitializeNeutralReport(Some(HidReport(0, 0, 0, 0, 0, 0, 0, 0, 0)));
      translator := new InputTranslator.ZeroFilled();
      hasUsbDriver := false;
      currentLedState := LedMask(Led1);
      isStarted := false;
      hasValidReport := false;
      lastReport := neutral.value;
      dispatched := [];
    }

    /** `Start`: a failing parent start is returned as is; otherwise the device is
      * started and the result is success, whatever the service registration reports. */
    method Start(superStart: IOReturn, registerResult: IOReturn) returns (r: IOReturn)
      modifies this`isStarted
      ensures superStart != Success ==> r == superStart && isStarted == old(isStarted)
      ensures superStart == Success ==> r == Success && isStarted
    {
      if superStart != Success {
        return superStart;
      }
      isStarted := true;
      if registerResult != Success {
        // The failure is logged and ignored.
      }
      return Success;
    }

    /** `Stop`: the device is no longer started; the parent's result is returned. */
    method Stop(superStop: IOReturn) returns (r: IOReturn)
      modifies this`isStarted
      ensures !isStarted && r == superStop
    {
      isStarted := false;
      return superStop;
    }

    /** `setUSBDriver`. */
    method SetUsbDriver(present: bool)
      modifies this`hasUsbDriver
      ensures hasUsbDriver == present
    {
      hasUsbDriver := present;
    }

    /**
     * `getReport`: only input reports with report ID 0 or 1 are answered; a
     * mapped buffer smaller than the 10-byte report is refused; otherwise the
     * buffer receives the bytes of the cached report, or of the neutral report
     * when no input has been handled yet. Nothing changes.
     */
    method GetReport(present: bool, reportType: ReportType, options: nat, mapResult: IOReturn, mappedLength: nat)
      returns (r: IOReturn, copied: Option<seq<byte>>)
      ensures (r == Success) <==>
        (present && reportType == InputType && RequestedReportId(options) in {0, ReportIdInput}
         && mapResult == Success && mappedLength >= HidReportSize)
      ensures copied == if r == Success then Some(HidReportBytes(Reported())) else None
      ensures !present ==> r == BadArgument
      ensures present && reportType != InputType ==> r == Unsupported
      ensures present && reportType == InputType && RequestedReportId(options) !in {0, ReportIdInput} ==> r == Unsupported
      ensures present && reportType == InputType && RequestedReportId(options) in {0, ReportIdInput} ==>
        (mapResult != Success ==> r == mapResult)
        && (mapResult == Success && mappedLength < HidReportSize ==> r == NoSpace)
    {
      if !present {
        return BadArgument, None;
      }
      if reportType != InputType {
        return Unsupported, None;
      }
      var reportId := options % 0x100;
      if reportId != 0 && reportId != ReportIdInput {
        return Unsupported, None;
      }
      var reportToSend: HidReport;
      if hasValidReport {
        reportToSend := lastReport;
      } else {
        var neutral := InitializeNeutralReport(Some(lastReport));
        reportToSend := neutral.value;
      }
      if mapResult != Success {
        return mapResult, None;
      }
      if mappedLength < HidReportSize {
        return NoSpace, None;
      }
      return Success, Some(HidReportBytes(reportToSend));
    }

    /**
     * `handleInputReport`: a device that is not started, a missing buffer, a
     * buffer shorter than the 64-byte proprietary report or a report ID other
     * than 1 is refused with nothing changed. Otherwise the translation of the
     * report under the translator's deadzones becomes the cached report, before
     * the report buffer is created. If the buffer cannot be created, the result
     * of the creation is returned; if it cannot be mapped, the result of the
     * mapping; otherwise the report is handed to the HID stack and its result
     * returned.
     */
    method HandleInputReport(
      input: Option<seq<byte>>,
      createResult: IOReturn, bufferCreated: bool,
      mapResult: IOReturn, addressValid: bool,
      handleResult: IOReturn)
      returns (r: IOReturn)
      requires Valid()
      modifies this`lastReport, this`hasValidReport, this`dispatched
      ensures Valid()
      ensures !isStarted ==> r == NotReady
      ensures isStarted && input.None? ==> r == BadArgument
      ensures isStarted && input.Some? && |input.value| < InputReportSize ==> r == Underrun
      ensures isStarted && input.Some? && |input.value| >= InputReportSize && input.value[0] != ReportIdInput ==>
        r == BadArgument
      ensures !Accepts(input) ==>
        lastReport == old(lastReport) && hasValidReport == old(hasValidReport) && dispatched == old(dispatched)
      ensures Accepts(input) ==>
        hasValidReport
        && lastReport == TranslateWith(InputReportOf(input.value[..InputReportSize]), translator.deadzone, translator.triggerDeadzone)
      ensures Accepts(input) && (createResult != Success || !bufferCreated) ==>
        r == createResult && dispatched == old(dispatched)
      ensures Accepts(input) && createResult == Success && bufferCreated && !(mapResult == Success && addressValid) ==>
        r == mapResult && dispatched == old(dispatched)
      ensures Accepts(input) && createResult == Success && bufferCreated && mapResult == Success && addressValid ==>
        r == handleResult && dispatched == old(dispatched) + [lastReport]
    {
      if !isStarted {
        return NotReady;
      }
      if input.None? {
        return BadArgument;
      }
      if |input.value| < InputReportSize {
        return Underrun;
      }
      var proprietary := InputReportOf(input.value[..InputReportSize]);
      if proprietary.reportId != ReportIdInput {
        return BadArgument;
      }
      var _, hid := translator.Translate(Some(proprietary), Some(HidReport(0, 0, 0, 0, 0, 0, 0, 0, 0)));
      TranslatedReportValid(proprietary, translator.deadzone, translator.triggerDeadzone);
      lastReport := hid.value;
      hasValidReport := true;
      if createResult != Success || !bufferCreated {
        return createResult;
      }
      if mapResult == Success && addressValid {
        dispatched := dispatched + [hid.value];
        r := handleResult;
      } else {
        r := mapResult;
      }
    }

    /** The input reports `handleInputReport` translates. */
    predicate Accepts(input: Option<seq<byte>>)
      reads this
    {
      isStarted && input.Some? && |input.value| >= InputReportSize && input.value[0] == ReportIdInput
    }

    /**
     * `sendRumbleToUSB`: without a USB driver, not ready; otherwise the rumble
     * frame is built and success is returned. The frame is never handed to the
     * USB driver; the model returns it. Nothing changes.
     */
    method SendRumbleToUsb(leftMotor: byte, rightMotor: byte) returns (r: IOReturn, built: Option<RumbleReport>)
      ensures r == (if hasUsbDriver then Success else NotReady)
      ensures built == if hasUsbDriver then Some(RumbleFrameFor(leftMotor, rightMotor)) else None
    {
      if !hasUsbDriver {
        return NotReady, None;
      }
      var frame := RumbleReport(ReportIdRumble, 0x08, if rightMotor > 0 then 1 else 0, leftMotor, 0xFF, [0, 0, 0]);
      assert Zeros(3) == [0, 0, 0];
      return Success, Some(frame);
    }

    /**
     * `sendLEDToUSB`: the mask becomes the current LED state even when there is
     * no USB driver; then, without a driver, not ready; otherwise the LED frame
     * is built (and, as for rumble, not handed on) and success is returned.
     */
    method SendLedToUsb(mask: byte) returns (r: IOReturn, built: Option<LedReport>)
      modifies this`currentLedState
      ensures currentLedState == mask
      ensures r == (if hasUsbDriver then Success else NotReady)
      ensures built == if hasUsbDriver then Some(LedFrameFor(mask)) else None
    {
      currentLedState := mask;
      if !hasUsbDriver {
        return NotReady, None;
      }
      var frame := LedReport(ReportIdLed, 0x08, mask, [0, 0, 0, 0, 0]);
      assert Zeros(5) == [0, 0, 0, 0, 0];
      return Success, Some(frame);
    }

    /**
     * `setReport`: only output reports are taken; an empty buffer is an
     * underrun; by its first byte an ID-1 frame of at least 8 bytes is an LED
     * request (its byte 2 the mask), an ID-2 frame of at least 8 bytes a rumble
     * request (byte 3 the left motor force, byte 2 the right motor); a shorter
     * frame of either ID is an underrun and any other ID is unsupported.
     */
    method SetReport(present: bool, reportType: ReportType, mapResult: IOReturn, data: seq<byte>)
      returns (r: IOReturn, led: Option<LedReport>, rumble: Option<RumbleReport>)
      modifies this`currentLedState
      ensures (r == Success) <==>
        ((LedRequest(present, reportType, mapResult, data) || RumbleRequest(present, reportType, mapResult, data))
         && hasUsbDriver)
      ensures currentLedState == if LedRequest(present, reportType, mapResult, data) then data[2] else old(currentLedState)
      ensures led == if LedRequest(present, reportType, mapResult, data) && hasUsbDriver then Some(LedFrameFor(data[2])) else None
      ensures rumble ==
        if RumbleRequest(present, reportType, mapResult, data) && hasUsbDriver then Some(RumbleFrameFor(data[3], data[2])) else None
      ensures !present ==> r == BadArgument
      ensures present && reportType != OutputType ==> r == Unsupported
      ensures present && reportType == OutputType && mapResult != Success ==> r == mapResult
      ensures present && reportType == OutputType && mapResult == Success && |data| < 1 ==> r == Underrun
      ensures present && reportType == OutputType && mapResult == Success && 1 <= |data| < OutputReportSize ==>
        r == (if data[0] in {ReportIdLed, ReportIdRumble} then Underrun else Unsupported)
      ensures present && reportType == OutputType && mapResult == Success && 1 <= |data| ==>
        (data[0] !in {ReportIdLed, ReportIdRumble} ==> r == Unsupported)
      ensures LedRequest(present, reportType, mapResult, data) || RumbleRequest(present, reportType, mapResult, data) ==>
        (!hasUsbDriver ==> r == NotReady)
    {
      led, rumble := None, None;
      if !present {
        return BadArgument, led, rumble;
      }
      if reportType != OutputType {
        return Unsupported, led, rumble;
      }
      if mapResult != Success {
        return mapResult, led, rumble;
      }
      if |data| < 1 {
        return Underrun, led, rumble;
      }
      if data[0] == ReportIdLed {
        if |data| >= OutputReportSize {
          r, led := SendLedToUsb(data[2]);
        } else {
          r := Underrun;
        }
      } else if data[0] == ReportIdRumble {
        if |data| >= OutputReportSize {
          r, rumble := SendRumbleToUsb(data[3], data[2]);
        } else {
          r := Underrun;
        }
      } else {
        r := Unsupported;
      }
    }
  }

  /**
   * The cache is written before the report buffer is created, so a GET_REPORT
   * that follows an accepted input report answers with its translation even
   * when the report never reached the HID stack.
   */
  method InputThenGetReport(d: BigbenHidDevice, data: seq<byte>) returns (r: IOReturn, copied: Option<seq<byte>>)
    requires d.Valid() && d.isStarted && |data| >= InputReportSize && data[0] == ReportIdInput
    modifies d
    ensures d.dispatched == old(d.dispatched)
    ensures r == Success
    ensures copied == Some(HidReportBytes(TranslateWith(InputReportOf(data[..InputReportSize]), d.translator.deadzone, d.translator.triggerDeadzone)))
  {
    var failed := d.HandleInputReport(Some(data), Error(-1), false, Success, true, Success);
    assert failed == Error(-1);
    r, copied := d.GetReport(true, InputType, ReportIdInput, Success, HidReportSize);
  }
}
