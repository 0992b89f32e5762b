// The USB-side driver (BigbenControllerDriver/Sources/BigbenUSBDriver.cpp):
// the polling flags and counters around the asynchronous interrupt-in reads,
// the cache of the last controller report, and the zero-padded 8-byte output
// reports it sends on the interrupt-out pipe.

module UsbDriver {
  import opened CTypes
  import opened BigbenProtocol
  import opened IoKit

  /** `data` followed by zeros up to the 8-byte output report size. */
  function PadToOutput(data: seq<byte>): (p: seq<byte>)
    requires |data| <= OutputReportSize
    ensures |p| == OutputReportSize && p[..|data|] == data
    ensures forall i :: |data| <= i < OutputReportSize ==> p[i] == 0
  {
    data + Zeros(OutputReportSize - |data|)
  }

  /** Padding adds nothing to a full report and is determined by the data alone:
    * two data of the same length pad alike exactly when they are equal. */
  lemma PadToOutputInjective(a: seq<byte>, b: seq<byte>)
    requires |a| <= OutputReportSize && |b| <= OutputReportSize && |a| == |b|
    ensures |a| == OutputReportSize ==> PadToOutput(a) == a
    ensures PadToOutput(a) == PadToOutput(b) <==> a == b
  {
    if PadToOutput(a) == PadToOutput(b) {
      assert a == PadToOutput(a)[..|a|];
    }
  }

  /** A 3-byte LED request `[1, 0x08, mask]` goes out as the full LED report for `mask`. */
  lemma ShortLedRequestPads(mask: byte)
    ensures PadToOutput([ReportIdLed, OutputMarker, mask]) == LedReportBytes(LedReport(ReportIdLed, OutputMarker, mask, Zeros(5)))
  {
    assert Zeros(5) == [0, 0, 0, 0, 0];
  }

  /** Which branch of `setReport` takes an output request. */
  datatype OutputPath = LedPath | RumblePath

  /** The branch `setReport` takes: the LED branch, checked first, takes report ID 1 from
    * the options or the first byte; the rumble branch takes ID 2 the same way. */
  function OutputPathFor(options: nat, data: seq<byte>): (p: Option<OutputPath>)
    ensures p == Some(LedPath) <==>
      (RequestedReportId(options) == ReportIdLed || (|data| > 0 && data[0] == ReportIdLed))
    ensures p == Some(RumblePath) <==>
      (RequestedReportId(options) != ReportIdLed && !(|data| > 0 && data[0] == ReportIdLed)
       && (RequestedReportId(options) == ReportIdRumble || (|data| > 0 && data[0] == ReportIdRumble)))
  {
    var id := RequestedReportId(options);
    if id == ReportIdLed || (|data| > 0 && data[0] == ReportIdLed) then Some(LedPath)
    else if id == ReportIdRumble || (|data| > 0 && data[0] == ReportIdRumble) then Some(RumblePath)
    else None
  }

  /** Because the LED and input reports share ID 1, a rumble frame sent with options
    * naming report 1 is taken by the LED branch, and so is any frame starting with 1. */
  lemma LedPathPrecedence(frame: RumbleReport, options: nat, data: seq<byte>)
    requires frame.reportId == ReportIdRumble && RequestedReportId(options) == ReportIdInput
    requires |data| > 0 && data[0] == ReportIdInput
    ensures OutputPathFor(options, RumbleReportBytes(frame)) == Some(LedPath)
    ensures OutputPathFor(2, data) == Some(LedPath)
    ensures OutputPathFor(2, RumbleReportBytes(frame)) == Some(RumblePath)
  {
    ReportIdsShared();
  }

  /**
   * The driver's instance variables. A DriverKit object is modelled by a flag
   * saying whether it is present. `queuedReads` counts the reads queued on the
   * input pipe, `forwarded` the reports handed to the HID stack and
   * `submitted` the output reports queued on the output pipe.
   */
  class BigbenUsbDriver {
    var hasInterface: bool
    var hasInputPipe: bool
    var hasOutputPipe: bool
    var hasInputBuffer: bool
    var hasOutputBuffer: bool
    var hasHidDescriptor: bool
    var hasReadAction: bool
    var hasWriteAction: bool

    var isStarted: bool
    var isPolling: bool
    var deviceConnected: bool

    var lastReport: InputReport
    var hasLastReport: bool

    var reportsReceived: nat
    var reportErrors: nat
    var outputReportsSent: nat

    /** The memory of the output buffer: one 8-byte output report. */
    const outputMemory: array<byte>

    var queuedReads: nat
    var forwarded: seq<seq<byte>>
    var submitted: seq<seq<byte>>

    /** Polling needs the input pipe, buffer and action; the output buffer holds one report;
      * a cached report carries the input report ID. */
    ghost predicate Valid()
      reads this
    {
      outputMemory.Length == OutputReportSize
      && (isPolling ==> hasInputPipe && hasInputBuffer && hasReadAction)
      && (hasLastReport ==> lastReport.reportId == ReportIdInput)
    }

    /** `init`: no USB object, every flag false, every counter 0. */
    constructor ()
      ensures Valid() && fresh(outputMemory)
      ensures !hasInterface && !hasInputPipe && !hasOutputPipe && !hasInputBuffer && !hasOutputBuffer
      ensures !hasHidDescriptor && !hasReadAction && !hasWriteAction
      ensures !isStarted && !isPolling && !deviceConnected && !hasLastReport
      ensures reportsReceived == 0 && reportErrors == 0 && outputReportsSent == 0
      ensures queuedReads == 0 && forwarded == [] && submitted == []
    {
      hasInterface, hasInputPipe, hasOutputPipe := false, false, false;
      hasInputBuffer, hasOutputBuffer, hasHidDescriptor := false, false, false;
      hasReadAction, hasWriteAction := false, false;
      isStarted, isPolling, deviceConnected := false, false, false;
      lastReport := InputReport(0, 0, 0, 0, 0, 0, 0, 0, 0, Zeros(54));
      hasLastReport := false;
      reportsReceived, reportErrors, outputReportsSent := 0, 0, 0;
      outputMemory := new byte[OutputReportSize](_ => 0);
      queuedReads, forwarded, submitted := 0, [], [];
    }

    /**
     * `Start`: a failing parent start or setup step is returned. Otherwise the
     * interface, the input endpoint with its buffer and action, the HID
     * descriptor and, when the device has one, the output endpoint are in
     * place, polling is started, and only if that succeeds is the driver
     * started and the device connected.
     */
    method Start(superStart: IOReturn, setupResult: IOReturn, outputEndpoint: bool, firstRead: IOReturn)
      returns (r: IOReturn)
      requires Valid()
      modifies this`hasInterface, this`hasInputPipe, this`hasOutputPipe, this`hasInputBuffer,
        this`hasOutputBuffer, this`hasHidDescriptor, this`hasReadAction, this`hasWriteAction,
        this`isStarted, this`deviceConnected, this`isPolling, this`queuedReads
      ensures Valid()
      ensures superStart != Success ==> r == superStart
      ensures superStart == Success && setupResult != Success ==> r == setupResult
      ensures superStart == Success && setupResult == Success ==>
        hasInputPipe && hasInputBuffer && hasReadAction && hasHidDescriptor
        && hasOutputPipe == outputEndpoint && hasOutputBuffer == outputEndpoint
      ensures superStart == Success && setupResult == Success && !old(isPolling) ==>
        r == firstRead && queuedReads == old(queuedReads) + (if firstRead == Success then 1 else 0)
      ensures r == Success <==> superStart == Success && setupResult == Success && (old(isPolling) || firstRead == Success)
      ensures r == Success ==> isStarted && deviceConnected && isPolling
      ensures r != Success ==> isStarted == old(isStarted) && deviceConnected == old(deviceConnected)
    {
      if superStart != Success {
        return superStart;
      }
      if setupResult != Success {
        return setupResult;
      }
      SetUpResources(outputEndpoint);
      r := StartInputPolling(firstRead);
      if r != Success {
        return r;
      }
      isStarted := true;
      deviceConnected := true;
      return Success;
    }

    /**
     * The setup steps of `Start` once they have all succeeded: the interface is
     * held, the interrupt-in pipe with its buffer and read action, the HID
     * descriptor, and the interrupt-out pipe with its buffer and write action
     * when the device has that endpoint.
     */
    method SetUpResources(outputEndpoint: bool)
      requires Valid()
      modifies this`hasInterface, this`hasInputPipe, this`hasOutputPipe, this`hasInputBuffer,
        this`hasOutputBuffer, this`hasHidDescriptor, this`hasReadAction, this`hasWriteAction
      ensures Valid()
      ensures hasInterface && hasInputPipe && hasInputBuffer && hasReadAction && hasHidDescriptor
      ensures hasOutputPipe == outputEndpoint && hasOutputBuffer == outputEndpoint && hasWriteAction == outputEndpoint
    {
      hasInterface := true;
      hasInputPipe, hasInputBuffer, hasReadAction := true, true, true;
      hasOutputPipe, hasOutputBuffer, hasWriteAction := outputEndpoint, outputEndpoint, outputEndpoint;
      hasHidDescriptor := true;
    }

    /** `Stop`: the driver is stopped and disconnected, polling stops and every
      * USB object is released; the parent's result is returned. */
    method Stop(superStop: IOReturn) returns (r: IOReturn)
      requires Valid()
      modifies this
      ensures Valid()
      ensures r == superStop && !isStarted && !deviceConnected && !isPolling
      ensures !hasInterface && !hasInputPipe && !hasOutputPipe && !hasInputBuffer && !hasOutputBuffer
      ensures !hasHidDescriptor && !hasReadAction && !hasWriteAction
      ensures reportsReceived == old(reportsReceived) && reportErrors == old(reportErrors)
      ensures outputReportsSent == old(outputReportsSent) && queuedReads == old(queuedReads)
      ensures lastReport == old(lastReport) && hasLastReport == old(hasLastReport)
      ensures forwarded == old(forwarded) && submitted == old(submitted)
    {
      isStarted := false;
      deviceConnected := false;
      StopInputPolling();
      CleanupResources();
      return superStop;
    }

    /** `CleanupResources`: every USB object is released; nothing else changes, so a
      * call while polling (as `free` may make) leaves `isPolling` set. */
    method CleanupResources()
      modifies this`hasInterface, this`hasInputPipe, this`hasOutputPipe, this`hasInputBuffer,
        this`hasOutputBuffer, this`hasHidDescriptor, this`hasReadAction, this`hasWriteAction
      ensures !hasInterface && !hasInputPipe && !hasOutputPipe && !hasInputBuffer && !hasOutputBuffer
      ensures !hasHidDescriptor && !hasReadAction && !hasWriteAction
    {
      hasReadAction := false;
      hasWriteAction := false;
      hasInputBuffer := false;
      hasOutputBuffer := false;
      hasHidDescriptor := false;
      hasInputPipe := false;
      hasOutputPipe := false;
      hasInterface := false;
    }

    /**
     * `StartInputPolling`: without the input pipe, buffer or action, not ready;
     * when already polling, success without a second read; otherwise the first
     * read is queued, and polling is on only if that succeeded.
     */
    method StartInputPolling(asyncResult: IOReturn) returns (r: IOReturn)
      requires Valid()
      modifies this`isPolling, this`queuedReads
      ensures Valid()
      ensures !(hasInputPipe && hasInputBuffer && hasReadAction) ==>
        r == NotReady && isPolling == old(isPolling) && queuedReads == old(queuedReads)
      ensures hasInputPipe && hasInputBuffer && hasReadAction && old(isPolling) ==>
        r == Success && isPolling && queuedReads == old(queuedReads)
      ensures hasInputPipe && hasInputBuffer && hasReadAction && !old(isPolling) ==>
        r == asyncResult && isPolling == (asyncResult == Success)
        && queuedReads == old(queuedReads) + (if asyncResult == Success then 1 else 0)
    {
      if !hasInputPipe || !hasInputBuffer || !hasReadAction {
        return NotReady;
      }
      if isPolling {
        return Success;
      }
      if asyncResult != Success {
        return asyncResult;
      }
      queuedReads := queuedReads + 1;
      isPolling := true;
      return Success;
    }

    /** `StopInputPolling`: polling is off; the pending read is aborted on the pipe. */
    method StopInputPolling()
      modifies this`isPolling
      ensures !isPolling
    {
      if !isPolling {
        return;
      }
      isPolling := false;
    }

    /** `ParseInputReport`: a buffer of at least 64 bytes with report ID 1 becomes the
      * cached report; anything else changes nothing. */
    method ParseInputReport(data: seq<byte>, length: nat)
      requires Valid() && length <= |data|
      modifies this`lastReport, this`hasLastReport
      ensures Valid()
      ensures length >= InputReportSize && data[0] == ReportIdInput ==>
        hasLastReport && lastReport == InputReportOf(data[..InputReportSize])
        && InputReportBytes(lastReport) == data[..InputReportSize]
      ensures !(length >= InputReportSize && data[0] == ReportIdInput) ==>
        lastReport == old(lastReport) && hasLastReport == old(hasLastReport)
    {
      if length < InputReportSize {
        return;
      }
      var report := InputReportOf(data[..InputReportSize]);
      if report.reportId != ReportIdInput {
        return;
      }
      InputReportBytesRoundTrip(data[..InputReportSize]);
      lastReport := report;
      hasLastReport := true;
    }

    /** Queue the next read if still polling and connected; a failed queue ends polling. */
    method Requeue(requeueResult: IOReturn)
      requires Valid()
      modifies this`isPolling, this`queuedReads
      ensures Valid()
      ensures old(isPolling && deviceConnected) ==>
        queuedReads == old(queuedReads) + (if requeueResult == Success then 1 else 0)
        && isPolling == (requeueResult == Success)
      ensures !old(isPolling && deviceConnected) ==> queuedReads == old(queuedReads) && isPolling == old(isPolling)
    {
      if isPolling && deviceConnected {
        if requeueResult != Success {
          isPolling := false;
        } else {
          queuedReads := queuedReads + 1;
        }
      }
    }

    /**
     * `ReadComplete`: an aborted read or a device that does not respond
     * changes nothing. Any other error counts one report error and queues the
     * next read. A successful read shorter than 64 bytes counts one report
     * error; a full read, when the buffer maps, updates the cache, counts one
     * report received and hands the buffer to the HID stack; then the next read
     * is queued. A read is queued only while polling and connected, and a
     * failure to queue it ends polling.
     */
    method ReadComplete(
      status: IOReturn, actualByteCount: nat, buffer: seq<byte>,
      mapResult: IOReturn, addressValid: bool, requeueResult: IOReturn)
      requires Valid()
      requires |buffer| == InputReportSize && actualByteCount <= InputReportSize
      modifies this`isPolling, this`queuedReads, this`reportErrors, this`reportsReceived,
        this`lastReport, this`hasLastReport, this`forwarded
      ensures Valid()
      ensures status in {Aborted, NotResponding} ==>
        isPolling == old(isPolling) && queuedReads == old(queuedReads)
        && reportErrors == old(reportErrors) && reportsReceived == old(reportsReceived)
        && lastReport == old(lastReport) && hasLastReport == old(hasLastReport) && forwarded == old(forwarded)
      ensures status !in {Aborted, NotResponding} ==>
        (old(isPolling && deviceConnected) ==>
          queuedReads == old(queuedReads) + (if requeueResult == Success then 1 else 0)
          && isPolling == (requeueResult == Success))
        && (!old(isPolling && deviceConnected) ==> queuedReads == old(queuedReads) && isPolling == old(isPolling))
      ensures status !in {Aborted, NotResponding, Success} ==>
        reportErrors == old(reportErrors) + 1 && reportsReceived == old(reportsReceived)
        && lastReport == old(lastReport) && hasLastReport == old(hasLastReport) && forwarded == old(forwarded)
      ensures status == Success && actualByteCount < InputReportSize ==>
        reportErrors == old(reportErrors) + 1 && reportsReceived == old(reportsReceived)
        && lastReport == old(lastReport) && hasLastReport == old(hasLastReport) && forwarded == old(forwarded)
      ensures status == Success && actualByteCount == InputReportSize && !(mapResult == Success && addressValid) ==>
        reportErrors == old(reportErrors) && reportsReceived == old(reportsReceived)
        && lastReport == old(lastReport) && hasLastReport == old(hasLastReport) && forwarded == old(forwarded)
      ensures status == Success && actualByteCount == InputReportSize && mapResult == Success && addressValid ==>
        reportErrors == old(reportErrors) && reportsReceived == old(reportsReceived) + 1
        && forwarded == old(forwarded) + [buffer]
        && (buffer[0] == ReportIdInput ==> hasLastReport && InputReportBytes(lastReport) == buffer)
        && (buffer[0] != ReportIdInput ==> lastReport == old(lastReport) && hasLastReport == old(hasLastReport))
      ensures reportErrors + reportsReceived <= old(reportErrors + reportsReceived) + 1
    {
      if status == Aborted || status == NotResponding {
        return;
      }
      if status != Success {
        reportErrors := reportErrors + 1;
        Requeue(requeueResult);
        return;
      }
      if actualByteCount < InputReportSize {
        reportErrors := reportErrors + 1;
      } else {
        if mapResult == Success && addressValid {
          ParseInputReport(buffer, actualByteCount);
          reportsReceived := reportsReceived + 1;
          forwarded := forwarded + [buffer[..actualByteCount]];
          assert buffer[..actualByteCount] == buffer;
        }
      }
      Requeue(requeueResult);
    }

    /** `WriteComplete`: only a successful write is counted. */
    method WriteComplete(status: IOReturn)
      modifies this`outputReportsSent
      ensures outputReportsSent == old(outputReportsSent) + (if status == Success then 1 else 0)
    {
      if status != Success {
        return;
      }
      outputReportsSent := outputReportsSent + 1;
    }

    /**
     * `SendOutputReport`: without the output pipe or buffer, not found; data
     * longer than 8 bytes is a bad argument; a failing map is returned.
     * Otherwise the output buffer becomes the data followed by zeros up to 8
     * bytes and all 8 bytes are queued; a failure to queue them is returned.
     */
    method SendOutputReport(data: seq<byte>, mapResult: IOReturn, asyncResult: IOReturn) returns (r: IOReturn)
      requires Valid()
      modifies this`submitted, outputMemory
      ensures Valid()
      ensures !(hasOutputPipe && hasOutputBuffer) ==> r == NotFound
      ensures hasOutputPipe && hasOutputBuffer && |data| > OutputReportSize ==> r == BadArgument
      ensures hasOutputPipe && hasOutputBuffer && |data| <= OutputReportSize && mapResult != Success ==> r == mapResult
      ensures hasOutputPipe && hasOutputBuffer && |data| <= OutputReportSize && mapResult == Success ==>
        r == asyncResult && outputMemory[..] == PadToOutput(data)
        && submitted == old(submitted) + (if asyncResult == Success then [PadToOutput(data)] else [])
      ensures !(hasOutputPipe && hasOutputBuffer && |data| <= OutputReportSize && mapResult == Success) ==>
        outputMemory[..] == old(outputMemory[..]) && submitted == old(submitted)
    {
      if !hasOutputPipe || !hasOutputBuffer {
        return NotFound;
      }
      if |data| > OutputReportSize {
        return BadArgument;
      }
      if mapResult != Success {
        return mapResult;
      }
      // memcpy of the data, then memset of the rest.
      var i := 0;
      while i < |data|
        invariant 0 <= i <= |data|
        invariant outputMemory[..i] == data[..i]
        invariant submitted == old(submitted)
      {
        outputMemory[i] := data[i];
        i := i + 1;
      }
      while i < OutputReportSize
        invariant |data| <= i <= OutputReportSize
        invariant outputMemory[..|data|] == data
        invariant forall k :: |data| <= k < i ==> outputMemory[k] == 0
        invariant submitted == old(submitted)
      {
        outputMemory[i] := 0;
        i := i + 1;
      }
      assert outputMemory[..] == PadToOutput(data);
      if asyncResult != Success {
        return asyncResult;
      }
      submitted := submitted + [outputMemory[..]];
      return Success;
    }

    /**
     * `setReport`: only output reports are taken; a failing map is returned;
     * an LED or rumble request, chosen as `OutputPathFor` says, is sent with
     * `SendOutputReport` whatever its length; any other ID is unsupported.
     */
    method SetReport(
      present: bool, reportType: ReportType, options: nat, mapResult: IOReturn, data: seq<byte>,
      bufferMapResult: IOReturn, asyncResult: IOReturn)
      returns (r: IOReturn, path: Option<OutputPath>)
      requires Valid()
      modifies this`submitted, outputMemory
      ensures Valid()
      ensures !present ==> r == BadArgument && path.None?
      ensures present && reportType != OutputType ==> r == Unsupported && path.None?
      ensures present && reportType == OutputType && mapResult != Success ==> r == mapResult && path.None?
      ensures present && reportType == OutputType && mapResult == Success ==>
        path == OutputPathFor(options, data) && (path.None? ==> r == Unsupported)
      ensures path.Some? && hasOutputPipe && hasOutputBuffer && |data| <= OutputReportSize && bufferMapResult == Success ==>
        r == asyncResult && submitted == old(submitted) + (if asyncResult == Success then [PadToOutput(data)] else [])
      ensures path.Some? && !(hasOutputPipe && hasOutputBuffer) ==> r == NotFound
      ensures path.Some? && hasOutputPipe && hasOutputBuffer && |data| > OutputReportSize ==> r == BadArgument
      ensures path.None? ==> submitted == old(submitted) && outputMemory[..] == old(outputMemory[..])
    {
      if !present {
        return BadArgument, None;
      }
      if reportType != OutputType {
        return Unsupported, None;
      }
      var reportId := options % 0x100;
      if mapResult != Success {
        return mapResult, None;
      }
      if reportId == ReportIdLed || (|data| > 0 && data[0] == ReportIdLed) {
        r := SendOutputReport(data, bufferMapResult, asyncResult);
        return r, Some(LedPath);
      }
      if reportId == ReportIdRumble || (|data| > 0 && data[0] == ReportIdRumble) {
        r := SendOutputReport(data, bufferMapResult, asyncResult);
        return r, Some(RumblePath);
      }
      return Unsupported, None;
    }

    /**
     * `getReport`: an input request for report 1 is not ready until a report has
     * been cached; then a failing map is returned and otherwise the buffer
     * receives the first min(buffer length, 64) bytes of the cached report. Any
     * other request is unsupported. Nothing changes.
     */
    method GetReport(present: bool, reportType: ReportType, options: nat, mapResult: IOReturn, mappedLength: nat)
      returns (r: IOReturn, copied: Option<seq<byte>>)
      ensures !present ==> r == BadArgument
      ensures present && !(reportType == InputType && RequestedReportId(options) == ReportIdInput) ==> r == Unsupported
      ensures present && reportType == InputType && RequestedReportId(options) == ReportIdInput ==>
        (!hasLastReport ==> r == NotReady) && (hasLastReport && mapResult != Success ==> r == mapResult)
      ensures (r == Success) <==>
        (present && reportType == InputType && RequestedReportId(options) == ReportIdInput && hasLastReport
         && mapResult == Success)
      ensures copied ==
        if r == Success then Some(InputReportBytes(lastReport)[..if mappedLength < InputReportSize then mappedLength else InputReportSize])
        else None
    {
      if !present {
        return BadArgument, None;
      }
      var reportId := options % 0x100;
      if reportType == InputType && reportId == ReportIdInput {
        if !hasLastReport {
          return NotReady, None;
        }
        if mapResult != Success {
          return mapResult, None;
        }
        var copyLength := if mappedLength < InputReportSize then mappedLength else InputReportSize;
        return Success, Some(InputReportBytes(lastReport)[..copyLength]);
      }
      return Unsupported, None;
    }

    /**
     * `getHIDDescriptor`: hands out the descriptor `Start` created, so it is
     * available exactly between a successful `Start` and `Stop`. Nothing changes.
     */
    method GetHidDescriptor(present: bool) returns (r: IOReturn)
      ensures (r == Success) <==> present && hasHidDescriptor
      ensures !present ==> r == BadArgument
      ensures present && !hasHidDescriptor ==> r == NotReady
    {
      if !present {
        return BadArgument;
      }
      if !hasHidDescriptor {
        return NotReady;
      }
      return Success;
    }
  }

  /** A buffer of at least 64 bytes receives the whole cached report, which reads back
    * as that report. */
  lemma FullCopyReadsBack(r: InputReport, mappedLength: nat)
    requires mappedLength >= InputReportSize
    ensures var copyLength := if mappedLength < InputReportSize then mappedLength else InputReportSize;
      InputReportOf(InputReportBytes(r)[..copyLength]) == r
  {
    InputReportRoundTrip(r);
    assert InputReportBytes(r)[..InputReportSize] == InputReportBytes(r);
  }

  /** The descriptor is available after a successful `Start` and gone after `Stop`. */
  method DescriptorLifetime(d: BigbenUsbDriver, outputEndpoint: bool, firstRead: IOReturn)
    returns (during: IOReturn, after: IOReturn)
    requires d.Valid()
    modifies d
    ensures during == Success && after == NotReady
  {
    var _ := d.Start(Success, Success, outputEndpoint, firstRead);
    during := d.GetHidDescriptor(true);
    var _ := d.Stop(Success);
    after := d.GetHidDescriptor(true);
  }
}
