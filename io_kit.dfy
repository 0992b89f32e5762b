// The parts of DriverKit's interface the two driver classes use: the status
// codes their methods return and the three HID report types.

module IoKit {
  /** `kern_return_t` / `IOReturn`: the named statuses the drivers return or pass on,
    * and any other code a framework call may report. */
  datatype IOReturn =
    | Success
    | Invalid
    | BadArgument
    | Unsupported
    | NoSpace
    | Underrun
    | NotReady
    | NotFound
    | Aborted
    | NotResponding
    | Error(code: int)

  /** `IOHIDReportType`. */
  datatype ReportType = InputType | OutputType | FeatureType

  /** `IOOptionBits`: the report ID a get or set request names is its low byte. */
  function RequestedReportId(options: nat): (id: nat)
    ensures id < 0x100 && (options < 0x100 ==> id == options)
  {
    options % 0x100
  }
}
