/** The command-line check of server 0.0.53, `validate_args`: the first
    rule a configuration breaks, in the order the server tests them. */
module SoeServerArgs {
  import opened Text
  import opened Protocol

  /** The options `validate_args` reads, after the configuration file and
      the defaults have been merged in. `port` is `None` when no port was
      given; `addressOk` is what `inet_aton` says of `address` (the socket
      library is not part of this model); `showTransfer` is "" when the
      option is absent. */
  datatype ServerArgs = ServerArgs(
    port: Option<int>, address: string, addressOk: bool,
    comport: Option<string>, namedpipe: Option<string>, onWin32: bool,
    baud: int, line: string, keepalive: int, secauto: bool, sec: string,
    logmax: int, logsizemax: int, logdatamax: int, logdatasizemax: int,
    logbufferlines: int, transferbufferlines: int, showTransfer: string,
    color: bool, mono: bool)

  datatype ArgError =
    | PortMissing | PortRange | BadAddress
    | BothSerialSides | NoSerialSide | PipeNeedsWindows
    | BadBaud | BadLineLength | BadDataBits | BadParity | BadStopBits | BadFlow
    | BadKeepalive | BothSsl
    | BadLogMax | BadLogSizeMax | BadLogDataMax | BadLogDataSizeMax
    | BadLogBufferLines | BadTransferBufferLines
    | BadShowFormat | BadShowDirection
    | ColorAndMono

  const ValidBauds: seq<int> := [300, 600, 1200, 2400, 4800, 9600, 14400, 19200, 38400,
                                 57600, 115200, 230400, 460800, 921600]

  /** The first rule of the line format that `line` breaks: four
      characters, data bits 5-8, parity N/O/E/M/S, stop bits 1/2, flow
      N/X/H/R. */
  function LineError(line: string): (r: Option<ArgError>)
    ensures r.None? ==> |line| == 4
  {
    if |line| != 4 then Some(BadLineLength)
    else if line[0] !in "5678" then Some(BadDataBits)
    else if line[1] !in "NOEMS" then Some(BadParity)
    else if line[2] !in "12" then Some(BadStopBits)
    else if line[3] !in "NXHR" then Some(BadFlow)
    else None
  }

  /** The rule of the transfer window option: a known format and, when one
      is given, a known direction. */
  function ShowTransferError(val: string): Option<ArgError> {
    var modes := ShowTransferModes(val);
    if val == [] then None
    else if modes.0 !in {"ascii", "hex"} then Some(BadShowFormat)
    else if modes.1 !in {"in", "out", "all"} then Some(BadShowDirection)
    else None
  }

  /** The first check that fails, in the order `validate_args` makes them. */
  function ValidateArgs(a: ServerArgs): Option<ArgError> {
    if a.port.None? then Some(PortMissing)
    else if a.port.value <= 0 || a.port.value > 65535 then Some(PortRange)
    else if a.address != "" && !a.addressOk then Some(BadAddress)
    else if a.comport.Some? && a.namedpipe.Some? then Some(BothSerialSides)
    else if a.comport.None? && a.namedpipe.None? then Some(NoSerialSide)
    else if a.namedpipe.Some? && !a.onWin32 then Some(PipeNeedsWindows)
    else if a.baud !in ValidBauds then Some(BadBaud)
    else if LineError(a.line).Some? then LineError(a.line)
    else if a.keepalive < 0 then Some(BadKeepalive)
    else if a.secauto && a.sec != "" then Some(BothSsl)
    else if a.logmax < 1 then Some(BadLogMax)
    else if a.logsizemax < 1 then Some(BadLogSizeMax)
    else if a.logdatamax < 1 then Some(BadLogDataMax)
    else if a.logdatasizemax < 1 then Some(BadLogDataSizeMax)
    else if a.logbufferlines < 10 then Some(BadLogBufferLines)
    else if a.transferbufferlines < 10 then Some(BadTransferBufferLines)
    else if ShowTransferError(a.showTransfer).Some? then ShowTransferError(a.showTransfer)
    else if a.color && a.mono then Some(ColorAndMono)
    else None
  }

  /** A serial line setting the server accepts. */
  predicate LineOk(line: string) {
    |line| == 4 && line[0] in "5678" && line[1] in "NOEMS" && line[2] in "12" && line[3] in "NXHR"
  }

  /** What a usable configuration is, as one statement: a port in range, a
      well-formed address if any, exactly one serial side (a named pipe
      only on Windows), a standard baud rate and line setting, a
      non-negative keepalive, one way of securing the link, positive log
      limits, scroll-back of at least ten lines, a known transfer window
      mode and one colour scheme. */
  predicate Acceptable(a: ServerArgs) {
    a.port.Some? && 1 <= a.port.value <= 65535
    && (a.address != "" ==> a.addressOk)
    && (a.comport.Some? != a.namedpipe.Some?)
    && (a.namedpipe.Some? ==> a.onWin32)
    && a.baud in ValidBauds && LineOk(a.line)
    && a.keepalive >= 0 && !(a.secauto && a.sec != "")
    && a.logmax >= 1 && a.logsizemax >= 1 && a.logdatamax >= 1 && a.logdatasizemax >= 1
    && a.logbufferlines >= 10 && a.transferbufferlines >= 10
    && (a.showTransfer != [] ==>
          ShowTransferModes(a.showTransfer).0 in {"ascii", "hex"}
          && ShowTransferModes(a.showTransfer).1 in {"in", "out", "all"})
    && !(a.color && a.mono)
  }

  lemma LineErrorOk(line: string)
    ensures LineError(line).None? <==> LineOk(line)
  {
  }

  lemma {:induction false} ValidateArgsAccepts(a: ServerArgs)
    ensures ValidateArgs(a).None? <==> Acceptable(a)
  {
    LineErrorOk(a.line);
  }

  /** The error names the first rule broken: a configuration that keeps
      every rule before the line format but has a line of the wrong length
      is reported for its line, whatever else is wrong after it. */
  lemma LineReportedFirst(a: ServerArgs)
    requires a.port.Some? && 1 <= a.port.value <= 65535
    requires (a.address != "" ==> a.addressOk) && (a.comport.Some? != a.namedpipe.Some?)
    requires (a.namedpipe.Some? ==> a.onWin32) && a.baud in ValidBauds
    requires |a.line| != 4
    ensures ValidateArgs(a) == Some(BadLineLength)
  {
  }

  /** A form "<format>,<direction>" is accepted exactly when both parts are
      known, whatever their case. */
  lemma ShowTransferForm(f: string, d: string)
    requires forall i :: 0 <= i < |f| ==> f[i] != ','
    requires forall i :: 0 <= i < |d| ==> d[i] != ','
    ensures ShowTransferError(f + "," + d).None?
            <==> Lower(f) in {"ascii", "hex"} && Lower(d) in {"in", "out", "all"}
  {
    ShowTransferModesOf(f, d);
    assert f + "," + d != [] by {
      assert |f + "," + d| == |f| + 1 + |d|;
    }
  }
}
