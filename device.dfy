/** The simpler Cisco-like device simulator of serial_device_0.0.1.py: a
    single `enable_mode` flag instead of a mode machine, a command history
    capped at 100 entries, first-prefix dispatch over its own command table,
    and the loop that cuts the bytes arriving on the serial line into
    command lines at CR or LF. */
module SerialDevice {
  import opened Text
  import opened Console

  // ---------------------------------------------------------------------
  // Command table
  // ---------------------------------------------------------------------

  datatype Handler =
    | Exit | Enable | Disable | Configure | ExitConfig | Hostname
    | ShowVersion | ShowClock | ClearHistory | History | Help

  /** `builtin_commands`, in its dictionary order. */
  const Builtins: seq<(string, Handler)> := [
    ("exit", Exit), ("quit", Exit), ("enable", Enable), ("disable", Disable),
    ("configure terminal", Configure), ("config t", Configure),
    ("exit-config", ExitConfig), ("end", ExitConfig), ("hostname", Hostname),
    ("show version", ShowVersion), ("show clock", ShowClock),
    ("clear history", ClearHistory), ("history", History),
    ("?", Help), ("help", Help), ("h", Help)]

  /** Every command starting with `exit` is taken by the first entry, so
      `exit-config` never reaches its own handler: it stops the device. */
  lemma ExitConfigShadowed(cmd: string, custom: seq<(string, string)>, platform: seq<(string, string)>)
    requires StartsWith(cmd, "exit")
    ensures RouteCommand(Builtins, cmd, custom, platform) == Builtin(Exit, Strip(cmd[4..]))
  {
    assert Builtins[0].0 == "exit";
  }

  /** `?`, `help` and `h` all reach the help text, with no arguments. */
  lemma HelpAliases(custom: seq<(string, string)>, platform: seq<(string, string)>)
    ensures RouteCommand(Builtins, "?", custom, platform) == Builtin(Help, "")
    ensures RouteCommand(Builtins, "help", custom, platform) == Builtin(Help, "")
    ensures RouteCommand(Builtins, "h", custom, platform) == Builtin(Help, "")
  {
    QuestionMarkIsHelp(custom, platform);
    HelpIsHelp(custom, platform);
    HIsHelp(custom, platform);
  }

  lemma QuestionMarkIsHelp(custom: seq<(string, string)>, platform: seq<(string, string)>)
    ensures RouteCommand(Builtins, "?", custom, platform) == Builtin(Help, "")
  {
    NamesBeforeHelp();
    HelpAlias("?", 13, '?', 1, custom, platform);
  }

  lemma HelpIsHelp(custom: seq<(string, string)>, platform: seq<(string, string)>)
    ensures RouteCommand(Builtins, "help", custom, platform) == Builtin(Help, "")
  {
    NamesBeforeHelp();
    HelpAlias("help", 14, 'h', 4, custom, platform);
  }

  lemma HIsHelp(custom: seq<(string, string)>, platform: seq<(string, string)>)
    ensures RouteCommand(Builtins, "h", custom, platform) == Builtin(Help, "")
  {
    NamesBeforeHelp();
    HelpAlias("h", 15, 'h', 1, custom, platform);
  }

  /** Why no earlier entry takes an alias: every earlier name is non-empty
      and either starts with another character or is longer than the alias. */
  lemma NamesBeforeHelp()
    ensures forall j :: 0 <= j < 13 ==> Builtins[j].0 != [] && (Builtins[j].0[0] != '?' || |Builtins[j].0| > 1)
    ensures forall j :: 0 <= j < 14 ==> Builtins[j].0 != [] && (Builtins[j].0[0] != 'h' || |Builtins[j].0| > 4)
    ensures forall j :: 0 <= j < 15 ==> Builtins[j].0 != [] && (Builtins[j].0[0] != 'h' || |Builtins[j].0| > 1)
  {
    forall j | 0 <= j < 15
      ensures && Builtins[j].0 != []
              && (j < 13 ==> Builtins[j].0[0] != '?' || |Builtins[j].0| > 1)
              && (j < 14 ==> Builtins[j].0[0] != 'h' || |Builtins[j].0| > 4)
              && (Builtins[j].0[0] != 'h' || |Builtins[j].0| > 1)
    {
      var n := Builtins[j].0;
      if j == 0 { assert n == "exit"; }
      else if j == 1 { assert n == "quit"; }
      else if j == 2 { assert n == "enable"; }
      else if j == 3 { assert n == "disable"; }
      else if j == 4 { assert n == "configure terminal"; }
      else if j == 5 { assert n == "config t"; }
      else if j == 6 { assert n == "exit-config"; }
      else if j == 7 { assert n == "end"; }
      else if j == 8 { assert n == "hostname"; }
      else if j == 9 { assert n == "show version"; }
      else if j == 10 { assert n == "show clock"; }
      else if j == 11 { assert n == "clear history"; }
      else if j == 12 { assert n == "history"; }
      else if j == 13 { assert n == "?"; }
      else { assert n == "help"; }
    }
  }

  lemma HelpAlias(a: string, k: nat, c: char, len: nat, custom: seq<(string, string)>, platform: seq<(string, string)>)
    requires k < |Builtins| && Builtins[k] == (a, Help) && |a| == len && len > 0 && a[0] == c
    requires forall j :: 0 <= j < k ==> Builtins[j].0 != [] && (Builtins[j].0[0] != c || |Builtins[j].0| > len)
    ensures RouteCommand(Builtins, a, custom, platform) == Builtin(Help, "")
  {
    var f := FirstPrefix(Builtins, a);
    assert f == Some(k) by {
      if f.None? || f.value != k {
        assert StartsWith(a, Builtins[k].0);
        assert false;
      }
    }
    assert a[|a|..] == "";
  }

  /** The one-letter alias catches every command that starts with `h`:
      none of them reaches a custom or platform command. */
  lemma EveryHIsBuiltin(cmd: string, custom: seq<(string, string)>, platform: seq<(string, string)>)
    requires cmd != [] && cmd[0] == 'h'
    ensures RouteCommand(Builtins, cmd, custom, platform).Builtin?
  {
    RouteSpec(Builtins, cmd, custom, platform);
    assert StartsWith(cmd, Builtins[15].0);
  }

  // ---------------------------------------------------------------------
  // The command interpreter as a state transformer
  // ---------------------------------------------------------------------

  /** Start-up options the interpreter consults: `--enable-history`, the
      custom-command file's entries, the platform table and the help text. */
  datatype Settings = Settings(historyEnabled: bool, custom: seq<(string, string)>,
                               platform: seq<(string, string)>, help: string)

  /** The fields of the device that commands change. `history` stands for
      `command_history`, which is `None` (modelled as empty) when history is
      disabled. */
  datatype Dev = Dev(enableMode: bool, hostname: string, history: seq<string>, keepRunning: bool)

  predicate HistoryOk(d: Dev, historyEnabled: bool) {
    |d.history| <= 100 && (!historyEnabled ==> d.history == [])
  }

  /** `_get_prompt` */
  function DevicePrompt(d: Dev): string {
    Prompt(d.hostname, if d.enableMode then PrivilegedExec else UserExec)
  }

  /** The `_cmd_*` handlers: the new state, what the handler writes to the
      line itself, and the text it returns. No handler sets `enable_mode`;
      `disable` clears it. */
  function Apply(h: Handler, args: string, d: Dev, cfg: Settings, host: Host): (r: (Dev, seq<string>, string))
    ensures r.0.enableMode ==> d.enableMode
    ensures h == Disable ==> !r.0.enableMode
    ensures r.0.hostname != d.hostname ==> h == Hostname && r.0.hostname == Strip(args)
    ensures r.0.history != d.history ==> h == ClearHistory && r.0.history == []
    ensures r.0.keepRunning != d.keepRunning ==> h == Exit && !r.0.keepRunning
    ensures r.1 != [] ==> h == Exit || h == Enable
  {
    match h
    case Exit => (d.(keepRunning := false), ["Device disconnecting...\n"], "")
    case Enable => (d, ["Password: "], "Entered enable mode\n")
    case Disable => (d.(enableMode := false), [], "Exited enable mode\n")
    case Configure => (d, [], "Entering configuration mode\n")
    case ExitConfig => (d, [], "Exited configuration mode\n")
    case Hostname =>
      if Strip(args) != [] then (d.(hostname := Strip(args)), [], "Hostname set to " + Strip(args) + "\n")
      else (d, [], "Current hostname: " + d.hostname + "\n")
    case ShowVersion => (d, [], host.versionText)
    case ShowClock => (d, [], host.clockText)
    case ClearHistory =>
      if cfg.historyEnabled then (d.(history := []), [], "History cleared\n")
      else (d, [], "History disabled\n")
    case History => (d, [], HistoryText(d.history))
    case Help => (d, [], cfg.help)
  }

  /** A non-blank command is recorded at the newest end of the history when
      history is on; beyond 100 entries the oldest is dropped. */
  function Record(cfg: Settings, d: Dev, cmd: string): (r: Dev)
    ensures r == d.(history := r.history)
    ensures |d.history| <= 100 ==> |r.history| <= 100
    ensures cfg.historyEnabled ==> r.history != [] && r.history[|r.history| - 1] == cmd
    ensures !cfg.historyEnabled ==> r.history == d.history
  {
    if cfg.historyEnabled then d.(history := PushBounded(d.history, cmd, 100)) else d
  }

  /** `process_command`: new state, text written by the handler, text returned. */
  function Process(cfg: Settings, d: Dev, line: string, host: Host): (r: (Dev, seq<string>, string))
    ensures HistoryOk(d, cfg.historyEnabled) ==> HistoryOk(r.0, cfg.historyEnabled)
    ensures r.0.enableMode ==> d.enableMode
    ensures Strip(Lower(line)) == [] ==> r == (d, [], "")
  {
    var cmd := Strip(Lower(line));
    if cmd == [] then (d, [], "") else Dispatch(cfg, Record(cfg, d, cmd), cmd, host)
  }

  /** The dispatch part of `process_command`, on the state in which the
      command is already recorded. */
  function Dispatch(cfg: Settings, d: Dev, cmd: string, host: Host): (r: (Dev, seq<string>, string))
    ensures HistoryOk(d, cfg.historyEnabled) ==> HistoryOk(r.0, cfg.historyEnabled)
    ensures r.0.enableMode ==> d.enableMode
  {
    match RouteCommand(Builtins, cmd, cfg.custom, cfg.platform)
    case Builtin(h, args) => Apply(h, args, d, cfg, host)
    case Custom(sh) => (d, [], host.exec(sh))
    case Platform(sh) => (d, [], host.exec(sh))
    case Unknown => (d, [], "Unknown command: " + cmd + "\n")
  }

  lemma DispatchBuiltin(cfg: Settings, d: Dev, cmd: string, host: Host, i: nat)
    requires FirstPrefix(Builtins, cmd) == Some(i)
    ensures Dispatch(cfg, d, cmd, host) == Apply(Builtins[i].1, Strip(cmd[|Builtins[i].0|..]), d, cfg, host)
  {
  }

  lemma DispatchOther(cfg: Settings, d: Dev, cmd: string, host: Host)
    requires FirstPrefix(Builtins, cmd) == None
    ensures var custom := FirstExact(cfg.custom, cmd);
      var platform := FirstExact(cfg.platform, cmd);
      Dispatch(cfg, d, cmd, host)
        == (d, [], if custom.Some? then host.exec(custom.value)
                   else if platform.Some? then host.exec(platform.value)
                   else "Unknown command: " + cmd + "\n")
  {
  }

  /** What a non-blank command does to the history: it is recorded at the
      newest end (see `PushBounded`) when history is on, and only `clear
      history` changes it further. */
  lemma ProcessHistory(cfg: Settings, d: Dev, line: string, host: Host)
    requires Strip(Lower(line)) != []
    ensures var cmd := Strip(Lower(line));
      var route := RouteCommand(Builtins, cmd, cfg.custom, cfg.platform);
      !(route.Builtin? && route.handler == ClearHistory) ==>
        Process(cfg, d, line, host).0.history
          == if cfg.historyEnabled then PushBounded(d.history, cmd, 100) else d.history
  {
    var cmd := Strip(Lower(line));
    var d1 := Record(cfg, d, cmd);
    assert d1.history == if cfg.historyEnabled then PushBounded(d.history, cmd, 100) else d.history;
    var route := RouteCommand(Builtins, cmd, cfg.custom, cfg.platform);
    if route.Builtin? {
      assert Dispatch(cfg, d1, cmd, host) == Apply(route.handler, route.args, d1, cfg, host);
    }
  }

  /** `enable_mode` starts false and no command sets it, so every prompt
      the device prints ends in `> `. */
  lemma PromptNeverPrivileged(cfg: Settings, d: Dev, line: string, host: Host)
    requires !d.enableMode
    ensures var d1 := Process(cfg, d, line, host).0;
      !d1.enableMode && DevicePrompt(d1) == d1.hostname + "> "
  {
  }

  // ---------------------------------------------------------------------
  // Cutting the received text into command lines
  // ---------------------------------------------------------------------

  predicate IsLineEnd(c: char) {
    c == '\r' || c == '\n'
  }

  predicate NoLineEnd(s: string) {
    forall i :: 0 <= i < |s| ==> !IsLineEnd(s[i])
  }

  lemma OccursChar(s: string, c: char, j: int)
    requires 0 <= j < |s|
    ensures OccursAt(s, [c], j) <==> s[j] == c
  {
    assert s[j..j + 1] == [s[j]];
  }

  /** The smaller of `find('\n')` and `find('\r')` among those found: the
      first CR or LF, or -1 when there is none. */
  function FirstLineEnd(s: string): (r: int)
    ensures -1 <= r < |s|
    ensures r >= 0 ==> IsLineEnd(s[r])
    ensures forall j :: 0 <= j < |s| && (r < 0 || j < r) ==> !IsLineEnd(s[j])
  {
    var n := Find(s, "\n");
    var c := Find(s, "\r");
    forall j | 0 <= j < |s|
      ensures OccursAt(s, "\n", j) <==> s[j] == '\n'
      ensures OccursAt(s, "\r", j) <==> s[j] == '\r'
    {
      OccursChar(s, '\n', j);
      OccursChar(s, '\r', j);
    }
    if n >= 0 && c >= 0 then (if n < c then n else c)
    else if n >= 0 then n
    else if c >= 0 then c
    else -1
  }

  /** The loop test `'\n' in s or '\r' in s` holds exactly when there is a
      first line end. */
  lemma LineEndFound(s: string)
    ensures FirstLineEnd(s) >= 0 <==> Find(s, "\n") >= 0 || Find(s, "\r") >= 0
  {
    var n := Find(s, "\n");
    var c := Find(s, "\r");
    assert n >= 0 ==> s[n] == '\n' by {
      if n >= 0 {
        OccursChar(s, '\n', n);
      }
    }
    assert c >= 0 ==> s[c] == '\r' by {
      if c >= 0 {
        OccursChar(s, '\r', c);
      }
    }
  }

  /** `s.lstrip('\r\n')` */
  function LStripLineEnds(s: string): (r: string)
    ensures |r| <= |s| && r == s[|s| - |r|..]
    ensures r == [] || !IsLineEnd(r[0])
    ensures forall i :: 0 <= i < |s| - |r| ==> IsLineEnd(s[i])
  {
    if s != [] && IsLineEnd(s[0]) then LStripLineEnds(s[1..]) else s
  }

  /** The splitting loop of `run_serial` on its own: the command lines it
      extracts, in order, and what stays in `input_buffer`. Each command is
      the text before the first CR or LF, stripped; the line end and every
      CR or LF right after it are dropped. What stays holds no CR or LF. */
  function SplitLines(buf: string): (r: (seq<string>, string))
    ensures NoLineEnd(r.1)
    decreases |buf|
  {
    var i := FirstLineEnd(buf);
    if i < 0 then ([], buf)
    else
      var rest := LStripLineEnds(buf[i + 1..]);
      var sub := SplitLines(rest);
      ([Strip(buf[..i])] + sub.0, sub.1)
  }

  /** No command taken from the buffer holds a CR or LF. */
  lemma {:induction false} SplitLinesClean(buf: string)
    ensures forall k :: 0 <= k < |SplitLines(buf).0| ==> NoLineEnd(SplitLines(buf).0[k])
    decreases |buf|
  {
    if FirstLineEnd(buf) >= 0 {
      var next := NextLine(buf);
      NextLineClean(buf);
      SplitLinesClean(next.1);
      var lines := SplitLines(buf).0;
      var later := SplitLines(next.1).0;
      assert lines == [next.0] + later;
      forall k | 0 <= k < |lines|
        ensures NoLineEnd(lines[k])
      {
        if k > 0 {
          assert lines[k] == later[k - 1];
        }
      }
    }
  }

  lemma NextLineClean(buf: string)
    requires FirstLineEnd(buf) >= 0
    ensures NoLineEnd(NextLine(buf).0)
  {
    StripKeepsNoLineEnd(buf[..FirstLineEnd(buf)]);
  }

  lemma StripKeepsNoLineEnd(s: string)
    requires NoLineEnd(s)
    ensures NoLineEnd(Strip(s))
  {
    var a := StripSpec(s);
    forall k | 0 <= k < |Strip(s)| ensures !IsLineEnd(Strip(s)[k]) {
      assert Strip(s)[k] == s[a + k];
    }
  }

  /** One turn of the splitting loop. */
  lemma SplitStep(buf: string)
    requires FirstLineEnd(buf) >= 0
    ensures var i := FirstLineEnd(buf);
      var rest := LStripLineEnds(buf[i + 1..]);
      SplitLines(buf) == ([Strip(buf[..i])] + SplitLines(rest).0, SplitLines(rest).1)
  {
  }

  /** One turn of the splitting loop: the first command line and the
      buffer that is left, which is shorter and splits into the remaining
      lines. */
  function NextLine(buf: string): (r: (string, string))
    requires FirstLineEnd(buf) >= 0
    ensures |r.1| < |buf|
    ensures SplitLines(buf) == ([r.0] + SplitLines(r.1).0, SplitLines(r.1).1)
  {
    var i := FirstLineEnd(buf);
    SplitStep(buf);
    (Strip(buf[..i]), LStripLineEnds(buf[i + 1..]))
  }

  /** Lines joined with one terminator each: `l0 + t + l1 + t + ...`. */
  function Terminate(ls: seq<string>, t: string): string {
    if ls == [] then [] else ls[0] + t + Terminate(ls[1..], t)
  }

  /** Every line stripped. */
  function StripEach(ls: seq<string>): seq<string> {
    if ls == [] then [] else [Strip(ls[0])] + StripEach(ls[1..])
  }

  /** Splitting gives back the lines that were sent, whatever run of CR and
      LF ends each of them (`\r`, `\n`, `\r\n`, or several, which is how
      blank lines in the middle of a chunk vanish), as long as no line is
      empty; a last line without terminator stays in the buffer. */
  lemma {:induction false} SplitTerminated(ls: seq<string>, t: string, tail: string)
    requires forall k :: 0 <= k < |ls| ==> ls[k] != [] && NoLineEnd(ls[k])
    requires t != [] && forall i :: 0 <= i < |t| ==> IsLineEnd(t[i])
    requires NoLineEnd(tail)
    ensures SplitLines(Terminate(ls, t) + tail) == (StripEach(ls), tail)
    decreases |ls|
  {
    if ls != [] {
      var more := Terminate(ls[1..], t) + tail;
      TerminateFirst(ls, t, tail);
      SplitOneLine(ls[0], t, more);
      SplitTerminated(ls[1..], t, tail);
    } else {
      assert Terminate(ls, t) + tail == tail;
    }
  }

  /** The first line, its terminator, and the rest, which starts with no
      line end. */
  lemma TerminateFirst(ls: seq<string>, t: string, tail: string)
    requires ls != [] && forall k :: 0 <= k < |ls| ==> ls[k] != []
    requires NoLineEnd(tail)
    requires forall k :: 0 <= k < |ls| ==> !IsLineEnd(ls[k][0])
    ensures Terminate(ls, t) + tail == ls[0] + (t + (Terminate(ls[1..], t) + tail))
    ensures var more := Terminate(ls[1..], t) + tail; more == [] || !IsLineEnd(more[0])
  {
    var more := Terminate(ls[1..], t) + tail;
    if ls[1..] != [] {
      assert more[0] == ls[1][0];
    }
  }

  /** A non-empty line, a run of line ends and whatever follows: the line is
      the first command, and splitting goes on at what follows. */
  lemma SplitOneLine(l: string, t: string, more: string)
    requires l != [] && NoLineEnd(l)
    requires t != [] && forall i :: 0 <= i < |t| ==> IsLineEnd(t[i])
    requires more == [] || !IsLineEnd(more[0])
    ensures SplitLines(l + (t + more)) == ([Strip(l)] + SplitLines(more).0, SplitLines(more).1)
  {
    var buf := l + (t + more);
    FirstLineEndAt(buf, l);
    assert buf[..|l|] == l;
    assert buf[|l| + 1..] == t[1..] + more;
    LStripTerminator(t[1..], more);
    SplitStep(buf);
  }

  lemma FirstLineEndAt(buf: string, l: string)
    requires NoLineEnd(l) && |l| < |buf| && IsLineEnd(buf[|l|])
    requires forall j :: 0 <= j < |l| ==> buf[j] == l[j]
    ensures FirstLineEnd(buf) == |l|
  {
  }

  lemma {:induction false} LStripTerminator(u: string, more: string)
    requires forall i :: 0 <= i < |u| ==> IsLineEnd(u[i])
    requires more == [] || !IsLineEnd(more[0])
    ensures LStripLineEnds(u + more) == more
    decreases |u|
  {
    if u != [] {
      assert (u + more)[1..] == u[1..] + more;
      LStripTerminator(u[1..], more);
    } else {
      assert u + more == more;
    }
  }

  /** Command output that does not end in a line terminator gets CR LF. */
  function Terminated(out: string): (r: string)
    requires out != []
    ensures r == out || r == out + "\r\n"
    ensures IsLineEnd(r[|r| - 1])
    ensures IsLineEnd(out[|out| - 1]) ==> r == out
  {
    if IsLineEnd(out[|out| - 1]) then out else out + "\r\n"
  }

  /** One command line taken from the buffer: a non-blank one is echoed
      with CR LF, run, and its output written; the prompt follows in every
      case, a blank line included. */
  function Handle(cfg: Settings, d: Dev, cmdLine: string, host: Host): (r: (Dev, seq<string>))
    ensures r.1 != [] && r.1[|r.1| - 1] == DevicePrompt(r.0)
    ensures cmdLine == [] ==> r == (d, [DevicePrompt(d)])
    ensures cmdLine != [] ==> r.1[0] == cmdLine + "\r\n"
    ensures HistoryOk(d, cfg.historyEnabled) ==> HistoryOk(r.0, cfg.historyEnabled)
    ensures r.0.enableMode ==> d.enableMode
  {
    if cmdLine == [] then (d, [DevicePrompt(d)])
    else
      var (d1, side, out) := Process(cfg, d, cmdLine, host);
      (d1, [cmdLine + "\r\n"] + side + (if out != [] then [Terminated(out)] else []) + [DevicePrompt(d1)])
  }

  /** The command lines handled one after the other: final state and
      everything written. Every line ends with a prompt, so there are at
      least as many writes as lines. */
  function HandleAll(cfg: Settings, d: Dev, lines: seq<string>, host: Host): (r: (Dev, seq<string>))
    ensures |r.1| >= |lines|
    ensures lines != [] ==> r.1[|r.1| - 1] == DevicePrompt(r.0)
    ensures HistoryOk(d, cfg.historyEnabled) ==> HistoryOk(r.0, cfg.historyEnabled)
    ensures r.0.enableMode ==> d.enableMode
    decreases |lines|
  {
    if lines == [] then (d, [])
    else
      var (d1, s1) := HandleAll(cfg, d, lines[..|lines| - 1], host);
      var (d2, s2) := Handle(cfg, d1, lines[|lines| - 1], host);
      (d2, s1 + s2)
  }

  lemma HandleAllStep(cfg: Settings, d: Dev, done: seq<string>, line: string, host: Host)
    ensures var (d1, s1) := HandleAll(cfg, d, done, host);
      var (d2, s2) := Handle(cfg, d1, line, host);
      HandleAll(cfg, d, done + [line], host) == (d2, s1 + s2)
  {
    assert (done + [line])[..|done|] == done;
  }

  /** The output block of the loop: non-empty output is written, with CR LF
      added when it does not already end a line. */
  method OutputChunk(output: string) returns (written: seq<string>)
    ensures written == if output != [] then [Terminated(output)] else []
  {
    written := [];
    if output != [] {
      var text := output;
      if !IsLineEnd(text[|text| - 1]) {
        text := text + "\r\n";
      }
      written := [text];
    }
  }

  lemma ConcatAssoc(a: seq<string>, x: string, b: seq<string>)
    ensures a + ([x] + b) == (a + [x]) + b
  {
  }

  // ---------------------------------------------------------------------
  // The device
  // ---------------------------------------------------------------------

  const HelpText: string :=
    "\nAvailable Commands:\n\nSystem:\n"
    + "  show version              - Display device version\n"
    + "  show clock                - Display system time\n"
    + "  show system               - Display system information\n"
    + "  show memory               - Display memory usage\n"
    + "  show processes            - Display running processes\n\nNetwork:\n"
    + "  show interfaces           - Display network interfaces\n"
    + "  show ip                   - Display IP configuration\n"
    + "  show routes               - Display routing table\n"
    + "  show arp                  - Display ARP table\n\nDevice Management:\n"
    + "  configure terminal        - Enter configuration mode\n"
    + "  exit / quit               - Exit current mode\n"
    + "  enable / disable          - Enter / exit privileged mode\n"
    + "  hostname <name>           - Set device hostname\n\nHistory:\n"
    + "  history                   - Show command history\n"
    + "  clear history             - Clear command history\n\nHelp:\n"
    + "  help / ?                  - Display this help\n\nCustom Commands:\n"
    + "  (loaded from cmdfile if provided)\n\n"

  class Device {
    const settings: Settings
    var enableMode: bool
    var hostname: string
    var commandHistory: seq<string>
    var keepRunning: bool
    var inputBuffer: string

    function State(): Dev
      reads this
    {
      Dev(enableMode, hostname, commandHistory, keepRunning)
    }

    /** The history is bounded and `enable_mode` is never set. */
    predicate Valid()
      reads this
    {
      HistoryOk(State(), settings.historyEnabled) && !enableMode
    }

    constructor (hostname: string, historyEnabled: bool, custom: seq<(string, string)>,
                 platform: seq<(string, string)>)
      ensures Valid() && settings == Settings(historyEnabled, custom, platform, HelpText)
      ensures State() == Dev(false, hostname, [], true) && inputBuffer == ""
    {
      settings := Settings(historyEnabled, custom, platform, HelpText);
      enableMode := false;
      this.hostname := hostname;
      commandHistory := [];
      keepRunning := true;
      inputBuffer := "";
    }

    /** `_signal_handler`: Ctrl-C stops the main loop. */
    method Interrupt()
      modifies this
      ensures State() == old(State()).(keepRunning := false) && inputBuffer == old(inputBuffer)
    {
      keepRunning := false;
    }

    /** `_cmd_exit` */
    method CmdExit() returns (side: seq<string>, out: string)
      modifies this
      ensures State() == old(State()).(keepRunning := false) && inputBuffer == old(inputBuffer)
      ensures side == ["Device disconnecting...\n"] && out == ""
    {
      side := ["Device disconnecting...\n"];
      keepRunning := false;
      out := "";
    }

    /** `_cmd_disable` */
    method CmdDisable() returns (out: string)
      modifies this
      ensures State() == old(State()).(enableMode := false) && inputBuffer == old(inputBuffer)
      ensures out == "Exited enable mode\n"
    {
      enableMode := false;
      out := "Exited enable mode\n";
    }

    /** `_cmd_hostname` */
    method CmdHostname(args: string) returns (out: string)
      modifies this
      ensures Strip(args) != [] ==>
                && State() == old(State()).(hostname := Strip(args))
                && out == "Hostname set to " + Strip(args) + "\n"
      ensures Strip(args) == [] ==> State() == old(State()) && out == "Current hostname: " + hostname + "\n"
      ensures inputBuffer == old(inputBuffer)
    {
      if Strip(args) != [] {
        hostname := Strip(args);
        return "Hostname set to " + hostname + "\n";
      }
      out := "Current hostname: " + hostname + "\n";
    }

    /** `_cmd_clear_history` */
    method CmdClearHistory() returns (out: string)
      modifies this
      ensures settings.historyEnabled ==> State() == old(State()).(history := []) && out == "History cleared\n"
      ensures !settings.historyEnabled ==> State() == old(State()) && out == "History disabled\n"
      ensures inputBuffer == old(inputBuffer)
    {
      if settings.historyEnabled {
        commandHistory := [];
        return "History cleared\n";
      }
      out := "History disabled\n";
    }

    /** Calls the handler a builtin command reached. */
    method RunHandler(h: Handler, args: string, host: Host) returns (side: seq<string>, out: string)
      modifies this
      ensures (State(), side, out) == Apply(h, args, old(State()), settings, host)
      ensures inputBuffer == old(inputBuffer)
    {
      side := [];
      match h {
        case Exit => side, out := CmdExit();
        case Enable =>
          side := ["Password: "];
          out := "Entered enable mode\n";
        case Disable => out := CmdDisable();
        case Configure => out := "Entering configuration mode\n";
        case ExitConfig => out := "Exited configuration mode\n";
        case Hostname => out := CmdHostname(args);
        case ShowVersion => out := host.versionText;
        case ShowClock => out := host.clockText;
        case ClearHistory => out := CmdClearHistory();
        case History => out := FormatHistory(commandHistory);
        case Help => out := settings.help;
      }
    }

    /** `process_command` */
    method ProcessCommand(cmdLine: string, host: Host) returns (side: seq<string>, out: string)
      requires Valid()
      modifies this
      ensures Valid()
      ensures (State(), side, out) == Process(settings, old(State()), cmdLine, host)
      ensures inputBuffer == old(inputBuffer)
    {
      var cmd := Strip(Lower(cmdLine));
      if cmd == [] {
        return [], "";
      }
      if settings.historyEnabled {
        commandHistory := commandHistory + [cmd];
        if |commandHistory| > 100 {
          commandHistory := commandHistory[1..];
        }
      }
      assert State() == Record(settings, old(State()), cmd);
      side, out := RunCommand(cmd, host);
    }

    /** The dispatch of `process_command`. */
    method RunCommand(cmd: string, host: Host) returns (side: seq<string>, out: string)
      modifies this
      ensures (State(), side, out) == Dispatch(settings, old(State()), cmd, host)
      ensures inputBuffer == old(inputBuffer)
    {
      var found := FindPrefix(Builtins, cmd);
      if found.Some? {
        var (name, handler) := Builtins[found.value];
        DispatchBuiltin(settings, State(), cmd, host, found.value);
        side, out := RunHandler(handler, Strip(cmd[|name|..]), host);
        return;
      }
      DispatchOther(settings, State(), cmd, host);
      side := [];
      var custom := FindExact(settings.custom, cmd);
      if custom.Some? {
        return side, host.exec(custom.value);
      }
      var platform := FindExact(settings.platform, cmd);
      if platform.Some? {
        return side, host.exec(platform.value);
      }
      out := "Unknown command: " + cmd + "\n";
    }

    /** One extracted command line: echo, run, output, prompt. */
    method HandleLine(cmdLine: string, host: Host) returns (sent: seq<string>)
      requires Valid()
      modifies this
      ensures Valid()
      ensures (State(), sent) == Handle(settings, old(State()), cmdLine, host)
      ensures inputBuffer == old(inputBuffer)
    {
      if cmdLine == [] {
        return [DevicePrompt(State())];
      }
      var side, output := ProcessCommand(cmdLine, host);
      var written := OutputChunk(output);
      sent := [cmdLine + "\r\n"] + side + written + [DevicePrompt(State())];
    }

    /** One turn of the splitting loop: the command line is cut off the
        front of `input_buffer`. */
    method TakeLine() returns (cmdLine: string)
      requires FirstLineEnd(inputBuffer) >= 0
      modifies this
      ensures State() == old(State())
      ensures (cmdLine, inputBuffer) == NextLine(old(inputBuffer))
    {
      var next := NextLine(inputBuffer);
      cmdLine, inputBuffer := next.0, next.1;
    }

    /** A chunk read from the line: appended to `input_buffer`, then every
      complete line in the buffer is handled in order (lines after an `exit`
      included: the loop does not look at `keep_running`). */
    method ReceiveData(data: string, host: Host) returns (sent: seq<string>)
      requires Valid()
      modifies this
      ensures Valid()
      ensures var (lines, rest) := SplitLines(old(inputBuffer) + data);
        && (State(), sent) == HandleAll(settings, old(State()), lines, host)
        && inputBuffer == rest
      ensures NoLineEnd(inputBuffer)
    {
      inputBuffer := inputBuffer + data;
      ghost var d0 := State();
      ghost var whole := SplitLines(inputBuffer);
      ghost var done: seq<string> := [];
      sent := [];
      while Find(inputBuffer, "\n") >= 0 || Find(inputBuffer, "\r") >= 0
        invariant Valid()
        invariant whole.0 == done + SplitLines(inputBuffer).0 && whole.1 == SplitLines(inputBuffer).1
        invariant (State(), sent) == HandleAll(settings, d0, done, host)
        decreases |inputBuffer|
      {
        LineEndFound(inputBuffer);
        ghost var buf := inputBuffer;
        var cmdLine := TakeLine();
        assert SplitLines(buf) == ([cmdLine] + SplitLines(inputBuffer).0, SplitLines(inputBuffer).1);
        ghost var after := SplitLines(inputBuffer).0;
        ConcatAssoc(done, cmdLine, after);
        ghost var prior := State();
        var more := HandleLine(cmdLine, host);
        HandleAllStep(settings, d0, done, cmdLine, host);
        ghost var next := HandleAll(settings, d0, done + [cmdLine], host);
        assert next.0 == Handle(settings, prior, cmdLine, host).0 == State();
        assert next.1 == sent + Handle(settings, prior, cmdLine, host).1 == sent + more;
        sent := sent + more;
        done := done + [cmdLine];
      }
      LineEndFound(inputBuffer);
      assert done + [] == done;
    }
  }
}
