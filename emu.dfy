/** The Cisco-like console emulator of serial_emu.py: the USER / PRIVILEGED /
    CONFIG mode machine, the command history, line editing (backspace,
    Ctrl-C, tab completion, history arrows), the handling of an entered line
    (including the enable-password line) and the status-bar counters. */
module SerialEmu {
  import opened Text
  import opened Console

  // ---------------------------------------------------------------------
  // Command table
  // ---------------------------------------------------------------------

  datatype Handler =
    | Exit | Quit | End | Enable | Disable | Configure | Hostname
    | ShowVersion | ShowClock | ShowRunningConfig | ShowStartupConfig
    | WriteMemory | CopyRunStart | ClearHistory | History | Help

  /** `builtin_commands`, in its dictionary order. */
  const Builtins: seq<(string, Handler)> := [
    ("exit", Exit), ("quit", Quit), ("end", End), ("enable", Enable), ("disable", Disable),
    ("configure terminal", Configure), ("config t", Configure), ("conf t", Configure),
    ("hostname", Hostname), ("show version", ShowVersion), ("show clock", ShowClock),
    ("show running-config", ShowRunningConfig), ("show running-config ", ShowRunningConfig),
    ("show startup-config", ShowStartupConfig), ("show startup-config ", ShowStartupConfig),
    ("write memory", WriteMemory), ("write", WriteMemory),
    ("copy running-config startup-config", CopyRunStart),
    ("clear history", ClearHistory), ("history", History),
    ("?", Help), ("help", Help), ("h", Help)]

  function Names<T>(table: seq<(string, T)>): (r: seq<string>)
    ensures |r| == |table| && forall i :: 0 <= i < |table| ==> r[i] == table[i].0
  {
    seq(|table|, i requires 0 <= i < |table| => table[i].0)
  }

  // ---------------------------------------------------------------------
  // `_get_all_commands`: the sorted set of every command name
  // ---------------------------------------------------------------------

  /** Python's `<` on `str`: code point by code point, a proper prefix first. */
  predicate Below(a: string, b: string)
    decreases |a|
  {
    b != [] && (a == [] || a[0] < b[0] || (a[0] == b[0] && Below(a[1..], b[1..])))
  }

  lemma {:induction false} BelowTotal(a: string, b: string)
    ensures a == b || Below(a, b) || Below(b, a)
    decreases |a|
  {
    if a != [] && b != [] && a[0] == b[0] {
      BelowTotal(a[1..], b[1..]);
      if a[1..] == b[1..] {
        assert a == [a[0]] + a[1..] && b == [b[0]] + b[1..];
      }
    }
  }

  predicate Ascending(s: seq<string>) {
    forall i :: 0 <= i < |s| - 1 ==> Below(s[i], s[i + 1])
  }

  /** Adds `x` to an ascending list unless it is already there. */
  function Insert(x: string, s: seq<string>): (r: seq<string>)
    requires Ascending(s)
    ensures r != []
    ensures Ascending(r)
    ensures forall y :: y in r <==> y == x || y in s
    ensures r[0] == x || (s != [] && r[0] == s[0])
  {
    if s == [] then [x]
    else if x == s[0] then s
    else if Below(x, s[0]) then [x] + s
    else
      var rest := Insert(x, s[1..]);
      assert Below(s[0], rest[0]) by {
        BelowTotal(x, s[0]);
      }
      [s[0]] + rest
  }

  /** `sorted(set(xs))` */
  function SortedNames(xs: seq<string>): (r: seq<string>)
    ensures Ascending(r)
    ensures forall y :: y in r <==> y in xs
  {
    if xs == [] then []
    else
      var r := Insert(xs[|xs| - 1], SortedNames(xs[..|xs| - 1]));
      assert xs == xs[..|xs| - 1] + [xs[|xs| - 1]];
      r
  }

  // ---------------------------------------------------------------------
  // `_tab_complete`
  // ---------------------------------------------------------------------

  /** The commands that start with `p`, in list order. */
  function Matches(all: seq<string>, p: string): (m: seq<string>)
    ensures |m| <= |all|
    ensures forall y :: y in m <==> y in all && StartsWith(y, p)
  {
    if all == [] then [] else (if StartsWith(all[0], p) then [all[0]] else []) + Matches(all[1..], p)
  }

  datatype Completion = Complete(suffix: string) | Listing(shown: string) | NoMatch

  function TabComplete(all: seq<string>, partial: string): Completion {
    var p := Lower(partial);
    var m := Matches(all, p);
    if m == [] then NoMatch
    else if |m| == 1 then
      assert m[0] in m;
      Complete(m[0][|p|..])
    else Listing("\r\n" + Join(m, "  ") + "\r\n")
  }

  /** With exactly one matching command the completion is the rest of it
      (`partial.lower() + suffix` is that command); with none or several there
      is no completion, and several are listed. */
  lemma TabCompleteSpec(all: seq<string>, partial: string)
    ensures var m := Matches(all, Lower(partial));
      && (TabComplete(all, partial).Complete? <==> |m| == 1)
      && (TabComplete(all, partial).Complete? ==>
            Lower(partial) + TabComplete(all, partial).suffix == m[0] && m[0] in all)
      && (TabComplete(all, partial).NoMatch? <==> forall y :: y in all ==> !StartsWith(y, Lower(partial)))
  {
    var p := Lower(partial);
    var m := Matches(all, p);
    if |m| == 1 {
      assert m[0] in m;
      assert StartsWith(m[0], p);
      assert m[0] == p + m[0][|p|..];
    }
    if m != [] {
      assert m[0] in m;
    }
  }

  // ---------------------------------------------------------------------
  // The command interpreter as a state transformer
  // ---------------------------------------------------------------------

  /** Start-up options the interpreter consults. `custom` and `platform` are
      the custom-command file's and the platform table's entries. */
  datatype Settings = Settings(enablePassword: string, deviceVersion: string, historyEnabled: bool,
                               custom: seq<(string, string)>, platform: seq<(string, string)>)


  /** The fields of `CiscoLikeDevice` that the interpreter changes. */
  datatype Cli = Cli(mode: ExecMode, hostname: string, history: seq<string>, historyIndex: int,
                     passwordInputMode: bool, lineBuffer: string)

  /** The history invariant: at most 100 entries, the browsing index is -1 or
      an entry's position counted from the newest, and no entries at all when
      history is disabled. */
  predicate HistoryOk(c: Cli, historyEnabled: bool) {
    && |c.history| <= 100
    && -1 <= c.historyIndex < |c.history|
    && (!historyEnabled ==> c.history == [])
  }

  function AllCommands(cfg: Settings): (r: seq<string>)
    ensures forall y :: y in r <==> y in Names(Builtins) || y in Names(cfg.platform) || y in Names(cfg.custom)
  {
    SortedNames(Names(Builtins) + Names(cfg.platform) + Names(cfg.custom))
  }

  /** `exit` / `quit` */
  function ExitMode(m: ExecMode): ExecMode {
    match m
    case ConfigMode => PrivilegedExec
    case PrivilegedExec => UserExec
    case UserExec => UserExec
  }

  function RunningConfig(version: string, hostname: string, password: string): string {
    "\nBuilding configuration...\n\nCurrent configuration : 1423 bytes\n!\nversion " + version
    + "\nhostname " + hostname + "\n!\nenable password " + password
    + "\n!\ninterface GigabitEthernet0/0\n ip address dhcp\n!\ninterface GigabitEthernet0/1\n no ip address\n shutdown\n!\nline vty 0 4\n!\nend\n"
  }

  const HelpText: string :=
    "\nAvailable Commands:\n\nSystem:\n"
    + "  show version               - Display device version\n"
    + "  show clock                 - Display system time\n"
    + "  show running-config        - Display running configuration\n"
    + "  show startup-config        - Display startup configuration\n"
    + "  show system                - Display system information\n"
    + "  show memory                - Display memory usage\n"
    + "  show processes             - Display running processes\n\nNetwork:\n"
    + "  show interfaces            - Display network interfaces\n"
    + "  show ip                    - Display IP configuration\n"
    + "  show routes                - Display routing table\n"
    + "  show arp                   - Display ARP table\n\nDevice Management:\n"
    + "  configure terminal         - Enter configuration mode\n"
    + "  exit / quit / end          - Exit current mode\n"
    + "  enable                     - Enter privileged mode\n"
    + "  disable                    - Exit privileged mode\n"
    + "  hostname <name>            - Set device hostname\n"
    + "  write memory               - Save configuration\n"
    + "  copy running-config startup-config - Save configuration\n\nHistory:\n"
    + "  history                    - Show command history\n"
    + "  clear history              - Clear command history\n\nHelp:\n"
    + "  help / ?                  - Display this help\n\nCustom Commands:\n"
    + "  (loaded from cmdfile if provided)\n\n"

  /** The fixed texts the handlers print: the help screen and the
      running-configuration template (filled with version, hostname and
      enable password). The device fixes them to `StandardTexts`. */
  datatype Texts = Texts(help: string, runningConfig: (string, string, string) -> string)

  const StandardTexts: Texts := Texts(HelpText, RunningConfig)

  /** The handlers that print without changing the interpreter state. */
  predicate ReadOnly(h: Handler) {
    h.ShowVersion? || h.ShowClock? || h.ShowRunningConfig? || h.ShowStartupConfig?
    || h.WriteMemory? || h.CopyRunStart? || h.History? || h.Help?
  }

  /** The `_cmd_*` handlers. Only `enable` turns password mode on, only
      `hostname` renames, only `clear history` touches the history, and no
      handler raises USER mode or enters CONFIG from USER. */
  function Apply(h: Handler, args: string, c: Cli, cfg: Settings, tx: Texts, host: Host): (r: (Cli, string))
    ensures r.0.lineBuffer == c.lineBuffer
    ensures r.0.passwordInputMode != c.passwordInputMode ==> h == Enable && r.0.passwordInputMode
    ensures r.0.hostname != c.hostname ==> h == Hostname
    ensures r.0.history != c.history || r.0.historyIndex != c.historyIndex ==>
      h == ClearHistory && r.0.history == [] && r.0.historyIndex == -1
    ensures c.mode == UserExec ==> r.0.mode == UserExec
    ensures r.0.mode == ConfigMode ==> c.mode != UserExec
  {
    if ReadOnly(h) then (c, Say(h, c, cfg, tx, host))
    else match h
      case Exit => (c.(mode := ExitMode(c.mode)), "")
      case Quit => (c.(mode := ExitMode(c.mode)), "")
      case End => (if c.mode == ConfigMode then c.(mode := PrivilegedExec) else c, "")
      case Enable => if c.mode == PrivilegedExec then (c, "") else (c.(passwordInputMode := true), "Password: ")
      case Disable => (c.(mode := UserExec), "")
      case Configure =>
        if c.mode == UserExec then (c, "No permission\n")
        else (c.(mode := ConfigMode), "Enter configuration commands, one per line. End with CNTL/Z.\n")
      case Hostname =>
        if Strip(args) != [] then (c.(hostname := Strip(args)), "Hostname set to " + Strip(args) + "\n")
        else (c, "Current hostname: " + c.hostname + "\n")
      case ClearHistory =>
        if cfg.historyEnabled then (c.(history := [], historyIndex := -1), "History cleared\n")
        else (c, "History disabled\n")
  }

  /** What a handler that only prints returns. */
  function Say(h: Handler, c: Cli, cfg: Settings, tx: Texts, host: Host): string
    requires ReadOnly(h)
  {
    match h
    case ShowVersion => host.versionText
    case ShowClock => host.clockText
    case ShowRunningConfig => tx.runningConfig(cfg.deviceVersion, c.hostname, cfg.enablePassword)
    case ShowStartupConfig => tx.runningConfig(cfg.deviceVersion, c.hostname, cfg.enablePassword)
    case WriteMemory => "Building configuration...[OK]\n"
    case CopyRunStart => "Building configuration...[OK]\n"
    case History => HistoryText(c.history)
    case Help => tx.help
  }

  /** A non-blank command entered: browsing is reset and the command is
      recorded, unless history is off or a password is being typed. */
  function Record(cfg: Settings, c: Cli, cmd: string): (r: Cli)
    ensures r == c.(historyIndex := -1, history := r.history)
    ensures |c.history| <= 100 ==> |r.history| <= 100
    ensures cfg.historyEnabled && !c.passwordInputMode ==> r.history != [] && r.history[|r.history| - 1] == cmd
    ensures !(cfg.historyEnabled && !c.passwordInputMode) ==> r.history == c.history
  {
    c.(historyIndex := -1,
       history := if cfg.historyEnabled && !c.passwordInputMode then PushBounded(c.history, cmd, 100) else c.history)
  }

  /** `process_command`: the new interpreter state and the text returned. */
  function Process(cfg: Settings, tx: Texts, c: Cli, line: string, host: Host): (r: (Cli, string))
    ensures HistoryOk(c, cfg.historyEnabled) ==> HistoryOk(r.0, cfg.historyEnabled)
    ensures c.mode == UserExec ==> r.0.mode == UserExec
    ensures r.0.mode == ConfigMode ==> c.mode != UserExec
    ensures r.0.lineBuffer == c.lineBuffer
    ensures Strip(Lower(line)) == [] ==> r == (c, "")
    ensures Strip(Lower(line)) != [] ==> r.0.historyIndex == -1
  {
    var cmd := Strip(Lower(line));
    if cmd == [] then (c, "") else Dispatch(cfg, tx, Record(cfg, c, cmd), cmd, host)
  }

  /** The dispatch part of `process_command`, on the state in which the
      command is already recorded: the first builtin whose name starts the
      command, else a custom command, else a platform command, else the
      unknown-command reply. */
  function Dispatch(cfg: Settings, tx: Texts, c: Cli, cmd: string, host: Host): (r: (Cli, string))
    ensures HistoryOk(c, cfg.historyEnabled) ==> HistoryOk(r.0, cfg.historyEnabled)
    ensures c.mode == UserExec ==> r.0.mode == UserExec
    ensures r.0.mode == ConfigMode ==> c.mode != UserExec
    ensures r.0.lineBuffer == c.lineBuffer
    ensures c.historyIndex == -1 ==> r.0.historyIndex == -1
  {
    match RouteCommand(Builtins, cmd, cfg.custom, cfg.platform)
    case Builtin(h, args) => Apply(h, args, c, cfg, tx, host)
    case Custom(sh) => (c, host.exec(sh))
    case Platform(sh) => (c, host.exec(sh))
    case Unknown => (c, "Unknown command: " + cmd + "\n")
  }

  lemma DispatchBuiltin(cfg: Settings, tx: Texts, c: Cli, cmd: string, host: Host, i: nat)
    requires FirstPrefix(Builtins, cmd) == Some(i)
    ensures Dispatch(cfg, tx, c, cmd, host) == Apply(Builtins[i].1, Strip(cmd[|Builtins[i].0|..]), c, cfg, tx, host)
  {
  }

  lemma DispatchOther(cfg: Settings, tx: Texts, c: Cli, cmd: string, host: Host)
    requires FirstPrefix(Builtins, cmd) == None
    ensures var custom := FirstExact(cfg.custom, cmd);
      var platform := FirstExact(cfg.platform, cmd);
      Dispatch(cfg, tx, c, cmd, host)
        == (c, if custom.Some? then host.exec(custom.value)
               else if platform.Some? then host.exec(platform.value)
               else "Unknown command: " + cmd + "\n")
  {
  }

  /** What a non-blank command does to the history: it is recorded at the
      newest end (beyond 100 entries the oldest is dropped, see
      `PushBounded`) unless history is off or the line is typed in password
      mode, and only `clear history` changes it further. */
  lemma ProcessHistory(cfg: Settings, tx: Texts, c: Cli, line: string, host: Host)
    requires Strip(Lower(line)) != []
    ensures var cmd := Strip(Lower(line));
      var route := RouteCommand(Builtins, cmd, cfg.custom, cfg.platform);
      !(route.Builtin? && route.handler == ClearHistory) ==>
        Process(cfg, tx, c, line, host).0.history
          == if cfg.historyEnabled && !c.passwordInputMode then PushBounded(c.history, cmd, 100) else c.history
  {
    var cmd := Strip(Lower(line));
    var c1 := Record(cfg, c, cmd);
    assert Process(cfg, tx, c, line, host) == Dispatch(cfg, tx, c1, cmd, host);
    var route := RouteCommand(Builtins, cmd, cfg.custom, cfg.platform);
    if !(route.Builtin? && route.handler == ClearHistory) {
      DispatchKeepsHistory(cfg, tx, c1, cmd, host);
    }
  }

  lemma DispatchKeepsHistory(cfg: Settings, tx: Texts, c: Cli, cmd: string, host: Host)
    requires var route := RouteCommand(Builtins, cmd, cfg.custom, cfg.platform);
      !(route.Builtin? && route.handler == ClearHistory)
    ensures Dispatch(cfg, tx, c, cmd, host).0.history == c.history
  {
    match FirstPrefix(Builtins, cmd)
    case Some(i) => DispatchBuiltin(cfg, tx, c, cmd, host, i);
    case None => DispatchOther(cfg, tx, c, cmd, host);
  }

  /** `clear history` empties the history when history is enabled. */
  lemma ClearHistoryEmpties(cfg: Settings, tx: Texts, c: Cli, line: string, host: Host)
    requires Strip(Lower(line)) != [] && cfg.historyEnabled
    requires var route := RouteCommand(Builtins, Strip(Lower(line)), cfg.custom, cfg.platform);
      route.Builtin? && route.handler == ClearHistory
    ensures Process(cfg, tx, c, line, host).0.history == []
  {
    var cmd := Strip(Lower(line));
    var c1 := Record(cfg, c, cmd);
    assert Process(cfg, tx, c, line, host) == Dispatch(cfg, tx, c1, cmd, host);
    DispatchClears(cfg, tx, c1, cmd, host);
  }

  lemma DispatchClears(cfg: Settings, tx: Texts, c: Cli, cmd: string, host: Host)
    requires cfg.historyEnabled
    requires var route := RouteCommand(Builtins, cmd, cfg.custom, cfg.platform);
      route.Builtin? && route.handler == ClearHistory
    ensures Dispatch(cfg, tx, c, cmd, host).0.history == []
  {
    var i := FirstPrefix(Builtins, cmd).value;
    DispatchBuiltin(cfg, tx, c, cmd, host, i);
  }

  // ---------------------------------------------------------------------
  // Line editing
  // ---------------------------------------------------------------------

  /** `b"\r" + b" " * n + b"\r"`: blank out the echoed line. */
  function ClearLine(n: nat): (r: string)
    ensures |r| == n + 2
  {
    "\r" + Spaces(n) + "\r"
  }

  function Spaces(n: nat): (r: string)
    ensures |r| == n && forall i :: 0 <= i < n ==> r[i] == ' '
  {
    if n == 0 then [] else Spaces(n - 1) + " "
  }

  /** Fixed replies of the line discipline. Each is already in CR LF
      discipline, so sending it through the normaliser writes it unchanged
      (`FixedRepliesWellFormed` with `NormalizeFixesWellFormed`); the functions below write them as they are. */
  const CrLf: string := "\r\n"
  const CtrlCEcho: string := "^C" + CrLf
  const AccessDenied: string := CrLf + "Password: " + CrLf + "% Access denied" + CrLf

  lemma FixedRepliesWellFormed()
    ensures CrLfOnly(CrLf) && CrLfOnly(CtrlCEcho) && CrLfOnly(AccessDenied)
  {
    CtrlCEchoWellFormed();
    AccessDeniedWellFormed();
  }

  lemma CtrlCEchoWellFormed()
    ensures CrLfOnly(CrLf) && CrLfOnly(CtrlCEcho)
  {
    assert CrLfOnly(CrLf);
    PlainCrLfOnly("^C");
    CrLfOnlyConcat("^C", CrLf);
  }

  lemma AccessDeniedWellFormed()
    ensures CrLfOnly(AccessDenied)
  {
    PlainBetweenCrLfs("Password: ", "% Access denied");
  }

  /** Two texts without CR or LF, each preceded and the last also followed
      by CR LF. */
  lemma PlainBetweenCrLfs(a: string, b: string)
    requires forall i :: 0 <= i < |a| ==> a[i] != '\r' && a[i] != '\n'
    requires forall i :: 0 <= i < |b| ==> b[i] != '\r' && b[i] != '\n'
    ensures CrLfOnly(CrLf + a + CrLf + b + CrLf)
  {
    assert CrLfOnly(CrLf);
    PlainCrLfOnly(a);
    PlainCrLfOnly(b);
    CrLfOnlyConcat(CrLf, a);
    CrLfOnlyConcat(CrLf + a, CrLf);
    CrLfOnlyConcat(CrLf + a + CrLf, b);
    CrLfOnlyConcat(CrLf + a + CrLf + b, CrLf);
  }

  /** `_handle_special_key`: whether the key was handled, the new state and
      what was written to the line. */
  function SpecialKey(all: seq<string>, c: Cli, key: byte): (r: (bool, Cli, seq<string>))
    ensures r.1 == c.(lineBuffer := r.1.lineBuffer)
    ensures (key == 8 || key == 127) ==>
              && r.0
              && (if c.lineBuffer == [] then r.1.lineBuffer == []
                  else r.1.lineBuffer + [c.lineBuffer[|c.lineBuffer| - 1]] == c.lineBuffer)
    ensures (key == 8 || key == 127) ==> r.2 == (if c.lineBuffer == [] then [] else ["\U{8} \U{8}"])
    ensures key == 3 ==> r.0 && r.1.lineBuffer == [] && r.2 == [CtrlCEcho]
    ensures key in {10, 13, 27} ==> !r.0
    ensures !r.0 ==> r.1 == c && r.2 == []
    ensures key == 9 ==>
              && r.0
              && r.1.lineBuffer == c.lineBuffer + (if TabComplete(all, c.lineBuffer).Complete? then TabComplete(all, c.lineBuffer).suffix else "")
  {
    if key == 9 then
      match TabComplete(all, c.lineBuffer)
      case Complete(s) =>
        if s != [] then (true, c.(lineBuffer := c.lineBuffer + s), [NormalizeLineEndings(s)]) else (true, c, [])
      case Listing(t) => (true, c, [NormalizeLineEndings(t)])
      case NoMatch => (true, c, [])
    else if key == 8 || key == 127 then
      if c.lineBuffer != [] then
        var b := c.lineBuffer[..|c.lineBuffer| - 1];
        assert b + [c.lineBuffer[|c.lineBuffer| - 1]] == c.lineBuffer;
        (true, c.(lineBuffer := b), ["\U{8} \U{8}"])
      else (true, c, [])
    else if key == 27 then (false, c, [])
    else if key == 13 || key == 10 then (false, c, [])
    else if key == 3 then (true, c.(lineBuffer := ""), [CtrlCEcho])
    else (false, c, [])
  }

  /** One byte of the per-byte loop: a special key, else a printable ASCII
      character appended to the line (echoed unless a password is typed). */
  function Key(all: seq<string>, c: Cli, key: byte): (r: (Cli, seq<string>))
    ensures r.0 == c.(lineBuffer := r.0.lineBuffer)
    ensures SpecialKey(all, c, key).0 ==> r == (SpecialKey(all, c, key).1, SpecialKey(all, c, key).2)
    ensures !SpecialKey(all, c, key).0 && 32 <= key <= 126 ==>
              && r.0.lineBuffer == c.lineBuffer + [(key as int) as char]
              && r.1 == (if c.passwordInputMode then [] else [[(key as int) as char]])
    ensures !SpecialKey(all, c, key).0 && !(32 <= key <= 126) ==> r == (c, [])
  {
    var (handled, c1, out) := SpecialKey(all, c, key);
    if !handled && 32 <= key <= 126 then
      var ch := (key as int) as char;
      (c1.(lineBuffer := c1.lineBuffer + [ch]), out + if c1.passwordInputMode then [] else [[ch]])
    else (c1, out)
  }

  /** The per-byte loop over a whole chunk. */
  function Keys(all: seq<string>, c: Cli, data: seq<byte>): (r: (Cli, seq<string>))
    ensures r.0 == c.(lineBuffer := r.0.lineBuffer)
    decreases |data|
  {
    if data == [] then (c, [])
    else
      var (c1, out1) := Keys(all, c, data[..|data| - 1]);
      var (c2, out2) := Key(all, c1, data[|data| - 1]);
      (c2, out1 + out2)
  }

  /** A byte as the character `chr` gives. */
  function Chr(b: byte): char {
    (b as int) as char
  }

  /** The bytes as the characters `chr` gives, in order. */
  function Chars(data: seq<byte>): (r: string)
    ensures |r| == |data| && forall i :: 0 <= i < |data| ==> r[i] == Chr(data[i])
  {
    if data == [] then [] else Chars(data[..|data| - 1]) + [Chr(data[|data| - 1])]
  }

  /** One echo write per byte. */
  function Echoes(data: seq<byte>): (r: seq<string>)
    ensures |r| == |data| && forall i :: 0 <= i < |data| ==> r[i] == [Chr(data[i])]
  {
    if data == [] then [] else Echoes(data[..|data| - 1]) + [[Chr(data[|data| - 1])]]
  }

  /** A chunk of printable ASCII (which holds no special key) lands in the
      line as it came ... */
  lemma {:induction false} KeysPrintable(all: seq<string>, c: Cli, data: seq<byte>)
    requires forall i :: 0 <= i < |data| ==> 32 <= data[i] <= 126
    ensures Keys(all, c, data).0 == c.(lineBuffer := c.lineBuffer + Chars(data))
    decreases |data|
  {
    if data != [] {
      var d := data[..|data| - 1];
      var k := data[|data| - 1];
      KeysPrintable(all, c, d);
      KeysLast(all, c, data);
      KeyPrintable(all, c.(lineBuffer := c.lineBuffer + Chars(d)), k);
      assert Chars(data) == Chars(d) + [Chr(k)];
    }
  }

  /** ... and is echoed byte by byte unless a password is being typed. */
  lemma {:induction false} KeysEchoes(all: seq<string>, c: Cli, data: seq<byte>)
    requires forall i :: 0 <= i < |data| ==> 32 <= data[i] <= 126
    ensures Keys(all, c, data).1 == (if c.passwordInputMode then [] else Echoes(data))
    decreases |data|
  {
    if data != [] {
      var d := data[..|data| - 1];
      var k := data[|data| - 1];
      KeysEchoes(all, c, d);
      KeysPrintable(all, c, d);
      KeysLast(all, c, data);
      KeyPrintable(all, c.(lineBuffer := c.lineBuffer + Chars(d)), k);
      assert Echoes(data) == Echoes(d) + [[Chr(k)]];
    }
  }

  /** The last byte of a chunk is handled after all the others. */
  lemma KeysLast(all: seq<string>, c: Cli, data: seq<byte>)
    requires data != []
    ensures var (c1, out1) := Keys(all, c, data[..|data| - 1]);
      var (c2, out2) := Key(all, c1, data[|data| - 1]);
      Keys(all, c, data) == (c2, out1 + out2)
  {
  }

  lemma KeyPrintable(all: seq<string>, c: Cli, k: byte)
    requires 32 <= k <= 126
    ensures Key(all, c, k).0 == c.(lineBuffer := c.lineBuffer + [Chr(k)])
    ensures Key(all, c, k).1 == (if c.passwordInputMode then [] else [[Chr(k)]])
  {
    assert !SpecialKey(all, c, k).0;
  }

  /** `_process_escape_sequence`: bytes consumed (3 for an up or down arrow
      while history is non-empty, else 0), the new state and what was
      written. */
  function Escape(c: Cli, data: seq<byte>): (r: (nat, Cli, seq<string>))
    requires -1 <= c.historyIndex < |c.history|
    ensures -1 <= r.1.historyIndex < |c.history|
    ensures r.1 == c.(historyIndex := r.1.historyIndex, lineBuffer := r.1.lineBuffer)
    ensures r.0 == 0 ==> r.1 == c && r.2 == []
    ensures r.1.historyIndex >= 0 && r.1.historyIndex != c.historyIndex ==>
      r.1.lineBuffer == c.history[|c.history| - 1 - r.1.historyIndex]
    ensures c.historyIndex == 0 && r.1.historyIndex == -1 ==> r.1.lineBuffer == []
  {
    var h := c.history;
    if |data| >= 3 && data[0] == 27 && data[1] == 91 then
      if data[2] == 65 && h != [] then
        if c.historyIndex < |h| - 1 then
          var i := c.historyIndex + 1;
          var line := h[|h| - (i + 1)];
          (3, c.(historyIndex := i, lineBuffer := line), [ClearLine(|c.lineBuffer|), NormalizeLineEndings(line)])
        else (3, c, [])
      else if data[2] == 66 && h != [] then
        if c.historyIndex > 0 then
          var i := c.historyIndex - 1;
          var line := h[|h| - (i + 1)];
          (3, c.(historyIndex := i, lineBuffer := line), [ClearLine(|c.lineBuffer|), NormalizeLineEndings(line)])
        else if c.historyIndex == 0 then
          (3, c.(historyIndex := -1, lineBuffer := ""), [ClearLine(|c.lineBuffer|)])
        else (3, c, [])
      else (0, c, [])
    else (0, c, [])
  }

  /** Up from the newest end walks towards the oldest entry: pressing up `k`
      times from a fresh line shows the `k`-th newest command. */
  lemma {:induction false} UpArrowWalksBack(c: Cli, k: nat)
    requires -1 <= c.historyIndex < |c.history| && c.historyIndex == -1
    requires 1 <= k <= |c.history|
    ensures var u := UpTimes(c, k);
      u.historyIndex == k - 1 && u.lineBuffer == c.history[|c.history| - k]
  {
    if k > 1 {
      UpArrowWalksBack(c, k - 1);
    }
  }

  function UpTimes(c: Cli, k: nat): (u: Cli)
    requires -1 <= c.historyIndex < |c.history|
    ensures -1 <= u.historyIndex < |u.history| && u.history == c.history
  {
    if k == 0 then c else Escape(UpTimes(c, k - 1), [27, 91, 65]).1
  }

  // ---------------------------------------------------------------------
  // An entered line, and a whole received chunk
  // ---------------------------------------------------------------------

  /** The line-ending branch of the worker loop: the buffered line is taken;
      in password mode it is compared with the enable password, otherwise it
      is echoed and run as a command; the prompt follows. */
  function Submit(cfg: Settings, tx: Texts, c: Cli, host: Host): (r: (Cli, seq<string>))
    ensures r.0.lineBuffer == [] && (c.passwordInputMode ==> !r.0.passwordInputMode)
    ensures |r.1| >= 2 && r.1[|r.1| - 1] == NormalizeLineEndings(Prompt(r.0.hostname, r.0.mode))
    ensures HistoryOk(c, cfg.historyEnabled) ==> HistoryOk(r.0, cfg.historyEnabled)
  {
    if c.passwordInputMode then PasswordEntered(cfg, c) else CommandEntered(cfg, tx, c, host)
  }

  /** A line typed in password mode: never run and never recorded. */
  function PasswordEntered(cfg: Settings, c: Cli): (r: (Cli, seq<string>))
    ensures r.0 == c.(lineBuffer := "", passwordInputMode := false, mode := r.0.mode)
    ensures |r.1| == 2 && r.1[1] == NormalizeLineEndings(Prompt(r.0.hostname, r.0.mode))
  {
    var c1 := c.(lineBuffer := "", passwordInputMode := false);
    if c.lineBuffer == cfg.enablePassword then
      var c2 := c1.(mode := PrivilegedExec);
      (c2, [CrLf, NormalizeLineEndings(Prompt(c2.hostname, c2.mode))])
    else (c1, [AccessDenied, NormalizeLineEndings(Prompt(c1.hostname, c1.mode))])
  }

  /** An ordinary line: echoed as a line ending, run, its output written
      (when there is any), then the prompt of the resulting mode. */
  function CommandEntered(cfg: Settings, tx: Texts, c: Cli, host: Host): (r: (Cli, seq<string>))
    ensures |r.1| >= 2 && r.1[0] == CrLf && r.1[|r.1| - 1] == NormalizeLineEndings(Prompt(r.0.hostname, r.0.mode))
    ensures r.0.lineBuffer == []
    ensures HistoryOk(c, cfg.historyEnabled) ==> HistoryOk(r.0, cfg.historyEnabled)
  {
    var p := Process(cfg, tx, c.(lineBuffer := ""), c.lineBuffer, host);
    (p.0, Reply(p.1, NormalizeLineEndings(Prompt(p.0.hostname, p.0.mode))))
  }

  /** What an entered line writes: CR LF, the normalised output if there is
      any, then the prompt. */
  function Reply(out: string, prompt: string): (r: seq<string>)
    ensures |r| >= 2 && r[0] == CrLf && r[|r| - 1] == prompt
  {
    [CrLf] + (if out != [] then [NormalizeLineEndings(out)] else []) + [prompt]
  }

  /** The enable password: the line after `enable` leaves password mode,
      reaches PRIVILEGED exactly when it equals the password, and otherwise
      keeps the mode and reports the denial. */
  lemma PasswordLine(cfg: Settings, tx: Texts, c: Cli, host: Host)
    requires c.passwordInputMode
    ensures var (c2, sent) := Submit(cfg, tx, c, host);
      && !c2.passwordInputMode && c2.lineBuffer == [] && c2.history == c.history
      && (c.lineBuffer == cfg.enablePassword ==> c2.mode == PrivilegedExec && sent[0] == CrLf)
      && (c.lineBuffer != cfg.enablePassword ==>
            c2.mode == c.mode && sent[0] == AccessDenied)
  {
  }

  /** Privilege is only ever gained through the enable password: from USER
      mode, an entered line yields PRIVILEGED only when password mode was on
      and the line equals the password, and never yields CONFIG. */
  lemma NoEscalation(cfg: Settings, tx: Texts, c: Cli, host: Host)
    requires c.mode == UserExec
    ensures var c2 := Submit(cfg, tx, c, host).0;
      && c2.mode != ConfigMode
      && (c2.mode == PrivilegedExec ==> c.passwordInputMode && c.lineBuffer == cfg.enablePassword)
  {
  }

  function HasLineEnd(data: seq<byte>): bool {
    exists i :: 0 <= i < |data| && data[i] in {10, 13}
  }

  /** One pass of the worker loop for a received chunk: escape-sequence
      detection on the accumulated escape buffer, then the per-byte loop,
      then at most one line submitted (with whatever the chunk added to the
      line, even after the line ending). Returns the state, the escape
      buffer and what was written. */
  function Receive(cfg: Settings, tx: Texts, all: seq<string>, c: Cli, esc: seq<byte>, data: seq<byte>, host: Host)
    : (r: (Cli, seq<byte>, seq<string>))
    requires HistoryOk(c, cfg.historyEnabled)
    ensures HistoryOk(r.0, cfg.historyEnabled)
    ensures HasLineEnd(data) && r.2 != [] ==> r.1 == [] || |esc + data| >= 3
    ensures |esc + data| >= 3 && Escape(c, esc + data).0 > 0 ==>
              var (n, c1, out) := Escape(c, esc + data);
              r == (c1, (esc + data)[n..], out)
    ensures (|esc + data| < 3 || Escape(c, esc + data).0 == 0) ==>
              var (c2, out2) := Keys(all, c, data);
              if HasLineEnd(data) then
                var (c3, out3) := Submit(cfg, tx, c2, host);
                r == (c3, [], out2 + out3)
              else r == (c2, esc + data, out2)
  {
    var e := esc + data;
    var (consumed, c1, out1) := if |e| >= 3 then Escape(c, e) else (0, c, []);
    if consumed > 0 then (c1, e[consumed..], out1)
    else
      var (c2, out2) := Keys(all, c, data);
      if HasLineEnd(data) then
        var (c3, out3) := Submit(cfg, tx, c2, host);
        (c3, [], out2 + out3)
      else (c2, e, out2)
  }

  // ---------------------------------------------------------------------
  // The device object
  // ---------------------------------------------------------------------

  class CiscoLikeDevice {
    const settings: Settings
    const texts: Texts
    const allCommands: seq<string>
    var mode: ExecMode
    var hostname: string
    var commandHistory: seq<string>
    var historyIndex: int
    var passwordInputMode: bool
    var lineBuffer: string
    var escapeBuffer: seq<byte>

    function State(): Cli
      reads this
    {
      Cli(mode, hostname, commandHistory, historyIndex, passwordInputMode, lineBuffer)
    }

    predicate Valid()
      reads this
    {
      HistoryOk(State(), settings.historyEnabled)
    }

    constructor (settings: Settings, hostname: string)
      ensures Valid() && this.settings == settings && texts == StandardTexts
      ensures allCommands == AllCommands(settings)
      ensures State() == Cli(UserExec, hostname, [], -1, false, "") && escapeBuffer == []
    {
      this.settings := settings;
      this.texts := StandardTexts;
      this.allCommands := AllCommands(settings);
      this.mode := UserExec;
      this.hostname := hostname;
      this.commandHistory := [];
      this.historyIndex := -1;
      this.passwordInputMode := false;
      this.lineBuffer := "";
      this.escapeBuffer := [];
    }

    method CmdExit() returns (out: string)
      modifies this
      ensures State() == old(State()).(mode := ExitMode(old(mode))) && out == ""
      ensures escapeBuffer == old(escapeBuffer)
    {
      if mode == ConfigMode {
        mode := PrivilegedExec;
      } else if mode == PrivilegedExec {
        mode := UserExec;
      }
      out := "";
    }

    method CmdEnd() returns (out: string)
      modifies this
      ensures State() == if old(mode) == ConfigMode then old(State()).(mode := PrivilegedExec) else old(State())
      ensures out == "" && escapeBuffer == old(escapeBuffer)
    {
      if mode == ConfigMode {
        mode := PrivilegedExec;
      }
      out := "";
    }

    method CmdEnable() returns (out: string)
      modifies this
      ensures old(mode) == PrivilegedExec ==> State() == old(State()) && out == ""
      ensures old(mode) != PrivilegedExec ==> State() == old(State()).(passwordInputMode := true) && out == "Password: "
      ensures escapeBuffer == old(escapeBuffer)
    {
      if mode == PrivilegedExec {
        return "";
      }
      passwordInputMode := true;
      out := "Password: ";
    }

    method CmdDisable() returns (out: string)
      modifies this
      ensures State() == old(State()).(mode := UserExec) && out == ""
      ensures escapeBuffer == old(escapeBuffer)
    {
      mode := UserExec;
      out := "";
    }

    method CmdConfig() returns (out: string)
      modifies this
      ensures old(mode) == UserExec ==> State() == old(State()) && out == "No permission\n"
      ensures old(mode) != UserExec ==>
                && State() == old(State()).(mode := ConfigMode)
                && out == "Enter configuration commands, one per line. End with CNTL/Z.\n"
      ensures escapeBuffer == old(escapeBuffer)
    {
      if mode == UserExec {
        return "No permission\n";
      }
      mode := ConfigMode;
      out := "Enter configuration commands, one per line. End with CNTL/Z.\n";
    }

    method CmdHostname(args: string) returns (out: string)
      modifies this
      ensures Strip(args) != [] ==>
                && State() == old(State()).(hostname := Strip(args))
                && out == "Hostname set to " + Strip(args) + "\n"
      ensures Strip(args) == [] ==> State() == old(State()) && out == "Current hostname: " + hostname + "\n"
      ensures escapeBuffer == old(escapeBuffer)
    {
      if Strip(args) != [] {
        hostname := Strip(args);
        return "Hostname set to " + hostname + "\n";
      }
      out := "Current hostname: " + hostname + "\n";
    }

    method CmdClearHistory() returns (out: string)
      modifies this
      ensures settings.historyEnabled ==>
                && State() == old(State()).(history := [], historyIndex := -1)
                && out == "History cleared\n"
      ensures !settings.historyEnabled ==> State() == old(State()) && out == "History disabled\n"
      ensures escapeBuffer == old(escapeBuffer)
    {
      if settings.historyEnabled {
        commandHistory := [];
        historyIndex := -1;
        return "History cleared\n";
      }
      out := "History disabled\n";
    }

    method CmdHistory() returns (out: string)
      ensures out == HistoryText(commandHistory)
    {
      out := FormatHistory(commandHistory);
    }

    /** Calls the handler a builtin command reached. */
    method RunHandler(h: Handler, args: string, host: Host) returns (out: string)
      modifies this
      ensures (State(), out) == Apply(h, args, old(State()), settings, texts, host)
      ensures escapeBuffer == old(escapeBuffer)
    {
      if ReadOnly(h) {
        out := RunReadOnly(h, host);
      } else {
        out := RunUpdating(h, args, host);
      }
    }

    /** The handlers that only print. */
    method RunReadOnly(h: Handler, host: Host) returns (out: string)
      requires ReadOnly(h)
      ensures out == Say(h, State(), settings, texts, host)
    {
      match h
      case ShowVersion => out := host.versionText;
      case ShowClock => out := host.clockText;
      case ShowRunningConfig => out := texts.runningConfig(settings.deviceVersion, hostname, settings.enablePassword);
      case ShowStartupConfig => out := texts.runningConfig(settings.deviceVersion, hostname, settings.enablePassword);
      case WriteMemory => out := "Building configuration...[OK]\n";
      case CopyRunStart => out := "Building configuration...[OK]\n";
      case History => out := CmdHistory();
      case Help => out := texts.help;
    }

    /** The handlers that change the interpreter state. */
    method RunUpdating(h: Handler, args: string, host: Host) returns (out: string)
      requires !ReadOnly(h)
      modifies this
      ensures (State(), out) == Apply(h, args, old(State()), settings, texts, host)
      ensures escapeBuffer == old(escapeBuffer)
    {
      match h
      case Exit => out := CmdExit();
      case Quit => out := CmdExit();
      case End => out := CmdEnd();
      case Enable => out := CmdEnable();
      case Disable => out := CmdDisable();
      case Configure => out := CmdConfig();
      case Hostname => out := CmdHostname(args);
      case ClearHistory => out := CmdClearHistory();
    }

    /** `process_command` */
    method ProcessCommand(cmdLine: string, host: Host) returns (out: string)
      requires Valid()
      modifies this
      ensures Valid()
      ensures (State(), out) == Process(settings, texts, old(State()), cmdLine, host)
      ensures escapeBuffer == old(escapeBuffer)
    {
      var cmd := Strip(Lower(cmdLine));
      if cmd == [] {
        return "";
      }
      RecordCommand(cmd);
      out := RunCommand(cmd, host);
    }

    /** The history bookkeeping of `process_command`. */
    method RecordCommand(cmd: string)
      requires Valid()
      modifies this
      ensures Valid()
      ensures State() == Record(settings, old(State()), cmd) && escapeBuffer == old(escapeBuffer)
    {
      historyIndex := -1;
      if settings.historyEnabled && !passwordInputMode {
        commandHistory := commandHistory + [cmd];
        if |commandHistory| > 100 {
          commandHistory := commandHistory[1..];
        }
      }
    }

    /** The dispatch of `process_command`. */
    method RunCommand(cmd: string, host: Host) returns (out: string)
      modifies this
      ensures (State(), out) == Dispatch(settings, texts, old(State()), cmd, host)
      ensures escapeBuffer == old(escapeBuffer)
    {
      var found := FindPrefix(Builtins, cmd);
      if found.Some? {
        var (name, handler) := Builtins[found.value];
        DispatchBuiltin(settings, texts, State(), cmd, host, found.value);
        out := RunHandler(handler, Strip(cmd[|name|..]), host);
        return;
      }
      DispatchOther(settings, texts, State(), cmd, host);
      var custom := FindExact(settings.custom, cmd);
      if custom.Some? {
        return host.exec(custom.value);
      }
      var platform := FindExact(settings.platform, cmd);
      if platform.Some? {
        return host.exec(platform.value);
      }
      out := "Unknown command: " + cmd + "\n";
    }

    /** `_handle_special_key` */
    method HandleSpecialKey(key: byte) returns (handled: bool, sent: seq<string>)
      modifies this
      ensures (handled, State(), sent) == SpecialKey(allCommands, old(State()), key)
      ensures escapeBuffer == old(escapeBuffer)
    {
      sent := [];
      if key == 9 {
        var completion := TabComplete(allCommands, lineBuffer);
        match completion {
          case Complete(s) =>
            if s != [] {
              sent := [NormalizeLineEndings(s)];
              lineBuffer := lineBuffer + s;
            }
          case Listing(t) =>
            sent := [NormalizeLineEndings(t)];
          case NoMatch =>
        }
        return true, sent;
      }
      if key == 8 || key == 127 {
        if lineBuffer != [] {
          lineBuffer := lineBuffer[..|lineBuffer| - 1];
          sent := ["\U{8} \U{8}"];
        }
        return true, sent;
      }
      if key == 27 {
        return false, sent;
      }
      if key == 13 || key == 10 {
        return false, sent;
      }
      if key == 3 {
        sent := [CtrlCEcho];
        lineBuffer := "";
        return true, sent;
      }
      handled := false;
    }

    /** `_process_escape_sequence` */
    method ProcessEscapeSequence(data: seq<byte>) returns (consumed: nat, sent: seq<string>)
      requires Valid()
      modifies this
      ensures Valid()
      ensures (consumed, State(), sent) == Escape(old(State()), data)
      ensures escapeBuffer == old(escapeBuffer)
    {
      sent := [];
      if |data| >= 3 && data[0] == 27 && data[1] == 91 {
        var arrow := data[2];
        if arrow == 65 && commandHistory != [] {
          if historyIndex < |commandHistory| - 1 {
            sent := [ClearLine(|lineBuffer|)];
            historyIndex := historyIndex + 1;
            lineBuffer := commandHistory[|commandHistory| - (historyIndex + 1)];
            sent := sent + [NormalizeLineEndings(lineBuffer)];
            assert sent == [ClearLine(|old(lineBuffer)|), NormalizeLineEndings(lineBuffer)];
          }
          assert Escape(old(State()), data) == (3, State(), sent);
          return 3, sent;
        }
        if arrow == 66 && commandHistory != [] {
          if historyIndex > 0 {
            sent := [ClearLine(|lineBuffer|)];
            historyIndex := historyIndex - 1;
            lineBuffer := commandHistory[|commandHistory| - (historyIndex + 1)];
            sent := sent + [NormalizeLineEndings(lineBuffer)];
            assert sent == [ClearLine(|old(lineBuffer)|), NormalizeLineEndings(lineBuffer)];
          } else if historyIndex == 0 {
            historyIndex := -1;
            sent := [ClearLine(|lineBuffer|)];
            lineBuffer := "";
          }
          assert Escape(old(State()), data) == (3, State(), sent);
          return 3, sent;
        }
      }
      consumed := 0;
    }

    /** The line-ending branch of the worker loop, password line included. */
    method SubmitLine(host: Host) returns (sent: seq<string>)
      requires Valid()
      modifies this
      ensures Valid()
      ensures (State(), sent) == Submit(settings, texts, old(State()), host)
      ensures escapeBuffer == old(escapeBuffer)
    {
      if passwordInputMode {
        sent := SubmitPassword(host);
      } else {
        sent := SubmitCommand(host);
      }
    }

    /** The password line: compared with the enable password, never run. */
    method SubmitPassword(host: Host) returns (sent: seq<string>)
      requires Valid() && passwordInputMode
      modifies this
      ensures Valid()
      ensures (State(), sent) == PasswordEntered(settings, old(State()))
      ensures escapeBuffer == old(escapeBuffer)
    {
      var cmdLine := lineBuffer;
      lineBuffer := "";
      passwordInputMode := false;
      if cmdLine == settings.enablePassword {
        mode := PrivilegedExec;
        sent := [CrLf];
      } else {
        sent := [AccessDenied];
      }
      sent := sent + [NormalizeLineEndings(Prompt(hostname, mode))];
      assert PasswordEntered(settings, old(State())).0 == State();
      assert PasswordEntered(settings, old(State())).1 == sent;
    }

    /** An ordinary line: echoed, run as a command, its output written. */
    method SubmitCommand(host: Host) returns (sent: seq<string>)
      requires Valid() && !passwordInputMode
      modifies this
      ensures Valid()
      ensures (State(), sent) == CommandEntered(settings, texts, old(State()), host)
      ensures escapeBuffer == old(escapeBuffer)
    {
      var cmdLine := lineBuffer;
      lineBuffer := "";
      var output := ProcessCommand(cmdLine, host);
      var written := if output != [] then [NormalizeLineEndings(output)] else [];
      sent := [CrLf] + written + [NormalizeLineEndings(Prompt(hostname, mode))];
    }

    /** One byte of the per-byte loop. */
    method ReceiveKey(key: byte) returns (sent: seq<string>)
      modifies this
      ensures (State(), sent) == Key(allCommands, old(State()), key)
      ensures escapeBuffer == old(escapeBuffer)
    {
      ghost var c := State();
      var handled;
      handled, sent := HandleSpecialKey(key);
      ghost var c1 := State();
      assert (handled, c1, sent) == SpecialKey(allCommands, c, key);
      if !handled && 32 <= key <= 126 {
        var ch := (key as int) as char;
        lineBuffer := lineBuffer + [ch];
        if !passwordInputMode {
          sent := sent + [[ch]];
        }
        assert State() == c1.(lineBuffer := c1.lineBuffer + [ch]);
        assert Key(allCommands, c, key).0 == State();
        assert Key(allCommands, c, key).1 == sent;
      } else {
        assert Key(allCommands, c, key) == (State(), sent);
      }
    }

    /** One pass of the worker loop for a chunk read from the line. */
    method ReceiveData(data: seq<byte>, host: Host) returns (sent: seq<string>)
      requires Valid()
      modifies this
      ensures Valid()
      ensures (State(), escapeBuffer, sent) == Receive(settings, texts, allCommands, old(State()), old(escapeBuffer), data, host)
    {
      escapeBuffer := escapeBuffer + data;
      sent := [];
      if |escapeBuffer| >= 3 {
        var consumed;
        consumed, sent := ProcessEscapeSequence(escapeBuffer);
        if consumed > 0 {
          escapeBuffer := escapeBuffer[consumed..];
          return;
        }
      }
      sent := ReceiveKeys(data);
      var lineEnd := FindLineEnd(data);
      if lineEnd {
        escapeBuffer := [];
        var more := SubmitLine(host);
        sent := sent + more;
      }
    }

    /** The per-byte loop over a chunk. */
    method ReceiveKeys(data: seq<byte>) returns (sent: seq<string>)
      requires Valid()
      modifies this
      ensures Valid()
      ensures (State(), sent) == Keys(allCommands, old(State()), data)
      ensures escapeBuffer == old(escapeBuffer)
    {
      ghost var c0 := State();
      sent := [];
      var i := 0;
      while i < |data|
        invariant 0 <= i <= |data|
        invariant Valid()
        invariant (State(), sent) == Keys(allCommands, c0, data[..i])
        invariant escapeBuffer == old(escapeBuffer)
      {
        var out := ReceiveKey(data[i]);
        assert data[..i + 1][..i] == data[..i];
        KeysLast(allCommands, c0, data[..i + 1]);
        sent := sent + out;
        i := i + 1;
      }
      assert data[..i] == data;
    }
  }

  /** The scan of a chunk for a line ending (CR or LF). */
  method FindLineEnd(data: seq<byte>) returns (found: bool)
    ensures found == HasLineEnd(data)
  {
    var j := 0;
    while j < |data|
      invariant 0 <= j <= |data|
      invariant forall m :: 0 <= m < j ==> data[m] !in {10, 13}
    {
      if data[j] == 10 || data[j] == 13 {
        return true;
      }
      j := j + 1;
    }
    return false;
  }

  // ---------------------------------------------------------------------
  // The status-bar counters
  // ---------------------------------------------------------------------

  class Tui {
    var isConnected: bool
    var peerType: string
    var serialInCount: nat
    var serialOutCount: nat

    /** A disconnected status never shows a peer. */
    predicate Valid()
      reads this
    {
      !isConnected ==> peerType == []
    }

    constructor ()
      ensures Valid() && !isConnected && serialInCount == 0 && serialOutCount == 0
    {
      isConnected := false;
      peerType := "";
      serialInCount := 0;
      serialOutCount := 0;
    }

    /** `set_connected`: whatever the earlier status, afterwards the status
        is `state`, with `peer` shown exactly while connected. */
    method SetConnected(state: bool, peer: string)
      requires Valid()
      modifies this
      ensures Valid()
      ensures isConnected == state && peerType == (if state then peer else "")
      ensures serialInCount == old(serialInCount) && serialOutCount == old(serialOutCount)
    {
      if isConnected != state || (state && peerType != peer) {
        isConnected := state;
        if state {
          peerType := peer;
        } else {
          peerType := "";
        }
      }
    }

    method IncrementIn()
      modifies this
      ensures serialInCount == old(serialInCount) + 1 && serialOutCount == old(serialOutCount)
      ensures isConnected == old(isConnected) && peerType == old(peerType)
    {
      serialInCount := serialInCount + 1;
    }

    method IncrementOut()
      modifies this
      ensures serialOutCount == old(serialOutCount) + 1 && serialInCount == old(serialInCount)
      ensures isConnected == old(isConnected) && peerType == old(peerType)
    {
      serialOutCount := serialOutCount + 1;
    }
  }
}
