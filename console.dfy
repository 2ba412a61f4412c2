/** What the two Cisco-like console emulators (serial_emu.py and
    serial_device_0.0.1.py) share: output line-ending normalisation, the
    argument validators and first-prefix dispatch over an ordered command
    table. */
module Console {
  import opened Text

  datatype ExecMode = UserExec | PrivilegedExec | ConfigMode

  /** What an interpreter cannot compute itself: the shell (an opaque
      function from command to output) and the time-dependent texts of
      `show version` and `show clock`. */
  datatype Host = Host(exec: string -> string, versionText: string, clockText: string)

  // ---------------------------------------------------------------------
  // _normalize_line_endings: three successive `str.replace` calls
  // ---------------------------------------------------------------------

  /** `s.replace('\r\n', '\n')` (left to right, non-overlapping). */
  function CollapseCrLf(s: string): string
    decreases |s|
  {
    if |s| >= 2 && s[0] == '\r' && s[1] == '\n' then "\n" + CollapseCrLf(s[2..])
    else if s == [] then []
    else [s[0]] + CollapseCrLf(s[1..])
  }

  /** `s.replace('\r', '\n')` */
  function CrToLf(s: string): (r: string)
    ensures |r| == |s|
    ensures forall i :: 0 <= i < |s| ==> r[i] == if s[i] == '\r' then '\n' else s[i]
  {
    if s == [] then [] else [if s[0] == '\r' then '\n' else s[0]] + CrToLf(s[1..])
  }

  /** `s.replace('\n', '\r\n')` */
  function LfToCrLf(s: string): string
  {
    if s == [] then [] else (if s[0] == '\n' then "\r\n" else [s[0]]) + LfToCrLf(s[1..])
  }

  /** The text the emulator writes for a `str` it sends: CR LF, lone CR and
      lone LF all become CR LF; an empty text is returned as it is. */
  function NormalizeLineEndings(text: string): string {
    if text == [] then text else LfToCrLf(CrToLf(CollapseCrLf(text)))
  }

  /** Serial line discipline: the text is a sequence of CR LF pairs and of
      characters that are neither CR nor LF. */
  predicate CrLfOnly(s: string)
    decreases |s|
  {
    if s == [] then true
    else if s[0] == '\r' then |s| >= 2 && s[1] == '\n' && CrLfOnly(s[2..])
    else s[0] != '\n' && CrLfOnly(s[1..])
  }

  /** At position `i`, an LF has a CR before it and a CR has an LF after it. */
  predicate PairedAt(s: string, i: int)
    requires 0 <= i < |s|
  {
    (s[i] == '\n' ==> 0 < i && s[i - 1] == '\r') && (s[i] == '\r' ==> i + 1 < |s| && s[i + 1] == '\n')
  }

  /** `CrLfOnly` says exactly: every LF is preceded by a CR and every CR is
      followed by an LF. */
  lemma {:induction false} CrLfOnlyMeans(s: string)
    ensures CrLfOnly(s) <==> forall i :: 0 <= i < |s| ==> PairedAt(s, i)
    decreases |s|
  {
    if s != [] {
      var k := if |s| >= 2 && s[0] == '\r' && s[1] == '\n' then 2 else 1;
      var t := s[k..];
      CrLfOnlyMeans(t);
      assert Shift: forall j :: 0 <= j < |t| ==> (PairedAt(t, j) <==> PairedAt(s, j + k)) by {
        forall j | 0 <= j < |t| ensures PairedAt(t, j) <==> PairedAt(s, j + k) {
          assert s[j + k] == t[j];
          if j > 0 {
            assert s[j + k - 1] == t[j - 1];
          }
          if j + 1 < |t| {
            assert s[j + k + 1] == t[j + 1];
          }
          if j == 0 && k == 2 {
            assert s[k - 1] == '\n';
          }
        }
      }
      if CrLfOnly(s) {
        assert CrLfOnly(t);
        forall i | 0 <= i < |s| ensures PairedAt(s, i) {
          if i >= k {
            assert PairedAt(t, i - k);
          } else if k == 1 {
            if |t| > 0 {
              assert PairedAt(t, 0);
            }
          }
        }
      } else if forall i :: 0 <= i < |s| ==> PairedAt(s, i) {
        assert PairedAt(s, 0);
        forall j | 0 <= j < |t| ensures PairedAt(t, j) {
          assert PairedAt(s, j + k);
        }
        assert false;
      }
    }
  }

  /** Text without CR or LF is trivially in CR LF discipline. */
  lemma PlainCrLfOnly(s: string)
    requires forall i :: 0 <= i < |s| ==> s[i] != '\r' && s[i] != '\n'
    ensures CrLfOnly(s)
  {
    if s != [] {
      PlainCrLfOnly(s[1..]);
    }
  }

  /** CR LF discipline is closed under concatenation. */
  lemma {:induction false} CrLfOnlyConcat(a: string, b: string)
    requires CrLfOnly(a) && CrLfOnly(b)
    ensures CrLfOnly(a + b)
    decreases |a|
  {
    if a != [] {
      var k := if |a| >= 2 && a[0] == '\r' && a[1] == '\n' then 2 else 1;
      CrLfOnlyConcat(a[k..], b);
      assert (a + b)[k..] == a[k..] + b;
    } else {
      assert a + b == b;
    }
  }

  lemma LfToCrLfConcat(a: string, b: string)
    ensures LfToCrLf(a + b) == LfToCrLf(a) + LfToCrLf(b)
  {
    if a == [] {
      assert a + b == b;
    } else {
      var head := if a[0] == '\n' then "\r\n" else [a[0]];
      assert (a + b)[0] == a[0];
      assert (a + b)[1..] == a[1..] + b;
      LfToCrLfConcat(a[1..], b);
      calc {
        LfToCrLf(a + b);
        head + LfToCrLf(a[1..] + b);
        head + (LfToCrLf(a[1..]) + LfToCrLf(b));
        (head + LfToCrLf(a[1..])) + LfToCrLf(b);
        { assert LfToCrLf(a) == head + LfToCrLf(a[1..]); }
        LfToCrLf(a) + LfToCrLf(b);
      }
    }
  }

  lemma CrToLfConcat(a: string, b: string)
    ensures CrToLf(a + b) == CrToLf(a) + CrToLf(b)
  {
  }

  lemma {:induction false} LfToCrLfWellFormed(s: string)
    requires forall i :: 0 <= i < |s| ==> s[i] != '\r'
    ensures CrLfOnly(LfToCrLf(s))
    decreases |s|
  {
    if s != [] {
      LfToCrLfWellFormed(s[1..]);
      var r := LfToCrLf(s);
      if s[0] == '\n' {
        assert r == "\r\n" + LfToCrLf(s[1..]);
        assert r[2..] == LfToCrLf(s[1..]);
      } else {
        assert r == [s[0]] + LfToCrLf(s[1..]);
        assert r[1..] == LfToCrLf(s[1..]);
      }
    }
  }

  /** Whatever text is sent, what reaches the line is in CR LF discipline. */
  lemma NormalizeWellFormed(text: string)
    ensures CrLfOnly(NormalizeLineEndings(text))
  {
    if text != [] {
      LfToCrLfWellFormed(CrToLf(CollapseCrLf(text)));
    }
  }

  /** Text already in CR LF discipline is sent unchanged. */
  lemma {:induction false} NormalizeFixesWellFormed(w: string)
    requires CrLfOnly(w)
    ensures NormalizeLineEndings(w) == w
    decreases |w|
  {
    if w != [] {
      if |w| >= 2 && w[0] == '\r' && w[1] == '\n' {
        var rest := w[2..];
        assert CrLfOnly(rest);
        NormalizeFixesWellFormed(rest);
        assert CollapseCrLf(w) == "\n" + CollapseCrLf(rest);
        CrToLfConcat("\n", CollapseCrLf(rest));
        LfToCrLfConcat("\n", CrToLf(CollapseCrLf(rest)));
        assert LfToCrLf("\n") == "\r\n";
        if rest == [] {
          assert w == "\r\n";
        } else {
          assert w == "\r\n" + rest;
        }
      } else {
        var rest := w[1..];
        assert CrLfOnly(rest);
        NormalizeFixesWellFormed(rest);
        assert CollapseCrLf(w) == [w[0]] + CollapseCrLf(rest);
        CrToLfConcat([w[0]], CollapseCrLf(rest));
        LfToCrLfConcat([w[0]], CrToLf(CollapseCrLf(rest)));
        assert w == [w[0]] + rest;
      }
    }
  }

  /** Normalising twice is normalising once. */
  lemma NormalizeIdempotent(text: string)
    ensures NormalizeLineEndings(NormalizeLineEndings(text)) == NormalizeLineEndings(text)
  {
    NormalizeWellFormed(text);
    NormalizeFixesWellFormed(NormalizeLineEndings(text));
  }

  // ---------------------------------------------------------------------
  // _get_prompt
  // ---------------------------------------------------------------------

  function Prompt(hostname: string, mode: ExecMode): string {
    match mode
    case ConfigMode => hostname + "(config)# "
    case PrivilegedExec => hostname + "# "
    case UserExec => hostname + "> "
  }

  // ---------------------------------------------------------------------
  // validate_line_format / validate_comport / validate_namedpipe
  // ---------------------------------------------------------------------

  /** `s.replace('N', '')` */
  function RemoveN(s: string): (r: string)
    ensures forall i :: 0 <= i < |r| ==> r[i] != 'N'
    ensures |r| <= |s|
  {
    if s == [] then [] else (if s[0] == 'N' then [] else [s[0]]) + RemoveN(s[1..])
  }

  predicate Digits(s: string) {
    forall i :: 0 <= i < |s| ==> IsDigit(s[i])
  }

  predicate Zeros(s: string) {
    forall i :: 0 <= i < |s| ==> s[i] == '0'
  }

  /** `float(t) in [1.0, 1.5, 2.0]` for decimal spellings: optional
      surrounding whitespace, an optional `+`, then digits with at most one
      decimal point (Python's exponent, underscore and `inf`/`nan` spellings
      never denote these values except through an exponent, which is not
      modelled). */
  predicate StopBitsSpelling(t: string) {
    StopBitsStripped(Strip(t))
  }

  /** The same test on the stripped text: one leading `+` dropped, then
      integer digits, optionally a `.` and fraction digits. */
  predicate StopBitsStripped(u: string) {
    var v := if u != [] && u[0] == '+' then u[1..] else u;
    var dot := Find(v, ".");
    var ip := if dot < 0 then v else v[..dot];
    var fp := if dot < 0 then "" else v[dot + 1..];
    && Digits(ip) && Digits(fp) && |ip| + |fp| > 0
    && ((DecValue(ip) in {1, 2} && Zeros(fp))
        || (DecValue(ip) == 1 && fp != [] && fp[0] == '5' && Zeros(fp[1..])))
  }

  /** validate_line_format: data bits 5-8, parity N/O/E in either case, and
      the rest (with every upper-case `N` removed) spelling 1, 1.5 or 2. */
  predicate ValidateLineFormat(p: string) {
    && |p| >= 4
    && '5' <= p[0] <= '8'
    && UpperChar(p[1]) in {'N', 'O', 'E'}
    && StopBitsSpelling(RemoveN(p[2..]))
  }

  /** The accepted-format table the program declares beside the validator. */
  const ValidLineFormats: set<string> := {
    "5N1N", "5N1.5N", "5N2N", "6N1N", "6N1.5N", "6N2N",
    "7N1N", "7N1.5N", "7N2N", "8N1N", "8N1.5N", "8N2N",
    "5O1N", "5O1.5N", "5O2N", "6O1N", "6O1.5N", "6O2N",
    "7O1N", "7O1.5N", "7O2N", "8O1N", "8O1.5N", "8O2N",
    "5E1N", "5E1.5N", "5E2N", "6E1N", "6E1.5N", "6E2N",
    "7E1N", "7E1.5N", "7E2N", "8E1N", "8E1.5N", "8E2N"}

  /** validate_comport: `COMn` (any case, digits after) on Windows, a
      `/dev/tty` prefix elsewhere; empty names never. */
  predicate ValidateComport(port: string, win32: bool) {
    && port != []
    && if win32 then |port| >= 3 && Lower(port[..3]) == "com" && AllDigits(port[3..])
       else StartsWith(port, "/dev/tty")
  }

  /** validate_namedpipe: non-empty, Windows only, letters, digits and `_`. */
  predicate ValidateNamedpipe(name: string, win32: bool) {
    name != [] && win32 && forall i :: 0 <= i < |name| ==> IsAlnum(name[i]) || name[i] == '_'
  }

  /** The port names accepted: `COM` (in any case) followed by at least one
      digit on Windows, and never a bare `COM` or a device path there; a
      `/dev/tty` path elsewhere, and never a Windows name there. */
  lemma ComportForms(d: string, p: string)
    requires AllDigits(d)
    ensures ValidateComport("COM" + d, true) && ValidateComport("com" + d, true)
    ensures !ValidateComport("COM", true) && !ValidateComport("/dev/ttyS0", true)
    ensures ValidateComport("/dev/tty" + p, false) && !ValidateComport("COM" + d, false)
  {
    assert ("COM" + d)[..3] == "COM" && ("COM" + d)[3..] == d;
    assert ("com" + d)[..3] == "com" && ("com" + d)[3..] == d;
    assert "/dev/ttyS0"[..3] == "/de";
    assert ("/dev/tty" + p)[..8] == "/dev/tty";
    assert ("COM" + d)[0] == 'C';
  }

  /** A named pipe is refused off Windows whatever its name, and on Windows
      exactly the non-empty names of letters, digits and `_` pass. */
  lemma NamedpipeForms(name: string, u: char)
    requires u != '_' && !IsAlnum(u)
    ensures !ValidateNamedpipe(name, false)
    ensures !ValidateNamedpipe(name + [u], true) && !ValidateNamedpipe("", true)
    ensures ValidateNamedpipe("pipe_1", true)
  {
    assert (name + [u])[|name|] == u;
  }

  lemma OneAndHalfAccepted()
    ensures StopBitsSpelling(RemoveN("1.5N"))
  {
    assert RemoveN("1.5N") == "1.5" by {
      assert "1.5N"[1..] == ".5N" && ".5N"[1..] == "5N" && "5N"[1..] == "N";
    }
    PlainStrip("1.5");
    OneAndHalfStripped();
  }

  lemma OneAndHalfStripped()
    ensures StopBitsStripped("1.5")
  {
    DotOfOneAndHalf();
    assert "1.5"[..1] == "1" && "1.5"[2..] == "5";
    assert DecValue("1") == 1;
  }

  lemma DotOfOneAndHalf()
    ensures Find("1.5", ".") == 1
  {
    assert "1.5"[..1] == "1" && "1.5"[1..] == ".5" && ".5"[..1] == ".";
  }

  /** A single digit 1 or 2 is a valid spelling. */
  lemma DigitStripped(d: char)
    requires d == '1' || d == '2'
    ensures StopBitsStripped([d])
  {
    assert Find([d], ".") == -1 by {
      assert [d][..1] == [d] && [d][1..] == [];
    }
    assert DecValue([d]) == DigitValue(d);
  }

  lemma OneAccepted()
    ensures StopBitsSpelling(RemoveN("1N"))
  {
    assert RemoveN("1N") == "1" by {
      assert "1N"[1..] == "N";
    }
    PlainStrip("1");
    DigitStripped('1');
  }

  lemma TwoAccepted()
    ensures StopBitsSpelling(RemoveN("2N"))
  {
    assert RemoveN("2N") == "2" by {
      assert "2N"[1..] == "N";
    }
    PlainStrip("2");
    DigitStripped('2');
  }

  lemma StopBitsAccepted(st: string)
    requires st in {"1N", "1.5N", "2N"}
    ensures StopBitsSpelling(RemoveN(st))
  {
    if st == "1N" {
      OneAccepted();
    } else if st == "2N" {
      TwoAccepted();
    } else {
      OneAndHalfAccepted();
    }
  }

  lemma FormatAccepted(d: char, p: char, st: string)
    requires '5' <= d <= '8' && p in {'N', 'O', 'E'} && st in {"1N", "1.5N", "2N"}
    ensures ValidateLineFormat([d, p] + st)
  {
    var f := [d, p] + st;
    assert f[2..] == st;
    StopBitsAccepted(st);
  }

  /** Every format of the declared table passes the validator. */
  lemma TableAccepted()
    ensures forall f :: f in ValidLineFormats ==> ValidateLineFormat(f)
  {
    forall f | f in ValidLineFormats ensures ValidateLineFormat(f) {
      assert f == [f[0], f[1]] + f[2..];
      FormatAccepted(f[0], f[1], f[2..]);
    }
  }

  // ---------------------------------------------------------------------
  // Dispatch: the ordered builtin table, then custom, then platform commands
  // ---------------------------------------------------------------------

  /** The position of the first table entry whose name is a prefix of `cmd`
      (the `for cmd_name in builtin_commands: if startswith` loop). */
  function FirstPrefix<H>(table: seq<(string, H)>, cmd: string): (r: Option<nat>)
    ensures r.Some? ==> r.value < |table| && StartsWith(cmd, table[r.value].0)
    ensures r.Some? ==> forall j :: 0 <= j < r.value ==> !StartsWith(cmd, table[j].0)
    ensures r.None? ==> forall j :: 0 <= j < |table| ==> !StartsWith(cmd, table[j].0)
  {
    if table == [] then None
    else if StartsWith(cmd, table[0].0) then Some(0)
    else match FirstPrefix(table[1..], cmd)
      case None => None
      case Some(k) => Some(k + 1)
  }

  /** The shell command of the entry named exactly `cmd` (a dictionary
      lookup; names in a dictionary are distinct, so the first is the one). */
  function FirstExact(table: seq<(string, string)>, cmd: string): (r: Option<string>)
    ensures r.Some? <==> exists j :: 0 <= j < |table| && table[j].0 == cmd
    ensures r.Some? ==> exists j :: 0 <= j < |table| && table[j] == (cmd, r.value)
  {
    if table == [] then None
    else if table[0].0 == cmd then Some(table[0].1)
    else
      var r := FirstExact(table[1..], cmd);
      assert forall j :: 1 <= j < |table| ==> table[j] == table[1..][j - 1];
      r
  }

  datatype Route<H> = Builtin(handler: H, args: string) | Custom(shell: string) | Platform(shell: string) | Unknown

  /** `process_command` after history: which handler or shell command a
      lower-cased, stripped command line reaches. */
  function RouteCommand<H>(table: seq<(string, H)>, cmd: string,
                           custom: seq<(string, string)>, platform: seq<(string, string)>): Route<H>
  {
    match FirstPrefix(table, cmd)
    case Some(i) => Builtin(table[i].1, Strip(cmd[|table[i].0|..]))
    case None =>
      match FirstExact(custom, cmd)
      case Some(sh) => Custom(sh)
      case None =>
        match FirstExact(platform, cmd)
        case Some(sh) => Platform(sh)
        case None => Unknown
  }

  /** Dispatch order: a builtin is chosen exactly when some table name is a
      prefix of the command, and then it is the first such entry in table
      order, with the stripped remainder as arguments; otherwise an exact
      custom name, otherwise an exact platform name, otherwise unknown. */
  lemma RouteSpec<H>(table: seq<(string, H)>, cmd: string,
                     custom: seq<(string, string)>, platform: seq<(string, string)>)
    ensures var r := RouteCommand(table, cmd, custom, platform);
      && (r.Builtin? <==> exists j :: 0 <= j < |table| && StartsWith(cmd, table[j].0))
      && (r.Builtin? ==>
            exists i ::
              && 0 <= i < |table| && StartsWith(cmd, table[i].0)
              && (forall j :: 0 <= j < i ==> !StartsWith(cmd, table[j].0))
              && r.handler == table[i].1 && r.args == Strip(cmd[|table[i].0|..]))
      && (r.Custom? <==> !r.Builtin? && exists j :: 0 <= j < |custom| && custom[j].0 == cmd)
      && (r.Custom? ==> exists j :: 0 <= j < |custom| && custom[j] == (cmd, r.shell))
      && (r.Platform? <==> !r.Builtin? && !r.Custom? && exists j :: 0 <= j < |platform| && platform[j].0 == cmd)
      && (r.Platform? ==> exists j :: 0 <= j < |platform| && platform[j] == (cmd, r.shell))
  {
    var r := RouteCommand(table, cmd, custom, platform);
    match FirstPrefix(table, cmd)
    case Some(i) =>
      assert StartsWith(cmd, table[i].0);
    case None =>
  }

  /** The dispatch loop over the command table, in table order. */
  method FindPrefix<H>(table: seq<(string, H)>, cmd: string) returns (r: Option<nat>)
    ensures r == FirstPrefix(table, cmd)
  {
    var i := 0;
    while i < |table|
      invariant 0 <= i <= |table|
      invariant forall j :: 0 <= j < i ==> !StartsWith(cmd, table[j].0)
    {
      if StartsWith(cmd, table[i].0) {
        var f := FirstPrefix(table, cmd);
        assert f.Some? && f.value == i by {
          if f.None? || f.value < i {
            assert false;
          }
        }
        return Some(i);
      }
      i := i + 1;
    }
    return None;
  }

  /** The dictionary lookup `cmd in table`, `table[cmd]`. */
  method FindExact(table: seq<(string, string)>, cmd: string) returns (r: Option<string>)
    ensures r == FirstExact(table, cmd)
  {
    var k := 0;
    while k < |table|
      invariant 0 <= k <= |table|
      invariant forall j :: 0 <= j < k ==> table[j].0 != cmd
    {
      if table[k].0 == cmd {
        FirstExactAt(table, cmd, k);
        return Some(table[k].1);
      }
      k := k + 1;
    }
    return None;
  }

  lemma {:induction false} FirstExactAt(table: seq<(string, string)>, cmd: string, k: nat)
    requires k < |table| && table[k].0 == cmd
    requires forall j :: 0 <= j < k ==> table[j].0 != cmd
    ensures FirstExact(table, cmd) == Some(table[k].1)
  {
    if k > 0 {
      FirstExactAt(table[1..], cmd, k - 1);
    }
  }

  /** `_cmd_history`'s listing of the last twenty entries, numbered from 1. */
  function HistoryLines(h: seq<string>, n: nat): string
    decreases |h|
  {
    if h == [] then [] else HistoryLine(n, h[0]) + HistoryLines(h[1..], n + 1)
  }

  /** One numbered line of the history listing. */
  function HistoryLine(n: nat, cmd: string): string {
    "  " + NatToDec(n) + ": " + cmd + "\n"
  }

  function HistoryText(history: seq<string>): string {
    if history == [] then "No history\n"
    else "Command history:\n" + HistoryLines(history[|history| - if |history| < 20 then |history| else 20..], 1)
  }

  /** The loop of `_cmd_history`. */
  method FormatHistory(history: seq<string>) returns (out: string)
    ensures out == HistoryText(history)
  {
    if history == [] {
      return "No history\n";
    }
    var recent := history[|history| - if |history| < 20 then |history| else 20..];
    out := "Command history:\n";
    var i := 0;
    while i < |recent|
      invariant 0 <= i <= |recent|
      invariant out + HistoryLines(recent[i..], i + 1) == "Command history:\n" + HistoryLines(recent, 1)
    {
      HistoryStep(out, recent, i);
      out := out + HistoryLine(i + 1, recent[i]);
      i := i + 1;
    }
  }

  lemma HistoryStep(out: string, h: seq<string>, i: nat)
    requires i < |h|
    ensures out + HistoryLines(h[i..], i + 1) == (out + HistoryLine(i + 1, h[i])) + HistoryLines(h[i + 1..], i + 2)
  {
    assert h[i..][1..] == h[i + 1..];
  }
}
