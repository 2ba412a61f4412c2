/** The bridge of serial_bridge_0.0.70_LinWin.py: it connects a local serial
    port to a remote server and relays bytes both ways. Modelled here are its
    two sanitisers (`_strip_ansi_codes` for data log files and
    `_sanitize_for_tui` for the screen), the handling of one chunk received
    from the server in `run` (control tokens, replies, the `serial_ready`
    gate, token stripping), the traffic counters, the bounded log and
    transfer buffers and `validate_args`.

    Network and serial data are byte strings; as in the client model, each
    byte is written as the character with the same code. The regular
    expressions the bridge applies are modelled as explicit scanners
    (`MatchLen`, `Sub`) that follow Python's `re.sub`: leftmost match first,
    greedy repetition with backtracking, scanning resumed after each
    replacement. */
module SoeBridge {
  import opened Text
  import opened Protocol

  const CodeVersion := "0.0.70"
  const Esc: char := '\U{1b}'

  // ---------------------------------------------------------------------
  // Regular expressions as scanners
  // ---------------------------------------------------------------------

  /** The character classes the patterns repeat. */
  datatype CharClass =
    | SgrParam   // [0-9;]
    | CsiParam   // [0-9;?]
    | NotHash    // [^#]

  predicate InClass(c: char, cls: CharClass) {
    match cls
    case SgrParam => IsDigit(c) || c == ';'
    case CsiParam => IsDigit(c) || c == ';' || c == '?'
    case NotHash => c != '#'
  }

  predicate IsLetter(c: char) {
    ('a' <= c <= 'z') || ('A' <= c <= 'Z')
  }

  /** The patterns of the bridge's `re.sub` calls. */
  datatype Pattern =
    | Sgr            // rb'\[[0-9;]*[0-9A-Za-z]'
    | Lit(t: string) // a literal, such as rb'\[K'
    | Csi            // r'\x1b\[[0-9;?]*[a-zA-Z]'
    | Token          // b"__#[^#]*#__"

  /** Where a greedy `[class]*` starting at `i` stops. */
  function RunEnd(s: string, i: nat, cls: CharClass): (j: nat)
    requires i <= |s|
    ensures i <= j <= |s|
    ensures forall k :: i <= k < j ==> InClass(s[k], cls)
    ensures j < |s| ==> !InClass(s[j], cls)
    decreases |s| - i
  {
    if i < |s| && InClass(s[i], cls) then RunEnd(s, i + 1, cls) else i
  }

  /** The last digit in `s[lo..hi]`, or -1: where backtracking out of
      `[0-9;]*` first finds a `[0-9A-Za-z]`. */
  function LastDigit(s: string, lo: nat, hi: nat): (m: int)
    requires lo <= hi <= |s|
    ensures m == -1 || (lo <= m < hi && IsDigit(s[m]))
    ensures forall k :: lo <= k < hi && m < k ==> !IsDigit(s[k])
    decreases hi - lo
  {
    if hi == lo then -1
    else if IsDigit(s[hi - 1]) then hi - 1
    else LastDigit(s, lo, hi - 1)
  }

  /** The length of the match of `p` at the start of `s`; 0 when there is
      none (no pattern here matches the empty string). */
  function MatchLen(s: string, p: Pattern): (n: nat)
    ensures n <= |s|
  {
    match p
    case Sgr =>
      if s == [] || s[0] != '[' then 0
      else
        var j := RunEnd(s, 1, SgrParam);
        if j < |s| && IsAlnum(s[j]) then j + 1
        else
          var m := LastDigit(s, 1, j);
          if m < 0 then 0 else m + 1
    case Lit(t) =>
      if StartsWith(s, t) then |t| else 0
    case Csi =>
      if |s| < 2 || s[0] != Esc || s[1] != '[' then 0
      else
        var j := RunEnd(s, 2, CsiParam);
        if j < |s| && IsLetter(s[j]) then j + 1 else 0
    case Token =>
      if !StartsWith(s, TokenOpen) then 0
      else
        var j := RunEnd(s, 3, NotHash);
        if j + 3 <= |s| && s[j..j + 3] == TokenClose then j + 3 else 0
  }

  /** `re.sub(p, "", s)` */
  function Sub(s: string, p: Pattern): (r: string)
    ensures |r| <= |s|
    decreases |s|
  {
    if s == [] then []
    else
      var n := MatchLen(s, p);
      if n > 0 then Sub(s[n..], p) else [s[0]] + Sub(s[1..], p)
  }

  /** Where nothing matches, `re.sub` returns its input. */
  lemma {:induction false} SubNoMatch(s: string, p: Pattern)
    requires forall i :: 0 <= i < |s| ==> MatchLen(s[i..], p) == 0
    ensures Sub(s, p) == s
    decreases |s|
  {
    if s != [] {
      assert s[0..] == s;
      forall i | 0 <= i < |s| - 1 ensures MatchLen(s[1..][i..], p) == 0 {
        assert s[1..][i..] == s[i + 1..];
      }
      SubNoMatch(s[1..], p);
    }
  }

  /** `re.sub(rb'^\[+', b'', s)`: the leading run of '[' goes. */
  function DropLeadingBrackets(s: string): (r: string)
    ensures |r| <= |s| && r == s[|s| - |r|..]
    ensures r == [] || r[0] != '['
  {
    if s != [] && s[0] == '[' then DropLeadingBrackets(s[1..]) else s
  }

  // ---------------------------------------------------------------------
  // `_strip_ansi_codes`
  // ---------------------------------------------------------------------

  /** The bytes the final filter keeps: 32..126, TAB, LF and CR. */
  predicate KeptByte(c: char) {
    (' ' <= c <= '~') || c == '\t' || c == '\n' || c == '\r'
  }

  /** `bytes(b for b in s if (32 <= b <= 126) or b in (9, 10, 13))` */
  function KeepBytes(s: string): (r: string)
    ensures |r| <= |s|
    ensures forall i :: 0 <= i < |r| ==> KeptByte(r[i])
    decreases |s|
  {
    if s == [] then []
    else (if KeptByte(s[0]) then [s[0]] else []) + KeepBytes(s[1..])
  }

  /** The filter keeps every byte it allows, in order, and nothing else: it is
      the identity on allowed bytes and drops a byte it does not allow. */
  lemma {:induction false} KeepBytesExact(a: string, b: string)
    ensures KeepBytes(a + b) == KeepBytes(a) + KeepBytes(b)
    decreases |a|
  {
    if a != [] {
      assert (a + b)[1..] == a[1..] + b;
      KeepBytesExact(a[1..], b);
    } else {
      assert a + b == b;
    }
  }

  lemma {:induction false} KeepBytesKept(s: string)
    requires forall i :: 0 <= i < |s| ==> KeptByte(s[i])
    ensures KeepBytes(s) == s
    decreases |s|
  {
    if s != [] {
      KeepBytesKept(s[1..]);
    }
  }

  /** The byte string `_strip_ansi_codes` writes to the data log file. */
  function StripAnsi(data: string): (r: string)
    ensures |r| <= |data|
    ensures forall i :: 0 <= i < |r| ==> KeptByte(r[i])
  {
    AfterSgr(Sub(data, Sgr))
  }

  /** The steps of `_strip_ansi_codes` after the SGR pattern. */
  function AfterSgr(a: string): (r: string)
    ensures |r| <= |a|
    ensures forall i :: 0 <= i < |r| ==> KeptByte(r[i])
  {
    var b := Sub(a, Lit("[K"));
    var c := Sub(b, Lit("[m"));
    var d := Sub(c, Lit("[["));
    KeepBytes(DropLeadingBrackets(d))
  }

  /** Every pattern of `_strip_ansi_codes` starts with '['. */
  lemma NoBracketNoMatch(s: string, p: Pattern)
    requires p == Sgr || (p.Lit? && p.t != [] && p.t[0] == '[')
    requires forall i :: 0 <= i < |s| ==> s[i] != '['
    ensures Sub(s, p) == s
  {
    forall i | 0 <= i < |s| ensures MatchLen(s[i..], p) == 0 {
      assert s[i..][0] == s[i];
    }
    SubNoMatch(s, p);
  }

  /** Data without '[' loses only the bytes the filter does not allow. */
  lemma StripAnsiPlain(data: string)
    requires forall i :: 0 <= i < |data| ==> data[i] != '['
    ensures StripAnsi(data) == KeepBytes(data)
  {
    NoBracketNoMatch(data, Sgr);
    AfterSgrPlain(data);
  }

  lemma AfterSgrPlain(a: string)
    requires forall i :: 0 <= i < |a| ==> a[i] != '['
    ensures AfterSgr(a) == KeepBytes(a)
  {
    NoBracketNoMatch(a, Lit("[K"));
    NoBracketNoMatch(a, Lit("[m"));
    NoBracketNoMatch(a, Lit("[["));
  }

  /** An SGR sequence such as `ESC [ 1 ; 3 1 m` loses its bracket part; the
      ESC byte then goes with the control characters. */
  lemma StripAnsiSgr(params: string, text: string)
    requires forall i :: 0 <= i < |params| ==> IsDigit(params[i]) || params[i] == ';'
    requires forall i :: 0 <= i < |text| ==> ' ' <= text[i] <= '~' && text[i] != '['
    ensures StripAnsi([Esc, '['] + params + "m" + text) == text
  {
    SgrPass(params, text);
    AfterSgrPlain([Esc] + text);
    KeepBytesExact([Esc], text);
    KeepBytesKept(text);
  }

  lemma SgrPass(params: string, text: string)
    requires forall i :: 0 <= i < |params| ==> IsDigit(params[i]) || params[i] == ';'
    requires forall i :: 0 <= i < |text| ==> text[i] != '['
    ensures Sub([Esc, '['] + params + "m" + text, Sgr) == [Esc] + text
  {
    var t := ['['] + params + "m" + text;
    EscSplit(params, text);
    SubKeepFirst(Esc, t, Sgr);
    SgrMatch(params, text);
    SubSkip(t, Sgr, |params| + 2, text);
    NoBracketNoMatch(text, Sgr);
  }

  lemma EscSplit(params: string, text: string)
    ensures [Esc, '['] + params + "m" + text == [Esc] + (['['] + params + "m" + text)
  {
    assert [Esc, '['] == [Esc] + ['['];
    AppendThree([Esc], ['['] + params, "m", text);
    AppendTwo([Esc], ['['], params);
  }

  /** A first byte other than '[' starts no SGR match and is kept. */
  lemma SubKeepFirst(c: char, t: string, p: Pattern)
    requires p == Sgr && c != '['
    ensures Sub([c] + t, p) == [c] + Sub(t, p)
  {
    var s := [c] + t;
    assert s[0] == c && s[1..] == t;
    SubKeep(s, p);
  }

  lemma SubSkip(s: string, p: Pattern, n: nat, rest: string)
    requires 0 < n <= |s| && MatchLen(s, p) == n && s[n..] == rest
    ensures Sub(s, p) == Sub(rest, p)
  {
  }

  lemma SubKeep(s: string, p: Pattern)
    requires s != [] && MatchLen(s, p) == 0
    ensures Sub(s, p) == [s[0]] + Sub(s[1..], p)
  {
  }

  lemma SgrMatch(params: string, text: string)
    requires forall i :: 0 <= i < |params| ==> IsDigit(params[i]) || params[i] == ';'
    ensures MatchLen(['['] + params + "m" + text, Sgr) == |params| + 2
    ensures (['['] + params + "m" + text)[|params| + 2..] == text
  {
    var t := ['['] + params + "m" + text;
    var j := RunEnd(t, 1, SgrParam);
    assert t[1 + |params|] == 'm';
    assert forall k :: 1 <= k < 1 + |params| ==> t[k] == params[k - 1];
    assert !InClass(t[1 + |params|], SgrParam);
  }

  // ---------------------------------------------------------------------
  // `_sanitize_for_tui`
  // ---------------------------------------------------------------------

  /** `s.replace(c, t)` for a single character `c`. */
  function ReplaceChar(s: string, c: char, t: string): (r: string)
    ensures c !in s ==> r == s
    decreases |s|
  {
    if s == [] then []
    else (if s[0] == c then t else [s[0]]) + ReplaceChar(s[1..], c, t)
  }

  /** `''.join(ch for ch in s if ord(ch) >= 32)` */
  function DropControls(s: string): (r: string)
    ensures |r| <= |s|
    ensures forall i :: 0 <= i < |r| ==> r[i] >= ' '
    ensures (forall i :: 0 <= i < |s| ==> s[i] >= ' ') ==> r == s
    decreases |s|
  {
    if s == [] then []
    else (if s[0] >= ' ' then [s[0]] else []) + DropControls(s[1..])
  }

  /** The text a log line shows on screen. */
  function Sanitize(text: string): (r: string)
    ensures Printable(r)
  {
    var a := Sub(text, Csi);
    var b := ReplaceChar(ReplaceChar(ReplaceChar(a, '\n', " "), '\r', ""), '\t', "    ");
    DropControls(b)
  }

  /** What one character becomes on screen when no escape sequence is
      involved: LF a space, TAB four spaces, CR and other control characters
      nothing. */
  function Shown(c: char): string {
    if c == '\n' then " " else if c == '\t' then "    " else if c < ' ' then "" else [c]
  }

  lemma {:induction false} ReplaceCharConcat(a: string, b: string, c: char, t: string)
    ensures ReplaceChar(a + b, c, t) == ReplaceChar(a, c, t) + ReplaceChar(b, c, t)
    decreases |a|
  {
    if a != [] {
      var h := if a[0] == c then t else [a[0]];
      assert (a + b)[0] == a[0] && (a + b)[1..] == a[1..] + b;
      ReplaceCharConcat(a[1..], b, c, t);
      assert ReplaceChar(a + b, c, t) == h + ReplaceChar(a[1..] + b, c, t);
      assert ReplaceChar(a, c, t) == h + ReplaceChar(a[1..], c, t);
      AppendTwo(h, ReplaceChar(a[1..], c, t), ReplaceChar(b, c, t));
    } else {
      assert a + b == b;
    }
  }

  lemma {:induction false} DropControlsConcat(a: string, b: string)
    ensures DropControls(a + b) == DropControls(a) + DropControls(b)
    decreases |a|
  {
    if a != [] {
      assert (a + b)[1..] == a[1..] + b;
      DropControlsConcat(a[1..], b);
    } else {
      assert a + b == b;
    }
  }

  /** Replacing and filtering, character by character. */
  function Layout(s: string): string
    decreases |s|
  {
    if s == [] then [] else Shown(s[0]) + Layout(s[1..])
  }

  lemma ShownOne(c: char)
    ensures DropControls(ReplaceChar(ReplaceChar(ReplaceChar([c], '\n', " "), '\r', ""), '\t', "    ")) == Shown(c)
  {
    if c == '\n' {
      assert ReplaceChar([c], '\n', " ") == " ";
    } else if c == '\r' {
      assert ReplaceChar([c], '\n', " ") == [c];
      assert ReplaceChar([c], '\r', "") == "";
    } else if c == '\t' {
      assert ReplaceChar(ReplaceChar([c], '\n', " "), '\r', "") == [c];
      assert ReplaceChar([c], '\t', "    ") == "    ";
    } else {
      assert ReplaceChar([c], '\n', " ") == [c];
      assert ReplaceChar([c], '\r', "") == [c];
      assert ReplaceChar([c], '\t', "    ") == [c];
    }
  }

  /** The replacement and filter steps of `_sanitize_for_tui` act on each
      character separately. */
  lemma {:induction false} LayoutSteps(s: string)
    ensures DropControls(ReplaceChar(ReplaceChar(ReplaceChar(s, '\n', " "), '\r', ""), '\t', "    ")) == Layout(s)
    decreases |s|
  {
    if s != [] {
      var c := s[0];
      assert s == [c] + s[1..];
      ReplaceCharConcat([c], s[1..], '\n', " ");
      var a1 := ReplaceChar([c], '\n', " ");
      var a2 := ReplaceChar(s[1..], '\n', " ");
      ReplaceCharConcat(a1, a2, '\r', "");
      var b1 := ReplaceChar(a1, '\r', "");
      var b2 := ReplaceChar(a2, '\r', "");
      ReplaceCharConcat(b1, b2, '\t', "    ");
      DropControlsConcat(ReplaceChar(b1, '\t', "    "), ReplaceChar(b2, '\t', "    "));
      ShownOne(c);
      LayoutSteps(s[1..]);
    }
  }

  /** Text without ESC is laid out character by character. */
  lemma SanitizePlain(text: string)
    requires Esc !in text
    ensures Sanitize(text) == Layout(text)
  {
    forall i | 0 <= i < |text| ensures MatchLen(text[i..], Csi) == 0 {
      assert text[i..][0] == text[i];
    }
    SubNoMatch(text, Csi);
    LayoutSteps(text);
  }

  /** Sanitising twice is sanitising once. */
  lemma SanitizeIdempotent(text: string)
    ensures Sanitize(Sanitize(text)) == Sanitize(text)
  {
    var r := Sanitize(text);
    forall i | 0 <= i < |r| ensures r[i] != Esc {
    }
    assert Esc !in r;
    SanitizePlain(r);
    LayoutPrintable(r);
  }

  lemma {:induction false} LayoutPrintable(s: string)
    requires forall i :: 0 <= i < |s| ==> s[i] >= ' '
    ensures Layout(s) == s
    decreases |s|
  {
    if s != [] {
      LayoutPrintable(s[1..]);
    }
  }

  // ---------------------------------------------------------------------
  // Reading the server's keepalive
  // ---------------------------------------------------------------------

  /** Python's `int(s)` on text: surrounding whitespace, an optional sign and
      at least one decimal digit; `None` where `int` raises. */
  function ParseInt(s: string): (r: Option<int>)
  {
    var t := Strip(s);
    if t != [] && (t[0] == '-' || t[0] == '+') && AllDigits(t[1..]) then
      var v: int := DecValue(t[1..]);
      Some(if t[0] == '-' then -v else v)
    else if AllDigits(t) then Some(DecValue(t))
    else None
  }

  /** `int(f"{k}") == k` */
  lemma ParseIntRoundTrip(k: int)
    ensures ParseInt(IntToDec(k)) == Some(k)
  {
    var n: nat := if k < 0 then -k else k;
    NatToDecRoundTrip(n);
    if k < 0 {
      ParseNegative(NatToDec(n));
    } else {
      ParseDigits(NatToDec(n));
    }
  }

  lemma ParseDigits(d: string)
    requires AllDigits(d)
    ensures ParseInt(d) == Some(DecValue(d))
  {
    assert !IsSpace(d[0]) && !IsSpace(d[|d| - 1]);
    PlainStrip(d);
  }

  lemma ParseNegative(d: string)
    requires AllDigits(d)
    ensures ParseInt("-" + d) == Some(0 - DecValue(d) as int)
  {
    var s := "-" + d;
    assert s[0] == '-' && s[1..] == d;
    assert !IsSpace(s[0]) && !IsSpace(s[|s| - 1]);
    PlainStrip(s);
  }

  /** How the bridge rates the server's keepalive against its own. */
  datatype KaReport = KaOk(serverKa: int) | KaRisk(serverKa: int)

  /** The keepalive the server announces is safe exactly when it is longer
      than the bridge's own. */
  function Rate(serverKa: int, localKa: int): (r: KaReport)
    ensures r.serverKa == serverKa
    ensures r.KaOk? <==> serverKa > localKa
  {
    if serverKa > localKa then KaOk(serverKa) else KaRisk(serverKa)
  }

  /** The report for a chunk carrying `__#MY_KA_TIMEOUT_`: `None` when the
      chunk has none or its number does not parse (the `except: pass`). */
  function KaIn(data: string, localKa: int): (r: Option<KaReport>)
    ensures r.Some? ==> Contains(data, MyKaTimeoutCmd)
  {
    if Contains(data, MyKaTimeoutCmd) then
      match ParseInt(Field(data, MyKaTimeoutCmd, "#"))
      case Some(k) => Some(Rate(k, localKa))
      case None => None
    else None
  }

  /** The server's reply `__#MY_KA_TIMEOUT_<k>#__` is read back as `k` and
      rated. */
  lemma KaRoundTrip(k: int, localKa: int)
    ensures KaIn(MyKaTimeoutCmd + IntToDec(k) + TokenClose, localKa) == Some(Rate(k, localKa))
  {
    var d := IntToDec(k);
    IntToDecChars(k);
    assert MyKaTimeoutCmd + d + TokenClose == MyKaTimeoutCmd + (d + ("#" + "__"));
    FieldRoundTrip(MyKaTimeoutCmd, d, "#", "__");
    ParseIntRoundTrip(k);
  }

  /** `f"{k}"` is made of digits and at most a leading minus. */
  lemma IntToDecChars(k: int)
    ensures IntToDec(k) != []
    ensures forall i :: 0 <= i < |IntToDec(k)| ==> IntToDec(k)[i] == '-' || IsDigit(IntToDec(k)[i])
  {
  }

  // ---------------------------------------------------------------------
  // One chunk from the server
  // ---------------------------------------------------------------------

  /** The serial side the bridge serves: a COM port or a Windows named pipe. */
  datatype Settings = Settings(comport: string, namedpipe: Option<string>, baud: int, line: string, keepalive: int)

  /** `port_name`: `PIPE:<name>` for a named pipe, otherwise the COM port. */
  function PortName(cfg: Settings): string {
    if cfg.namedpipe.Some? then "PIPE:" + cfg.namedpipe.value else cfg.comport
  }

  /** `__#COM_PARAMS_<port> <baud> <line>#__`, the bridge's own serial
      parameters. */
  function ComParamsMsg(cfg: Settings): string {
    ComParamsTag + PortName(cfg) + " " + IntToDec(cfg.baud) + " " + cfg.line + TokenClose
  }

  /** `__#BR_VER_<version>#__`, the bridge's identification. */
  function IdMsg(): string {
    "__#BR_VER_" + CodeVersion + TokenClose
  }

  /** What the receive part of `run` keeps between chunks. */
  datatype Session = Session(keepRunning: bool, serialReady: bool, awaitingParams: bool,
                             remoteParams: string, serverVersion: string)

  /** The effect of one chunk: the new session, the messages sent back to
      the server (in order), the bytes written to the serial side ("" for
      none), whether the receive loop ends, and the keepalive report. */
  datatype Outcome = Outcome(session: Session, replies: seq<string>, forward: string, stop: bool, ka: Option<KaReport>)

  /** One pass of the receive branch of `run`, for a chunk `recv` returned. */
  function Step(s: Session, data: string, cfg: Settings): (r: Outcome)
  {
    if data == [] then Outcome(s.(keepRunning := false), [], [], true, None)
    else if Contains(data, DisconnectCmd) then Outcome(s.(keepRunning := false), [], [], true, None)
    else if Contains(data, TokenOpen) then ControlChunk(s, data, cfg)
    else Outcome(s, [], if s.serialReady then data else [], false, None)
  }

  /** The `if b"__#" in data` branch. */
  function ControlChunk(s: Session, data: string, cfg: Settings): (r: Outcome)
    requires Contains(data, TokenOpen)
  {
    if Contains(data, BadPwdMsg) then Outcome(s, [], [], true, None)
    else
      var hasVer := Contains(data, SrvVerTag);
      var s1 := if hasVer then s.(serverVersion := Field(data, SrvVerTag, "#")) else s;
      var s2 := WithParams(s1, data);
      var replies := (if hasVer then [ComParamsMsg(cfg)] else [])
        + (if Contains(data, GetVerCmd) then [IdMsg()]
           else if Contains(data, AskCmd) then [ComParamsMsg(cfg)]
           else []);
      var rest := Sub(data, Token);
      Outcome(s2, replies, if s2.serialReady then rest else [], false, KaIn(data, cfg.keepalive))
  }

  /** A COM_PARAMS reply sets the remote parameters and opens the serial
      side. The parameters are read from the stripped chunk. */
  function WithParams(s: Session, data: string): (r: Session)
    ensures r.serialReady <==> s.serialReady || Contains(data, ComParamsTag)
    ensures r.keepRunning == s.keepRunning && r.serverVersion == s.serverVersion
  {
    if Contains(data, ComParamsTag) then
      ContainsStrip(data, ComParamsTag);
      s.(remoteParams := Strip(Field(Strip(data), ComParamsTag, TokenClose)), serialReady := true, awaitingParams := false)
    else s
  }

  /** A token neither starts nor ends with whitespace, so stripping the chunk
      keeps it. */
  lemma ContainsStrip(s: string, t: string)
    requires Contains(s, t) && t != [] && !IsSpace(t[0]) && !IsSpace(t[|t| - 1])
    ensures Contains(Strip(s), t)
  {
    var a := StripSpec(s);
    ContainsInCore(s, Strip(s), a, t);
  }

  /** An occurrence of a token that does not start or end with whitespace
      lies inside the part of `s` between its leading and trailing
      whitespace. */
  lemma ContainsInCore(s: string, r: string, a: nat, t: string)
    requires Contains(s, t) && t != [] && !IsSpace(t[0]) && !IsSpace(t[|t| - 1])
    requires a + |r| <= |s| && forall k :: 0 <= k < |r| ==> r[k] == s[a + k]
    requires forall i :: 0 <= i < a ==> IsSpace(s[i])
    requires forall i :: a + |r| <= i < |s| ==> IsSpace(s[i])
    ensures Contains(r, t)
  {
    var j :| 0 <= j <= |s| && OccursAt(s, t, j);
    WithinCore(s, t, j, a, |r|);
    OccursInPart(s, r, a, t, j);
  }

  /** An occurrence inside a slice is an occurrence in the slice. */
  lemma OccursInPart(s: string, r: string, a: int, t: string, j: int)
    requires 0 <= a && a + |r| <= |s| && forall k :: 0 <= k < |r| ==> r[k] == s[a + k]
    requires OccursAt(s, t, j) && a <= j && j + |t| <= a + |r|
    ensures OccursAt(r, t, j - a) && Contains(r, t)
  {
    forall k | 0 <= k < |t| ensures r[j - a + k] == t[k] {
      assert s[j..j + |t|][k] == t[k];
    }
    assert r[j - a..j - a + |t|] == t;
    ContainsAt(r, t, j - a);
  }

  lemma EndsOfOccurrence(s: string, t: string, j: int)
    requires OccursAt(s, t, j) && t != []
    ensures s[j] == t[0] && s[j + |t| - 1] == t[|t| - 1]
  {
    assert s[j..j + |t|][0] == s[j];
    assert s[j..j + |t|][|t| - 1] == s[j + |t| - 1];
  }

  /** An occurrence that neither starts nor ends with whitespace lies
      inside the part between a whitespace prefix and a whitespace suffix. */
  lemma WithinCore(s: string, t: string, j: int, a: int, n: nat)
    requires OccursAt(s, t, j) && t != [] && !IsSpace(t[0]) && !IsSpace(t[|t| - 1])
    requires 0 <= a && a + n <= |s|
    requires forall i :: 0 <= i < a ==> IsSpace(s[i])
    requires forall i :: a + n <= i < |s| ==> IsSpace(s[i])
    ensures a <= j && j + |t| <= a + n
  {
    EndsOfOccurrence(s, t, j);
  }

  // ---------------------------------------------------------------------
  // What one chunk does
  // ---------------------------------------------------------------------

  /** An empty read (the server closed the connection) or a DISCONNECT
      anywhere in the chunk ends the session before anything else: no reply,
      nothing written to the serial side, nothing else changed. */
  lemma StepDisconnect(s: Session, data: string, cfg: Settings)
    requires data == [] || Contains(data, DisconnectCmd)
    ensures Step(s, data, cfg) == Outcome(s.(keepRunning := false), [], [], true, None)
  {
  }

  /** A rejected password ends the receive loop, leaving the session as it
      was and forwarding nothing. */
  lemma StepBadPwd(s: Session, data: string, cfg: Settings)
    requires !Contains(data, DisconnectCmd) && Contains(data, BadPwdMsg)
    ensures Step(s, data, cfg) == Outcome(s, [], [], true, None)
  {
    ContainsStart(data, BadPwdMsg, TokenOpen);
  }

  /** Every other chunk keeps the loop going, and what reaches the serial
      side is the chunk (without its tokens when it has `__#`), and only once
      the serial side is ready. */
  lemma StepForward(s: Session, data: string, cfg: Settings)
    requires data != [] && !Contains(data, DisconnectCmd) && !Contains(data, BadPwdMsg)
    ensures var r := Step(s, data, cfg);
      !r.stop && r.session.keepRunning == s.keepRunning
      && r.forward == (if !r.session.serialReady then []
                       else if Contains(data, TokenOpen) then Sub(data, Token) else data)
  {
  }

  /** Nothing is written to the serial side before it is ready. */
  lemma StepGate(s: Session, data: string, cfg: Settings)
    ensures var r := Step(s, data, cfg);
      r.forward != [] ==> r.session.serialReady
  {
  }

  /** The serial side becomes ready only through a COM_PARAMS reply, and a
      COM_PARAMS reply that does not end the session always makes it ready. */
  lemma StepReady(s: Session, data: string, cfg: Settings)
    ensures var r := Step(s, data, cfg);
      r.session.serialReady ==> s.serialReady || Contains(data, ComParamsTag)
    ensures var r := Step(s, data, cfg);
      Contains(data, ComParamsTag) && !Contains(data, DisconnectCmd) && !Contains(data, BadPwdMsg)
      ==> r.session.serialReady && !r.session.awaitingParams
  {
    if Contains(data, ComParamsTag) {
      ContainsStart(data, ComParamsTag, TokenOpen);
    }
  }

  /** The bridge identifies itself exactly when asked with GETVER, and sends
      its serial parameters when a chunk with tokens announces the server's
      version or asks with ASK (but not both ASK and GETVER in one chunk). */
  lemma StepReplies(s: Session, data: string, cfg: Settings)
    requires data != [] && !Contains(data, DisconnectCmd) && !Contains(data, BadPwdMsg)
    ensures var r := Step(s, data, cfg);
      (IdMsg() in r.replies <==> Contains(data, GetVerCmd))
      && (ComParamsMsg(cfg) in r.replies <==>
            Contains(data, TokenOpen)
            && (Contains(data, SrvVerTag) || (Contains(data, AskCmd) && !Contains(data, GetVerCmd))))
  {
    assert IdMsg()[3] != ComParamsMsg(cfg)[3];
    if Contains(data, GetVerCmd) {
      ContainsStart(data, GetVerCmd, TokenOpen);
    }
    if Contains(data, AskCmd) {
      ContainsStart(data, AskCmd, TokenOpen);
    }
  }

  /** The keepalive report of a chunk that carries the server's reply
      `__#MY_KA_TIMEOUT_<k>#__` and nothing else is OK exactly when `k` is
      longer than the bridge's own keepalive. */
  lemma StepKeepalive(s: Session, k: int, cfg: Settings)
    ensures var r := Step(s, MyKaTimeoutCmd + IntToDec(k) + TokenClose, cfg);
      r.ka == Some(Rate(k, cfg.keepalive)) && (r.ka.value.KaOk? <==> k > cfg.keepalive)
  {
    var data := MyKaTimeoutCmd + IntToDec(k) + TokenClose;
    KaRoundTrip(k, cfg.keepalive);
    assert Contains(data, TokenOpen) by {
      assert OccursAt(data, TokenOpen, 0);
    }
    assert !Contains(data, DisconnectCmd) && !Contains(data, BadPwdMsg) by {
      KaOnly(k);
    }
  }

  lemma KaOnly(k: int)
    ensures !Contains(MyKaTimeoutCmd + IntToDec(k) + TokenClose, DisconnectCmd)
    ensures !Contains(MyKaTimeoutCmd + IntToDec(k) + TokenClose, BadPwdMsg)
  {
    var data := MyKaTimeoutCmd + IntToDec(k) + TokenClose;
    KaHashes(k);
    MarkerHeads();
    forall j | 0 <= j ensures !OccursAt(data, DisconnectCmd, j) && !OccursAt(data, BadPwdMsg, j) {
      if j + |BadPwdMsg| <= |data| {
        assert data[j..j + |BadPwdMsg|][2] == data[j + 2];
        assert data[j..j + |BadPwdMsg|][3] == data[j + 3];
        if j == 0 {
          assert data[3] == 'M';
        } else {
          assert data[j + 2] != '#';
        }
      }
    }
  }

  lemma MarkerHeads()
    ensures |DisconnectCmd| > 3 && DisconnectCmd[2] == '#' && DisconnectCmd[3] == 'D'
    ensures |BadPwdMsg| > 3 && BadPwdMsg[2] == '#' && BadPwdMsg[3] == 'B'
  {
  }

  /** In the keepalive reply, '#' only ends the opening and starts the
      closing marker. */
  lemma KaHashes(k: int)
    ensures var data := MyKaTimeoutCmd + IntToDec(k) + TokenClose;
      data[3] == 'M'
      && forall i :: 2 < i < |data| - 3 ==> data[i] != '#'
  {
    var d := IntToDec(k);
    var data := MyKaTimeoutCmd + d + TokenClose;
    IntToDecChars(k);
    forall i | 2 < i < |data| - 3 ensures data[i] != '#' {
      if i < |MyKaTimeoutCmd| {
        assert data[i] == MyKaTimeoutCmd[i];
      } else {
        assert data[i] == d[i - |MyKaTimeoutCmd|];
      }
    }
  }

  /** A chunk made only of tokens is not written to the serial side. */
  lemma {:induction false} TokensOnlyDropped(names: seq<string>)
    requires forall k, i :: 0 <= k < |names| && 0 <= i < |names[k]| ==> names[k][i] != '#'
    ensures Sub(Tokens(names), Token) == []
    decreases |names|
  {
    if names != [] {
      var n := names[0];
      var t := Tokens(names[1..]);
      TokenMatch(n, t);
      TokensOnlyDropped(names[1..]);
    }
  }

  /** The concatenation of tokens with the given names. */
  function Tokens(names: seq<string>): string
    decreases |names|
  {
    if names == [] then [] else Tok(names[0]) + Tokens(names[1..])
  }

  /** `__#[^#]*#__` takes a whole token whose name has no '#'. */
  lemma TokenMatch(name: string, rest: string)
    requires forall i :: 0 <= i < |name| ==> name[i] != '#'
    ensures Sub(Tok(name) + rest, Token) == Sub(rest, Token)
  {
    var s := Tok(name) + rest;
    var e := 3 + |name|;
    assert s[..3] == TokenOpen;
    assert forall k :: 3 <= k < e ==> s[k] == name[k - 3];
    assert s[e] == '#';
    assert RunEnd(s, 3, NotHash) == e;
    assert s[e..e + 3] == TokenClose;
    assert s[e + 3..] == rest;
    SubSkip(s, Token, e + 3, rest);
  }

  // ---------------------------------------------------------------------
  // Command-line validation
  // ---------------------------------------------------------------------

  /** The options `validate_args` looks at. A missing host is "" and a
      missing port 0, the values Python also treats as false. */
  datatype Args = Args(host: string, port: int, comport: Option<string>,
                       namedpipe: Option<string>, ask: bool, secauto: bool,
                       sec: string, pwd: string, onWin32: bool, win32Available: bool)

  datatype ArgError =
    | MissingMandatory   // -H, -p and a serial side are all needed
    | AskNeedsHost       // --ask needs -H and -p
    | SecNeedsPassword   // --sec / --secauto need --pwd
    | PipeNeedsWindows   // --namedpipe exists only on Windows
    | PipeNeedsPywin32   // ... and only with pywin32 installed

  /** The first check that fails, in the order the bridge makes them. */
  function ValidateArgs(a: Args): (r: Option<ArgError>)
  {
    var hasSerial := a.comport.Some? || a.namedpipe.Some?;
    if !(a.host != "" && a.port != 0 && hasSerial) && !a.ask then Some(MissingMandatory)
    else if a.ask && !(a.host != "" && a.port != 0) then Some(AskNeedsHost)
    else if (a.secauto || a.sec != "") && a.pwd == "" then Some(SecNeedsPassword)
    else if a.namedpipe.Some? && !a.onWin32 then Some(PipeNeedsWindows)
    else if a.namedpipe.Some? && a.onWin32 && !a.win32Available then Some(PipeNeedsPywin32)
    else None
  }

  /** What a usable command line is: a server address, a serial side unless
      only asking the server, a password for a secured link, and a named
      pipe only where Windows and pywin32 provide it. */
  predicate Acceptable(a: Args) {
    a.host != "" && a.port != 0
    && (a.ask || a.comport.Some? || a.namedpipe.Some?)
    && (a.secauto || a.sec != "" ==> a.pwd != "")
    && (a.namedpipe.Some? ==> a.onWin32 && a.win32Available)
  }

  lemma ValidateArgsAccepts(a: Args)
    ensures ValidateArgs(a) == None <==> Acceptable(a)
  {
  }

  /** A missing address is reported as such, whatever else is wrong. */
  lemma ValidateArgsAddressFirst(a: Args)
    requires a.host == "" || a.port == 0
    ensures ValidateArgs(a) == Some(if a.ask then AskNeedsHost else MissingMandatory)
  {
  }

  // ---------------------------------------------------------------------
  // The transfer window
  // ---------------------------------------------------------------------

  /** A digit of Python's `bytes.hex()`. */
  function HexDigit(n: int): char
    requires 0 <= n < 16
  {
    if n < 10 then ('0' as int + n) as char else ('a' as int + n - 10) as char
  }

  function HexValue(c: char): (n: int)
    ensures 0 <= n < 16
  {
    if '0' <= c <= '9' then c as int - '0' as int
    else if 'a' <= c <= 'f' then c as int - 'a' as int + 10
    else 0
  }

  /** Two hex digits of a byte (a character below 256). */
  function HexByte(c: char): string {
    var b := c as int % 256;
    [HexDigit(b / 16), HexDigit(b % 16)]
  }

  /** The bytes as space-separated hex pairs. */
  function HexPairs(data: string): (r: string)
    ensures |r| == if data == [] then 0 else 3 * |data| - 1
    decreases |data|
  {
    if data == [] then []
    else if |data| == 1 then HexByte(data[0])
    else HexByte(data[0]) + " " + HexPairs(data[1..])
  }

  /** Reading space-separated hex pairs back into bytes. */
  function UnHex(s: string): string
    decreases |s|
  {
    if |s| < 2 then []
    else [(HexValue(s[0]) * 16 + HexValue(s[1])) as char] + (if |s| >= 3 then UnHex(s[3..]) else [])
  }

  /** Hex pairs show every byte: they read back to the data. */
  lemma {:induction false} UnHexPairs(data: string)
    requires forall i :: 0 <= i < |data| ==> data[i] as int < 256
    ensures UnHex(HexPairs(data)) == data
    decreases |data|
  {
    if data != [] {
      HexByteValue(data[0]);
      if |data| == 1 {
        assert UnHex(HexByte(data[0])) == [data[0]];
      } else {
        UnHexPairs(data[1..]);
        UnHexStep(HexByte(data[0]), HexPairs(data[1..]));
        assert data == [data[0]] + data[1..];
      }
    }
  }

  lemma HexByteValue(c: char)
    requires c as int < 256
    ensures (HexValue(HexByte(c)[0]) * 16 + HexValue(HexByte(c)[1])) as char == c
  {
    var b := c as int;
    assert b % 256 == b;
    HexDigitValue(b / 16);
    HexDigitValue(b % 16);
    assert HexByte(c) == [HexDigit(b / 16), HexDigit(b % 16)];
    assert b / 16 * 16 + b % 16 == b;
  }

  lemma HexDigitValue(n: int)
    requires 0 <= n < 16
    ensures HexValue(HexDigit(n)) == n
  {
  }

  lemma UnHexStep(h: string, rest: string)
    requires |h| == 2
    ensures UnHex(h + " " + rest) == [(HexValue(h[0]) * 16 + HexValue(h[1])) as char] + UnHex(rest)
  {
    assert (h + " " + rest)[3..] == rest;
  }

  /** Hex pairs are printable: the display filter keeps them as they are. */
  lemma {:induction false} HexPairsPrintable(data: string)
    ensures forall i :: 0 <= i < |HexPairs(data)| ==> ' ' <= HexPairs(data)[i] <= 'f'
    decreases |data|
  {
    if |data| > 1 {
      HexPairsPrintable(data[1..]);
      var h := HexByte(data[0]);
      var r := HexPairs(data[1..]);
      assert HexPairs(data) == h + " " + r;
    }
  }

  /** No control characters. */
  predicate Printable(s: string) {
    forall i :: 0 <= i < |s| ==> s[i] >= ' '
  }

  lemma HexMessagePrintable(direction: string, data: string)
    requires Printable(direction)
    ensures Printable("Data " + direction + " (hex): " + HexPairs(data))
  {
    var pre := "Data " + direction + " (hex): ";
    var h := HexPairs(data);
    HexPairsPrintable(data);
    assert forall i :: 0 <= i < |pre| ==> pre[i] >= ' ';
    forall i | 0 <= i < |pre + h| ensures (pre + h)[i] >= ' ' {
      if i >= |pre| {
        assert (pre + h)[i] == h[i - |pre|];
      }
    }
  }

  /** Text without control characters is shown as it is. */
  lemma SanitizePrintable(text: string)
    requires Printable(text)
    ensures Sanitize(text) == text
  {
    assert Esc !in text;
    SanitizePlain(text);
    LayoutPrintable(text);
  }

  /** The log line of one message: the time, a debug tag, then the message as
      the terminal may show it; debug messages only with --debug. */
  function LogEntry(msg: string, ts: string, isDebug: bool, debug: bool): (r: Option<string>)
    ensures r.Some? <==> !isDebug || debug
    ensures r.Some? ==> StartsWith(r.value, ts) && Printable(r.value[|ts|..])
  {
    if isDebug && !debug then None
    else
      var tail := (if isDebug then " (DEBUG)" else "") + " " + Sanitize(msg);
      LogTailPrintable(isDebug, Sanitize(msg));
      assert (ts + tail)[|ts|..] == tail;
      Some(ts + tail)
  }

  lemma LogTailPrintable(isDebug: bool, shown: string)
    requires Printable(shown)
    ensures Printable((if isDebug then " (DEBUG)" else "") + " " + shown)
  {
    var tag := (if isDebug then " (DEBUG)" else "") + " ";
    assert Printable(tag);
    forall i | 0 <= i < |tag + shown| ensures (tag + shown)[i] >= ' ' {
      if i >= |tag| {
        assert (tag + shown)[i] == shown[i - |tag|];
      }
    }
  }

  /** The transfer-window line of one transfer, or nothing when the window is
      off or shows only the other direction. */
  function TransferEntry(modes: (string, string), shown: bool, direction: string,
                         data: string, ts: string): Option<string>
  {
    if !shown || (modes.1 != "all" && Lower(direction) != modes.1) then None
    else
      var msg := if modes.0 == "hex" then "Data " + direction + " (hex): " + HexPairs(data) else data;
      Some(ts + " [" + direction + "] " + Sanitize(msg))
  }

  /** In hex mode the window line holds the hex pairs untouched, so every
      byte of a transfer can be read back from it. */
  lemma TransferEntryHex(modes: (string, string), direction: string, data: string, ts: string)
    requires modes.0 == "hex" && (modes.1 == "all" || Lower(direction) == modes.1)
    requires Printable(direction)
    requires forall i :: 0 <= i < |data| ==> data[i] as int < 256
    ensures TransferEntry(modes, true, direction, data, ts)
            == Some(ts + " [" + direction + "] " + ("Data " + direction + " (hex): " + HexPairs(data)))
    ensures UnHex(HexPairs(data)) == data
  {
    var msg := "Data " + direction + " (hex): " + HexPairs(data);
    HexMessagePrintable(direction, data);
    SanitizePrintable(msg);
    UnHexPairs(data);
  }

  /** The messages the bridge opens a session with: its identity, the
      password on a secured link, then the version, keepalive and parameter
      requests. */
  function HandshakeMsgs(isSec: bool, pwd: string): (r: seq<string>)
    ensures |r| >= 4 && r[0] == IdMsg() && r[|r| - 1] == AskCmd
    ensures Tok("PWD_" + pwd) in r <==> isSec && pwd != ""
  {
    var r := [IdMsg()] + (if isSec && pwd != "" then [Tok("PWD_" + pwd)] else [])
      + [GetVerCmd, GetKaTimeoutCmd, AskCmd];
    assert Tok("PWD_" + pwd)[3] == 'P';
    r
  }

  /** `max(cap, 0)`: the size a bounded buffer keeps to. */
  function Cap(n: int): nat {
    if n < 0 then 0 else n
  }

  lemma PushBoundedCap<T>(buf: seq<T>, x: T, cap: int)
    requires |buf| <= Cap(cap)
    ensures |PushBounded(buf, x, cap)| <= Cap(cap)
  {
  }

  // ---------------------------------------------------------------------
  // The bridge node
  // ---------------------------------------------------------------------

  class Bridge {
    const cfg: Settings
    const debug: bool
    /** The raw --showtransfer value; "" when the window is off. */
    const showTransfer: string
    const modes: (string, string)
    const logLines: int
    const transferLines: int

    var keepRunning: bool
    var serialReady: bool
    var awaitingParams: bool
    var remoteParams: string
    var serverVersion: string
    var inCount: int
    var outCount: int
    var logBuffer: seq<string>
    var transferBuffer: seq<string>
    /** What was sent to the server, one entry per `sendall`. */
    var netOut: seq<string>
    /** What was written to the serial side, one entry per write. */
    var serialOut: seq<string>

    function State(): Session
      reads this
    {
      Session(keepRunning, serialReady, awaitingParams, remoteParams, serverVersion)
    }

    /** The scroll-back buffers keep to their limits, and nothing reaches the
        serial side before it is ready. */
    ghost predicate Valid()
      reads this
    {
      |logBuffer| <= Cap(logLines) && |transferBuffer| <= Cap(transferLines)
      && (serialOut != [] ==> serialReady)
    }

    constructor(cfg: Settings, debug: bool, showTransfer: string, logLines: int, transferLines: int)
      ensures Valid()
      ensures this.cfg == cfg && this.debug == debug && this.showTransfer == showTransfer
      ensures modes == ShowTransferModes(showTransfer)
      ensures this.logLines == logLines && this.transferLines == transferLines
      ensures State() == Session(true, false, false, "?? ?? ??", "???")
      ensures inCount == 0 && outCount == 0
      ensures logBuffer == [] && transferBuffer == [] && netOut == [] && serialOut == []
    {
      this.cfg := cfg;
      this.debug := debug;
      this.showTransfer := showTransfer;
      modes := ShowTransferModes(showTransfer);
      this.logLines := logLines;
      this.transferLines := transferLines;
      keepRunning := true;
      serialReady := false;
      awaitingParams := false;
      remoteParams := "?? ?? ??";
      serverVersion := "???";
      inCount := 0;
      outCount := 0;
      logBuffer := [];
      transferBuffer := [];
      netOut := [];
      serialOut := [];
    }

    /** The opening messages, after which the bridge awaits the server's
        parameters. */
    method Handshake(isSec: bool, pwd: string)
      requires Valid()
      modifies this
      ensures Valid()
      ensures netOut == old(netOut) + HandshakeMsgs(isSec, pwd)
      ensures State() == old(State()).(awaitingParams := true)
      ensures unchanged(this`inCount, this`outCount, this`logBuffer, this`transferBuffer, this`serialOut)
    {
      netOut := netOut + HandshakeMsgs(isSec, pwd);
      awaitingParams := true;
    }

    method CountData(direction: string, size: int)
      modifies this`inCount, this`outCount
      ensures direction == "IN" ==> inCount == old(inCount) + size && outCount == old(outCount)
      ensures direction != "IN" ==> outCount == old(outCount) + size && inCount == old(inCount)
    {
      if direction == "IN" {
        inCount := inCount + size;
      } else {
        outCount := outCount + size;
      }
    }

    method Log(msg: string, ts: string, isDebug: bool)
      requires Valid()
      modifies this`logBuffer
      ensures Valid()
      ensures logBuffer == match LogEntry(msg, ts, isDebug, debug)
        case None => old(logBuffer)
        case Some(line) => PushBounded(old(logBuffer), line, logLines)
    {
      var e := LogEntry(msg, ts, isDebug, debug);
      if e.Some? {
        PushBoundedCap(logBuffer, e.value, logLines);
        logBuffer := PushBounded(logBuffer, e.value, logLines);
      }
    }

    method LogTransfer(direction: string, data: string, ts: string)
      requires Valid()
      modifies this`transferBuffer
      ensures Valid()
      ensures transferBuffer == match TransferEntry(modes, showTransfer != [], direction, data, ts)
        case None => old(transferBuffer)
        case Some(line) => PushBounded(old(transferBuffer), line, transferLines)
    {
      var e := TransferEntry(modes, showTransfer != [], direction, data, ts);
      if e.Some? {
        PushBoundedCap(transferBuffer, e.value, transferLines);
        transferBuffer := PushBounded(transferBuffer, e.value, transferLines);
      }
    }

    /** One chunk from the server: the session step, the replies sent back,
        and the bytes written to the serial side and counted. */
    method ReceiveChunk(data: string, ts: string) returns (stop: bool)
      requires Valid()
      modifies this
      ensures Valid()
      ensures var r := Step(old(State()), data, cfg);
        State() == r.session && stop == r.stop
        && netOut == old(netOut) + r.replies
        && serialOut == old(serialOut) + (if r.forward == [] then [] else [r.forward])
        && outCount == old(outCount) + |r.forward| && inCount == old(inCount)
        && transferBuffer == (if r.forward == [] then old(transferBuffer)
          else match TransferEntry(modes, showTransfer != [], "OUT", r.forward, ts)
            case None => old(transferBuffer)
            case Some(line) => PushBounded(old(transferBuffer), line, transferLines))
      ensures unchanged(this`logBuffer)
    {
      var r := Step(State(), data, cfg);
      StepGate(State(), data, cfg);
      StepKeepsReady(State(), data, cfg);
      Apply(r, ts);
      stop := r.stop;
    }

    /** Takes on the session an outcome describes and carries out its
        replies and its write to the serial side. */
    method Apply(r: Outcome, ts: string)
      requires Valid()
      requires r.forward != [] ==> r.session.serialReady
      requires serialReady ==> r.session.serialReady
      modifies this
      ensures Valid()
      ensures State() == r.session
        && netOut == old(netOut) + r.replies
        && serialOut == old(serialOut) + (if r.forward == [] then [] else [r.forward])
        && outCount == old(outCount) + |r.forward| && inCount == old(inCount)
        && transferBuffer == (if r.forward == [] then old(transferBuffer)
          else match TransferEntry(modes, showTransfer != [], "OUT", r.forward, ts)
            case None => old(transferBuffer)
            case Some(line) => PushBounded(old(transferBuffer), line, transferLines))
      ensures unchanged(this`logBuffer)
    {
      keepRunning := r.session.keepRunning;
      serialReady := r.session.serialReady;
      awaitingParams := r.session.awaitingParams;
      remoteParams := r.session.remoteParams;
      serverVersion := r.session.serverVersion;
      netOut := netOut + r.replies;
      if r.forward != [] {
        serialOut := serialOut + [r.forward];
        CountData("OUT", |r.forward|);
        LogTransfer("OUT", r.forward, ts);
      }
    }

    /** Bytes read from the COM port go to the server and are counted IN. */
    method SerialRead(sData: string, ts: string)
      requires Valid()
      modifies this
      ensures Valid()
      ensures netOut == old(netOut) + (if sData == [] then [] else [sData])
      ensures inCount == old(inCount) + |sData| && outCount == old(outCount)
      ensures transferBuffer == (if sData == [] then old(transferBuffer)
          else match TransferEntry(modes, showTransfer != [], "IN", sData, ts)
            case None => old(transferBuffer)
            case Some(line) => PushBounded(old(transferBuffer), line, transferLines))
      ensures State() == old(State())
      ensures unchanged(this`logBuffer, this`serialOut)
    {
      if sData != [] {
        netOut := netOut + [sData];
        CountData("IN", |sData|);
        LogTransfer("IN", sData, ts);
      }
    }

    /** Ctrl-C: stop the loops and tell a connected server. */
    method SignalHandler(connected: bool)
      requires Valid()
      modifies this`keepRunning, this`netOut
      ensures Valid()
      ensures State() == old(State()).(keepRunning := false)
      ensures netOut == old(netOut) + (if connected then [DisconnectCmd] else [])
    {
      keepRunning := false;
      if connected {
        netOut := netOut + [DisconnectCmd];
      }
    }
  }

  /** Once ready, the serial side stays ready. */
  lemma StepKeepsReady(s: Session, data: string, cfg: Settings)
    ensures s.serialReady ==> Step(s, data, cfg).session.serialReady
  {
  }
}
