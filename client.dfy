/** The interactive client of serial_client_0.0.56_LinWin.py: the Windows
    extended-key converter, the `key=value` configuration reader, the
    handling of one received chunk (control-token replies, version and
    serial-parameter extraction, token stripping, session end) and the byte
    counters of the receive and send threads.

    Network chunks are byte strings. The model writes each byte as the
    character with the same code, so `b"__#" in data` and `"__#" in
    data.decode()` are the same test for the ASCII control tokens. */
module SoeClient {
  import opened Text
  import opened Protocol

  // ---------------------------------------------------------------------
  // Replies and tokens
  // ---------------------------------------------------------------------

  const CodeVersion := "0.0.56"

  /** The notice printed before the client shuts down on a rejected password. */
  const BadPwdNotice := "\n\U{1b}[91m[ERROR] Invalid password.\U{1b}[0m\n"

  /** `__#CL_VER_<version>#__`, the client's identification. */
  function ClVerReply(): string {
    "__#CL_VER_" + CodeVersion + "#__"
  }

  /** `__#MY_KA_TIMEOUT_<keepalive>#__` */
  function MyKaTimeoutReply(keepalive: int): string {
    "__#MY_KA_TIMEOUT_" + IntToDec(keepalive) + "#__"
  }

  /** `__#SRV_VER_<version>#__`, the server's answer to GETVER. */
  function SrvVerToken(v: string): string {
    "__#" + SrvVerTag + v + "#__"
  }

  /** `__#COM_PARAMS_<params>#__`, the server's answer to ASK. */
  function ComParamsToken(p: string): string {
    ComParamsTag + p + "#__"
  }

  // ---------------------------------------------------------------------
  // `_convert_windows_key`
  // ---------------------------------------------------------------------

  const Esc: char := '\U{1b}'

  /** `key_map`: the second byte of a Windows extended key and the ANSI
      sequence sent in its place. */
  const KeyMap: map<char, string> := map[
    'H' := "\U{1b}[A", 'P' := "\U{1b}[B", 'K' := "\U{1b}[D", 'M' := "\U{1b}[C",
    'G' := "\U{1b}[H", 'O' := "\U{1b}[F",
    'R' := "\U{1b}[2~", 'S' := "\U{1b}[3~",
    'I' := "\U{1b}[5~", 'Q' := "\U{1b}[6~",
    ';' := "\U{1b}OP", '<' := "\U{1b}OQ", '=' := "\U{1b}OR", '>' := "\U{1b}OS",
    '?' := "\U{1b}[15~", '@' := "\U{1b}[17~", 'A' := "\U{1b}[18~",
    'B' := "\U{1b}[19~", 'C' := "\U{1b}[20~", 'D' := "\U{1b}[21~"]

  /** A first byte that announces a Windows extended key. */
  predicate IsKeyPrefix(c: char) {
    c == '\U{0}' || c == '\U{e0}'
  }

  /** Every sequence the map produces is an escape sequence of three to five
      bytes. */
  lemma KeyMapEscapes()
    ensures forall c :: c in KeyMap ==> 3 <= |KeyMap[c]| <= 5 && KeyMap[c][0] == Esc
  {
  }

  function ConvertWindowsKey(key: string): (r: string)
    ensures |key| != 2 || !IsKeyPrefix(key[0]) ==> r == key
    ensures r != key ==> |key| == 2 && IsKeyPrefix(key[0]) && key[1] in KeyMap && r == KeyMap[key[1]]
    ensures |key| == 2 && IsKeyPrefix(key[0]) && key[1] in KeyMap ==> r != key && 3 <= |r| && r[0] == Esc
  {
    KeyMapEscapes();
    if |key| != 2 || !IsKeyPrefix(key[0]) then key
    else if key[1] in KeyMap then KeyMap[key[1]]
    else key
  }

  /** Converting twice is converting once: no produced sequence looks like an
      extended key again. */
  lemma ConvertIdempotent(key: string)
    ensures ConvertWindowsKey(ConvertWindowsKey(key)) == ConvertWindowsKey(key)
  {
  }

  /** An independent decoder from ANSI sequences back to the key code. */
  function KeyCodeOf(seqn: string): (r: Option<char>)
  {
    if seqn == "\U{1b}[A" then Some('H') else if seqn == "\U{1b}[B" then Some('P')
    else if seqn == "\U{1b}[D" then Some('K') else if seqn == "\U{1b}[C" then Some('M')
    else if seqn == "\U{1b}[H" then Some('G') else if seqn == "\U{1b}[F" then Some('O')
    else if seqn == "\U{1b}[2~" then Some('R') else if seqn == "\U{1b}[3~" then Some('S')
    else if seqn == "\U{1b}[5~" then Some('I') else if seqn == "\U{1b}[6~" then Some('Q')
    else if seqn == "\U{1b}OP" then Some(';') else if seqn == "\U{1b}OQ" then Some('<')
    else if seqn == "\U{1b}OR" then Some('=') else if seqn == "\U{1b}OS" then Some('>')
    else if seqn == "\U{1b}[15~" then Some('?') else if seqn == "\U{1b}[17~" then Some('@')
    else if seqn == "\U{1b}[18~" then Some('A') else if seqn == "\U{1b}[19~" then Some('B')
    else if seqn == "\U{1b}[20~" then Some('C') else if seqn == "\U{1b}[21~" then Some('D')
    else None
  }

  /** The conversion loses nothing: the key code is recovered from the
      sequence sent, so two different extended keys never reach the remote
      side as the same bytes. */
  lemma ConvertRecoverable(key: string)
    requires |key| == 2 && IsKeyPrefix(key[0]) && key[1] in KeyMap
    ensures KeyCodeOf(ConvertWindowsKey(key)) == Some(key[1])
  {
    KeyCodeOfMap(key[1]);
  }

  lemma KeyCodeOfMap(c: char)
    requires c in KeyMap
    ensures KeyCodeOf(KeyMap[c]) == Some(c)
  {
  }

  // ---------------------------------------------------------------------
  // `read_config_file`
  // ---------------------------------------------------------------------

  /** A configuration value after conversion. */
  datatype Value = Flag(b: bool) | Number(n: nat) | Str(s: string)

  const TrueWords: seq<string> := ["true", "yes", "on", "1"]
  const FalseWords: seq<string> := ["false", "no", "off", "0"]

  /** Removes one pair of matching surrounding quotes. Python's `v[1:-1]` of a
      lone quote character is the empty string. */
  function Unquote(v: string): (r: string)
    ensures r == v || (|v| >= 1 && (v[0] == '"' || v[0] == '\'') && v[0] == v[|v| - 1] && |r| == if |v| >= 2 then |v| - 2 else 0)
    ensures v == [] || (v[0] != '"' && v[0] != '\'') ==> r == v
  {
    if |v| >= 1 && ((v[0] == '"' && v[|v| - 1] == '"') || (v[0] == '\'' && v[|v| - 1] == '\'')) then
      if |v| >= 2 then v[1..|v| - 1] else ""
    else v
  }

  /** The boolean words win over the digit test, so "1" and "0" are flags;
      any other run of digits is a number; the rest stays text. */
  function ConvertValue(v: string): (r: Value)
    ensures r.Flag? <==> Lower(v) in TrueWords || Lower(v) in FalseWords
    ensures r == Flag(true) <==> Lower(v) in TrueWords
    ensures r.Number? <==> AllDigits(v) && Lower(v) !in TrueWords && Lower(v) !in FalseWords
    ensures r.Number? ==> r.n == DecValue(v)
    ensures r.Str? ==> r.s == v
  {
    if Lower(v) in TrueWords then Flag(true)
    else if Lower(v) in FalseWords then Flag(false)
    else if AllDigits(v) then Number(DecValue(v))
    else Str(v)
  }

  /** One line of the file: blank lines, comments and lines without '=' give
      nothing; otherwise the key before the first '=' and the converted value
      after it, both stripped. */
  function ParseConfigLine(raw: string): (r: Option<(string, Value)>)
    ensures r.None? <==> Strip(raw) == [] || Strip(raw)[0] == '#' || !Contains(Strip(raw), "=")
    ensures r.Some? ==> !Contains(r.value.0, "=")
  {
    var line := Strip(raw);
    if line == [] || line[0] == '#' || !Contains(line, "=") then None
    else
      var key := Strip(Before(line, "="));
      StripInside(Before(line, "="), "=");
      Some((key, ConvertValue(Unquote(Strip(After(line, "="))))))
  }

  /** What occurs in the stripped text occurs in the text. */
  lemma StripInside(s: string, t: string)
    ensures Contains(Strip(s), t) ==> Contains(s, t)
  {
    var a := StripSpec(s);
    var r := Strip(s);
    if Contains(r, t) {
      OccursShifted(s, r, a, t, Find(r, t));
    }
  }

  /** An occurrence in a copy of part of `s` is an occurrence in `s`. */
  lemma OccursShifted(s: string, r: string, a: nat, t: string, j: int)
    requires a + |r| <= |s| && forall k :: 0 <= k < |r| ==> r[k] == s[a + k]
    requires OccursAt(r, t, j)
    ensures Contains(s, t)
  {
    forall k | 0 <= k < |t| ensures s[a + j + k] == t[k] {
      assert r[j..j + |t|][k] == t[k];
    }
    assert s[a + j..a + j + |t|] == t;
    ContainsAt(s, t, a + j);
  }

  lemma OccursInSlice(s: string, a: int, b: int, t: string, j: int)
    requires 0 <= a <= b <= |s| && OccursAt(s[a..b], t, j)
    ensures OccursAt(s, t, a + j) && Contains(s, t)
  {
    forall k | 0 <= k < |t| ensures s[a + j + k] == t[k] {
      assert s[a..b][j..j + |t|][k] == t[k];
    }
    assert s[a + j..a + j + |t|] == t;
    ContainsAt(s, t, a + j);
  }

  /** Each line of the file, parsed. */
  function Parsed(lines: seq<string>): (r: seq<Option<(string, Value)>>)
    ensures |r| == |lines| && forall i :: 0 <= i < |lines| ==> r[i] == ParseConfigLine(lines[i])
  {
    seq(|lines|, i requires 0 <= i < |lines| => ParseConfigLine(lines[i]))
  }

  /** The dictionary built from parsed lines in file order, a later key
      overwriting an earlier one. */
  function Fold<V>(entries: seq<Option<(string, V)>>): map<string, V>
    decreases |entries|
  {
    if entries == [] then map[] else Put(Fold(entries[..|entries| - 1]), entries[|entries| - 1])
  }

  /** `config[key] = value` for a line that parses. */
  function Put<V>(c: map<string, V>, e: Option<(string, V)>): (r: map<string, V>)
    ensures e.None? ==> r == c
    ensures e.Some? ==> r.Keys == c.Keys + {e.value.0} && r[e.value.0] == e.value.1
    ensures e.Some? ==> forall k :: k in c && k != e.value.0 ==> r[k] == c[k]
  {
    match e
    case None => c
    case Some(kv) => c[kv.0 := kv.1]
  }

  lemma FoldSnoc<V>(entries: seq<Option<(string, V)>>, i: int)
    requires 0 <= i < |entries|
    ensures Fold(entries[..i + 1]) == Put(Fold(entries[..i]), entries[i])
  {
    assert entries[..i + 1][..i] == entries[..i];
  }

  /** The dictionary `read_config_file` returns. */
  function Config(lines: seq<string>): map<string, Value> {
    Fold(Parsed(lines))
  }

  method ReadConfig(lines: seq<string>) returns (config: map<string, Value>)
    ensures config == Config(lines)
  {
    config := map[];
    var i := 0;
    while i < |lines|
      invariant 0 <= i <= |lines|
      invariant config == Fold(Parsed(lines)[..i])
    {
      var parsed := ParseConfigLine(lines[i]);
      assert parsed == Parsed(lines)[i];
      FoldSnoc(Parsed(lines), i);
      ghost var before := config;
      match parsed {
        case Some(kv) => config := config[kv.0 := kv.1];
        case None =>
      }
      assert config == Put(before, parsed);
      i := i + 1;
    }
    assert Parsed(lines)[..i] == Parsed(lines);
  }

  /** Entry `i` defines `key`. */
  predicate Defines<V>(entries: seq<Option<(string, V)>>, i: int, key: string) {
    0 <= i < |entries| && entries[i].Some? && entries[i].value.0 == key
  }

  /** The keys of the dictionary are exactly the keys some line defines. */
  lemma {:induction false} FoldKeys<V>(entries: seq<Option<(string, V)>>, key: string)
    ensures key in Fold(entries) <==> exists i :: Defines(entries, i, key)
    decreases |entries|
  {
    if entries != [] {
      var init := entries[..|entries| - 1];
      FoldKeys(init, key);
      forall i | 0 <= i < |init| ensures Defines(init, i, key) <==> Defines(entries, i, key) {
        assert init[i] == entries[i];
      }
      if Defines(entries, |entries| - 1, key) {
      } else if key in Fold(entries) {
        var i :| Defines(init, i, key);
        assert Defines(entries, i, key);
      }
    }
  }

  /** The last line that defines a key decides its value. */
  lemma {:induction false} LastDefinitionWins<V>(entries: seq<Option<(string, V)>>, i: int, key: string)
    requires Defines(entries, i, key)
    requires forall j :: i < j < |entries| ==> !Defines(entries, j, key)
    ensures key in Fold(entries) && Fold(entries)[key] == entries[i].value.1
    decreases |entries|
  {
    var init := entries[..|entries| - 1];
    if i < |entries| - 1 {
      assert init[i] == entries[i];
      forall j | i < j < |init| ensures !Defines(init, j, key) {
        assert init[j] == entries[j];
        assert !Defines(entries, j, key);
      }
      LastDefinitionWins(init, i, key);
      assert !Defines(entries, |entries| - 1, key);
    }
  }

  /** The two facts above for a file. */
  lemma ConfigMeaning(lines: seq<string>, key: string)
    ensures key in Config(lines) <==> exists i :: Defines(Parsed(lines), i, key)
    ensures forall i ::
              Defines(Parsed(lines), i, key) && (forall j :: i < j < |lines| ==> !Defines(Parsed(lines), j, key))
              ==> key in Config(lines) && Config(lines)[key] == ParseConfigLine(lines[i]).value.1
  {
    FoldKeys(Parsed(lines), key);
    forall i | Defines(Parsed(lines), i, key) && (forall j :: i < j < |lines| ==> !Defines(Parsed(lines), j, key))
      ensures key in Config(lines) && Config(lines)[key] == ParseConfigLine(lines[i]).value.1
    {
      LastDefinitionWins(Parsed(lines), i, key);
    }
  }

  /** A plain `key=value` line reads back as written. */
  lemma PlainLine(key: string, value: string)
    requires key != [] && key[0] != '#' && !IsSpace(key[0]) && !IsSpace(key[|key| - 1])
    requires !Contains(key, "=")
    requires value == [] || (!IsSpace(value[0]) && !IsSpace(value[|value| - 1]))
    ensures ParseConfigLine(key + "=" + value) == Some((key, ConvertValue(Unquote(value))))
  {
    var line := key + "=" + value;
    LineParts(key, value);
    assert line[0] == key[0];
    assert line[|line| - 1] == if value == [] then '=' else value[|value| - 1];
    PlainStrip(line);
    PlainStrip(key);
    PlainStrip(value);
  }

  lemma LineParts(key: string, value: string)
    requires !Contains(key, "=")
    ensures Contains(key + "=" + value, "=")
    ensures Before(key + "=" + value, "=") == key
    ensures After(key + "=" + value, "=") == value
  {
    var line := key + "=" + value;
    assert line == key + ['='] + value;
    FindAfterPlain(key, '=', value);
    ContainsAt(line, "=", |key|);
    assert line[..|key|] == key;
    assert line[|key| + 1..] == value;
  }

  /** The first `[c]` in `a + [c] + b`, when `a` has none, is right after `a`. */
  lemma FindAfterPlain(a: string, c: char, b: string)
    requires !Contains(a, [c])
    ensures Find(a + [c] + b, [c]) == |a|
  {
    var s := a + [c] + b;
    assert s[|a|..|a| + 1] == [c];
    assert OccursAt(s, [c], |a|);
    forall j | 0 <= j < |a| ensures !OccursAt(s, [c], j) {
      assert a[j..j + 1] == s[j..j + 1];
      assert !OccursAt(a, [c], j);
    }
  }

  /** A number written into the file comes back as that number, except that
      0 and 1 come back as flags. */
  lemma NumberRoundTrip(key: string, n: nat)
    requires key != [] && key[0] != '#' && !IsSpace(key[0]) && !IsSpace(key[|key| - 1])
    requires !Contains(key, "=")
    ensures n >= 2 ==> ParseConfigLine(key + "=" + NatToDec(n)) == Some((key, Number(n)))
    ensures n == 1 ==> ParseConfigLine(key + "=" + NatToDec(n)) == Some((key, Flag(true)))
    ensures n == 0 ==> ParseConfigLine(key + "=" + NatToDec(n)) == Some((key, Flag(false)))
  {
    var d := NatToDec(n);
    DigitsPlain(d);
    PlainLine(key, d);
    ConvertNumber(n);
  }

  /** How a written number converts. */
  lemma ConvertNumber(n: nat)
    ensures n >= 2 ==> ConvertValue(NatToDec(n)) == Number(n)
    ensures n == 1 ==> ConvertValue(NatToDec(n)) == Flag(true)
    ensures n == 0 ==> ConvertValue(NatToDec(n)) == Flag(false)
  {
    var d := NatToDec(n);
    LowerDigits(d);
    if n >= 2 {
      if n >= 10 {
        NatToDecLength(n);
      } else {
        assert d == [DigitChar(n)];
      }
      DigitsNotWords(d);
      NatToDecRoundTrip(n);
    } else {
      assert d == [DigitChar(n)];
    }
  }

  /** Only "1" and "0" among the boolean words are digit strings. */
  lemma DigitsNotWords(d: string)
    requires AllDigits(d) && d != "1" && d != "0"
    ensures d !in TrueWords && d !in FalseWords
  {
    assert IsDigit(d[0]);
    assert d != "true" && d != "yes" && d != "on" by {
      assert d[0] != 't' && d[0] != 'y' && d[0] != 'o';
    }
    assert d != "false" && d != "no" && d != "off" by {
      assert d[0] != 'f' && d[0] != 'n' && d[0] != 'o';
    }
  }

  /** Digits are neither whitespace nor quotes. */
  lemma DigitsPlain(d: string)
    requires AllDigits(d)
    ensures !IsSpace(d[0]) && !IsSpace(d[|d| - 1]) && Unquote(d) == d
  {
  }

  lemma LowerDigits(d: string)
    requires AllDigits(d)
    ensures Lower(d) == d
  {
  }

  lemma NatToDecLength(n: nat)
    requires n >= 10
    ensures |NatToDec(n)| >= 2
  {
  }

  // ---------------------------------------------------------------------
  // Token stripping: `re.sub(r'__#.*?#__', '', text)`
  // ---------------------------------------------------------------------

  /** Where the lazy `.*?#__` part of the pattern ends in `t` (the text right
      after an opening `__#`), or -1 when it cannot match: `.` matches any
      character but a newline. */
  function CloseAt(t: string): (k: int)
    ensures k >= 0 ==> OccursAt(t, TokenClose, k) && forall i :: 0 <= i < k ==> t[i] != '\n'
    ensures k >= 0 ==> forall j :: 0 <= j < k ==> !OccursAt(t, TokenClose, j)
    ensures k < 0 ==> forall j :: 0 <= j && OccursAt(t, TokenClose, j) ==> '\n' in t[..j]
  {
    var k := Find(t, TokenClose);
    if k >= 0 && forall i :: 0 <= i < k ==> t[i] != '\n' then k
    else
      assert forall j :: 0 <= j && OccursAt(t, TokenClose, j) ==> '\n' in t[..j] by {
        forall j | 0 <= j && OccursAt(t, TokenClose, j) ensures '\n' in t[..j] {
          var i :| 0 <= i < k && t[i] == '\n';
          assert t[..j][i] == '\n';
        }
      }
      -1
  }

  /** The leftmost-first, non-overlapping removal of every match. */
  function StripTokens(s: string): (r: string)
    ensures |r| <= |s|
    ensures !Contains(s, TokenOpen) ==> r == s
    decreases |s|
  {
    if s == [] then []
    else if StartsWith(s, TokenOpen) && CloseAt(s[3..]) >= 0 then
      assert OccursAt(s, TokenOpen, 0);
      StripTokens(s[3 + CloseAt(s[3..]) + 3..])
    else
      ContainsInTail(s, TokenOpen);
      [s[0]] + StripTokens(s[1..])
  }

  lemma ContainsInTail(s: string, t: string)
    requires s != []
    ensures Contains(s[1..], t) ==> Contains(s, t)
  {
    if Contains(s[1..], t) {
      var j :| 0 <= j <= |s| - 1 && OccursAt(s[1..], t, j);
      assert s[1..|s|] == s[1..];
      OccursInSlice(s, 1, |s|, t, j);
    }
  }

  /** A whole token at the front is removed, and nothing after it. */
  lemma TokenRemoved(name: string, rest: string)
    requires !Contains(name, TokenClose) && '\n' !in name
    ensures StripTokens(TokenOpen + name + TokenClose + rest) == StripTokens(rest)
  {
    var s := TokenOpen + name + TokenClose + rest;
    assert s[3..] == name + TokenClose + rest;
    CloseAfterName(name, rest);
    assert StartsWith(s, TokenOpen);
    assert s[3 + |name| + 3..] == rest;
  }

  /** The first close after an opening is the one that ends the name. */
  lemma CloseAfterName(name: string, rest: string)
    requires !Contains(name, TokenClose) && '\n' !in name
    ensures CloseAt(name + TokenClose + rest) == |name|
  {
    var t := name + TokenClose + rest;
    assert t[|name|..|name| + 3] == TokenClose;
    assert OccursAt(t, TokenClose, |name|);
    forall j | 0 <= j < |name| ensures !OccursAt(t, TokenClose, j) {
      if j + 3 <= |name| {
        assert name[j..j + 3] == t[j..j + 3];
        assert !OccursAt(name, TokenClose, j);
      } else {
        assert t[|name|] == '#' != TokenClose[|name| - j];
        assert t[j..j + 3][|name| - j] == t[|name|];
      }
    }
    assert Find(t, TokenClose) == |name|;
    forall i | 0 <= i < |name| ensures t[i] != '\n' {
      assert t[i] == name[i];
    }
  }

  // ---------------------------------------------------------------------
  // Replies and extracted fields
  // ---------------------------------------------------------------------

  /** `_handle_server_requests`: the version reply first, then the keepalive
      reply, each exactly when its request occurs in the chunk. */
  function RequestReplies(data: string, keepalive: int): (r: seq<string>)
    ensures |r| <= 2
    ensures ClVerReply() in r <==> Contains(data, GetVerCmd)
    ensures MyKaTimeoutReply(keepalive) in r <==> Contains(data, GetKaTimeoutCmd)
    ensures DisconnectCmd !in r
  {
    assert ClVerReply()[3] != MyKaTimeoutReply(keepalive)[3];
    assert ClVerReply()[3] != DisconnectCmd[3];
    assert MyKaTimeoutReply(keepalive)[3] != DisconnectCmd[3];
    (if Contains(data, GetVerCmd) then [ClVerReply()] else [])
    + (if Contains(data, GetKaTimeoutCmd) then [MyKaTimeoutReply(keepalive)] else [])
  }

  /** `split("SRV_VER_")[1].split("#")[0]` */
  function ServerVersionIn(data: string): (r: Option<string>)
    ensures r.Some? <==> Contains(data, SrvVerTag)
    ensures r.Some? ==> !Contains(r.value, "#")
  {
    if Contains(data, SrvVerTag) then Some(Field(data, SrvVerTag, "#")) else None
  }

  /** `split("__#COM_PARAMS_")[1].split("#__")[0].strip()` */
  function RemoteParamsIn(data: string): (r: Option<string>)
    ensures r.Some? <==> Contains(data, ComParamsTag)
    ensures r.Some? ==> Strip(r.value) == r.value && !Contains(r.value, TokenClose)
  {
    if Contains(data, ComParamsTag) then
      var f := Field(data, ComParamsTag, TokenClose);
      StripInside(f, TokenClose);
      StripIdempotent(f);
      Some(Strip(f))
    else None
  }

  lemma StripIdempotent(s: string)
    ensures Strip(Strip(s)) == Strip(s)
  {
    StripEnds(s);
    PlainStrip(Strip(s));
  }

  /** A version of digits and dots sent by the server is read back exactly. */
  lemma ServerVersionRoundTrip(v: string)
    requires forall i :: 0 <= i < |v| ==> v[i] == '.' || IsDigit(v[i])
    ensures ServerVersionIn(SrvVerToken(v)) == Some(v)
  {
    SrvVerField(v);
  }

  lemma SrvVerField(v: string)
    requires forall i :: 0 <= i < |v| ==> v[i] == '.' || IsDigit(v[i])
    ensures Contains(SrvVerToken(v), SrvVerTag)
    ensures Field(SrvVerToken(v), SrvVerTag, "#") == v
  {
    var s := SrvVerToken(v);
    assert OccursAt(s, SrvVerTag, 3);
    assert s[0] == '_' && s[1] == '_' && s[2] == '#';
    forall j | 0 <= j < 3 ensures !OccursAt(s, SrvVerTag, j) {
      assert s[j..j + 8][0] == s[j] != 'S';
    }
    assert Find(s, SrvVerTag) == 3;
    var rest := v + "#__";
    AppendTwo("__#" + SrvVerTag, v, "#__");
    DropFront("__#" + SrvVerTag, rest);
    assert forall i :: 0 <= i < |v| ==> rest[i] == v[i] != '_';
    NoOccurrenceBefore(rest, SrvVerTag, |v|, 3);
    NoOccurrenceBefore(v, "#", |v|, 0);
    FindAfterPlain(v, '#', "__");
    assert "#__" == ['#'] + "__";
    AppendTwo(v, ['#'], "__");
  }

  /** Serial parameters without '#' sent by the server are read back,
      stripped. */
  lemma RemoteParamsRoundTrip(p: string)
    requires forall i :: 0 <= i < |p| ==> p[i] != '#'
    ensures RemoteParamsIn(ComParamsToken(p)) == Some(Strip(p))
  {
    ComParamsField(p);
  }

  lemma ComParamsField(p: string)
    requires forall i :: 0 <= i < |p| ==> p[i] != '#'
    ensures Contains(ComParamsToken(p), ComParamsTag)
    ensures Field(ComParamsToken(p), ComParamsTag, TokenClose) == p
  {
    var s := ComParamsToken(p);
    assert StartsWith(s, ComParamsTag);
    assert Find(s, ComParamsTag) == 0;
    var rest := p + TokenClose;
    assert s[14..] == rest;
    assert forall i :: 0 <= i < |p| ==> rest[i] == p[i] != '#';
    NoOccurrenceBefore(rest, ComParamsTag, |p|, 2);
    forall j | 0 <= j < |p| ensures !OccursAt(rest, TokenClose, j) {
      assert rest[j..j + 3][0] == rest[j] != '#';
    }
    assert OccursAt(rest, TokenClose, |p|);
    assert Find(rest, TokenClose) == |p|;
    assert rest[..|p|] == p;
  }

  // ---------------------------------------------------------------------
  // One received chunk
  // ---------------------------------------------------------------------

  /** What the receive thread keeps between chunks. */
  datatype Session = Session(recvCount: nat, serverVersion: string, remoteParams: string, running: bool)

  /** One pass of `_receive_thread`'s loop: the new session, the messages
      sent back to the server, and the text written to the terminal ("" when
      nothing is written). An empty chunk, a BADPWD and a DISCONNECT end the
      session through `shutdown`, which sends DISCONNECT. */
  function ReceiveChunk(s: Session, data: string, keepalive: int): (r: (Session, seq<string>, string))
    requires s.running
  {
    if data == [] then (s.(running := false), [DisconnectCmd], "")
    else if !Contains(data, TokenOpen) then (s.(recvCount := s.recvCount + |data|), [], data)
    else ControlChunk(s.(recvCount := s.recvCount + |data|), data, keepalive)
  }

  /** The `if b"__#" in data` branch: replies, the version, a rejected
      password or a DISCONNECT, the serial parameters, then the chunk without
      its tokens. */
  function ControlChunk(s: Session, data: string, keepalive: int): (r: (Session, seq<string>, string))
  {
    var replies := RequestReplies(data, keepalive);
    var s1 := WithVersion(s, data);
    if Contains(data, BadPwdMsg) then (s1.(running := false), replies + [DisconnectCmd], BadPwdNotice)
    else if Contains(data, DisconnectCmd) then (s1.(running := false), replies + [DisconnectCmd], "")
    else (WithParams(s1, data), replies, Visible(StripTokens(data)))
  }

  function WithVersion(s: Session, data: string): Session {
    if ServerVersionIn(data).Some? then s.(serverVersion := ServerVersionIn(data).value) else s
  }

  function WithParams(s: Session, data: string): Session {
    if RemoteParamsIn(data).Some? then s.(remoteParams := RemoteParamsIn(data).value) else s
  }

  /** Text that is only whitespace is not written. */
  function Visible(rest: string): string {
    if Strip(rest) == [] then "" else rest
  }

  /** Every control token starts with `__#`. */
  lemma TokensOpen(data: string)
    ensures Contains(data, BadPwdMsg) ==> Contains(data, TokenOpen)
    ensures Contains(data, DisconnectCmd) ==> Contains(data, TokenOpen)
    ensures Contains(data, GetVerCmd) ==> Contains(data, TokenOpen)
  {
    if Contains(data, BadPwdMsg) {
      OpenAtToken(data, BadPwdMsg);
    }
    if Contains(data, DisconnectCmd) {
      OpenAtToken(data, DisconnectCmd);
    }
    if Contains(data, GetVerCmd) {
      OpenAtToken(data, GetVerCmd);
    }
  }

  lemma OpenAtToken(data: string, tok: string)
    requires StartsWith(tok, TokenOpen) && Contains(data, tok)
    ensures Contains(data, TokenOpen)
  {
    var i := Find(data, tok);
    assert data[i..i + 3] == data[i..i + |tok|][..3];
    ContainsAt(data, TokenOpen, i);
  }

  /** The receive counter grows by the raw chunk, before any filtering. */
  lemma ReceiveCounts(s: Session, data: string, keepalive: int)
    requires s.running
    ensures ReceiveChunk(s, data, keepalive).0.recvCount == s.recvCount + |data|
  {
  }

  /** The session ends exactly on an empty chunk, BADPWD or DISCONNECT, and
      an ending session always says DISCONNECT last. */
  lemma ReceiveEnds(s: Session, data: string, keepalive: int)
    requires s.running
    ensures var r := ReceiveChunk(s, data, keepalive);
      (!r.0.running <==> data == [] || Contains(data, BadPwdMsg) || Contains(data, DisconnectCmd))
      && (!r.0.running ==> r.1 != [] && r.1[|r.1| - 1] == DisconnectCmd)
  {
    TokensOpen(data);
  }

  /** A chunk asking GETVER is answered with the client version, and one
      that does not is not. */
  lemma ReceiveAnswersVersion(s: Session, data: string, keepalive: int)
    requires s.running && data != []
    ensures ClVerReply() in ReceiveChunk(s, data, keepalive).1 <==> Contains(data, GetVerCmd)
  {
    TokensOpen(data);
    assert ClVerReply()[3] != DisconnectCmd[3];
  }

  /** What reaches the terminal: a chunk without `__#` as it came, otherwise
      the chunk with its tokens removed, or nothing when only whitespace is
      left. */
  lemma ReceiveShows(s: Session, data: string, keepalive: int)
    requires s.running && data != []
    ensures var (s1, _, shown) := ReceiveChunk(s, data, keepalive);
      (!Contains(data, TokenOpen) ==> shown == data)
      && (Contains(data, TokenOpen) && s1.running ==>
            (shown == [] <==> Strip(StripTokens(data)) == []) && (shown != [] ==> shown == StripTokens(data)))
  {
  }

  /** The server version and the serial parameters change only through their
      tokens, and only inside a chunk carrying `__#`. */
  lemma ReceiveUpdates(s: Session, data: string, keepalive: int)
    requires s.running
    ensures var s1 := ReceiveChunk(s, data, keepalive).0;
      (s1.serverVersion != s.serverVersion ==> Contains(data, TokenOpen) && ServerVersionIn(data) == Some(s1.serverVersion))
      && (s1.remoteParams != s.remoteParams ==> s1.running && Contains(data, TokenOpen) && RemoteParamsIn(data) == Some(s1.remoteParams))
  {
    ChunkSessionIs(s, data, keepalive);
    SessionUpdates(s, data);
  }

  lemma SessionUpdates(s: Session, data: string)
    requires s.running
    ensures var s1 := ChunkSession(s, data);
      (s1.serverVersion != s.serverVersion ==> Contains(data, TokenOpen) && ServerVersionIn(data) == Some(s1.serverVersion))
      && (s1.remoteParams != s.remoteParams ==> s1.running && Contains(data, TokenOpen) && RemoteParamsIn(data) == Some(s1.remoteParams))
  {
    var s1 := ChunkSession(s, data);
    if data == [] || !Contains(data, TokenOpen) {
      assert s1.serverVersion == s.serverVersion && s1.remoteParams == s.remoteParams;
    } else {
      var v := WithVersion(s.(recvCount := s.recvCount + |data|), data);
      assert v.remoteParams == s.remoteParams;
      if Contains(data, BadPwdMsg) || Contains(data, DisconnectCmd) {
        assert s1 == v.(running := false);
      } else {
        assert s1 == WithParams(v, data);
      }
    }
  }

  /** The session part of `ReceiveChunk`. */
  function ChunkSession(s: Session, data: string): Session {
    if data == [] then s.(running := false)
    else
      var s0 := s.(recvCount := s.recvCount + |data|);
      if !Contains(data, TokenOpen) then s0
      else if Contains(data, BadPwdMsg) || Contains(data, DisconnectCmd) then WithVersion(s0, data).(running := false)
      else WithParams(WithVersion(s0, data), data)
  }

  lemma ChunkSessionIs(s: Session, data: string, keepalive: int)
    requires s.running
    ensures ReceiveChunk(s, data, keepalive).0 == ChunkSession(s, data)
  {
  }

  /** The whole receive thread over a sequence of chunks: the final session,
      every message sent and every text written, stopping at the first
      chunk that ends the session. */
  function ReceiveAll(s: Session, chunks: seq<string>, keepalive: int): (r: (Session, seq<string>, seq<string>))
    requires s.running
    ensures r.0.recvCount >= s.recvCount
    decreases |chunks|
  {
    if chunks == [] then (s, [], [])
    else
      var p := ReceiveAll(s, chunks[..|chunks| - 1], keepalive);
      if !p.0.running then p
      else
        var q := ReceiveChunk(p.0, chunks[|chunks| - 1], keepalive);
        (q.0, p.1 + q.1, p.2 + (if q.2 == [] then [] else [q.2]))
  }

  lemma ReceiveAllSnoc(s: Session, chunks: seq<string>, i: int, keepalive: int)
    requires s.running && 0 <= i < |chunks|
    requires ReceiveAll(s, chunks[..i], keepalive).0.running
    ensures var p := ReceiveAll(s, chunks[..i], keepalive);
      var q := ReceiveChunk(p.0, chunks[i], keepalive);
      ReceiveAll(s, chunks[..i + 1], keepalive) == (q.0, p.1 + q.1, p.2 + (if q.2 == [] then [] else [q.2]))
  {
    assert chunks[..i + 1][..i] == chunks[..i];
  }

  /** Once the session has ended, further chunks change nothing. */
  lemma {:induction false} ReceiveAllStopped(s: Session, chunks: seq<string>, i: int, keepalive: int)
    requires s.running && 0 <= i <= |chunks|
    requires !ReceiveAll(s, chunks[..i], keepalive).0.running
    ensures ReceiveAll(s, chunks, keepalive) == ReceiveAll(s, chunks[..i], keepalive)
    decreases |chunks| - i
  {
    if i < |chunks| {
      assert chunks[..i + 1][..i] == chunks[..i];
      ReceiveAllStopped(s, chunks, i + 1, keepalive);
    } else {
      assert chunks[..i] == chunks;
    }
  }

  // ---------------------------------------------------------------------
  // The send thread
  // ---------------------------------------------------------------------

  /** The keystrokes a Windows console produces for `input`, read as by
      `msvcrt.getch()`: a prefix byte and the byte after it form one
      extended key, converted; a trailing prefix byte still waits for its
      second byte. */
  function WinKeys(input: string): (keys: seq<string>)
    ensures forall k :: 0 <= k < |keys| ==> keys[k] != []
    decreases |input|
  {
    if input == [] then []
    else if IsKeyPrefix(input[0]) then
      if |input| < 2 then [] else [ConvertWindowsKey(input[..2])] + WinKeys(input[2..])
    else [input[..1]] + WinKeys(input[1..])
  }

  /** Without extended keys every byte goes out as it was typed. */
  lemma {:induction false} WinKeysPlain(input: string)
    requires forall i :: 0 <= i < |input| ==> !IsKeyPrefix(input[i])
    ensures |WinKeys(input)| == |input|
    ensures forall k :: 0 <= k < |input| ==> WinKeys(input)[k] == [input[k]]
    decreases |input|
  {
    if input != [] {
      WinKeysPlain(input[1..]);
      var ks := WinKeys(input);
      forall k | 0 <= k < |input| ensures ks[k] == [input[k]] {
        if k > 0 {
          assert ks[k] == WinKeys(input[1..])[k - 1];
        }
      }
    }
  }

  /** `len(char.encode())`: the UTF-8 length of one character. */
  function Utf8Len(c: char): (n: nat)
    ensures 1 <= n <= 4
    ensures c < '\U{80}' <==> n == 1
  {
    if c < '\U{80}' then 1 else if c < '\U{800}' then 2 else if c as int < 0x1_0000 then 3 else 4
  }

  /** The characters the POSIX branch sends for `input`: everything before
      the first Ctrl-C, which shuts the client down instead. */
  function PosixSent(input: string): (string, bool)
    decreases |input|
  {
    if input == [] then ([], false)
    else if input[0] == '\U{3}' then ([], true)
    else
      var t := PosixSent(input[1..]);
      ([input[0]] + t.0, t.1)
  }

  /** What is sent is the longest prefix free of Ctrl-C, and the client
      stops exactly when a Ctrl-C follows it. */
  lemma {:induction false} PosixSentMeaning(input: string)
    ensures StartsWith(input, PosixSent(input).0)
    ensures forall i :: 0 <= i < |PosixSent(input).0| ==> PosixSent(input).0[i] != '\U{3}'
    ensures PosixSent(input).1 <==> |PosixSent(input).0| < |input|
    ensures PosixSent(input).1 ==> input[|PosixSent(input).0|] == '\U{3}'
    decreases |input|
  {
    if input != [] && input[0] != '\U{3}' {
      PosixSentMeaning(input[1..]);
      var t := PosixSent(input[1..]);
      assert input[..1 + |t.0|] == [input[0]] + input[1..][..|t.0|];
    }
  }

  /** The UTF-8 size of a text. */
  function Utf8Size(s: string): (n: nat)
    ensures n >= |s|
    decreases |s|
  {
    if s == [] then 0 else Utf8Size(s[..|s| - 1]) + Utf8Len(s[|s| - 1])
  }

  // ---------------------------------------------------------------------
  // The client object
  // ---------------------------------------------------------------------

  class Client {
    const keepalive: int
    var recvCount: nat
    var sentCount: nat
    var serverVersion: string
    var remoteParams: string
    var keepRunning: bool
    /** Everything handed to `sock.sendall`, in order. */
    var outbox: seq<string>
    /** Everything written to the terminal by the receive thread. */
    var screen: seq<string>

    function State(): Session
      reads this
    {
      Session(recvCount, serverVersion, remoteParams, keepRunning)
    }

    constructor (keepalive: int)
      ensures this.keepalive == keepalive
      ensures State() == Session(0, "?.?.?", "?? ?? ??", true)
      ensures sentCount == 0 && outbox == [] && screen == []
    {
      this.keepalive := keepalive;
      recvCount := 0;
      sentCount := 0;
      serverVersion := "?.?.?";
      remoteParams := "?? ?? ??";
      keepRunning := true;
      outbox := [];
      screen := [];
    }

    /** `_receive_thread` over the chunks `recv` returns. */
    method ReceiveThread(chunks: seq<string>)
      requires keepRunning
      modifies this
      ensures var r := ReceiveAll(old(State()), chunks, keepalive);
        State() == r.0 && outbox == old(outbox) + r.1 && screen == old(screen) + r.2
      ensures sentCount == old(sentCount)
    {
      ghost var s0 := State();
      ghost var out0 := outbox;
      ghost var scr0 := screen;
      var i := 0;
      while i < |chunks| && keepRunning
        invariant 0 <= i <= |chunks|
        invariant sentCount == old(sentCount)
        invariant Received(s0, out0, scr0, chunks[..i])
      {
        ReceiveNext(s0, out0, scr0, chunks, i);
        i := i + 1;
      }
      if i < |chunks| {
        ReceiveAllStopped(s0, chunks, i, keepalive);
      } else {
        assert chunks[..i] == chunks;
      }
    }

    /** The state, the outbox and the screen are those `ReceiveAll` gives
        for the chunks received so far. */
    ghost predicate Received(s0: Session, out0: seq<string>, scr0: seq<string>, chunks: seq<string>)
      reads this
    {
      s0.running &&
      var r := ReceiveAll(s0, chunks, keepalive);
      State() == r.0 && outbox == out0 + r.1 && screen == scr0 + r.2
    }

    /** The loop body of `ReceiveThread`. */
    method ReceiveNext(ghost s0: Session, ghost out0: seq<string>, ghost scr0: seq<string>, chunks: seq<string>, i: int)
      requires 0 <= i < |chunks| && keepRunning
      requires Received(s0, out0, scr0, chunks[..i])
      modifies this
      ensures Received(s0, out0, scr0, chunks[..i + 1])
      ensures sentCount == old(sentCount)
    {
      ghost var acc := ReceiveAll(s0, chunks[..i], keepalive);
      ghost var q := ReceiveChunk(acc.0, chunks[i], keepalive);
      ReceiveAllSnoc(s0, chunks, i, keepalive);
      ReceiveStep(chunks[i]);
      AppendTwo(out0, acc.1, q.1);
      AppendTwo(scr0, acc.2, if q.2 == [] then [] else [q.2]);
    }

    /** One pass of the receive loop. */
    method ReceiveStep(data: string)
      requires keepRunning
      modifies this
      ensures var r := ReceiveChunk(old(State()), data, keepalive);
        State() == r.0 && outbox == old(outbox) + r.1
        && screen == old(screen) + (if r.2 == [] then [] else [r.2])
      ensures sentCount == old(sentCount)
    {
      var r := ReceiveChunk(State(), data, keepalive);
      recvCount, serverVersion, remoteParams, keepRunning := r.0.recvCount, r.0.serverVersion, r.0.remoteParams, r.0.running;
      outbox := outbox + r.1;
      if r.2 != [] {
        screen := screen + [r.2];
      }
    }

    /** The Windows branch of `_send_thread`: each key (an extended key
      converted) is sent and counted, while the client runs. */
    method SendWindows(input: string)
      modifies this
      ensures State() == old(State()) && screen == old(screen)
      ensures keepRunning ==> outbox == old(outbox) + WinKeys(input) && sentCount == old(sentCount) + TotalLen(WinKeys(input))
      ensures !keepRunning ==> outbox == old(outbox) && sentCount == old(sentCount)
    {
      if !keepRunning {
        return;
      }
      var i := 0;
      ghost var sent: seq<string> := [];
      while i < |input|
        invariant 0 <= i <= |input|
        invariant State() == old(State()) && screen == old(screen)
        invariant WinKeys(input) == sent + WinKeys(input[i..])
        invariant outbox == old(outbox) + sent && sentCount == old(sentCount) + TotalLen(sent)
        decreases |input| - i
      {
        WinKeysStep(input, i);
        var key: string;
        if IsKeyPrefix(input[i]) {
          if i + 1 == |input| {
            break;
          }
          key := ConvertWindowsKey(input[i..i + 2]);
          i := i + 2;
        } else {
          key := [input[i]];
          i := i + 1;
        }
        SnocAssoc(sent, key, WinKeys(input[i..]));
        TotalLenSnoc(sent, key);
        sent := sent + [key];
        outbox := outbox + [key];
        sentCount := sentCount + |key|;
      }
      if i == |input| {
        assert input[i..] == [];
      }
      assert sent + [] == sent;
    }

    /** The POSIX branch of `_send_thread`: characters are sent and counted
      by their UTF-8 size until Ctrl-C, which shuts the client down. */
    method SendPosix(input: string)
      modifies this`keepRunning, this`outbox, this`sentCount
      ensures keepRunning == (old(keepRunning) && !PosixSent(input).1)
      ensures old(keepRunning) ==> sentCount == old(sentCount) + Utf8Size(PosixSent(input).0)
      ensures old(keepRunning) ==>
                outbox == old(outbox) + Singles(PosixSent(input).0) + (if PosixSent(input).1 then [DisconnectCmd] else [])
      ensures !old(keepRunning) ==> outbox == old(outbox) && sentCount == old(sentCount)
      ensures recvCount == old(recvCount) && serverVersion == old(serverVersion)
      ensures remoteParams == old(remoteParams) && screen == old(screen)
    {
      if !keepRunning {
        return;
      }
      var i := SendUntilInterrupt(input);
      PosixPrefix(input, i);
      if i < |input| {
        PosixStep(input, i);
        assert PosixSent(input) == (input[..i], true) by {
          assert input[..i] + [] == input[..i];
        }
        keepRunning := false;
        outbox := outbox + [DisconnectCmd];
      } else {
        assert input[..i] == input;
        assert PosixSent(input) == (input, false) by {
          assert input[i..] == [] && input[..i] + [] == input[..i];
        }
      }
    }

    /** The loop of the POSIX branch: every character before the first
        Ctrl-C goes out as its own message. */
    method SendUntilInterrupt(input: string) returns (i: nat)
      modifies this`outbox, this`sentCount
      ensures i <= |input| && (i == |input| || input[i] == '\U{3}')
      ensures forall j :: 0 <= j < i ==> input[j] != '\U{3}'
      ensures outbox == old(outbox) + Singles(input[..i])
      ensures sentCount == old(sentCount) + Utf8Size(input[..i])
    {
      i := 0;
      while i < |input| && input[i] != '\U{3}'
        invariant 0 <= i <= |input|
        invariant forall j :: 0 <= j < i ==> input[j] != '\U{3}'
        invariant outbox == old(outbox) + Singles(input[..i])
        invariant sentCount == old(sentCount) + Utf8Size(input[..i])
      {
        SinglesSnoc(input[..i], input[i]);
        Utf8SizeSnoc(input, i);
        assert input[..i] + [input[i]] == input[..i + 1];
        outbox := outbox + [[input[i]]];
        sentCount := sentCount + Utf8Len(input[i]);
        i := i + 1;
      }
    }
  }

  /** Characters other than Ctrl-C before `i` are all sent. */
  lemma {:induction false} PosixPrefix(input: string, i: int)
    requires 0 <= i <= |input|
    requires forall j :: 0 <= j < i ==> input[j] != '\U{3}'
    ensures PosixSent(input).0 == input[..i] + PosixSent(input[i..]).0
    ensures PosixSent(input).1 == PosixSent(input[i..]).1
  {
    if i == 0 {
      assert input[..0] == [] && input[0..] == input;
      assert input[..0] + PosixSent(input).0 == PosixSent(input).0;
    } else {
      PosixPrefix(input, i - 1);
      PosixStep(input, i - 1);
      assert input[..i - 1] + [input[i - 1]] == input[..i];
      SnocAssoc(input[..i - 1], input[i - 1], PosixSent(input[i..]).0);
    }
  }

  lemma WinKeysStep(input: string, i: int)
    requires 0 <= i < |input|
    ensures IsKeyPrefix(input[i]) && i + 1 < |input| ==>
              WinKeys(input[i..]) == [ConvertWindowsKey(input[i..i + 2])] + WinKeys(input[i + 2..])
    ensures IsKeyPrefix(input[i]) && i + 1 == |input| ==> WinKeys(input[i..]) == []
    ensures !IsKeyPrefix(input[i]) ==> WinKeys(input[i..]) == [[input[i]]] + WinKeys(input[i + 1..])
  {
    var t := input[i..];
    assert t[0] == input[i];
    if |t| >= 2 {
      assert t[..2] == input[i..i + 2] && t[2..] == input[i + 2..];
    }
    assert t[..1] == [input[i]] && t[1..] == input[i + 1..];
  }

  lemma SnocAssoc<T>(a: seq<T>, x: T, b: seq<T>)
    ensures a + ([x] + b) == (a + [x]) + b
  {
  }

  lemma PosixStep(input: string, i: int)
    requires 0 <= i < |input|
    ensures input[i] == '\U{3}' ==> PosixSent(input[i..]) == ([], true)
    ensures input[i] != '\U{3}' ==>
              PosixSent(input[i..]) == ([input[i]] + PosixSent(input[i + 1..]).0, PosixSent(input[i + 1..]).1)
  {
    assert input[i..][0] == input[i];
    assert input[i..][1..] == input[i + 1..];
  }

  lemma Utf8SizeSnoc(input: string, i: int)
    requires 0 <= i < |input|
    ensures Utf8Size(input[..i + 1]) == Utf8Size(input[..i]) + Utf8Len(input[i])
  {
    assert input[..i + 1][..i] == input[..i];
  }

  /** One message per character. */
  function Singles(s: string): (r: seq<string>)
    ensures |r| == |s| && forall i :: 0 <= i < |s| ==> r[i] == [s[i]]
  {
    seq(|s|, i requires 0 <= i < |s| => [s[i]])
  }

  lemma SinglesSnoc(s: string, c: char)
    ensures Singles(s + [c]) == Singles(s) + [[c]]
  {
  }
}
