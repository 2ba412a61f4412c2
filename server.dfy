/** The SoE server, versions 0.0.52b and 0.0.53. It owns the serial port,
    accepts one network client at a time and relays bytes both ways. For
    every chunk received from the client it answers control tokens, checks
    the password, and writes plain data to the serial side; the serial side
    is read and relayed to the client only while the session is authorised.

    The two versions share the token handling. Version 0.0.53 adds a
    fragment buffer (a chunk that opens a token but does not close one, or
    short unauthorised data, is held and put in front of the next chunk)
    where 0.0.52b ends an unauthorised session on its first plain chunk.
    Chunks are modelled as the text they decode to, one character per byte
    for ASCII. */
module SoeServer {
  import opened Text
  import opened Protocol

  datatype Version = V052b | V053

  function CodeVersion(v: Version): string {
    match v
    case V052b => "0.0.52b"
    case V053 => "0.0.53"
  }

  const PwdTag := "__#PWD_"
  const VerMark := "_VER_"

  /** What the per-chunk logic reads from the command line. `comport` is the
      name shown to clients (`PIPE:<name>` for a named pipe); `pwd` is
      `None` when no password is configured. */
  datatype Config = Config(comport: string, baud: int, line: string, keepalive: int, pwd: Option<string>)

  /** `args.pwd` is true in Python's sense. */
  predicate PwdSet(cfg: Config) {
    cfg.pwd.Some? && cfg.pwd.value != ""
  }

  /** The reply to GETVER. */
  function SrvVerMsg(v: Version): string {
    Tok("SRV_VER_" + CodeVersion(v))
  }

  /** The reply to GET_KA_TIMEOUT. */
  function KaMsg(cfg: Config): string {
    Tok("MY_KA_TIMEOUT_" + IntToDec(cfg.keepalive))
  }

  /** The server's serial parameters, the reply to ASK. */
  function ParamsMsg(cfg: Config): string {
    Tok("COM_PARAMS_" + cfg.comport + " " + IntToDec(cfg.baud) + " " + cfg.line)
  }

  /** The per-session state the receive loop keeps: the `authorized` flag it
      shares with the serial reader, what it learned about the client, and
      (0.0.53) the held fragment. */
  datatype Session = Session(authorized: bool, clientType: string, clientVer: string,
                             remoteParams: string, held: string)

  /** A new session: authorised exactly when no password is configured. */
  function Fresh(cfg: Config): Session {
    Session(!PwdSet(cfg), "??", "", "?? ?? ??", [])
  }

  /** What one chunk does: the new session, the messages sent back in order,
      the bytes written to the serial side, and whether the session ends. */
  datatype Outcome = Outcome(session: Session, replies: seq<string>, forward: string, end: bool)

  // ---------------------------------------------------------------------
  // Identifying the client
  // ---------------------------------------------------------------------

  /** A piece of the chunk (split at `__#`) that carries a program version. */
  predicate Identifies(part: string) {
    Contains(part, "BR_VER_") || Contains(part, "CL_VER_")
  }

  /** One piece: a client that says CL_VER is a client, any other one a
      bridge; without a password, identifying authorises, and a bridge is
      sent the serial parameters and asked for its own. */
  function IdentifyPart(part: string, s: Session, cfg: Config): (r: (Session, seq<string>))
    ensures r.0.held == s.held && r.0.remoteParams == s.remoteParams
  {
    if Identifies(part) then
      var kind := if Contains(part, "CL_VER") then "CL" else "BR";
      VerInside(part);
      var s1 := s.(clientType := kind, clientVer := Field(part, "VER_", "#"));
      if PwdSet(cfg) then (s1, [])
      else (s1.(authorized := true), if kind == "BR" then [ParamsMsg(cfg), AskCmd] else [])
    else (s, [])
  }

  lemma VerInside(part: string)
    requires Identifies(part)
    ensures Contains(part, "VER_")
  {
    if Contains(part, "BR_VER_") {
      ContainsInner(part, "BR_VER_", "VER_", 3);
    } else {
      ContainsInner(part, "CL_VER_", "VER_", 3);
    }
  }

  /** The pieces in order, as the `for part in ...` loop takes them. */
  function Identify(parts: seq<string>, s: Session, cfg: Config): (r: (Session, seq<string>))
    ensures r.0.held == s.held && r.0.remoteParams == s.remoteParams
    decreases |parts|
  {
    if parts == [] then (s, [])
    else
      var prev := Identify(parts[..|parts| - 1], s, cfg);
      var last := IdentifyPart(parts[|parts| - 1], prev.0, cfg);
      (last.0, prev.1 + last.1)
  }

  /** Identification authorises exactly when no password is configured and
      some piece names a program. */
  lemma {:induction false} IdentifyAuthorizes(parts: seq<string>, s: Session, cfg: Config)
    ensures Identify(parts, s, cfg).0.authorized
            <==> s.authorized || (!PwdSet(cfg) && exists i :: 0 <= i < |parts| && Identifies(parts[i]))
    decreases |parts|
  {
    if parts != [] {
      var init := parts[..|parts| - 1];
      IdentifyAuthorizes(init, s, cfg);
      assert forall i :: 0 <= i < |init| ==> init[i] == parts[i];
      if exists i :: 0 <= i < |parts| && Identifies(parts[i]) {
        var i :| 0 <= i < |parts| && Identifies(parts[i]);
        if i < |init| {
          assert Identifies(init[i]);
        }
      }
    }
  }

  /** Pieces that name no program change nothing. */
  lemma {:induction false} IdentifyNone(parts: seq<string>, s: Session, cfg: Config)
    requires forall i :: 0 <= i < |parts| ==> !Identifies(parts[i])
    ensures Identify(parts, s, cfg) == (s, [])
    decreases |parts|
  {
    if parts != [] {
      var init := parts[..|parts| - 1];
      assert forall i :: 0 <= i < |init| ==> init[i] == parts[i];
      IdentifyNone(init, s, cfg);
      assert !Identifies(parts[|parts| - 1]);
      assert IdentifyPart(parts[|parts| - 1], s, cfg) == (s, []);
      var none: seq<string> := [];
      assert none + none == none;
    }
  }

  // ---------------------------------------------------------------------
  // One chunk
  // ---------------------------------------------------------------------

  /** Identification, when the chunk carries `_VER_`. */
  function IdentifyChunk(d: string, s: Session, cfg: Config): (r: (Session, seq<string>))
    ensures r.0.held == s.held && r.0.remoteParams == s.remoteParams
  {
    if Contains(d, VerMark) then Identify(Split(d, TokenOpen), s, cfg) else (s, [])
  }

  /** The fixed replies: to GETVER, GET_KA_TIMEOUT and ASK, in that order. */
  function Answers(v: Version, d: string, cfg: Config): seq<string> {
    (if Contains(d, GetVerCmd) then [SrvVerMsg(v)] else [])
    + (if Contains(d, GetKaTimeoutCmd) then [KaMsg(cfg)] else [])
    + (if Contains(d, AskCmd) then [ParamsMsg(cfg)] else [])
  }

  /** A bridge's COM_PARAMS reply: its parameters, stripped. */
  function WithRemoteParams(s: Session, d: string): (r: Session)
    ensures r.held == s.held && r.authorized == s.authorized && r.clientType == s.clientType
  {
    if Contains(d, ComParamsTag) then s.(remoteParams := Strip(Field(d, ComParamsTag, TokenClose))) else s
  }

  /** The password check: the new session, its replies, and whether it ends
      the session. */
  function CheckPassword(s: Session, d: string, cfg: Config): (r: (Session, seq<string>, bool))
    ensures r.0.held == s.held
  {
    if Contains(d, PwdTag) then
      if cfg.pwd == Some(Field(d, PwdTag, "#")) then
        (s.(authorized := true), if s.clientType == "BR" then [ParamsMsg(cfg), AskCmd] else [], false)
      else (s, [BadPwdMsg], true)
    else (s, [], false)
  }

  /** A chunk with a complete token: identification, the fixed replies, the
      bridge's parameters, the password check, and DISCONNECT, in that
      order. Nothing of it reaches the serial side. */
  function TokenChunk(v: Version, s: Session, d: string, cfg: Config): (r: Outcome)
    ensures r.forward == [] && r.session.held == s.held
  {
    var id := IdentifyChunk(d, s, cfg);
    var pw := CheckPassword(WithRemoteParams(id.0, d), d, cfg);
    Outcome(pw.0, id.1 + Answers(v, d, cfg) + pw.1, [], pw.2 || Contains(d, DisconnectCmd))
  }

  /** The text the receive loop works on: 0.0.53 puts the held fragment in
      front of the new chunk. */
  function Pending(v: Version, s: Session, data: string): string {
    if v == V053 then s.held + data else data
  }

  /** One pass of the receive loop. An empty read is the client closing the
      connection. */
  function Step(v: Version, s: Session, data: string, cfg: Config): Outcome {
    if data == [] then Outcome(s, [], [], true)
    else Dispatch(v, s.(held := []), Pending(v, s, data), cfg)
  }

  /** What the loop does with the text `d` once the held fragment has been
      taken out of the session `s`. */
  function Dispatch(v: Version, s: Session, d: string, cfg: Config): Outcome {
    if Contains(d, TokenOpen) then
      if v == V053 && !Contains(d, TokenClose) then Outcome(s.(held := d), [], [], false)
      else TokenChunk(v, s, d, cfg)
    else if !s.authorized && PwdSet(cfg) then
      // The source also tests that nothing is held here; it always holds,
      // since the buffer was emptied when it was put in front of the chunk.
      if v == V053 && |d| < 20 then Outcome(s.(held := d), [], [], false)
      else Outcome(s, [], [], true)
    else Outcome(s, [], d, false)
  }

  /** Only plain data of an authorised session (or one without a password)
      reaches the serial side, all of it, and it never holds a token. */
  lemma StepForward(v: Version, s: Session, data: string, cfg: Config)
    ensures var r := Step(v, s, data, cfg);
      r.forward != [] ==> r.forward == Pending(v, s, data) && !r.end && r.replies == []
                          && !Contains(r.forward, TokenOpen) && (s.authorized || !PwdSet(cfg))
  {
  }

  /** ... and such data is always forwarded. */
  lemma StepForwardPlain(v: Version, s: Session, data: string, cfg: Config)
    requires data != [] && !Contains(Pending(v, s, data), TokenOpen)
    requires s.authorized || !PwdSet(cfg)
    ensures Step(v, s, data, cfg) == Outcome(s.(held := []), [], Pending(v, s, data), false)
  {
  }

  /** 0.0.53 holds a chunk that opens a token without closing one, and short
      unauthorised data, and sends or writes nothing for it. */
  lemma StepHolds(s: Session, data: string, cfg: Config)
    requires data != []
    requires var d := s.held + data;
      (Contains(d, TokenOpen) && !Contains(d, TokenClose))
      || (!Contains(d, TokenOpen) && !s.authorized && PwdSet(cfg) && |d| < 20)
    ensures Step(V053, s, data, cfg) == Outcome(s.(held := s.held + data), [], [], false)
  {
  }

  /** What is held is exactly the held text and the new chunk; 0.0.52b never
      holds anything. */
  lemma StepHeld(v: Version, s: Session, data: string, cfg: Config)
    requires data != []
    ensures var r := Step(v, s, data, cfg);
      r.session.held != [] ==> v == V053 && r.session.held == s.held + data
                               && r.replies == [] && r.forward == [] && !r.end
  {
  }

  /** Unauthorised plain data ends the session: at once in 0.0.52b, and in
      0.0.53 once it (with what was held) reaches 20 bytes. */
  lemma StepRejects(v: Version, s: Session, data: string, cfg: Config)
    requires data != [] && !Contains(Pending(v, s, data), TokenOpen)
    requires !s.authorized && PwdSet(cfg)
    requires v == V052b || |Pending(v, s, data)| >= 20
    ensures var r := Step(v, s, data, cfg);
      r.end && r.replies == [] && r.forward == []
  {
  }

  /** A complete token chunk is the text 0.0.52b acts on whenever it opens a
      token, and 0.0.53 when it also closes one. */
  predicate Complete(v: Version, s: Session, data: string) {
    data != [] && Contains(Pending(v, s, data), TokenOpen)
    && (v == V053 ==> Contains(Pending(v, s, data), TokenClose))
  }

  /** GETVER, GET_KA_TIMEOUT and ASK each get their reply; the version and
      the keepalive are sent in reply to their request and never otherwise. */
  lemma StepReplies(v: Version, s: Session, data: string, cfg: Config)
    requires Complete(v, s, data)
    ensures var d := Pending(v, s, data); var r := Step(v, s, data, cfg);
      (SrvVerMsg(v) in r.replies <==> Contains(d, GetVerCmd))
      && (KaMsg(cfg) in r.replies <==> Contains(d, GetKaTimeoutCmd))
      && (Contains(d, AskCmd) ==> ParamsMsg(cfg) in r.replies)
      && r.forward == []
  {
    StepTokens(v, s, data, cfg);
    TokenChunkReplies(v, s.(held := []), Pending(v, s, data), cfg);
  }

  /** A complete token chunk is handled by `TokenChunk`. */
  lemma StepTokens(v: Version, s: Session, data: string, cfg: Config)
    requires Complete(v, s, data)
    ensures Step(v, s, data, cfg) == TokenChunk(v, s.(held := []), Pending(v, s, data), cfg)
  {
  }

  lemma TokenChunkReplies(v: Version, s: Session, d: string, cfg: Config)
    ensures var r := TokenChunk(v, s, d, cfg);
      (SrvVerMsg(v) in r.replies <==> Contains(d, GetVerCmd))
      && (KaMsg(cfg) in r.replies <==> Contains(d, GetKaTimeoutCmd))
      && (Contains(d, AskCmd) ==> ParamsMsg(cfg) in r.replies)
  {
    var id := IdentifyChunk(d, s, cfg);
    var pw := CheckPassword(WithRemoteParams(id.0, d), d, cfg);
    IdentifyReplies(if Contains(d, VerMark) then Split(d, TokenOpen) else [], s, cfg);
    assert forall m :: m in id.1 ==> Other(m, cfg);
    assert forall m :: m in pw.1 ==> Other(m, cfg);
    OtherReplies(v, cfg);
    InMiddle(id.1, Answers(v, d, cfg), pw.1, SrvVerMsg(v));
    InMiddle(id.1, Answers(v, d, cfg), pw.1, KaMsg(cfg));
    AnswersMembers(v, d, cfg);
  }

  lemma AnswersMembers(v: Version, d: string, cfg: Config)
    ensures SrvVerMsg(v) in Answers(v, d, cfg) <==> Contains(d, GetVerCmd)
    ensures KaMsg(cfg) in Answers(v, d, cfg) <==> Contains(d, GetKaTimeoutCmd)
    ensures Contains(d, AskCmd) ==> ParamsMsg(cfg) in Answers(v, d, cfg)
  {
    assert SrvVerMsg(v)[3] == 'S' && KaMsg(cfg)[3] == 'M' && ParamsMsg(cfg)[3] == 'C';
  }

  /** The replies that identification and the password check add. */
  predicate Other(m: string, cfg: Config) {
    m == ParamsMsg(cfg) || m == AskCmd || m == BadPwdMsg
  }

  lemma OtherReplies(v: Version, cfg: Config)
    ensures !Other(SrvVerMsg(v), cfg) && !Other(KaMsg(cfg), cfg)
  {
    assert SrvVerMsg(v)[3] == 'S' && KaMsg(cfg)[3] == 'M' && ParamsMsg(cfg)[3] == 'C';
    assert AskCmd[3] == 'A' && BadPwdMsg[3] == 'B';
  }

  lemma InMiddle<T>(a: seq<T>, b: seq<T>, c: seq<T>, x: T)
    requires x !in a && x !in c
    ensures x in a + b + c <==> x in b
  {
  }

  /** Identification only ever sends the serial parameters and ASK. */
  lemma {:induction false} IdentifyReplies(parts: seq<string>, s: Session, cfg: Config)
    ensures forall m :: m in Identify(parts, s, cfg).1 ==> m == ParamsMsg(cfg) || m == AskCmd
    decreases |parts|
  {
    if parts != [] {
      IdentifyReplies(parts[..|parts| - 1], s, cfg);
    }
  }

  /** The password check: the password the chunk carries authorises when it
      is the configured one (and a bridge is then sent the parameters and
      ASK); any other password is answered with BADPWD and ends the session. */
  lemma StepPassword(v: Version, s: Session, data: string, cfg: Config)
    requires Complete(v, s, data) && Contains(Pending(v, s, data), PwdTag)
    ensures var r := Step(v, s, data, cfg);
      cfg.pwd == Some(Field(Pending(v, s, data), PwdTag, "#")) ==> r.session.authorized
    ensures var r := Step(v, s, data, cfg);
      cfg.pwd == Some(Field(Pending(v, s, data), PwdTag, "#")) && r.session.clientType == "BR" ==>
      r.replies[|r.replies| - 2..] == [ParamsMsg(cfg), AskCmd]
    ensures var r := Step(v, s, data, cfg);
      cfg.pwd != Some(Field(Pending(v, s, data), PwdTag, "#")) ==> r.end && r.replies[|r.replies| - 1] == BadPwdMsg
  {
  }

  /** DISCONNECT ends the session. */
  lemma StepDisconnect(v: Version, s: Session, data: string, cfg: Config)
    requires Complete(v, s, data) && Contains(Pending(v, s, data), DisconnectCmd)
    ensures Step(v, s, data, cfg).end
  {
  }

  /** The password a bridge sends, `__#PWD_<p>#__`, is read back as `p`
      when it holds neither '_' nor '#'. */
  lemma PasswordRoundTrip(p: string)
    requires forall i :: 0 <= i < |p| ==> p[i] != '_' && p[i] != '#'
    ensures Contains(Tok("PWD_" + p), PwdTag) && Field(Tok("PWD_" + p), PwdTag, "#") == p
  {
    assert Tok("PWD_" + p) == PwdTag + (p + ("#" + "__"));
    FieldRoundTrip(PwdTag, p, "#", "__");
  }

  // ---------------------------------------------------------------------
  // Serial to network
  // ---------------------------------------------------------------------

  /** The non-empty reads, in order: what the serial reader relays. */
  function NonEmpty(polls: seq<string>): (r: seq<string>)
    ensures forall i :: 0 <= i < |r| ==> r[i] != []
    decreases |polls|
  {
    if polls == [] then []
    else NonEmpty(polls[..|polls| - 1]) + (if polls[|polls| - 1] == [] then [] else [polls[|polls| - 1]])
  }

  /** Dropping the empty reads loses no byte. */
  lemma {:induction false} NonEmptyTotal(polls: seq<string>)
    ensures TotalLen(NonEmpty(polls)) == TotalLen(polls)
    decreases |polls|
  {
    if polls != [] {
      var init := polls[..|polls| - 1];
      var last := polls[|polls| - 1];
      NonEmptyTotal(init);
      assert polls == init + [last];
      TotalLenSnoc(init, last);
      if last != [] {
        TotalLenSnoc(NonEmpty(init), last);
      } else {
        assert NonEmpty(init) + [] == NonEmpty(init);
      }
    }
  }

  lemma NonEmptySnoc(polls: seq<string>, i: int)
    requires 0 <= i < |polls|
    ensures NonEmpty(polls[..i + 1]) == NonEmpty(polls[..i]) + (if polls[i] == [] then [] else [polls[i]])
    ensures TotalLen(polls[..i + 1]) == TotalLen(polls[..i]) + |polls[i]|
  {
    assert polls[..i + 1][..i] == polls[..i];
    TotalLenSnoc(polls[..i], polls[i]);
    assert polls[..i] + [polls[i]] == polls[..i + 1];
  }

  lemma IdentifySnoc(parts: seq<string>, i: int, s: Session, cfg: Config)
    requires 0 <= i < |parts|
    ensures var prev := Identify(parts[..i], s, cfg);
      var last := IdentifyPart(parts[i], prev.0, cfg);
      Identify(parts[..i + 1], s, cfg) == (last.0, prev.1 + last.1)
  {
    assert parts[..i + 1][..i] == parts[..i];
  }

  // ---------------------------------------------------------------------
  // The server
  // ---------------------------------------------------------------------

  /** The server's state: the global flags and counters, the current
      session, and what it has sent and written. The session's fields (kept
      by the source on its global state, in the flag dictionary it shares
      with the serial reader, and in a local buffer) are grouped in one
      `Session` value. */
  class Server {
    const version: Version
    const cfg: Config

    var keepRunning: bool
    var clientActive: bool
    var disconnectRequested: bool
    var totalSessions: nat
    /** Bytes written to the serial side and relayed to the client, over all
        sessions and in the current one. */
    var statsIn: nat
    var statsOut: nat
    var sessionIn: nat
    var sessionOut: nat
    var session: Session
    /** What was sent to the client in the current session, one entry per
        `sendall` of a control message. */
    var sent: seq<string>
    /** Every chunk written to the serial side. */
    var serialOut: seq<string>
    /** Every chunk relayed from the serial side to the client. */
    var relayed: seq<string>

    /** The totals count exactly the bytes that went each way, a session's
        count is part of the total, and 0.0.52b holds nothing. */
    ghost predicate Valid()
      reads this`statsIn, this`statsOut, this`sessionIn, this`sessionOut, this`serialOut, this`relayed,
            this`session
    {
      statsIn == TotalLen(serialOut) && statsOut == TotalLen(relayed)
      && sessionIn <= statsIn && sessionOut <= statsOut
      && (version == V052b ==> session.held == [])
    }

    constructor(version: Version, cfg: Config)
      ensures Valid()
      ensures this.version == version && this.cfg == cfg
      ensures keepRunning && !clientActive && !disconnectRequested && totalSessions == 0
      ensures statsIn == 0 && statsOut == 0 && sessionIn == 0 && sessionOut == 0
      ensures session == Fresh(cfg).(authorized := false)
      ensures sent == [] && serialOut == [] && relayed == []
    {
      this.version := version;
      this.cfg := cfg;
      keepRunning := true;
      clientActive := false;
      disconnectRequested := false;
      totalSessions := 0;
      statsIn, statsOut, sessionIn, sessionOut := 0, 0, 0, 0;
      session := Session(false, "??", "", "?? ?? ??", []);
      sent, serialOut, relayed := [], [], [];
    }

    /** A client connects: the session state is reset, the session counted,
        the client asked for its version and keepalive, and it is
        authorised exactly when no password is configured. */
    method Accept()
      requires Valid()
      modifies this`clientActive, this`disconnectRequested, this`totalSessions, this`sessionIn,
               this`sessionOut, this`session, this`sent
      ensures Valid()
      ensures clientActive && !disconnectRequested && totalSessions == old(totalSessions) + 1
      ensures session == Fresh(cfg) && sessionIn == 0 && sessionOut == 0
      ensures sent == [GetVerCmd, GetKaTimeoutCmd]
    {
      clientActive, disconnectRequested := false, false;
      session := session.(clientType := "??", clientVer := "", remoteParams := "?? ?? ??");
      sessionIn, sessionOut := 0, 0;
      clientActive, totalSessions := true, totalSessions + 1;
      sent := [GetVerCmd, GetKaTimeoutCmd];
      session := session.(authorized := !PwdSet(cfg), held := []);
    }

    /** The `for part in ...` loop of identification. */
    method IdentifyParts(parts: seq<string>)
      modifies this`session, this`sent
      ensures var r := Identify(parts, old(session), cfg);
        session == r.0 && sent == old(sent) + r.1
    {
      var i := 0;
      while i < |parts|
        invariant 0 <= i <= |parts|
        invariant session == Identify(parts[..i], old(session), cfg).0
        invariant sent == old(sent) + Identify(parts[..i], old(session), cfg).1
      {
        ghost var prev := Identify(parts[..i], old(session), cfg);
        ghost var last := IdentifyPart(parts[i], session, cfg);
        IdentifyOne(parts[i]);
        IdentifySnoc(parts, i, old(session), cfg);
        AppendTwo(old(sent), prev.1, last.1);
        i := i + 1;
      }
      assert parts[..|parts|] == parts;
    }

    /** One piece of the identification loop. */
    method IdentifyOne(part: string)
      modifies this`session, this`sent
      ensures var r := IdentifyPart(part, old(session), cfg);
        session == r.0 && sent == old(sent) + r.1
    {
      if Identifies(part) {
        var kind := if Contains(part, "CL_VER") then "CL" else "BR";
        VerInside(part);
        session := session.(clientType := kind, clientVer := Field(part, "VER_", "#"));
        if !PwdSet(cfg) {
          session := session.(authorized := true);
          if kind == "BR" {
            sent := sent + [ParamsMsg(cfg), AskCmd];
          }
        }
      }
      if sent == old(sent) {
        assert sent == old(sent) + [];
      }
    }

    /** A chunk with a complete token, handled in the order of the source. */
    method HandleTokens(d: string) returns (end: bool)
      modifies this`session, this`sent
      ensures var r := TokenChunk(version, old(session), d, cfg);
        session == r.session && sent == old(sent) + r.replies && end == r.end
    {
      IdentifyIn(d);
      ghost var id := IdentifyChunk(d, old(session), cfg);
      SendAnswers(d);
      ReadRemoteParams(d);
      ghost var pw := CheckPassword(session, d, cfg);
      end := CheckPwd(d);
      AppendThree(old(sent), id.1, Answers(version, d, cfg), pw.1);
      end := end || Contains(d, DisconnectCmd);
    }

    /** Identification, when the chunk carries `_VER_`. */
    method IdentifyIn(d: string)
      modifies this`session, this`sent
      ensures var id := IdentifyChunk(d, old(session), cfg);
        session == id.0 && sent == old(sent) + id.1
    {
      if Contains(d, VerMark) {
        IdentifyParts(Split(d, TokenOpen));
      } else {
        assert sent == old(sent) + [];
      }
    }

    /** A bridge's COM_PARAMS reply. */
    method ReadRemoteParams(d: string)
      modifies this`session
      ensures session == WithRemoteParams(old(session), d)
    {
      if Contains(d, ComParamsTag) {
        session := session.(remoteParams := Strip(Field(d, ComParamsTag, TokenClose)));
      }
    }

    /** The replies to GETVER, GET_KA_TIMEOUT and ASK. */
    method SendAnswers(d: string)
      modifies this`sent
      ensures sent == old(sent) + Answers(version, d, cfg)
    {
      if Contains(d, GetVerCmd) {
        sent := sent + [SrvVerMsg(version)];
      }
      if Contains(d, GetKaTimeoutCmd) {
        sent := sent + [KaMsg(cfg)];
      }
      if Contains(d, AskCmd) {
        sent := sent + [ParamsMsg(cfg)];
      }
    }

    /** The password check; `bad` is true when the password was wrong. */
    method CheckPwd(d: string) returns (bad: bool)
      modifies this`session, this`sent
      ensures var pw := CheckPassword(old(session), d, cfg);
        session == pw.0 && sent == old(sent) + pw.1 && bad == pw.2
    {
      bad := false;
      if Contains(d, PwdTag) {
        var received := Field(d, PwdTag, "#");
        if cfg.pwd == Some(received) {
          session := session.(authorized := true);
          if session.clientType == "BR" {
            sent := sent + [ParamsMsg(cfg), AskCmd];
          }
        } else {
          sent := sent + [BadPwdMsg];
          bad := true;
        }
      }
    }

    /** One pass of the receive loop; `end` is true when the loop breaks. */
    method ReceiveChunk(data: string) returns (end: bool)
      requires Valid()
      modifies this`session, this`sent, this`statsIn, this`sessionIn, this`serialOut
      ensures Valid()
      ensures var r := Step(version, old(session), data, cfg);
        session == r.session && sent == old(sent) + r.replies && end == r.end
        && serialOut == old(serialOut) + (if r.forward == [] then [] else [r.forward])
        && statsIn == old(statsIn) + |r.forward| && sessionIn == old(sessionIn) + |r.forward|
    {
      if data == [] {
        return true;
      }
      var d := data;
      if session.held != [] {
        d := session.held + data;
        session := session.(held := []);
      }
      assert d == Pending(version, old(session), data);
      end := DispatchText(d);
    }

    /** The body of the receive loop once the held fragment is taken out. */
    method DispatchText(d: string) returns (end: bool)
      requires Valid() && session.held == [] && d != []
      modifies this`session, this`sent, this`statsIn, this`sessionIn, this`serialOut
      ensures Valid()
      ensures var r := Dispatch(version, old(session), d, cfg);
        session == r.session && sent == old(sent) + r.replies && end == r.end
        && serialOut == old(serialOut) + (if r.forward == [] then [] else [r.forward])
        && statsIn == old(statsIn) + |r.forward| && sessionIn == old(sessionIn) + |r.forward|
    {
      if Contains(d, TokenOpen) {
        if version == V053 && !Contains(d, TokenClose) {
          session := session.(held := d);
          return false;
        }
        end := HandleTokens(d);
      } else if !session.authorized && PwdSet(cfg) {
        if version == V053 && |d| < 20 {
          session := session.(held := d);
          return false;
        }
        return true;
      } else {
        WriteSerial(d);
        end := false;
      }
    }

    /** Plain data: counted and written to the serial side. */
    method WriteSerial(d: string)
      requires Valid()
      modifies this`statsIn, this`sessionIn, this`serialOut
      ensures Valid()
      ensures serialOut == old(serialOut) + [d]
      ensures statsIn == old(statsIn) + |d| && sessionIn == old(sessionIn) + |d|
    {
      TotalLenSnoc(serialOut, d);
      statsIn, sessionIn := statsIn + |d|, sessionIn + |d|;
      serialOut := serialOut + [d];
    }

    /** The serial reader: each entry of `polls` is what one pass found
        waiting on the serial side (empty when nothing was). While the
        session is not authorised nothing is read; otherwise every byte read
        is counted and relayed. */
    method SerialToSocket(polls: seq<string>)
      requires Valid()
      modifies this`statsOut, this`sessionOut, this`relayed
      ensures Valid()
      ensures relayed == old(relayed) + (if session.authorized then NonEmpty(polls) else [])
      ensures statsOut == old(statsOut) + (if session.authorized then TotalLen(polls) else 0)
      ensures sessionOut == old(sessionOut) + (if session.authorized then TotalLen(polls) else 0)
    {
      if !session.authorized {
        return;
      }
      var i := 0;
      while i < |polls|
        invariant 0 <= i <= |polls|
        invariant Valid()
        invariant relayed == old(relayed) + NonEmpty(polls[..i])
        invariant statsOut == old(statsOut) + TotalLen(polls[..i])
        invariant sessionOut == old(sessionOut) + TotalLen(polls[..i])
      {
        NonEmptySnoc(polls, i);
        Relay(polls[i]);
        i := i + 1;
      }
      assert polls[..|polls|] == polls;
    }

    /** One read from the serial side: counted and relayed when non-empty. */
    method Relay(chunk: string)
      requires Valid()
      modifies this`statsOut, this`sessionOut, this`relayed
      ensures Valid()
      ensures relayed == old(relayed) + (if chunk == [] then [] else [chunk])
      ensures statsOut == old(statsOut) + |chunk| && sessionOut == old(sessionOut) + |chunk|
    {
      if chunk != [] {
        TotalLenSnoc(relayed, chunk);
        statsOut, sessionOut := statsOut + |chunk|, sessionOut + |chunk|;
        relayed := relayed + [chunk];
      }
    }

    /** CTRL-C: a soft disconnect while a client is connected, otherwise a
        shutdown. */
    method HandleSigint()
      modifies this`disconnectRequested, this`keepRunning
      ensures clientActive ==> disconnectRequested && keepRunning == old(keepRunning)
      ensures !clientActive ==> !keepRunning && disconnectRequested == old(disconnectRequested)
    {
      if clientActive {
        disconnectRequested := true;
      } else {
        keepRunning := false;
      }
    }

    /** After the receive loop: DISCONNECT is sent when the operator asked
        for it, and the client is no longer active. */
    method EndSession()
      modifies this`sent, this`clientActive
      ensures sent == old(sent) + (if disconnectRequested then [DisconnectCmd] else [])
      ensures !clientActive
    {
      if disconnectRequested {
        sent := sent + [DisconnectCmd];
      }
      clientActive := false;
    }
  }
}
