/** What one program of the suite sends and another reads back: the
    server's keepalive announcement as the bridge rates it, and the
    bridge's password as the server checks it. */
module SoeInterop {
  import opened Text
  import opened Protocol
  import SoeServer
  import SoeBridge

  /** The bridge reads the server's `MY_KA_TIMEOUT` reply as the server's
      configured keepalive, and rates it against its own. */
  lemma ServerKaReachesBridge(cfg: SoeServer.Config, localKa: int)
    ensures SoeBridge.KaIn(SoeServer.KaMsg(cfg), localKa) == Some(SoeBridge.Rate(cfg.keepalive, localKa))
  {
    var d := IntToDec(cfg.keepalive);
    assert SoeServer.KaMsg(cfg) == MyKaTimeoutCmd + d + TokenClose;
    SoeBridge.KaRoundTrip(cfg.keepalive, localKa);
  }

  /** The password token the bridge sends authorises it at a server
      configured with the same password, when the password holds neither
      '_' nor '#'; the server answers it with nothing but what a bridge is
      owed. */
  lemma BridgePasswordAccepted(pwd: string, s: SoeServer.Session, cfg: SoeServer.Config)
    requires forall i :: 0 <= i < |pwd| ==> pwd[i] != '_' && pwd[i] != '#'
    requires cfg.pwd == Some(pwd)
    ensures var r := SoeServer.CheckPassword(s, Tok("PWD_" + pwd), cfg);
      r.0.authorized && !r.2
      && r.1 == (if s.clientType == "BR" then [SoeServer.ParamsMsg(cfg), AskCmd] else [])
  {
    SoeServer.PasswordRoundTrip(pwd);
  }
}
