/** The in-band control tokens every program of the suite exchanges over the
    network connection. A token is `__#NAME#__`; some carry an argument
    between the name and the closing `#__`. The programs recognise them by
    substring tests on whole received chunks. The `--showtransfer` option
    the bridge and the server share is read here too. */
module Protocol {
  import opened Text

  const TokenOpen := "__#"
  const TokenClose := "#__"
  const AskCmd := "__#ASK_COM_PARAMS#__"
  const DisconnectCmd := "__#DISCONNECT#__"
  const KeepaliveCmd := "__#KEEPALIVE#__"
  const GetVerCmd := "__#GETVER#__"
  const GetKaTimeoutCmd := "__#GET_KA_TIMEOUT#__"
  const MyKaTimeoutCmd := "__#MY_KA_TIMEOUT_"
  const BadPwdMsg := "__#BADPWD#__"
  const SrvVerTag := "SRV_VER_"
  const ComParamsTag := "__#COM_PARAMS_"

  /** `__#<name>#__` */
  function Tok(name: string): string {
    TokenOpen + name + TokenClose
  }

  /** `--showtransfer <format>[,<direction>]`, lower-cased; without the option
      the window shows text in both directions. */
  function ShowTransferModes(val: string): (r: (string, string))
  {
    if val == [] then ("ascii", "all")
    else
      (Lower(Before(val, ",")),
       if Contains(val, ",") then Lower(Before(After(val, ","), ",")) else "all")
  }

  /** Both fields are read back from "<format>,<direction>". */
  lemma ShowTransferModesOf(f: string, d: string)
    requires forall i :: 0 <= i < |f| ==> f[i] != ','
    requires forall i :: 0 <= i < |d| ==> d[i] != ','
    ensures ShowTransferModes(f + "," + d) == (Lower(f), Lower(d))
    ensures f != [] ==> ShowTransferModes(f) == (Lower(f), "all")
  {
    var v := f + "," + d;
    assert OccursAt(v, ",", |f|) by {
      assert v[|f|..|f| + 1] == ",";
    }
    forall j | 0 <= j < |f| ensures !OccursAt(v, ",", j) {
      assert v[j..j + 1][0] == f[j];
    }
    assert Find(v, ",") == |f|;
    assert Before(v, ",") == f;
    assert After(v, ",") == d;
    NoOccurrenceBefore(d, ",", |d|, 0);
    NoOccurrenceBefore(f, ",", |f|, 0);
  }
}
