/** What is printed for a daemon is read back as given, and a replay never drifts. */
module LauncherLaws {
  import opened Wrappers
  import opened Json
  import opened LauncherArgv

  /** The derived companion reads back as the next port of the same address: any free port
      beside any free port, and an error after the last one. */
  lemma CompanionIsNextPort(net: Net, webBind: string)
    requires Lawful(net) && net.parse(webBind).Some?
    ensures var web, e := net.parse(webBind).value, EffectiveCompanion(net, webBind, None);
            if web.port == 65_535 then e.Failure?
            else e.Success? && net.parse(e.value) == Some(Addr(web.ip, if web.port == 0 then 0 else web.port + 1))
  {
    assert Readable(net, net.parse(webBind).value.ip);
  }

  /** Which bind is blamed when there is no companion: one that is no address, or the web bind when it
      is none or the last port. */
  lemma CompanionBlamed(net: Net, webBind: string, companion: Option<string>)
    ensures var e := EffectiveCompanion(net, webBind, companion);
            match companion
            case Some(value) =>
              && (e.Failure? <==> !IsOff(value) && net.parse(value).None?)
              && (e.Failure? ==> e.error == BadBind(value))
            case None =>
              && (e == Failure(BadBind(webBind)) <==> net.parse(webBind).None?)
              && (e == Failure(NoPortAfter(webBind)) <==>
                    net.parse(webBind).Some? && net.parse(webBind).value.port >= 65_535)
              && (e.Failure? ==> e.error in {BadBind(webBind), NoPortAfter(webBind)})
  {
  }

  /** The effective companion is a value the parser takes, and its own effective companion. */
  lemma EffectiveIsStable(net: Net, webBind: string, companion: Option<string>, other: string)
    requires Lawful(net) && EffectiveCompanion(net, webBind, companion).Success?
    ensures var e := EffectiveCompanion(net, webBind, companion).value;
            IsValue(e) && EffectiveCompanion(net, other, Some(e)) == Success(e)
  {
    if companion.None? { CompanionIsNextPort(net, webBind); }
  }

  /** How the command line is spelled. */
  lemma ArgvIsSpelled(net: Net, f: Flags)
    requires Argv(net, f).Success?
    ensures var companion := EffectiveCompanion(net, f.webBind, f.dshWebBind).value;
            Argv(net, f).value ==
            ["internal", "daemon-run", "--web-bind", f.webBind, "--dsh-web-bind", companion]
            + (if f.noWeb then ["--no-web"] else [])
            + (if f.noImd then ["--no-imd"] else [])
            + (if f.webNoAuth then ["--web-no-auth"] else [])
            + (if f.webTokenFile.Some? then ["--web-token-file", f.webTokenFile.value] else [])
            + (if f.noClipboard then ["--no-clipboard"] else [])
  {
    var companion := EffectiveCompanion(net, f.webBind, f.dshWebBind).value;
    var head := [Spelling(WebBind), f.webBind, Spelling(DshWebBind), companion];
    assert COMMAND + head == ["internal", "daemon-run", "--web-bind", f.webBind, "--dsh-web-bind", companion];
    Reassociate(COMMAND, head, Switch(f.noWeb, NoWeb), Switch(f.noImd, NoImd), Switch(f.webNoAuth, WebNoAuth),
                TokenFile(f.webTokenFile), Switch(f.noClipboard, NoClipboard));
  }

  /** What may stand where a value is expected: anything but a dash followed by something. */
  lemma ValueIff(word: string)
    ensures IsValue(word) <==> !exists rest: string :: rest != "" && word == "-" + rest
  {
    if word != "" && word[0] == '-' { assert word == "-" + word[1..]; }
  }

  /** What a bare command line means, and which companions mean none. */
  lemma BareCommand()
    ensures ParseArgv(["internal", "daemon-run"])
            == Some(Flags(false, false, "0.0.0.0:7331", None, false, None, false))
    ensures IsOff("off") && IsOff("OFF") && IsOff("Off") && !IsOff("on") && !IsOff("") && !IsOff("offs")
  {
    assert ["internal", "daemon-run"][..2] == COMMAND && ["internal", "daemon-run"][2..] == [];
  }

  // ---- Parsing what was printed

  function Then(s: Option<Seen>, rest: seq<string>): Option<Seen> {
    if s.None? then None else ParseFlags(rest, s.value)
  }

  lemma ParseSwitch(on: bool, f: Flag, rest: seq<string>, s: Seen)
    requires !TakesValue(f)
    ensures ParseFlags(Switch(on, f) + rest, s) == if on then Then(See(s, f, None), rest) else ParseFlags(rest, s)
  {
    if on { assert ([Spelling(f)] + rest)[1..] == rest; } else { assert Switch(on, f) + rest == rest; }
  }

  lemma ParseOption(f: Flag, value: string, rest: seq<string>, s: Seen)
    requires TakesValue(f)
    ensures ParseFlags([Spelling(f), value] + rest, s) ==
            if IsValue(value) then Then(See(s, f, Some(value)), rest) else None
  {
    assert ([Spelling(f), value] + rest)[2..] == rest;
  }

  lemma ParseTokenFile(path: Option<string>, rest: seq<string>, s: Seen)
    requires s.webTokenFile.None?
    ensures ParseFlags(TokenFile(path) + rest, s) ==
            if path.None? then ParseFlags(rest, s)
            else if path.value != "" && IsValue(path.value) then ParseFlags(rest, s.(webTokenFile := path))
            else None
  {
    if path.Some? { ParseOption(WebTokenFile, path.value, rest, s); } else { assert TokenFile(path) + rest == rest; }
  }

  /** Values that survive as arguments: nothing that looks like an option, no empty path. */
  predicate Forwardable(f: Flags) {
    && IsValue(f.webBind)
    && (f.webTokenFile.Some? ==> f.webTokenFile.value != "" && IsValue(f.webTokenFile.value))
  }

  lemma ParseSwitches(f: Flags, s: Seen)
    requires !s.noWeb && !s.noImd && !s.webNoAuth && !s.noClipboard && s.webTokenFile.None?
    ensures ParseFlags(Switch(f.noWeb, NoWeb) + (Switch(f.noImd, NoImd) + (Switch(f.webNoAuth, WebNoAuth)
                       + (TokenFile(f.webTokenFile) + Switch(f.noClipboard, NoClipboard)))), s)
            == if f.webTokenFile.Some? && (f.webTokenFile.value == "" || !IsValue(f.webTokenFile.value)) then None
               else Some(Seen(f.noWeb, f.noImd, s.webBind, s.dshWebBind, f.webNoAuth, f.webTokenFile, f.noClipboard))
  {
    var clip := Switch(f.noClipboard, NoClipboard);
    var token := TokenFile(f.webTokenFile) + clip;
    var auth := Switch(f.webNoAuth, WebNoAuth) + token;
    var s1 := s.(noWeb := f.noWeb);
    var s2 := s1.(noImd := f.noImd);
    var s3 := s2.(webNoAuth := f.webNoAuth);
    ParseSwitch(f.noWeb, NoWeb, Switch(f.noImd, NoImd) + auth, s);
    ParseSwitch(f.noImd, NoImd, auth, s1);
    ParseSwitch(f.webNoAuth, WebNoAuth, token, s2);
    ParseTokenFile(f.webTokenFile, clip, s3);
    var s4 := s3.(webTokenFile := f.webTokenFile);
    assert clip + [] == clip;
    ParseSwitch(f.noClipboard, NoClipboard, [], s4);
  }

  lemma ParsePrinted(f: Flags, companion: string)
    requires IsValue(companion)
    ensures ParseArgv(COMMAND + Printed(f, companion))
            == if Forwardable(f) then Some(f.(dshWebBind := Some(companion))) else None
  {
    var tail := Switch(f.noWeb, NoWeb) + (Switch(f.noImd, NoImd) + (Switch(f.webNoAuth, WebNoAuth)
                + (TokenFile(f.webTokenFile) + Switch(f.noClipboard, NoClipboard))));
    var second := [Spelling(DshWebBind), companion] + tail;
    assert Printed(f, companion) == [Spelling(WebBind), f.webBind] + second;
    assert (COMMAND + Printed(f, companion))[2..] == Printed(f, companion);
    ParseOption(WebBind, f.webBind, second, NOTHING);
    var s1 := NOTHING.(webBind := Some(f.webBind));
    ParseOption(DshWebBind, companion, tail, s1);
    ParseSwitches(f, s1.(dshWebBind := Some(companion)));
  }

  /** Main result on the round trip, exact: the daemon reads its command line back as the flags
      it was launched with, the companion filled in, if and only if they are forwardable, and
      otherwise refuses to start. */
  lemma RoundTripIff(net: Net, f: Flags)
    requires Lawful(net) && Argv(net, f).Success?
    ensures var companion := EffectiveCompanion(net, f.webBind, f.dshWebBind).value;
            ParseArgv(Argv(net, f).value) == if Forwardable(f) then Some(f.(dshWebBind := Some(companion))) else None
  {
    EffectiveIsStable(net, f.webBind, f.dshWebBind, f.webBind);
    ParsePrinted(f, EffectiveCompanion(net, f.webBind, f.dshWebBind).value);
  }

  /** Reading a command line and printing it again. */
  function Reprint(net: Net, args: seq<string>): Option<seq<string>> {
    match ParseArgv(args)
    case None => None
    case Some(f) => if Argv(net, f).Success? then Some(Argv(net, f).value) else None
  }

  function Replays(net: Net, args: seq<string>, n: nat): Option<seq<string>>
    decreases n
  {
    if n == 0 then Some(args)
    else
      match Reprint(net, args)
      case None => None
      case Some(again) => Replays(net, again, n - 1)
  }

  /** Main result on replaying: after any number of restarts from its own flags a daemon still
      has the command line it was first launched with. */
  lemma {:induction false} ReplayNeverDrifts(net: Net, f: Flags, n: nat)
    requires Lawful(net) && Argv(net, f).Success? && Forwardable(f)
    ensures Replays(net, Argv(net, f).value, n) == Some(Argv(net, f).value)
    decreases n
  {
    if n > 0 {
      RoundTripIff(net, f);
      EffectiveIsStable(net, f.webBind, f.dshWebBind, f.webBind);
      assert Reprint(net, Argv(net, f).value) == Some(Argv(net, f).value);
      ReplayNeverDrifts(net, f, n - 1);
    }
  }

  // ---- What a restart replays

  /** The bind a health report names: a string under that key and nothing else. */
  lemma ReportedIff(health: Option<Json>, key: string, bind: string)
    ensures ReportedBind(health, key) == Some(bind)
            <==> health.Some? && Get(health.value, key) == Some(JStr(bind))
  {
  }

  /** A replay is the recorded command line, or one that is read back as exactly the binds the
      daemon reports (`off` for a companion it does not report), never the built-in ones, and as
      every other flag left out. */
  lemma ReplayIsFaithful(net: Net, recorded: Option<seq<string>>, health: Option<Json>)
    requires Lawful(net) && PlanReplay(net, recorded, health).Success?
    ensures var args := PlanReplay(net, recorded, health).value;
            if recorded.Some? then args == recorded.value
            else
              var webBind, companion := ReportedBind(health, "web_bind"), ReportedBind(health, "dsh_web_bind");
              && webBind.Some?
              && (IsValue(webBind.value) ==>
                    ParseArgv(args) == Some(Flags(
                      false, false, webBind.value,
                      Some(if companion.None? || IsOff(companion.value) then "off" else companion.value),
                      false, None, false)))
              && (!IsValue(webBind.value) ==> ParseArgv(args).None?)
  {
    if recorded.None? {
      var f := ReplayFlags(ReportedBind(health, "web_bind").value, health);
      RoundTripIff(net, f);
    }
  }

  /** And it is refused exactly when there is no record and the daemon reports no bind, or a
      companion nobody could bind. */
  lemma ReplayRefusedIff(net: Net, recorded: Option<seq<string>>, health: Option<Json>)
    requires Lawful(net)
    ensures PlanReplay(net, recorded, health).Failure? <==>
            && recorded.None?
            && (ReportedBind(health, "web_bind").None?
                || var companion := ReportedBind(health, "dsh_web_bind");
                   companion.Some? && !IsOff(companion.value) && net.parse(companion.value).None?)
    ensures PlanReplay(net, recorded, health).Failure? ==>
              PlanReplay(net, recorded, health).error ==
              if ReportedBind(health, "web_bind").None? then NoRecordAndNoBind
              else Unprintable(BadBind(ReportedBind(health, "dsh_web_bind").value))
  {
    assert IsOff("off");
  }
}
