/**
 The command line a launched daemon is given, and the one a restart replays
 (crates/ccteam-cli/src/daemon_cli.rs, crates/ccteam-cli/src/main.rs).
 */
module LauncherArgv {
  import opened Wrappers
  import opened Json

  // ---- Addresses

  /** An address and a 16-bit port. */
  datatype Addr = Addr(ip: string, port: nat)

  const MAX_PORT := 65_535

  /** How the standard library reads and prints socket addresses. */
  datatype Net = Net(parse: string -> Option<Addr>, show: Addr -> string)

  predicate IsOff(s: string) {
    && |s| == 3
    && (s[0] == 'o' || s[0] == 'O') && (s[1] == 'f' || s[1] == 'F') && (s[2] == 'f' || s[2] == 'F')
  }

  /** What is assumed of it: printing then reading gives the address back; ports are 16 bits; no
      address is spelled `off` or starts with a dash. */
  ghost predicate Lawful(net: Net) {
    && (forall a: Addr :: a.port <= MAX_PORT && Readable(net, a.ip) ==> net.parse(net.show(a)) == Some(a))
    && (forall s :: net.parse(s).Some? ==>
          net.parse(s).value.port <= MAX_PORT && Readable(net, net.parse(s).value.ip)
          && !IsOff(s) && s != "" && s[0] != '-')
  }

  /** An IP address, as opposed to any other text: one that some socket address has. */
  ghost predicate Readable(net: Net, ip: string) {
    exists s :: net.parse(s).Some? && net.parse(s).value.ip == ip
  }

  // ---- The companion bind

  datatype Error = BadBind(value: string) | NoPortAfter(value: string)

  /** The companion's default: the next port; any free port beside any free port. */
  function DefaultCompanion(web: Addr): Option<Addr> {
    if web.port == 0 then Some(web)
    else if web.port >= MAX_PORT then None
    else Some(Addr(web.ip, web.port + 1))
  }

  function EffectiveCompanion(net: Net, webBind: string, companion: Option<string>): Result<string, Error> {
    match companion
    case Some(value) =>
      if IsOff(value) then Success("off")
      else if net.parse(value).Some? then Success(value)
      else Failure(BadBind(value))
    case None =>
      match net.parse(webBind)
      case None => Failure(BadBind(webBind))
      case Some(web) =>
        match DefaultCompanion(web)
        case None => Failure(NoPortAfter(webBind))
        case Some(a) => Success(net.show(a))
  }

  // ---- Printing

  datatype Flags = Flags(
    noWeb: bool, noImd: bool, webBind: string, dshWebBind: Option<string>,
    webNoAuth: bool, webTokenFile: Option<string>, noClipboard: bool)

  datatype Flag = NoWeb | NoImd | WebBind | DshWebBind | WebNoAuth | WebTokenFile | NoClipboard

  function Spelling(f: Flag): string {
    match f
    case NoWeb => "--no-web"
    case NoImd => "--no-imd"
    case WebBind => "--web-bind"
    case DshWebBind => "--dsh-web-bind"
    case WebNoAuth => "--web-no-auth"
    case WebTokenFile => "--web-token-file"
    case NoClipboard => "--no-clipboard"
  }

  const COMMAND := ["internal", "daemon-run"]

  function Switch(on: bool, f: Flag): seq<string> {
    if on then [Spelling(f)] else []
  }

  function TokenFile(path: Option<string>): seq<string> {
    if path.Some? then [Spelling(WebTokenFile), path.value] else []
  }

  /** The flags after the command, with the companion bind resolved. */
  function Printed(f: Flags, companion: string): seq<string> {
    [Spelling(WebBind), f.webBind, Spelling(DshWebBind), companion]
    + (Switch(f.noWeb, NoWeb) + (Switch(f.noImd, NoImd) + (Switch(f.webNoAuth, WebNoAuth)
    + (TokenFile(f.webTokenFile) + Switch(f.noClipboard, NoClipboard)))))
  }

  function Argv(net: Net, f: Flags): Result<seq<string>, Error> {
    match EffectiveCompanion(net, f.webBind, f.dshWebBind)
    case Failure(e) => Failure(e)
    case Success(companion) => Success(COMMAND + Printed(f, companion))
  }

  /** `daemon_run_argv`, pushing onto a vector. */
  method DaemonRunArgv(net: Net, f: Flags) returns (r: Result<seq<string>, Error>)
    ensures r == Argv(net, f)
  {
    var companion := EffectiveCompanion(net, f.webBind, f.dshWebBind);
    if companion.Failure? { return Failure(companion.error); }
    var args := ["internal", "daemon-run", Spelling(WebBind), f.webBind, Spelling(DshWebBind), companion.value];
    ghost var head := COMMAND + [Spelling(WebBind), f.webBind, Spelling(DshWebBind), companion.value];
    if f.noWeb { args := args + [Spelling(NoWeb)]; }
    ghost var upTo1 := head + Switch(f.noWeb, NoWeb);
    assert args == upTo1;
    if f.noImd { args := args + [Spelling(NoImd)]; }
    ghost var upTo2 := upTo1 + Switch(f.noImd, NoImd);
    assert args == upTo2;
    if f.webNoAuth { args := args + [Spelling(WebNoAuth)]; }
    ghost var upTo3 := upTo2 + Switch(f.webNoAuth, WebNoAuth);
    assert args == upTo3;
    if f.webTokenFile.Some? {
      args := args + [Spelling(WebTokenFile)];
      args := args + [f.webTokenFile.value];
    }
    ghost var upTo4 := upTo3 + TokenFile(f.webTokenFile);
    assert args == upTo4;
    if f.noClipboard { args := args + [Spelling(NoClipboard)]; }
    assert args == upTo4 + Switch(f.noClipboard, NoClipboard);
    Reassociate(COMMAND, [Spelling(WebBind), f.webBind, Spelling(DshWebBind), companion.value],
                Switch(f.noWeb, NoWeb), Switch(f.noImd, NoImd), Switch(f.webNoAuth, WebNoAuth),
                TokenFile(f.webTokenFile), Switch(f.noClipboard, NoClipboard));
    r := Success(args);
  }

  lemma Reassociate<T>(a: seq<T>, b: seq<T>, c: seq<T>, d: seq<T>, e: seq<T>, f: seq<T>, g: seq<T>)
    ensures a + (b + (c + (d + (e + (f + g))))) == a + b + c + d + e + f + g
  {
  }

  // ---- Parsing

  function FlagNamed(word: string): Option<Flag> {
    if word == Spelling(NoWeb) then Some(NoWeb)
    else if word == Spelling(NoImd) then Some(NoImd)
    else if word == Spelling(WebBind) then Some(WebBind)
    else if word == Spelling(DshWebBind) then Some(DshWebBind)
    else if word == Spelling(WebNoAuth) then Some(WebNoAuth)
    else if word == Spelling(WebTokenFile) then Some(WebTokenFile)
    else if word == Spelling(NoClipboard) then Some(NoClipboard)
    else None
  }

  /** What the parser takes as an option's value: not another option. */
  predicate IsValue(word: string) {
    word == "" || word[0] != '-' || word == "-"
  }

  /** The flags seen so far. */
  datatype Seen = Seen(
    noWeb: bool, noImd: bool, webBind: Option<string>, dshWebBind: Option<string>,
    webNoAuth: bool, webTokenFile: Option<string>, noClipboard: bool)

  const NOTHING := Seen(false, false, None, None, false, None, false)

  /** One flag, once, with its value if it takes one; a path may not be empty. */
  function See(s: Seen, f: Flag, value: Option<string>): Option<Seen> {
    match f
    case NoWeb => if s.noWeb then None else Some(s.(noWeb := true))
    case NoImd => if s.noImd then None else Some(s.(noImd := true))
    case WebNoAuth => if s.webNoAuth then None else Some(s.(webNoAuth := true))
    case NoClipboard => if s.noClipboard then None else Some(s.(noClipboard := true))
    case WebBind => if s.webBind.Some? || value.None? then None else Some(s.(webBind := value))
    case DshWebBind => if s.dshWebBind.Some? || value.None? then None else Some(s.(dshWebBind := value))
    case WebTokenFile =>
      if s.webTokenFile.Some? || value.None? || value == Some("") then None else Some(s.(webTokenFile := value))
  }

  predicate TakesValue(f: Flag) {
    f.WebBind? || f.DshWebBind? || f.WebTokenFile?
  }

  function ParseFlags(words: seq<string>, s: Seen): Option<Seen>
    decreases |words|
  {
    if words == [] then Some(s)
    else
      match FlagNamed(words[0])
      case None => None
      case Some(f) =>
        if TakesValue(f) && (|words| < 2 || !IsValue(words[1])) then None
        else
          var value := if TakesValue(f) then Some(words[1]) else None;
          match See(s, f, value)
          case None => None
          case Some(next) => ParseFlags(words[if TakesValue(f) then 2 else 1..], next)
  }

  const DEFAULT_WEB_BIND := "0.0.0.0:7331"

  function ParseArgv(args: seq<string>): Option<Flags> {
    if |args| < 2 || args[..2] != COMMAND then None
    else
      match ParseFlags(args[2..], NOTHING)
      case None => None
      case Some(s) =>
        Some(Flags(s.noWeb, s.noImd, if s.webBind.Some? then s.webBind.value else DEFAULT_WEB_BIND,
                   s.dshWebBind, s.webNoAuth, s.webTokenFile, s.noClipboard))
  }

  // ---- Replaying

  /** What a restart brings back: the recorded command line, else one with the binds the running
      daemon reports, else nothing. */
  datatype Hint = NoRecordAndNoBind | Unprintable(error: Error)

  const PLAIN := Flags(false, false, DEFAULT_WEB_BIND, None, false, None, false)

  function ReportedBind(health: Option<Json>, key: string): Option<string> {
    if health.None? then None
    else
      match Get(health.value, key)
      case Some(JStr(s)) => Some(s)
      case _ => None
  }

  function ReplayFlags(webBind: string, health: Option<Json>): Flags {
    var companion := ReportedBind(health, "dsh_web_bind");
    PLAIN.(webBind := webBind, dshWebBind := Some(if companion.Some? then companion.value else "off"))
  }

  function PlanReplay(net: Net, recorded: Option<seq<string>>, health: Option<Json>): Result<seq<string>, Hint> {
    match recorded
    case Some(args) => Success(args)
    case None =>
      match ReportedBind(health, "web_bind")
      case None => Failure(NoRecordAndNoBind)
      case Some(webBind) =>
        match Argv(net, ReplayFlags(webBind, health))
        case Success(args) => Success(args)
        case Failure(e) => Failure(Unprintable(e))
  }
}
