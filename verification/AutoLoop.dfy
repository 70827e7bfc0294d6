/** The fix-loop's state file and its retry decision (crates/ccteam-core/src/auto_loop.rs). */
module AutoLoop {
  import opened Wrappers
  import opened Text

  /** The counters and the completion signal; the slug and the two timestamps travel along. */
  datatype Front = Front(
    slug: string, iteration: nat, maxIterations: nat, completionSignal: string,
    createdAt: int, updatedAt: int)

  datatype State = State(front: Front, prompt: string)

  const OPEN := "---\n"
  const OPEN_CRLF := "---\r\n"
  const CLOSE := "\n---\n"
  const CLOSE_CRLF := "\n---\r\n"

  // ---- Finding a fence

  predicate OccursAt(s: string, needle: string, i: nat) {
    i + |needle| <= |s| && s[i..i + |needle|] == needle
  }

  predicate Contains(s: string, needle: string) {
    exists i: nat :: i <= |s| && OccursAt(s, needle, i)
  }

  /** `str::find`: the first occurrence at or after an index. */
  function Find(s: string, needle: string, from: nat): (r: Option<nat>)
    requires from <= |s|
    ensures r.Some? ==> from <= r.value && OccursAt(s, needle, r.value)
    ensures forall i: nat :: from <= i && (r.None? || i < r.value) ==> !OccursAt(s, needle, i)
    decreases |s| - from
  {
    if OccursAt(s, needle, from) then Some(from)
    else if from == |s| then None
    else Find(s, needle, from + 1)
  }

  // ---- The file

  /** How the YAML library prints and reads the front matter. */
  datatype Yaml = Yaml(dump: Front -> string, load: string -> Option<Front>)

  /** What is assumed of it: a text of whole lines with no fence among them, read back without
      its final line break. */
  ghost predicate Lawful(y: Yaml) {
    forall f: Front ::
      var t := y.dump(f);
      && t != "" && t[|t| - 1] == '\n' && !Contains(t, CLOSE)
      && y.load(t[..|t| - 1]) == Some(f)
  }

  datatype Error = NoOpening | NoClosing | BadFront

  function Print(y: Yaml, s: State): string {
    OPEN + y.dump(s.front) + "---\n\n" + s.prompt + "\n"
  }

  function StripOpening(body: string): Option<string> {
    if OPEN <= body then Some(body[|OPEN|..])
    else if OPEN_CRLF <= body then Some(body[|OPEN_CRLF|..])
    else None
  }

  function Parse(y: Yaml, body: string): Result<State, Error> {
    match StripOpening(body)
    case None => Failure(NoOpening)
    case Some(after) =>
      var end := if Find(after, CLOSE, 0).Some? then Find(after, CLOSE, 0) else Find(after, CLOSE_CRLF, 0);
      match end
      case None => Failure(NoClosing)
      case Some(e) =>
        match y.load(after[..e])
        case None => Failure(BadFront)
        case Some(front) => Success(State(front, Trim(after[e + |CLOSE|..])))
  }

  // ---- The decision

  datatype Decision = Reinject(prompt: string, nextIteration: nat) | AllowExit(succeeded: bool)

  function Decide(s: State, lastText: string): Decision {
    if Contains(lastText, s.front.completionSignal) then AllowExit(true)
    else if s.front.iteration >= s.front.maxIterations then AllowExit(false)
    else Reinject(s.prompt, s.front.iteration + 1)
  }

  /** The state file. */
  class StateFile {
    var content: Option<string>

    method Write(y: Yaml, s: State)
      modifies this
      ensures content == Some(Print(y, s))
    {
      content := Some("---\n" + y.dump(s.front) + "---\n\n" + s.prompt + "\n");
    }

    method Read(y: Yaml) returns (r: Result<Option<State>, Error>)
      ensures content.None? ==> r == Success(None)
      ensures content.Some? ==> r == match Parse(y, content.value)
                                     case Success(s) => Success(Some(s))
                                     case Failure(e) => Failure(e)
    {
      if content.None? { return Success(None); }
      var s := Parse(y, content.value);
      r := if s.Success? then Success(Some(s.value)) else Failure(s.error);
    }

    method Delete()
      modifies this
      ensures content == None
    {
      if content.None? { return; }
      content := None;
    }

    /** One stop of the assistant: read, decide, and on a retry rewrite the file with the next
        iteration. */
    method Stop(y: Yaml, lastText: string) returns (d: Option<Decision>)
      modifies this
      ensures var was := if old(content).None? then Failure(NoOpening) else Parse(y, old(content).value);
              if was.Failure? then d == None && content == old(content)
              else
                && d == Some(Decide(was.value, lastText))
                && content == if d.value.Reinject? then Some(Print(y, Next(was.value))) else old(content)
    {
      var r := Read(y);
      if r.Failure? || r.value.None? { return None; }
      var s := r.value.value;
      var decision := Decide(s, lastText);
      if decision.Reinject? { Write(y, s.(front := s.front.(iteration := decision.nextIteration))); }
      d := Some(decision);
    }
  }

  function Next(s: State): State {
    s.(front := s.front.(iteration := s.front.iteration + 1))
  }

  // ---- Round trip

  /** Between the opening and the end of the front matter there is no closing fence. */
  lemma FirstFence(t: string, rest: string)
    requires t != "" && t[|t| - 1] == '\n' && !Contains(t, CLOSE)
    ensures var after := t + "---\n" + rest;
            Find(after, CLOSE, 0) == Some(|t| - 1)
  {
    var after := t + "---\n" + rest;
    var n := |t| - 1;
    assert after == t + ("---\n" + rest);
    assert after[n..n + 5] == CLOSE;
    assert OccursAt(after, CLOSE, n);
    forall i: nat | i < n ensures !OccursAt(after, CLOSE, i) {
      if OccursAt(after, CLOSE, i) { EarlierIsInside(t, "---\n" + rest, i); }
    }
  }

  /** A fence that starts before the last line break of a text ends in the text. */
  lemma EarlierIsInside(t: string, rest: string, i: nat)
    requires i < |t| - 1 && t[|t| - 1] == '\n' && OccursAt(t + rest, CLOSE, i)
    ensures OccursAt(t, CLOSE, i)
  {
    var after := t + rest;
    forall k | 0 <= k < 5 ensures after[i + k] == CLOSE[k] {
      assert after[i..i + 5][k] == CLOSE[k];
    }
    assert after[|t| - 1] == '\n' && CLOSE[1] == CLOSE[2] == CLOSE[3] == '-';
    assert i + 5 <= |t|;
    assert t[i..i + 5] == after[i..i + 5];
  }

  /** The text of a file, and which texts are refused as one: those that start with no fence and
      those without a closing one. The front matter is what stands before the first closing fence,
      one with a carriage return only if there is no other. */
  lemma ParsedIff(y: Yaml, body: string)
    ensures var r := Parse(y, body);
            var skip := if "---\n" <= body then 4 else 5;
            if !("---\n" <= body) && !("---\r\n" <= body) then r == Failure(NoOpening)
            else if !Contains(body[skip..], "\n---\n") && !Contains(body[skip..], "\n---\r\n") then
              r == Failure(NoClosing)
            else
              exists e: nat ::
                && FirstAt(body[skip..], if Contains(body[skip..], "\n---\n") then "\n---\n" else "\n---\r\n", e)
                && r == match y.load(body[skip..][..e])
                        case None => Failure(BadFront)
                        case Some(front) => Success(State(front, Trim(body[skip..][e + 5..])))
  {
    if StripOpening(body).Some? {
      var after := StripOpening(body).value;
      var close := if Find(after, CLOSE, 0).Some? then Find(after, CLOSE, 0) else Find(after, CLOSE_CRLF, 0);
      FoundIff(after, CLOSE);
      FoundIff(after, CLOSE_CRLF);
      if close.Some? {
        assert FirstAt(after, if Contains(after, CLOSE) then CLOSE else CLOSE_CRLF, close.value);
      }
    }
  }

  ghost predicate FirstAt(s: string, needle: string, e: nat) {
    OccursAt(s, needle, e) && forall i: nat :: i < e ==> !OccursAt(s, needle, i)
  }

  lemma FoundIff(s: string, needle: string)
    ensures Find(s, needle, 0).Some? <==> Contains(s, needle)
    ensures Find(s, needle, 0).Some? ==> FirstAt(s, needle, Find(s, needle, 0).value)
  {
  }

  /** Main result on the file: what is written is read back, its prompt trimmed, whatever the
      prompt holds, fences included. */
  lemma RoundTrip(y: Yaml, s: State)
    requires Lawful(y)
    ensures Parse(y, Print(y, s)) == Success(s.(prompt := Trim(s.prompt)))
  {
    var t := y.dump(s.front);
    var rest := "\n" + s.prompt + "\n";
    var after := t + "---\n" + rest;
    assert Print(y, s) == OPEN + after;
    assert (OPEN + after)[|OPEN|..] == after;
    FirstFence(t, rest);
    assert after[..|t| - 1] == t[..|t| - 1];
    assert after[|t| - 1 + |CLOSE|..] == rest;
    TrimBetweenBreaks(s.prompt);
  }

  /** So the prompt is re-fed verbatim exactly when it had nothing to trim. */
  lemma VerbatimIff(y: Yaml, s: State)
    requires Lawful(y)
    ensures Parse(y, Print(y, s)) == Success(s) <==> Trimmed(s.prompt)
  {
    RoundTrip(y, s);
    TrimIsTrimmed(s.prompt);
    if Trimmed(s.prompt) { TrimOfTrimmed(s.prompt); }
  }

  lemma TrimBetweenBreaks(s: string)
    ensures Trim("\n" + s + "\n") == Trim(s)
  {
    var left, right := TrimSides(s);
    assert "\n" + s + "\n" == ("\n" + left) + Trim(s) + (right + "\n");
    TrimAround("\n" + left, Trim(s), right + "\n");
  }

  // ---- Whole loops

  /** What happens over a series of stops: the number of retries, and how it ended if it did. */
  datatype Course = Course(retries: nat, outcome: Option<bool>, last: State)

  function Drive(s: State, texts: seq<string>): Course
    decreases |texts|
  {
    if texts == [] then Course(0, None, s)
    else
      match Decide(s, texts[0])
      case AllowExit(succeeded) => Course(0, Some(succeeded), s)
      case Reinject(_, _) =>
        var c := Drive(Next(s), texts[1..]);
        Course(c.retries + 1, c.outcome, c.last)
  }

  /** Retries left before the cap. */
  function Cap(s: State): nat {
    if s.front.iteration >= s.front.maxIterations then 0 else s.front.maxIterations - s.front.iteration
  }

  /** The first text that holds the signal; the number of texts if none does. */
  function FirstSignal(texts: seq<string>, signal: string): (k: nat)
    ensures k <= |texts| && (k < |texts| ==> Contains(texts[k], signal))
    ensures forall i :: 0 <= i < k ==> !Contains(texts[i], signal)
  {
    if texts == [] || Contains(texts[0], signal) then 0 else 1 + FirstSignal(texts[1..], signal)
  }

  /** Main result on the loop: it retries until the first text with the signal or the cap,
      whichever comes first; it ends by then; and it succeeds exactly when the signal came no
      later than the cap. */
  lemma {:induction false} LoopEnds(s: State, texts: seq<string>)
    ensures var c, k := Drive(s, texts), FirstSignal(texts, s.front.completionSignal);
            && c.retries == (if k <= Cap(s) then k else if |texts| <= Cap(s) then |texts| else Cap(s))
            && c.retries <= Cap(s)
            && (c.outcome.None? <==> k == |texts| && |texts| <= Cap(s))
            && (c.outcome == Some(true) <==> k < |texts| && k <= Cap(s))
            && c.last == s.(front := s.front.(iteration := s.front.iteration + c.retries))
    decreases |texts|
  {
    if texts != [] && Decide(s, texts[0]).Reinject? {
      LoopEnds(Next(s), texts[1..]);
    }
  }

  /** One decision: the loop is over, well or badly, exactly with the signal or at the cap, and
      otherwise the prompt is fed again as it stands with the next iteration. */
  lemma DecidedIff(s: State, lastText: string)
    ensures var d := Decide(s, lastText);
            var signalled := (exists a: string, b: string :: lastText == a + s.front.completionSignal + b);
            && (d == AllowExit(true) <==> signalled)
            && (d == AllowExit(false) <==> !signalled && s.front.iteration >= s.front.maxIterations)
            && (d.Reinject? <==> !signalled && s.front.iteration < s.front.maxIterations)
            && (d.Reinject? ==> d == Reinject(s.prompt, s.front.iteration + 1))
  {
    var signal := s.front.completionSignal;
    if Contains(lastText, signal) {
      var i: nat :| i <= |lastText| && OccursAt(lastText, signal, i);
      assert lastText == lastText[..i] + signal + lastText[i + |signal|..];
    } else if a: string, b: string :| lastText == a + signal + b {
      assert lastText[|a|..|a| + |signal|] == signal;
      assert OccursAt(lastText, signal, |a|);
      assert false;
    }
  }

  /** The same loop through the file: each retry reads the file back before it decides. */
  function DriveFile(y: Yaml, body: string, texts: seq<string>): Course
    decreases |texts|
  {
    match Parse(y, body)
    case Failure(_) => Course(0, None, State(Front("", 0, 0, "", 0, 0), ""))
    case Success(s) =>
      if texts == [] then Course(0, None, s)
      else
        match Decide(s, texts[0])
        case AllowExit(succeeded) => Course(0, Some(succeeded), s)
        case Reinject(_, _) =>
          var c := DriveFile(y, Print(y, Next(s)), texts[1..]);
          Course(c.retries + 1, c.outcome, c.last)
  }

  /** Through any number of rewrites the prompt re-fed is the trimmed original, and the loop
      runs as on the state itself. */
  lemma {:induction false} FileLoopIsLoop(y: Yaml, s: State, texts: seq<string>)
    requires Lawful(y)
    ensures DriveFile(y, Print(y, s), texts) == Drive(s.(prompt := Trim(s.prompt)), texts)
    decreases |texts|
  {
    RoundTrip(y, s);
    var trimmed := s.(prompt := Trim(s.prompt));
    TrimIsTrimmed(s.prompt);
    TrimOfTrimmed(Trim(s.prompt));
    if texts != [] && Decide(trimmed, texts[0]).Reinject? {
      FileLoopIsLoop(y, Next(trimmed), texts[1..]);
      assert Next(trimmed).(prompt := Trim(Next(trimmed).prompt)) == Next(trimmed);
    }
  }
}
