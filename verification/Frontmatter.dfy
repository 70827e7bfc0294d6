/**
 Adding a tool to the `tools:` line of an agent file's front matter
 (crates/ccteam-core/src/admin_actions.rs).
 */
module Frontmatter {
  import opened Wrappers
  import opened Text

  const FENCE := "---"
  const TOOLS := "tools:"

  // ---- The document

  datatype Error = NoOpening | NoClosing

  /** The lines between the fences, and the lines from the closing fence on. */
  datatype Document = Document(front: seq<string>, tail: seq<string>)

  predicate IsFence(line: string) {
    Trim(line) == FENCE
  }

  /** The first fence at or after an index; the number of lines if there is none. */
  function NextFence(lines: seq<string>, from: nat): (i: nat)
    requires from <= |lines|
    ensures from <= i <= |lines|
    ensures i < |lines| ==> IsFence(lines[i])
    ensures forall k :: from <= k < i ==> !IsFence(lines[k])
    decreases |lines| - from
  {
    if from == |lines| || IsFence(lines[from]) then from else NextFence(lines, from + 1)
  }

  function Parse(body: string): Result<Document, Error> {
    var lines := Split(body, '\n');
    if !IsFence(lines[0]) then Failure(NoOpening)
    else
      var close := NextFence(lines, 1);
      if close == |lines| then Failure(NoClosing)
      else Success(Document(lines[1..close], lines[close..]))
  }

  function Render(d: Document): string {
    Join([FENCE] + d.front + d.tail, '\n')
  }

  // ---- The value of a tools line

  predicate IsTools(line: string) {
    |line| >= 6 && line[..6] == TOOLS
  }

  /** A value on the line itself, as opposed to none or the mark of a block scalar. */
  predicate IsFlatValue(value: string) {
    value != "" && value[0] != '|' && value[0] != '>'
  }

  predicate Flat(line: string) {
    IsTools(line) && IsFlatValue(Trim(line[6..]))
  }

  function Kept(parts: seq<string>): seq<string> {
    if parts == [] then []
    else (if Trim(parts[0]) == "" then [] else [Trim(parts[0])]) + Kept(parts[1..])
  }

  function Items(value: string): seq<string> {
    Kept(Split(value, ','))
  }

  function Listed(line: string): seq<string> {
    if Flat(line) then Items(Trim(line[6..])) else []
  }

  function Merged(items: seq<string>, tool: string): seq<string> {
    if tool in items then items else items + [tool]
  }

  function Csv(items: seq<string>): string {
    if items == [] then "" else if |items| == 1 then items[0] else items[0] + ", " + Csv(items[1..])
  }

  function ToolsLine(items: seq<string>): string {
    "tools: " + Csv(items)
  }

  // ---- The edit

  function NewLine(line: string, tool: string): string {
    if Flat(line) then ToolsLine(Merged(Listed(line), tool)) else line
  }

  function NewLines(front: seq<string>, tool: string): seq<string> {
    if front == [] then []
    else NewLines(front[..|front| - 1], tool) + [NewLine(front[|front| - 1], tool)]
  }

  /** Whether there is a tools line and the last one has its value on the line. */
  predicate Found(front: seq<string>) {
    front != []
    && var line := front[|front| - 1];
       if IsTools(line) then Flat(line) else Found(front[..|front| - 1])
  }

  /** What the last flat line lists, if there is one. */
  function LastListed(front: seq<string>): Option<seq<string>> {
    if front == [] then None
    else if Flat(front[|front| - 1]) then Some(Listed(front[|front| - 1]))
    else LastListed(front[..|front| - 1])
  }

  function NewFront(front: seq<string>, tool: string): seq<string> {
    NewLines(front, tool) + if Found(front) then [] else [ToolsLine([tool])]
  }

  datatype Edit = Edit(body: string, csv: string, alreadyPresent: bool)

  function CsvSoFar(listed: Option<seq<string>>, tool: string): string {
    if listed.Some? then Csv(Merged(listed.value, tool)) else ""
  }

  function Append(body: string, tool: string): Result<Edit, Error> {
    match Parse(body)
    case Failure(e) => Failure(e)
    case Success(d) =>
      var listed := LastListed(d.front);
      Success(Edit(Render(Document(NewFront(d.front, tool), d.tail)),
                   if Found(d.front) then CsvSoFar(listed, tool) else tool,
                   listed.Some? && tool in listed.value))
  }

  // ---- The edit, in the source's form

  method AppendTool(body: string, tool: string) returns (r: Result<Edit, Error>)
    ensures r == Append(body, tool)
  {
    var lines := Split(body, '\n');
    if !IsFence(lines[0]) { return Failure(NoOpening); }
    var close := 1;
    while close < |lines| && !IsFence(lines[close])
      invariant 1 <= close <= |lines| && NextFence(lines, 1) == NextFence(lines, close)
    {
      close := close + 1;
    }
    if close == |lines| { return Failure(NoClosing); }
    var front, tail := lines[1..close], lines[close..];
    var rewritten, csv, already := RewriteFront(front, tool);
    var out := EmitAll(rewritten, tail);
    r := Success(Edit(out, csv, already));
  }

  /** A tools line with the tool added to its value if it is not listed; a value of another
      form is left alone. */
  method EditLine(line: string, tool: string) returns (flat: bool, newLine: string, csv: string, present: bool)
    requires IsTools(line)
    ensures flat == Flat(line) && newLine == NewLine(line, tool)
    ensures flat ==> csv == CsvSoFar(Some(Listed(line)), tool) && present == (tool in Listed(line))
  {
    var value := Trim(line[6..]);
    flat, newLine, csv, present := IsFlatValue(value), line, "", false;
    if flat {
      var existing := Items(value);
      present := tool in existing;
      var merged := if present then existing else existing + [tool];
      csv := Csv(merged);
      newLine := "tools: " + csv;
    }
  }

  method RewriteFront(front: seq<string>, tool: string) returns (rewritten: seq<string>, csv: string, already: bool)
    ensures rewritten == NewFront(front, tool)
    ensures csv == if Found(front) then CsvSoFar(LastListed(front), tool) else tool
    ensures already <==> LastListed(front).Some? && tool in LastListed(front).value
  {
    var toolsFound;
    rewritten, toolsFound, csv, already := ScanFront(front, tool);
    if !toolsFound {
      csv := tool;
      rewritten := rewritten + ["tools: " + csv];
    }
  }

  method ScanFront(front: seq<string>, tool: string)
    returns (rewritten: seq<string>, toolsFound: bool, csv: string, already: bool)
    ensures rewritten == NewLines(front, tool)
    ensures toolsFound == Found(front)
    ensures csv == CsvSoFar(LastListed(front), tool)
    ensures already <==> LastListed(front).Some? && tool in LastListed(front).value
  {
    rewritten, toolsFound, csv, already := [], false, "", false;
    for i := 0 to |front|
      invariant rewritten == NewLines(front[..i], tool)
      invariant toolsFound == Found(front[..i])
      invariant csv == CsvSoFar(LastListed(front[..i]), tool)
      invariant already <==> LastListed(front[..i]).Some? && tool in LastListed(front[..i]).value
    {
      var line := front[i];
      ghost var seen := front[..i + 1];
      assert seen[..i] == front[..i] && seen[i] == line;
      var newLine := line;
      if IsTools(line) {
        var flat, edited, merged, present := EditLine(line, tool);
        if flat {
          newLine, csv, already := edited, merged, present;
        }
        toolsFound := flat;
      }
      rewritten := rewritten + [newLine];
    }
    assert front[..|front|] == front;
  }

  function Terminated(lines: seq<string>): string {
    if lines == [] then "" else lines[0] + "\n" + Terminated(lines[1..])
  }

  lemma {:induction false} TerminatedThenJoined(front: seq<string>, tail: seq<string>)
    requires tail != []
    ensures Join(front + tail, '\n') == Terminated(front) + Join(tail, '\n')
  {
    if front == [] {
      assert front + tail == tail;
    } else {
      assert (front + tail)[1..] == front[1..] + tail;
      TerminatedThenJoined(front[1..], tail);
    }
  }

  lemma {:induction false} TerminatedConcat(a: seq<string>, b: seq<string>)
    ensures Terminated(a + b) == Terminated(a) + Terminated(b)
  {
    if a == [] {
      assert a + b == b;
    } else {
      assert (a + b)[1..] == a[1..] + b;
      TerminatedConcat(a[1..], b);
    }
  }

  method EmitAll(front: seq<string>, tail: seq<string>) returns (out: string)
    requires tail != []
    ensures out == Render(Document(front, tail))
  {
    out := "---\n";
    assert Terminated([FENCE]) == "---\n";
    for i := 0 to |front|
      invariant out == Terminated([FENCE] + front[..i])
    {
      out := out + front[i] + "\n";
      TerminatedConcat([FENCE] + front[..i], [front[i]]);
      assert [FENCE] + front[..i] + [front[i]] == [FENCE] + front[..i + 1];
    }
    assert front[..|front|] == front;
    TerminatedThenJoined([FENCE] + front, tail);
    for i := 0 to |tail|
      invariant i < |tail| ==> out + Join(tail[i..], '\n') == Render(Document(front, tail))
      invariant i == |tail| ==> out == Render(Document(front, tail))
    {
      assert tail[i..][0] == tail[i] && tail[i..][1..] == tail[i + 1..];
      out := out + tail[i];
      if i + 1 < |tail| { out := out + "\n"; }
    }
  }

  // ---- The command around it

  datatype AddError = EmptyTool | NoPersona | BadFrontmatter(error: Error)

  /** An agent's file, if it exists. */
  class Persona {
    var file: Option<string>

    /** `add_tool`: the descriptor is trimmed; a refusal leaves the file alone. */
    method AddTool(descriptor: string) returns (r: Result<Edit, AddError>)
      modifies this
      ensures r.Success? <==> && Trim(descriptor) != "" && old(file).Some?
                              && Append(old(file).value, Trim(descriptor)).Success?
      ensures r.Success? ==> && r.value == Append(old(file).value, Trim(descriptor)).value
                             && file == Some(r.value.body)
      ensures r.Failure? ==> file == old(file)
      ensures Trimmed(Trim(descriptor))
    {
      var tool := Trim(descriptor);
      TrimIsTrimmed(descriptor);
      if tool == "" { return Failure(EmptyTool); }
      if file.None? { return Failure(NoPersona); }
      var edit := AppendTool(file.value, tool);
      if edit.Failure? { return Failure(BadFrontmatter(edit.error)); }
      file := Some(edit.value.body);
      r := Success(edit.value);
    }
  }
}
