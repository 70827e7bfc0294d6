/**
 What `already_present` tells the caller: when re-adding a tool leaves the file untouched apart
 from the idempotent rewrite of its lists, and when it does not.
 */
module FrontmatterNoOp {
  import opened Wrappers
  import opened Text
  import opened Frontmatter
  import opened FrontmatterLaws

  /** The front matter with every flat tools line rewritten with the list it has. */
  function Normal(front: seq<string>): seq<string> {
    if front == [] then []
    else Normal(front[..|front| - 1]) + [NormalLine(front[|front| - 1])]
  }

  function NormalLine(line: string): string {
    if Flat(line) then ToolsLine(Listed(line)) else line
  }

  ghost predicate EveryLineLists(front: seq<string>, tool: string) {
    forall i :: 0 <= i < |front| ==> LineLists(front[i], tool)
  }

  ghost predicate LineLists(line: string, tool: string) {
    Flat(line) ==> tool in Listed(line)
  }

  /** A line is rewritten with the list it has exactly when the list holds the tool. */
  lemma SameListIff(line: string, tool: string)
    requires tool != ""
    ensures NewLine(line, tool) == NormalLine(line) <==> LineLists(line, tool)
  {
    if Flat(line) && tool !in Listed(line) { CsvSnoc(Listed(line), tool); }
  }

  lemma {:induction false} NormalLength(front: seq<string>, tool: string)
    ensures |Normal(front)| == |NewLines(front, tool)| == |front|
  {
    if front != [] { NormalLength(front[..|front| - 1], tool); }
  }

  lemma {:induction false} NormalIff(front: seq<string>, tool: string)
    requires tool != ""
    ensures NewLines(front, tool) == Normal(front) <==> EveryLineLists(front, tool)
  {
    if front != [] {
      var init, line := front[..|front| - 1], front[|front| - 1];
      NormalIff(init, tool);
      NormalSnoc(init, line, tool);
      EverySnoc(init, line, tool);
      assert front == init + [line];
    }
  }

  lemma NormalSnoc(init: seq<string>, line: string, tool: string)
    requires tool != ""
    ensures NewLines(init + [line], tool) == Normal(init + [line])
            <==> NewLines(init, tool) == Normal(init) && LineLists(line, tool)
  {
    assert (init + [line])[..|init|] == init;
    SameListIff(line, tool);
    SnocEqual(NewLines(init, tool), NewLine(line, tool), Normal(init), NormalLine(line));
  }

  lemma EverySnoc(init: seq<string>, line: string, tool: string)
    ensures EveryLineLists(init + [line], tool) <==> EveryLineLists(init, tool) && LineLists(line, tool)
  {
    if EveryLineLists(init + [line], tool) {
      assert (init + [line])[|init|] == line;
      forall i | 0 <= i < |init| ensures LineLists(init[i], tool) { assert (init + [line])[i] == init[i]; }
    }
  }

  lemma SnocEqual<T>(a: seq<T>, x: T, b: seq<T>, y: T)
    ensures a + [x] == b + [y] <==> a == b && x == y
  {
    if a + [x] == b + [y] {
      assert (a + [x])[..|a|] == a && (b + [y])[..|b|] == b;
      assert (a + [x])[|a|] == x && (b + [y])[|b|] == y;
    }
  }

  lemma {:induction false} NormalAt(front: seq<string>, i: nat)
    requires i < |front|
    ensures |Normal(front)| == |front| && Normal(front)[i] == NormalLine(front[i])
  {
    var n := |front| - 1;
    if i < n { NormalAt(front[..n], i); } else { NormalLength(front[..n], ""); }
  }

  lemma NormalIsParsed(d: Document)
    requires Parsed(d)
    ensures Parsed(Document(Normal(d.front), d.tail))
  {
    NormalLength(d.front, "");
    forall i | 0 <= i < |d.front| ensures '\n' !in Normal(d.front)[i] && !IsFence(Normal(d.front)[i]) {
      NormalAt(d.front, i);
      if Flat(d.front[i]) { NormalLineIsParsed(d.front[i]); }
    }
  }

  lemma NormalLineIsParsed(line: string)
    requires Flat(line) && '\n' !in line
    ensures '\n' !in NormalLine(line) && !IsFence(NormalLine(line))
  {
    ListedIsGood(line, '\n');
    CsvHolds(Listed(line), '\n');
    assert '\n' !in ToolsLine(Listed(line));
    assert ToolsLine(Listed(line))[..6] == TOOLS;
    ToolsIsNoFence(ToolsLine(Listed(line)));
  }

  /** The call leaves the file untouched apart from the rewrite of its lists. */
  ghost predicate IsNoOp(body: string, tool: string)
    requires Append(body, tool).Success?
  {
    var d := Parse(body).value;
    Append(body, tool).value.body == Render(Document(Normal(d.front), d.tail))
  }

  /** Main result on no-ops, for every document and tool: the call only rewrites the lists that
      are there if and only if the last tools line has its value on the line and every such line
      lists the tool. */
  lemma NoOpIff(body: string, tool: string)
    requires tool != "" && Trimmed(tool) && Append(body, tool).Success?
    ensures var front := Parse(body).value.front;
            IsNoOp(body, tool) <==> Found(front) && EveryLineLists(front, tool)
  {
    var d := Parse(body).value;
    ParseYieldsParsed(body);
    NormalIsParsed(d);
    NormalLength(d.front, tool);
    NormalIff(d.front, tool);
    var normal := Document(Normal(d.front), d.tail);
    if '\n' in tool {
      LineBreakGrows(body, tool);
      PartsOf(normal);
      if Found(d.front) {
        var j := FoundLine(d.front);
        assert '\n' !in d.front[j];
        ListedIsGood(d.front[j], '\n');
      }
    } else {
      NewFrontIsParsed(d, tool);
      SameTextSameFront(Document(NewFront(d.front, tool), d.tail), normal);
    }
  }

  /** What the verdict is worth, exact. It speaks of the last flat line alone: a call that reports
      the tool present adds a line exactly when a block line follows it, and is the no-op the
      caller is promised exactly when none does and every other flat line lists the tool too. */
  lemma PresentIff(body: string, tool: string)
    requires tool != "" && Trimmed(tool) && Append(body, tool).Success?
    ensures var d, e := Parse(body).value, Append(body, tool).value;
            var listed := LastListed(d.front);
            && (e.alreadyPresent && |NewFront(d.front, tool)| > |d.front|
                <==> listed.Some? && tool in listed.value && !Found(d.front))
            && (e.alreadyPresent && !IsNoOp(body, tool)
                <==> listed.Some? && tool in listed.value && !(Found(d.front) && EveryLineLists(d.front, tool)))
            && (IsNoOp(body, tool) ==> e.alreadyPresent)
  {
    var d := Parse(body).value;
    NoOpIff(body, tool);
    NewLinesAt(d.front, tool);
    if Found(d.front) && EveryLineLists(d.front, tool) { LastIsFlat(d.front, tool); }
  }

  lemma {:induction false} LastIsFlat(front: seq<string>, tool: string)
    requires Found(front) && EveryLineLists(front, tool)
    ensures LastListed(front).Some? && tool in LastListed(front).value
  {
    var n := |front| - 1;
    assert front == front[..n] + [front[n]];
    if !IsTools(front[n]) { LastIsFlat(front[..n], tool); }
  }

  // ---- Two documents on which the verdict misleads

  lemma OneTool(tool: string)
    requires tool in {"A", "B"}
    ensures var line := ToolsLine([tool]);
            Flat(line) && Listed(line) == [tool] && !IsFence(line) && '\n' !in line
    ensures Trimmed(tool) && tool != ""
  {
    PrintedLine([tool]);
    RereadOfListed([tool]);
    ToolsIsNoFence(ToolsLine([tool]));
    CsvHolds([tool], '\n');
  }

  lemma TwoLines(a: string, b: string, tool: string)
    ensures NewLines([a, b], tool) == [NewLine(a, tool), NewLine(b, tool)]
    ensures IsTools(b) ==> (Found([a, b]) <==> Flat(b))
    ensures LastListed([a, b]) == if Flat(b) then Some(Listed(b)) else if Flat(a) then Some(Listed(a)) else None
  {
    var none: seq<string> := [];
    assert [a, b][..1] == [a] && [a][..0] == none;
    assert NewLines(none, tool) == [] && LastListed(none).None?;
    assert NewLines([a], tool) == [NewLine(a, tool)];
  }

  /** An edit of a document made of two tools lines. */
  lemma Sample(a: string, b: string, tool: string)
    requires tool != "" && IsTools(a) && IsTools(b) && '\n' !in a && '\n' !in b
    ensures var body := Render(Document([a, b], [FENCE]));
            && Parse(body) == Success(Document([a, b], [FENCE]))
            && Append(body, tool).Success?
            && Append(body, tool).value.body == Render(Document(NewFront([a, b], tool), [FENCE]))
            && (Append(body, tool).value.alreadyPresent
                <==> LastListed([a, b]).Some? && tool in LastListed([a, b]).value)
  {
    TrimOfTrimmed(FENCE);
    ToolsIsNoFence(a);
    ToolsIsNoFence(b);
    ParseOfRender(Document([a, b], [FENCE]));
  }

  /** `tools: A` then `tools: B`: adding `B` reports it present and rewrites the first list. */
  lemma PresentYetChanged()
    ensures var front := [ToolsLine(["A"]), ToolsLine(["B"])];
            var body := Render(Document(front, [FENCE]));
            && Append(body, "B").Success? && Append(body, "B").value.alreadyPresent
            && Append(body, "B").value.body == Render(Document([ToolsLine(["A", "B"]), ToolsLine(["B"])], [FENCE]))
            && !IsNoOp(body, "B")
  {
    var a, b := ToolsLine(["A"]), ToolsLine(["B"]);
    OneTool("A");
    OneTool("B");
    Sample(a, b, "B");
    TwoLines(a, b, "B");
    assert Merged(["A"], "B") == ["A", "B"];
    assert NewFront([a, b], "B") == [ToolsLine(["A", "B"]), b];
    NoOpIff(Render(Document([a, b], [FENCE])), "B");
    assert !LineLists([a, b][0], "B");
  }

  /** `tools: A` then an empty `tools:`: adding `A` reports it present and adds a line. */
  lemma PresentYetAdded()
    ensures var front := [ToolsLine(["A"]), TOOLS];
            var body := Render(Document(front, [FENCE]));
            && Append(body, "A").Success? && Append(body, "A").value.alreadyPresent
            && Append(body, "A").value.body
               == Render(Document([ToolsLine(["A"]), TOOLS, ToolsLine(["A"])], [FENCE]))
  {
    var a := ToolsLine(["A"]);
    OneTool("A");
    assert TOOLS[6..] == "" && !Flat(TOOLS) && IsTools(TOOLS);
    Sample(a, TOOLS, "A");
    TwoLines(a, TOOLS, "A");
    assert NewFront([a, TOOLS], "A") == [a, TOOLS, a];
  }
}
