/** The edit of the tools line told from the text: which lines it rewrites, and what it reports. */
module FrontmatterText {
  import opened Wrappers
  import opened Text
  import opened Frontmatter
  import opened FrontmatterLaws

  /** A fence is three dashes between white space. */
  lemma FenceIff(line: string)
    ensures IsFence(line) <==> exists a: string, b: string :: Blank(a) && Blank(b) && line == a + "---" + b
  {
    if IsFence(line) {
      var a, b := TrimSides(line);
      assert line == a + "---" + b;
    } else if a: string, b: string :| Blank(a) && Blank(b) && line == a + "---" + b {
      TrimAround(a, "---", b);
      TrimOfTrimmed("---");
      assert false;
    }
  }

  /** Position `i` holds the first character of the line's value. */
  ghost predicate ValueAt(line: string, i: nat) {
    6 <= i < |line| && !IsWhitespace(line[i]) && forall j :: 6 <= j < i ==> IsWhitespace(line[j])
  }

  /** The lines rewritten are those that start with `tools:` and have a value there that is not the
      mark of a block. */
  lemma FlatIff(line: string)
    ensures Flat(line) <==>
            && |line| >= 6 && line[..6] == "tools:"
            && exists i: nat :: ValueAt(line, i) && line[i] !in {'|', '>'}
  {
    if |line| >= 6 {
      var rest := line[6..];
      var a, b := TrimSides(rest);
      if Trim(rest) != "" {
        var i := 6 + |a|;
        assert line[i] == rest[|a|] == Trim(rest)[0];
        assert forall j :: 6 <= j < i ==> line[j] == a[j - 6];
        assert ValueAt(line, i);
      } else {
        assert rest == a + b;
        assert forall j :: 6 <= j < |line| ==> line[j] == rest[j - 6];
      }
    }
  }

  /** Line `j` is the last tools line. */
  ghost predicate LastTools(front: seq<string>, j: nat) {
    j < |front| && IsTools(front[j]) && forall k :: j < k < |front| ==> !IsTools(front[k])
  }

  lemma {:induction false} LastToolsLine(front: seq<string>) returns (j: nat)
    requires Found(front)
    ensures LastTools(front, j) && Flat(front[j]) && LastListed(front) == Some(Listed(front[j]))
  {
    var n := |front| - 1;
    if IsTools(front[n]) {
      j := n;
    } else {
      j := LastToolsLine(front[..n]);
      assert forall k :: j < k < n ==> front[k] == front[..n][k];
    }
  }

  /** Whether a line is added is decided by the last tools line, and what counts as listed by the
      last flat one. */
  lemma {:induction false} FoundIff(front: seq<string>)
    ensures Found(front) <==> exists j: nat :: LastTools(front, j) && Flat(front[j])
  {
    if front != [] && !IsTools(front[|front| - 1]) {
      var init := front[..|front| - 1];
      FoundIff(init);
      forall j: nat ensures LastTools(front, j) <==> LastTools(init, j) {
        if LastTools(init, j) { assert forall k :: j < k < |init| ==> front[k] == init[k]; }
        if LastTools(front, j) { assert forall k :: j < k < |init| ==> init[k] == front[k]; }
      }
    } else if front != [] {
      assert LastTools(front, |front| - 1);
    }
  }

  ghost predicate LastFlat(front: seq<string>, j: nat) {
    j < |front| && Flat(front[j]) && forall k :: j < k < |front| ==> !Flat(front[k])
  }

  lemma LastFlatInit(front: seq<string>)
    requires front != [] && !Flat(front[|front| - 1])
    ensures forall j: nat :: LastFlat(front, j) <==> LastFlat(front[..|front| - 1], j)
  {
    hide Flat;
    var init := front[..|front| - 1];
    forall j: nat ensures LastFlat(front, j) <==> LastFlat(init, j) {
      if LastFlat(init, j) { assert forall k :: j < k < |init| ==> front[k] == init[k]; }
      if LastFlat(front, j) { assert forall k :: j < k < |init| ==> init[k] == front[k]; }
    }
  }

  lemma {:induction false} PresentFrom(front: seq<string>, listed: seq<string>)
    ensures LastListed(front) == Some(listed) <==> exists j: nat :: LastFlat(front, j) && Listed(front[j]) == listed
  {
    hide Flat, Listed;
    if front != [] && !Flat(front[|front| - 1]) {
      var init := front[..|front| - 1];
      PresentFrom(init, listed);
      LastFlatInit(front);
      assert forall j: nat :: j < |init| ==> init[j] == front[j];
    } else if front != [] {
      assert LastFlat(front, |front| - 1);
    }
  }

  /** Which documents are refused, and how the others are taken apart: at the first closing fence
      after the opening line. */
  lemma ParsedIff(body: string)
    ensures var lines := Split(body, '\n');
            match Parse(body)
            case Failure(NoOpening) => !IsFence(lines[0])
            case Failure(NoClosing) => IsFence(lines[0]) && forall i :: 0 < i < |lines| ==> !IsFence(lines[i])
            case Success(d) =>
              && IsFence(lines[0]) && lines == [lines[0]] + d.front + d.tail
              && d.tail != [] && IsFence(d.tail[0]) && forall i :: 0 <= i < |d.front| ==> !IsFence(d.front[i])
  {
  }

  /** What is reported as the new list is what stands behind `tools: ` on the last tools line
      written. */
  lemma ReportedIsWritten(body: string, tool: string) returns (j: nat)
    requires tool != "" && Trimmed(tool) && '\n' !in tool && Append(body, tool).Success?
    ensures var e := Append(body, tool).value;
            && Parse(e.body).Success?
            && LastTools(Parse(e.body).value.front, j)
            && Parse(e.body).value.front[j] == "tools: " + e.csv
  {
    var d := Parse(body).value;
    ParseYieldsParsed(body);
    NewFrontIsParsed(d, tool);
    ParseOfRender(Document(NewFront(d.front, tool), d.tail));
    NewLinesAt(d.front, tool);
    var front' := NewFront(d.front, tool);
    if Found(d.front) {
      j := LastToolsLine(d.front);
      KindsStay(d.front, tool, j);
    } else {
      j := |d.front|;
      AppendedLine(tool);
    }
  }

  lemma KindsStay(front: seq<string>, tool: string, j: nat)
    requires tool != "" && Trimmed(tool) && LastTools(front, j)
    ensures LastTools(NewLines(front, tool), j)
  {
    NewLinesAt(front, tool);
    NewLineKeepsKind(front[j], tool);
    forall k | j < k < |front| ensures !IsTools(NewLines(front, tool)[k]) { NewLineKeepsKind(front[k], tool); }
  }

  /** The edit of a document whose front matter is one flat tools line. */
  lemma OneLine(line: string, tail: seq<string>, tool: string)
    requires Parsed(Document([line], tail)) && Flat(line)
    ensures Append(Render(Document([line], tail)), tool)
            == Success(Edit(Render(Document([NewLine(line, tool)], tail)), Csv(Merged(Listed(line), tool)),
                            tool in Listed(line)))
  {
    ParseOfRender(Document([line], tail));
    var none: seq<string> := [];
    assert [line][..0] == none && NewLines(none, tool) == [];
    assert NewLines([line], tool) == [NewLine(line, tool)];
    assert NewFront([line], tool) == [NewLine(line, tool)];
  }

  /** One edit in full, as text. */
  lemma WrittenOut()
    ensures Append("---\n" + "tools: A" + "\n---\nrest", "B")
            == Success(Edit("---\n" + "tools: A, B" + "\n---\nrest", "A, B", false))
  {
    hide Append, Render, Parsed, Csv, Merged, Flat, Listed, NewLine;
    var tail := ["---", "rest"];
    ListOfOne();
    OneIsParsed();
    EditOfOne();
    OneLine("tools: A", tail, "B");
    Texts("tools: A", tail);
    Texts("tools: A, B", tail);
    assert "B" !in ["A"];
  }

  lemma ListOfOne()
    ensures Flat("tools: A") && Listed("tools: A") == ["A"]
  {
    assert ToolsLine(["A"]) == "tools: A";
    PrintedLine(["A"]);
    RereadOfListed(["A"]);
  }

  lemma OneIsParsed()
    ensures Parsed(Document(["tools: A"], ["---", "rest"]))
  {
    assert "tools: A"[..6] == TOOLS;
    ToolsIsNoFence("tools: A");
    TrimOfTrimmed("---");
  }

  lemma EditOfOne()
    ensures NewLine("tools: A", "B") == "tools: A, B" && Csv(Merged(["A"], "B")) == "A, B"
  {
    ListOfOne();
    assert Merged(["A"], "B") == ["A", "B"];
    assert ["A", "B"][1..] == ["B"];
    assert "A" + ", " + "B" == "A, B";
    assert "tools: " + "A, B" == "tools: A, B";
  }

  lemma Texts(line: string, tail: seq<string>)
    requires tail == ["---", "rest"]
    ensures Render(Document([line], tail)) == "---\n" + line + "\n---\nrest"
  {
    var parts := ["---", line, "---", "rest"];
    assert [FENCE] + [line] + tail == parts;
    assert parts[1..] == [line, "---", "rest"] && parts[1..][1..] == tail && tail[1..] == ["rest"];
    assert Join(["rest"], '\n') == "rest";
    assert Join(tail, '\n') == "---" + ['\n'] + "rest";
    assert Join(parts[1..], '\n') == line + ['\n'] + Join(tail, '\n');
  }
}
