/** When adding a tool twice is the same as adding it once, and what an edit leaves alone. */
module FrontmatterLaws {
  import opened Wrappers
  import opened Text
  import opened Frontmatter

  // ---- Lists of items and their text

  ghost predicate Good(items: seq<string>) {
    forall i :: 0 <= i < |items| ==> items[i] != "" && Trimmed(items[i])
  }

  lemma {:induction false} KeptConcat(a: seq<string>, b: seq<string>)
    ensures Kept(a + b) == Kept(a) + Kept(b)
  {
    if a == [] {
      assert a + b == b;
    } else {
      assert (a + b)[1..] == a[1..] + b;
      KeptConcat(a[1..], b);
    }
  }

  /** Kept items are trimmed, and hold no character that no piece holds. */
  lemma KeptIsGood(parts: seq<string>, c: char)
    ensures Good(Kept(parts))
    ensures NoneHolds(parts, c) ==> NoneHolds(Kept(parts), c)
  {
    KeptAreTrimmed(parts);
    if NoneHolds(parts, c) { KeptHoldNoMore(parts, c); }
  }

  lemma {:induction false} KeptAreTrimmed(parts: seq<string>)
    ensures Good(Kept(parts))
  {
    if parts != [] {
      KeptAreTrimmed(parts[1..]);
      TrimIsTrimmed(parts[0]);
    }
  }

  lemma {:induction false} KeptHoldNoMore(parts: seq<string>, c: char)
    requires NoneHolds(parts, c)
    ensures NoneHolds(Kept(parts), c)
  {
    if parts != [] {
      KeptHoldNoMore(parts[1..], c);
      TrimHoldsNoMore(parts[0], c);
    }
  }

  lemma ListedIsGood(line: string, c: char)
    ensures Good(Listed(line)) && NoneHolds(Listed(line), ',')
    ensures c !in line ==> NoneHolds(Listed(line), c)
  {
    if Flat(line) {
      var value := Trim(line[6..]);
      var pieces := Split(value, ',');
      PiecesHoldNoSeparator(value, ',');
      KeptIsGood(pieces, ',');
      if c !in line {
        TrimHoldsNoMore(line[6..], c);
        PiecesHoldNoMore(value, ',', c);
        KeptIsGood(pieces, c);
      }
    }
  }

  lemma {:induction false} PiecesHoldNoMore(s: string, sep: char, c: char)
    requires c !in s
    ensures NoneHolds(Split(s, sep), c)
  {
    if s != "" { PiecesHoldNoMore(s[1..], sep, c); }
  }

  /** The text of a list starts with its first item and has no white space around it. */
  lemma {:induction false} CsvIsTrimmed(items: seq<string>)
    requires items != [] && Good(items)
    ensures Csv(items) != "" && Trimmed(Csv(items)) && Csv(items)[0] == items[0][0]
  {
    if |items| > 1 { CsvIsTrimmed(items[1..]); }
  }

  lemma {:induction false} CsvHolds(items: seq<string>, c: char)
    ensures c != ',' && c != ' ' && NoneHolds(items, c) ==> c !in Csv(items)
    ensures !NoneHolds(items, c) ==> c in Csv(items)
  {
    if |items| > 1 {
      CsvHolds(items[1..], c);
      if c !in items[0] && !NoneHolds(items, c) {
        var i :| 0 < i < |items| && c in items[i];
        assert items[1..][i - 1] == items[i];
      }
    }
  }

  lemma ItemsAround(a: string, b: string)
    ensures Items(a + ", " + b) == Items(a) + Items(b)
  {
    assert a + ", " + b == a + [','] + (" " + b);
    SplitAround(a, " " + b, ',');
    KeptConcat(Split(a, ','), Split(" " + b, ','));
    assert (" " + b)[1..] == b;
    var p := Split(b, ',');
    assert Split(" " + b, ',') == [" " + p[0]] + p[1..];
    assert (" " + p[0])[1..] == p[0];
    assert Trim(" " + p[0]) == Trim(p[0]);
  }

  /** What a list of items lists once printed: an item that holds commas falls apart. */
  function Reread(items: seq<string>): seq<string> {
    if items == [] then [] else Items(items[0]) + Reread(items[1..])
  }

  lemma {:induction false} ItemsOfCsv(items: seq<string>)
    requires items != []
    ensures Items(Csv(items)) == Reread(items)
  {
    if |items| == 1 {
      assert Reread(items[1..]) == [];
    } else {
      ItemsOfCsv(items[1..]);
      ItemsAround(items[0], Csv(items[1..]));
    }
  }

  lemma ItemsOfItem(item: string)
    requires item != "" && Trimmed(item) && ',' !in item
    ensures Items(item) == [item]
  {
    SplitOfPiece(item, ',');
    TrimOfTrimmed(item);
    KeptOne(item);
  }

  lemma KeptOne(piece: string)
    ensures Kept([piece]) == if Trim(piece) == "" then [] else [Trim(piece)]
  {
    assert [piece][1..] == [];
  }

  lemma {:induction false} RereadOfListed(items: seq<string>)
    requires Good(items) && NoneHolds(items, ',')
    ensures Reread(items) == items
  {
    if items != [] {
      ItemsOfItem(items[0]);
      RereadOfListed(items[1..]);
    }
  }

  lemma {:induction false} RereadOfSnoc(items: seq<string>, tool: string)
    ensures Reread(items + [tool]) == Reread(items) + Items(tool)
  {
    if items == [] {
      assert items + [tool] == [tool] + [];
      assert Items(tool) + [] == [] + Items(tool);
    } else {
      var first, rest := items[0], items[1..];
      HeadAndTail(items, tool);
      RereadOfSnoc(rest, tool);
    }
  }

  lemma HeadAndTail<T>(s: seq<T>, x: T)
    requires s != []
    ensures [s[0]] + s[1..] == s && [s[0]] + (s[1..] + [x]) == s + [x]
  {
  }

  // ---- One line

  ghost predicate Shown(item: string) {
    item != "" && item[0] != '|' && item[0] != '>'
  }

  /** A tool is printed so that it is read back as itself, or as nothing at all. */
  ghost predicate Plain(tool: string) {
    Items(tool) == [tool] || Items(tool) == []
  }

  lemma PrintedValue(items: seq<string>)
    requires items != [] && Good(items)
    ensures IsTools(ToolsLine(items)) && Trim(ToolsLine(items)[6..]) == Csv(items)
  {
    CsvIsTrimmed(items);
    assert ToolsLine(items)[6..] == " " + Csv(items) + "";
    TrimAround(" ", Csv(items), "");
  }

  /** Reading back a printed line. */
  lemma PrintedLine(items: seq<string>)
    requires items != [] && Good(items)
    ensures var line := ToolsLine(items);
            && IsTools(line) && (Flat(line) <==> Shown(items[0]))
            && (Flat(line) ==> Listed(line) == Reread(items))
  {
    PrintedValue(items);
    CsvIsTrimmed(items);
    ItemsOfCsv(items);
  }

  lemma PlainOrComma(tool: string)
    requires tool != "" && Trimmed(tool)
    ensures ',' !in tool ==> Items(tool) == [tool]
  {
    if ',' !in tool { ItemsOfItem(tool); }
  }

  lemma MergedIsGood(line: string, tool: string)
    requires tool != "" && Trimmed(tool)
    ensures Merged(Listed(line), tool) != [] && Good(Merged(Listed(line), tool))
    ensures ',' !in tool ==> NoneHolds(Merged(Listed(line), tool), ',')
  {
    ListedIsGood(line, ',');
  }

  /** Editing an edited line again changes it exactly when it is still read as a value and the
      tool is not plain. */
  lemma LineAgain(line: string, tool: string)
    requires tool != "" && Trimmed(tool) && Flat(line)
    ensures var line' := NewLine(line, tool);
            NewLine(line', tool) == line' <==> Plain(tool) || !Flat(line')
  {
    var items := Listed(line);
    ListedIsGood(line, ',');
    MergedIsGood(line, tool);
    PrintedLine(Merged(items, tool));
    if tool in items { RereadOfListed(items); } else { PrintedAgain(items, tool); }
    if tool in items { assert ',' !in tool; PlainOrComma(tool); }
  }

  /** The printed line after an item was added, edited again. */
  lemma PrintedAgain(items: seq<string>, tool: string)
    requires tool != "" && Trimmed(tool) && Good(items) && NoneHolds(items, ',')
    ensures var line' := ToolsLine(items + [tool]);
            NewLine(line', tool) == line' <==> Plain(tool) || !Flat(line')
  {
    PrintedLine(items + [tool]);
    RereadOfListed(items);
    RereadOfSnoc(items, tool);
    if ',' in tool {
      ToolNotReread(items, tool);
      if Items(tool) == [] {
        assert items + [] == items;
      } else {
        PrintsLonger(items, tool);
      }
    } else {
      PlainOrComma(tool);
    }
  }

  lemma ToolNotReread(items: seq<string>, tool: string)
    requires NoneHolds(items, ',') && ',' in tool
    ensures tool !in items + Items(tool) && Items(tool) != [tool]
  {
    PiecesHoldNoSeparator(tool, ',');
    KeptIsGood(Split(tool, ','), ',');
  }

  lemma PrintsLonger(items: seq<string>, tool: string)
    requires Items(tool) != []
    ensures |ToolsLine(items + Items(tool) + [tool])| > |ToolsLine(items + [tool])|
  {
    CsvSnoc(items, tool);
    CsvSnoc(items + Items(tool), tool);
    CsvGrows(items, Items(tool));
  }

  lemma {:induction false} CsvSnoc(items: seq<string>, x: string)
    ensures |Csv(items + [x])| == |Csv(items)| + |x| + if items == [] then 0 else 2
  {
    if items != [] {
      assert (items + [x])[1..] == items[1..] + [x];
      CsvSnoc(items[1..], x);
    }
  }

  lemma {:induction false} CsvGrows(a: seq<string>, b: seq<string>)
    ensures |Csv(a + b)| >= |Csv(a)|
    ensures a != [] && b != [] ==> |Csv(a + b)| > |Csv(a)|
  {
    if b == [] {
      assert a + b == a;
    } else {
      var n := |b| - 1;
      assert a + b == (a + b[..n]) + [b[n]];
      CsvGrows(a, b[..n]);
      CsvSnoc(a + b[..n], b[n]);
    }
  }

  // ---- The front matter

  lemma {:induction false} NewLinesAt(front: seq<string>, tool: string)
    ensures |NewLines(front, tool)| == |front|
    ensures forall i :: 0 <= i < |front| ==> NewLines(front, tool)[i] == NewLine(front[i], tool)
  {
    if front != [] {
      NewLinesAt(front[..|front| - 1], tool);
    }
  }

  /** The first item of the last tools line once edited. */
  function FirstShown(front: seq<string>, tool: string): string {
    if Found(front) && LastListed(front).Some? then Merged(LastListed(front).value, tool)[0] else tool
  }

  lemma NewLineKeepsKind(line: string, tool: string)
    requires tool != "" && Trimmed(tool)
    ensures IsTools(NewLine(line, tool)) <==> IsTools(line)
    ensures !Flat(line) ==> NewLine(line, tool) == line
    ensures Flat(line) ==> (Flat(NewLine(line, tool)) <==> Shown(Merged(Listed(line), tool)[0]))
  {
    if Flat(line) {
      MergedIsGood(line, tool);
      PrintedLine(Merged(Listed(line), tool));
    }
  }

  /** Whether the edited lines end in a value again, and when a second edit changes them. */
  lemma {:induction false} LinesAgain(front: seq<string>, tool: string)
    requires tool != "" && Trimmed(tool)
    ensures var front' := NewLines(front, tool);
            && (Found(front) ==> LastListed(front).Some? && (Found(front') <==> Shown(FirstShown(front, tool))))
            && (!Found(front) ==> !Found(front'))
            && (Plain(tool) ==> NewLines(front', tool) == front')
            && (!Plain(tool) && Found(front') ==> NewLines(front', tool) != front')
  {
    if front != [] {
      var line, init := front[|front| - 1], front[..|front| - 1];
      LinesAgain(init, tool);
      NewLineKeepsKind(line, tool);
      NewLineKeepsKind(NewLine(line, tool), tool);
      if Flat(line) { LineAgain(line, tool); }
      var front' := NewLines(front, tool);
      assert front'[..|front'| - 1] == NewLines(init, tool) && front'[|front'| - 1] == NewLine(line, tool);
    }
  }

  lemma AppendedLine(tool: string)
    requires tool != "" && Trimmed(tool)
    ensures var line := ToolsLine([tool]);
            && IsTools(line) && (Flat(line) <==> Shown(tool))
            && (NewLine(line, tool) == line <==> Plain(tool) || !Shown(tool))
  {
    PrintedLine([tool]);
    PrintedAgain([], tool);
    assert [] + [tool] == [tool];
  }

  /** Editing the front matter twice is editing it once exactly for a plain tool whose edited
      line still reads as a value. */
  lemma FrontAgain(front: seq<string>, tool: string)
    requires tool != "" && Trimmed(tool)
    ensures var front' := NewFront(front, tool);
            && (Found(front') <==> Shown(FirstShown(front, tool)))
            && (NewFront(front', tool) == front' <==> Plain(tool) && Found(front'))
  {
    LinesAgain(front, tool);
    var front' := NewFront(front, tool);
    NewLinesAt(front', tool);
    if Found(front) {
      assert front' == NewLines(front, tool);
    } else {
      AppendedLine(tool);
      var line := ToolsLine([tool]);
      assert front'[..|front'| - 1] == NewLines(front, tool) && front'[|front'| - 1] == line;
    }
    if !Found(front') { assert |NewFront(front', tool)| == |front'| + 1; }
    if Found(front') { assert NewFront(front', tool) == NewLines(front', tool); }
  }

  // ---- The whole document

  /** A document as parsing yields it. */
  ghost predicate Parsed(d: Document) {
    && NoneHolds(d.front, '\n') && NoneHolds(d.tail, '\n')
    && (forall i :: 0 <= i < |d.front| ==> !IsFence(d.front[i]))
    && d.tail != [] && IsFence(d.tail[0])
  }

  lemma ParseYieldsParsed(body: string)
    requires Parse(body).Success?
    ensures Parsed(Parse(body).value)
    ensures |Split(body, '\n')| == 1 + |Parse(body).value.front| + |Parse(body).value.tail|
  {
    PiecesHoldNoSeparator(body, '\n');
  }

  lemma PartsOf(d: Document)
    requires Parsed(d)
    ensures Split(Render(d), '\n') == [FENCE] + d.front + d.tail
  {
    assert NoneHolds([FENCE] + d.front + d.tail, '\n');
    SplitOfJoin([FENCE] + d.front + d.tail, '\n');
  }

  /** Printing then parsing gives the document back: same lines, same closing fence. */
  lemma ParseOfRender(d: Document)
    requires Parsed(d)
    ensures Parse(Render(d)) == Success(d)
  {
    PartsOf(d);
    var lines := [FENCE] + d.front + d.tail;
    TrimOfTrimmed(FENCE);
    var close := NextFence(lines, 1);
    assert lines[1 + |d.front|] == d.tail[0];
    assert forall i :: 0 <= i < |d.front| ==> lines[1 + i] == d.front[i];
    assert close == 1 + |d.front|;
    assert lines[1..close] == d.front && lines[close..] == d.tail;
  }

  lemma ToolsIsNoFence(line: string)
    requires IsTools(line)
    ensures !IsFence(line)
  {
    assert line[0] == TOOLS[0];
    var left, right := TrimSides(line);
    assert (left + Trim(line) + right)[0] == 't';
    assert Trim(line) != [] ==> Trim(line)[0] == line[0];
  }

  lemma NewLineHolds(line: string, tool: string)
    requires tool != "" && Trimmed(tool)
    ensures '\n' !in line && '\n' !in tool ==> '\n' !in NewLine(line, tool)
    ensures '\n' !in line && '\n' in tool && Flat(line) ==> '\n' in NewLine(line, tool)
  {
    ListedIsGood(line, '\n');
    CsvHolds(Merged(Listed(line), tool), '\n');
    if Flat(line) && '\n' !in line && '\n' in tool {
      var merged := Merged(Listed(line), tool);
      assert merged[|merged| - 1] == tool;
    }
  }

  lemma NewFrontIsParsed(d: Document, tool: string)
    requires Parsed(d) && tool != "" && Trimmed(tool) && '\n' !in tool
    ensures Parsed(Document(NewFront(d.front, tool), d.tail))
  {
    NewLinesAt(d.front, tool);
    var front' := NewFront(d.front, tool);
    CsvHolds([tool], '\n');
    AppendedLine(tool);
    forall i | 0 <= i < |front'| ensures '\n' !in front'[i] && !IsFence(front'[i]) {
      if i < |d.front| {
        NewLineHolds(d.front[i], tool);
        NewLineKeepsKind(d.front[i], tool);
        if Flat(d.front[i]) { ToolsIsNoFence(front'[i]); }
      } else {
        ToolsIsNoFence(front'[i]);
      }
    }
  }

  lemma {:induction false} FoundLine(front: seq<string>) returns (j: nat)
    requires Found(front)
    ensures j < |front| && Flat(front[j])
  {
    j := |front| - 1;
    if !IsTools(front[j]) { j := FoundLine(front[..j]); }
  }

  lemma FoundHoldsBreak(d: Document, tool: string)
    requires Parsed(d) && tool != "" && Trimmed(tool) && '\n' in tool && Found(d.front)
    ensures !NoneHolds([FENCE] + NewFront(d.front, tool) + d.tail, '\n')
  {
    var j := FoundLine(d.front);
    NewLinesAt(d.front, tool);
    assert '\n' !in d.front[j];
    NewLineHolds(d.front[j], tool);
    HeldInTheMiddle([FENCE], NewFront(d.front, tool), d.tail, j, '\n');
  }

  lemma HeldInTheMiddle<T>(a: seq<seq<T>>, b: seq<seq<T>>, c: seq<seq<T>>, j: nat, sep: T)
    requires j < |b| && sep in b[j]
    ensures !NoneHolds(a + b + c, sep)
  {
    assert (a + b + c)[|a| + j] == b[j];
  }

  /** A tool that holds a line break adds at least one line every time. */
  lemma LineBreakGrows(body: string, tool: string)
    requires tool != "" && Trimmed(tool) && '\n' in tool && Append(body, tool).Success?
    ensures |Split(Append(body, tool).value.body, '\n')| > |Split(body, '\n')|
  {
    ParseYieldsParsed(body);
    var d := Parse(body).value;
    NewLinesAt(d.front, tool);
    SplitOfJoinGrows([FENCE] + NewFront(d.front, tool) + d.tail, '\n');
    if Found(d.front) { FoundHoldsBreak(d, tool); }
  }

  /** Main result on stability: adding a tool a second time changes nothing if and only if the
      tool holds no line break, is read back as itself or as nothing, and the last tools line,
      as first edited, still reads as a value. */
  lemma StableIff(body: string, tool: string)
    requires tool != "" && Trimmed(tool) && Append(body, tool).Success?
    ensures var once := Append(body, tool).value.body;
            Append(once, tool).Success? && Append(once, tool).value.body == once
            <==> '\n' !in tool && Plain(tool) && Shown(FirstShown(Parse(body).value.front, tool))
  {
    var d := Parse(body).value;
    var once := Append(body, tool).value.body;
    if '\n' in tool {
      if Append(once, tool).Success? { LineBreakGrows(once, tool); }
    } else {
      ParseYieldsParsed(body);
      NewFrontIsParsed(d, tool);
      var d' := Document(NewFront(d.front, tool), d.tail);
      ParseOfRender(d');
      NewFrontIsParsed(d', tool);
      FrontAgain(d.front, tool);
      SameTextSameFront(d', Document(NewFront(d'.front, tool), d.tail));
    }
  }

  lemma SameTextSameFront(d: Document, e: Document)
    requires Parsed(d) && Parsed(e) && d.tail == e.tail
    ensures Render(d) == Render(e) <==> d.front == e.front
  {
    ParseOfRender(d);
    ParseOfRender(e);
  }

  /** What the last tools line lists once edited. */
  lemma {:induction false} EditedList(front: seq<string>, tool: string)
    requires tool != "" && Trimmed(tool) && ',' !in tool
    requires Found(front) && LastListed(front).Some? && Shown(FirstShown(front, tool))
    ensures LastListed(NewLines(front, tool)) == Some(Merged(LastListed(front).value, tool))
  {
    var line, init := front[|front| - 1], front[..|front| - 1];
    var front' := NewLines(front, tool);
    assert front'[..|front'| - 1] == NewLines(init, tool) && front'[|front'| - 1] == NewLine(line, tool);
    NewLineKeepsKind(line, tool);
    if Flat(line) { MergedIsListed(line, tool); } else { EditedList(init, tool); }
  }

  lemma EditedFront(front: seq<string>, tool: string)
    requires tool != "" && Trimmed(tool) && ',' !in tool && Shown(tool) && Shown(FirstShown(front, tool))
    ensures var found := Found(front) && LastListed(front).Some?;
            var listed := if found then Merged(LastListed(front).value, tool) else [tool];
            LastListed(NewFront(front, tool)) == Some(listed) && Found(NewFront(front, tool))
  {
    FrontAgain(front, tool);
    LinesAgain(front, tool);
    var front' := NewFront(front, tool);
    if Found(front) {
      EditedList(front, tool);
      assert front' == NewLines(front, tool);
    } else {
      AppendedLine(tool);
      AppendedIsListed(tool);
      assert front'[|front'| - 1] == ToolsLine([tool]);
    }
  }

  /** The plain case a caller can rely on: no comma, no line break, and no mark of a block
      scalar at the start of the tool or of any item already there. */
  lemma OrdinaryToolIsStable(body: string, tool: string)
    requires tool != "" && Trimmed(tool) && Append(body, tool).Success?
    requires ',' !in tool && '\n' !in tool && Shown(tool)
    requires LastListed(Parse(body).value.front).Some?
      ==> forall item :: item in LastListed(Parse(body).value.front).value ==> Shown(item)
    ensures var once := Append(body, tool).value;
            Append(once.body, tool) == Success(Edit(once.body, once.csv, true))
  {
    var d := Parse(body).value;
    StableIff(body, tool);
    PlainOrComma(tool);
    LinesAgain(d.front, tool);
    ParseYieldsParsed(body);
    NewFrontIsParsed(d, tool);
    ParseOfRender(Document(NewFront(d.front, tool), d.tail));
    EditedFront(d.front, tool);
  }

  /** Main result on locality: the output parses to the same lines, the same closing fence and
      the same rest; only flat tools lines differ, each keeping its items in order with the
      tool after them; and at most one line is new, the last. */
  lemma EditIsLocal(body: string, tool: string)
    requires tool != "" && Trimmed(tool) && '\n' !in tool && Append(body, tool).Success?
    ensures var d, out := Parse(body).value, Parse(Append(body, tool).value.body);
            && out.Success? && out.value.tail == d.tail
            && |out.value.front| == |d.front| + (if Found(d.front) then 0 else 1)
            && (forall i :: 0 <= i < |d.front| && !Flat(d.front[i]) ==> out.value.front[i] == d.front[i])
            && (forall i :: 0 <= i < |d.front| && Flat(d.front[i]) && Flat(out.value.front[i]) && ',' !in tool
                  ==> Listed(out.value.front[i]) == Merged(Listed(d.front[i]), tool))
            && (Shown(tool) && ',' !in tool && !Found(d.front) ==> Listed(out.value.front[|d.front|]) == [tool])
  {
    var d := Parse(body).value;
    ParseYieldsParsed(body);
    NewFrontIsParsed(d, tool);
    var front' := NewFront(d.front, tool);
    ParseOfRender(Document(front', d.tail));
    NewLinesAt(d.front, tool);
    forall i | 0 <= i < |d.front| ensures !Flat(d.front[i]) ==> front'[i] == d.front[i]
      ensures Flat(d.front[i]) && Flat(front'[i]) && ',' !in tool ==>
                Listed(front'[i]) == Merged(Listed(d.front[i]), tool)
    {
      NewLineKeepsKind(d.front[i], tool);
      if Flat(d.front[i]) && Flat(front'[i]) && ',' !in tool { MergedIsListed(d.front[i], tool); }
    }
    if Shown(tool) && ',' !in tool && !Found(d.front) { AppendedIsListed(tool); }
  }

  lemma MergedIsListed(line: string, tool: string)
    requires tool != "" && Trimmed(tool) && ',' !in tool && Flat(line) && Flat(NewLine(line, tool))
    ensures Listed(NewLine(line, tool)) == Merged(Listed(line), tool)
  {
    MergedIsGood(line, tool);
    PrintedLine(Merged(Listed(line), tool));
    RereadOfListed(Merged(Listed(line), tool));
  }

  lemma AppendedIsListed(tool: string)
    requires tool != "" && Trimmed(tool) && ',' !in tool && Shown(tool)
    ensures Listed(ToolsLine([tool])) == [tool]
  {
    PrintedLine([tool]);
    RereadOfListed([tool]);
  }
}
