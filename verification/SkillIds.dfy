/**
 Ids and file paths of the skill library (crates/ccteam-core/src/admin_actions.rs): the two
 validators, and the normalisation of a proposed stem.
 */
module SkillIds {
  import opened Wrappers
  import opened Text

  predicate IsLowerOrDigit(c: char) {
    'a' <= c <= 'z' || '0' <= c <= '9'
  }

  predicate IsIdChar(c: char) {
    IsLowerOrDigit(c) || c == '_' || c == '-'
  }

  predicate ValidSegment(s: string) {
    s != "" && IsLowerOrDigit(s[0]) && forall i :: 0 < i < |s| ==> IsIdChar(s[i])
  }

  predicate ValidId(id: string) {
    && id != "" && '\\' !in id
    && forall i :: 0 <= i < |Split(id, '/')| ==> ValidSegment(Split(id, '/')[i])
  }

  predicate ValidFileSegment(s: string) {
    s != "" && s[0] != '.'
  }

  predicate ValidRelpath(relpath: string) {
    && relpath != "" && relpath[0] != '/' && '\\' !in relpath
    && forall i :: 0 <= i < |Split(relpath, '/')| ==> ValidFileSegment(Split(relpath, '/')[i])
  }

  // ---- What they accept, character by character

  /** Position `i` starts a segment. */
  predicate Starts(s: string, i: nat) {
    i == 0 || (i <= |s| && s[i - 1] == '/')
  }

  /** An id is accepted exactly when every segment starts with a lower-case letter or a digit and
      nothing but those, `_`, `-` and the slashes between the segments is in it. */
  lemma ValidIdIff(id: string)
    ensures ValidId(id) <==>
            && id != "" && id[|id| - 1] != '/'
            && forall i :: 0 <= i < |id| ==>
                 if Starts(id, i) then 'a' <= id[i] <= 'z' || '0' <= id[i] <= '9'
                 else 'a' <= id[i] <= 'z' || '0' <= id[i] <= '9' || id[i] in {'_', '-', '/'}
  {
    var ok := (c: char, first: bool) => if first then IsLowerOrDigit(c) else IsIdChar(c);
    PiecesIff(id, ValidSegment, ok);
    assert forall i :: 0 <= i < |id| ==> (OkAt(id, ok, i) <==>
      if Starts(id, i) then id[i] != '/' && IsLowerOrDigit(id[i]) else id[i] == '/' || IsIdChar(id[i]));
  }

  /** A relative path is accepted exactly when it has no backslash and no segment that is empty or
      starts with a dot. */
  lemma ValidRelpathIff(p: string)
    ensures ValidRelpath(p) <==>
            && p != "" && p[|p| - 1] != '/' && '\\' !in p
            && forall i :: 0 <= i < |p| && Starts(p, i) ==> p[i] !in {'.', '/'}
  {
    var ok := (c: char, first: bool) => !first || c != '.';
    PiecesIff(p, ValidFileSegment, ok);
    assert forall i :: 0 <= i < |p| ==> (OkAt(p, ok, i) <==> (Starts(p, i) ==> p[i] != '/' && p[i] != '.'));
  }

  /** What a test of the characters of each piece says of the whole text. */
  ghost predicate AllOk(s: string, ok: (char, bool) -> bool) {
    && s != "" && s[|s| - 1] != '/'
    && forall i :: 0 <= i < |s| ==> OkAt(s, ok, i)
  }

  predicate OkAt(s: string, ok: (char, bool) -> bool, i: nat)
    requires i < |s|
  {
    if Starts(s, i) then s[i] != '/' && ok(s[i], true) else s[i] == '/' || ok(s[i], false)
  }

  lemma {:induction false} PiecesIff(s: string, valid: string -> bool, ok: (char, bool) -> bool)
    requires forall p: string :: valid(p) <==> p != "" && forall i :: 0 <= i < |p| ==> ok(p[i], i == 0)
    ensures (forall i :: 0 <= i < |Split(s, '/')| ==> valid(Split(s, '/')[i])) <==> AllOk(s, ok)
    decreases |s|
  {
    if '/' in s {
      var n := FirstSlash(s);
      var piece, rest := s[..n], s[n + 1..];
      assert s == piece + ['/'] + rest;
      SplitAfterPiece(piece, rest, '/');
      PiecesIff(rest, valid, ok);
      PieceThenRest(s, n, ok);
      assert Split(s, '/')[0] == piece && Split(s, '/')[1..] == Split(rest, '/');
      assert (forall i :: 0 <= i < |Split(s, '/')| ==> valid(Split(s, '/')[i]))
        <==> valid(piece) && forall i :: 0 <= i < |Split(rest, '/')| ==> valid(Split(rest, '/')[i]);
      assert valid(piece) <==> piece != "" && forall i :: 0 <= i < n ==> ok(s[i], i == 0);
    } else {
      SplitOfPiece(s, '/');
      assert Split(s, '/')[0] == s;
      assert (forall i :: 0 <= i < |Split(s, '/')| ==> valid(Split(s, '/')[i])) <==> valid(s);
      forall i | 0 <= i < |s| ensures OkAt(s, ok, i) <==> ok(s[i], i == 0) {
        assert s[i] != '/' && (i > 0 ==> s[i - 1] != '/');
      }
    }
  }

  lemma {:induction false} FirstSlash(s: string) returns (n: nat)
    requires '/' in s
    ensures n < |s| && s[n] == '/' && '/' !in s[..n]
  {
    if s[0] == '/' {
      n := 0;
    } else {
      var m := FirstSlash(s[1..]);
      n := m + 1;
      assert s[..n] == [s[0]] + s[1..][..m];
    }
  }

  lemma PieceThenRest(s: string, n: nat, ok: (char, bool) -> bool)
    requires n < |s| && s[n] == '/' && '/' !in s[..n]
    ensures AllOk(s, ok) <==> n > 0 && (forall i :: 0 <= i < n ==> ok(s[i], i == 0)) && AllOk(s[n + 1..], ok)
  {
    var rest := s[n + 1..];
    forall i | 0 <= i < n ensures OkAt(s, ok, i) <==> ok(s[i], i == 0) {
      assert s[i] == s[..n][i] && (i > 0 ==> s[i - 1] == s[..n][i - 1]);
    }
    forall i | 0 <= i < |rest| ensures OkAt(rest, ok, i) <==> OkAt(s, ok, n + 1 + i) {
      assert rest[i] == s[n + 1 + i] && (i > 0 ==> rest[i - 1] == s[n + i]);
    }
    assert OkAt(s, ok, n) <==> n > 0;
    if AllOk(rest, ok) && n > 0 && forall i :: 0 <= i < n ==> ok(s[i], i == 0) {
      forall i | 0 <= i < |s| ensures OkAt(s, ok, i) {
        if i > n { assert OkAt(rest, ok, i - n - 1); }
      }
    }
  }

  // ---- Normalising

  function LowerCase(c: char): char {
    if 'A' <= c <= 'Z' then c - 'A' + 'a' else c
  }

  /** Lower-cased, with every run of other characters turned into one dash (none after a
      dash). */
  function Collapse(s: string, lastDash: bool): string {
    if s == "" then "" else Pushed(s[0], lastDash) + Collapse(s[1..], EndsInDash(s[0]))
  }

  function DropLeading(s: string): string {
    if s != "" && (s[0] == '-' || s[0] == '_') then DropLeading(s[1..]) else s
  }

  function DropTrailing(s: string): string {
    if s != "" && s[|s| - 1] == '-' then DropTrailing(s[..|s| - 1]) else s
  }

  /** What one character adds, and whether a dash then ends the text. */
  function Pushed(c: char, lastDash: bool): string {
    if IsIdChar(LowerCase(c)) then [LowerCase(c)] else if lastDash then "" else "-"
  }

  function EndsInDash(c: char): bool {
    IsIdChar(LowerCase(c)) ==> LowerCase(c) == '-'
  }

  function Stem(raw: string): string {
    DropTrailing(DropLeading(Collapse(Trim(raw), false)))
  }

  function Sanitized(raw: string): Option<string> {
    if ValidId(raw) then Some(raw) else if ValidId(Stem(raw)) then Some(Stem(raw)) else None
  }

  lemma CollapseStep(before: string, s: string, lastDash: bool)
    requires s != ""
    ensures before + Collapse(s, lastDash) == before + Pushed(s[0], lastDash) + Collapse(s[1..], EndsInDash(s[0]))
  {
    var x, y := Pushed(s[0], lastDash), Collapse(s[1..], EndsInDash(s[0]));
    assert before + (x + y) == before + x + y;
  }

  /** The loop over the characters, in the source's form. */
  method Collapsed(trimmed: string) returns (out: string)
    ensures out == Collapse(trimmed, false)
  {
    out := "";
    var lastDash := false;
    assert trimmed[0..] == trimmed;
    for i := 0 to |trimmed|
      invariant out + Collapse(trimmed[i..], lastDash) == Collapse(trimmed, false)
    {
      ghost var before, dash := out, lastDash;
      assert trimmed[i..][0] == trimmed[i] && trimmed[i..][1..] == trimmed[i + 1..];
      var ch := LowerCase(trimmed[i]);
      if IsIdChar(ch) {
        out := out + [ch];
        lastDash := ch == '-';
      } else if !lastDash {
        out := out + "-";
        lastDash := true;
      }
      assert out == before + Pushed(trimmed[i], dash) && lastDash == EndsInDash(trimmed[i]);
      CollapseStep(before, trimmed[i..], dash);
    }
  }

  method Sanitize(raw: string) returns (r: Option<string>)
    ensures r == Sanitized(raw)
  {
    if ValidId(raw) { return Some(raw); }
    var trimmed := Trim(raw);
    var out := Collapsed(trimmed);
    var sanitized := DropTrailing(DropLeading(out));
    r := if ValidId(sanitized) then Some(sanitized) else None;
  }

  // ---- What the result is

  /** The letters and digits of a text, lower-cased, in order. */
  function Essence(s: string): string {
    if s == "" then "" else Kept(s[0]) + Essence(s[1..])
  }

  function Kept(c: char): string {
    if IsLowerOrDigit(LowerCase(c)) then [LowerCase(c)] else ""
  }

  lemma {:induction false} EssenceConcat(a: string, b: string)
    ensures Essence(a + b) == Essence(a) + Essence(b)
  {
    if a == "" {
      assert a + b == b;
    } else {
      var s := a + b;
      assert s[0] == a[0] && s[1..] == a[1..] + b;
      EssenceConcat(a[1..], b);
      assert Kept(a[0]) + (Essence(a[1..]) + Essence(b)) == Kept(a[0]) + Essence(a[1..]) + Essence(b);
    }
  }

  lemma {:induction false} NoEssence(s: string)
    requires forall i :: 0 <= i < |s| ==> !IsLowerOrDigit(LowerCase(s[i]))
    ensures Essence(s) == ""
  {
    if s != "" { NoEssence(s[1..]); }
  }

  lemma BlankAround(left: string, s: string, right: string)
    requires Blank(left) && Blank(right)
    ensures Essence(left + s + right) == Essence(s)
  {
    NoEssence(left);
    NoEssence(right);
    EssenceConcat(left + s, right);
    EssenceConcat(left, s);
  }

  lemma EssenceOfTrim(s: string)
    ensures Essence(Trim(s)) == Essence(s)
  {
    var left, right := TrimSides(s);
    BlankAround(left, Trim(s), right);
  }

  lemma {:induction false} CollapseKeeps(s: string, lastDash: bool)
    ensures Essence(Collapse(s, lastDash)) == Essence(s)
    ensures forall i :: 0 <= i < |Collapse(s, lastDash)| ==> IsIdChar(Collapse(s, lastDash)[i])
  {
    if s != "" {
      CollapseKeeps(s[1..], EndsInDash(s[0]));
      var first := Pushed(s[0], lastDash);
      EssenceConcat(first, Collapse(s[1..], EndsInDash(s[0])));
      if first != "" { assert first[1..] == ""; }
    }
  }

  lemma {:induction false} DropLeadingKeeps(s: string)
    requires forall i :: 0 <= i < |s| ==> IsIdChar(s[i])
    ensures var r := DropLeading(s);
            && Essence(r) == Essence(s)
            && (forall i :: 0 <= i < |r| ==> IsIdChar(r[i]))
            && (r != "" ==> IsLowerOrDigit(r[0]))
  {
    if s != "" && (s[0] == '-' || s[0] == '_') { DropLeadingKeeps(s[1..]); }
  }

  lemma {:induction false} DropTrailingKeeps(s: string)
    requires forall i :: 0 <= i < |s| ==> IsIdChar(s[i])
    requires s != "" ==> IsLowerOrDigit(s[0])
    ensures var r := DropTrailing(s);
            && Essence(r) == Essence(s)
            && (forall i :: 0 <= i < |r| ==> IsIdChar(r[i]))
            && (s != "" ==> r != "" && r[0] == s[0])
            && (r != "" ==> r[|r| - 1] != '-')
  {
    if s != "" && s[|s| - 1] == '-' {
      var n := |s| - 1;
      assert s == s[..n] + "-";
      EssenceConcat(s[..n], "-");
      assert n > 0 && s[..n][0] == s[0];
      DropTrailingKeeps(s[..n]);
    }
  }

  /** What is taken off the collapsed text: leading dashes and underscores, and trailing dashes. */
  lemma StemSides(raw: string) returns (left: string, right: string)
    ensures Collapse(Trim(raw), false) == left + Stem(raw) + right
    ensures forall i :: 0 <= i < |left| ==> left[i] in {'-', '_'}
    ensures forall i :: 0 <= i < |right| ==> right[i] == '-'
  {
    left := LeadingSide(Collapse(Trim(raw), false));
    right := TrailingSide(DropLeading(Collapse(Trim(raw), false)));
    assert left + (Stem(raw) + right) == left + Stem(raw) + right;
  }

  lemma {:induction false} LeadingSide(s: string) returns (left: string)
    ensures s == left + DropLeading(s) && forall i :: 0 <= i < |left| ==> left[i] in {'-', '_'}
  {
    left := "";
    if s != "" && (s[0] == '-' || s[0] == '_') {
      var more := LeadingSide(s[1..]);
      left := [s[0]] + more;
      assert s == [s[0]] + s[1..];
    }
  }

  lemma {:induction false} TrailingSide(s: string) returns (right: string)
    ensures s == DropTrailing(s) + right && forall i :: 0 <= i < |right| ==> right[i] == '-'
  {
    right := "";
    if s != "" && s[|s| - 1] == '-' {
      var more := TrailingSide(s[..|s| - 1]);
      right := more + "-";
      assert s == s[..|s| - 1] + "-";
    }
  }

  /** A stem keeps exactly the letters and digits; when it is not empty it is a single valid
      segment that does not end in a dash. */
  lemma StemShape(raw: string)
    ensures Essence(Stem(raw)) == Essence(raw)
    ensures Stem(raw) != "" ==> Stem(raw)[|Stem(raw)| - 1] != '-'
    ensures Stem(raw) != "" ==> ValidSegment(Stem(raw)) && ValidId(Stem(raw)) && Split(Stem(raw), '/') == [Stem(raw)]
    ensures Stem(raw) == "" <==> Essence(raw) == ""
  {
    EssenceOfTrim(raw);
    var c := Collapse(Trim(raw), false);
    CollapseKeeps(Trim(raw), false);
    DropLeadingKeeps(c);
    DropTrailingKeeps(DropLeading(c));
    var r := Stem(raw);
    if r != "" {
      assert '/' !in r && '\\' !in r;
      SplitOfPiece(r, '/');
    }
  }

  lemma {:induction false} ValidIdHasEssence(id: string)
    requires ValidId(id)
    ensures Essence(id) != ""
  {
    var p := Split(id, '/');
    assert ValidSegment(p[0]);
    JoinOfSplit(id, '/');
    var rest := if |p| == 1 then "" else "/" + Join(p[1..], '/');
    assert id == p[0] + rest;
    EssenceConcat(p[0], rest);
  }

  /** Main result on sanitizing: it succeeds exactly on inputs with an ASCII letter or digit;
      what it returns is a valid id with the same letters and digits, a fixed point, and a
      single segment unless the input was a valid id already. */
  lemma SanitizingIsSound(raw: string)
    ensures Sanitized(raw).Some? <==> Essence(raw) != ""
    ensures Sanitized(raw).Some? ==>
              var r := Sanitized(raw).value;
              && ValidId(r)
              && Essence(r) == Essence(raw)
              && Sanitized(r) == Some(r)
              && (ValidId(raw) ==> r == raw)
              && (!ValidId(raw) ==> Split(r, '/') == [r])
  {
    StemShape(raw);
    if ValidId(raw) { ValidIdHasEssence(raw); }
  }

  // ---- Where the dashes come from

  function Lowered(s: string): string {
    if s == "" then "" else [LowerCase(s[0])] + Lowered(s[1..])
  }

  ghost predicate IsWord(s: string) {
    forall i :: 0 <= i < |s| ==> IsIdChar(LowerCase(s[i]))
  }

  /** A run of characters no id may hold. */
  ghost predicate IsGap(s: string) {
    s != "" && forall i :: 0 <= i < |s| ==> !IsIdChar(LowerCase(s[i]))
  }

  function DashAfter(s: string, lastDash: bool): bool {
    if s == "" then lastDash else EndsInDash(s[|s| - 1])
  }

  lemma {:induction false} CollapseConcat(a: string, b: string, lastDash: bool)
    ensures Collapse(a + b, lastDash) == Collapse(a, lastDash) + Collapse(b, DashAfter(a, lastDash))
  {
    if a == "" {
      assert a + b == b;
    } else {
      var s, first := a + b, Pushed(a[0], lastDash);
      assert s[0] == a[0] && s[1..] == a[1..] + b;
      CollapseConcat(a[1..], b, EndsInDash(a[0]));
      var x, y := Collapse(a[1..], EndsInDash(a[0])), Collapse(b, DashAfter(a, lastDash));
      assert first + (x + y) == first + x + y;
    }
  }

  lemma {:induction false} CollapseWord(w: string, lastDash: bool)
    requires IsWord(w)
    ensures Collapse(w, lastDash) == Lowered(w)
  {
    if w != "" { CollapseWord(w[1..], EndsInDash(w[0])); }
  }

  lemma {:induction false} CollapseGap(gap: string, lastDash: bool)
    requires IsGap(gap)
    ensures Collapse(gap, lastDash) == if lastDash then "" else "-"
  {
    if |gap| == 1 {
      assert gap[1..] == "";
    } else {
      CollapseGap(gap[1..], true);
    }
  }

  /** Only the 26 letters have another case. */
  lemma LowerCaseIs(c: char)
    ensures LowerCase(c) as int == if 65 <= c as int <= 90 then c as int + 32 else c as int
  {
  }

  /** A dash ends the text after a dash and after anything that became one. */
  lemma DashAfterIff(s: string, lastDash: bool)
    requires s != ""
    ensures DashAfter(s, lastDash) <==> s[|s| - 1] == '-' || !IsIdChar(LowerCase(s[|s| - 1]))
  {
  }

  /** Every run of other characters becomes one dash, or none after a dash; every word is only
      lower-cased. */
  lemma RunsCollapse(word: string, gap: string, rest: string, lastDash: bool)
    requires IsWord(word) && IsGap(gap)
    ensures Collapse(word + gap + rest, lastDash)
            == Lowered(word) + (if DashAfter(word, lastDash) then "" else "-") + Collapse(rest, true)
  {
    CollapseConcat(word + gap, rest, lastDash);
    CollapseConcat(word, gap, lastDash);
    CollapseWord(word, lastDash);
    CollapseGap(gap, DashAfter(word, lastDash));
    assert DashAfter(word + gap, lastDash);
  }

  ghost predicate IsPlainWord(s: string) {
    s != "" && forall i :: 0 <= i < |s| ==> IsLowerOrDigit(LowerCase(s[i]))
  }

  /** Two words of letters and digits with anything else between them become one segment, lower
      case, with one dash: `Owner/Tool` is `owner-tool`. */
  lemma WordsJoin(a: string, gap: string, b: string)
    requires IsPlainWord(a) && IsPlainWord(b) && IsGap(gap) && !ValidId(a + gap + b)
    ensures Sanitized(a + gap + b) == Some(Lowered(a) + "-" + Lowered(b))
  {
    JoinedStem(a, gap, b);
    StemShape(a + gap + b);
  }

  lemma JoinedStem(a: string, gap: string, b: string)
    requires IsPlainWord(a) && IsPlainWord(b) && IsGap(gap)
    ensures Stem(a + gap + b) == Lowered(a) + "-" + Lowered(b)
  {
    JoinedTrimmed(a, gap, b);
    RunsCollapse(a, gap, b, false);
    CollapseWord(b, true);
    JoinedEnds(a, b);
  }

  lemma JoinedTrimmed(a: string, gap: string, b: string)
    requires IsPlainWord(a) && IsPlainWord(b)
    ensures Trim(a + gap + b) == a + gap + b
  {
    var raw := a + gap + b;
    assert raw[0] == a[0] && raw[|raw| - 1] == b[|b| - 1];
    TrimOfTrimmed(raw);
  }

  lemma JoinedEnds(a: string, b: string)
    requires IsPlainWord(a) && IsPlainWord(b)
    ensures var out := Lowered(a) + "-" + Lowered(b);
            DropTrailing(DropLeading(out)) == out
  {
    var out := Lowered(a) + "-" + Lowered(b);
    LoweredEnds(a);
    LoweredEnds(b);
    assert out[0] == LowerCase(a[0]) && out[|out| - 1] == LowerCase(b[|b| - 1]);
  }

  lemma {:induction false} LoweredEnds(s: string)
    requires s != ""
    ensures |Lowered(s)| == |s| && Lowered(s)[0] == LowerCase(s[0]) && Lowered(s)[|s| - 1] == LowerCase(s[|s| - 1])
  {
    if |s| > 1 { LoweredEnds(s[1..]); }
  }
}
