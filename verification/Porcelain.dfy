/** `agentbox/git_worktree.py`: parsing `git worktree list --porcelain`. */
module Porcelain {
  import opened Prelude

  /** `WorktreeInfo`, with the path as text. */
  datatype WorktreeInfo = WorktreeInfo(
    path: string, head: Option<string>, branchRef: Option<string>,
    detached: bool, bare: bool, prunable: Option<string>)
  {
    /** `branch_name` */
    function BranchName(): Option<string> {
      if branchRef.Some? && |branchRef.value| >= 11 && branchRef.value[..11] == "refs/heads/"
      then Some(branchRef.value[11..]) else None
    }
  }

  // ---- Python's string methods -----------------------------------------------

  /** The characters at which `str.splitlines` breaks. */
  predicate IsBreak(c: char) {
    c in {'\n', '\r', '\U{0B}', '\U{0C}', '\U{1C}', '\U{1D}', '\U{1E}', '\U{85}', '\U{2028}', '\U{2029}'}
  }

  /** `str.splitlines`, with the line read so far in `cur`. */
  function SplitLines(s: string, cur: string): seq<string>
    decreases |s|
  {
    if s == [] then if cur == "" then [] else [cur]
    else if !IsBreak(s[0]) then SplitLines(s[1..], cur + [s[0]])
    else if s[0] == '\r' && |s| > 1 && s[1] == '\n' then [cur] + SplitLines(s[2..], "")
    else [cur] + SplitLines(s[1..], "")
  }

  function StripLeft(s: string): string {
    if s != [] && IsSpace(s[0]) then StripLeft(s[1..]) else s
  }

  function StripRight(s: string): string {
    if s != [] && IsSpace(s[|s| - 1]) then StripRight(s[..|s| - 1]) else s
  }

  function Strip(s: string): string {
    StripRight(StripLeft(s))
  }

  /** The position of the first blank, or the length. */
  function FirstBlank(s: string): (i: nat)
    ensures i <= |s| && (forall j :: 0 <= j < i ==> s[j] != ' ') && (i < |s| ==> s[i] == ' ')
  {
    if s == [] || s[0] == ' ' then 0 else 1 + FirstBlank(s[1..])
  }

  /** `key, _, value = line.partition(" ")` */
  function Key(line: string): string { line[..FirstBlank(line)] }

  function Value(line: string): string {
    if FirstBlank(line) < |line| then line[FirstBlank(line) + 1..] else ""
  }

  // ---- The parser ---------------------------------------------------------------

  /** The dictionary `current`; the flags are plain booleans because both are only ever set. */
  datatype Current = Current(
    path: Option<string>, head: Option<string>, branchRef: Option<string>,
    detached: bool, bare: bool, prunable: Option<string>)

  const NOTHING := Current(None, None, None, false, false, None)

  /** `_append_worktree_record` */
  function Appended(records: seq<WorktreeInfo>, c: Current): seq<WorktreeInfo> {
    if c.path.None? then records
    else records + [WorktreeInfo(c.path.value, c.head, c.branchRef, c.detached, c.bare, c.prunable)]
  }

  /** One line of the loop. */
  function Step(state: (seq<WorktreeInfo>, Current), raw: string): (seq<WorktreeInfo>, Current) {
    var (records, current) := state;
    var line := Strip(raw);
    if line == "" then (Appended(records, current), NOTHING)
    else if Key(line) == "worktree" then (Appended(records, current), NOTHING.(path := Some(Value(line))))
    else (records, WithAttribute(current, Key(line), Value(line)))
  }

  function WithAttribute(c: Current, key: string, value: string): Current {
    if key == "HEAD" then c.(head := Some(value))
    else if key == "branch" then c.(branchRef := Some(value))
    else if key == "detached" then c.(detached := true)
    else if key == "bare" then c.(bare := true)
    else if key == "prunable" then c.(prunable := if value == "" then None else Some(value))
    else c
  }

  function Fold(lines: seq<string>, state: (seq<WorktreeInfo>, Current)): (seq<WorktreeInfo>, Current) {
    if lines == [] then state else Fold(lines[1..], Step(state, lines[0]))
  }

  /** What the parser returns: its specification. */
  function Parse(output: string): seq<WorktreeInfo> {
    var (records, current) := Fold(SplitLines(output, ""), ([], NOTHING));
    Appended(records, current)
  }

  /** `parse_worktree_porcelain` */
  method ParseWorktreePorcelain(output: string) returns (r: seq<WorktreeInfo>)
    ensures r == Parse(output)
  {
    var records: seq<WorktreeInfo> := [];
    var current := NOTHING;
    var lines := SplitLines(output, "");
    for i := 0 to |lines|
      invariant Fold(lines[i..], (records, current)) == Fold(lines, ([], NOTHING))
    {
      var line := Strip(lines[i]);
      if line == "" {
        records := Appended(records, current);
        current := NOTHING;
      } else {
        var key, value := Key(line), Value(line);
        if key == "worktree" {
          records := Appended(records, current);
          current := NOTHING.(path := Some(value));
        } else if key == "HEAD" {
          current := current.(head := Some(value));
        } else if key == "branch" {
          current := current.(branchRef := Some(value));
        } else if key == "detached" {
          current := current.(detached := true);
        } else if key == "bare" {
          current := current.(bare := true);
        } else if key == "prunable" {
          current := current.(prunable := if value == "" then None else Some(value));
        }
      }
    }
    r := Appended(records, current);
  }

  // ---- Printing -------------------------------------------------------------------

  predicate OneLine(s: string) {
    forall i :: 0 <= i < |s| ==> !IsBreak(s[i])
  }

  /** No line break inside, no white space at the end. */
  predicate CleanText(s: string) {
    OneLine(s) && (s != [] ==> !IsSpace(s[|s| - 1]))
  }

  predicate CleanOption(o: Option<string>) {
    o.Some? ==> CleanText(o.value)
  }

  /** The records the format can carry. */
  predicate Clean(info: WorktreeInfo) {
    CleanText(info.path) && CleanOption(info.head) && CleanOption(info.branchRef) && CleanOption(info.prunable)
    && info.prunable != Some("")
  }

  const KEYS: set<string> := {"worktree", "HEAD", "branch", "detached", "bare", "prunable"}

  /** A line git may add that the parser does not know. */
  predicate Noise(line: string) {
    OneLine(line) && Strip(line) != "" && Key(Strip(line)) !in KEYS
  }

  function Attribute(key: string, value: Option<string>): seq<string> {
    if value.Some? then [key + " " + value.value] else []
  }

  function Flag(key: string, set_: bool): seq<string> {
    if set_ then [key] else []
  }

  /** A printed record: its path line, then its attributes with unknown lines anywhere between. */
  datatype Printed = Printed(info: WorktreeInfo, afterPath: seq<string>, afterHead: seq<string>, afterBranch: seq<string>,
                             afterDetached: seq<string>, afterBare: seq<string>, afterPrunable: seq<string>)
  {
    predicate Valid() {
      Clean(info)
      && forall line :: line in afterPath + afterHead + afterBranch + afterDetached + afterBare + afterPrunable ==> Noise(line)
    }

    function Lines(): seq<string> {
      ["worktree " + info.path] + (afterPath + (Attribute("HEAD", info.head) + (afterHead
      + (Attribute("branch", info.branchRef) + (afterBranch + (Flag("detached", info.detached) + (afterDetached
      + (Flag("bare", info.bare) + (afterBare + (Attribute("prunable", info.prunable) + afterPrunable))))))))))
    }
  }

  /** All records, with or without a blank line after each. */
  function Print(ps: seq<Printed>, blanks: bool): seq<string> {
    if ps == [] then []
    else ps[0].Lines() + (if blanks then [""] else []) + Print(ps[1..], blanks)
  }

  /** The lines as one text, each ended by a newline. */
  function Unlines(lines: seq<string>): string {
    if lines == [] then "" else lines[0] + "\n" + Unlines(lines[1..])
  }

  // ---- The round trip ----------------------------------------------------------------

  lemma {:induction false} SplitOne(line: string, rest: string, cur: string)
    requires OneLine(line)
    ensures SplitLines(line + "\n" + rest, cur) == [cur + line] + SplitLines(rest, "")
    decreases |line|
  {
    var text := line + "\n" + rest;
    if line == [] {
      assert text[1..] == rest && cur + line == cur;
    } else {
      assert text[1..] == line[1..] + "\n" + rest;
      SplitOne(line[1..], rest, cur + [line[0]]);
      assert cur + [line[0]] + line[1..] == cur + line;
    }
  }

  lemma {:induction false} SplitUnlines(lines: seq<string>)
    requires forall i :: 0 <= i < |lines| ==> OneLine(lines[i])
    ensures SplitLines(Unlines(lines), "") == lines
  {
    if lines != [] {
      SplitOne(lines[0], Unlines(lines[1..]), "");
      SplitUnlines(lines[1..]);
      assert "" + lines[0] == lines[0];
      assert lines == [lines[0]] + lines[1..];
    }
  }

  lemma {:induction false} FoldAppend(a: seq<string>, b: seq<string>, state: (seq<WorktreeInfo>, Current))
    ensures Fold(a + b, state) == Fold(b, Fold(a, state))
    decreases |a|
  {
    if a == [] {
      assert a + b == b;
    } else {
      assert (a + b)[1..] == a[1..] + b;
      FoldAppend(a[1..], b, Step(state, a[0]));
    }
  }

  /** Lines the parser does not know leave its state alone. */
  lemma {:induction false} FoldNoise(lines: seq<string>, state: (seq<WorktreeInfo>, Current))
    requires forall line :: line in lines ==> Noise(line)
    ensures Fold(lines, state) == state
    decreases |lines|
  {
    if lines != [] {
      assert Noise(lines[0]);
      assert Step(state, lines[0]) == state;
      FoldNoise(lines[1..], state);
    }
  }

  lemma FirstBlankOf(key: string, value: string)
    requires forall i :: 0 <= i < |key| ==> key[i] != ' '
    ensures Key(key + " " + value) == key && Value(key + " " + value) == value
    ensures Key(key) == key && Value(key) == ""
  {
    var line := key + " " + value;
    var i := FirstBlank(line);
    assert line[|key|] == ' ';
    assert forall j :: 0 <= j < |key| ==> line[j] == key[j];
    assert line[..i] == key && line[i + 1..] == value;
    var j := FirstBlank(key);
    assert key[..j] == key;
  }

  /** Stripping a printed attribute: untouched, or down to its bare key when the value is empty. */
  lemma StripAttribute(key: string, value: string)
    requires key != [] && !IsSpace(key[0]) && !IsSpace(key[|key| - 1]) && CleanText(value)
    requires forall i :: 0 <= i < |key| ==> key[i] != ' '
    ensures Key(Strip(key + " " + value)) == key && Value(Strip(key + " " + value)) == value
    ensures Strip(key + " " + value) != "" && Strip(key) == key
  {
    var line := key + " " + value;
    FirstBlankOf(key, value);
    assert line[0] == key[0];
    assert StripLeft(line) == line;
    if value == [] {
      assert line[|line| - 1] == ' ' && line[..|line| - 1] == key;
      assert StripRight(line) == StripRight(key) == key;
    } else {
      assert line[|line| - 1] == value[|value| - 1];
      assert StripRight(line) == line;
    }
  }

  lemma StepAttribute(state: (seq<WorktreeInfo>, Current), key: string, value: string)
    requires key in {"HEAD", "branch", "prunable"} && CleanText(value)
    ensures Step(state, key + " " + value) == (state.0, WithAttribute(state.1, key, value))
  {
    KeyShape(key);
    StripAttribute(key, value);
  }

  lemma KeyShape(key: string)
    requires key in KEYS
    ensures key != [] && !IsSpace(key[0]) && !IsSpace(key[|key| - 1]) && OneLine(key)
    ensures forall i :: 0 <= i < |key| ==> key[i] != ' '
  {
  }

  lemma FoldAttribute(state: (seq<WorktreeInfo>, Current), key: string, value: Option<string>)
    requires key in {"HEAD", "branch", "prunable"} && CleanOption(value)
    ensures Fold(Attribute(key, value), state)
            == if value.Some? then (state.0, WithAttribute(state.1, key, value.value)) else state
  {
    if value.Some? {
      var lines := Attribute(key, value);
      StepAttribute(state, key, value.value);
      assert lines[1..] == [];
      assert Fold(lines, state) == Fold([], Step(state, lines[0]));
    }
  }

  lemma FoldFlag(state: (seq<WorktreeInfo>, Current), key: string, set_: bool)
    requires key in {"detached", "bare"}
    ensures Fold(Flag(key, set_), state) == if set_ then (state.0, WithAttribute(state.1, key, "")) else state
  {
    if set_ {
      var lines := Flag(key, set_);
      KeyShape(key);
      StripAttribute(key, "");
      FirstBlankOf(key, "");
      assert lines[1..] == [];
      assert Fold(lines, state) == Fold([], Step(state, lines[0]));
    }
  }

  lemma FoldPath(state: (seq<WorktreeInfo>, Current), path: string)
    requires CleanText(path)
    ensures Fold(["worktree " + path], state) == (Appended(state.0, state.1), NOTHING.(path := Some(path)))
  {
    KeyShape("worktree");
    StripAttribute("worktree", path);
    assert "worktree" + " " + path == "worktree " + path;
    var lines := ["worktree " + path];
    assert lines[1..] == [];
    assert Fold(lines, state) == Fold([], Step(state, lines[0]));
  }

  function CurrentOf(info: WorktreeInfo): Current {
    Current(Some(info.path), info.head, info.branchRef, info.detached, info.bare, info.prunable)
  }

  /** Reading one printed record closes the one before it and leaves this one open. */
  lemma FoldPrinted(p: Printed, state: (seq<WorktreeInfo>, Current))
    requires p.Valid()
    ensures Fold(p.Lines(), state) == (Appended(state.0, state.1), CurrentOf(p.info))
  {
    hide Step;
    hide Fold;
    hide CleanText;
    hide Noise;
    var i := p.info;
    var t10 := Attribute("prunable", i.prunable) + p.afterPrunable;
    var t9 := p.afterBare + t10;
    var t8 := Flag("bare", i.bare) + t9;
    var t7 := p.afterDetached + t8;
    var t6 := Flag("detached", i.detached) + t7;
    var t5 := p.afterBranch + t6;
    var t4 := Attribute("branch", i.branchRef) + t5;
    var t3 := p.afterHead + t4;
    var t2 := Attribute("HEAD", i.head) + t3;
    var t1 := p.afterPath + t2;
    var s1 := (Appended(state.0, state.1), NOTHING.(path := Some(i.path)));
    var s2 := (s1.0, s1.1.(head := i.head));
    var s3 := (s1.0, s2.1.(branchRef := i.branchRef));
    var s4 := (s1.0, s3.1.(detached := i.detached));
    var s5 := (s1.0, s4.1.(bare := i.bare));
    FoldAppend(["worktree " + i.path], t1, state);
    FoldPath(state, i.path);
    FoldAppend(p.afterPath, t2, s1);
    FoldNoise(p.afterPath, s1);
    FoldAppend(Attribute("HEAD", i.head), t3, s1);
    FoldAttribute(s1, "HEAD", i.head);
    FoldAppend(p.afterHead, t4, s2);
    FoldNoise(p.afterHead, s2);
    FoldAppend(Attribute("branch", i.branchRef), t5, s2);
    FoldAttribute(s2, "branch", i.branchRef);
    FoldAppend(p.afterBranch, t6, s3);
    FoldNoise(p.afterBranch, s3);
    FoldAppend(Flag("detached", i.detached), t7, s3);
    FoldFlag(s3, "detached", i.detached);
    FoldAppend(p.afterDetached, t8, s4);
    FoldNoise(p.afterDetached, s4);
    FoldAppend(Flag("bare", i.bare), t9, s4);
    FoldFlag(s4, "bare", i.bare);
    FoldAppend(p.afterBare, t10, s5);
    FoldNoise(p.afterBare, s5);
    FoldAppend(Attribute("prunable", i.prunable), p.afterPrunable, s5);
    FoldAttribute(s5, "prunable", i.prunable);
    FoldNoise(p.afterPrunable, (s1.0, s5.1.(prunable := i.prunable)));
  }

  function Infos(ps: seq<Printed>): seq<WorktreeInfo> {
    if ps == [] then [] else [ps[0].info] + Infos(ps[1..])
  }

  /** What the parser returns when it stops in a state. */
  function Close(state: (seq<WorktreeInfo>, Current)): seq<WorktreeInfo> {
    Appended(state.0, state.1)
  }

  /** The blank line after a record, if there is one. */
  lemma FoldBlank(blanks: bool, rest: seq<string>, state: (seq<WorktreeInfo>, Current))
    returns (state': (seq<WorktreeInfo>, Current))
    ensures Fold((if blanks then [""] else []) + rest, state) == Fold(rest, state')
    ensures Close(state') == Close(state)
  {
    if blanks {
      state' := Step(state, "");
      assert ([""] + rest)[1..] == rest;
    } else {
      state' := state;
      assert [] + rest == rest;
    }
  }

  lemma {:induction false} FoldPrint(ps: seq<Printed>, blanks: bool, state: (seq<WorktreeInfo>, Current))
    requires forall p :: p in ps ==> p.Valid()
    ensures Close(Fold(Print(ps, blanks), state)) == Close(state) + Infos(ps)
    decreases |ps|
  {
    hide Step;
    hide Clean;
    hide Noise;
    if ps == [] {
      assert Close(state) + [] == Close(state);
    } else {
      hide Fold;
      var rest := Print(ps[1..], blanks);
      var s1 := (Close(state), CurrentOf(ps[0].info));
      FoldPrinted(ps[0], state);
      var s2 := FoldBlank(blanks, rest, s1);
      FoldAppend(ps[0].Lines(), (if blanks then [""] else []) + rest, state);
      assert Print(ps, blanks) == ps[0].Lines() + ((if blanks then [""] else []) + rest);
      FoldPrint(ps[1..], blanks, s2);
      assert Close(s1) == Close(state) + [ps[0].info];
      assert Close(state) + [ps[0].info] + Infos(ps[1..]) == Close(state) + Infos(ps);
    }
  }

  lemma AttributeIsLine(key: string, value: string)
    requires key in KEYS && OneLine(value)
    ensures OneLine(key) && OneLine(key + " " + value)
  {
    KeyShape(key);
  }

  lemma LinesAreLines(p: Printed)
    requires p.Valid()
    ensures forall line :: line in p.Lines() ==> OneLine(line)
  {
    AttributeIsLine("worktree", p.info.path);
    assert "worktree" + " " + p.info.path == "worktree " + p.info.path;
    if p.info.head.Some? { AttributeIsLine("HEAD", p.info.head.value); }
    if p.info.branchRef.Some? { AttributeIsLine("branch", p.info.branchRef.value); }
    if p.info.prunable.Some? { AttributeIsLine("prunable", p.info.prunable.value); }
    AttributeIsLine("detached", "");
    AttributeIsLine("bare", "");
    var noise := p.afterPath + p.afterHead + p.afterBranch + p.afterDetached + p.afterBare + p.afterPrunable;
    assert forall line :: line in noise ==> OneLine(line);
    hide OneLine;
    forall line | line in p.Lines() ensures OneLine(line) {
      if line !in noise {
        assert line in ["worktree " + p.info.path] || line in Attribute("HEAD", p.info.head)
               || line in Attribute("branch", p.info.branchRef) || line in Attribute("prunable", p.info.prunable)
               || line in Flag("detached", p.info.detached) || line in Flag("bare", p.info.bare);
      }
    }
  }

  lemma {:induction false} PrintIsLines(ps: seq<Printed>, blanks: bool)
    requires forall p :: p in ps ==> p.Valid()
    ensures forall line :: line in Print(ps, blanks) ==> OneLine(line)
    decreases |ps|
  {
    if ps != [] {
      LinesAreLines(ps[0]);
      PrintIsLines(ps[1..], blanks);
    }
  }

  /** Parsing printed records, with unknown lines interspersed anywhere after a path line and with
      or without blank lines between records, gives back exactly the records. */
  lemma PorcelainRoundTrip(ps: seq<Printed>, blanks: bool)
    requires forall p :: p in ps ==> p.Valid()
    ensures Parse(Unlines(Print(ps, blanks))) == Infos(ps)
  {
    PrintIsLines(ps, blanks);
    SplitUnlines(Print(ps, blanks));
    FoldPrint(ps, blanks, ([], NOTHING));
    assert Close(([], NOTHING)) + Infos(ps) == Infos(ps);
  }

  // ---- The outer strip ---------------------------------------------------------------

  /** The result of parsing lines that continue a state. */
  function Rest(s: string, cur: string, state: (seq<WorktreeInfo>, Current)): seq<WorktreeInfo> {
    Close(Fold(SplitLines(s, cur), state))
  }

  lemma StripRightSnoc(s: string, c: char)
    requires IsSpace(c)
    ensures Strip(s + [c]) == Strip(s)
  {
    StripLeftSnoc(s, c);
    var t := StripLeft(s);
    assert (t + [c])[..|t|] == t;
  }

  lemma {:induction false} StripLeftSnoc(s: string, c: char)
    requires IsSpace(c)
    ensures StripLeft(s + [c]) == StripLeft(s) + [c] || (StripLeft(s) == "" && StripLeft(s + [c]) == "")
  {
    if s == [] {
      assert s + [c] == [c] && [c][1..] == [];
      assert StripLeft([c]) == StripLeft([c][1..]);
    } else if IsSpace(s[0]) {
      assert (s + [c])[1..] == s[1..] + [c];
      StripLeftSnoc(s[1..], c);
    }
  }

  lemma FoldOne(line: string, state: (seq<WorktreeInfo>, Current))
    ensures Fold([line], state) == Step(state, line)
  {
    assert [line][1..] == [];
    assert Fold([line], state) == Fold([], Step(state, line));
  }

  lemma FoldCons(line: string, rest: seq<string>, state: (seq<WorktreeInfo>, Current))
    ensures Fold([line] + rest, state) == Fold(rest, Step(state, line))
  {
    assert ([line] + rest)[1..] == rest;
  }

  /** White space at the end of the text does not matter. */
  lemma {:induction false} TrailingSpace(s: string, c: char, cur: string, state: (seq<WorktreeInfo>, Current))
    requires IsSpace(c)
    ensures Rest(s + [c], cur, state) == Rest(s, cur, state)
    decreases |s|
  {
    var t := s + [c];
    if s == [] {
      assert t[1..] == [];
      FoldOne(cur, state);
      FoldOne(cur + [c], state);
      StripRightSnoc(cur, c);
      assert Step(state, cur + [c]) == Step(state, cur);
      assert t == [c];
      assert SplitLines(t, cur) == if IsBreak(c) then [cur] else [cur + [c]];
      if cur == "" { assert Close(Step(state, cur)) == Close(state); }
    } else {
      assert t[1..] == s[1..] + [c];
      if !IsBreak(s[0]) {
        TrailingSpace(s[1..], c, cur + [s[0]], state);
      } else {
        hide Step;
        if s[0] == '\r' && |s| > 1 && s[1] == '\n' {
          assert t[2..] == s[2..] + [c];
          FoldCons(cur, SplitLines(t[2..], ""), state);
          FoldCons(cur, SplitLines(s[2..], ""), state);
          TrailingSpace(s[2..], c, "", Step(state, cur));
        } else if s[0] == '\r' && |s| == 1 && c == '\n' {
          assert t[2..] == [] && s[1..] == [];
        } else {
          FoldCons(cur, SplitLines(t[1..], ""), state);
          FoldCons(cur, SplitLines(s[1..], ""), state);
          TrailingSpace(s[1..], c, "", Step(state, cur));
        }
      }
    }
  }

  lemma {:induction false} ParseStripRight(s: string)
    ensures Parse(StripRight(s)) == Parse(s)
  {
    if s != [] && IsSpace(s[|s| - 1]) {
      var n := |s| - 1;
      ParseStripRight(s[..n]);
      TrailingSpace(s[..n], s[n], "", ([], NOTHING));
      assert s[..n] + [s[n]] == s;
    }
  }

  /** A white character in front of the first line does not matter either. */
  lemma {:induction false} LeadingSpace(s: string, c: char, cur: string, state: (seq<WorktreeInfo>, Current))
    requires IsSpace(c) && Close(state) == [] && state.1 == NOTHING
    ensures Rest(s, [c] + cur, state) == Rest(s, cur, state)
    decreases |s|
  {
    FoldOne(cur, state);
    FoldOne([c] + cur, state);
    assert ([c] + cur)[1..] == cur;
    assert Step(state, [c] + cur) == Step(state, cur);
    if s != [] {
      if !IsBreak(s[0]) {
        assert [c] + cur + [s[0]] == [c] + (cur + [s[0]]);
        LeadingSpace(s[1..], c, cur + [s[0]], state);
      } else {
        var rest := if s[0] == '\r' && |s| > 1 && s[1] == '\n' then s[2..] else s[1..];
        FoldCons(cur, SplitLines(rest, ""), state);
        FoldCons([c] + cur, SplitLines(rest, ""), state);
      }
    }
  }

  lemma {:induction false} ParseStripLeft(s: string)
    ensures Parse(StripLeft(s)) == Parse(s)
  {
    if s != [] && IsSpace(s[0]) {
      var start := ([], NOTHING);
      ParseStripLeft(s[1..]);
      if !IsBreak(s[0]) {
        assert "" + [s[0]] == [s[0]] + "";
        LeadingSpace(s[1..], s[0], "", start);
      } else if s[0] == '\r' && |s| > 1 && s[1] == '\n' {
        assert s[1..][1..] == s[2..];
      } else {
        FoldCons("", SplitLines(s[1..], ""), start);
        assert Step(start, "") == start;
      }
    }
  }

  /** `list_worktrees`: the git wrapper strips the whole output first, which changes nothing. */
  lemma ListWorktreesRoundTrip(ps: seq<Printed>, blanks: bool)
    requires forall p :: p in ps ==> p.Valid()
    ensures Parse(Strip(Unlines(Print(ps, blanks)))) == Infos(ps)
  {
    var text := Unlines(Print(ps, blanks));
    PorcelainRoundTrip(ps, blanks);
    ParseStripLeft(text);
    ParseStripRight(StripLeft(text));
  }

  // ---- What can come out at all -----------------------------------------------------

  predicate CleanCurrent(c: Current) {
    CleanOption(c.path) && CleanOption(c.head) && CleanOption(c.branchRef) && CleanOption(c.prunable) && c.prunable != Some("")
  }

  ghost predicate CleanState(state: (seq<WorktreeInfo>, Current)) {
    (forall info :: info in state.0 ==> Clean(info)) && CleanCurrent(state.1)
  }

  lemma AttributeKeepsClean(c: Current, key: string, value: string)
    requires CleanCurrent(c) && CleanText(value)
    ensures CleanCurrent(WithAttribute(c, key, value))
    ensures CleanCurrent(NOTHING) && CleanCurrent(NOTHING.(path := Some(value)))
  {
    hide CleanText;
  }

  lemma {:induction false} SplitIsLines(s: string, cur: string)
    requires OneLine(cur)
    ensures forall line :: line in SplitLines(s, cur) ==> OneLine(line)
    decreases |s|
  {
    if s != [] {
      if !IsBreak(s[0]) {
        SplitIsLines(s[1..], cur + [s[0]]);
      } else {
        SplitIsLines(s[1..], "");
        if |s| > 1 { SplitIsLines(s[2..], ""); }
      }
    }
  }

  lemma {:induction false} StripLeftKeeps(s: string)
    requires OneLine(s)
    ensures OneLine(StripLeft(s))
  {
    if s != [] && IsSpace(s[0]) { StripLeftKeeps(s[1..]); }
  }

  lemma {:induction false} StripRightCleans(s: string)
    requires OneLine(s)
    ensures CleanText(StripRight(s))
  {
    if s != [] && IsSpace(s[|s| - 1]) { StripRightCleans(s[..|s| - 1]); }
  }

  lemma StepKeepsClean(state: (seq<WorktreeInfo>, Current), raw: string)
    requires CleanState(state) && OneLine(raw)
    ensures CleanState(Step(state, raw))
  {
    var line := Strip(raw);
    ValueIsClean(raw);
    CloseIsClean(state);
    AttributeKeepsClean(state.1, Key(line), Value(line));
    hide CleanCurrent;
    hide WithAttribute;
    hide Appended;
    hide Strip;
    hide Key;
    hide Value;
    hide OneLine;
    hide Clean;
  }

  lemma CloseIsClean(state: (seq<WorktreeInfo>, Current))
    requires CleanState(state)
    ensures forall info :: info in Appended(state.0, state.1) ==> Clean(info)
  {
    hide CleanText;
  }

  lemma ValueIsClean(raw: string)
    requires OneLine(raw)
    ensures CleanText(Value(Strip(raw)))
  {
    StripLeftKeeps(raw);
    StripRightCleans(StripLeft(raw));
    var line := Strip(raw);
    var v := Value(line);
    if v != [] { assert v[|v| - 1] == line[|line| - 1]; }
  }

  lemma {:induction false} FoldKeepsClean(lines: seq<string>, state: (seq<WorktreeInfo>, Current))
    requires CleanState(state) && forall line :: line in lines ==> OneLine(line)
    ensures CleanState(Fold(lines, state))
    decreases |lines|
  {
    if lines != [] {
      StepKeepsClean(state, lines[0]);
      FoldKeepsClean(lines[1..], Step(state, lines[0]));
    }
  }

  /** The parser returns clean records only, whatever text it is given. */
  lemma ParsedIsClean(output: string)
    ensures forall info :: info in Parse(output) ==> Clean(info)
  {
    SplitIsLines(output, "");
    FoldKeepsClean(SplitLines(output, ""), ([], NOTHING));
  }

  /** So `Clean` is exactly what the format can carry: a record can be recovered from some text if
      and only if it is clean. A path that ends in a blank, for one, cannot. */
  lemma CleanIsExact(info: WorktreeInfo)
    ensures (exists output :: Parse(output) == [info]) <==> Clean(info)
  {
    if output :| Parse(output) == [info] {
      ParsedIsClean(output);
      assert info in Parse(output);
    }
    if Clean(info) {
      var p := Printed(info, [], [], [], [], [], []);
      PorcelainRoundTrip([p], true);
      assert Infos([p]) == [info];
    }
  }
}
