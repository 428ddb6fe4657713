/** What the annotations reader promises about the documented layout, comments and the placement of items. */
module ScorecardLaws {
  import opened Wrappers
  import opened Text
  import opened Scorecard

  // ----- blank and comment lines -----

  /** The result without line numbers. */
  function Verdict(r: Result<seq<Annotation>, ParseError>): Result<seq<Annotation>, Complaint> {
    match r
    case Ok(annotations) => Ok(annotations)
    case Err(e) => Err(e.complaint)
  }

  predicate SameRun(a: Result<State, ParseError>, b: Result<State, ParseError>) {
    if a.Ok? then a == b else b.Err? && a.error.complaint == b.error.complaint
  }

  lemma RunSnoc(lines: seq<string>, l: string)
    ensures Run(lines + [l]) ==
      if Run(lines).Err? then Run(lines)
      else
        var r := Step(Run(lines).value, l);
        if r.Err? then Err(ParseError(|lines| + 1, r.error)) else Ok(r.value)
  {
    hide Step;
    assert (lines + [l])[..|lines|] == lines;
  }

  lemma IgnoredStep(l: string)
    requires Ignored(l)
    ensures forall s :: Step(s, l) == Ok(s)
  {
    hide Ignored;
  }

  lemma {:induction false} RunIgnores(a: seq<string>, l: string, b: seq<string>)
    requires Ignored(l)
    ensures SameRun(Run(a + [l] + b), Run(a + b))
  {
    hide Run, Step, Ignored;
    if b == [] {
      RunSnoc(a, l);
      IgnoredStep(l);
      assert a + [l] + b == a + [l] && a + b == a;
    } else {
      var n := |b| - 1;
      RunIgnores(a, l, b[..n]);
      RunSnoc(a + [l] + b[..n], b[n]);
      RunSnoc(a + b[..n], b[n]);
      assert a + [l] + b == a + [l] + b[..n] + [b[n]] && a + b == a + b[..n] + [b[n]];
    }
  }

  /** A blank or comment-only line, with either kind of line end, may be inserted between any two lines of any text
      without changing what is parsed or complained about. */
  lemma IgnoredLinesDoNotMatter(x: string, l: string, end: string, y: string)
    requires x == "" || x[|x| - 1] == '\n'
    requires Ignored(l) && OneLine(l) && end in {"\n", "\r\n"}
    ensures Verdict(Outcome(Lines(x + (l + end) + y))) == Verdict(Outcome(Lines(x + y)))
  {
    hide Run, Ignored, OneLine, Lines;
    var z := x + (l + end);
    assert z[|z| - 1] == '\n';
    LinesSum(z, y);
    LinesSum(x, l + end);
    LinesOfOne(l, end);
    LinesSum(x, y);
    RunIgnores(Lines(x), l, Lines(y));
  }

  // ----- where items end up -----

  predicate Opens(raw: string) { !Ignored(raw) && Indent(raw) == 2 }

  predicate Turns(raw: string) { !Ignored(raw) && Indent(raw) == 4 }

  predicate IsItem(raw: string) { !Ignored(raw) && Indent(raw) == 6 }

  /** How many entries the lines open. */
  function Opened(lines: seq<string>): nat {
    if lines == [] then 0
    else Opened(lines[..|lines| - 1]) + (if Opens(lines[|lines| - 1]) then 1 else 0)
  }

  /** The key the last opening or turning line names. */
  function CurrentKey(lines: seq<string>): Option<Section> {
    if lines == [] then None
    else
      var l := lines[|lines| - 1];
      if Opens(l) then Some(Checks) else if Turns(l) then Some(Reasons) else CurrentKey(lines[..|lines| - 1])
  }

  function Stored(value: string, section: Section): string {
    if section == Reasons && |value| >= 8 then Trim(value[8..]) else value
  }

  /** The items written while entry `entry` was the last one opened and the key was `section`, in order. */
  function Written(lines: seq<string>, entry: nat, section: Section): seq<string> {
    if lines == [] then []
    else
      var init, l := lines[..|lines| - 1], lines[|lines| - 1];
      Written(init, entry, section)
      + (if IsItem(l) && Opened(init) == entry + 1 && CurrentKey(init) == Some(section)
         then [Stored(ItemValue(Content(l)), section)] else [])
  }

  predicate Filed(lines: seq<string>, s: State) {
    && |s.annotations| == Opened(lines) && s.currentKey == CurrentKey(lines)
    && forall j :: 0 <= j < |s.annotations| ==>
         s.annotations[j] == Annotation(Written(lines, j, Checks), Written(lines, j, Reasons))
  }

  lemma {:induction false} WrittenLater(lines: seq<string>, entry: nat, section: Section)
    requires Opened(lines) <= entry
    ensures Written(lines, entry, section) == []
  {
    hide Opens, IsItem, CurrentKey, ItemValue, Content;
    if lines != [] {
      WrittenLater(lines[..|lines| - 1], entry, section);
    }
  }

  lemma WrittenSnoc(init: seq<string>, l: string, entry: nat, section: Section)
    ensures Written(init + [l], entry, section) == Written(init, entry, section)
      + (if IsItem(l) && Opened(init) == entry + 1 && CurrentKey(init) == Some(section)
         then [Stored(ItemValue(Content(l)), section)] else [])
  {
    hide IsItem, Opened, CurrentKey, ItemValue, Content, Stored;
    assert (init + [l])[..|init|] == init;
  }

  lemma TalliesSnoc(init: seq<string>, l: string)
    ensures Opened(init + [l]) == Opened(init) + (if Opens(l) then 1 else 0)
    ensures CurrentKey(init + [l]) == if Opens(l) then Some(Checks) else if Turns(l) then Some(Reasons) else CurrentKey(init)
  {
    hide Opens, Turns;
    assert (init + [l])[..|init|] == init;
  }

  /** What one accepted line does, by its kind. */
  lemma StepKinds(s: State, l: string, t: State)
    requires Step(s, l) == Ok(t)
    ensures Opens(l) ==> t.annotations == s.annotations + [Annotation([], [])] && t.currentKey == Some(Checks)
    ensures Turns(l) ==> t.annotations == s.annotations && t.currentKey == Some(Reasons)
    ensures !Opens(l) && !Turns(l) && !IsItem(l) ==> t.annotations == s.annotations && t.currentKey == s.currentKey
    ensures IsItem(l) ==> AddItem(s, ItemValue(Content(l))) == Ok(t)
  {
    hide Ignored, Indent, Content, ItemValue, AddItem;
  }

  lemma ItemFiles(s: State, value: string, t: State)
    requires AddItem(s, value) == Ok(t)
    ensures |t.annotations| == |s.annotations| > 0 && t.currentKey == s.currentKey && s.currentKey.Some?
    ensures var n := |s.annotations| - 1;
      && (forall j :: 0 <= j < n ==> t.annotations[j] == s.annotations[j])
      && var section, stored := s.currentKey.value, Stored(value, s.currentKey.value);
         t.annotations[n] == if section == Checks
           then s.annotations[n].(checks := s.annotations[n].checks + [stored])
           else s.annotations[n].(reasons := s.annotations[n].reasons + [stored])
  {
    hide Trim;
  }

  lemma FiledItem(init: seq<string>, l: string, s: State, t: State)
    requires Filed(init, s) && IsItem(l) && AddItem(s, ItemValue(Content(l))) == Ok(t)
    ensures Filed(init + [l], t)
  {
    hide Ignored, Indent, Written, AddItem, Opened, CurrentKey, ItemValue, Content, Stored;
    ItemFiles(s, ItemValue(Content(l)), t);
    TalliesSnoc(init, l);
    forall j | 0 <= j < |t.annotations|
      ensures t.annotations[j] == Annotation(Written(init + [l], j, Checks), Written(init + [l], j, Reasons))
    {
      WrittenSnoc(init, l, j, Checks);
      WrittenSnoc(init, l, j, Reasons);
    }
  }

  lemma FiledOther(init: seq<string>, l: string, s: State, t: State)
    requires Filed(init, s) && Step(s, l) == Ok(t) && !IsItem(l)
    ensures Filed(init + [l], t)
  {
    hide Ignored, Indent, Dispatch;
    StepKinds(s, l, t);
    TalliesSnoc(init, l);
    assert !(Opens(l) && Turns(l));
    hide Written, Step, Opens, Turns, IsItem, Opened, CurrentKey, ItemValue, Content, Stored;
    forall j | 0 <= j < |t.annotations|
      ensures t.annotations[j] == Annotation(Written(init + [l], j, Checks), Written(init + [l], j, Reasons))
    {
      WrittenSnoc(init, l, j, Checks);
      WrittenSnoc(init, l, j, Reasons);
      if j == |s.annotations| {
        WrittenLater(init, j, Checks);
        WrittenLater(init, j, Reasons);
      }
    }
  }

  lemma EmptyFiled()
    ensures Run([]).Ok? && Filed([], Run([]).value)
  {
  }

  lemma {:induction false} RunFiles(lines: seq<string>)
    requires Run(lines).Ok?
    ensures Filed(lines, Run(lines).value)
  {
    hide Step, Opened, CurrentKey, Written, Run, IsItem;
    if lines == [] {
      EmptyFiled();
    } else {
      var init, l := lines[..|lines| - 1], lines[|lines| - 1];
      assert lines == init + [l];
      RunSnoc(init, l);
      RunFiles(init);
      hide Filed;
      StepKinds(Run(init).value, l, Run(lines).value);
      if IsItem(l) {
        FiledItem(init, l, Run(init).value, Run(lines).value);
      } else {
        FiledOther(init, l, Run(init).value, Run(lines).value);
      }
    }
  }

  /** Every accepted item belongs to the most recently opened entry, under the key last named, and nothing is
      lost, repeated or moved. */
  lemma ItemsBelongToTheLastEntry(source: string)
    requires Outcome(Lines(source)).Ok?
    ensures var lines, entries := Lines(source), Outcome(Lines(source)).value;
      && |entries| == Opened(lines)
      && forall j :: 0 <= j < |entries| ==>
           entries[j] == Annotation(Written(lines, j, Checks), Written(lines, j, Reasons))
  {
    RunFiles(Lines(source));
    hide Run, Lines, Opened, CurrentKey, Written;
  }

  // ----- the documented layout -----

  function CheckLines(checks: seq<string>): seq<string> {
    if checks == [] then [] else CheckLines(checks[..|checks| - 1]) + ["      - " + checks[|checks| - 1]]
  }

  function ReasonLines(reasons: seq<string>): seq<string> {
    if reasons == [] then [] else ReasonLines(reasons[..|reasons| - 1]) + ["      - reason: " + reasons[|reasons| - 1]]
  }

  function EntryLines(a: Annotation): seq<string> {
    ["  - checks:"] + CheckLines(a.checks) + ["    reasons:"] + ReasonLines(a.reasons)
  }

  function Layout(annotations: seq<Annotation>): seq<string> {
    if annotations == [] then ["annotations:"]
    else Layout(annotations[..|annotations| - 1]) + EntryLines(annotations[|annotations| - 1])
  }

  /** A value on one line, without surrounding white space and without the start of a comment. */
  predicate Clean(v: string) {
    v != "" && Trimmed(v) && '\n' !in v && v[0] != '#' && SplitOnce(v, " #").None?
  }

  /** A check must not look like a nested item. */
  predicate CleanAnnotation(a: Annotation) {
    && (forall c :: c in a.checks ==> Clean(c) && !("- " <= c))
    && (forall r :: r in a.reasons ==> Clean(r))
  }

  predicate Spaces(s: string) { forall i :: 0 <= i < |s| ==> s[i] == ' ' }

  /** An indented line: its spaces are its indent, and the rest its content. */
  lemma Indented(spaces: string, content: string)
    requires spaces in {"", "  ", "    ", "      "}
    requires content != "" && !White(content[0]) && SplitOnce(spaces + content, " #").None?
    ensures Indent(spaces + content) == |spaces| && Content(spaces + content) == content
  {
    SpacesStart(spaces, content);
    SpacesCount(spaces);
    var line := spaces + content;
    assert StripComment(line) == line;
    assert line[..|line| - |content|] == spaces;
    hide TrimStart, Bytes, SplitOnce;
  }

  lemma SpaceStarts(rest: string)
    ensures TrimStart(" " + rest) == TrimStart(rest)
  {
    assert (" " + rest)[1..] == rest;
  }

  lemma OneSpaceLess(spaces: string, content: string)
    requires Spaces(spaces) && spaces != ""
    ensures spaces + content == " " + (spaces[1..] + content) && Spaces(spaces[1..])
  {
    assert spaces == " " + spaces[1..];
  }

  lemma {:induction false} SpacesStart(spaces: string, content: string)
    requires Spaces(spaces) && content != "" && !White(content[0])
    ensures TrimStart(spaces + content) == content
  {
    if spaces == "" {
      assert spaces + content == content;
    } else {
      hide TrimStart, White, Spaces;
      OneSpaceLess(spaces, content);
      SpacesStart(spaces[1..], content);
      SpaceStarts(spaces[1..] + content);
    }
  }

  lemma {:induction false} SpacesCount(spaces: string)
    requires Spaces(spaces)
    ensures Bytes(spaces) == |spaces|
  {
    if spaces != "" {
      SpacesCount(spaces[1..]);
    }
  }

  /** A line that holds a character that is neither white nor a hash before anything else is not ignored. */
  lemma NotIgnored(spaces: string, content: string)
    requires Spaces(spaces) && content != "" && !White(content[0]) && content[0] != '#'
    ensures !Ignored(spaces + content)
  {
    SpacesStart(spaces, content);
    var t := Trim(spaces + content);
    TrimEndKeepsFirst(content);
    hide TrimStart, TrimEnd;
  }

  lemma {:induction false} TrimEndKeepsFirst(s: string)
    requires s != "" && !White(s[0])
    ensures TrimEnd(s) != "" && TrimEnd(s)[0] == s[0]
  {
    if White(s[|s| - 1]) {
      TrimEndKeepsFirst(s[..|s| - 1]);
    }
  }

  /** The line of a laid-out value reads as an item holding exactly it. */
  lemma LineMeans(spaces: string, content: string)
    requires spaces in {"", "  ", "    ", "      "}
    requires content != "" && !White(content[0]) && content[0] != '#' && SplitOnce(spaces + content, " #").None?
    ensures forall s: State :: Step(s, spaces + content) == Dispatch(s, |spaces|, content)
  {
    Indented(spaces, content);
    NotIgnored(spaces, content);
    hide Indent, Content, Ignored, Dispatch;
  }

  lemma KeyLines(s: State)
    ensures Step(s, "annotations:") == Dispatch(s, 0, "annotations:")
    ensures Step(s, "  - checks:") == Dispatch(s, 2, "- checks:")
    ensures Step(s, "    reasons:") == Dispatch(s, 4, "reasons:")
  {
    hide Step, Dispatch;
    KeyLine("", "annotations:", s);
    KeyLine("  ", "- checks:", s);
    KeyLine("    ", "reasons:", s);
    assert "" + "annotations:" == "annotations:" && "  " + "- checks:" == "  - checks:" && "    " + "reasons:" == "    reasons:";
  }

  lemma KeyLine(spaces: string, content: string, s: State)
    requires spaces in {"", "  ", "    "} && content in {"annotations:", "- checks:", "reasons:"}
    ensures Step(s, spaces + content) == Dispatch(s, |spaces|, content)
  {
    assert '#' !in spaces + content;
    SplitOnceHash(spaces + content);
    LineMeans(spaces, content);
    hide Step, Dispatch;
  }

  lemma {:induction false} SplitOnceHash(s: string)
    requires '#' !in s
    ensures SplitOnce(s, " #").None?
  {
    if s != "" {
      SplitOnceHash(s[1..]);
      assert !(" #" <= s);
    }
  }

  lemma CheckLine(s: State, c: string)
    requires Clean(c) && !("- " <= c)
    ensures Step(s, "      - " + c) == AddItem(s, c)
  {
    hide Step, AddItem, DropDashes, Trim, Trimmed, SplitOnce;
    CheckLineMeans(s, c);
    CheckValueKept(c);
  }

  lemma ReasonLine(s: State, r: string)
    requires Clean(r)
    ensures Step(s, "      - reason: " + r) == AddItem(s, "reason: " + r)
  {
    hide Step, AddItem, ItemValue, Trimmed, SplitOnce;
    PlainLine(s, "- reason: ", r);
    assert "      " + "- reason: " == "      - reason: ";
    CleanReasonItem(r);
  }

  lemma CleanReasonItem(r: string)
    requires r != "" && Trimmed(r)
    ensures ItemValue("- reason: " + r) == "reason: " + r
  {
    hide Trim;
    var value := "reason: " + r;
    assert ("- reason: " + r)[2..] == value && DropDashes(value) == value && DropDashes("- reason: " + r) == value;
    assert value[|value| - 1] == r[|r| - 1];
  }

  lemma RunPlus(lines: seq<string>, l: string, t: State)
    requires Run(lines).Ok? && Step(Run(lines).value, l) == Ok(t)
    ensures Run(lines + [l]) == Ok(t)
  {
    RunSnoc(lines, l);
    hide Run, Step;
  }

  /** The state with some last entry under some key. */
  function Under(done: seq<Annotation>, last: Annotation, key: Section): State {
    State(done + [last], Some(key), true)
  }

  lemma {:induction false} RunChecks(lines: seq<string>, done: seq<Annotation>, checks: seq<string>)
    requires Run(lines) == Ok(Under(done, Annotation([], []), Checks))
    requires forall c :: c in checks ==> Clean(c) && !("- " <= c)
    ensures Run(lines + CheckLines(checks)) == Ok(Under(done, Annotation(checks, []), Checks))
  {
    hide Run, Step, SplitOnce, Trimmed;
    if checks == [] {
      assert lines + CheckLines(checks) == lines;
    } else {
      var n := |checks| - 1;
      RunChecks(lines, done, checks[..n]);
      var s := Under(done, Annotation(checks[..n], []), Checks);
      CheckLine(s, checks[n]);
      AddCheck(done, checks[..n], checks[n]);
      assert checks == checks[..n] + [checks[n]];
      RunPlus(lines + CheckLines(checks[..n]), "      - " + checks[n], Under(done, Annotation(checks, []), Checks));
      assert lines + CheckLines(checks) == lines + CheckLines(checks[..n]) + ["      - " + checks[n]];
    }
  }

  lemma AddCheck(done: seq<Annotation>, checks: seq<string>, c: string)
    requires c != ""
    ensures AddItem(Under(done, Annotation(checks, []), Checks), c) == Ok(Under(done, Annotation(checks + [c], []), Checks))
  {
    var s := Under(done, Annotation(checks, []), Checks);
    var n := |s.annotations| - 1;
    assert s.annotations[n] == Annotation(checks, []);
    assert s.annotations[n := Annotation(checks + [c], [])] == done + [Annotation(checks + [c], [])];
  }

  lemma AddReason(done: seq<Annotation>, checks: seq<string>, reasons: seq<string>, r: string)
    requires Trimmed(r)
    ensures AddItem(Under(done, Annotation(checks, reasons), Reasons), "reason: " + r)
         == Ok(Under(done, Annotation(checks, reasons + [r]), Reasons))
  {
    var s := Under(done, Annotation(checks, reasons), Reasons);
    var n, value := |s.annotations| - 1, "reason: " + r;
    assert value[8..] == r && "reason: " <= value && Trim(r) == r;
    assert s.annotations[n] == Annotation(checks, reasons);
    assert s.annotations[n := Annotation(checks, reasons + [r])] == done + [Annotation(checks, reasons + [r])];
  }

  lemma {:induction false} RunReasons(lines: seq<string>, done: seq<Annotation>, checks: seq<string>, reasons: seq<string>)
    requires Run(lines) == Ok(Under(done, Annotation(checks, []), Reasons))
    requires forall r :: r in reasons ==> Clean(r)
    ensures Run(lines + ReasonLines(reasons)) == Ok(Under(done, Annotation(checks, reasons), Reasons))
  {
    hide Run, Step, SplitOnce, Trimmed, Under, AddItem;
    if reasons == [] {
      assert lines + ReasonLines(reasons) == lines;
    } else {
      var n := |reasons| - 1;
      RunReasons(lines, done, checks, reasons[..n]);
      var s := Under(done, Annotation(checks, reasons[..n]), Reasons);
      ReasonLine(s, reasons[n]);
      AddReason(done, checks, reasons[..n], reasons[n]);
      assert reasons == reasons[..n] + [reasons[n]];
      RunPlus(lines + ReasonLines(reasons[..n]), "      - reason: " + reasons[n], Under(done, Annotation(checks, reasons), Reasons));
      assert lines + ReasonLines(reasons) == lines + ReasonLines(reasons[..n]) + ["      - reason: " + reasons[n]];
    }
  }

  lemma RunEntry(lines: seq<string>, s: State, a: Annotation)
    requires Run(lines) == Ok(s) && s.seenKey && CleanAnnotation(a)
    ensures Run(lines + EntryLines(a)) == Ok(Under(s.annotations, a, Reasons))
  {
    hide Run, Step, Clean;
    var done := s.annotations;
    KeyLines(s);
    var top := lines + ["  - checks:"];
    RunPlus(lines, "  - checks:", Under(done, Annotation([], []), Checks));
    RunChecks(top, done, a.checks);
    var checked := top + CheckLines(a.checks);
    KeyLines(Under(done, Annotation(a.checks, []), Checks));
    RunPlus(checked, "    reasons:", Under(done, Annotation(a.checks, []), Reasons));
    RunReasons(checked + ["    reasons:"], done, a.checks, a.reasons);
    assert lines + EntryLines(a) == checked + ["    reasons:"] + ReasonLines(a.reasons);
  }

  lemma RunHeader()
    ensures Run(["annotations:"]) == Ok(START.(seenKey := true))
  {
    hide Step;
    KeyLines(START);
    assert Run([]) == Ok(START);
    assert [] + ["annotations:"] == ["annotations:"];
    RunPlus([], "annotations:", START.(seenKey := true));
  }

  lemma {:induction false} RunLayout(annotations: seq<Annotation>)
    requires forall a :: a in annotations ==> CleanAnnotation(a)
    ensures Run(Layout(annotations)) == Ok(State(annotations, if annotations == [] then None else Some(Reasons), true))
  {
    hide Run, CleanAnnotation, EntryLines;
    if annotations == [] {
      RunHeader();
    } else {
      var n := |annotations| - 1;
      RunLayout(annotations[..n]);
      RunEntry(Layout(annotations[..n]), State(annotations[..n], if n == 0 then None else Some(Reasons), true), annotations[n]);
      assert annotations == annotations[..n] + [annotations[n]];
    }
  }

  // ----- which values survive -----

  lemma StartsComment(s: string)
    ensures " #" <= s <==> |s| >= 2 && s[0] == ' ' && s[1] == '#'
  {
    if |s| >= 2 {
      assert s[..2] == [s[0], s[1]] && " #" == [' ', '#'];
    }
  }

  lemma CommentLater(c: char, rest: string)
    requires c != '#' && (c != ' ' || rest == "" || rest[0] != '#')
    ensures SplitOnce([c] + rest, " #") ==
      match SplitOnce(rest, " #")
      case None => None
      case Some(halves) => Some(([c] + halves.0, halves.1))
  {
    var s := [c] + rest;
    assert s[1..] == rest;
    StartsComment(s);
  }

  lemma {:induction false} CommentAfter(p: string, v: string)
    requires '#' !in p && (v == "" || v[0] != '#')
    ensures SplitOnce(p + v, " #") ==
      if SplitOnce(v, " #").None? then None else Some((p + SplitOnce(v, " #").value.0, SplitOnce(v, " #").value.1))
  {
    hide SplitOnce;
    if p == "" {
      assert p + v == v;
      if SplitOnce(v, " #").Some? {
        assert p + SplitOnce(v, " #").value.0 == SplitOnce(v, " #").value.0;
      }
    } else {
      var rest := p[1..] + v;
      CommentAfter(p[1..], v);
      assert p + v == [p[0]] + rest;
      assert rest != "" ==> rest[0] == if |p| > 1 then p[1] else v[0];
      CommentLater(p[0], rest);
      if SplitOnce(v, " #").Some? {
        var x := SplitOnce(v, " #").value.0;
        assert [p[0]] + (p[1..] + x) == p + x;
      }
    }
  }

  lemma {:induction false} CommentAtOnce(p: string, v: string)
    requires '#' !in p && v != "" && v[0] == '#' && p != "" && p[|p| - 1] == ' '
    ensures SplitOnce(p + v, " #") == Some((p[..|p| - 1], v[1..]))
  {
    var s := p + v;
    if |p| == 1 {
      assert s[0] == ' ' && s[1] == '#' && s[2..] == v[1..];
      assert " #" <= s;
    } else {
      CommentAtOnce(p[1..], v);
      assert s[1..] == p[1..] + v && s[0] == p[0] && s[1] == p[1];
      assert !(" #" <= s);
      assert [p[0]] + p[1..][..|p| - 2] == p[..|p| - 1];
    }
  }

  /** A line that holds a comment: its indent and content are those of what precedes it. */
  lemma StrippedLine(raw: string, content: string)
    requires StripComment(raw) == "      " + content && content != "" && !White(content[0])
    ensures Indent(raw) == 6 && Content(raw) == content
  {
    SpacesStart("      ", content);
    SpacesCount("      ");
    var line := "      " + content;
    assert line[..|line| - |content|] == "      ";
    hide TrimStart, Bytes, SplitOnce;
  }

  lemma {:induction false} DropDashesShortens(s: string)
    ensures |DropDashes(s)| <= |s| && ("- " <= s ==> |DropDashes(s)| < |s|)
    ensures !("- " <= s) ==> DropDashes(s) == s
    decreases |s|
  {
    if "- " <= s {
      DropDashesShortens(s[2..]);
    }
  }

  lemma ItemLine(s: State, raw: string, content: string)
    requires "      - " <= raw && StripComment(raw) == "      " + content && content != "" && !White(content[0])
    ensures Step(s, raw) == if "- " <= content then AddItem(s, ItemValue(content)) else Err(UnexpectedItem(content))
  {
    hide StripComment, Indent, Content, Ignored, AddItem, ItemValue;
    StrippedLine(raw, content);
    ItemNotIgnored(raw);
  }

  /** An item that starts a comment leaves nothing acceptable. */
  lemma HashCheck(s: State, v: string)
    requires v != "" && v[0] == '#'
    ensures Step(s, "      - " + v).Err?
  {
    hide Step, White;
    CommentAtOnce("      - ", v);
    hide SplitOnce;
    assert "      - "[..7] == "      " + "-";
    DashIsNotWhite();
    ItemLine(s, "      - " + v, "-");
  }

  lemma HashReason(s: State, v: string)
    requires v != "" && v[0] == '#' && s.currentKey == Some(Reasons)
    ensures Step(s, "      - reason: " + v).Err?
  {
    hide Step, White, AddItem, ItemValue;
    CommentAtOnce("      - reason: ", v);
    hide SplitOnce;
    assert "      - reason: "[..15] == "      " + "- reason:";
    DashIsNotWhite();
    var raw := "      - reason: " + v;
    assert "      - " <= raw;
    BareReason(s);
    ItemLine(s, raw, "- reason:");
  }

  lemma DashIsNotWhite()
    ensures !White('-')
  {
  }

  lemma ItemNotIgnored(raw: string)
    requires "      - " <= raw
    ensures !Ignored(raw)
  {
    assert raw == "      " + raw[6..] && raw[6..][0] == '-';
    NotIgnored("      ", raw[6..]);
  }

  lemma BareReason(s: State)
    requires s.currentKey == Some(Reasons)
    ensures "- " <= "- reason:" && AddItem(s, ItemValue("- reason:")).Err?
  {
    assert "- reason:"[2..] == "reason:" && Trimmed("reason:");
    assert DropDashes("reason:") == "reason:";
    assert DropDashes("- reason:") == "reason:";
    hide DropDashes, Trim;
    assert !("reason: " <= "reason:");
  }

  /** Any other item is cut short at a comment. */
  lemma PlainLine(s: State, head: string, v: string)
    requires head in {"- ", "- reason: "} && (v == "" || v[0] != '#')
    ensures Step(s, "      " + head + v) == AddItem(s, ItemValue(head + StripComment(v)))
  {
    hide Step, White, AddItem, ItemValue, SplitOnce;
    var p, x := "      " + head, StripComment(v);
    CommentAfter(p, v);
    assert StripComment(p + v) == p + x;
    hide StripComment;
    ItemShape(head, v, x);
    DashIsNotWhite();
    ItemLine(s, p + v, head + x);
  }

  lemma ItemShape(head: string, v: string, x: string)
    requires head in {"- ", "- reason: "}
    ensures "      " + head + x == "      " + (head + x)
    ensures "      - " <= "      " + head + v && "- " <= head + x && (head + x)[0] == '-'
  {
  }

  /** What a check's line reads as: nothing acceptable if the check starts a comment, and otherwise an item
      cut short at a comment, bared of dashes and trimmed. */
  lemma CheckLineMeans(s: State, c: string)
    ensures c != "" && c[0] == '#' ==> Step(s, "      - " + c).Err?
    ensures c == "" || c[0] != '#' ==> Step(s, "      - " + c) == AddItem(s, Trim(DropDashes(StripComment(c))))
  {
    hide Step, AddItem;
    if c != "" && c[0] == '#' {
      HashCheck(s, c);
    } else {
      PlainLine(s, "- ", c);
      assert "      " + "- " == "      - ";
      assert ("- " + StripComment(c))[2..] == StripComment(c) && "- " <= "- " + StripComment(c);
      assert DropDashes("- " + StripComment(c)) == DropDashes(StripComment(c));
      hide SplitOnce;
    }
  }

  lemma CheckValueKept(c: string)
    requires c == "" || c[0] != '#'
    ensures Trim(DropDashes(StripComment(c))) == c ==> Trimmed(c) && SplitOnce(c, " #").None? && !("- " <= c)
    ensures Trimmed(c) && SplitOnce(c, " #").None? && !("- " <= c) ==> Trim(DropDashes(StripComment(c))) == c
  {
    DropDashesShortens(StripComment(c));
    hide DropDashes, TrimStart, TrimEnd;
  }

  /** A check without line breaks is read back as written exactly when it is clean and does not look like a
      nested item. */
  lemma CheckSurvivesExactlyWhen(done: seq<Annotation>, checks: seq<string>, c: string)
    requires '\n' !in c
    ensures Step(Under(done, Annotation(checks, []), Checks), "      - " + c) == Ok(Under(done, Annotation(checks + [c], []), Checks))
       <==> Clean(c) && !("- " <= c)
  {
    var s := Under(done, Annotation(checks, []), Checks);
    CheckLineMeans(s, c);
    if c == "" || c[0] != '#' {
      CheckValueKept(c);
      var value := Trim(DropDashes(StripComment(c)));
      if value != "" {
        AddCheck(done, checks, value);
        SameLast(done, checks, value, c);
      }
      assert value == "" ==> AddItem(s, value) == Err(EmptyItem);
    }
    hide Step, AddItem, Under, DropDashes, StripComment, SplitOnce, Trim, Trimmed;
  }

  lemma SameLast(done: seq<Annotation>, checks: seq<string>, v: string, c: string)
    ensures Under(done, Annotation(checks + [v], []), Checks) == Under(done, Annotation(checks + [c], []), Checks) <==> v == c
  {
    var a, b := done + [Annotation(checks + [v], [])], done + [Annotation(checks + [c], [])];
    assert a[|done|].checks[|checks|] == v && b[|done|].checks[|checks|] == c;
  }

  /** The item a reason's line holds is the start of `reason: ` and the reason up to a comment. */
  lemma ReasonItem(x: string)
    ensures var value := ItemValue("- reason: " + x); value <= "reason: " + x && Trimmed(value)
  {
    var s := "reason: " + x;
    assert ("- reason: " + x)[2..] == s && DropDashes(s) == s && DropDashes("- reason: " + x) == s;
    assert TrimStart(s) == s;
    hide TrimStart, TrimEnd;
  }

  lemma ReasonLineMeans(s: State, r: string)
    requires s.currentKey == Some(Reasons)
    ensures r != "" && r[0] == '#' ==> Step(s, "      - reason: " + r).Err?
    ensures r == "" || r[0] != '#' ==> Step(s, "      - reason: " + r) == AddItem(s, ItemValue("- reason: " + StripComment(r)))
  {
    hide Step, AddItem, ItemValue;
    if r != "" && r[0] == '#' {
      HashReason(s, r);
    } else {
      PlainLine(s, "- reason: ", r);
      assert "      " + "- reason: " == "      - reason: ";
    }
  }

  lemma ReasonKept(r: string, value: string)
    requires value <= "reason: " + StripComment(r) && Trimmed(value)
    requires "reason: " <= value && Trim(value[8..]) == r
    ensures r != "" && Trimmed(r) && SplitOnce(r, " #").None?
  {
    hide TrimStart, TrimEnd;
    var x := StripComment(r);
    assert |value| <= 8 + |x| && |r| <= |value| - 8;
    assert value[|value| - 1] == if |value| > 8 then value[8..][|value| - 9] else ' ';
  }

  /** A reason without line breaks is read back as written exactly when it is clean. */
  lemma ReasonSurvivesExactlyWhen(done: seq<Annotation>, checks: seq<string>, reasons: seq<string>, r: string)
    requires '\n' !in r
    ensures Step(Under(done, Annotation(checks, reasons), Reasons), "      - reason: " + r)
              == Ok(Under(done, Annotation(checks, reasons + [r]), Reasons))
       <==> Clean(r)
  {
    var s, t := Under(done, Annotation(checks, reasons), Reasons), Under(done, Annotation(checks, reasons + [r]), Reasons);
    hide Step, AddItem, ItemValue, SplitOnce, Trim, Trimmed, StripComment;
    if Clean(r) {
      ReasonLine(s, r);
      AddReason(done, checks, reasons, r);
    } else if Step(s, "      - reason: " + r) == Ok(t) {
      ReasonLineMeans(s, r);
      var value := ItemValue("- reason: " + StripComment(r));
      ReasonItem(StripComment(r));
      ReasonAdds(done, checks, reasons, value);
      SameLastReason(done, checks, reasons, Trim(value[8..]), r);
      ReasonKept(r, value);
    }
  }

  lemma ReasonAdds(done: seq<Annotation>, checks: seq<string>, reasons: seq<string>, value: string)
    ensures var r := AddItem(Under(done, Annotation(checks, reasons), Reasons), value);
      if "reason: " <= value then r == Ok(Under(done, Annotation(checks, reasons + [Trim(value[8..])]), Reasons)) else r.Err?
  {
    hide Trim;
    var s := Under(done, Annotation(checks, reasons), Reasons);
    var n := |s.annotations| - 1;
    assert s.annotations[n] == Annotation(checks, reasons);
    if "reason: " <= value {
      var last := Annotation(checks, reasons + [Trim(value[8..])]);
      assert s.annotations[n := last] == done + [last];
    }
  }

  lemma SameLastReason(done: seq<Annotation>, checks: seq<string>, reasons: seq<string>, v: string, r: string)
    ensures Under(done, Annotation(checks, reasons + [v]), Reasons) == Under(done, Annotation(checks, reasons + [r]), Reasons) <==> v == r
  {
    var a, b := done + [Annotation(checks, reasons + [v])], done + [Annotation(checks, reasons + [r])];
    assert a[|done|].reasons[|reasons|] == v && b[|done|].reasons[|reasons|] == r;
  }

  // ----- which layouts survive -----

  /** What a check's line reads as, when it is accepted. */
  predicate CheckReads(c: string, v: string) {
    (c == "" || c[0] != '#') && v == Trim(DropDashes(StripComment(c))) && v != ""
  }

  predicate ReasonReads(r: string, v: string) {
    var value := ItemValue("- reason: " + StripComment(r));
    (r == "" || r[0] != '#') && "reason: " <= value && v == Trim(value[8..])
  }

  predicate EntryReads(a: Annotation, b: Annotation) {
    && |b.checks| == |a.checks| && (forall i :: 0 <= i < |a.checks| ==> CheckReads(a.checks[i], b.checks[i]))
    && |b.reasons| == |a.reasons| && (forall i :: 0 <= i < |a.reasons| ==> ReasonReads(a.reasons[i], b.reasons[i]))
  }

  lemma {:induction false} ChecksAccepted(lines: seq<string>, done: seq<Annotation>, checks: seq<string>) returns (vs: seq<string>)
    requires Run(lines) == Ok(Under(done, Annotation([], []), Checks)) && Run(lines + CheckLines(checks)).Ok?
    ensures Run(lines + CheckLines(checks)) == Ok(Under(done, Annotation(vs, []), Checks))
    ensures |vs| == |checks| && forall i :: 0 <= i < |checks| ==> CheckReads(checks[i], vs[i])
  {
    hide Run, Step, CheckReads, Under;
    if checks == [] {
      assert lines + CheckLines(checks) == lines;
      vs := [];
    } else {
      var n := |checks| - 1;
      var before, l := lines + CheckLines(checks[..n]), "      - " + checks[n];
      assert lines + CheckLines(checks) == before + [l];
      RunSnoc(before, l);
      var init := ChecksAccepted(lines, done, checks[..n]);
      var v := CheckAccepted(done, init, checks[n]);
      vs := init + [v];
    }
  }

  lemma CheckAccepted(done: seq<Annotation>, checks: seq<string>, c: string) returns (v: string)
    requires Step(Under(done, Annotation(checks, []), Checks), "      - " + c).Ok?
    ensures CheckReads(c, v)
    ensures Step(Under(done, Annotation(checks, []), Checks), "      - " + c) == Ok(Under(done, Annotation(checks + [v], []), Checks))
  {
    hide Step, DropDashes, StripComment, Trim;
    var s := Under(done, Annotation(checks, []), Checks);
    CheckLineMeans(s, c);
    v := Trim(DropDashes(StripComment(c)));
    assert v == "" ==> AddItem(s, v) == Err(EmptyItem);
    if v != "" {
      AddCheck(done, checks, v);
    }
    hide AddItem, Under;
  }

  lemma {:induction false} ReasonsAccepted(lines: seq<string>, done: seq<Annotation>, checks: seq<string>, reasons: seq<string>)
    returns (vs: seq<string>)
    requires Run(lines) == Ok(Under(done, Annotation(checks, []), Reasons)) && Run(lines + ReasonLines(reasons)).Ok?
    ensures Run(lines + ReasonLines(reasons)) == Ok(Under(done, Annotation(checks, vs), Reasons))
    ensures |vs| == |reasons| && forall i :: 0 <= i < |reasons| ==> ReasonReads(reasons[i], vs[i])
  {
    hide Run, Step, ReasonReads, Under;
    if reasons == [] {
      assert lines + ReasonLines(reasons) == lines;
      vs := [];
    } else {
      var n := |reasons| - 1;
      var before, l := lines + ReasonLines(reasons[..n]), "      - reason: " + reasons[n];
      assert lines + ReasonLines(reasons) == before + [l];
      RunSnoc(before, l);
      var init := ReasonsAccepted(lines, done, checks, reasons[..n]);
      var v := ReasonAccepted(done, checks, init, reasons[n]);
      vs := init + [v];
    }
  }

  lemma ReasonAccepted(done: seq<Annotation>, checks: seq<string>, reasons: seq<string>, r: string) returns (v: string)
    requires Step(Under(done, Annotation(checks, reasons), Reasons), "      - reason: " + r).Ok?
    ensures ReasonReads(r, v)
    ensures Step(Under(done, Annotation(checks, reasons), Reasons), "      - reason: " + r)
         == Ok(Under(done, Annotation(checks, reasons + [v]), Reasons))
  {
    hide Step, AddItem, ItemValue, StripComment, Trim;
    ReasonLineMeans(Under(done, Annotation(checks, reasons), Reasons), r);
    var value := ItemValue("- reason: " + StripComment(r));
    ReasonAdds(done, checks, reasons, value);
    v := Trim(value[8..]);
  }

  lemma EntryAccepted(lines: seq<string>, s: State, a: Annotation) returns (b: Annotation)
    requires Run(lines) == Ok(s) && s.seenKey && Run(lines + EntryLines(a)).Ok?
    ensures Run(lines + EntryLines(a)) == Ok(Under(s.annotations, b, Reasons)) && EntryReads(a, b)
  {
    hide Run, Step, CheckReads, ReasonReads;
    var done := s.annotations;
    var top := lines + ["  - checks:"];
    var checked := top + CheckLines(a.checks);
    var turned := checked + ["    reasons:"];
    assert lines + EntryLines(a) == turned + ReasonLines(a.reasons);
    KeyLines(s);
    RunPlus(lines, "  - checks:", Under(done, Annotation([], []), Checks));
    PrefixAccepted(turned, ReasonLines(a.reasons));
    PrefixAccepted(checked, ["    reasons:"]);
    var vs := ChecksAccepted(top, done, a.checks);
    KeyLines(Under(done, Annotation(vs, []), Checks));
    RunPlus(checked, "    reasons:", Under(done, Annotation(vs, []), Reasons));
    var ws := ReasonsAccepted(turned, done, vs, a.reasons);
    b := Annotation(vs, ws);
  }

  lemma PrefixAccepted(a: seq<string>, b: seq<string>)
    requires Run(a + b).Ok?
    ensures Run(a).Ok?
  {
    hide Run;
    assert (a + b)[..|a|] == a;
    if Run(a).Err? {
      ErrorsStay(a + b, |a|);
    }
  }

  lemma {:induction false} LayoutAccepted(annotations: seq<Annotation>) returns (bs: seq<Annotation>)
    requires Run(Layout(annotations)).Ok?
    ensures var s := Run(Layout(annotations)).value; s.annotations == bs && s.seenKey
    ensures |bs| == |annotations| && forall i :: 0 <= i < |annotations| ==> EntryReads(annotations[i], bs[i])
  {
    hide Run, EntryLines, EntryReads;
    if annotations == [] {
      RunHeader();
      bs := [];
    } else {
      var n := |annotations| - 1;
      PrefixAccepted(Layout(annotations[..n]), EntryLines(annotations[n]));
      var init := LayoutAccepted(annotations[..n]);
      var b := EntryAccepted(Layout(annotations[..n]), Run(Layout(annotations[..n])).value, annotations[n]);
      bs := init + [b];
    }
  }

  /** A value on one line that ends in no white space. */
  predicate Tidy(v: string) { '\n' !in v && Trimmed(v) }

  predicate TidyAnnotation(a: Annotation) {
    (forall c :: c in a.checks ==> Tidy(c)) && forall r :: r in a.reasons ==> Tidy(r)
  }

  lemma {:induction false} DropDashesWithin(s: string)
    ensures forall c :: c in DropDashes(s) ==> c in s
    decreases |s|
  {
    if "- " <= s {
      DropDashesWithin(s[2..]);
    }
  }

  lemma ItemTidy(l: string, section: Section)
    requires '\n' !in l
    ensures Tidy(Stored(ItemValue(Content(l)), section))
  {
    hide DropDashes, Trim, TrimStart, SplitOnce, Trimmed;
    var line := StripComment(l);
    assert forall c :: c in line ==> c in l;
    var content := TrimStart(line);
    assert forall c :: c in content ==> c in line;
    DropDashesWithin(content);
    TrimWithin(DropDashes(content));
    var value := ItemValue(content);
    if section == Reasons && |value| >= 8 {
      TrimWithin(value[8..]);
    }
  }

  lemma {:induction false} WrittenTidy(lines: seq<string>, entry: nat, section: Section)
    requires forall l :: l in lines ==> '\n' !in l
    ensures forall v :: v in Written(lines, entry, section) ==> Tidy(v)
  {
    hide IsItem, Opened, CurrentKey, Stored, ItemValue, Content, Tidy;
    if lines != [] {
      var n := |lines| - 1;
      assert lines[n] in lines && forall l :: l in lines[..n] ==> l in lines;
      WrittenTidy(lines[..n], entry, section);
      ItemTidy(lines[n], section);
    }
  }

  /** Whatever is parsed from a text is tidy. */
  lemma ParsedTidy(source: string)
    requires Outcome(Lines(source)).Ok?
    ensures forall a :: a in Outcome(Lines(source)).value ==> TidyAnnotation(a)
  {
    var lines, entries := Lines(source), Outcome(Lines(source)).value;
    ItemsBelongToTheLastEntry(source);
    LinesHaveNoBreak(source);
    hide Lines, Outcome, Written, Tidy, Opened;
    forall a | a in entries ensures TidyAnnotation(a) {
      var j :| 0 <= j < |entries| && entries[j] == a;
      WrittenTidy(lines, j, Checks);
      WrittenTidy(lines, j, Reasons);
    }
  }

  lemma TidyLine(p: string, v: string)
    requires p != "" && '\n' !in p && p[|p| - 1] == ' ' && Tidy(v)
    ensures OneLine(p + v)
  {
    var l := p + v;
    assert l[|l| - 1] == if v == "" then ' ' else v[|v| - 1];
    assert White('\r');
  }

  lemma {:induction false} TidyCheckLines(values: seq<string>)
    requires forall v :: v in values ==> Tidy(v)
    ensures forall l :: l in CheckLines(values) ==> OneLine(l)
  {
    hide Tidy, OneLine;
    if values != [] {
      TidyCheckLines(values[..|values| - 1]);
      TidyLine("      - ", values[|values| - 1]);
    }
  }

  lemma {:induction false} TidyReasonLines(values: seq<string>)
    requires forall v :: v in values ==> Tidy(v)
    ensures forall l :: l in ReasonLines(values) ==> OneLine(l)
  {
    hide Tidy, OneLine;
    if values != [] {
      TidyReasonLines(values[..|values| - 1]);
      TidyLine("      - reason: ", values[|values| - 1]);
    }
  }

  lemma TidyEntryLines(a: Annotation)
    requires TidyAnnotation(a)
    ensures forall l :: l in EntryLines(a) ==> OneLine(l)
  {
    TidyCheckLines(a.checks);
    TidyReasonLines(a.reasons);
    assert OneLine("  - checks:") && OneLine("    reasons:");
    hide OneLine, Tidy, CheckLines, ReasonLines;
  }

  lemma {:induction false} LayoutLines(annotations: seq<Annotation>)
    requires forall a :: a in annotations ==> TidyAnnotation(a)
    ensures Lines(Unlines(Layout(annotations))) == Layout(annotations)
  {
    LayoutOneLine(annotations);
    LinesOfUnlines(Layout(annotations));
  }

  lemma {:induction false} LayoutOneLine(annotations: seq<Annotation>)
    requires forall a :: a in annotations ==> TidyAnnotation(a)
    ensures forall l :: l in Layout(annotations) ==> OneLine(l)
  {
    if annotations == [] {
      assert OneLine("annotations:");
    } else {
      var n := |annotations| - 1;
      hide OneLine, TidyAnnotation, EntryLines;
      LayoutOneLine(annotations[..n]);
      TidyEntryLines(annotations[n]);
    }
  }

  lemma CleanIsTidy(a: Annotation)
    requires CleanAnnotation(a)
    ensures TidyAnnotation(a)
  {
    hide SplitOnce, Trimmed;
  }

  lemma ReadAsWrittenIsClean(a: Annotation)
    requires EntryReads(a, a) && TidyAnnotation(a)
    ensures CleanAnnotation(a)
  {
    hide Trim, DropDashes, StripComment, ItemValue, SplitOnce, Trimmed;
    forall c | c in a.checks ensures Clean(c) && !("- " <= c) {
      var i :| 0 <= i < |a.checks| && a.checks[i] == c;
      assert CheckReads(c, c);
      CheckValueKept(c);
    }
    forall r | r in a.reasons ensures Clean(r) {
      var i :| 0 <= i < |a.reasons| && a.reasons[i] == r;
      assert ReasonReads(r, r);
      ReasonItem(StripComment(r));
      ReasonKept(r, ItemValue("- reason: " + StripComment(r)));
    }
  }

  /** The reader inverts the documented layout exactly on the lists of annotations whose values are all clean. */
  lemma LayoutReadsBackExactlyWhen(annotations: seq<Annotation>)
    ensures Outcome(Lines(Unlines(Layout(annotations)))) == Ok(annotations)
       <==> forall a :: a in annotations ==> CleanAnnotation(a)
  {
    hide Run, Lines, Unlines, Layout, CleanAnnotation, TidyAnnotation, EntryReads;
    if forall a :: a in annotations ==> CleanAnnotation(a) {
      forall a | a in annotations ensures TidyAnnotation(a) {
        CleanIsTidy(a);
      }
      LayoutLines(annotations);
      RunLayout(annotations);
    } else if Outcome(Lines(Unlines(Layout(annotations)))) == Ok(annotations) {
      ParsedTidy(Unlines(Layout(annotations)));
      LayoutLines(annotations);
      var bs := LayoutAccepted(annotations);
      forall a | a in annotations ensures CleanAnnotation(a) {
        var i :| 0 <= i < |annotations| && annotations[i] == a;
        assert EntryReads(annotations[i], bs[i]);
        ReadAsWrittenIsClean(a);
      }
    }
  }
}
