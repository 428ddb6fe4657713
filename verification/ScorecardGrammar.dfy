/** Exactly which annotation files are accepted, and what is said about the others. */
module ScorecardGrammar {
  import opened Wrappers
  import opened Text
  import opened Scorecard
  import opened ScorecardLaws

  // ----- indents -----

  /** How many payload bits a UTF-8 sequence of that many bytes carries, as a power of two. */
  function Capacity(bytes: nat): nat {
    if bytes <= 1 then 128 else if bytes == 2 then 2048 else if bytes == 3 then 65536 else 2097152
  }

  /** A character takes the fewest bytes that can carry it. */
  lemma Utf8LengthIsLeast(c: char, bytes: nat)
    ensures 1 <= Utf8Length(c) <= 4 && c as int < Capacity(Utf8Length(c))
    ensures bytes >= 1 && c as int < Capacity(bytes) ==> Utf8Length(c) <= bytes
  {
  }

  lemma {:induction false} BytesSum(a: string, b: string)
    ensures Bytes(a + b) == Bytes(a) + Bytes(b)
  {
    hide Utf8Length;
    if a == "" {
      assert a + b == b;
    } else {
      BytesSum(a[1..], b);
      assert (a + b)[0] == a[0] && (a + b)[1..] == a[1..] + b;
    }
  }

  /** A line without its comment is white space, whose bytes are its indent, and its content. */
  lemma LineParts(l: string) returns (white: string)
    ensures StripComment(l) == white + Content(l) && Indent(l) == Bytes(white)
    ensures (forall c :: c in white ==> White(c)) && (Content(l) != "" ==> !White(Content(l)[0]))
  {
    var line := StripComment(l);
    white := line[..|line| - |Content(l)|];
    hide Bytes;
  }

  /** The first character that is not white, if there is one, is at k. */
  predicate StartsAt(raw: string, k: nat) {
    k < |raw| && !White(raw[k]) && forall j :: 0 <= j < k ==> White(raw[j])
  }

  /** A line is skipped exactly when it is blank, or what it starts with after any white space is a hash. */
  lemma IgnoredExactlyWhen(raw: string)
    ensures Ignored(raw) <==> (forall c :: c in raw ==> White(c)) || exists k: nat :: StartsAt(raw, k) && raw[k] == '#'
  {
    hide White;
    var from, to := TrimMeans(raw);
    hide Trim;
    if from < to {
      assert Trim(raw)[0] == raw[from] && StartsAt(raw, from);
      forall k: nat | StartsAt(raw, k) ensures k == from {
      }
    }
  }

  // ----- the grammar -----

  /** Some line that counts stands at the margin. */
  predicate KeySeen(lines: seq<string>) {
    exists k :: 0 <= k < |lines| && !Ignored(lines[k]) && Indent(lines[k]) == 0
  }

  /** An item of the current list: not empty, inside an entry, and a reason where reasons are listed. */
  predicate ValidItem(before: seq<string>, value: string) {
    value != "" && Opened(before) > 0 && (CurrentKey(before) == Some(Reasons) ==> "reason: " <= value)
  }

  predicate ValidAt(before: seq<string>, indent: nat, content: string) {
    || (indent == 0 && content == "annotations:" && !KeySeen(before))
    || (indent == 2 && content == "- checks:" && KeySeen(before))
    || (indent == 4 && content == "reasons:" && Opened(before) > 0)
    || (indent == 6 && "- " <= content && ValidItem(before, ItemValue(content)))
  }

  /** What may follow the lines before it. */
  predicate ValidLine(before: seq<string>, l: string) {
    Ignored(l) || ValidAt(before, Indent(l), Content(l))
  }

  /** What is said about a line fits it. */
  predicate Fits(before: seq<string>, indent: nat, content: string, complaint: Complaint) {
    match complaint
    case DuplicateKey => indent == 0 && content == "annotations:" && KeySeen(before)
    case UnexpectedTopLevel(text) => indent == 0 && text == content != "annotations:"
    case KeyMustComeFirst => indent == 2 && content == "- checks:" && !KeySeen(before)
    case ExpectedChecks(text) => indent == 2 && text == content != "- checks:"
    case ReasonsOutside => indent == 4 && content == "reasons:" && Opened(before) == 0
    case UnexpectedKey(text) => indent == 4 && text == content != "reasons:"
    case EmptyItem => indent == 6 && "- " <= content && ItemValue(content) == ""
    case ItemOutside => indent == 6 && "- " <= content && ItemValue(content) != "" && Opened(before) == 0
    case ExpectedReason(text) =>
      && indent == 6 && "- " <= content && ItemValue(content) == text && text != "" && Opened(before) > 0
      && CurrentKey(before) == Some(Reasons) && !("reason: " <= text)
    case UnexpectedItem(text) => indent == 6 && text == content && !("- " <= content)
    case UnexpectedIndent(n, text) => indent == n && n !in {0, 2, 4, 6} && text == content
    case NoKeyFound => false
  }

  predicate Tracks(lines: seq<string>, s: State) {
    && |s.annotations| == Opened(lines) && s.currentKey == CurrentKey(lines) && (s.seenKey <==> KeySeen(lines))
    && (s.annotations != [] ==> s.currentKey.Some?)
  }

  lemma ItemDecides(before: seq<string>, s: State, value: string)
    requires Tracks(before, s)
    ensures AddItem(s, value).Ok? <==> ValidItem(before, value)
    ensures AddItem(s, value).Err? ==>
              var e := AddItem(s, value).error;
              e == if value == "" then EmptyItem else if Opened(before) == 0 then ItemOutside else ExpectedReason(value)
    ensures AddItem(s, value).Ok? ==>
      var t := AddItem(s, value).value; |t.annotations| == |s.annotations| && t.currentKey == s.currentKey && t.seenKey == s.seenKey
  {
    hide Opened, CurrentKey, KeySeen, Trim;
  }

  /** The lines that open something, or none: everything but items. */
  lemma KeyDecides(before: seq<string>, s: State, indent: nat, content: string)
    requires Tracks(before, s) && indent != 6
    ensures Dispatch(s, indent, content).Ok? <==> ValidAt(before, indent, content)
    ensures Dispatch(s, indent, content).Err? ==> Fits(before, indent, content, Dispatch(s, indent, content).error)
  {
    hide ItemValue, AddItem, Opened, CurrentKey, KeySeen, ValidItem;
  }

  lemma ItemLineDecides(before: seq<string>, s: State, content: string)
    requires Tracks(before, s)
    ensures Dispatch(s, 6, content).Ok? <==> ValidAt(before, 6, content)
    ensures Dispatch(s, 6, content).Err? ==> Fits(before, 6, content, Dispatch(s, 6, content).error)
  {
    hide ItemValue, AddItem, Opened, CurrentKey, KeySeen;
    ItemDecides(before, s, ItemValue(content));
  }

  lemma DispatchDecides(before: seq<string>, s: State, indent: nat, content: string)
    requires Tracks(before, s)
    ensures Dispatch(s, indent, content).Ok? <==> ValidAt(before, indent, content)
    ensures Dispatch(s, indent, content).Err? ==> Fits(before, indent, content, Dispatch(s, indent, content).error)
  {
    hide Dispatch, ValidAt, Fits, Tracks;
    if indent == 6 {
      ItemLineDecides(before, s, content);
    } else {
      KeyDecides(before, s, indent, content);
    }
  }

  lemma DispatchMoves(s: State, indent: nat, content: string)
    requires Dispatch(s, indent, content).Ok?
    ensures var t := Dispatch(s, indent, content).value;
      && |t.annotations| == |s.annotations| + (if indent == 2 then 1 else 0)
      && t.currentKey == (if indent == 2 then Some(Checks) else if indent == 4 then Some(Reasons) else s.currentKey)
      && (t.seenKey <==> s.seenKey || indent == 0)
  {
    hide ItemValue, Trim;
  }

  /** One line is taken exactly when it is valid there, and refused with words that fit it. */
  lemma StepDecides(before: seq<string>, s: State, l: string)
    requires Tracks(before, s)
    ensures Step(s, l).Ok? <==> ValidLine(before, l)
    ensures Step(s, l).Err? ==> Fits(before, Indent(l), Content(l), Step(s, l).error)
    ensures Step(s, l).Ok? ==> Tracks(before + [l], Step(s, l).value)
  {
    hide Dispatch, ValidAt, Fits, Ignored, Indent, Content, Opened, CurrentKey, KeySeen;
    DispatchDecides(before, s, Indent(l), Content(l));
    if !Ignored(l) && Dispatch(s, Indent(l), Content(l)).Ok? {
      DispatchMoves(s, Indent(l), Content(l));
    }
    TalliesSnoc(before, l);
    SeenSnoc(before, l);
  }

  lemma SeenSnoc(before: seq<string>, l: string)
    ensures KeySeen(before + [l]) <==> KeySeen(before) || (!Ignored(l) && Indent(l) == 0)
  {
    hide Ignored, Indent;
    var lines := before + [l];
    assert lines[|before|] == l;
    if k :| 0 <= k < |before| && !Ignored(before[k]) && Indent(before[k]) == 0 {
      assert lines[k] == before[k];
    }
  }

  lemma NothingTracked()
    ensures Tracks([], START)
  {
  }

  /** The k-th line is the first that is not valid where it stands. */
  predicate FirstInvalid(lines: seq<string>, k: nat) {
    k < |lines| && !ValidLine(lines[..k], lines[k]) && forall j :: 0 <= j < k ==> ValidLine(lines[..j], lines[j])
  }

  predicate FitsAt(lines: seq<string>, k: nat, complaint: Complaint) {
    k < |lines| && Fits(lines[..k], Indent(lines[k]), Content(lines[k]), complaint)
  }

  lemma {:induction false} RunDecides(lines: seq<string>)
    ensures Run(lines).Ok? <==> forall k :: 0 <= k < |lines| ==> ValidLine(lines[..k], lines[k])
    ensures Run(lines).Ok? ==> Tracks(lines, Run(lines).value)
    ensures Run(lines).Err? ==> var e := Run(lines).error;
      && e.line >= 1 && FirstInvalid(lines, e.line - 1) && FitsAt(lines, e.line - 1, e.complaint)
  {
    hide Step, ValidLine, Fits, Tracks, Run, Indent, Content;
    if lines == [] {
      NothingTracked();
      NothingRuns();
    } else {
      var n := |lines| - 1;
      var init, l := lines[..n], lines[n];
      assert lines == init + [l];
      RunSnoc(init, l);
      RunDecides(init);
      forall k | 0 <= k < n ensures init[..k] == lines[..k] && init[k] == lines[k] {
      }
      if Run(init).Ok? {
        StepDecides(init, Run(init).value, l);
      } else {
        var e := Run(init).error;
        assert init[..e.line - 1] == lines[..e.line - 1];
      }
    }
  }

  lemma NothingRuns()
    ensures Run([]) == Ok(START)
  {
  }

  /** A file is accepted exactly when every line is valid where it stands and the key is there. A file with an invalid
      line is refused at the first such line, with words that fit it, and one without the key for that. */
  lemma AcceptedExactlyWhen(source: string)
    ensures var lines := Lines(source);
      && (Outcome(lines).Ok? <==> KeySeen(lines) && forall k :: 0 <= k < |lines| ==> ValidLine(lines[..k], lines[k]))
      && (Outcome(lines).Err? ==> var e := Outcome(lines).error;
            if e.line == 0 then
              e.complaint == NoKeyFound && !KeySeen(lines) && forall k :: 0 <= k < |lines| ==> ValidLine(lines[..k], lines[k])
            else FirstInvalid(lines, e.line - 1) && FitsAt(lines, e.line - 1, e.complaint))
  {
    RunDecides(Lines(source));
    hide Lines, Run, ValidLine, FitsAt, KeySeen, Opened, CurrentKey;
  }
}
