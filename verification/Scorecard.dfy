/** The line-driven reader of the Scorecard annotations file. */
module Scorecard {
  import opened Wrappers
  import opened Text

  datatype Annotation = Annotation(checks: seq<string>, reasons: seq<string>)

  datatype Section = Checks | Reasons

  datatype State = State(annotations: seq<Annotation>, currentKey: Option<Section>, seenKey: bool)

  datatype Complaint =
    | DuplicateKey
    | UnexpectedTopLevel(text: string)
    | KeyMustComeFirst
    | ExpectedChecks(text: string)
    | ReasonsOutside
    | UnexpectedKey(text: string)
    | EmptyItem
    | ItemOutside
    | ExpectedReason(text: string)
    | UnexpectedItem(text: string)
    | UnexpectedIndent(indent: nat, text: string)
    | NoKeyFound

  /** A complaint with the number of the line it is about; the missing key has no line. */
  datatype ParseError = ParseError(line: nat, complaint: Complaint)

  const START := State([], None, false)

  /** Lengths are counted in UTF-8 bytes. */
  function Utf8Length(c: char): nat {
    var n := c as int;
    if n < 0x80 then 1 else if n < 0x800 then 2 else if n < 0x10000 then 3 else 4
  }

  function Bytes(s: string): nat { if s == "" then 0 else Utf8Length(s[0]) + Bytes(s[1..]) }

  function StripComment(line: string): string {
    match SplitOnce(line, " #")
    case None => line
    case Some(halves) => halves.0
  }

  predicate Ignored(raw: string) {
    Trim(raw) == "" || Trim(raw)[0] == '#'
  }

  function Content(raw: string): string { TrimStart(StripComment(raw)) }

  function Indent(raw: string): nat {
    var line := StripComment(raw);
    Bytes(line[..|line| - |TrimStart(line)|])
  }

  /** `trim_start_matches("- ")` */
  function DropDashes(s: string): string
    decreases |s|
  {
    if "- " <= s then DropDashes(s[2..]) else s
  }

  function ItemValue(content: string): string { Trim(DropDashes(content)) }

  /** The effect of a sequence item. */
  function AddItem(s: State, value: string): Result<State, Complaint> {
    if value == "" then Err(EmptyItem)
    else if s.annotations == [] then Err(ItemOutside)
    else
      var n := |s.annotations| - 1;
      var last := s.annotations[n];
      match s.currentKey
      case Some(Checks) => Ok(s.(annotations := s.annotations[n := last.(checks := last.checks + [value])]))
      case Some(Reasons) =>
        if "reason: " <= value
        then Ok(s.(annotations := s.annotations[n := last.(reasons := last.reasons + [Trim(value[8..])])]))
        else Err(ExpectedReason(value))
      case None => Err(ItemOutside)
  }

  /** The dispatch on indentation and content. */
  function Dispatch(s: State, indent: nat, content: string): Result<State, Complaint> {
    if indent == 0 then
      if content != "annotations:" then Err(UnexpectedTopLevel(content))
      else if s.seenKey then Err(DuplicateKey) else Ok(s.(seenKey := true))
    else if indent == 2 then
      if content != "- checks:" then Err(ExpectedChecks(content))
      else if !s.seenKey then Err(KeyMustComeFirst)
      else Ok(s.(annotations := s.annotations + [Annotation([], [])], currentKey := Some(Checks)))
    else if indent == 4 then
      if content != "reasons:" then Err(UnexpectedKey(content))
      else if s.annotations == [] then Err(ReasonsOutside)
      else Ok(s.(currentKey := Some(Reasons)))
    else if indent == 6 then
      if "- " <= content then AddItem(s, ItemValue(content)) else Err(UnexpectedItem(content))
    else Err(UnexpectedIndent(indent, content))
  }

  function Step(s: State, raw: string): Result<State, Complaint> {
    if Ignored(raw) then Ok(s) else Dispatch(s, Indent(raw), Content(raw))
  }

  /** The state after the lines, or the first error. */
  function Run(lines: seq<string>): Result<State, ParseError> {
    if lines == [] then Ok(START)
    else
      var before :- Run(lines[..|lines| - 1]);
      match Step(before, lines[|lines| - 1])
      case Err(c) => Err(ParseError(|lines|, c))
      case Ok(s) => Ok(s)
  }

  function Outcome(lines: seq<string>): Result<seq<Annotation>, ParseError> {
    var s :- Run(lines);
    if s.seenKey then Ok(s.annotations) else Err(ParseError(0, NoKeyFound))
  }

  lemma RunStep(lines: seq<string>, k: nat)
    requires k < |lines|
    ensures Run(lines[..k + 1]) ==
      if Run(lines[..k]).Err? then Run(lines[..k])
      else
        var r := Step(Run(lines[..k]).value, lines[k]);
        if r.Err? then Err(ParseError(k + 1, r.error)) else Ok(r.value)
  {
    hide Step;
    assert lines[..k + 1][..k] == lines[..k];
  }

  lemma {:induction false} ErrorsStay(lines: seq<string>, k: nat)
    requires k <= |lines| && Run(lines[..k]).Err?
    ensures Run(lines) == Run(lines[..k])
    decreases |lines| - k
  {
    hide Run;
    if k < |lines| {
      RunStep(lines, k);
      ErrorsStay(lines, k + 1);
    } else {
      assert lines[..k] == lines;
    }
  }

  /** The loop over the lines. */
  method ParseAnnotations(source: string) returns (r: Result<seq<Annotation>, ParseError>)
    ensures r == Outcome(Lines(source))
  {
    var lines := Lines(source);
    hide Lines, Step;
    var s, k := START, 0;
    while k < |lines|
      invariant 0 <= k <= |lines|
      invariant Run(lines[..k]) == Ok(s)
    {
      RunStep(lines, k);
      var next := Step(s, lines[k]);
      if next.Err? {
        ErrorsStay(lines, k + 1);
        return Err(ParseError(k + 1, next.error));
      }
      s := next.value;
      k := k + 1;
    }
    assert lines[..k] == lines;
    return if s.seenKey then Ok(s.annotations) else Err(ParseError(0, NoKeyFound));
  }
}
