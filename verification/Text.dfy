/** The string operations of Rust's standard library that the parsers use, on sequences of characters. */
module Text {
  import opened Wrappers

  /** The Unicode White_Space property, which `trim` goes by. */
  predicate White(c: char) {
    var n := c as int;
    9 <= n <= 13 || n == 0x20 || n == 0x85 || n == 0xA0 || n == 0x1680 || 0x2000 <= n <= 0x200A
    || n == 0x2028 || n == 0x2029 || n == 0x202F || n == 0x205F || n == 0x3000
  }

  predicate Trimmed(s: string) {
    s == "" || (!White(s[0]) && !White(s[|s| - 1]))
  }

  function TrimStart(s: string): (r: string)
    ensures |r| <= |s| && r == s[|s| - |r|..]
    ensures r != "" ==> !White(r[0])
    ensures forall i :: 0 <= i < |s| - |r| ==> White(s[i])
  {
    if s != "" && White(s[0]) then TrimStart(s[1..]) else s
  }

  function TrimEnd(s: string): (r: string)
    ensures r <= s
    ensures r != "" ==> !White(r[|r| - 1])
    ensures forall i :: |r| <= i < |s| ==> White(s[i])
  {
    if s != "" && White(s[|s| - 1]) then TrimEnd(s[..|s| - 1]) else s
  }

  function Trim(s: string): (r: string)
    ensures Trimmed(r) && |r| <= |s|
    ensures Trimmed(s) ==> r == s
  {
    TrimEnd(TrimStart(s))
  }

  /** What trimming takes off at both ends is white, and what is left neither starts nor ends white. */
  lemma TrimMeans(s: string) returns (from: nat, to: nat)
    ensures from <= to <= |s| && Trim(s) == s[from..to] && Trimmed(Trim(s))
    ensures forall i :: 0 <= i < from || to <= i < |s| ==> White(s[i])
  {
    hide White, TrimStart, TrimEnd;
    var t := TrimStart(s);
    from := |s| - |t|;
    to := from + |Trim(s)|;
    assert t == s[from..] && Trim(s) <= t;
    forall i | to <= i < |s| ensures White(s[i]) {
      assert s[i] == t[i - from];
    }
  }

  /** Among the ASCII characters the white ones are tab, line feed, vertical tab, form feed, carriage return and space. */
  lemma WhiteAscii(c: char)
    requires c as int < 128
    ensures White(c) <==> c in "\t\n\r " || c as int in {11, 12}
  {
    assert "\t\n\r "[0] == '\t' && "\t\n\r "[1] == '\n' && "\t\n\r "[2] == '\r' && "\t\n\r "[3] == ' ';
    assert '\t' as int == 9 && '\n' as int == 10 && '\r' as int == 13 && ' ' as int == 32;
  }

  lemma TrimSpaced(s: string)
    requires Trimmed(s)
    ensures Trim(" " + s) == s
  {
    assert (" " + s)[1..] == s;
  }

  lemma TrimWithin(s: string)
    ensures forall c :: c in Trim(s) ==> c in s
  {
    var t := TrimStart(s);
    forall c | c in Trim(s) ensures c in s {
      assert c in t;
    }
  }

  function Lower(c: char): char {
    if 'A' <= c <= 'Z' then (c as int + 32) as char else c
  }

  function Lowered(s: string): string {
    seq(|s|, i requires 0 <= i < |s| => Lower(s[i]))
  }

  /** `eq_ignore_ascii_case` */
  predicate SameIgnoringCase(a: string, b: string) {
    Lowered(a) == Lowered(b)
  }

  const UPPER := "ABCDEFGHIJKLMNOPQRSTUVWXYZ"
  const LOWER := "abcdefghijklmnopqrstuvwxyz"

  /** Two ways of writing one letter. */
  predicate CaseOf(c: char, d: char) {
    exists n :: 0 <= n < 26 && ((c == UPPER[n] && d == LOWER[n]) || (c == LOWER[n] && d == UPPER[n]))
  }

  lemma Alphabet(n: nat)
    requires n < 26
    ensures UPPER[n] as int == 65 + n && LOWER[n] as int == 97 + n
  {
  }

  lemma CaseOfIs(c: char, d: char)
    ensures CaseOf(c, d) <==>
      (65 <= c as int <= 90 && d as int == c as int + 32) || (65 <= d as int <= 90 && c as int == d as int + 32)
  {
    if 65 <= c as int <= 90 && d as int == c as int + 32 {
      Alphabet(c as int - 65);
    }
    if 65 <= d as int <= 90 && c as int == d as int + 32 {
      Alphabet(d as int - 65);
    }
    hide *;
    if CaseOf(c, d) {
      CaseOfOnly(c, d);
    }
  }

  lemma CaseOfOnly(c: char, d: char)
    requires CaseOf(c, d)
    ensures (65 <= c as int <= 90 && d as int == c as int + 32) || (65 <= d as int <= 90 && c as int == d as int + 32)
  {
    var n :| 0 <= n < 26 && ((c == UPPER[n] && d == LOWER[n]) || (c == LOWER[n] && d == UPPER[n]));
    Alphabet(n);
  }

  lemma SameLetter(c: char, d: char)
    ensures Lower(c) == Lower(d) <==> c == d || CaseOf(c, d)
  {
    hide CaseOf;
    CaseOfIs(c, d);
    assert 'A' as int == 65 && 'Z' as int == 90;
  }

  /** Ignoring case, texts are the same exactly when they agree but for the case of the 26 letters. */
  lemma SameIgnoringCaseMeans(a: string, b: string)
    ensures SameIgnoringCase(a, b) <==> |a| == |b| && forall i :: 0 <= i < |a| ==> a[i] == b[i] || CaseOf(a[i], b[i])
  {
    hide CaseOf, Lower;
    forall i | 0 <= i < |a| && i < |b|
      ensures Lowered(a)[i] == Lowered(b)[i] <==> a[i] == b[i] || CaseOf(a[i], b[i])
    {
      SameLetter(a[i], b[i]);
    }
    assert |Lowered(a)| == |a| && |Lowered(b)| == |b|;
    if |a| == |b| && forall i :: 0 <= i < |a| ==> a[i] == b[i] || CaseOf(a[i], b[i]) {
      assert Lowered(a) == Lowered(b);
    }
  }

  /** Where a character stands in an alphabet: its value as a digit. Absent characters stand behind it. */
  function Place(c: char, alphabet: string): (n: nat)
    ensures n <= |alphabet| && (n < |alphabet| ==> alphabet[n] == c) && (c in alphabet <==> n < |alphabet|)
  {
    if alphabet == "" || alphabet[0] == c then 0 else 1 + Place(c, alphabet[1..])
  }

  function Join(parts: seq<string>, sep: string): string {
    if parts == [] then "" else if |parts| == 1 then parts[0] else parts[0] + sep + Join(parts[1..], sep)
  }

  function Prepend(c: char, parts: seq<string>): seq<string>
    requires parts != []
  {
    [[c] + parts[0]] + parts[1..]
  }

  /** `split` on one character. */
  function Split(s: string, sep: char): (parts: seq<string>)
    ensures parts != []
  {
    if s == "" then [""]
    else if s[0] == sep then [""] + Split(s[1..], sep)
    else Prepend(s[0], Split(s[1..], sep))
  }

  /** No part holds the separator, a separator makes at least two shorter parts, and no separator none. */
  lemma {:induction false} SplitParts(s: string, sep: char)
    ensures forall p :: p in Split(s, sep) ==> sep !in p && |p| <= |s|
    ensures sep in s ==> |Split(s, sep)| >= 2 && forall p :: p in Split(s, sep) ==> |p| < |s|
    ensures sep !in s ==> Split(s, sep) == [s]
  {
    if s != "" {
      SplitParts(s[1..], sep);
      assert s == [s[0]] + s[1..];
    }
  }

  lemma JoinPrepend(c: char, parts: seq<string>, sep: string)
    requires parts != []
    ensures Join(Prepend(c, parts), sep) == [c] + Join(parts, sep)
  {
    assert Prepend(c, parts)[1..] == parts[1..];
  }

  lemma {:induction false} JoinOfSplit(s: string, sep: char)
    ensures Join(Split(s, sep), [sep]) == s
  {
    if s != "" {
      JoinOfSplit(s[1..], sep);
      var rest := Split(s[1..], sep);
      if s[0] == sep {
        assert ([""] + rest)[1..] == rest;
      } else {
        JoinPrepend(s[0], rest, [sep]);
      }
    }
  }

  lemma {:induction false} SplitAfter(a: string, sep: char, b: string)
    requires sep !in a
    ensures Split(a + [sep] + b, sep) == [a] + Split(b, sep)
  {
    var s := a + [sep] + b;
    if a == "" {
      assert s[1..] == b;
    } else {
      SplitAfter(a[1..], sep, b);
      assert s[0] == a[0] && s[1..] == a[1..] + [sep] + b;
      assert [a[0]] + a[1..] == a;
    }
  }

  lemma {:induction false} SplitOfJoin(parts: seq<string>, sep: char)
    requires parts != [] && forall p :: p in parts ==> sep !in p
    ensures Split(Join(parts, [sep]), sep) == parts
  {
    if |parts| > 1 {
      SplitOfJoin(parts[1..], sep);
      SplitAfter(parts[0], sep, Join(parts[1..], [sep]));
      assert parts == [parts[0]] + parts[1..];
    } else {
      SplitParts(parts[0], sep);
    }
  }

  /** `split_once`: around the leftmost occurrence. */
  function SplitOnce(s: string, pat: string): (r: Option<(string, string)>)
    ensures r.Some? ==> s == r.value.0 + pat + r.value.1
    ensures r.Some? && pat != "" ==> |r.value.1| < |s|
  {
    if pat <= s then Some(("", s[|pat|..]))
    else if s == "" then None
    else
      match SplitOnce(s[1..], pat)
      case None => None
      case Some(halves) => Some(([s[0]] + halves.0, halves.1))
  }

  lemma {:induction false} SplitOnceAt(a: string, pat: string, b: string)
    requires pat != "" && pat[0] !in a
    ensures SplitOnce(a + pat + b, pat) == Some((a, b))
  {
    var s := a + pat + b;
    if a == "" {
      assert s == pat + b && s[|pat|..] == b;
    } else {
      SplitOnceAt(a[1..], pat, b);
      assert s[0] == a[0] && s[1..] == a[1..] + pat + b;
      assert [a[0]] + a[1..] == a;
    }
  }

  lemma {:induction false} SplitOnceNone(s: string, pat: string)
    requires pat != "" && pat[0] !in s
    ensures SplitOnce(s, pat).None?
  {
    if s != "" {
      SplitOnceNone(s[1..], pat);
    }
  }

  /** The occurrence split at is the leftmost, and there is none when nothing is split. */
  lemma {:induction false} SplitOnceLeftmost(s: string, pat: string, k: nat)
    requires pat != "" && k <= |s|
    ensures match SplitOnce(s, pat)
      case None => !(pat <= s[k..])
      case Some(halves) => k < |halves.0| ==> !(pat <= s[k..])
  {
    if k > 0 && !(pat <= s) {
      assert s[1..][k - 1..] == s[k..];
      SplitOnceLeftmost(s[1..], pat, k - 1);
    }
  }

  function StripCr(s: string): string {
    if s != "" && s[|s| - 1] == '\r' then s[..|s| - 1] else s
  }

  /** `lines`: a line ends at a line feed, which takes one carriage return before it along. */
  function Lines(s: string): seq<string>
    decreases |s|
  {
    if s == "" then []
    else
      match SplitOnce(s, "\n")
      case None => [s]
      case Some(halves) => [StripCr(halves.0)] + Lines(halves.1)
  }

  /** A line that survives being written and read back. */
  predicate OneLine(s: string) {
    '\n' !in s && StripCr(s) == s
  }

  function Unlines(lines: seq<string>): string {
    if lines == [] then "" else lines[0] + "\n" + Unlines(lines[1..])
  }

  lemma {:induction false} LinesOfUnlines(lines: seq<string>)
    requires forall l :: l in lines ==> OneLine(l)
    ensures Lines(Unlines(lines)) == lines
  {
    if lines != [] {
      assert lines[0] in lines;
      SplitOnceAt(lines[0], "\n", Unlines(lines[1..]));
      LinesOfUnlines(lines[1..]);
      assert lines == [lines[0]] + lines[1..];
    }
  }

  lemma {:induction false} JoinedLines(lines: seq<string>)
    requires lines != []
    ensures Join(lines, "\n") + "\n" == Unlines(lines)
  {
    if |lines| > 1 {
      JoinedLines(lines[1..]);
      assert Join(lines, "\n") + "\n" == lines[0] + "\n" + (Join(lines[1..], "\n") + "\n");
    } else {
      assert Unlines(lines[1..]) == "";
    }
  }

  lemma {:induction false} SplitOnceIsFirst(s: string, ch: char)
    ensures match SplitOnce(s, [ch]) case None => ch !in s case Some(halves) => ch !in halves.0
  {
    if s != "" && !([ch] <= s) {
      SplitOnceIsFirst(s[1..], ch);
      assert s == [s[0]] + s[1..];
    }
  }

  /** Texts that meet at a line end have the lines of the one and then of the other. */
  lemma {:induction false} LinesSum(x: string, y: string)
    requires x == "" || x[|x| - 1] == '\n'
    ensures Lines(x + y) == Lines(x) + Lines(y)
    decreases |x|
  {
    if x == "" {
      assert x + y == y;
    } else {
      SplitOnceIsFirst(x, '\n');
      var halves := SplitOnce(x, "\n").value;
      assert x + y == halves.0 + "\n" + (halves.1 + y);
      SplitOnceAt(halves.0, "\n", halves.1 + y);
      assert halves.1 == x[|x| - |halves.1|..];
      LinesSum(halves.1, y);
    }
  }

  lemma LoneLine(l: string)
    requires '\n' !in l
    ensures Lines(l + "\n") == [StripCr(l)]
  {
    hide SplitOnce, StripCr;
    SplitOnceAt(l, "\n", "");
    assert l + "\n" == l + "\n" + "";
    assert Lines("") == [];
  }

  lemma LinesOfOne(l: string, end: string)
    requires OneLine(l) && end in {"\n", "\r\n"}
    ensures Lines(l + end) == [l]
  {
    hide SplitOnce;
    LoneLine(l);
    LoneLine(l + "\r");
    assert l + "\r\n" == l + "\r" + "\n" && (l + "\r")[..|l|] == l;
  }

  /** A line ends at a line feed or, if it holds none, with the text; of the carriage returns before the line feed it
      loses one. With `LinesSum` that says what the lines of every text are. */
  lemma LineEnds(l: string)
    requires '\n' !in l
    ensures Lines(l + "\r\n") == [l]
    ensures l == "" || l[|l| - 1] != '\r' ==> Lines(l + "\n") == [l]
    ensures l != "" ==> Lines(l) == [l]
  {
    hide Lines;
    LoneLine(l + "\r");
    assert l + "\r\n" == l + "\r" + "\n" && (l + "\r")[..|l|] == l;
    LoneLine(l);
    if l != "" {
      LastLine(l);
    }
  }

  lemma LastLine(l: string)
    requires '\n' !in l && l != ""
    ensures Lines(l) == [l]
  {
    hide SplitOnce;
    SplitOnceNone(l, "\n");
  }

  lemma {:induction false} LinesHaveNoBreak(s: string)
    ensures forall l :: l in Lines(s) ==> '\n' !in l
    decreases |s|
  {
    if s != "" {
      SplitOnceIsFirst(s, '\n');
      var halves := SplitOnce(s, "\n");
      if halves.Some? {
        LinesHaveNoBreak(halves.value.1);
      }
    }
  }
}
