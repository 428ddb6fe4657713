/**
 The catalogue's complexity check: a one-pass stack scanner over a pattern, against what it is
 meant to find, a group that contains a quantifier and is itself quantified.
 */
module Brackets {

  // ----- what a pattern means, position by position -----

  /** A character is escaped by an unescaped backslash right before it. */
  predicate Escaped(p: string, i: nat)
    requires i <= |p|
  {
    i > 0 && p[i - 1] == '\\' && !Escaped(p, i - 1)
  }

  predicate Plain(p: string, i: nat, ch: char)
    requires i < |p|
  {
    p[i] == ch && !Escaped(p, i)
  }

  /** Opening minus closing brackets among the positions in [from, hi). */
  function Depth(p: string, from: nat, hi: nat): int
    requires from <= hi <= |p|
    decreases hi
  {
    if from == hi then 0
    else Depth(p, from, hi - 1) + (if Plain(p, hi - 1, '(') then 1 else if Plain(p, hi - 1, ')') then -1 else 0)
  }

  /** Nothing from `from` up to n closes more brackets than it opened. */
  predicate NeverBelow(p: string, from: nat, n: nat)
    requires from <= n <= |p|
  {
    forall k :: from <= k <= n ==> Depth(p, from, k) >= 0
  }

  /** The bracket opened at i is still open at n. */
  predicate OpenAt(p: string, i: nat, n: nat)
    requires n <= |p|
  {
    i < n && Plain(p, i, '(') && NeverBelow(p, i + 1, n)
  }

  /** A group: the bracket at i is closed by the one at j. */
  predicate Group(p: string, i: nat, j: nat) {
    i < j < |p| && OpenAt(p, i, j) && Plain(p, j, ')') && Depth(p, i + 1, j) == 0
  }

  predicate IsQuantifier(ch: char) {
    ch == '*' || ch == '+' || ch == '?' || ch == '{'
  }

  /** The quantifiers are these four characters and no others. */
  lemma QuantifiersAre(ch: char)
    ensures IsQuantifier(ch) <==> ch in "*+?{"
  {
    var all := "*+?{";
    assert all[0] == '*' && all[1] == '+' && all[2] == '?' && all[3] == '{';
  }

  /** An unescaped quantifier, other than the `?` of a group modifier right after its bracket. */
  predicate QuantifierAt(p: string, k: nat)
    requires k < |p|
  {
    IsQuantifier(p[k]) && !Escaped(p, k) && !(p[k] == '?' && k > 0 && Plain(p, k - 1, '('))
  }

  /** A quantifier before n, directly inside the group opened at i. */
  predicate QuantifiedBefore(p: string, i: nat, n: nat)
    requires n <= |p|
  {
    exists k :: i < k < n && QuantifierAt(p, k) && Depth(p, i + 1, k) == 0
  }

  /** The shape the check is for: `(...x*...)+`. */
  predicate NestedAt(p: string, i: nat, j: nat) {
    Group(p, i, j) && QuantifiedBefore(p, i, j) && j + 1 < |p| && IsQuantifier(p[j + 1])
  }

  predicate HasNested(p: string) {
    exists i, j :: 0 <= i < |p| && 0 <= j < |p| && NestedAt(p, i, j)
  }

  // ----- the scanner's stack -----

  /** `opens` are the brackets open at n, outermost first. */
  ghost predicate StackOf(p: string, n: nat, opens: seq<nat>)
    requires n <= |p|
  {
    && (forall d :: 0 <= d < |opens| ==> OpenAt(p, opens[d], n) && Depth(p, opens[d] + 1, n) == |opens| - 1 - d)
    && (forall i :: 0 <= i < n && OpenAt(p, i, n) ==> i in opens)
  }

  /** Each stack cell says whether its group has a direct quantifier so far. */
  ghost predicate MarksOf(p: string, n: nat, opens: seq<nat>, marks: seq<bool>)
    requires n <= |p|
  {
    && |marks| == |opens|
    && forall d :: 0 <= d < |opens| ==> (marks[d] <==> QuantifiedBefore(p, opens[d], n))
  }

  /** No group closed before n was nested and quantified. */
  ghost predicate NoneBefore(p: string, n: nat)
    requires n <= |p|
  {
    forall i, j :: 0 <= i < j < n ==> !NestedAt(p, i, j)
  }

  // ----- one more character -----

  lemma OpenStep(p: string, i: nat, n: nat)
    requires i < n < |p|
    ensures OpenAt(p, i, n + 1) <==> OpenAt(p, i, n) && Depth(p, i + 1, n + 1) >= 0
  {
  }

  lemma QuantifiedStep(p: string, i: nat, n: nat)
    requires i < n < |p|
    ensures QuantifiedBefore(p, i, n + 1) <==> QuantifiedBefore(p, i, n) || (QuantifierAt(p, n) && Depth(p, i + 1, n) == 0)
  {
  }

  predicate Neutral(p: string, n: nat)
    requires n < |p|
  {
    !Plain(p, n, '(') && !Plain(p, n, ')')
  }

  /** Over a character that is no bracket the stack stays, and a quantifier marks only its top. */
  lemma StepOver(p: string, n: nat, opens: seq<nat>, marks: seq<bool>)
    requires n < |p| && Neutral(p, n) && StackOf(p, n, opens) && MarksOf(p, n, opens, marks) && NoneBefore(p, n)
    ensures StackOf(p, n + 1, opens) && NoneBefore(p, n + 1)
    ensures MarksOf(p, n + 1, opens,
                    if QuantifierAt(p, n) && opens != [] then marks[|marks| - 1 := true] else marks)
  {
    forall i | 0 <= i < n
      ensures OpenAt(p, i, n + 1) <==> OpenAt(p, i, n)
      ensures QuantifiedBefore(p, i, n + 1) <==> QuantifiedBefore(p, i, n) || (QuantifierAt(p, n) && Depth(p, i + 1, n) == 0)
    {
      OpenStep(p, i, n);
      QuantifiedStep(p, i, n);
    }
    forall d | 0 <= d < |opens| ensures opens[d] < n && Depth(p, opens[d] + 1, n + 1) == |opens| - 1 - d {
    }
  }

  lemma StepOpen(p: string, n: nat, opens: seq<nat>, marks: seq<bool>)
    requires n < |p| && Plain(p, n, '(') && StackOf(p, n, opens) && MarksOf(p, n, opens, marks) && NoneBefore(p, n)
    ensures StackOf(p, n + 1, opens + [n]) && MarksOf(p, n + 1, opens + [n], marks + [false]) && NoneBefore(p, n + 1)
  {
    var opens' := opens + [n];
    forall i | 0 <= i < n
      ensures OpenAt(p, i, n + 1) ==> OpenAt(p, i, n)
      ensures QuantifiedBefore(p, i, n + 1) <==> QuantifiedBefore(p, i, n)
    {
      OpenStep(p, i, n);
      QuantifiedStep(p, i, n);
    }
    forall d | 0 <= d < |opens|
      ensures OpenAt(p, opens'[d], n + 1) && Depth(p, opens'[d] + 1, n + 1) == |opens'| - 1 - d
    {
      assert OpenAt(p, opens[d], n);
      OpenStep(p, opens[d], n);
    }
    forall i | 0 <= i < n + 1 && OpenAt(p, i, n + 1) ensures i in opens' {
      if i < n {
        assert i in opens;
      } else {
        assert opens'[|opens|] == n;
      }
    }
  }

  /** A closing bracket closes the group on top of the stack, and no other. */
  lemma ClosesTop(p: string, n: nat, opens: seq<nat>, i: nat)
    requires n < |p| && Plain(p, n, ')') && StackOf(p, n, opens)
    ensures Group(p, i, n) <==> opens != [] && i == opens[|opens| - 1]
  {
    if Group(p, i, n) {
      assert i in opens;
    } else if opens != [] {
      assert OpenAt(p, opens[|opens| - 1], n);
    }
  }

  lemma NoneAtClose(p: string, n: nat, opens: seq<nat>, marks: seq<bool>)
    requires n < |p| && Plain(p, n, ')') && StackOf(p, n, opens) && MarksOf(p, n, opens, marks) && NoneBefore(p, n)
    requires !(opens != [] && marks[|marks| - 1] && n + 1 < |p| && IsQuantifier(p[n + 1]))
    ensures NoneBefore(p, n + 1)
  {
    forall i | 0 <= i < n ensures !NestedAt(p, i, n) {
      ClosesTop(p, n, opens, i);
    }
  }

  /** What is below the top stays open; without a bracket to close, nothing is open before or after. */
  lemma StepClose(p: string, n: nat, opens: seq<nat>, rest: seq<nat>)
    requires n < |p| && Plain(p, n, ')') && StackOf(p, n, opens)
    requires rest == if opens == [] then [] else opens[..|opens| - 1]
    ensures StackOf(p, n + 1, rest)
  {
    forall i | 0 <= i < n + 1 && OpenAt(p, i, n + 1) ensures i in rest {
      OpenStep(p, i, n);
      var d :| 0 <= d < |opens| && opens[d] == i;
      assert d < |rest| && rest[d] == i;
    }
    forall d | 0 <= d < |rest|
      ensures OpenAt(p, rest[d], n + 1) && Depth(p, rest[d] + 1, n + 1) == |rest| - 1 - d
    {
      assert OpenAt(p, opens[d], n);
      OpenStep(p, opens[d], n);
    }
  }

  lemma MarksStay(p: string, n: nat, opens: seq<nat>, marks: seq<bool>, k: nat)
    requires n < |p| && !QuantifierAt(p, n) && MarksOf(p, n, opens, marks) && k <= |opens|
    requires forall d :: 0 <= d < |opens| ==> opens[d] < n
    ensures MarksOf(p, n + 1, opens[..k], marks[..k])
  {
    forall d | 0 <= d < k ensures QuantifiedBefore(p, opens[d], n + 1) <==> QuantifiedBefore(p, opens[d], n) {
      QuantifiedStep(p, opens[d], n);
    }
  }

  lemma FoundAtClose(p: string, n: nat, opens: seq<nat>, marks: seq<bool>)
    requires n < |p| && Plain(p, n, ')') && StackOf(p, n, opens) && MarksOf(p, n, opens, marks)
    requires opens != [] && marks[|marks| - 1] && n + 1 < |p| && IsQuantifier(p[n + 1])
    ensures HasNested(p)
  {
    var i := opens[|opens| - 1];
    ClosesTop(p, n, opens, i);
    assert OpenAt(p, i, n);
    assert NestedAt(p, i, n);
  }

  /** Everything the scanner knows at n. */
  ghost predicate Scanned(p: string, n: nat, opens: seq<nat>, marks: seq<bool>)
    requires n <= |p|
  {
    StackOf(p, n, opens) && MarksOf(p, n, opens, marks) && NoneBefore(p, n)
  }

  lemma ScanStarts(p: string)
    ensures Scanned(p, 0, [], [])
  {
  }

  lemma ScanEnds(p: string, opens: seq<nat>, marks: seq<bool>)
    requires Scanned(p, |p|, opens, marks)
    ensures !HasNested(p)
  {
  }

  lemma ScanOver(p: string, n: nat, opens: seq<nat>, marks: seq<bool>)
    requires n < |p| && Neutral(p, n) && Scanned(p, n, opens, marks)
    ensures |marks| == |opens|
    ensures Scanned(p, n + 1, opens, if QuantifierAt(p, n) && marks != [] then marks[|marks| - 1 := true] else marks)
  {
    StepOver(p, n, opens, marks);
  }

  lemma ScanOpen(p: string, n: nat, opens: seq<nat>, marks: seq<bool>)
    requires n < |p| && Plain(p, n, '(') && Scanned(p, n, opens, marks)
    ensures Scanned(p, n + 1, opens + [n], marks + [false])
  {
    StepOpen(p, n, opens, marks);
  }

  /** A closing bracket either completes a nested quantified group or pops the stack. */
  lemma ScanClose(p: string, n: nat, opens: seq<nat>, marks: seq<bool>)
    requires n < |p| && Plain(p, n, ')') && Scanned(p, n, opens, marks)
    ensures |marks| == |opens|
    ensures marks != [] && marks[|marks| - 1] && n + 1 < |p| && IsQuantifier(p[n + 1]) ==> HasNested(p)
    ensures !(marks != [] && marks[|marks| - 1] && n + 1 < |p| && IsQuantifier(p[n + 1])) ==>
              if marks == [] then Scanned(p, n + 1, [], [])
              else Scanned(p, n + 1, opens[..|marks| - 1], marks[..|marks| - 1])
  {
    if marks != [] && marks[|marks| - 1] && n + 1 < |p| && IsQuantifier(p[n + 1]) {
      FoundAtClose(p, n, opens, marks);
    } else {
      var rest := if opens == [] then [] else opens[..|opens| - 1];
      NoneAtClose(p, n, opens, marks);
      StepClose(p, n, opens, rest);
      MarksStay(p, n, opens, marks, |rest|);
      assert opens == [] ==> marks[..0] == [];
    }
  }

  method HasNestedUnboundedQuantifier(p: string) returns (found: bool)
    ensures found <==> HasNested(p)
  {
    hide Scanned, HasNested;
    var groupHasQuantifier: seq<bool> := [];
    ghost var opens: seq<nat> := [];
    var justOpenedGroup := false;
    var n := 0;
    found := false;
    ScanStarts(p);
    while n < |p|
      invariant 0 <= n <= |p| && (n < |p| ==> !Escaped(p, n))
      invariant Scanned(p, n, opens, groupHasQuantifier)
      invariant justOpenedGroup <==> n > 0 && Plain(p, n - 1, '(')
    {
      var ch := p[n];
      if ch == '\\' {
        // a backslash consumes the next character, if there is one
        ScanOver(p, n, opens, groupHasQuantifier);
        n := n + 1;
        if n < |p| {
          ScanOver(p, n, opens, groupHasQuantifier);
          n := n + 1;
        }
        justOpenedGroup := false;
        continue;
      }
      var wasJustOpened := justOpenedGroup;
      justOpenedGroup := false;
      if ch == '(' {
        ScanOpen(p, n, opens, groupHasQuantifier);
        groupHasQuantifier := groupHasQuantifier + [false];
        opens := opens + [n];
        justOpenedGroup := true;
      } else if ch == ')' {
        ScanClose(p, n, opens, groupHasQuantifier);
        var hadQuantifier := false;
        if |groupHasQuantifier| > 0 {
          hadQuantifier := groupHasQuantifier[|groupHasQuantifier| - 1];
          groupHasQuantifier := groupHasQuantifier[..|groupHasQuantifier| - 1];
          opens := opens[..|opens| - 1];
        }
        var nextIsQuantifier := n + 1 < |p| && IsQuantifier(p[n + 1]);
        if hadQuantifier && nextIsQuantifier {
          return true;
        }
      } else {
        ScanOver(p, n, opens, groupHasQuantifier);
        if ch == '*' || ch == '+' || ch == '{' || (ch == '?' && !wasJustOpened) {
          if |groupHasQuantifier| > 0 {
            groupHasQuantifier := groupHasQuantifier[|groupHasQuantifier| - 1 := true];
          }
        }
      }
      n := n + 1;
    }
    ScanEnds(p, opens, groupHasQuantifier);
  }
}
