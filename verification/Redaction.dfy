/**
 Redaction of secret-shaped text. Each pattern is represented by the spans its `find_iter` yields on
 the input; which text those spans cover is the regex engine's business.
 */
module Redaction {
  import opened Sorting

  datatype SecretCategory =
    PasswordAssignment | ConnectionStringPassword | BearerToken | PemBlock | AwsKeyId | HighEntropyToken

  datatype Span = Span(start: nat, end: nat)

  /** One pattern of the priority list: its category and its matches. */
  datatype Pattern = Pattern(category: SecretCategory, matches: seq<Span>)

  /** What `find_iter` yields: non-empty spans inside the text, in order and disjoint. */
  predicate FoundIn(p: Pattern, length: nat) {
    && (forall m :: 0 <= m < |p.matches| ==> p.matches[m].start < p.matches[m].end <= length)
    && (forall m, n :: 0 <= m < n < |p.matches| ==> p.matches[m].end <= p.matches[n].start)
  }

  predicate Overlap(a: Span, b: Span) {
    a.start < b.end && b.start < a.end
  }

  /** A claimed span, with the pattern that claimed it. */
  datatype Claim = Claim(span: Span, pattern: nat)

  datatype Marker = Marker(category: SecretCategory, offset: nat)

  function Name(category: SecretCategory): string {
    match category
    case PasswordAssignment => "PasswordAssignment"
    case ConnectionStringPassword => "ConnectionStringPassword"
    case BearerToken => "BearerToken"
    case PemBlock => "PemBlock"
    case AwsKeyId => "AwsKeyId"
    case HighEntropyToken => "HighEntropyToken"
  }

  function MarkerText(category: SecretCategory): string {
    "[REDACTED:" + Name(category) + "]"
  }

  /** A marker says that something was redacted and what, and every category says something else. */
  lemma MarkersTell(a: SecretCategory, b: SecretCategory)
    ensures MarkerText(a) == "[REDACTED:" + Name(a) + "]"
    ensures MarkerText(a) == MarkerText(b) ==> a == b
  {
    var s, t := MarkerText(a), MarkerText(b);
    if s == t {
      TextInside(Name(a));
      TextInside(Name(b));
      NamesDiffer(a, b);
    }
  }

  lemma TextInside(name: string)
    ensures ("[REDACTED:" + name + "]")[10..10 + |name|] == name && |"[REDACTED:" + name + "]"| == |name| + 11
  {
  }

  lemma NamesDiffer(a: SecretCategory, b: SecretCategory)
    ensures Name(a) == Name(b) ==> a == b
  {
    assert |Name(PasswordAssignment)| == 18 && |Name(ConnectionStringPassword)| == 24 && |Name(BearerToken)| == 11;
    assert |Name(PemBlock)| == 8 && |Name(AwsKeyId)| == 8 && |Name(HighEntropyToken)| == 16;
    assert Name(PemBlock)[0] != Name(AwsKeyId)[0];
  }

  // ----- what the claims promise -----

  predicate Disjoint(claimed: seq<Claim>) {
    forall i, j :: 0 <= i < j < |claimed| ==> !Overlap(claimed[i].span, claimed[j].span)
  }

  /** Every claim is a match of the pattern it names. */
  predicate Genuine(patterns: seq<Pattern>, claimed: seq<Claim>) {
    forall c :: c in claimed ==> c.pattern < |patterns| && c.span in patterns[c.pattern].matches
  }

  /** The match is claimed, or overlaps a span that a strictly earlier pattern claimed. */
  predicate Settled(claimed: seq<Claim>, span: Span, pattern: nat) {
    Claim(span, pattern) in claimed || exists c :: c in claimed && c.pattern < pattern && Overlap(span, c.span)
  }

  ghost predicate Resolved(patterns: seq<Pattern>, claimed: seq<Claim>) {
    && Disjoint(claimed) && Genuine(patterns, claimed)
    && forall q, m :: 0 <= q < |patterns| && 0 <= m < |patterns[q].matches| ==> Settled(claimed, patterns[q].matches[m], q)
  }

  /** These promises leave no choice: a match is claimed exactly when no earlier pattern's claim
      overlaps it, so any two resolutions claim the same spans for the same patterns. */
  lemma {:induction false} ResolutionUnique(patterns: seq<Pattern>, a: seq<Claim>, b: seq<Claim>, c: Claim)
    requires Resolved(patterns, a) && Resolved(patterns, b) && c in a
    ensures c in b
    decreases c.pattern
  {
    var m :| 0 <= m < |patterns[c.pattern].matches| && patterns[c.pattern].matches[m] == c.span;
    assert Settled(b, patterns[c.pattern].matches[m], c.pattern);
    if c !in b {
      var d :| d in b && d.pattern < c.pattern && Overlap(c.span, d.span);
      ResolutionUnique(patterns, b, a, d);
      var i :| 0 <= i < |a| && a[i] == c;
      var j :| 0 <= j < |a| && a[j] == d;
      assert Overlap(a[j].span, a[i].span);
    }
  }

  // ----- the text -----

  function Slice(input: string, start: nat, end: nat): string {
    if start <= end <= |input| then input[start..end] else ""
  }

  /** The text from `cursor` on, with each claimed span replaced by `fill` of its claim. */
  function Splice(input: string, claims: seq<Claim>, cursor: nat, fill: Claim -> string): string {
    if claims == [] then Slice(input, cursor, |input|)
    else Slice(input, cursor, claims[0].span.start) + fill(claims[0]) + Splice(input, claims[1..], claims[0].span.end, fill)
  }

  function Original(input: string): Claim -> string {
    (c: Claim) => Slice(input, c.span.start, c.span.end)
  }

  /** Claims in order, disjoint, inside the text and after `cursor`. */
  predicate InOrder(claims: seq<Claim>, cursor: nat, length: nat) {
    if claims == [] then cursor <= length
    else cursor <= claims[0].span.start < claims[0].span.end && InOrder(claims[1..], claims[0].span.end, length)
  }

  lemma {:induction false} SpliceBack(input: string, claims: seq<Claim>, cursor: nat)
    requires InOrder(claims, cursor, |input|)
    ensures cursor <= |input|
    ensures Splice(input, claims, cursor, Original(input)) == input[cursor..]
  {
    if claims != [] {
      SpliceBack(input, claims[1..], claims[0].span.end);
      var s, e := claims[0].span.start, claims[0].span.end;
      assert input[cursor..] == input[cursor..s] + input[s..e] + input[e..];
    }
  }

  predicate ByStart(a: Claim, b: Claim) {
    a.span.start <= b.span.start
  }

  predicate Inside(claimed: seq<Claim>, length: nat) {
    forall c :: c in claimed ==> c.span.start < c.span.end <= length
  }

  lemma {:induction false} InsertDisjoint(x: Claim, xs: seq<Claim>)
    requires Disjoint(xs) && forall c :: c in xs ==> !Overlap(x.span, c.span)
    ensures Disjoint(Insert(x, xs, ByStart))
  {
    if xs != [] && !ByStart(x, xs[0]) {
      var rest := Insert(x, xs[1..], ByStart);
      InsertDisjoint(x, xs[1..]);
      InsertKeeps(x, xs[1..], ByStart);
      SameElements(rest, [x] + xs[1..]);
      forall c | c in rest ensures !Overlap(xs[0].span, c.span) {
        assert c == x || c in xs[1..];
        assert xs[0] in xs;
      }
    }
  }

  lemma {:induction false} SortDisjoint(xs: seq<Claim>)
    requires Disjoint(xs)
    ensures Disjoint(Sort(xs, ByStart))
  {
    if xs != [] {
      SortDisjoint(xs[1..]);
      SortKeeps(xs[1..], ByStart);
      SameElements(Sort(xs[1..], ByStart), xs[1..]);
      InsertDisjoint(xs[0], Sort(xs[1..], ByStart));
    }
  }

  lemma {:induction false} SortedInOrder(claimed: seq<Claim>, cursor: nat, length: nat)
    requires Sorted(claimed, ByStart) && Disjoint(claimed) && Inside(claimed, length) && cursor <= length
    requires claimed != [] ==> cursor <= claimed[0].span.start
    ensures InOrder(claimed, cursor, length)
  {
    if claimed != [] {
      assert claimed[0] in claimed;
      if |claimed| > 1 {
        assert claimed[1] in claimed;
        assert ByStart(claimed[0], claimed[1]) && !Overlap(claimed[0].span, claimed[1].span);
      }
      SortedInOrder(claimed[1..], claimed[0].span.end, length);
    }
  }

  lemma SortKeepsClaims(patterns: seq<Pattern>, claimed: seq<Claim>, length: nat)
    requires Resolved(patterns, claimed) && Inside(claimed, length)
    ensures var s := Sort(claimed, ByStart);
            Resolved(patterns, s) && InOrder(s, 0, length) && multiset(s) == multiset(claimed)
  {
    var s := Sort(claimed, ByStart);
    SortKeeps(claimed, ByStart);
    SortSorts(claimed, ByStart);
    SameElements(s, claimed);
    SortDisjoint(claimed);
    forall q, m | 0 <= q < |patterns| && 0 <= m < |patterns[q].matches|
      ensures Settled(s, patterns[q].matches[m], q)
    {
      assert Settled(claimed, patterns[q].matches[m], q);
    }
    SortedInOrder(s, 0, length);
  }

  // ----- the code -----

  function MarkerOf(patterns: seq<Pattern>, c: Claim): Marker
    requires c.pattern < |patterns|
  {
    Marker(patterns[c.pattern].category, c.span.start)
  }

  function Redacted(patterns: seq<Pattern>): Claim -> string {
    (c: Claim) => if c.pattern < |patterns| then MarkerText(patterns[c.pattern].category) else ""
  }

  predicate OverlapsClaimed(span: Span, claimed: seq<Claim>) {
    exists c :: c in claimed && Overlap(span, c.span)
  }

  /** A match that overlaps a claim is settled: among one pattern's matches there are no overlaps, so the
      claim in the way belongs to an earlier pattern. */
  lemma SettledByEarlier(claimed: seq<Claim>, p: Pattern, length: nat, m: nat, q: nat)
    requires FoundIn(p, length) && m < |p.matches|
    requires forall c :: c in claimed ==> c.pattern <= q
    requires forall c :: c in claimed && c.pattern == q ==> exists n :: 0 <= n < m && p.matches[n] == c.span
    requires OverlapsClaimed(p.matches[m], claimed)
    ensures Settled(claimed, p.matches[m], q)
  {
    var c :| c in claimed && Overlap(p.matches[m], c.span);
    assert forall n :: 0 <= n < m ==> !Overlap(p.matches[n], p.matches[m]);
    assert c.pattern < q;
  }

  lemma AppendClaim(claimed: seq<Claim>, x: Claim)
    requires Disjoint(claimed) && !OverlapsClaimed(x.span, claimed)
    ensures Disjoint(claimed + [x]) && Settled(claimed + [x], x.span, x.pattern)
    ensures forall span, q :: Settled(claimed, span, q) ==> Settled(claimed + [x], span, q)
  {
    var now := claimed + [x];
    assert now[|claimed|] == x;
    forall i, j | 0 <= i < j < |now| ensures !Overlap(now[i].span, now[j].span) {
      assert now[i] in claimed;
    }
    forall span, q | Settled(claimed, span, q) ensures Settled(now, span, q) {
      if Claim(span, q) !in claimed {
        var c :| c in claimed && c.pattern < q && Overlap(span, c.span);
        assert c in now;
      }
    }
  }

  lemma GrowClaims(before: seq<Claim>, claimed: seq<Claim>, span: Span, q: nat)
    requires before <= claimed && Settled(before, span, q)
    ensures Settled(claimed, span, q)
  {
    if Claim(span, q) !in before {
      var c :| c in before && c.pattern < q && Overlap(span, c.span);
      assert c in claimed;
    }
  }

  /** The claiming loops: patterns in priority order, each one's matches in text order. */
  method ClaimSpans(patterns: seq<Pattern>, length: nat) returns (claimed: seq<Claim>)
    requires forall p :: p in patterns ==> FoundIn(p, length)
    ensures Resolved(patterns, claimed) && Inside(claimed, length)
  {
    claimed := [];
    var q := 0;
    while q < |patterns|
      invariant 0 <= q <= |patterns|
      invariant Disjoint(claimed) && Inside(claimed, length)
      invariant forall c :: c in claimed ==> c.pattern < q && c.span in patterns[c.pattern].matches
      invariant forall r, m :: 0 <= r < q && 0 <= m < |patterns[r].matches| ==> Settled(claimed, patterns[r].matches[m], r)
    {
      var before := claimed;
      claimed := ClaimMatches(patterns, q, length, before);
      forall r, m | 0 <= r < q && 0 <= m < |patterns[r].matches| ensures Settled(claimed, patterns[r].matches[m], r) {
        GrowClaims(before, claimed, patterns[r].matches[m], r);
      }
      q := q + 1;
    }
  }

  method ClaimMatches(patterns: seq<Pattern>, q: nat, length: nat, before: seq<Claim>) returns (claimed: seq<Claim>)
    requires q < |patterns| && FoundIn(patterns[q], length)
    requires Disjoint(before) && Inside(before, length)
    requires forall c :: c in before ==> c.pattern < q && c.span in patterns[c.pattern].matches
    ensures Disjoint(claimed) && Inside(claimed, length) && before <= claimed
    ensures forall c :: c in claimed ==> c.pattern <= q && c.span in patterns[c.pattern].matches
    ensures forall m :: 0 <= m < |patterns[q].matches| ==> Settled(claimed, patterns[q].matches[m], q)
  {
    claimed := before;
    var matches := patterns[q].matches;
    var m := 0;
    while m < |matches|
      invariant 0 <= m <= |matches|
      invariant Disjoint(claimed) && Inside(claimed, length) && before <= claimed
      invariant forall c :: c in claimed ==> c.pattern <= q && c.span in patterns[c.pattern].matches
      invariant forall c :: c in claimed && c.pattern == q ==> exists n :: 0 <= n < m && matches[n] == c.span
      invariant forall n :: 0 <= n < m ==> Settled(claimed, matches[n], q)
    {
      var span := matches[m];
      if OverlapsClaimed(span, claimed) {
        SettledByEarlier(claimed, patterns[q], length, m, q);
      } else {
        AppendClaim(claimed, Claim(span, q));
        claimed := claimed + [Claim(span, q)];
      }
      m := m + 1;
    }
  }

  ghost predicate MarkersOf(patterns: seq<Pattern>, claims: seq<Claim>, markers: seq<Marker>) {
    && |markers| == |claims|
    && forall i :: 0 <= i < |claims| ==>
         && claims[i].pattern < |patterns| && markers[i].category == patterns[claims[i].pattern].category
         && markers[i].offset == claims[i].span.start
  }

  lemma {:induction false} InOrderAscends(claims: seq<Claim>, cursor: nat, length: nat, i: nat)
    requires InOrder(claims, cursor, length) && i < |claims|
    ensures cursor <= claims[i].span.start
    ensures i + 1 < |claims| ==> claims[i].span.end <= claims[i + 1].span.start
    ensures claims[i].span.start < claims[i].span.end
  {
    if i > 0 {
      InOrderAscends(claims[1..], claims[0].span.end, length, i - 1);
    }
  }

  lemma {:induction false} OffsetsAscend(claims: seq<Claim>, cursor: nat, length: nat, i: nat, j: nat)
    requires InOrder(claims, cursor, length) && i < j < |claims|
    ensures claims[i].span.end <= claims[j].span.start && claims[i].span.start < claims[j].span.start
    decreases j - i
  {
    InOrderAscends(claims, cursor, length, i);
    InOrderAscends(claims, cursor, length, j);
    if i + 1 < j {
      InOrderAscends(claims, cursor, length, i + 1);
      OffsetsAscend(claims, cursor, length, i + 1, j);
    }
  }

  /** Writing the text before a claim and the claim's replacement leaves the rest still to write. */
  lemma SpliceStep(input: string, claims: seq<Claim>, k: nat, cursor: nat, fill: Claim -> string, output: string)
    requires k < |claims|
    ensures output + Splice(input, claims[k..], cursor, fill)
         == output + Slice(input, cursor, claims[k].span.start) + fill(claims[k]) + Splice(input, claims[k + 1..], claims[k].span.end, fill)
  {
    assert claims[k..][1..] == claims[k + 1..];
  }

  lemma MarkersAscend(patterns: seq<Pattern>, claims: seq<Claim>, markers: seq<Marker>, length: nat)
    requires InOrder(claims, 0, length) && MarkersOf(patterns, claims, markers)
    ensures forall i, j :: 0 <= i < j < |markers| ==> markers[i].offset < markers[j].offset
  {
    forall i, j | 0 <= i < j < |markers| ensures markers[i].offset < markers[j].offset {
      OffsetsAscend(claims, 0, length, i, j);
    }
  }

  /** The whole operation. `claims` is the resolution the promises single out: the output is the input
      with exactly those spans replaced by their markers, and the markers list them in text order. */
  method Redact(input: string, patterns: seq<Pattern>)
    returns (output: string, markers: seq<Marker>, ghost claims: seq<Claim>)
    requires forall p :: p in patterns ==> FoundIn(p, |input|)
    ensures Resolved(patterns, claims) && InOrder(claims, 0, |input|)
    ensures output == Splice(input, claims, 0, Redacted(patterns))
    ensures |markers| == |claims|
    ensures forall i :: 0 <= i < |claims| ==> Redacted(patterns)(claims[i]) == MarkerText(markers[i].category)
    ensures input == Splice(input, claims, 0, Original(input))
    ensures MarkersOf(patterns, claims, markers)
    ensures forall i, j :: 0 <= i < j < |markers| ==> markers[i].offset < markers[j].offset
  {
    var claimed := ClaimSpans(patterns, |input|);
    SortKeepsClaims(patterns, claimed, |input|);
    claims := Sort(claimed, ByStart);
    SpliceBack(input, claims, 0);
    output, markers := Replace(input, patterns, Sort(claimed, ByStart));
    MarkersAscend(patterns, claims, markers, |input|);
  }

  method Replace(input: string, patterns: seq<Pattern>, claims: seq<Claim>) returns (output: string, markers: seq<Marker>)
    requires Genuine(patterns, claims)
    ensures output == Splice(input, claims, 0, Redacted(patterns)) && MarkersOf(patterns, claims, markers)
  {
    output, markers := "", [];
    var cursor, k := 0, 0;
    ghost var whole := Splice(input, claims, 0, Redacted(patterns));
    while k < |claims|
      invariant 0 <= k <= |claims|
      invariant output + Splice(input, claims[k..], cursor, Redacted(patterns)) == whole
      invariant MarkersOf(patterns, claims[..k], markers)
    {
      var c := claims[k];
      SpliceStep(input, claims, k, cursor, Redacted(patterns), output);
      output := output + Slice(input, cursor, c.span.start);
      markers := markers + [MarkerOf(patterns, c)];
      output := output + MarkerText(patterns[c.pattern].category);
      cursor := c.span.end;
      k := k + 1;
    }
    assert claims[..k] == claims;
    output := output + Slice(input, cursor, |input|);
  }
}
