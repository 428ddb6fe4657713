/**
 The release manifest: one line of digest and name per artifact. `sha` stands for SHA-256; a directory maps
 file names to contents.
 */
module Checksum {
  import opened Wrappers
  import opened Text
  import opened Sorting
  import opened Binary

  /** An artifact to list; no content means the file cannot be read. */
  datatype Artifact = Artifact(name: string, content: Option<Bytes>)

  datatype ChecksumError =
    | Unreadable(name: string)
    | MalformedLine(line: string)
    | Mismatch(name: string, expected: string, actual: string)
    | NoEntry(name: string)

  const GAP := "  "

  // ----- hexadecimal -----

  function HexDigit(n: nat): (c: char)
    requires n < 16
    ensures '0' <= c <= '9' || 'a' <= c <= 'f'
  {
    if n < 10 then (n + '0' as int) as char else (n - 10 + 'a' as int) as char
  }

  function HexByte(b: Byte): string { [HexDigit(b as int / 16), HexDigit(b as int % 16)] }

  function Hex(bytes: Bytes): string {
    if bytes == [] then "" else Hex(bytes[..|bytes| - 1]) + HexByte(bytes[|bytes| - 1])
  }

  const HEX_DIGITS := "0123456789abcdef"

  /** The i-th pair of characters read in base 16, each digit by its place. */
  function HexValue(hex: string, i: nat): nat
    requires 2 * i + 1 < |hex|
  {
    16 * Place(hex[2 * i], HEX_DIGITS) + Place(hex[2 * i + 1], HEX_DIGITS)
  }

  lemma HexDigitInPlace(n: nat)
    requires n < 16
    ensures HEX_DIGITS[n] == HexDigit(n) && Place(HexDigit(n), HEX_DIGITS) == n
  {
    assert '0' as int == 48 && 'a' as int == 97;
    forall k | 0 <= k < 16 ensures HEX_DIGITS[k] as int == if k < 10 then 48 + k else 87 + k {
    }
    assert HEX_DIGITS[n] in HEX_DIGITS;
  }

  lemma HexByteReads(b: Byte)
    ensures |HexByte(b)| == 2 && HexValue(HexByte(b), 0) == b as int
  {
    HexDigitInPlace(b as int / 16);
    HexDigitInPlace(b as int % 16);
    hide Place, HexDigit;
  }

  lemma {:induction false} HexIsHex(bytes: Bytes)
    ensures ' ' !in Hex(bytes) && '\n' !in Hex(bytes) && |Hex(bytes)| == 2 * |bytes|
  {
    hide HexDigit;
    if bytes != [] {
      HexIsHex(bytes[..|bytes| - 1]);
    }
  }

  lemma HexValueIn(s: string, t: string, i: nat)
    requires |s| % 2 == 0
    ensures 2 * i + 1 < |s| ==> HexValue(s + t, i) == HexValue(s, i)
    ensures 2 * i == |s| && |t| == 2 ==> HexValue(s + t, i) == HexValue(t, 0)
  {
    hide Place;
  }

  /** Every pair of characters reads as its byte. */
  lemma {:induction false} HexReads(bytes: Bytes, i: nat)
    requires i < |bytes|
    ensures |Hex(bytes)| == 2 * |bytes| && HexValue(Hex(bytes), i) == bytes[i] as int
  {
    hide HexValue, HexByte;
    HexIsHex(bytes);
    var n := |bytes| - 1;
    var init, last := Hex(bytes[..n]), HexByte(bytes[n]);
    HexIsHex(bytes[..n]);
    HexByteReads(bytes[n]);
    if i < n {
      HexReads(bytes[..n], i);
    }
    assert Hex(bytes) == init + last;
    HexValueIn(init, last, i);
  }

  method Sha256Hex(bytes: Bytes, sha: Bytes -> Bytes) returns (hex: string)
    ensures hex == Hex(sha(bytes))
    ensures |hex| == 2 * |sha(bytes)| && forall i :: 0 <= i < |sha(bytes)| ==> HexValue(hex, i) == sha(bytes)[i] as int
  {
    var digest := sha(bytes);
    hide Place, HexByte;
    hex := "";
    for i := 0 to |digest|
      invariant hex == Hex(digest[..i])
    {
      assert digest[..i + 1][..i] == digest[..i];
      hex := hex + HexByte(digest[i]);
    }
    assert digest[..|digest|] == digest;
    HexIsHex(digest);
    hide Hex, HexValue;
    forall i | 0 <= i < |digest| ensures HexValue(hex, i) == digest[i] as int {
      HexReads(digest, i);
    }
  }

  // ----- writing -----

  function ChecksumLine(name: string, content: Bytes, sha: Bytes -> Bytes): string {
    Hex(sha(content)) + GAP + name
  }

  function ChecksumLines(artifacts: seq<Artifact>, sha: Bytes -> Bytes): Result<seq<string>, ChecksumError> {
    if artifacts == [] then Ok([])
    else if artifacts[0].content.None? then Err(Unreadable(artifacts[0].name))
    else
      var rest :- ChecksumLines(artifacts[1..], sha);
      Ok([ChecksumLine(artifacts[0].name, artifacts[0].content.value, sha)] + rest)
  }

  /** The order of strings: by code points. */
  predicate LineLe(a: string, b: string) {
    a == "" || (b != "" && (a[0] < b[0] || (a[0] == b[0] && LineLe(a[1..], b[1..]))))
  }

  function WriteManifest(artifacts: seq<Artifact>, sha: Bytes -> Bytes): Result<string, ChecksumError> {
    var lines :- ChecksumLines(artifacts, sha);
    Ok(Join(Sort(lines, LineLe), "\n") + "\n")
  }

  // ----- reading -----

  function VerifyLine(line: string, dir: map<string, Bytes>, sha: Bytes -> Bytes): Option<ChecksumError> {
    match SplitOnce(line, GAP)
    case None => Some(MalformedLine(line))
    case Some(halves) =>
      if halves.1 !in dir then Some(Unreadable(halves.1))
      else
        var actual := Hex(sha(dir[halves.1]));
        if actual == halves.0 then None else Some(Mismatch(halves.1, halves.0, actual))
  }

  /** The first error of the lines, if any. */
  function FirstError(lines: seq<string>, dir: map<string, Bytes>, sha: Bytes -> Bytes): Option<ChecksumError> {
    if lines == [] then None
    else if VerifyLine(lines[0], dir, sha).Some? then VerifyLine(lines[0], dir, sha)
    else FirstError(lines[1..], dir, sha)
  }

  method VerifyManifest(manifest: string, dir: map<string, Bytes>, sha: Bytes -> Bytes) returns (error: Option<ChecksumError>)
    ensures error == FirstError(Lines(manifest), dir, sha)
  {
    var lines := Lines(manifest);
    hide VerifyLine;
    var k := 0;
    assert lines[0..] == lines;
    while k < |lines|
      invariant 0 <= k <= |lines|
      invariant FirstError(lines, dir, sha) == FirstError(lines[k..], dir, sha)
    {
      error := VerifyLine(lines[k], dir, sha);
      assert lines[k..][1..] == lines[k + 1..];
      if error.Some? {
        return;
      }
      k := k + 1;
    }
    return None;
  }

  /** The digest of the first line that names the asset. */
  function DigestIn(lines: seq<string>, asset: string): Option<string> {
    if lines == [] then None
    else
      var halves := SplitOnce(lines[0], GAP);
      if halves.Some? && halves.value.1 == asset then Some(halves.value.0) else DigestIn(lines[1..], asset)
  }

  method ExpectedDigestFor(sumsText: string, asset: string) returns (r: Result<string, ChecksumError>)
    ensures r == match DigestIn(Lines(sumsText), asset)
                 case Some(digest) => Ok(digest)
                 case None => Err(NoEntry(asset))
  {
    var lines := Lines(sumsText);
    hide SplitOnce, Lines;
    var k := 0;
    assert lines[0..] == lines;
    while k < |lines|
      invariant 0 <= k <= |lines|
      invariant DigestIn(lines, asset) == DigestIn(lines[k..], asset)
    {
      assert lines[k..][1..] == lines[k + 1..];
      var halves := SplitOnce(lines[k], GAP);
      if halves.Some? && halves.value.1 == asset {
        return Ok(halves.value.0);
      }
      k := k + 1;
    }
    return Err(NoEntry(asset));
  }

  // ----- the lines of a written manifest -----

  lemma {:induction false} HexInjective(a: Bytes, b: Bytes)
    requires Hex(a) == Hex(b)
    ensures a == b
  {
    HexIsHex(a);
    HexIsHex(b);
    if a != [] {
      var n := |a| - 1;
      var x, y := Hex(a), Hex(b);
      assert x[..2 * n] == Hex(a[..n]) && y[..2 * n] == Hex(b[..n]) by {
        HexIsHex(a[..n]);
        HexIsHex(b[..n]);
      }
      HexInjective(a[..n], b[..n]);
      assert x[2 * n..] == HexByte(a[n]) && y[2 * n..] == HexByte(b[n]) by {
        HexIsHex(a[..n]);
        HexIsHex(b[..n]);
      }
      HexByteInjective(a[n], b[n]);
      assert a == a[..n] + [a[n]] && b == b[..n] + [b[n]];
    }
  }

  lemma HexByteInjective(a: Byte, b: Byte)
    requires HexByte(a) == HexByte(b)
    ensures a == b
  {
    assert HexByte(a)[0] == HexByte(b)[0] && HexByte(a)[1] == HexByte(b)[1];
    HexDigitInjective(a as int / 16, b as int / 16);
    HexDigitInjective(a as int % 16, b as int % 16);
  }

  lemma HexDigitInjective(m: nat, n: nat)
    requires m < 16 && n < 16
    ensures HexDigit(m) == HexDigit(n) ==> m == n
  {
  }

  /** A file name a line can carry: no line feed, and no carriage return at its end. */
  predicate GoodName(name: string) { OneLine(name) }

  lemma LineReadsBack(name: string, content: Bytes, sha: Bytes -> Bytes)
    requires GoodName(name)
    ensures SplitOnce(ChecksumLine(name, content, sha), GAP) == Some((Hex(sha(content)), name))
    ensures OneLine(ChecksumLine(name, content, sha))
  {
    HexIsHex(sha(content));
    SplitOnceAt(Hex(sha(content)), GAP, name);
    var line := ChecksumLine(name, content, sha);
    assert line[|line| - 1] == if name == "" then ' ' else name[|name| - 1];
  }

  predicate Readable(artifacts: seq<Artifact>) {
    forall a :: a in artifacts ==> a.content.Some? && GoodName(a.name)
  }

  function LineOf(a: Artifact, sha: Bytes -> Bytes): string {
    if a.content.Some? then ChecksumLine(a.name, a.content.value, sha) else ""
  }

  lemma {:induction false} LinesAre(artifacts: seq<Artifact>, sha: Bytes -> Bytes)
    requires Readable(artifacts)
    ensures var r := ChecksumLines(artifacts, sha);
      && r.Ok? && |r.value| == |artifacts| && forall i :: 0 <= i < |artifacts| ==> r.value[i] == LineOf(artifacts[i], sha)
  {
    hide GoodName, ChecksumLine;
    if artifacts != [] {
      assert artifacts[0] in artifacts;
      LinesAre(artifacts[1..], sha);
    }
  }

  /** Reading a written manifest line by line gives the artifacts' lines, sorted. */
  lemma ManifestLines(artifacts: seq<Artifact>, sha: Bytes -> Bytes) returns (lines: seq<string>)
    requires Readable(artifacts) && artifacts != []
    ensures WriteManifest(artifacts, sha).Ok? && Lines(WriteManifest(artifacts, sha).value) == lines
    ensures Sorted(lines, LineLe) && ChecksumLines(artifacts, sha).Ok?
    ensures multiset(lines) == multiset(ChecksumLines(artifacts, sha).value)
    ensures WriteManifest(artifacts, sha).value == Unlines(lines)
    ensures forall l :: l in lines <==> exists a :: a in artifacts && l == LineOf(a, sha)
  {
    LinesAre(artifacts, sha);
    hide LineOf, ChecksumLines;
    var written := ChecksumLines(artifacts, sha).value;
    LineOrder();
    SortSorts(written, LineLe);
    SortKeeps(written, LineLe);
    hide Sort;
    lines := Sort(written, LineLe);
    SameElements(lines, written);
    forall l ensures l in lines <==> exists a :: a in artifacts && l == LineOf(a, sha) {
      if a :| a in artifacts && l == LineOf(a, sha) {
        var i :| 0 <= i < |artifacts| && artifacts[i] == a;
        assert written[i] == l;
      }
      if l in written {
        var i :| 0 <= i < |written| && written[i] == l;
        assert artifacts[i] in artifacts;
      }
    }
    forall l | l in lines ensures OneLine(l) {
      var a :| a in artifacts && l == LineOf(a, sha);
      OneLineOf(a, sha);
    }
    JoinedLines(lines);
    LinesOfUnlines(lines);
  }

  lemma OneLineOf(a: Artifact, sha: Bytes -> Bytes)
    requires a.content.Some? && GoodName(a.name)
    ensures OneLine(LineOf(a, sha))
    ensures SplitOnce(LineOf(a, sha), GAP) == Some((Hex(sha(a.content.value)), a.name))
  {
    LineReadsBack(a.name, a.content.value, sha);
    hide ChecksumLine, SplitOnce, OneLine;
  }

  lemma {:induction false} LineLeOrders(a: string, b: string, c: string)
    ensures LineLe(a, b) || LineLe(b, a)
    ensures LineLe(a, b) && LineLe(b, c) ==> LineLe(a, c)
    ensures LineLe(a, b) && LineLe(b, a) ==> a == b
    decreases |a|
  {
    if a != "" && b != "" {
      if c == "" {
        LineLeOrders(a[1..], b[1..], c);
      } else {
        LineLeOrders(a[1..], b[1..], c[1..]);
      }
      assert a == [a[0]] + a[1..] && b == [b[0]] + b[1..];
    }
  }

  lemma LineOrder()
    ensures Ordering(LineLe) && Antisymmetric(LineLe)
  {
    forall a, b, c
      ensures LineLe(a, b) || LineLe(b, a)
      ensures LineLe(a, b) && LineLe(b, c) ==> LineLe(a, c)
      ensures LineLe(a, b) && LineLe(b, a) ==> a == b
    {
      LineLeOrders(a, b, c);
    }
  }

  lemma {:induction false} NoErrorWhen(lines: seq<string>, dir: map<string, Bytes>, sha: Bytes -> Bytes)
    ensures FirstError(lines, dir, sha).None? <==> forall l :: l in lines ==> VerifyLine(l, dir, sha).None?
  {
    hide VerifyLine;
    if lines != [] {
      NoErrorWhen(lines[1..], dir, sha);
      assert lines == [lines[0]] + lines[1..];
    }
  }

  // ----- what the pair promises -----

  /** The file is there and its bytes hash to what they hashed to when the manifest was written. */
  predicate StillHashes(a: Artifact, dir: map<string, Bytes>, sha: Bytes -> Bytes) {
    a.content.Some? && a.name in dir && sha(dir[a.name]) == sha(a.content.value)
  }

  lemma LineVerifies(a: Artifact, dir: map<string, Bytes>, sha: Bytes -> Bytes)
    requires a.content.Some? && GoodName(a.name)
    ensures VerifyLine(LineOf(a, sha), dir, sha).None? <==> StillHashes(a, dir, sha)
  {
    OneLineOf(a, sha);
    hide SplitOnce, LineOf, OneLine;
    if a.name in dir && Hex(sha(dir[a.name])) == Hex(sha(a.content.value)) {
      HexInjective(sha(dir[a.name]), sha(a.content.value));
    }
    hide Hex;
  }

  /** A manifest written from any nonempty list of artifacts is accepted exactly when every artifact's bytes
      still hash the same. */
  lemma AcceptedExactlyWhen(artifacts: seq<Artifact>, dir: map<string, Bytes>, sha: Bytes -> Bytes)
    requires Readable(artifacts) && artifacts != []
    ensures WriteManifest(artifacts, sha).Ok?
    ensures FirstError(Lines(WriteManifest(artifacts, sha).value), dir, sha).None?
       <==> forall a :: a in artifacts ==> StillHashes(a, dir, sha)
  {
    var lines := ManifestLines(artifacts, sha);
    NoErrorWhen(lines, dir, sha);
    forall a | a in artifacts
      ensures LineOf(a, sha) in lines && (VerifyLine(LineOf(a, sha), dir, sha).None? <==> StillHashes(a, dir, sha))
    {
      LineVerifies(a, dir, sha);
    }
    hide FirstError, VerifyLine, LineOf, StillHashes, Lines, WriteManifest, Sorted;
  }

  /** An empty list writes a lone line break, whose one empty line no reader accepts. */
  lemma EmptyManifestRejected(dir: map<string, Bytes>, sha: Bytes -> Bytes)
    ensures WriteManifest([], sha) == Ok("\n")
    ensures FirstError(Lines("\n"), dir, sha) == Some(MalformedLine(""))
  {
    assert ChecksumLines([], sha) == Ok([]);
    assert Sort<string>([], LineLe) == [];
    assert Join([], "\n") + "\n" == "\n";
    assert SplitOnce("\n", "\n") == Some(("", ""));
    assert Lines("\n") == [""] + [];
    assert SplitOnce("", GAP) == None;
  }

  /** Where two texts part: after k shared characters the first one ends or has the smaller character. */
  predicate Parts(a: string, b: string, k: nat) {
    k <= |a| && k <= |b| && a[..k] == b[..k] && (k == |a| || (k < |b| && a[k] < b[k]))
  }

  /** Texts are compared by the first character in which they differ, and a text follows its beginnings. */
  lemma {:induction false} LineLeMeans(a: string, b: string)
    ensures LineLe(a, b) <==> exists k: nat :: Parts(a, b, k)
    decreases |a|
  {
    if a == "" {
      assert Parts(a, b, 0);
    } else if b != "" && a[0] == b[0] {
      LineLeMeans(a[1..], b[1..]);
      hide LineLe;
      assert a == [a[0]] + a[1..] && b == [b[0]] + b[1..];
      HeadDecides(a[0], a[1..], b[0], b[1..]);
      if k: nat :| Parts(a[1..], b[1..], k) {
        assert a[..k + 1] == [a[0]] + a[1..][..k] && b[..k + 1] == [b[0]] + b[1..][..k];
        assert Parts(a, b, k + 1);
      }
      if k: nat :| Parts(a, b, k) {
        assert a[1..][..k - 1] == a[..k][1..] && b[1..][..k - 1] == b[..k][1..];
        assert Parts(a[1..], b[1..], k - 1);
      }
    } else if b != "" && a[0] < b[0] {
      assert Parts(a, b, 0);
    } else {
      forall k: nat ensures !Parts(a, b, k) {
        if 0 < k <= |a| && k <= |b| {
          assert a[..k][0] == a[0] && b[..k][0] == b[0];
        }
      }
    }
  }

  /** A line is the digest, two spaces and the name. */
  lemma LineShape(a: Artifact, sha: Bytes -> Bytes)
    requires a.content.Some?
    ensures LineOf(a, sha) == Hex(sha(a.content.value)) + "  " + a.name
  {
  }

  /** A written manifest has one line for each artifact, however often its like occurs, and ends every line. */
  lemma OneLineEach(artifacts: seq<Artifact>, sha: Bytes -> Bytes)
    requires Readable(artifacts) && artifacts != []
    ensures var written := WriteManifest(artifacts, sha);
      && written.Ok? && written.value == Unlines(Lines(written.value))
      && multiset(Lines(written.value)) == multiset(seq(|artifacts|, i requires 0 <= i < |artifacts| => LineOf(artifacts[i], sha)))
  {
    hide LineOf, ChecksumLines, Lines, Readable;
    var lines := ManifestLines(artifacts, sha);
    LinesAre(artifacts, sha);
    assert ChecksumLines(artifacts, sha).value == seq(|artifacts|, i requires 0 <= i < |artifacts| => LineOf(artifacts[i], sha));
  }

  predicate FirstUnreadable(artifacts: seq<Artifact>, k: nat) {
    k < |artifacts| && artifacts[k].content.None? && forall j :: 0 <= j < k ==> artifacts[j].content.Some?
  }

  /** Writing fails exactly when an artifact cannot be read, and names the first such one. */
  lemma {:induction false} UnreadableExactlyWhen(artifacts: seq<Artifact>, sha: Bytes -> Bytes)
    ensures WriteManifest(artifacts, sha).Err? <==> exists a :: a in artifacts && a.content.None?
    ensures WriteManifest(artifacts, sha).Err? ==>
              exists k: nat :: FirstUnreadable(artifacts, k) && WriteManifest(artifacts, sha) == Err(Unreadable(artifacts[k].name))
  {
    hide Sort, Join, ChecksumLine;
    if artifacts != [] {
      UnreadableExactlyWhen(artifacts[1..], sha);
      assert artifacts == [artifacts[0]] + artifacts[1..];
      if artifacts[0].content.Some? && WriteManifest(artifacts[1..], sha).Err? {
        var k: nat :| FirstUnreadable(artifacts[1..], k) && WriteManifest(artifacts[1..], sha) == Err(Unreadable(artifacts[1..][k].name));
        assert artifacts[k + 1] == artifacts[1..][k];
        forall j | 0 <= j < k + 1 ensures artifacts[j].content.Some? {
          if j > 0 { assert artifacts[j] == artifacts[1..][j - 1]; }
        }
        assert FirstUnreadable(artifacts, k + 1);
      } else if artifacts[0].content.None? {
        assert FirstUnreadable(artifacts, 0);
      }
    }
  }

  /** The complaint about an artifact: its file is missing, or hashes to something else than was written down. */
  function ComplaintAbout(a: Artifact, dir: map<string, Bytes>, sha: Bytes -> Bytes): ChecksumError
    requires a.content.Some?
  {
    if a.name !in dir then Unreadable(a.name)
    else Mismatch(a.name, Hex(sha(a.content.value)), Hex(sha(dir[a.name])))
  }

  lemma VerifiesOrComplains(a: Artifact, dir: map<string, Bytes>, sha: Bytes -> Bytes)
    requires a.content.Some? && GoodName(a.name)
    ensures VerifyLine(LineOf(a, sha), dir, sha) == if StillHashes(a, dir, sha) then None else Some(ComplaintAbout(a, dir, sha))
  {
    LineVerifies(a, dir, sha);
    OneLineOf(a, sha);
    hide SplitOnce, LineOf, OneLine, Hex;
  }

  lemma {:induction false} FirstErrorIs(lines: seq<string>, dir: map<string, Bytes>, sha: Bytes -> Bytes) returns (k: nat)
    requires FirstError(lines, dir, sha).Some?
    ensures k < |lines| && VerifyLine(lines[k], dir, sha) == FirstError(lines, dir, sha)
    ensures forall j :: 0 <= j < k ==> VerifyLine(lines[j], dir, sha).None?
  {
    hide VerifyLine;
    if VerifyLine(lines[0], dir, sha).Some? {
      k := 0;
    } else {
      k := FirstErrorIs(lines[1..], dir, sha);
      k := k + 1;
    }
  }

  /** Verifying a written manifest complains about the artifact whose line comes first among those that no longer
      hash the same, and says what is wrong with it. */
  lemma ComplaintNames(artifacts: seq<Artifact>, dir: map<string, Bytes>, sha: Bytes -> Bytes) returns (a: Artifact)
    requires Readable(artifacts) && artifacts != [] && WriteManifest(artifacts, sha).Ok?
    requires FirstError(Lines(WriteManifest(artifacts, sha).value), dir, sha).Some?
    ensures a in artifacts && a.content.Some? && !StillHashes(a, dir, sha)
    ensures FirstError(Lines(WriteManifest(artifacts, sha).value), dir, sha) == Some(ComplaintAbout(a, dir, sha))
    ensures forall b :: b in artifacts && !StillHashes(b, dir, sha) ==> LineLe(LineOf(a, sha), LineOf(b, sha))
  {
    var lines := ManifestLines(artifacts, sha);
    var k := FirstErrorIs(lines, dir, sha);
    assert lines[k] in lines;
    a :| a in artifacts && lines[k] == LineOf(a, sha);
    VerifiesOrComplains(a, dir, sha);
    hide VerifyLine, LineOf, StillHashes, ComplaintAbout, Lines, WriteManifest, FirstError, LineLe;
    LineOrder();
    forall b | b in artifacts && !StillHashes(b, dir, sha) ensures LineLe(LineOf(a, sha), LineOf(b, sha)) {
      VerifiesOrComplains(b, dir, sha);
      assert LineOf(b, sha) in lines;
      var j :| 0 <= j < |lines| && lines[j] == LineOf(b, sha);
      assert k <= j;
    }
  }

  /** The order in which the artifacts are supplied does not show in the manifest. */
  lemma SupplyOrderForgotten(a: seq<Artifact>, b: seq<Artifact>, sha: Bytes -> Bytes)
    requires Readable(a) && Readable(b) && multiset(a) == multiset(b)
    ensures WriteManifest(a, sha) == WriteManifest(b, sha)
  {
    LinesAre(a, sha);
    LinesAre(b, sha);
    var x, y := ChecksumLines(a, sha).value, ChecksumLines(b, sha).value;
    MapPermutes(a, b, x, y, sha);
    LineOrder();
    AntisymmetricSortAlike(x, y, LineLe);
    hide ChecksumLines, Sort, LineOf;
  }

  lemma {:induction false} MapPermutes(a: seq<Artifact>, b: seq<Artifact>, x: seq<string>, y: seq<string>, sha: Bytes -> Bytes)
    requires multiset(a) == multiset(b) && |x| == |a| && |y| == |b|
    requires forall i :: 0 <= i < |a| ==> x[i] == LineOf(a[i], sha)
    requires forall i :: 0 <= i < |b| ==> y[i] == LineOf(b[i], sha)
    ensures multiset(x) == multiset(y)
  {
    hide LineOf;
    if a == [] {
      SameElements(a, b);
    } else {
      var i := TakeOut(a, b);
      MapPermutes(a[1..], b[..i] + b[i + 1..], x[1..], y[..i] + y[i + 1..], sha);
      PutBack(x[0], x[1..], y[..i], y[i + 1..]);
      assert x == [x[0]] + x[1..] && y == y[..i] + ([y[i]] + y[i + 1..]);
    }
  }

  lemma {:induction false} DigestInMeans(lines: seq<string>, asset: string)
    ensures DigestIn(lines, asset).Some? <==> exists l :: l in lines && Names(l, asset)
    ensures DigestIn(lines, asset).Some? ==>
              exists l :: l in lines && Names(l, asset) && SplitOnce(l, GAP).value.0 == DigestIn(lines, asset).value
  {
    hide SplitOnce;
    if lines != [] {
      DigestInMeans(lines[1..], asset);
      assert lines == [lines[0]] + lines[1..];
      if Names(lines[0], asset) {
        assert lines[0] in lines;
      }
    }
  }

  predicate Names(line: string, asset: string) {
    var halves := SplitOnce(line, GAP);
    halves.Some? && halves.value.1 == asset
  }

  /** Looking a name up in a written manifest finds the digest of an artifact of that name, and nothing for
      a name that is not listed. A uniquely named artifact is found with its own digest. */
  lemma DigestFoundExactlyWhen(artifacts: seq<Artifact>, asset: string, sha: Bytes -> Bytes)
    requires Readable(artifacts) && artifacts != []
    ensures WriteManifest(artifacts, sha).Ok?
    ensures var found := DigestIn(Lines(WriteManifest(artifacts, sha).value), asset);
      && (found.Some? <==> exists a :: a in artifacts && a.name == asset)
      && (found.Some? ==> exists a :: a in artifacts && a.name == asset && found.value == Hex(sha(a.content.value)))
  {
    var lines := ManifestLines(artifacts, sha);
    DigestInMeans(lines, asset);
    forall a | a in artifacts
      ensures LineOf(a, sha) in lines && SplitOnce(LineOf(a, sha), GAP) == Some((Hex(sha(a.content.value)), a.name))
    {
      OneLineOf(a, sha);
    }
    hide LineOf, SplitOnce, Lines, WriteManifest, Hex, DigestIn, Sorted;
    if a :| a in artifacts && a.name == asset {
      assert Names(LineOf(a, sha), asset);
    }
  }

  // ----- the order of the lines -----

  lemma HeadDecides(c: char, u: string, d: char, v: string)
    ensures LineLe([c] + u, [d] + v) <==> c < d || (c == d && LineLe(u, v))
  {
    assert ([c] + u)[1..] == u && ([d] + v)[1..] == v;
  }

  /** Texts that start with parts of one length compare by those parts, and by the rest where they agree. */
  lemma {:induction false} PrefixDecides(p: string, s: string, q: string, t: string)
    requires |p| == |q|
    ensures LineLe(p + s, q + t) <==> if p == q then LineLe(s, t) else LineLe(p, q)
  {
    hide LineLe;
    if p == "" {
      assert p + s == s && q + t == t;
    } else {
      PrefixDecides(p[1..], s, q[1..], t);
      assert p == [p[0]] + p[1..] && q == [q[0]] + q[1..];
      assert p + s == [p[0]] + (p[1..] + s) && q + t == [q[0]] + (q[1..] + t);
      HeadDecides(p[0], p[1..] + s, q[0], q[1..] + t);
      HeadDecides(p[0], p[1..], q[0], q[1..]);
    }
  }

  function DigestOf(a: Artifact, sha: Bytes -> Bytes): string {
    if a.content.Some? then Hex(sha(a.content.value)) else ""
  }

  /** SHA-256 makes digests of 32 bytes. */
  predicate DigestsOf32(artifacts: seq<Artifact>, sha: Bytes -> Bytes) {
    forall a :: a in artifacts && a.content.Some? ==> |sha(a.content.value)| == 32
  }

  lemma Regroup(p: string, q: string, r: string)
    ensures p + q + r == p + (q + r)
  {
  }

  /** Two lines compare by their digests, and by their names only where the digests agree. */
  lemma DigestsDecide(a: Artifact, b: Artifact, sha: Bytes -> Bytes)
    requires a.content.Some? && b.content.Some? && |sha(a.content.value)| == |sha(b.content.value)|
    ensures LineLe(LineOf(a, sha), LineOf(b, sha)) <==>
      if DigestOf(a, sha) == DigestOf(b, sha) then LineLe(a.name, b.name) else LineLe(DigestOf(a, sha), DigestOf(b, sha))
  {
    var p, q := DigestOf(a, sha), DigestOf(b, sha);
    HexIsHex(sha(a.content.value));
    HexIsHex(sha(b.content.value));
    hide Hex, LineLe;
    Regroup(p, GAP, a.name);
    Regroup(q, GAP, b.name);
    PrefixDecides(p, GAP + a.name, q, GAP + b.name);
    PrefixDecides(GAP, a.name, GAP, b.name);
  }

  /** The name a line carries. */
  function NameOn(line: string): string {
    var halves := SplitOnce(line, GAP);
    if halves.Some? then halves.value.1 else ""
  }

  predicate NamesInOrder(lines: seq<string>) {
    forall i, j :: 0 <= i < j < |lines| ==> LineLe(NameOn(lines[i]), NameOn(lines[j]))
  }

  predicate DigestBefore(a: Artifact, b: Artifact, sha: Bytes -> Bytes) {
    DigestOf(a, sha) != DigestOf(b, sha) && LineLe(DigestOf(a, sha), DigestOf(b, sha))
  }

  /** An earlier digest never belongs to a later name. */
  predicate DigestsFollowNames(artifacts: seq<Artifact>, sha: Bytes -> Bytes) {
    forall a, b :: a in artifacts && b in artifacts && DigestBefore(a, b, sha) ==> LineLe(a.name, b.name)
  }

  /** The documentation promises the order of the file names. A written manifest lists its names in order
      exactly when no artifact has an earlier digest and a later name than another. */
  lemma NameOrderExactlyWhen(artifacts: seq<Artifact>, sha: Bytes -> Bytes)
    requires Readable(artifacts) && artifacts != [] && DigestsOf32(artifacts, sha)
    ensures WriteManifest(artifacts, sha).Ok?
    ensures NamesInOrder(Lines(WriteManifest(artifacts, sha).value)) <==> DigestsFollowNames(artifacts, sha)
  {
    var lines := ManifestLines(artifacts, sha);
    forall a | a in artifacts ensures LineOf(a, sha) in lines && NameOn(LineOf(a, sha)) == a.name {
      OneLineOf(a, sha);
    }
    hide LineOf, SplitOnce, Lines, WriteManifest, Hex, LineLe, NameOn, DigestOf, DigestBefore, GoodName;
    if NamesInOrder(lines) {
      forall a, b | a in artifacts && b in artifacts && DigestBefore(a, b, sha) ensures LineLe(a.name, b.name) {
        NamesFollow(lines, a, b, sha);
      }
    }
    if DigestsFollowNames(artifacts, sha) {
      forall i, j | 0 <= i < j < |lines| ensures LineLe(NameOn(lines[i]), NameOn(lines[j])) {
        assert lines[i] in lines && lines[j] in lines;
        var a :| a in artifacts && lines[i] == LineOf(a, sha);
        var b :| b in artifacts && lines[j] == LineOf(b, sha);
        LinesFollow(a, b, sha);
      }
    }
  }

  lemma LinesFollow(a: Artifact, b: Artifact, sha: Bytes -> Bytes)
    requires a.content.Some? && b.content.Some? && |sha(a.content.value)| == |sha(b.content.value)|
    requires LineLe(LineOf(a, sha), LineOf(b, sha))
    ensures LineLe(a.name, b.name) || DigestBefore(a, b, sha)
  {
    DigestsDecide(a, b, sha);
    hide LineLe, LineOf, DigestOf;
  }

  lemma NamesFollow(lines: seq<string>, a: Artifact, b: Artifact, sha: Bytes -> Bytes)
    requires a.content.Some? && b.content.Some? && |sha(a.content.value)| == |sha(b.content.value)|
    requires Sorted(lines, LineLe) && NamesInOrder(lines)
    requires LineOf(a, sha) in lines && NameOn(LineOf(a, sha)) == a.name
    requires LineOf(b, sha) in lines && NameOn(LineOf(b, sha)) == b.name
    requires DigestBefore(a, b, sha)
    ensures LineLe(a.name, b.name)
  {
    DigestsDecide(a, b, sha);
    DigestsDecide(b, a, sha);
    LineLeOrders(DigestOf(a, sha), DigestOf(b, sha), "");
    hide LineOf, SplitOnce, Hex, LineLe, NameOn, DigestOf;
    var i :| 0 <= i < |lines| && lines[i] == LineOf(a, sha);
    var j :| 0 <= j < |lines| && lines[j] == LineOf(b, sha);
  }

  /** A hash that tells the empty content from any other by its first byte. */
  function Toy(): Bytes -> Bytes {
    (content: Bytes) => [if content == [] then 1 as Byte else 0] + seq(31, (i: nat) => 0 as Byte)
  }

  lemma {:induction false} HexStarts(bytes: Bytes)
    requires bytes != []
    ensures |Hex(bytes)| >= 2 && Hex(bytes)[..2] == HexByte(bytes[0])
  {
    var n := |bytes| - 1;
    if n > 0 {
      HexStarts(bytes[..n]);
    }
  }

  /** The documented order can fail: of two artifacts called "a" and "b", the manifest lists "b" first. */
  lemma NamesOutOfOrder(artifacts: seq<Artifact>)
    requires artifacts == [Artifact("a", Some([])), Artifact("b", Some([0]))]
    ensures Readable(artifacts) && DigestsOf32(artifacts, Toy()) && WriteManifest(artifacts, Toy()).Ok?
    ensures Lines(WriteManifest(artifacts, Toy()).value) == [LineOf(artifacts[1], Toy()), LineOf(artifacts[0], Toy())]
    ensures !NamesInOrder(Lines(WriteManifest(artifacts, Toy()).value))
  {
    var a, b, sha := artifacts[0], artifacts[1], Toy();
    LinesAre(artifacts, sha);
    var x, y := LineOf(a, sha), LineOf(b, sha);
    ToyOrder(a, b);
    hide LineOf, ChecksumLines, LineLe;
    assert ChecksumLines(artifacts, sha).value == [x, y];
    SortSwaps(x, y);
    hide Sort;
    OneLineOf(a, sha);
    OneLineOf(b, sha);
    JoinedLines([y, x]);
    LinesOfUnlines([y, x]);
    assert NameOn(y) == "b" && NameOn(x) == "a";
    assert !LineLe("b", "a") by { AAndB(); }
    hide Lines, Unlines, SplitOnce, OneLine;
    assert Lines(WriteManifest(artifacts, sha).value) == [y, x];
    assert NameOn([y, x][0]) == "b" && NameOn([y, x][1]) == "a";
  }

  lemma AAndB()
    ensures !LineLe("b", "a")
  {
  }

  lemma SortSwaps(x: string, y: string)
    requires !LineLe(x, y)
    ensures Sort([x, y], LineLe) == [y, x]
  {
    hide LineLe;
    assert [x, y][1..] == [y] && [y][1..] == [];
    assert Sort([y], LineLe) == [y];
    assert [y][1..] == [];
    assert Insert(x, [y], LineLe) == [y] + [x];
  }

  lemma ToyOrder(a: Artifact, b: Artifact)
    requires a == Artifact("a", Some([])) && b == Artifact("b", Some([0]))
    ensures !LineLe(LineOf(a, Toy()), LineOf(b, Toy()))
  {
    HexStarts(Toy()([]));
    HexStarts(Toy()([0]));
    var x, y := LineOf(a, Toy()), LineOf(b, Toy());
    hide Hex;
    assert x[0] == '0' && x[1] == '1' && y[0] == '0' && y[1] == '0';
  }
}
