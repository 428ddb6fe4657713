/** What the port grammar's parser, matcher and labels promise one another. */
module PortSpecLaws {
  import opened Wrappers
  import opened Text
  import opened PortSpecs

  // ----- what a number and a keyword look like -----

  const DECIMALS := "0123456789"

  function Pow10(n: nat): nat { if n == 0 then 1 else 10 * Pow10(n - 1) }

  /** The number a digit sequence spells: each digit's place in the alphabet, times its power of ten. */
  function Spelled(s: string): nat {
    if s == "" then 0 else Place(s[0], DECIMALS) * Pow10(|s| - 1) + Spelled(s[1..])
  }

  predicate Numeral(s: string) { s != "" && forall c :: c in s ==> c in DECIMALS }

  /** The text is a numeral, perhaps after a plus sign, for n, and n fits 16 bits. */
  predicate Reads(s: string, n: nat) {
    var digits := if s != "" && s[0] == '+' then s[1..] else s;
    Numeral(digits) && Spelled(digits) == n <= 65535
  }

  lemma DigitMeans(c: char)
    ensures Digit(c) <==> c in DECIMALS
    ensures Digit(c) ==> DigitValue(c) == Place(c, DECIMALS) && c == DECIMALS[DigitValue(c)]
  {
    assert '0' as int == 48 && '9' as int == 57;
    forall k | 0 <= k < 10 ensures DECIMALS[k] as int == 48 + k {
    }
    if Digit(c) {
      var k := c as int - 48;
      assert DECIMALS[k] == c;
    }
  }

  lemma SpelledCons(c: char, s: string)
    ensures Spelled([c] + s) == Place(c, DECIMALS) * Pow10(|s|) + Spelled(s)
  {
    hide Place, Pow10;
    assert ([c] + s)[1..] == s;
  }

  lemma TimesTen(p: nat, q: nat)
    ensures p * (10 * q) == 10 * (p * q)
  {
  }

  lemma {:induction false} SpelledLast(s: string, c: char)
    ensures Spelled(s + [c]) == 10 * Spelled(s) + Place(c, DECIMALS)
  {
    hide Place, Spelled;
    if s == "" {
      SpelledNothing();
      SpelledCons(c, "");
      assert "" + [c] == [c] + "";
    } else {
      var head, tail := s[0], s[1..];
      SpelledLast(tail, c);
      SpelledCons(head, tail + [c]);
      SpelledCons(head, tail);
      assert s + [c] == [head] + (tail + [c]) && s == [head] + tail;
      TimesTen(Place(head, DECIMALS), Pow10(|tail|));
    }
  }

  lemma SpelledNothing()
    ensures Spelled("") == 0 && Pow10(0) == 1
  {
  }

  lemma {:induction false} ValueIsSpelled(s: string)
    requires forall c :: c in s ==> Digit(c)
    ensures Value(s) == Spelled(s)
  {
    hide Place, Spelled, DigitValue, Digit;
    SpelledNothing();
    if s != "" {
      var init, c := s[..|s| - 1], s[|s| - 1];
      ValueIsSpelled(init);
      SpelledLast(init, c);
      DigitMeans(c);
      assert s == init + [c];
    }
  }

  lemma DigitsMean(s: string)
    ensures Digits(s) <==> Numeral(s)
    ensures Digits(s) ==> Value(s) == Spelled(s)
  {
    forall c ensures Digit(c) <==> c in DECIMALS { DigitMeans(c); }
    if Digits(s) {
      ValueIsSpelled(s);
    }
  }

  /** A port number parses exactly when the text spells one. */
  lemma NumberParsesExactlyWhen(s: string, n: nat)
    ensures ParseU16(s) == Some(n) <==> Reads(s, n)
  {
    DigitsMean(if s != "" && s[0] == '+' then s[1..] else s);
    hide Digits, Numeral, Value, Spelled;
  }

  /** Numbers are printed as numerals that spell them, without a leading zero. */
  lemma DecimalSpells(n: nat)
    ensures Numeral(Decimal(n)) && Spelled(Decimal(n)) == n
    ensures |Decimal(n)| > 1 ==> Decimal(n)[0] != '0'
  {
    DigitsMean(Decimal(n));
    DecimalStarts(n);
  }

  lemma {:induction false} DecimalStarts(n: nat)
    ensures n > 0 ==> Decimal(n)[0] != '0'
    ensures n < 10 ==> |Decimal(n)| == 1
  {
    if n >= 10 {
      DecimalStarts(n / 10);
      assert Decimal(n)[0] == Decimal(n / 10)[0];
    }
  }

  lemma LoweredNames()
    ensures Lowered("RPC") == "rpc" && Lowered("RPCEPMap") == "rpcepmap" && Lowered("IPHTTPSIn") == "iphttpsin"
    ensures Lowered("mDNS") == "mdns" && Lowered("Teredo") == "teredo" && Lowered("PlayToDiscovery") == "playtodiscovery"
  {
    assert 'A' as int == 65 && 'Z' as int == 90;
    assert Lowered("RPC") == "rpc";
    assert Lowered("mDNS") == "mdns";
    assert Lowered("Teredo") == "teredo";
    LongNames();
  }

  lemma LongNames()
    ensures Lowered("RPCEPMap") == "rpcepmap" && Lowered("IPHTTPSIn") == "iphttpsin" && Lowered("PlayToDiscovery") == "playtodiscovery"
  {
  }

  /** A keyword is recognised exactly by its own name, whatever the case. */
  lemma KeywordExactlyWhen(name: string, keyword: Keyword)
    ensures FromName(name) == Some(keyword) <==> SameIgnoringCase(name, CanonicalName(keyword))
  {
    LoweredNames();
    var s := Lowered(name);
    hide Lowered;
    NamesDiffer();
  }

  lemma NamesDiffer()
    ensures |"rpc"| == 3 && |"rpcepmap"| == 8 && |"iphttpsin"| == 9 && |"mdns"| == 4 && |"teredo"| == 6 && |"playtodiscovery"| == 15
  {
  }

  // ----- what a text denotes -----

  /** An item is one comma-separated part, trimmed. */
  predicate Wild(item: string) { SaysAny(item) || FromName(item).Some? }

  predicate IsRange(item: string, a: nat, b: nat) {
    var halves := SplitOnce(item, "-");
    halves.Some? && ParseU16(Trim(halves.value.0)) == Some(a) && ParseU16(Trim(halves.value.1)) == Some(b)
  }

  predicate Allows(item: string, port: nat) {
    || Wild(item)
    || ParseU16(item) == Some(port)
    || exists a: nat, b: nat | a <= 0xFFFF && b <= 0xFFFF :: IsRange(item, a, b) && a <= port <= b
  }

  predicate GoodItem(item: string) {
    || Wild(item)
    || (ParseU16(item).Some? && ParseU16(item).value > 0)
    || exists a: nat, b: nat | a <= 0xFFFF && b <= 0xFFFF :: IsRange(item, a, b) && 1 <= a <= b
  }

  function Items(text: string): seq<string> { Split(Trim(text), ',') }

  lemma {:induction false} ParseAllEach(parts: seq<string>, bound: nat)
    requires forall p :: p in parts ==> |p| < bound
    ensures ParseAll(parts, bound).Ok? <==> forall p :: p in parts ==> Parse(Trim(p)).Ok?
    ensures ParseAll(parts, bound).Ok? ==>
              var specs := ParseAll(parts, bound).value;
              |specs| == |parts| && forall i :: 0 <= i < |parts| ==> Parse(Trim(parts[i])) == Ok(specs[i])
  {
    hide Parse, Trim;
    if parts != [] {
      ParseAllEach(parts[1..], bound);
      assert parts == [parts[0]] + parts[1..];
      assert parts[0] in parts;
    }
  }

  /** What parsing does with a trimmed text that has no comma. */
  function Flat(s: string, input: string): Result<PortSpec, SpecError> {
    if s == "" then Err(MalformedPortSpec(input)) else if SaysAny(s) then Ok(Any) else ParseItem(s)
  }

  lemma ParseFlat(text: string)
    requires ',' !in Trim(text)
    ensures Parse(text) == Flat(Trim(text), text)
  {
    hide ParseItem, SaysAny, Split, ParseAll;
  }

  lemma CommaIsNotAny(s: string)
    requires ',' in s
    ensures !SaysAny(s) && s != ""
  {
    var k :| 0 <= k < |s| && s[k] == ',';
    assert Lowered(s)[k] == ',';
    assert Lowered("any") == "any";
  }

  lemma ParseList(text: string)
    requires ',' in Trim(text)
    ensures forall p :: p in Items(text) ==> |p| < |text|
    ensures Parse(text) ==
      match ParseAll(Items(text), |text|)
      case Err(e) => Err(e)
      case Ok(specs) => Ok(List(specs))
  {
    hide ParseItem, SaysAny, Split, ParseAll, Trim;
    SplitParts(Trim(text), ',');
    CommaIsNotAny(Trim(text));
  }

  lemma DashIn(s: string, word: string)
    requires '-' in s && '-' !in word
    ensures Lowered(s) != word
  {
    var k :| 0 <= k < |s| && s[k] == '-';
    assert Lowered(s)[k] == '-';
  }

  /** A text with a dash is neither a number nor a wildcard. */
  lemma DashSpeaksForRange(s: string)
    requires SplitOnce(s, "-").Some?
    ensures ParseU16(s).None? && !Wild(s)
  {
    var k := |SplitOnce(s, "-").value.0|;
    assert s[k] == '-';
    DashNotNumber(s, k);
    DashNotWild(s, k);
  }

  lemma DashNotNumber(s: string, k: nat)
    requires k < |s| && s[k] == '-'
    ensures ParseU16(s).None?
  {
    hide Value;
    var digits := if s[0] == '+' then s[1..] else s;
    var at := if s[0] == '+' then k - 1 else k;
    assert digits[at] == '-' && digits[at] in digits;
    assert !Digits(digits);
  }

  lemma DashNotWild(s: string, k: nat)
    requires k < |s| && s[k] == '-'
    ensures !Wild(s)
  {
    DashIn(s, "any");
    assert Lowered("any") == "any";
    DashIn(s, "rpc");
    DashIn(s, "rpcepmap");
    DashIn(s, "iphttpsin");
    DashIn(s, "mdns");
    DashIn(s, "teredo");
    DashIn(s, "playtodiscovery");
  }

  lemma FlatMeaning(s: string, input: string, port: nat)
    ensures Flat(s, input).Ok? <==> s != "" && GoodItem(s)
    ensures Flat(s, input).Ok? ==> !Flat(s, input).value.List? && Valid(Flat(s, input).value)
    ensures Flat(s, input).Ok? ==> (Matches(Flat(s, input).value, port) <==> Allows(s, port))
  {
    hide ParseU16, SaysAny, FromName, Trim, SplitOnce;
    if SplitOnce(s, "-").Some? {
      DashSpeaksForRange(s);
      RangeMeaning(s, port);
    }
  }

  lemma RangeMeaning(s: string, port: nat)
    requires SplitOnce(s, "-").Some? && ParseU16(s).None? && !Wild(s)
    ensures ParseItem(s).Ok? <==> GoodItem(s)
    ensures ParseItem(s).Ok? ==> ParseItem(s).value.Range? && Valid(ParseItem(s).value)
    ensures ParseItem(s).Ok? ==> (Matches(ParseItem(s).value, port) <==> Allows(s, port))
  {
    hide Wild, Trim, SplitOnce, Decimal, FromName;
    var halves := SplitOnce(s, "-").value;
    var a, b := ParseU16(Trim(halves.0)), ParseU16(Trim(halves.1));
    if a.Some? && b.Some? {
      assert IsRange(s, a.value, b.value);
    }
  }

  /** One item of a text, whether it stands alone or in a list. */
  lemma ItemMeaning(item: string, port: nat)
    requires ',' !in item
    ensures var r := Parse(Trim(item));
      && (r.Ok? <==> Trim(item) != "" && GoodItem(Trim(item)))
      && (r.Ok? ==> !r.value.List? && Valid(r.value) && (Matches(r.value, port) <==> Allows(Trim(item), port)))
  {
    hide *;
    TrimWithin(item);
    assert Trim(Trim(item)) == Trim(item);
    ParseFlat(Trim(item));
    FlatMeaning(Trim(item), Trim(item), port);
  }

  /** A text without a comma is its own only item. */
  lemma LoneItem(text: string)
    requires ',' !in Trim(text)
    ensures Items(text) == [Trim(text)] && Trim(Trim(text)) == Trim(text)
    ensures Parse(text).Ok? == Parse(Trim(text)).Ok?
    ensures Parse(text).Ok? ==> Parse(text) == Parse(Trim(text))
  {
    hide Parse, ParseItem, Split, SaysAny;
    var s := Trim(text);
    assert Trim(s) == s;
    hide Trim;
    SplitParts(s, ',');
    ParseFlat(text);
    ParseFlat(s);
  }

  /** A text parses exactly when every comma-separated item is a wildcard, a keyword, a nonzero port or a
      nonempty range of nonzero ports. */
  lemma ParsesExactlyWhen(text: string)
    ensures Parse(text).Ok? <==> forall item :: item in Items(text) ==> Trim(item) != "" && GoodItem(Trim(item))
  {
    hide Parse, Trim, Split, GoodItem, ParseAll;
    SplitParts(Trim(text), ',');
    forall item | item in Items(text)
      ensures Parse(Trim(item)).Ok? <==> Trim(item) != "" && GoodItem(Trim(item))
    {
      ItemMeaning(item, 0);
    }
    if ',' in Trim(text) {
      ParseList(text);
      ParseAllEach(Items(text), |text|);
    } else {
      LoneItem(text);
    }
  }

  ghost predicate EachSpec(items: seq<string>, specs: seq<PortSpec>) {
    |specs| == |items| && forall i :: 0 <= i < |items| ==> Parse(Trim(items[i])) == Ok(specs[i])
  }

  lemma ParsedList(text: string)
    requires ',' in Trim(text) && Parse(text).Ok?
    ensures Parse(text).value.List? && EachSpec(Items(text), Parse(text).value.specs) && |Items(text)| >= 2
  {
    hide Parse, Trim, Split, ParseAll;
    SplitParts(Trim(text), ',');
    ParseList(text);
    ParseAllEach(Items(text), |text|);
  }

  lemma ListMatches(items: seq<string>, specs: seq<PortSpec>, port: nat)
    requires EachSpec(items, specs) && forall item :: item in items ==> ',' !in item
    ensures Matches(List(specs), port) <==> exists item :: item in items && Allows(Trim(item), port)
  {
    hide Parse, Trim, Allows;
    forall i | 0 <= i < |items| ensures Matches(specs[i], port) <==> Allows(Trim(items[i]), port) {
      ItemMeaning(items[i], port);
    }
    if exists item :: item in items && Allows(Trim(item), port) {
      var i :| 0 <= i < |items| && Allows(Trim(items[i]), port);
      assert specs[i] in specs;
    }
  }

  /** Matching a parsed text agrees with the set of ports the text denotes: those that some item allows. */
  lemma MatchesWhatTheTextSays(text: string, port: nat)
    requires Parse(text).Ok?
    ensures Matches(Parse(text).value, port) <==> exists item :: item in Items(text) && Allows(Trim(item), port)
  {
    hide *;
    TextItems(text);
    if ',' in Trim(text) {
      ParsedList(text);
      ListMatches(Items(text), Parse(text).value.specs, port);
      assert Parse(text).value == List(Parse(text).value.specs);
    } else {
      LoneItem(text);
      ItemMeaning(Trim(text), port);
    }
  }

  lemma TextItems(text: string)
    ensures forall item :: item in Items(text) ==> ',' !in item
  {
    SplitParts(Trim(text), ',');
  }

  /** Whatever parses is well formed, and a parsed list is flat with at least two members. */
  lemma ParsedShape(text: string)
    requires Parse(text).Ok?
    ensures Valid(Parse(text).value)
    ensures Parse(text).value.List? ==>
              |Parse(text).value.specs| >= 2 && forall m :: m in Parse(text).value.specs ==> !m.List?
  {
    hide Parse, Trim, Split;
    TextItems(text);
    if ',' in Trim(text) {
      ParsedList(text);
      var items, specs := Items(text), Parse(text).value.specs;
      forall i | 0 <= i < |items| ensures !specs[i].List? && Valid(specs[i]) {
        ItemMeaning(items[i], 0);
      }
    } else {
      LoneItem(text);
      ItemMeaning(Trim(text), 0);
    }
  }

  /** What an item says, spelled out for each form a spec can take. */
  predicate SaysSpec(item: string, spec: PortSpec) {
    match spec
    case Any => item == "*" || SameIgnoringCase(item, "any")
    case Single(p) => p > 0 && Reads(item, p)
    case Range(a, b) =>
      && var halves := SplitOnce(item, "-");
      && halves.Some? && 1 <= a <= b && Reads(Trim(halves.value.0), a) && Reads(Trim(halves.value.1), b)
    case Dynamic(keyword) => SameIgnoringCase(item, CanonicalName(keyword))
    case List(_) => false
  }

  predicate SaysList(items: seq<string>, spec: PortSpec) {
    spec.List? && |spec.specs| == |items| && forall i :: 0 <= i < |items| ==> SaysSpec(Trim(items[i]), spec.specs[i])
  }

  lemma RangeOf(start: string, end: string, original: string, spec: PortSpec)
    ensures ParseRange(start, end, original) == Ok(spec) <==>
      && spec.Range? && ParseU16(Trim(start)) == Some(spec.start) && ParseU16(Trim(end)) == Some(spec.end)
      && 1 <= spec.start <= spec.end
  {
    hide ParseU16, Trim, Decimal;
  }

  lemma RangeSays(item: string, spec: PortSpec)
    requires SplitOnce(item, "-").Some?
    ensures ParseItem(item) == Ok(spec) <==> spec.Range? && SaysSpec(item, spec)
  {
    hide ParseRange, ParseU16, Trim, Reads, SplitOnce, FromName, ParseNumber;
    var halves := SplitOnce(item, "-").value;
    RangeOf(halves.0, halves.1, item, spec);
    if spec.Range? {
      NumberParsesExactlyWhen(Trim(halves.0), spec.start);
      NumberParsesExactlyWhen(Trim(halves.1), spec.end);
    }
  }

  lemma NumberSays(item: string, spec: PortSpec)
    ensures ParseNumber(item) == Ok(spec) <==> spec.Single? && SaysSpec(item, spec)
  {
    if spec.Single? {
      NumberParsesExactlyWhen(item, spec.port);
    }
    hide ParseU16, Reads;
  }

  lemma NumberIsNotWild(item: string)
    requires ParseU16(item).Some?
    ensures !Wild(item) && SplitOnce(item, "-").None?
  {
    hide Value;
    if item[0] == '+' {
      assert Lowered(item)[0] == '+';
      assert Lowered("any")[0] == 'a';
    } else {
      assert item[0] in item;
      DigitFirst(item);
    }
    if SplitOnce(item, "-").Some? {
      DashSpeaksForRange(item);
    }
  }

  lemma ItemSays(item: string, spec: PortSpec)
    requires item != ""
    ensures Flat(item, item) == Ok(spec) <==> SaysSpec(item, spec)
  {
    if ParseU16(item).Some? {
      NumberIsNotWild(item);
    }
    if spec.Single? {
      NumberParsesExactlyWhen(item, spec.port);
    }
    if spec.Dynamic? {
      KeywordExactlyWhen(item, spec.keyword);
    }
    if SaysAny(item) {
      AnyIsNoName(item);
    }
    NumberSays(item, spec);
    if SplitOnce(item, "-").Some? {
      DashSpeaksForRange(item);
      RangeSays(item, spec);
    }
    hide SplitOnce, ParseU16, FromName, ParseNumber, ParseRange, Reads, CanonicalName, SameIgnoringCase;
  }

  lemma AnyIsNoName(item: string)
    requires SaysAny(item)
    ensures FromName(item).None?
  {
    assert |Lowered("any")| == 3;
    assert Lowered("any")[0] == 'a';
    assert item == "*" || Lowered(item)[0] == 'a';
    assert item == "*" ==> Lowered(item)[0] == '*';
  }

  /** Parsing yields a spec exactly when the text says it: item by item if there is a comma. */
  lemma ParsesToExactlyWhen(text: string, spec: PortSpec)
    ensures Parse(text) == Ok(spec) <==>
      && Trim(text) != ""
      && if ',' in Trim(text) then SaysList(Items(text), spec) && forall item :: item in Items(text) ==> Trim(item) != ""
         else SaysSpec(Trim(text), spec)
  {
    hide Parse, Trim, Split, SaysSpec, SaysList;
    if ',' in Trim(text) {
      ListSays(text, spec);
      CommaIsNotAny(Trim(text));
    } else {
      ParseFlat(text);
      if Trim(text) != "" {
        FlatNamesItself(Trim(text), text);
        ItemSays(Trim(text), spec);
      }
    }
  }

  lemma FlatNamesItself(item: string, text: string)
    requires item != ""
    ensures Flat(item, text) == Flat(item, item)
  {
    hide SaysAny, ParseItem;
  }

  lemma ListSays(text: string, spec: PortSpec)
    requires ',' in Trim(text)
    ensures Parse(text) == Ok(spec) <==> SaysList(Items(text), spec) && forall item :: item in Items(text) ==> Trim(item) != ""
  {
    hide Parse, Trim, Split, ParseAll, SaysSpec;
    SplitParts(Trim(text), ',');
    ParseList(text);
    var items := Items(text);
    ParseAllEach(items, |text|);
    if Parse(text).Ok? {
      var specs := Parse(text).value.specs;
      forall i, s | 0 <= i < |items| ensures specs[i] == s <==> Trim(items[i]) != "" && SaysSpec(Trim(items[i]), s) {
        LoneSays(items[i], s);
      }
    }
    if SaysList(items, spec) && (forall item :: item in items ==> Trim(item) != "") {
      forall i | 0 <= i < |items| ensures Parse(Trim(items[i])) == Ok(spec.specs[i]) {
        LoneSays(items[i], spec.specs[i]);
      }
      assert ParseAll(items, |text|).Ok?;
      assert ParseAll(items, |text|).value == spec.specs;
    }
  }

  lemma LoneSays(item: string, spec: PortSpec)
    requires ',' !in item
    ensures Parse(Trim(item)) == Ok(spec) <==> Trim(item) != "" && SaysSpec(Trim(item), spec)
  {
    hide Parse, SaysSpec, Flat;
    TrimWithin(item);
    assert Trim(Trim(item)) == Trim(item);
    hide Trim;
    ParseFlat(Trim(item));
    if Trim(item) != "" {
      ItemSays(Trim(item), spec);
    } else {
      EmptyFlat();
    }
  }

  lemma EmptyFlat()
    ensures Flat("", "").Err?
  {
  }

  // ----- what an error names -----

  predicate GoodPart(item: string) { Trim(item) != "" && GoodItem(Trim(item)) }

  /** The error about an item: an empty one names the text it was trimmed from, port zero is invalid, a backward
      range or one from zero is named by its numbers, and anything else is named as it stands. */
  predicate Blames(item: string, original: string, error: SpecError) {
    if item == "" then error == MalformedPortSpec(original)
    else if Reads(item, 0) then error == InvalidPort(0)
    else if exists a: nat, b: nat | a <= 0xFFFF && b <= 0xFFFF :: IsRange(item, a, b) then
      exists a: nat, b: nat | a <= 0xFFFF && b <= 0xFFFF :: IsRange(item, a, b) && error == MalformedPortSpec(Decimal(a) + "-" + Decimal(b))
    else error == MalformedPortSpec(item)
  }

  lemma FlatBlames(item: string, original: string)
    requires Flat(item, original).Err?
    ensures Blames(item, original, Flat(item, original).error)
  {
    hide Decimal, FromName, SaysAny, Trim, SplitOnce, ParseU16, Reads;
    if item != "" {
      NumberParsesExactlyWhen(item, 0);
      if SplitOnce(item, "-").Some? {
        DashSpeaksForRange(item);
        var halves := SplitOnce(item, "-").value;
        var a, b := ParseU16(Trim(halves.0)), ParseU16(Trim(halves.1));
        if a.Some? && b.Some? {
          assert IsRange(item, a.value, b.value);
        }
      }
    }
  }

  lemma {:induction false} FirstBadPart(parts: seq<string>, bound: nat) returns (i: nat)
    requires (forall p :: p in parts ==> |p| < bound) && ParseAll(parts, bound).Err?
    ensures i < |parts| && Parse(Trim(parts[i])) == Err(ParseAll(parts, bound).error)
    ensures forall j :: 0 <= j < i ==> Parse(Trim(parts[j])).Ok?
  {
    hide Parse, Trim;
    if Parse(Trim(parts[0])).Err? {
      i := 0;
    } else {
      i := FirstBadPart(parts[1..], bound);
      i := i + 1;
    }
  }

  /** A text that does not parse is blamed on its first bad item. */
  lemma ErrorBlamesFirstBadItem(text: string) returns (i: nat)
    requires Parse(text).Err?
    ensures i < |Items(text)| && !GoodPart(Items(text)[i]) && forall j :: 0 <= j < i ==> GoodPart(Items(text)[j])
    ensures var item := Trim(Items(text)[i]);
      Blames(item, if ',' in Trim(text) then item else text, Parse(text).error)
  {
    hide Parse, Trim, Split, ParseAll, GoodItem, Blames, Flat;
    var items := Items(text);
    SplitParts(Trim(text), ',');
    forall item | item in items
      ensures Parse(Trim(item)).Ok? <==> GoodPart(item)
    {
      ItemMeaning(item, 0);
    }
    if ',' in Trim(text) {
      ParseList(text);
      i := FirstBadPart(items, |text|);
      var item := Trim(items[i]);
      TrimTwice(items[i]);
      ParseFlat(item);
      FlatBlames(item, item);
    } else {
      LoneItem(text);
      ParseFlat(text);
      FlatBlames(Trim(text), text);
      i := 0;
    }
  }

  lemma TrimTwice(item: string)
    requires ',' !in item
    ensures Trim(Trim(item)) == Trim(item) && ',' !in Trim(item)
  {
    TrimWithin(item);
    hide Trim;
  }

  // ----- labels read back -----

  /** What a label tells its reader: a dynamic one names its keyword, a long list its size, a short one its members. */
  lemma LabelShows(spec: PortSpec)
    ensures spec.Any? ==> Label(spec) == "any port"
    ensures spec.Dynamic? ==> exists name :: Label(spec) == name + " (dynamic)" && FromName(name) == Some(spec.keyword)
    ensures spec.List? && |spec.specs| > 4 ==>
              exists size :: Label(spec) == size + " ports (list)" && Numeral(size) && Spelled(size) == |spec.specs|
    ensures spec.List? && |spec.specs| <= 4 ==> exists labels: seq<string> ::
              && Label(spec) == Join(labels, ", ") && |labels| == |spec.specs|
              && forall i :: 0 <= i < |labels| ==> labels[i] == Label(spec.specs[i])
  {
    match spec
    case Any =>
    case Single(_) =>
    case Range(_, _) =>
    case Dynamic(keyword) =>
      KeywordExactlyWhen(CanonicalName(keyword), keyword);
      hide FromName, CanonicalName;
    case List(specs) =>
      DecimalSpells(|specs|);
      LabelsAt(specs);
      hide Decimal, Numeral, Spelled, Join, Labels;
      assert |specs| <= 4 ==> Label(spec) == Join(Labels(specs), ", ");
  }

  predicate Plain(spec: PortSpec) { spec.Single? || spec.Range? }

  predicate ReadsBack(spec: PortSpec) {
    || Plain(spec)
    || (spec.List? && 2 <= |spec.specs| <= LIST_SUMMARY_THRESHOLD && forall m :: m in spec.specs ==> Plain(m))
  }

  /** The characters a plain label is made of. */
  predicate LabelChar(c: char) { Digit(c) || c == '-' }

  lemma PlainLabel(spec: PortSpec)
    requires Plain(spec)
    ensures Label(spec) != "" && Trimmed(Label(spec)) && forall c :: c in Label(spec) ==> LabelChar(c)
    ensures ',' !in Label(spec) && Digit(Label(spec)[0])
  {
    if spec.Range? {
      var a, b := Decimal(spec.start), Decimal(spec.end);
      assert a[0] in a && b[|b| - 1] in b;
      var text := Label(spec);
      assert text[0] == a[0] && text[|text| - 1] == b[|b| - 1];
    } else {
      var a := Decimal(spec.port);
      assert a[0] in a && a[|a| - 1] in a;
    }
  }

  lemma DigitFirst(s: string)
    requires s != "" && Digit(s[0])
    ensures !Wild(s)
  {
    assert Lowered(s)[0] == s[0];
    assert Lowered("any")[0] == 'a';
  }

  lemma NumberReadsBack(n: nat)
    requires n <= 0xFFFF
    ensures ParseU16(Decimal(n)) == Some(n) && Trim(Decimal(n)) == Decimal(n) && '-' !in Decimal(n)
  {
    hide Decimal, Value, Trim;
    var s := Decimal(n);
    assert s[0] in s && s[|s| - 1] in s;
  }

  lemma SingleItem(p: nat)
    requires 1 <= p <= 0xFFFF
    ensures ParseItem(Decimal(p)) == Ok(Single(p))
  {
    PlainLabel(Single(p));
    DigitFirst(Decimal(p));
    NumberReadsBack(p);
    SplitOnceNone(Decimal(p), "-");
    hide SplitOnce, ParseU16, Decimal, FromName, SaysAny;
  }

  lemma RangeItem(a: nat, b: nat)
    requires 1 <= a <= b <= 0xFFFF
    ensures ParseItem(Decimal(a) + "-" + Decimal(b)) == Ok(Range(a, b))
  {
    hide Trim, ParseU16, Decimal, SplitOnce, FromName, ParseNumber;
    NumberReadsBack(a);
    NumberReadsBack(b);
    SplitOnceAt(Decimal(a), "-", Decimal(b));
  }

  lemma PlainReadsBack(spec: PortSpec)
    requires Plain(spec) && Valid(spec)
    ensures Parse(Label(spec)) == Ok(spec)
  {
    PlainLabel(spec);
    DigitFirst(Label(spec));
    if spec.Single? {
      SingleItem(spec.port);
    } else {
      RangeItem(spec.start, spec.end);
    }
    hide Label, Trim, ParseItem, SaysAny, FromName, Parse;
    ParseFlat(Label(spec));
  }

  /** Members after the first are preceded by a space. */
  function Spaced(parts: seq<string>): seq<string> {
    if parts == [] then [] else [" " + parts[0]] + Spaced(parts[1..])
  }

  lemma {:induction false} SpacedAt(parts: seq<string>)
    ensures |Spaced(parts)| == |parts| && forall i :: 0 <= i < |parts| ==> Spaced(parts)[i] == " " + parts[i]
  {
    if parts != [] {
      SpacedAt(parts[1..]);
    }
  }

  lemma {:induction false} JoinSpaced(first: string, rest: seq<string>)
    ensures Join([first] + rest, ", ") == Join([first] + Spaced(rest), ",")
    decreases |rest|
  {
    if rest == [] {
      assert Spaced(rest) == [];
    } else {
      JoinSpaced(rest[0], rest[1..]);
      assert ([first] + rest)[1..] == [rest[0]] + rest[1..];
      var spaced := Spaced(rest);
      assert ([first] + spaced)[1..] == spaced;
      SpaceOut(rest[0], Spaced(rest[1..]));
      assert first + ", " + Join([rest[0]] + rest[1..], ", ") == first + "," + (" " + Join([rest[0]] + rest[1..], ", "));
    }
  }

  lemma SpaceOut(head: string, tail: seq<string>)
    ensures Join([" " + head] + tail, ",") == " " + Join([head] + tail, ",")
  {
    assert ([" " + head] + tail)[1..] == tail && ([head] + tail)[1..] == tail;
    if tail != [] {
      assert (" " + head) + "," + Join(tail, ",") == " " + (head + "," + Join(tail, ","));
    }
  }

  lemma {:induction false} LabelsAt(specs: seq<PortSpec>)
    ensures |Labels(specs)| == |specs| && forall i :: 0 <= i < |specs| ==> Labels(specs)[i] == Label(specs[i])
  {
    if specs != [] {
      LabelsAt(specs[1..]);
    }
  }

  lemma SpaceIn(s: string, word: string)
    requires ' ' in s && ' ' !in word
    ensures Lowered(s) != word && s != word
  {
    var k :| 0 <= k < |s| && s[k] == ' ';
    assert Lowered(s)[k] == ' ';
  }

  lemma SpaceIsNotWild(s: string)
    requires ' ' in s
    ensures !Wild(s)
  {
    SpaceIn(s, "*");
    SpaceIn(s, "any");
    assert Lowered("any") == "any";
    SpaceIn(s, "rpc");
    SpaceIn(s, "rpcepmap");
    SpaceIn(s, "iphttpsin");
    SpaceIn(s, "mdns");
    SpaceIn(s, "teredo");
    SpaceIn(s, "playtodiscovery");
  }

  lemma SpaceIsNotNumber(s: string)
    requires ' ' in s
    ensures ParseU16(s).None?
  {
    hide Value;
    var k :| 0 <= k < |s| && s[k] == ' ';
    var digits := if s[0] == '+' then s[1..] else s;
    var at := if s[0] == '+' then k - 1 else k;
    assert digits[at] == ' ' && digits[at] in digits;
    assert !Digits(digits);
  }

  lemma WordsDoNotParse(s: string)
    requires Trimmed(s) && ' ' in s && ',' !in s && '-' !in s
    ensures Parse(s).Err?
  {
    ParseFlat(s);
    SpaceIsNotWild(s);
    SpaceIsNotNumber(s);
    SplitOnceNone(s, "-");
    hide Parse, Trim, SaysAny, FromName, ParseU16, SplitOnce;
  }

  lemma NameIsWord(keyword: Keyword)
    ensures var s := CanonicalName(keyword); s != "" && !White(s[0]) && ',' !in s && '-' !in s
  {
  }

  lemma DynamicLabel(keyword: Keyword)
    ensures var s := Label(Dynamic(keyword)); Trimmed(s) && ' ' in s && ',' !in s && '-' !in s && s != ""
  {
    NameIsWord(keyword);
    hide CanonicalName;
    var name, s := CanonicalName(keyword), CanonicalName(keyword) + " (dynamic)";
    assert s[0] == name[0] && s[|name|] == ' ' && s[|s| - 1] == ')';
  }

  lemma SummaryLabel(n: nat)
    ensures var s := Decimal(n) + " ports (list)"; Trimmed(s) && ' ' in s && ',' !in s && '-' !in s
  {
    var d, s := Decimal(n), Decimal(n) + " ports (list)";
    hide Decimal;
    assert d[0] in d && s[0] == d[0];
    assert s[|d|] == ' ';
    assert s[|s| - 1] == ')';
  }

  lemma FlatLabel(spec: PortSpec)
    requires !spec.List?
    ensures Label(spec) != "" && Trimmed(Label(spec)) && ',' !in Label(spec)
  {
    if Plain(spec) {
      PlainLabel(spec);
    } else if spec.Dynamic? {
      DynamicLabel(spec.keyword);
    }
  }

  /** Reading back a label that is not a list: exactly the single ports and ranges survive. */
  lemma FlatReadsBack(spec: PortSpec)
    requires !spec.List? && Valid(spec)
    ensures Parse(Label(spec)) == Ok(spec) <==> Plain(spec)
  {
    if Plain(spec) {
      PlainReadsBack(spec);
    } else if spec.Dynamic? {
      DynamicLabel(spec.keyword);
      hide Label;
      WordsDoNotParse(Label(spec));
    } else {
      var s := "any port";
      assert s[3] == ' ';
      WordsDoNotParse(s);
    }
  }

  lemma {:induction false} JoinTrimmed(parts: seq<string>)
    requires parts != [] && forall p :: p in parts ==> p != "" && Trimmed(p)
    ensures Join(parts, ", ") != "" && Trimmed(Join(parts, ", "))
  {
    assert parts[0] in parts;
    if |parts| > 1 {
      assert forall p :: p in parts[1..] ==> p in parts;
      JoinTrimmed(parts[1..]);
    }
  }

  lemma LabelItems(labels: seq<string>)
    requires |labels| >= 1 && forall l :: l in labels ==> l != "" && Trimmed(l) && ',' !in l
    ensures Items(Join(labels, ", ")) == [labels[0]] + Spaced(labels[1..])
  {
    var items := [labels[0]] + Spaced(labels[1..]);
    SpacedAt(labels[1..]);
    assert labels == [labels[0]] + labels[1..];
    JoinSpaced(labels[0], labels[1..]);
    JoinTrimmed(labels);
    forall i | 0 <= i < |items| ensures ',' !in items[i] {
      assert labels[i] in labels;
      assert items[i] == labels[i] || items[i] == " " + labels[i];
    }
    SplitOfJoin(items, ',');
  }

  lemma TrimmedItems(labels: seq<string>, i: nat)
    requires |labels| >= 1 && i < |labels| && Trimmed(labels[i])
    ensures |Spaced(labels[1..])| == |labels| - 1
    ensures Trim(([labels[0]] + Spaced(labels[1..]))[i]) == labels[i]
  {
    SpacedAt(labels[1..]);
    TrimSpaced(labels[i]);
  }

  /** A flat list reads back exactly when each member does. */
  lemma FlatListReadsBack(specs: seq<PortSpec>)
    requires 2 <= |specs| <= LIST_SUMMARY_THRESHOLD && forall m :: m in specs ==> !m.List?
    ensures Parse(Label(List(specs))) == Ok(List(specs)) <==> forall m :: m in specs ==> Parse(Label(m)) == Ok(m)
  {
    var labels, text := Labels(specs), Label(List(specs));
    assert text == Join(labels, ", ");
    LabelsAt(specs);
    hide Parse, Trim, Split, Label, Labels, Join;
    forall i | 0 <= i < |labels| ensures labels[i] != "" && Trimmed(labels[i]) && ',' !in labels[i] {
      FlatLabel(specs[i]);
    }
    LabelItems(labels);
    var items := Items(text);
    forall i | 0 <= i < |labels| ensures |items| == |labels| && Trim(items[i]) == labels[i] {
      TrimmedItems(labels, i);
    }
    ListOfItems(text, items, labels, specs);
  }

  lemma ListOfItems(text: string, items: seq<string>, labels: seq<string>, specs: seq<PortSpec>)
    requires items == Items(text) && |items| == |labels| == |specs| >= 2
    requires forall i :: 0 <= i < |specs| ==> Trim(items[i]) == labels[i] && labels[i] == Label(specs[i])
    ensures Parse(text) == Ok(List(specs)) <==> forall m :: m in specs ==> Parse(Label(m)) == Ok(m)
  {
    hide Parse, Trim, Split, ParseAll, Label;
    SplitParts(Trim(text), ',');
    assert ',' in Trim(text);
    ParseList(text);
    ParseAllEach(items, |text|);
    if forall m :: m in specs ==> Parse(Label(m)) == Ok(m) {
      forall i | 0 <= i < |items| ensures Parse(Trim(items[i])) == Ok(specs[i]) {
        assert specs[i] in specs;
      }
      var parsed := ParseAll(items, |text|).value;
      assert parsed == specs;
    } else {
      var m :| m in specs && Parse(Label(m)) != Ok(m);
      var i :| 0 <= i < |specs| && specs[i] == m;
      assert Parse(Trim(items[i])) != Ok(specs[i]);
    }
  }

  /** Printing and parsing: the label of a well-formed spec reads back as that spec exactly when it is a
      single port, a range, or a flat list of two to four of these. */
  lemma ReadsBackExactlyWhen(spec: PortSpec)
    requires Valid(spec)
    ensures Parse(Label(spec)) == Ok(spec) <==> ReadsBack(spec)
  {
    hide Parse, Trim;
    if !spec.List? {
      FlatReadsBack(spec);
    } else if |spec.specs| > LIST_SUMMARY_THRESHOLD {
      SummaryLabel(|spec.specs|);
      WordsDoNotParse(Label(spec));
    } else {
      ListReadsBack(spec.specs);
    }
  }

  lemma ListReadsBack(specs: seq<PortSpec>)
    requires Valid(List(specs)) && |specs| <= LIST_SUMMARY_THRESHOLD
    ensures Parse(Label(List(specs))) == Ok(List(specs)) <==> ReadsBack(List(specs))
  {
    hide Parse, Label;
    if |specs| >= 2 && forall m :: m in specs ==> !m.List? {
      FlatListReadsBack(specs);
      forall m | m in specs ensures Parse(Label(m)) == Ok(m) <==> Plain(m) {
        FlatReadsBack(m);
      }
    } else if Parse(Label(List(specs))) == Ok(List(specs)) {
      ParsedShape(Label(List(specs)));
    }
  }
}
