/** SVG primitives: text is escaped and geometry snapped to a grid of four before anything is written. */
module Svg {
  import opened Wrappers
  import opened Text
  import opened PortSpecs
  import PortSpecLaws

  // ----- the grid -----

  /** Integer division as the source's language rounds it: toward zero. */
  function TruncatedQuotient(value: int, divisor: nat): int
    requires divisor > 0
  {
    if value >= 0 then value / divisor else -(-value / divisor)
  }

  function Snap(value: int): int { TruncatedQuotient(value, 4) * 4 }

  function Shown(n: int): string { if n < 0 then "-" + Decimal(-n) else Decimal(n) }

  /** Snapping gives the multiple of four next to the value on the side of zero: below it when it is not
      negative, above it when it is. */
  lemma SnapIsNearest(value: int, multiple: int)
    requires multiple % 4 == 0
    ensures Snap(value) % 4 == 0 && -4 < value - Snap(value) < 4
    ensures value >= 0 ==> 0 <= Snap(value) <= value && (multiple <= value ==> multiple <= Snap(value))
    ensures value < 0 ==> value <= Snap(value) <= 0 && (value <= multiple ==> Snap(value) <= multiple)
    ensures Snap(Snap(value)) == Snap(value)
  {
    if value < 0 {
      var q := -value / 4;
      assert -value == 4 * q + -value % 4;
    }
  }

  /** So "down" is right only for values that are not negative or already on the grid. */
  lemma SnapsDownExactlyWhen(value: int)
    ensures Snap(value) <= value <==> value >= 0 || value % 4 == 0
  {
    SnapIsNearest(value, 0);
  }

  // ----- escaping -----

  function EscapeChar(c: char): string {
    if c == '&' then "&amp;"
    else if c == '<' then "&lt;"
    else if c == '>' then "&gt;"
    else if c == '"' then "&quot;"
    else if c == '\'' then "&apos;"
    else [c]
  }

  function Escaped(s: string): string {
    if s == "" then "" else EscapeChar(s[0]) + Escaped(s[1..])
  }

  method EscapeSvgText(input: string) returns (out: string)
    ensures out == Escaped(input)
  {
    out := "";
    var k := 0;
    assert input[0..] == input;
    while k < |input|
      invariant 0 <= k <= |input|
      invariant out + Escaped(input[k..]) == Escaped(input)
    {
      assert input[k..][1..] == input[k + 1..];
      out := out + EscapeChar(input[k]);
      k := k + 1;
    }
  }

  /** The predefined entity at the head of a text, if one is there: its character and its length. */
  function EntityAt(s: string): (char, nat) {
    if "&amp;" <= s then ('&', 5)
    else if "&lt;" <= s then ('<', 4)
    else if "&gt;" <= s then ('>', 4)
    else if "&quot;" <= s then ('"', 6)
    else if "&apos;" <= s then ('\'', 6)
    else (' ', 0)
  }

  /** Decoding the five predefined entities of section 4.6 of XML 1.0. */
  function Decoded(s: string): string
    decreases |s|
  {
    if s == "" then ""
    else
      var e := EntityAt(s);
      if e.1 > 0 then [e.0] + Decoded(s[e.1..]) else [s[0]] + Decoded(s[1..])
  }

  lemma EntityOfEscape(c: char, rest: string)
    ensures var e := EntityAt(EscapeChar(c) + rest);
      if |EscapeChar(c)| > 1 then e == (c, |EscapeChar(c)|) else e.1 == 0 && EscapeChar(c) == [c]
    ensures (EscapeChar(c) + rest)[|EscapeChar(c)|..] == rest && EscapeChar(c) != ""
  {
    var s := EscapeChar(c) + rest;
    assert s[0] == EscapeChar(c)[0];
    if c == '<' {
      assert s[1] == 'l';
    } else if c == '>' {
      assert s[1] == 'g';
    } else if c == '"' {
      assert s[1] == 'q';
    } else if c == '\'' {
      assert s[1] == 'a' && s[2] == 'p';
    }
  }

  lemma {:induction false} DecodingUndoesEscaping(s: string)
    ensures Decoded(Escaped(s)) == s
  {
    hide EntityAt, EscapeChar;
    if s != "" {
      DecodingUndoesEscaping(s[1..]);
      EntityOfEscape(s[0], Escaped(s[1..]));
      var t := EscapeChar(s[0]) + Escaped(s[1..]);
      assert s == [s[0]] + s[1..];
      if |EscapeChar(s[0])| == 1 {
        assert t[0] == s[0] && t[1..] == Escaped(s[1..]);
      }
    }
  }

  /** Different texts are escaped differently. */
  lemma EscapingInjective(s: string, t: string)
    requires Escaped(s) == Escaped(t)
    ensures s == t
  {
    DecodingUndoesEscaping(s);
    DecodingUndoesEscaping(t);
  }

  predicate Structural(c: char) { c == '<' || c == '>' || c == '"' || c == '\'' }

  /** What is left of the five characters in an escaped text: only ampersands that open an entity. */
  lemma {:induction false} EscapedIsInert(s: string, i: nat)
    requires i < |Escaped(s)|
    ensures !Structural(Escaped(s)[i])
    ensures Escaped(s)[i] == '&' ==> EntityAt(Escaped(s)[i..]).1 > 0
  {
    var head, rest := EscapeChar(s[0]), Escaped(s[1..]);
    if i >= |head| {
      EscapedIsInert(s[1..], i - |head|);
      assert Escaped(s)[i..] == rest[i - |head|..];
    } else {
      HeadIsInert(s[0], i);
      if i == 0 {
        EntityOfEscape(s[0], rest);
        assert Escaped(s)[0..] == Escaped(s);
      }
    }
    hide EscapeChar, EntityAt;
  }

  lemma HeadIsInert(c: char, i: nat)
    requires i < |EscapeChar(c)|
    ensures !Structural(EscapeChar(c)[i])
    ensures EscapeChar(c)[i] == '&' ==> i == 0 && |EscapeChar(c)| > 1
  {
  }

  // ----- the canvas -----

  datatype Call =
    | Rect(x: int, y: int, w: int, h: int, class_: string)
    | TextAt(x: int, y: int, content: string, class_: string)
    | Line(x: int, y: int, x2: int, y2: int, class_: string)

  function Attribute(name: string, value: string): string {
    " " + name + "=\"" + value + "\""
  }

  function Attributes(list: seq<(string, string)>): string {
    if list == [] then "" else Attribute(list[0].0, list[0].1) + Attributes(list[1..])
  }

  /** A tag with its attributes; `tail` closes it and holds whatever follows. */
  function Tag(name: string, list: seq<(string, string)>, tail: string): string {
    "<" + name + Attributes(list) + tail
  }

  function RectElement(x: int, y: int, w: int, h: int, class_: string): string {
    Tag("rect", [("x", Shown(x)), ("y", Shown(y)), ("width", Shown(w)), ("height", Shown(h)), ("rx", "10"), ("class", class_)], "/>")
  }

  function TextElement(x: int, y: int, content: string, class_: string): string {
    Tag("text", [("x", Shown(x)), ("y", Shown(y)), ("class", class_)], ">" + content + "</text>")
  }

  function LineElement(x1: int, y1: int, x2: int, y2: int, class_: string): string {
    Tag("line", [("x1", Shown(x1)), ("y1", Shown(y1)), ("x2", Shown(x2)), ("y2", Shown(y2)), ("class", class_)], "/>")
  }

  function Element(c: Call): string {
    match c
    case Rect(x, y, w, h, k) => RectElement(Snap(x), Snap(y), Snap(w), Snap(h), Escaped(k))
    case TextAt(x, y, t, k) => TextElement(Snap(x), Snap(y), Escaped(t), Escaped(k))
    case Line(x1, y1, x2, y2, k) => LineElement(Snap(x1), Snap(y1), Snap(x2), Snap(y2), Escaped(k))
  }

  function Elements(calls: seq<Call>): seq<string> {
    if calls == [] then [] else Elements(calls[..|calls| - 1]) + [Element(calls[|calls| - 1])]
  }

  function Concat(parts: seq<string>): string {
    if parts == [] then "" else Concat(parts[..|parts| - 1]) + parts[|parts| - 1]
  }

  function Document(width: int, height: int, title: string, desc: string, body: string): string {
    Tag("svg",
        [("role", "img"), ("aria-label", title), ("width", Shown(width)), ("height", Shown(height)),
         ("xmlns", "http://www.w3.org/2000/svg")],
        "><title>" + title + "</title><desc>" + desc + "</desc>" + body + "</svg>")
  }

  /** The document a sequence of calls renders. */
  function Rendered(width: int, height: int, calls: seq<Call>, title: string, desc: string): string {
    Document(Snap(width), Snap(height), Escaped(title), Escaped(desc), Concat(Elements(calls)))
  }

  class SvgCanvas {
    const width: int
    const height: int
    var elements: seq<string>
    ghost var calls: seq<Call>

    ghost predicate Valid()
      reads this
    {
      elements == Elements(calls) && Snap(width) == width && Snap(height) == height
    }

    constructor (width: int, height: int)
      ensures Valid() && calls == [] && this.width == Snap(width) && this.height == Snap(height)
    {
      SnapIsNearest(width, 0);
      SnapIsNearest(height, 0);
      this.width, this.height := Snap(width), Snap(height);
      elements, calls := [], [];
    }

    method DrawRect(x: int, y: int, w: int, h: int, class_: string)
      requires Valid()
      modifies this
      ensures Valid() && calls == old(calls) + [Rect(x, y, w, h, class_)]
    {
      var sx, sy, sw, sh := Snap(x), Snap(y), Snap(w), Snap(h);
      var escaped := EscapeSvgText(class_);
      hide Snap, RectElement, Escaped;
      elements := elements + [RectElement(sx, sy, sw, sh, escaped)];
      calls := calls + [Rect(x, y, w, h, class_)];
      assert calls[..|calls| - 1] == old(calls);
    }

    method DrawText(x: int, y: int, content: string, class_: string)
      requires Valid()
      modifies this
      ensures Valid() && calls == old(calls) + [TextAt(x, y, content, class_)]
    {
      var sx, sy := Snap(x), Snap(y);
      var escapedContent := EscapeSvgText(content);
      var escaped := EscapeSvgText(class_);
      hide Snap, TextElement, Escaped;
      elements := elements + [TextElement(sx, sy, escapedContent, escaped)];
      calls := calls + [TextAt(x, y, content, class_)];
      assert calls[..|calls| - 1] == old(calls);
    }

    method DrawLine(x1: int, y1: int, x2: int, y2: int, class_: string)
      requires Valid()
      modifies this
      ensures Valid() && calls == old(calls) + [Line(x1, y1, x2, y2, class_)]
    {
      var sx1, sy1, sx2, sy2 := Snap(x1), Snap(y1), Snap(x2), Snap(y2);
      var escaped := EscapeSvgText(class_);
      hide Snap, LineElement, Escaped;
      elements := elements + [LineElement(sx1, sy1, sx2, sy2, escaped)];
      calls := calls + [Line(x1, y1, x2, y2, class_)];
      assert calls[..|calls| - 1] == old(calls);
    }

    method Render(title: string, desc: string) returns (svg: string)
      requires Valid()
      ensures svg == Rendered(width, height, calls, title, desc)
    {
      var escapedTitle := EscapeSvgText(title);
      var escapedDesc := EscapeSvgText(desc);
      svg := Document(width, height, escapedTitle, escapedDesc, Concat(elements));
    }
  }

  // ----- whole drawings -----

  /** The characters of a document that delimit tags and attribute values, in order. */
  function Markup(s: string): string {
    if s == "" then "" else (if Structural(s[0]) then [s[0]] else "") + Markup(s[1..])
  }

  lemma MarkupHead(c: char, rest: string)
    ensures Markup([c] + rest) == (if Structural(c) then [c] else "") + Markup(rest)
  {
    assert ([c] + rest)[1..] == rest;
  }

  lemma {:induction false} MarkupSum(a: string, b: string)
    ensures Markup(a + b) == Markup(a) + Markup(b)
  {
    if a == "" {
      assert a + b == b;
    } else {
      hide Markup, Structural;
      MarkupSum(a[1..], b);
      MarkupHead(a[0], a[1..]);
      MarkupHead(a[0], a[1..] + b);
      assert a == [a[0]] + a[1..] && a + b == [a[0]] + (a[1..] + b);
    }
  }

  lemma {:induction false} NoMarkup(s: string)
    requires forall i :: 0 <= i < |s| ==> !Structural(s[i])
    ensures Markup(s) == ""
  {
    if s != "" {
      NoMarkup(s[1..]);
    }
  }

  lemma EscapedHasNoMarkup(s: string)
    ensures Markup(Escaped(s)) == ""
  {
    forall i | 0 <= i < |Escaped(s)| ensures !Structural(Escaped(s)[i]) {
      EscapedIsInert(s, i);
    }
    NoMarkup(Escaped(s));
  }

  /** Putting a piece without markup between two texts leaves their markup alone. */
  lemma Around(a: string, inert: string, b: string)
    requires Markup(inert) == ""
    ensures Markup(a + inert + b) == Markup(a) + Markup(b)
  {
    MarkupSum(a + inert, b);
    MarkupSum(a, inert);
  }

  datatype Kind = RectKind | TextKind | LineKind

  function KindOf(c: Call): Kind {
    match c
    case Rect(_, _, _, _, _) => RectKind
    case TextAt(_, _, _, _) => TextKind
    case Line(_, _, _, _, _) => LineKind
  }

  function Quotes(n: nat): string { if n == 0 then "" else "\"\"" + Quotes(n - 1) }

  /** The markup of the three kinds of elements. */
  function KindMarkup(k: Kind): string {
    match k
    case RectKind => "<" + Quotes(6) + ">"
    case TextKind => "<" + Quotes(3) + "><>"
    case LineKind => "<" + Quotes(5) + ">"
  }

  predicate Inert(s: string) { forall i :: 0 <= i < |s| ==> !Structural(s[i]) }

  predicate InertList(list: seq<(string, string)>) {
    forall i :: 0 <= i < |list| ==> Inert(list[i].0) && Inert(list[i].1)
  }

  lemma EscapedInert(s: string)
    ensures Inert(Escaped(s))
  {
    forall i | 0 <= i < |Escaped(s)| ensures !Structural(Escaped(s)[i]) {
      EscapedIsInert(s, i);
    }
  }

  lemma ShownInert(n: int)
    ensures Inert(Shown(n))
  {
    var s := Shown(n);
    hide Decimal;
    forall i | 0 <= i < |s| ensures !Structural(s[i]) {
      if n < 0 {
        assert i > 0 ==> s[i] == Decimal(-n)[i - 1] && Digit(Decimal(-n)[i - 1]);
      } else {
        assert Digit(Decimal(n)[i]);
      }
    }
  }

  lemma AttributeMarkup(name: string, value: string)
    requires Inert(name) && Inert(value)
    ensures Markup(Attribute(name, value)) == "\"\""
  {
    NoMarkup(name);
    NoMarkup(value);
    hide Inert;
    Around(" ", name, "=\"");
    Around(" " + name + "=\"", value, "\"");
    assert Markup(" ") == "" && Markup("\"") == "\"";
    assert "=\""[1..] == "\"";
  }

  lemma {:induction false} AttributesMarkup(list: seq<(string, string)>)
    requires InertList(list)
    ensures Markup(Attributes(list)) == Quotes(|list|)
  {
    hide Attribute, Inert, Markup;
    if list == [] {
      assert Markup("") == "" by { NoMarkup(""); }
    } else {
      AttributesMarkup(list[1..]);
      AttributeMarkup(list[0].0, list[0].1);
      MarkupSum(Attribute(list[0].0, list[0].1), Attributes(list[1..]));
    }
  }

  lemma TagMarkup(name: string, list: seq<(string, string)>, tail: string)
    requires Inert(name) && InertList(list)
    ensures Markup(Tag(name, list, tail)) == "<" + Quotes(|list|) + Markup(tail)
  {
    NoMarkup(name);
    AttributesMarkup(list);
    MarkupSum("<", name);
    assert Markup("<") == "<";
    hide Markup, Attributes, Inert, Quotes;
    MarkupSum("<" + name, Attributes(list));
    MarkupSum("<" + name + Attributes(list), tail);
  }

  lemma RectMarkup(x: int, y: int, w: int, h: int, k: string)
    ensures Markup(RectElement(x, y, w, h, Escaped(k))) == KindMarkup(RectKind)
  {
    ShownInert(x);
    ShownInert(y);
    ShownInert(w);
    ShownInert(h);
    EscapedInert(k);
    hide Shown, Escaped, Tag, Quotes;
    TagMarkup("rect", [("x", Shown(x)), ("y", Shown(y)), ("width", Shown(w)), ("height", Shown(h)), ("rx", "10"), ("class", Escaped(k))], "/>");
    SlashClose();
    hide Markup;
  }

  lemma SlashClose()
    ensures Markup("/>") == ">"
  {
    assert "/>"[1..] == ">";
  }

  lemma LineMarkup(x1: int, y1: int, x2: int, y2: int, k: string)
    ensures Markup(LineElement(x1, y1, x2, y2, Escaped(k))) == KindMarkup(LineKind)
  {
    ShownInert(x1);
    ShownInert(y1);
    ShownInert(x2);
    ShownInert(y2);
    EscapedInert(k);
    hide Shown, Escaped, Tag, Quotes;
    TagMarkup("line", [("x1", Shown(x1)), ("y1", Shown(y1)), ("x2", Shown(x2)), ("y2", Shown(y2)), ("class", Escaped(k))], "/>");
    SlashClose();
    hide Markup;
  }

  lemma TextMarkup(x: int, y: int, t: string, k: string)
    ensures Markup(TextElement(x, y, Escaped(t), Escaped(k))) == KindMarkup(TextKind)
  {
    ShownInert(x);
    ShownInert(y);
    EscapedInert(k);
    EscapedHasNoMarkup(t);
    hide Shown, Escaped, Tag, Quotes, Markup;
    TagMarkup("text", [("x", Shown(x)), ("y", Shown(y)), ("class", Escaped(k))], ">" + Escaped(t) + "</text>");
    Around(">", Escaped(t), "</text>");
    TextClose();
  }

  lemma TextClose()
    ensures Markup(">") == ">" && Markup("</text>") == "<>"
  {
    assert Markup("<") == "<" && Markup(">") == ">";
    NoMarkup("/text");
    hide Markup;
    assert "</text>" == "<" + "/text" + ">";
    Around("<", "/text", ">");
  }

  lemma ElementMarkup(c: Call)
    ensures Markup(Element(c)) == KindMarkup(KindOf(c))
  {
    hide KindMarkup, Markup, Snap, RectElement, TextElement, LineElement, Escaped;
    match c
    case Rect(x, y, w, h, k) => RectMarkup(Snap(x), Snap(y), Snap(w), Snap(h), k);
    case TextAt(x, y, t, k) => TextMarkup(Snap(x), Snap(y), t, k);
    case Line(x1, y1, x2, y2, k) => LineMarkup(Snap(x1), Snap(y1), Snap(x2), Snap(y2), k);
  }

  function KindsOf(calls: seq<Call>): seq<Kind> { seq(|calls|, i requires 0 <= i < |calls| => KindOf(calls[i])) }

  lemma {:induction false} BodyMarkup(a: seq<Call>, b: seq<Call>)
    requires KindsOf(a) == KindsOf(b)
    ensures Markup(Concat(Elements(a))) == Markup(Concat(Elements(b)))
  {
    hide Markup, Element, KindMarkup, KindOf;
    assert |KindsOf(a)| == |a| && |KindsOf(b)| == |b|;
    if a == [] {
      assert b == [];
    } else {
      var n := |a| - 1;
      assert KindsOf(a)[n] == KindsOf(b)[n];
      assert KindsOf(a[..n]) == KindsOf(a)[..n] && KindsOf(b[..n]) == KindsOf(b)[..n];
      BodyMarkup(a[..n], b[..n]);
      BodyStep(a);
      BodyStep(b);
    }
  }

  lemma BodyStep(calls: seq<Call>)
    requires calls != []
    ensures var n := |calls| - 1;
      Markup(Concat(Elements(calls))) == Markup(Concat(Elements(calls[..n]))) + KindMarkup(KindOf(calls[n]))
  {
    hide Markup, Element, KindMarkup;
    var n := |calls| - 1;
    var all, init := Elements(calls), Elements(calls[..n]);
    assert all == init + [Element(calls[n])] && all[..|all| - 1] == init;
    MarkupSum(Concat(init), Element(calls[n]));
    ElementMarkup(calls[n]);
  }

  /** What the document's own tags contribute, apart from the body. */
  lemma DocumentMarkup(width: int, height: int, title: string, desc: string, body: string)
    ensures Markup(Document(width, height, Escaped(title), Escaped(desc), body))
         == "<" + Quotes(5) + (Markup("><title>") + Markup("</title><desc>") + Markup("</desc>") + Markup(body) + Markup("</svg>"))
  {
    ShownInert(width);
    ShownInert(height);
    EscapedInert(title);
    EscapedHasNoMarkup(title);
    EscapedHasNoMarkup(desc);
    hide Shown, Escaped, Tag, Quotes, Markup;
    var open, middle := "><title>", "</title><desc>";
    TagMarkup("svg",
              [("role", "img"), ("aria-label", Escaped(title)), ("width", Shown(width)), ("height", Shown(height)),
               ("xmlns", "http://www.w3.org/2000/svg")],
              open + Escaped(title) + middle + Escaped(desc) + "</desc>" + body + "</svg>");
    Around(open, Escaped(title), middle);
    Around(open + Escaped(title) + middle, Escaped(desc), "</desc>");
    MarkupSum(open + Escaped(title) + middle + Escaped(desc) + "</desc>", body);
    MarkupSum(open + Escaped(title) + middle + Escaped(desc) + "</desc>" + body, "</svg>");
  }

  /** No text and no number ever adds markup: two drawings with the same kinds of calls render the same tags and
      quotes, whatever their coordinates, classes, contents, titles and descriptions. */
  lemma MarkupDependsOnKindsOnly(a: seq<Call>, b: seq<Call>, width: int, height: int, width2: int, height2: int,
                                 title: string, desc: string, title2: string, desc2: string)
    requires KindsOf(a) == KindsOf(b)
    ensures Markup(Rendered(width, height, a, title, desc)) == Markup(Rendered(width2, height2, b, title2, desc2))
  {
    hide Markup, Document, Snap, Escaped, KindsOf, Elements, Concat;
    BodyMarkup(a, b);
    DocumentMarkup(Snap(width), Snap(height), title, desc, Concat(Elements(a)));
    DocumentMarkup(Snap(width2), Snap(height2), title2, desc2, Concat(Elements(b)));
  }

  predicate OnGrid(c: Call) {
    c.x % 4 == 0 && c.y % 4 == 0
    && (c.Rect? ==> c.w % 4 == 0 && c.h % 4 == 0) && (c.Line? ==> c.x2 % 4 == 0 && c.y2 % 4 == 0)
  }

  function Snapped(c: Call): Call {
    match c
    case Rect(x, y, w, h, k) => Rect(Snap(x), Snap(y), Snap(w), Snap(h), k)
    case TextAt(x, y, t, k) => TextAt(Snap(x), Snap(y), t, k)
    case Line(x, y, x2, y2, k) => Line(Snap(x), Snap(y), Snap(x2), Snap(y2), k)
  }

  function AllSnapped(calls: seq<Call>): seq<Call> {
    if calls == [] then [] else AllSnapped(calls[..|calls| - 1]) + [Snapped(calls[|calls| - 1])]
  }

  lemma SnapTwice(c: Call)
    ensures OnGrid(Snapped(c)) && Element(Snapped(c)) == Element(c)
  {
    SnapIsNearest(c.x, 0);
    SnapIsNearest(c.y, 0);
    if c.Rect? {
      SnapIsNearest(c.w, 0);
      SnapIsNearest(c.h, 0);
    } else if c.Line? {
      SnapIsNearest(c.x2, 0);
      SnapIsNearest(c.y2, 0);
    }
    hide Snap, RectElement, TextElement, LineElement, Escaped;
  }

  lemma {:induction false} SnappedElements(calls: seq<Call>)
    ensures Elements(AllSnapped(calls)) == Elements(calls) && |AllSnapped(calls)| == |calls|
    ensures forall c :: c in AllSnapped(calls) ==> OnGrid(c)
  {
    hide Element, OnGrid, Snapped;
    if calls != [] {
      var n := |calls| - 1;
      SnappedElements(calls[..n]);
      SnapTwice(calls[n]);
      assert AllSnapped(calls)[..n] == AllSnapped(calls[..n]);
    }
  }

  /** Only multiples of four are ever drawn: every drawing is the drawing of calls that are all on the grid. */
  lemma OnlyTheGridIsDrawn(width: int, height: int, calls: seq<Call>, title: string, desc: string)
    ensures Rendered(width, height, calls, title, desc)
         == Rendered(Snap(width), Snap(height), AllSnapped(calls), title, desc)
    ensures Snap(width) % 4 == 0 && Snap(height) % 4 == 0 && forall c :: c in AllSnapped(calls) ==> OnGrid(c)
  {
    SnappedElements(calls);
    SnapIsNearest(width, 0);
    SnapIsNearest(height, 0);
    hide Snap, Document, Escaped, Concat, Elements, AllSnapped, OnGrid;
  }

  // ----- reading a drawing back -----

  /** The attributes at the head of a text, as an XML reader splits them, and what follows them. */
  function ReadAttributes(s: string): (r: (seq<(string, string)>, string))
    ensures |r.1| <= |s|
    decreases |s|
  {
    if s == "" || s[0] != ' ' then ([], s)
    else
      match SplitOnce(s[1..], "=\"")
      case None => ([], s)
      case Some(named) =>
        match SplitOnce(named.1, "\"")
        case None => ([], s)
        case Some(valued) =>
          var more := ReadAttributes(valued.1);
          ([(named.0, valued.0)] + more.0, more.1)
  }

  predicate EndsName(c: char) { c == ' ' || c == '>' || c == '/' }

  function NameLength(s: string): (n: nat)
    ensures n <= |s|
  {
    if s == "" || EndsName(s[0]) then 0 else 1 + NameLength(s[1..])
  }

  /** The name of the tag a text starts with, its attributes, and what follows. */
  function ReadTag(s: string): (r: Option<(string, seq<(string, string)>, string)>)
    ensures r.Some? ==> |r.value.2| < |s|
  {
    if s == "" || s[0] != '<' then None
    else
      var n := NameLength(s[1..]);
      var attributes := ReadAttributes(s[1 + n..]);
      Some((s[1..1 + n], attributes.0, attributes.1))
  }

  function DecodedList(list: seq<(string, string)>): seq<(string, string)> {
    seq(|list|, i requires 0 <= i < |list| => (list[i].0, Decoded(list[i].1)))
  }

  /** An element that holds at most text, decoded. */
  datatype Node = Node(tag: string, attributes: seq<(string, string)>, content: string)

  function ReadElement(s: string): (r: Option<(Node, string)>)
    ensures r.Some? ==> |r.value.1| < |s|
  {
    match ReadTag(s)
    case None => None
    case Some((name, list, tail)) =>
      if "/>" <= tail then Some((Node(name, DecodedList(list), ""), tail[2..]))
      else if !(">" <= tail) then None
      else
        match SplitOnce(tail[1..], "</")
        case None => None
        case Some((content, after)) =>
          if name + ">" <= after then Some((Node(name, DecodedList(list), Decoded(content)), after[|name| + 1..])) else None
  }

  /** The elements at the head of a text, and what follows the last one. */
  function ReadNodes(s: string): (seq<Node>, string)
    decreases |s|
  {
    match ReadElement(s)
    case None => ([], s)
    case Some((node, rest)) =>
      var more := ReadNodes(rest);
      ([node] + more.0, more.1)
  }

  datatype Drawing = Drawing(tag: string, attributes: seq<(string, string)>, children: seq<Node>)

  /** A whole document: an element that holds elements, closed by its own name and followed by nothing. */
  function ReadDocument(s: string): Option<Drawing> {
    match ReadTag(s)
    case None => None
    case Some((name, list, tail)) =>
      if !(">" <= tail) then None
      else
        var nodes := ReadNodes(tail[1..]);
        if nodes.1 == "</" + name + ">" then Some(Drawing(name, DecodedList(list), nodes.0)) else None
  }

  // ----- one tag -----

  predicate Named(list: seq<(string, string)>) {
    forall i :: 0 <= i < |list| ==> '=' !in list[i].0 && '"' !in list[i].1
  }

  predicate IsName(s: string) { forall i :: 0 <= i < |s| ==> !EndsName(s[i]) }

  lemma ReadOne(name: string, value: string, rest: string)
    requires '=' !in name && '"' !in value
    ensures ReadAttributes(Attribute(name, value) + rest)
         == ([(name, value)] + ReadAttributes(rest).0, ReadAttributes(rest).1)
  {
    var s := Attribute(name, value) + rest;
    var after := value + "\"" + rest;
    assert s[0] == ' ' && s[1..] == name + "=\"" + after;
    SplitOnceAt(name, "=\"", after);
    SplitOnceAt(value, "\"", rest);
    hide SplitOnce, Attribute;
  }

  lemma {:induction false} ReadAll(list: seq<(string, string)>, tail: string)
    requires Named(list) && (tail == "" || tail[0] != ' ')
    ensures ReadAttributes(Attributes(list) + tail) == (list, tail)
  {
    hide Attribute, SplitOnce;
    if list == [] {
      assert Attributes(list) + tail == tail;
    } else {
      var one, more := Attribute(list[0].0, list[0].1), Attributes(list[1..]);
      ReadAll(list[1..], tail);
      ReadOne(list[0].0, list[0].1, more + tail);
      assert one + more + tail == one + (more + tail);
      assert list == [list[0]] + list[1..];
      hide ReadAttributes;
    }
  }

  lemma {:induction false} NameApart(name: string, rest: string)
    requires IsName(name) && rest != "" && EndsName(rest[0])
    ensures NameLength(name + rest) == |name|
  {
    if name == "" {
      assert name + rest == rest;
    } else {
      NameApart(name[1..], rest);
      assert (name + rest)[1..] == name[1..] + rest && (name + rest)[0] == name[0];
    }
  }

  lemma AttributesStart(list: seq<(string, string)>)
    requires list != []
    ensures Attributes(list) != "" && Attributes(list)[0] == ' '
  {
  }

  /** Reading a tag gives back its name, its attributes and the rest. */
  lemma TagReadsBack(name: string, list: seq<(string, string)>, tail: string)
    requires IsName(name) && Named(list) && tail != "" && (tail[0] == '>' || tail[0] == '/')
    ensures ReadTag(Tag(name, list, tail)) == Some((name, list, tail))
  {
    ReadAll(list, tail);
    if list != [] {
      AttributesStart(list);
    }
    var attributes := Attributes(list);
    assert attributes == "" ==> attributes + tail == tail;
    assert (attributes + tail)[0] == ' ' || (attributes + tail)[0] == '>' || (attributes + tail)[0] == '/';
    hide ReadAttributes, Attributes, IsName;
    NameApart(name, attributes + tail);
    TagApart(name, attributes, tail);
  }

  lemma TagApart(name: string, attributes: string, tail: string)
    ensures var s := "<" + name + attributes + tail;
      s[1..] == name + (attributes + tail) && s[1 + |name|..] == attributes + tail && s[1..1 + |name|] == name
  {
  }

  lemma InertHasNoQuote(s: string)
    requires Inert(s)
    ensures '"' !in s && '<' !in s
  {
  }

  lemma EscapedHasNoQuote(s: string)
    ensures '"' !in Escaped(s) && '<' !in Escaped(s)
  {
    EscapedInert(s);
    InertHasNoQuote(Escaped(s));
  }

  lemma {:induction false} NothingToDecode(s: string)
    requires '&' !in s
    ensures Decoded(s) == s
  {
    if s != "" {
      assert s == [s[0]] + s[1..];
      NothingToDecode(s[1..]);
    }
  }

  lemma ShownReads(n: int)
    ensures '"' !in Shown(n) && Decoded(Shown(n)) == Shown(n)
  {
    ShownInert(n);
    InertHasNoQuote(Shown(n));
    forall c | c in Shown(n) ensures c != '&' {
    }
    NothingToDecode(Shown(n));
  }

  // ----- one element -----

  /** What a call draws: each coordinate, snapped, under its own name, the class, and for a text its content. */
  function NodeOf(c: Call): Node {
    match c
    case Rect(x, y, w, h, k) =>
      Node("rect", [("x", Shown(Snap(x))), ("y", Shown(Snap(y))), ("width", Shown(Snap(w))), ("height", Shown(Snap(h))),
                    ("rx", "10"), ("class", k)], "")
    case TextAt(x, y, t, k) => Node("text", [("x", Shown(Snap(x))), ("y", Shown(Snap(y))), ("class", k)], t)
    case Line(x1, y1, x2, y2, k) =>
      Node("line", [("x1", Shown(Snap(x1))), ("y1", Shown(Snap(y1))), ("x2", Shown(Snap(x2))), ("y2", Shown(Snap(y2))),
                    ("class", k)], "")
  }

  lemma TagThen(name: string, list: seq<(string, string)>, tail: string, more: string)
    ensures Tag(name, list, tail) + more == Tag(name, list, tail + more)
  {
    assert "<" + name + Attributes(list) + tail + more == "<" + name + Attributes(list) + (tail + more);
  }

  lemma EmptyElementReads(name: string, list: seq<(string, string)>, more: string)
    requires IsName(name) && Named(list)
    ensures ReadElement(Tag(name, list, "/>") + more) == Some((Node(name, DecodedList(list), ""), more))
  {
    var tail := "/>" + more;
    TagThen(name, list, "/>", more);
    TagReadsBack(name, list, tail);
    assert tail[2..] == more && "/>" <= tail;
    hide ReadTag, Tag, DecodedList;
  }

  lemma TextElementReads(name: string, list: seq<(string, string)>, content: string, more: string)
    requires IsName(name) && Named(list) && '<' !in content
    ensures ReadElement(Tag(name, list, ">" + content + "</" + name + ">") + more)
         == Some((Node(name, DecodedList(list), Decoded(content)), more))
  {
    var end, after := ">" + content + "</" + name + ">", name + ">" + more;
    var tail := end + more;
    TagThen(name, list, end, more);
    hide Tag, ReadTag, DecodedList, Decoded, SplitOnce, Named, IsName;
    assert tail == ">" + (content + "</" + after);
    assert tail[0] == '>' && tail[1..] == content + "</" + after;
    TagReadsBack(name, list, tail);
    SplitOnceAt(content, "</", after);
    assert name + ">" <= after && after[|name| + 1..] == more;
    assert ">" <= tail && !("/>" <= tail);
  }

  /** A value that escaping leaves alone, or that decodes to something known. */
  predicate Means(p: (string, string), q: (string, string)) { p.0 == q.0 && '"' !in p.1 && Decoded(p.1) == q.1 }

  lemma ListMeans(list: seq<(string, string)>, plain: seq<(string, string)>)
    requires |list| == |plain| && forall i :: 0 <= i < |list| ==> '=' !in list[i].0 && Means(list[i], plain[i])
    ensures Named(list) && DecodedList(list) == plain
  {
    hide Decoded;
  }

  lemma NumberMeans(name: string, n: int)
    ensures Means((name, Shown(n)), (name, Shown(n)))
  {
    ShownReads(n);
    hide Shown, Decoded;
  }

  lemma TextMeans(name: string, text: string)
    ensures Means((name, Escaped(text)), (name, text))
  {
    DecodingUndoesEscaping(text);
    EscapedHasNoQuote(text);
    hide Escaped, Decoded;
  }

  lemma LiteralMeans(name: string, text: string)
    requires '&' !in text && '"' !in text
    ensures Means((name, text), (name, text))
  {
    NothingToDecode(text);
    hide Decoded;
  }

  lemma RectReads(x: int, y: int, w: int, h: int, k: string, more: string)
    ensures ReadElement(RectElement(x, y, w, h, Escaped(k)) + more) ==
      Some((Node("rect", [("x", Shown(x)), ("y", Shown(y)), ("width", Shown(w)), ("height", Shown(h)), ("rx", "10"), ("class", k)], ""), more))
  {
    hide ReadElement, Tag, Shown, Escaped, Means, DecodedList, Named;
    NumberMeans("x", x);
    NumberMeans("y", y);
    NumberMeans("width", w);
    NumberMeans("height", h);
    LiteralMeans("rx", "10");
    TextMeans("class", k);
    var list := [("x", Shown(x)), ("y", Shown(y)), ("width", Shown(w)), ("height", Shown(h)), ("rx", "10"), ("class", Escaped(k))];
    ListMeans(list, [("x", Shown(x)), ("y", Shown(y)), ("width", Shown(w)), ("height", Shown(h)), ("rx", "10"), ("class", k)]);
    EmptyElementReads("rect", list, more);
  }

  lemma LineReads(x1: int, y1: int, x2: int, y2: int, k: string, more: string)
    ensures ReadElement(LineElement(x1, y1, x2, y2, Escaped(k)) + more) ==
      Some((Node("line", [("x1", Shown(x1)), ("y1", Shown(y1)), ("x2", Shown(x2)), ("y2", Shown(y2)), ("class", k)], ""), more))
  {
    hide ReadElement, Tag, Shown, Escaped, Means, DecodedList, Named;
    NumberMeans("x1", x1);
    NumberMeans("y1", y1);
    NumberMeans("x2", x2);
    NumberMeans("y2", y2);
    TextMeans("class", k);
    var list := [("x1", Shown(x1)), ("y1", Shown(y1)), ("x2", Shown(x2)), ("y2", Shown(y2)), ("class", Escaped(k))];
    ListMeans(list, [("x1", Shown(x1)), ("y1", Shown(y1)), ("x2", Shown(x2)), ("y2", Shown(y2)), ("class", k)]);
    EmptyElementReads("line", list, more);
  }

  lemma TextReads(x: int, y: int, t: string, k: string, more: string)
    ensures ReadElement(TextElement(x, y, Escaped(t), Escaped(k)) + more) ==
      Some((Node("text", [("x", Shown(x)), ("y", Shown(y)), ("class", k)], t), more))
  {
    hide ReadElement, Tag, Shown, Escaped, Decoded, Means, DecodedList, Named;
    var list, plain := [("x", Shown(x)), ("y", Shown(y)), ("class", Escaped(k))], [("x", Shown(x)), ("y", Shown(y)), ("class", k)];
    NumberMeans("x", x);
    NumberMeans("y", y);
    TextMeans("class", k);
    ListMeans(list, plain);
    DecodingUndoesEscaping(t);
    EscapedHasNoQuote(t);
    assert IsName("text") by { TextIsName(); }
    hide IsName;
    TextEnd(Escaped(t));
    TextElementReads("text", list, Escaped(t), more);
  }

  lemma TextIsName()
    ensures IsName("text")
  {
  }

  lemma TextEnd(t: string)
    ensures ">" + t + "</text>" == ">" + t + "</" + "text" + ">"
  {
    assert "</text>" == "</" + "text" + ">";
  }

  /** A reader of a drawn element finds what the call drew, and stops right after it. */
  lemma ElementReadsBack(c: Call, more: string)
    ensures ReadElement(Element(c) + more) == Some((NodeOf(c), more))
  {
    hide ReadElement, RectElement, TextElement, LineElement, Snap, Shown, Escaped;
    match c
    case Rect(x, y, w, h, k) => RectReads(Snap(x), Snap(y), Snap(w), Snap(h), k, more);
    case TextAt(x, y, t, k) => TextReads(Snap(x), Snap(y), t, k, more);
    case Line(x1, y1, x2, y2, k) => LineReads(Snap(x1), Snap(y1), Snap(x2), Snap(y2), k, more);
  }

  // ----- the whole document -----

  function NodesOf(calls: seq<Call>): seq<Node> {
    if calls == [] then [] else NodesOf(calls[..|calls| - 1]) + [NodeOf(calls[|calls| - 1])]
  }

  lemma ConcatLast(calls: seq<Call>)
    requires calls != []
    ensures var n := |calls| - 1;
      Concat(Elements(calls)) == Concat(Elements(calls[..n])) + Element(calls[n])
  {
    hide Element;
    var n := |calls| - 1;
    var all := Elements(calls);
    assert all[..|all| - 1] == Elements(calls[..n]);
  }

  lemma {:induction false} NodesReadBack(calls: seq<Call>, more: string)
    ensures ReadNodes(Concat(Elements(calls)) + more) == (NodesOf(calls) + ReadNodes(more).0, ReadNodes(more).1)
  {
    hide Elements, Element, NodeOf, ReadElement;
    if calls == [] {
      assert Elements(calls) == [] by { NoElements(); }
      assert Concat(Elements(calls)) + more == more;
      assert [] + ReadNodes(more).0 == ReadNodes(more).0;
    } else {
      var n := |calls| - 1;
      ConcatLast(calls);
      hide Concat;
      var init, last := Concat(Elements(calls[..n])), Element(calls[n]);
      NodesReadBack(calls[..n], last + more);
      NextNode(calls[n], more);
      assert init + last + more == init + (last + more);
      hide ReadNodes;
      var nodes, rest := NodesOf(calls[..n]), ReadNodes(more).0;
      assert nodes + ([NodeOf(calls[n])] + rest) == nodes + [NodeOf(calls[n])] + rest;
    }
  }

  lemma NoElements()
    ensures Elements([]) == []
  {
  }

  lemma NextNode(c: Call, more: string)
    ensures ReadNodes(Element(c) + more) == ([NodeOf(c)] + ReadNodes(more).0, ReadNodes(more).1)
  {
    hide ReadElement, Element, NodeOf;
    ElementReadsBack(c, more);
  }

  lemma ReadStops(name: string)
    requires IsName(name) && name != ""
    ensures ReadNodes("</" + name + ">") == ([], "</" + name + ">")
  {
    var s := "</" + name + ">";
    var rest := s[1..];
    assert rest[0] == '/' && rest[1] == name[0];
    assert NameLength(rest) == 0 && ReadAttributes(rest) == ([], rest);
    assert s[1..1] == "";
    assert ReadTag(s) == Some(("", [], rest));
    assert !("/>" <= rest) && !(">" <= rest);
  }

  lemma TitleReads(name: string, text: string, more: string)
    requires IsName(name)
    ensures ReadNodes("<" + name + ">" + Escaped(text) + "</" + name + ">" + more)
         == ([Node(name, [], text)] + ReadNodes(more).0, ReadNodes(more).1)
  {
    DecodingUndoesEscaping(text);
    EscapedHasNoQuote(text);
    hide Escaped, Decoded, ReadElement;
    var tail := ">" + Escaped(text) + "</" + name + ">";
    TextElementReads(name, [], Escaped(text), more);
    assert Attributes([]) == "" && DecodedList([]) == [];
    assert Tag(name, [], tail) + more == "<" + name + ">" + Escaped(text) + "</" + name + ">" + more;
  }

  /** A reader of a rendered document finds the role, the label, the snapped size, the title, the description and
      every element drawn, in order and with nothing between or after them. */
  lemma DocumentReadsBack(width: int, height: int, calls: seq<Call>, title: string, desc: string)
    ensures ReadDocument(Rendered(width, height, calls, title, desc)) ==
      Some(Drawing("svg",
                   [("role", "img"), ("aria-label", title), ("width", Shown(Snap(width))), ("height", Shown(Snap(height))),
                    ("xmlns", "http://www.w3.org/2000/svg")],
                   [Node("title", [], title), Node("desc", [], desc)] + NodesOf(calls)))
  {
    hide Snap, Shown, Escaped, Concat, Elements, NodesOf, ReadTag, ReadNodes, DecodedList, Tag;
    var body := Concat(Elements(calls));
    var list := [("role", "img"), ("aria-label", Escaped(title)), ("width", Shown(Snap(width))), ("height", Shown(Snap(height))),
                 ("xmlns", "http://www.w3.org/2000/svg")];
    var inner := "<title>" + Escaped(title) + "</title><desc>" + Escaped(desc) + "</desc>" + body + "</svg>";
    var tail := "><title>" + Escaped(title) + "</title><desc>" + Escaped(desc) + "</desc>" + body + "</svg>";
    assert tail == ">" + inner by { OneMore(Escaped(title), Escaped(desc), body); }
    assert tail[1..] == inner && ">" <= tail;
    HeadMeans(width, height, title);
    TagReadsBack("svg", list, tail);
    InnerReadsBack(calls, title, desc);
    assert "</" + "svg" + ">" == "</svg>";
  }

  lemma OneMore(t: string, d: string, body: string)
    ensures "><title>" + t + "</title><desc>" + d + "</desc>" + body + "</svg>"
         == ">" + ("<title>" + t + "</title><desc>" + d + "</desc>" + body + "</svg>")
  {
  }

  lemma NamespaceMeans()
    ensures Means(("xmlns", "http://www.w3.org/2000/svg"), ("xmlns", "http://www.w3.org/2000/svg"))
  {
    LiteralMeans("xmlns", "http://www.w3.org/2000/svg");
    hide Means;
  }

  lemma HeadMeans(width: int, height: int, title: string)
    ensures var list := [("role", "img"), ("aria-label", Escaped(title)), ("width", Shown(Snap(width))), ("height", Shown(Snap(height))),
                         ("xmlns", "http://www.w3.org/2000/svg")];
      Named(list) &&
      DecodedList(list) == [("role", "img"), ("aria-label", title), ("width", Shown(Snap(width))), ("height", Shown(Snap(height))),
                            ("xmlns", "http://www.w3.org/2000/svg")]
  {
    hide Snap, Shown, Escaped, Means, DecodedList, Named;
    LiteralMeans("role", "img");
    TextMeans("aria-label", title);
    NumberMeans("width", Snap(width));
    NumberMeans("height", Snap(height));
    NamespaceMeans();
    ListMeans([("role", "img"), ("aria-label", Escaped(title)), ("width", Shown(Snap(width))), ("height", Shown(Snap(height))),
               ("xmlns", "http://www.w3.org/2000/svg")],
              [("role", "img"), ("aria-label", title), ("width", Shown(Snap(width))), ("height", Shown(Snap(height))),
               ("xmlns", "http://www.w3.org/2000/svg")]);
  }

  lemma InnerReadsBack(calls: seq<Call>, title: string, desc: string)
    ensures ReadNodes("<title>" + Escaped(title) + "</title><desc>" + Escaped(desc) + "</desc>" + Concat(Elements(calls)) + "</svg>")
         == ([Node("title", [], title), Node("desc", [], desc)] + NodesOf(calls), "</svg>")
  {
    hide ReadNodes, Escaped, Concat, Elements, NodesOf;
    var body := Concat(Elements(calls)) + "</svg>";
    var rest := "<" + "desc" + ">" + Escaped(desc) + "</" + "desc" + ">" + body;
    TitleReads("title", title, rest);
    TitleReads("desc", desc, body);
    NodesReadBack(calls, "</svg>");
    ReadStops("svg");
    assert "</" + "svg" + ">" == "</svg>";
    InnerGroups(Escaped(title), Escaped(desc), Concat(Elements(calls)));
    assert NodesOf(calls) + [] == NodesOf(calls);
    assert [Node("title", [], title)] + ([Node("desc", [], desc)] + NodesOf(calls))
        == [Node("title", [], title), Node("desc", [], desc)] + NodesOf(calls);
  }

  lemma InnerGroups(t: string, d: string, body: string)
    ensures "<title>" + t + "</title><desc>" + d + "</desc>" + body + "</svg>"
         == "<" + "title" + ">" + t + "</" + "title" + ">" + ("<" + "desc" + ">" + d + "</" + "desc" + ">" + (body + "</svg>"))
  {
  }

  // ----- the geometry a reader finds -----

  /** An attribute's value read as an integer: an optional minus sign and a numeral. */
  function ReadInt(s: string): Option<int> {
    var digits := if s != "" && s[0] == '-' then s[1..] else s;
    if !PortSpecLaws.Numeral(digits) then None
    else
      var size: int := PortSpecLaws.Spelled(digits);
      Some(if digits == s then size else -size)
  }

  lemma NoMinus(s: string)
    requires PortSpecLaws.Numeral(s)
    ensures s[0] != '-'
  {
    assert s[0] in PortSpecLaws.DECIMALS;
  }

  lemma NumeralReads(s: string)
    requires PortSpecLaws.Numeral(s)
    ensures ReadInt(s) == Some(PortSpecLaws.Spelled(s))
    ensures ReadInt("-" + s) == Some(0 - PortSpecLaws.Spelled(s))
  {
    hide PortSpecLaws.Spelled, PortSpecLaws.Numeral;
    NoMinus(s);
    var negative := "-" + s;
    assert negative[0] == '-' && negative[1..] == s && negative != s;
  }

  /** A number that is written is read as itself. */
  lemma ShownReadsBack(n: int)
    ensures ReadInt(Shown(n)) == Some(n)
  {
    hide ReadInt, PortSpecLaws.Spelled, PortSpecLaws.Numeral, Decimal;
    var size := if n < 0 then -n else n;
    PortSpecLaws.DecimalSpells(size);
    NumeralReads(Decimal(size));
  }

  /** The coordinates and lengths passed to a call, under the names they are drawn with. */
  function Geometry(c: Call): seq<(string, int)> {
    match c
    case Rect(x, y, w, h, _) => [("x", x), ("y", y), ("width", w), ("height", h)]
    case TextAt(x, y, _, _) => [("x", x), ("y", y)]
    case Line(x1, y1, x2, y2, _) => [("x1", x1), ("y1", y1), ("x2", x2), ("y2", y2)]
  }

  /** The attribute reads as the value snapped: a multiple of four, and less than four from it. */
  predicate ShowsSnapped(attribute: (string, string), name: string, value: int) {
    && attribute.0 == name
    && var n := ReadInt(attribute.1);
       n.Some? && n.value % 4 == 0 && n.value == Snap(value) && -4 < value - n.value < 4
  }

  /** The node has the call's tag, its geometry snapped, its class last, and its content; a rectangle's corners are
      rounded by ten. */
  predicate Draws(node: Node, c: Call) {
    var g, n := Geometry(c), |node.attributes|;
    && node.tag == (match c case Rect(_, _, _, _, _) => "rect" case TextAt(_, _, _, _) => "text" case Line(_, _, _, _, _) => "line")
    && n == |g| + (if c.Rect? then 2 else 1)
    && (forall k :: 0 <= k < |g| ==> ShowsSnapped(node.attributes[k], g[k].0, g[k].1))
    && (c.Rect? ==> node.attributes[4].0 == "rx" && ReadInt(node.attributes[4].1) == Some(10))
    && node.attributes[n - 1] == ("class", c.class_)
    && node.content == if c.TextAt? then c.content else ""
  }

  lemma SnappedShows(name: string, value: int)
    ensures ShowsSnapped((name, Shown(Snap(value))), name, value)
  {
    ShownReadsBack(Snap(value));
    SnapIsNearest(value, 0);
    hide Snap, ReadInt, Shown;
  }

  lemma TenReads()
    ensures ReadInt("10") == Some(10)
  {
    ShownReadsBack(10);
    assert Decimal(1) == "1" && Decimal(10) == "1" + "0";
  }

  lemma NodeDraws(c: Call)
    ensures Draws(NodeOf(c), c)
  {
    hide ShowsSnapped, ReadInt, Snap, Shown;
    TenReads();
    match c
    case Rect(x, y, w, h, _) =>
      SnappedShows("x", x);
      SnappedShows("y", y);
      SnappedShows("width", w);
      SnappedShows("height", h);
    case TextAt(x, y, _, _) =>
      SnappedShows("x", x);
      SnappedShows("y", y);
    case Line(x1, y1, x2, y2, _) =>
      SnappedShows("x1", x1);
      SnappedShows("y1", y1);
      SnappedShows("x2", x2);
      SnappedShows("y2", y2);
  }

  lemma {:induction false} NodesDraw(calls: seq<Call>)
    ensures |NodesOf(calls)| == |calls| && forall k :: 0 <= k < |calls| ==> Draws(NodesOf(calls)[k], calls[k])
  {
    hide NodeOf, Draws;
    if calls != [] {
      NodesDraw(calls[..|calls| - 1]);
      NodeDraws(calls[|calls| - 1]);
    }
  }

  /** A reader of a rendered document finds numbers on the grid: the size as asked for, snapped, and for each call, in
      order, a node that draws it. */
  lemma GeometryReadsBack(width: int, height: int, calls: seq<Call>, title: string, desc: string)
    ensures var d := ReadDocument(Rendered(width, height, calls, title, desc));
      && d.Some? && |d.value.attributes| == 5 && |d.value.children| == |calls| + 2
      && ShowsSnapped(d.value.attributes[2], "width", width) && ShowsSnapped(d.value.attributes[3], "height", height)
      && forall k :: 0 <= k < |calls| ==> Draws(d.value.children[k + 2], calls[k])
  {
    hide Snap, Shown, Rendered, NodesOf, ReadDocument, Draws, ShowsSnapped;
    DocumentReadsBack(width, height, calls, title, desc);
    SnappedShows("width", width);
    SnappedShows("height", height);
    NodesDraw(calls);
  }
}
