/** The simplified converter of src/browser-lib.js: a recursive switch over
    `node.type` that builds the markup from `children.map(...).join('')`,
    with no escaping, no error list and no drawing support, and a `convert`
    that puts the markup after the stylesheet the constructor stored. */
module BrowserLib {
  import opened Js
  import opened Strings
  import opened HtmlUtils
  import opened Lexical

  // ---------------------------------------------------------------------------
  // parseInt

  predicate IsHexDigit(c: char)
  {
    IsDigit(c) || 'a' <= c <= 'f' || 'A' <= c <= 'F'
  }

  function HexDigitValue(c: char): (d: nat)
    requires IsHexDigit(c)
    ensures d < 16
  {
    if IsDigit(c) then DigitValue(c)
    else if 'a' <= c <= 'f' then c as int - 'a' as int + 10
    else c as int - 'A' as int + 10
  }

  /** The longest prefix of `s` made of digits of the radix (16 when `hex`,
      else 10). */
  function DigitRun(s: string, hex: bool): (r: string)
    ensures |r| <= |s| && r == s[..|r|]
    ensures forall i :: 0 <= i < |r| ==> if hex then IsHexDigit(r[i]) else IsDigit(r[i])
    ensures |r| < |s| ==> !(if hex then IsHexDigit(s[|r|]) else IsDigit(s[|r|]))
  {
    if s != [] && (if hex then IsHexDigit(s[0]) else IsDigit(s[0])) then
      var rest := DigitRun(s[1..], hex);
      assert [s[0]] + rest == s[..|rest| + 1];
      [s[0]] + rest
    else ""
  }

  function HexValue(s: string): nat
    requires forall i :: 0 <= i < |s| ==> IsHexDigit(s[i])
  {
    if s == [] then 0 else 16 * HexValue(s[..|s| - 1]) + HexDigitValue(s[|s| - 1])
  }

  /** `parseInt(s)` without a radix: leading whitespace skipped, an optional
      sign, a `0x` or `0X` prefix switching to radix 16, then the longest run
      of digits; NaN when the run is empty. */
  function ParseInt(s: string): (r: Number)
    ensures r.NaN? || r.Finite?
  {
    ParseSigned(TrimStart(s))
  }

  /** The optional sign. */
  function ParseSigned(t: string): (r: Number)
    ensures r.NaN? || r.Finite?
  {
    if t != [] && t[0] == '-' then
      var v := ParseUnsigned(t[1..]);
      if v.Finite? then Finite(-v.i) else NaN
    else if t != [] && t[0] == '+' then ParseUnsigned(t[1..])
    else ParseUnsigned(t)
  }

  /** The radix prefix and the digits. */
  function ParseUnsigned(u: string): (r: Number)
    ensures r.NaN? || r.Finite?
  {
    if |u| >= 2 && u[0] == '0' && (u[1] == 'x' || u[1] == 'X') then
      var digits := DigitRun(u[2..], true);
      if digits == [] then NaN else Finite(HexValue(digits))
    else
      var digits := DigitRun(u, false);
      if digits == [] then NaN else Finite(DigitsValue(digits))
  }

  lemma {:induction false} DigitRunOfDigits(s: string)
    requires forall i :: 0 <= i < |s| ==> IsDigit(s[i])
    ensures DigitRun(s, false) == s
    decreases |s|
  {
    if s != [] {
      DigitRunOfDigits(s[1..]);
    }
  }

  /** A text that starts with a decimal digit and has no `x` after it is
      read in radix 10 from its first character. */
  lemma ParseIntDecimal(s: string)
    requires s != [] && IsDigit(s[0]) && (|s| >= 2 ==> s[1] != 'x' && s[1] != 'X')
    ensures var d := DigitRun(s, false); d != [] && ParseInt(s) == Finite(DigitsValue(d))
  {
    TrimStartAtDigit(s);
    assert ParseSigned(s) == ParseUnsigned(s) by { assert s[0] != '-' && s[0] != '+'; }
    UnsignedDecimal(s);
  }

  lemma TrimStartAtDigit(s: string)
    requires s != [] && IsDigit(s[0])
    ensures TrimStart(s) == s
  {
    assert !IsSpace(s[0]);
  }

  lemma UnsignedDecimal(u: string)
    requires u != [] && IsDigit(u[0]) && (|u| >= 2 ==> u[1] != 'x' && u[1] != 'X')
    ensures var d := DigitRun(u, false); d != [] && ParseUnsigned(u) == Finite(DigitsValue(d))
  {
    assert !(|u| >= 2 && u[0] == '0' && (u[1] == 'x' || u[1] == 'X'));
    assert DigitRun(u, false) != [];
  }

  /** `parseInt` reads back the decimal text of a natural number. */
  lemma ParseIntNatText(n: nat)
    ensures ParseInt(NatText(n)) == Finite(n)
  {
    var s := NatText(n);
    assert |s| >= 2 ==> IsDigit(s[1]);
    ParseIntDecimal(s);
    DigitRunOfDigits(s);
    NatTextRoundTrip(n);
  }

  // ---------------------------------------------------------------------------
  // Node properties

  /** `s.replace('h', '')`: the first `h` removed. */
  function RemoveFirstH(s: string): (r: string)
    ensures IndexOf(s, "h", 0) == -1 ==> r == s
    ensures IndexOf(s, "h", 0) != -1 ==> |r| == |s| - 1
  {
    var k := IndexOf(s, "h", 0);
    if k == -1 then s else s[..k] + s[k + 1..]
  }

  /** `Math.min(Math.max(node.tag ? parseInt(node.tag.replace('h', '')) : 1, 1), 6)`;
      a truthy tag that is not a string has no `replace`. */
  function HeadingLevel(tag: Value): Result<Number>
  {
    if !Truthy(tag) then Ok(Min(Max(Finite(1), Finite(1)), Finite(6)))
    else if !tag.Str? then Throw(NotAFunction("node.tag.replace"))
    else Ok(Min(Max(ParseInt(RemoveFirstH(tag.s)), Finite(1)), Finite(6)))
  }

  /** The level is 1 without a tag, clamped into 1..6 when the tag holds a
      number, NaN when it holds none, and an error only for a truthy tag that
      is not a string. */
  lemma HeadingLevelRange(tag: Value)
    ensures !Truthy(tag) ==> HeadingLevel(tag) == Ok(Finite(1))
    ensures HeadingLevel(tag).Throw? <==> Truthy(tag) && !tag.Str?
    ensures HeadingLevel(tag).Ok? ==>
      var l := HeadingLevel(tag).value;
      (l.Finite? && 1 <= l.i <= 6)
      || (l.NaN? && tag.Str? && ParseInt(RemoveFirstH(tag.s)).NaN?)
  {
  }

  /** The tags `h1` to `h6` give their own level. */
  lemma HeadingLevelOfTag(d: nat)
    requires 1 <= d <= 6
    ensures HeadingLevel(Str("h" + NatText(d))) == Ok(Finite(d))
  {
    RemoveLeadingH(NatText(d));
    ParseIntNatText(d);
  }

  lemma RemoveLeadingH(t: string)
    ensures RemoveFirstH("h" + t) == t
  {
    var s := "h" + t;
    assert StartsAt(s, "h", 0);
    assert IndexOf(s, "h", 0) == 0;
    assert s[..0] + s[1..] == t;
  }

  /** `{ 1: 'left', 2: 'center', 3: 'right', 4: 'justify' }[node.format]`
      under `if (node.format)`: the key is the format's text, so the number
      1 and the string `"1"` both read `left`. */
  function Alignment(format: Value): (r: Option<string>)
    ensures r.Some? <==> Truthy(format) && ToText(format) in {"1", "2", "3", "4"}
  {
    if !Truthy(format) then None
    else
      var key := ToText(format);
      if key == "1" then Some("left")
      else if key == "2" then Some("center")
      else if key == "3" then Some("right")
      else if key == "4" then Some("justify")
      else None
  }

  /** The four wrap steps of a text node, innermost first: bit 1 strong,
      bit 2 em, bit 8 s, bit 4 u. */
  function BrowserTags(m: int): seq<string>
  {
    (if Bit(m, 0) then ["strong"] else []) + (if Bit(m, 1) then ["em"] else [])
    + (if Bit(m, 3) then ["s"] else []) + (if Bit(m, 2) then ["u"] else [])
  }

  /** The wrap steps in source order: strong, em, s, u. */
  function Wraps(strong: bool, em: bool, s: bool, u: bool, t: string): string
  {
    WrapIf(u, "u", WrapIf(s, "s", WrapIf(em, "em", WrapIf(strong, "strong", t))))
  }

  /** The wraps open the tags in reverse of the order they were applied and
      close them in that order. */
  lemma WrapsNesting(strong: bool, em: bool, s: bool, u: bool, t: string)
    ensures var tags := (if strong then ["strong"] else []) + (if em then ["em"] else [])
                        + (if s then ["s"] else []) + (if u then ["u"] else []);
      Wraps(strong, em, s, u, t) == OpenTags(tags) + t + CloseTags(tags)
  {
    var t1 := if strong then ["strong"] else [];
    var t2 := t1 + (if em then ["em"] else []);
    var t3 := t2 + (if s then ["s"] else []);
    NestOne(strong, "strong", t);
    NestStep(t1, em, "em", t);
    NestStep(t2, s, "s", t);
    NestStep(t3, u, "u", t);
    NestIsFlat(t3 + (if u then ["u"] else []), t);
  }

  /** A text node: `node.text || ''`, wrapped in source order when the
      format is truthy, then in a styled span when the style is truthy;
      nothing is escaped. */
  function TextHtml(text: Value, format: Value, style: Value): string
  {
    var m := if Truthy(format) then BitwiseInt(format) else 0;
    StyledWraps(ToText(Or(text, Str(""))), m, style)
  }

  /** The wraps for the format mask `m` around `t`, inside the styled span. */
  function StyledWraps(t: string, m: int, style: Value): string
  {
    Styled(style, Wraps(Bit(m, 0), Bit(m, 1), Bit(m, 3), Bit(m, 2), t))
  }

  /** `<span style="...">` around the markup when the style is truthy. */
  function Styled(style: Value, inner: string): string
  {
    if Truthy(style) then "<span style=\"" + ToText(style) + "\">" + inner + "</span>" else inner
  }

  /** The text is the innermost part, opened by strong, em, s, u in that
      order and closed in reverse, inside the span when there is a style. */
  lemma TextNesting(text: Value, format: Value, style: Value)
    ensures var t := ToText(Or(text, Str("")));
      var m := if Truthy(format) then BitwiseInt(format) else 0;
      var tags := BrowserTags(m);
      var inner := OpenTags(tags) + t + CloseTags(tags);
      TextHtml(text, format, style)
        == if Truthy(style) then "<span style=\"" + ToText(style) + "\">" + inner + "</span>" else inner
  {
    var m := if Truthy(format) then BitwiseInt(format) else 0;
    StyledNesting(ToText(Or(text, Str(""))), m, style);
  }

  lemma StyledNesting(t: string, m: int, style: Value)
    ensures var tags := BrowserTags(m);
      var inner := OpenTags(tags) + t + CloseTags(tags);
      StyledWraps(t, m, style) == Styled(style, inner)
  {
    WrapsNesting(Bit(m, 0), Bit(m, 1), Bit(m, 3), Bit(m, 2), t);
  }

  /** This converter reads bit 4 as underline and bit 8 as strikethrough,
      the other way round from `parseTextFormat`, and does not escape: a
      format of 4 on `<b>` gives `<u><b></u>`, where the format parser reads
      4 as strikethrough and not underline. */
  lemma SwappedBits()
    ensures TextHtml(Str("<b>"), Num(4), Undefined) == "<u><b></u>"
    ensures ParseTextFormat(4).strikethrough && !ParseTextFormat(4).underline
    ensures TextHtml(Str("<b>"), Num(8), Undefined) == "<s><b></s>"
    ensures ParseTextFormat(8).underline && !ParseTextFormat(8).strikethrough
  {
    assert BitwiseInt(Num(4)) == 4 && BitwiseInt(Num(8)) == 8;
    assert !Bit(4, 0) && !Bit(4, 1) && Bit(4, 2) && !Bit(4, 3);
    assert !Bit(8, 0) && !Bit(8, 1) && !Bit(8, 2) && Bit(8, 3);
    assert BuildAttributes([]) == "";
  }

  // ---------------------------------------------------------------------------
  // Node markup around the converted children

  const NoContent := "<p>No content to display</p>"

  function ParagraphHtml(format: Value, content: string): string
  {
    var a := Alignment(format);
    "<p" + (if a.Some? then " style=\"text-align: " + a.value + "\"" else "") + ">" + content + "</p>"
  }

  function HeadingHtml(level: Number, content: string): string
  {
    "<h" + NumberText(level) + ">" + content + "</h" + NumberText(level) + ">"
  }

  /** A code block: `node.language || 'text'` upper-cased in the header and
      as it is in the class; a truthy language that is not a string has no
      `toUpperCase`. */
  function CodeHtml(language: Value, content: string): Result<string>
  {
    var lang := Or(language, Str("text"));
    if !lang.Str? then Throw(NotAFunction("language.toUpperCase"))
    else
      Ok("\n            <div class=\"code-block\">\n              <div class=\"code-header\">" + ToUpper(lang.s)
         + "</div>\n              <div class=\"code-content\">\n                <pre><code class=\"language-" + lang.s
         + "\">" + content + "</code></pre>\n              </div>\n            </div>\n          ")
  }

  /** `node.listType === 'number' ? 'ol' : 'ul'`. */
  function ListTag(listType: Value): (tag: string)
    ensures tag == "ol" <==> listType == Str("number")
    ensures tag == "ol" || tag == "ul"
  {
    if listType == Str("number") then "ol" else "ul"
  }

  /** The checklist class exactly for `listType === 'check'`. */
  function ListClass(listType: Value): (cls: string)
    ensures cls != "" <==> listType == Str("check")
  {
    if listType == Str("check") then " class=\"checklist\"" else ""
  }

  /** A list: an ordered list exactly for numbered lists, the checklist
      class exactly for check lists. */
  function ListHtml(listType: Value, content: string): string
  {
    var tag := ListTag(listType);
    "<" + tag + ListClass(listType) + ">" + content + "</" + tag + ">"
  }

  /** A list item: a disabled checkbox exactly when `checked` is not
      `undefined`, ticked when it is truthy. */
  function ListItemHtml(checked: Value, content: string): (r: string)
    ensures checked == Undefined <==> r == "<li>" + content + "</li>"
    ensures checked != Undefined ==>
      r == "<li><input type=\"checkbox\" " + (if Truthy(checked) then "checked" else "") + " disabled> " + content + "</li>"
  {
    if checked != Undefined then
      "<li><input type=\"checkbox\" " + (if Truthy(checked) then "checked" else "") + " disabled> " + content + "</li>"
    else "<li>" + content + "</li>"
  }

  /** A link: `node.url || '#'`, always opened in a new tab. */
  function LinkHtml(url: Value, content: string): string
  {
    "<a href=\"" + ToText(Or(url, Str("#"))) + "\" target=\"_blank\" rel=\"noopener noreferrer\">" + content + "</a>"
  }

  // ---------------------------------------------------------------------------
  // convertNode

  /** The first `k` children converted and concatenated, or the first
      exception. */
  function MapChildren(n: Node, k: nat): Result<string>
    requires n.Obj? && n.children.Items? && k <= |n.children.items|
    decreases n, 0, k
  {
    if k == 0 then Ok("")
    else
      var head :- MapChildren(n, k - 1);
      var last :- ConvertNode(n.children.items[k - 1]);
      Ok(head + last)
  }

  /** `node.children ? node.children.map(...).join('') : ''`: a truthy
      `children` that is not an array has no `map`. */
  function Content(n: Node): Result<string>
    requires n.Obj?
    decreases n, 1, 0
  {
    match n.children
    case NoChildren => Ok("")
    case NotArray => Throw(NotAFunction("node.children.map"))
    case Items(items) => MapChildren(n, |items|)
  }

  /** `node.children && Array.isArray(node.children) ? ... : ''`, the test
      of the root and of unknown types: children that are not an array give
      nothing. */
  function ArrayContent(n: Node): Result<string>
    requires n.Obj?
    decreases n, 1, 0
  {
    if n.children.Items? then MapChildren(n, |n.children.items|) else Ok("")
  }

  /** `convertNode`: nothing for `null`, else the case of `node.type`. */
  function ConvertNode(n: Node): (r: Result<string>)
    ensures n.Null? ==> r == Ok("")
    decreases n, 2, 0
  {
    if n.Null? then Ok("")
    else
      var t, p := TypeOf(n), n.props;
      if t == Str("paragraph") then
        var c :- Content(n);
        Ok(ParagraphHtml(Get(p, "format"), c))
      else if t == Str("heading") then
        var level :- HeadingLevel(Get(p, "tag"));
        var c :- Content(n);
        Ok(HeadingHtml(level, c))
      else if t == Str("text") then Ok(TextHtml(Get(p, "text"), Get(p, "format"), Get(p, "style")))
      else if t == Str("linebreak") then Ok("<br/>")
      else if t == Str("code") then
        var c :- Content(n);
        CodeHtml(Get(p, "language"), c)
      else if t == Str("list") then
        var c :- Content(n);
        Ok(ListHtml(Get(p, "listType"), c))
      else if t == Str("listitem") then
        var c :- Content(n);
        Ok(ListItemHtml(Get(p, "checked"), c))
      else if t == Str("quote") then
        var c :- Content(n);
        Ok("<blockquote>" + c + "</blockquote>")
      else if t == Str("link") then
        var c :- Content(n);
        Ok(LinkHtml(Get(p, "url"), c))
      else ArrayContent(n)
  }

  /** The children fold is `children.map(convertNode).join('')`: the pieces
      in order, or the first exception. */
  lemma {:induction false} MapChildrenIsConcatMap(n: Node, k: nat)
    requires n.Obj? && n.children.Items? && k <= |n.children.items|
    ensures MapChildren(n, k) == ConcatMap(n.children.items[..k], ConvertNode)
    decreases k
  {
    var items := n.children.items;
    if k > 0 {
      MapChildrenIsConcatMap(n, k - 1);
      assert items[..k][..k - 1] == items[..k - 1];
    }
  }

  /** The known node types. */
  predicate IsKnownType(t: Value)
  {
    t in {Str("paragraph"), Str("heading"), Str("text"), Str("linebreak"), Str("code"),
          Str("list"), Str("listitem"), Str("quote"), Str("link")}
  }

  /** The root and every unknown type are their children and nothing more,
      and children that are not an array give nothing, with no exception. */
  lemma UnknownIsChildren(n: Node)
    requires n.Obj? && !IsKnownType(TypeOf(n))
    ensures n.children.Items? ==> ConvertNode(n) == ConcatMap(n.children.items, ConvertNode)
    ensures !n.children.Items? ==> ConvertNode(n) == Ok("")
  {
    if n.children.Items? {
      MapChildrenIsConcatMap(n, |n.children.items|);
      assert n.children.items[..|n.children.items|] == n.children.items;
    }
  }

  /** A known type other than text and line break calls `children.map`, so
      children that are not an array raise the `TypeError`, unless a heading
      tag has already raised one. */
  lemma ContainersNeedArrays(n: Node)
    requires n.Obj? && n.children.NotArray?
    requires IsKnownType(TypeOf(n)) && TypeOf(n) != Str("text") && TypeOf(n) != Str("linebreak")
    ensures ConvertNode(n).Throw?
    ensures ConvertNode(n).message == NotAFunction("node.children.map")
      || (TypeOf(n) == Str("heading") && ConvertNode(n).message == NotAFunction("node.tag.replace"))
  {
  }

  // ---------------------------------------------------------------------------
  // convertLexicalToHTML and convert

  /** `convertLexicalToHTML`: the placeholder paragraph when the data, its
      editor state or its root is missing, else the root converted. */
  function ConvertLexicalToHtml(doc: Document): (r: Result<string>)
    ensures doc.NoEditorState? || doc.root.None? || doc.root.value.Null? ==> r == Ok(NoContent)
  {
    if doc.NoEditorState? || doc.root.None? || doc.root.value.Null? then Ok(NoContent)
    else ConvertNode(doc.root.value)
  }

  /** The result of `convert`. */
  datatype Converted = Converted(html: string, css: string, htmlWithCSS: string)

  /** `convert(lexicalData)`: the markup, the stylesheet the constructor
      stored, and both together; an exception comes back prefixed with
      `Conversion failed: `. Options are not read. */
  function Convert(cssContent: string, doc: Document): (r: Result<Converted>)
    ensures r.Ok? <==> ConvertLexicalToHtml(doc).Ok?
    ensures r.Ok? ==> r.value.html == ConvertLexicalToHtml(doc).value && r.value.css == cssContent
    ensures r.Throw? ==> r.message == "Conversion failed: " + ConvertLexicalToHtml(doc).message
  {
    match ConvertLexicalToHtml(doc)
    case Throw(m) => Throw("Conversion failed: " + m)
    case Ok(html) =>
      Ok(Converted(html, cssContent,
        "<style>" + cssContent + "</style><div class=\"lexical-content\">" + html + "</div>"))
  }

  /** The combined markup is the stylesheet, then the markup inside the
      `lexical-content` box. */
  lemma ConvertCombines(cssContent: string, doc: Document)
    requires Convert(cssContent, doc).Ok?
    ensures var c := Convert(cssContent, doc).value;
      c.htmlWithCSS == "<style>" + c.css + "</style><div class=\"lexical-content\">" + c.html + "</div>"
  {
  }

  /** An empty document converts to the placeholder inside the box. */
  lemma EmptyDocument(cssContent: string)
    ensures Convert(cssContent, NoEditorState)
      == Ok(Converted(NoContent, cssContent,
              "<style>" + cssContent + "</style><div class=\"lexical-content\">" + NoContent + "</div>"))
  {
  }
}
