/** The per-type rules of `HtmlConverter` in src/converters/html-converter.ts,
    apart from the recursion and the drawing. Where this file writes a rule
    exactly as src/convert.js does (lists, list items, links, hashtags,
    images, inline images, equations, code highlights, collapsibles, polls,
    layouts, page breaks), the model uses the rule of `ConvertJsRules`; the
    rules below are the ones the two files write differently. */
module HtmlConverterRules {
  import opened Js
  import opened Strings
  import opened HtmlUtils
  import opened Lexical
  import JsRules = ConvertJsRules

  // ---------------------------------------------------------------------------
  // Helpers

  /** `sanitizeStyle(v)` on whatever value reaches it: only a string has
      `replace`. */
  function SanitizeValue(v: Value): (r: Result<string>)
    ensures v.Str? <==> r.Ok?
    ensures v.Str? ==> r.value == SanitizeStyle(v.s) && IsSubsequence(r.value, v.s)
    ensures Truthy(v) && !v.Str? ==> r == Throw(NotAFunction("style.replace"))
  {
    match v
    case Str(s) => SanitizeStyleIsSubsequence(s); Ok(SanitizeStyle(s))
    case Undefined => Throw(ReadError("undefined", "replace"))
    case Null => Throw(ReadError("null", "replace"))
    case _ => Throw(NotAFunction("style.replace"))
  }

  /** The style holds none of the four patterns `sanitizeStyle` removes. */
  predicate Clean(s: string)
  {
    !ContainsIgnoringCase(s, "javascript:") && !ContainsIgnoringCase(s, "expression(")
    && !ContainsIgnoringCase(s, "url(") && !ContainsIgnoringCase(s, "@import")
  }

  /** `if (node.direction && node.direction !== 'ltr') attributes.dir = node.direction`. */
  function DirAttrs(props: map<string, Value>): Attributes
  {
    var direction := Get(props, "direction");
    JsRules.When(Truthy(direction) && direction != Str("ltr"), "dir", direction)
  }

  /** The direction attribute is written exactly for a direction other than
      `ltr`. */
  lemma DirAttributeText(props: map<string, Value>)
    ensures var direction := Get(props, "direction");
      BuildAttributes(DirAttrs(props))
        == if Truthy(direction) && direction != Str("ltr") then " " + AttributePair("dir", direction) else ""
  {
    var attrs := DirAttrs(props);
    BuildAttributesIsList(attrs);
    if attrs != [] {
      assert attrs[1..] == [];
    }
  }

  // ---------------------------------------------------------------------------
  // Text

  /** `node.style ? sanitizeStyle(node.style) : undefined`. */
  function SanitizedStyle(style: Value): (r: Result<Value>)
    ensures !Truthy(style) ==> r == Ok(Undefined)
    ensures Truthy(style) && style.Str? ==> r == Ok(Str(SanitizeStyle(style.s)))
    ensures Truthy(style) && !style.Str? ==> r.Throw?
  {
    if Truthy(style) then
      var s :- SanitizeValue(style);
      Ok(Str(s))
    else Ok(Undefined)
  }

  /** `convertText`: nothing for a falsy text; otherwise the style is
      sanitised first, then the text is formatted with `format || 0`. */
  function TextRule(props: map<string, Value>): (r: Result<string>)
    ensures !Truthy(Get(props, "text")) ==> r == Ok("")
    ensures Truthy(Get(props, "text")) ==>
      (r.Ok? <==> Get(props, "text").Str? && (!Truthy(Get(props, "style")) || Get(props, "style").Str?))
  {
    var text := Get(props, "text");
    if !Truthy(text) then Ok("")
    else
      var format := BitwiseInt(Or(Get(props, "format"), Num(0)));
      var style :- SanitizedStyle(Get(props, "style"));
      var escaped :- JsRules.EscapeValue(text);
      Ok(ApplyTextFormatting(text.s, format, style))
  }

  /** A text whose style is absent or a string holding none of the
      dangerous patterns converts exactly as in src/convert.js; a string
      style is otherwise replaced by its sanitised form. */
  lemma TextAgreesWithJs(props: map<string, Value>)
    requires var style := Get(props, "style"); !Truthy(style) || (style.Str? && Clean(style.s))
    ensures TextRule(props) == JsRules.TextRule(props)
  {
    var style := Get(props, "style");
    if Truthy(style) {
      SanitizeStyleClean(style.s);
    }
  }

  /** The style a converted text carries is its sanitised style, which only
      deletes characters from it. */
  lemma TextStyleSanitized(props: map<string, Value>)
    requires Get(props, "text").Str? && Get(props, "text").s != ""
    requires Get(props, "style").Str?
    ensures var style := SanitizeStyle(Get(props, "style").s);
      var format := BitwiseInt(Or(Get(props, "format"), Num(0)));
      TextRule(props) == Ok(ApplyTextFormatting(Get(props, "text").s, format, Str(style)))
      && IsSubsequence(style, Get(props, "style").s)
  {
    SanitizeStyleIsSubsequence(Get(props, "style").s);
  }

  // ---------------------------------------------------------------------------
  // Headings and quotes

  /** `convertHeading`: `node.tag || 'h1'`, with the direction attribute. */
  function HeadingRule(props: map<string, Value>, content: string): string
  {
    WrapWithTag(ToText(Or(Get(props, "tag"), Str("h1"))), content, DirAttrs(props))
  }

  /** `convertQuote`. */
  function QuoteRule(props: map<string, Value>, content: string): string
  {
    WrapWithTag("blockquote", content, DirAttrs(props))
  }

  // ---------------------------------------------------------------------------
  // Tables

  /** One `<col>` of the column group. */
  function Col(width: Value): string
  {
    SelfClosingTag("col", [("style", Str("width: " + ToText(width) + "px"))])
  }

  /** `colWidths.map(width => createSelfClosingTag('col', …)).join('')`. */
  function ColGroup(widths: seq<Value>): string
  {
    MapConcat(widths, Col)
  }

  /** One `<col>` per width, in order: the group of a concatenation is the
      concatenation of the groups, and a single width gives its own `<col>`. */
  lemma ColGroupAppend(a: seq<Value>, b: seq<Value>)
    ensures ColGroup(a + b) == ColGroup(a) + ColGroup(b)
    ensures forall w :: ColGroup([w]) == Col(w)
  {
    MapConcatAppend(a, b, Col);
    forall w ensures ColGroup([w]) == Col(w) {
      MapConcatSingle(w, Col);
    }
  }

  /** `convertTable`: a non-empty `colWidths` puts a column group before the rows. */
  function TableRule(widths: seq<Value>, content: string): string
  {
    if |widths| > 0 then WrapWithTag("table", WrapWithTag("colgroup", ColGroup(widths), []) + content, [])
    else WrapWithTag("table", content, [])
  }

  /** `convertTableRow`: a `height: Npx` style when `height` is truthy. */
  function TableRowRule(props: map<string, Value>, content: string): string
  {
    var height := Get(props, "height");
    WrapWithTag("tr", content, JsRules.When(Truthy(height), "style", Str("height: " + ToText(height) + "px")))
  }

  /** `convertTableCell`: as in src/convert.js, but the background colour is
      sanitised, which throws for a truthy colour that is not a string. */
  function TableCellRule(props: map<string, Value>, content: string): (r: Result<string>)
    ensures r.Ok? <==> !Truthy(Get(props, "backgroundColor")) || Get(props, "backgroundColor").Str?
  {
    var tag := if Get(props, "headerState") == Num(1) then "th" else "td";
    var colSpan := Get(props, "colSpan");
    var rowSpan := Get(props, "rowSpan");
    var background := Get(props, "backgroundColor");
    var spans := JsRules.When(Truthy(colSpan) && GreaterThan(colSpan, 1), "colspan", colSpan)
      + JsRules.When(Truthy(rowSpan) && GreaterThan(rowSpan, 1), "rowspan", rowSpan);
    if Truthy(background) then
      var color :- SanitizeValue(background);
      Ok(WrapWithTag(tag, content, spans + [("style", Str("background-color: " + color))]))
    else Ok(WrapWithTag(tag, content, spans))
  }

  /** A cell without background, or with a clean string background, is the
      cell src/convert.js writes. */
  lemma TableCellAgreesWithJs(props: map<string, Value>, content: string)
    requires var bg := Get(props, "backgroundColor"); !Truthy(bg) || (bg.Str? && Clean(bg.s))
    ensures TableCellRule(props, content) == Ok(JsRules.TableCellRule(props, content))
  {
    var background := Get(props, "backgroundColor");
    var tag := if Get(props, "headerState") == Num(1) then "th" else "td";
    var colSpan := Get(props, "colSpan");
    var rowSpan := Get(props, "rowSpan");
    var spans := JsRules.When(Truthy(colSpan) && GreaterThan(colSpan, 1), "colspan", colSpan)
      + JsRules.When(Truthy(rowSpan) && GreaterThan(rowSpan, 1), "rowspan", rowSpan);
    if Truthy(background) {
      SanitizeStyleClean(background.s);
      assert SanitizeValue(background) == Ok(background.s);
      assert ToText(background) == background.s;
      assert JsRules.When(Truthy(background), "style", Str("background-color: " + ToText(background)))
        == [("style", Str("background-color: " + background.s))];
    } else {
      assert JsRules.When(Truthy(background), "style", Str("background-color: " + ToText(background))) == [];
      assert spans + [] == spans;
    }
  }

  // ---------------------------------------------------------------------------
  // Code blocks

  /** The lines of a code block: the content split at every newline, with
      nothing trimmed, so joining them gives the content back. */
  function CodeLines(content: string): (lines: seq<string>)
    ensures |lines| >= 1
    ensures Join(lines, "\n") == content
  {
    SplitJoin(content, "\n");
    Split(content, "\n")
  }

  /** The number of newlines in `s`. */
  function Newlines(s: string): nat
  {
    if s == [] then 0 else (if s[0] == '\n' then 1 else 0) + Newlines(s[1..])
  }

  /** There is one line more than there are newlines: a trailing newline
      gives a last, empty line. */
  lemma {:induction false} CodeLineCount(s: string)
    ensures |Split(s, "\n")| == Newlines(s) + 1
    decreases |s|
  {
    if s != [] {
      CodeLineCount(s[1..]);
      if s[0] == '\n' {
        assert StartsAt(s, "\n", 0);
        assert s[|"\n"|..] == s[1..];
      } else {
        assert !StartsAt(s, "\n", 0);
      }
    }
  }

  /** Line `index` of the block: its number, padded to width 3, then the line. */
  function NumberedLine(index: nat, line: string): string
  {
    "<span class=\"line-number\">" + PadStart(NatText(index + 1), 3) + "</span><span class=\"line-content\">"
    + line + "</span>"
  }

  /** `lines.map((line, index) => …)`. */
  function NumberedLines(lines: seq<string>): (r: seq<string>)
    ensures |r| == |lines|
    ensures forall i :: 0 <= i < |r| ==> r[i] == NumberedLine(i, lines[i])
  {
    seq(|lines|, i requires 0 <= i < |lines| => NumberedLine(i, lines[i]))
  }

  /** `convertCode` on the converted children: numbered lines joined by
      newlines, in a `code` element inside a `pre`, both naming
      `node.language || 'text'`. */
  function CodeRule(props: map<string, Value>, content: string): string
  {
    var language := Or(Get(props, "language"), Str("text"));
    var numbered := Join(NumberedLines(CodeLines(content)), "\n");
    WrapWithTag("pre", WrapWithTag("code", numbered, [("class", Str("language-" + ToText(language)))]),
                [("data-language", language)])
  }

  /** The line label is the line's number, right-aligned in three columns
      for the first 999 lines. */
  lemma LineLabel(index: nat)
    requires index < 999
    ensures var shown := PadStart(NatText(index + 1), 3);
      |shown| == 3 && shown[3 - |NatText(index + 1)|..] == NatText(index + 1)
  {
    var n := index + 1;
    if n >= 100 {
      assert NatText(n) == NatText(n / 10) + [DigitChar(n % 10)];
      assert NatText(n / 10) == NatText(n / 100) + [DigitChar((n / 10) % 10)];
    } else if n >= 10 {
      assert NatText(n) == NatText(n / 10) + [DigitChar(n % 10)];
    }
  }

  // ---------------------------------------------------------------------------
  // The rules, by kind

  /** The rules that do not convert children (the drawing takes an id and
      is in `HtmlConverterDrawing`). */
  function Leaf(k: Kind, props: map<string, Value>, node: Node): Result<string>
    requires node.Obj? && !k.Excalidraw?
  {
    match k
    case Text => TextRule(props)
    case LineBreak => Ok("<br/>")
    case Hashtag => JsRules.HashtagRule(props)
    case InlineImage => Ok(JsRules.InlineImageRule(props))
    case Equation => JsRules.EquationRule(props)
    case CodeHighlight => JsRules.CodeHighlightRule(props)
    case Poll => JsRules.PollRule(props, node)
    case PageBreak => Ok(JsRules.PageBreak)
    case _ => Ok("")
  }

  /** The rules that wrap the converted children (`root` and unknown types
      return them as they are). */
  function Wrap(k: Kind, props: map<string, Value>, node: Node, content: string): (r: Result<string>)
    requires node.Obj?
    ensures !k.TableCell? ==> r.Ok?
  {
    match k
    case Paragraph => Ok(WrapWithTag("p", content, JsRules.ParagraphAttrs(props)))
    case Heading => Ok(HeadingRule(props, content))
    case Quote => Ok(QuoteRule(props, content))
    case Table => Ok(TableRule(node.colWidths, content))
    case TableRow => Ok(TableRowRule(props, content))
    case TableCell => TableCellRule(props, content)
    case _ => Ok(JsRules.Wrap(k, props, content))
  }
}
