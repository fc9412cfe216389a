/** The per-type rules of `LexicalToHtmlConverter` in src/convert.js, apart
    from the recursion: how each node type turns its properties and its
    converted children into markup, how a paragraph's children are grouped
    at line breaks, and how a code block numbers its lines. */
module ConvertJsRules {
  import opened Js
  import opened Strings
  import opened HtmlUtils
  import opened Lexical
  import Scene = ConvertJsScene

  // ---------------------------------------------------------------------------
  // Helpers

  /** `escapeHtml(v)` on whatever value reaches it: only a string has
      `replace`. */
  function EscapeValue(v: Value): (r: Result<string>)
    ensures v.Str? <==> r.Ok?
    ensures v.Str? ==> r.value == EscapeHtml(v.s)
    ensures Truthy(v) && !v.Str? ==> r == Throw(NotAFunction("text.replace"))
  {
    match v
    case Str(s) => Ok(EscapeHtml(s))
    case Undefined => Throw(ReadError("undefined", "replace"))
    case Null => Throw(ReadError("null", "replace"))
    case _ => Throw(NotAFunction("text.replace"))
  }

  /** `if (c) attributes[key] = v`, in insertion order. */
  function When(c: bool, key: string, v: Value): Attributes
  {
    if c then [(key, v)] else []
  }

  // ---------------------------------------------------------------------------
  // Leaf rules: no children are converted

  /** `convertText`: nothing for a falsy text, else the formatted text with
      `format || 0` and `style || undefined`. */
  function TextRule(props: map<string, Value>): (r: Result<string>)
    ensures !Truthy(Get(props, "text")) ==> r == Ok("")
    ensures Truthy(Get(props, "text")) ==> (r.Ok? <==> Get(props, "text").Str?)
  {
    var text := Get(props, "text");
    if !Truthy(text) then Ok("")
    else
      var format := BitwiseInt(Or(Get(props, "format"), Num(0)));
      var style := Or(Get(props, "style"), Undefined);
      var escaped :- EscapeValue(text);
      Ok(ApplyTextFormatting(text.s, format, style))
  }

  /** `convertHashtag`. */
  function HashtagRule(props: map<string, Value>): Result<string>
  {
    var text :- EscapeValue(Or(Get(props, "text"), Str("")));
    Ok(WrapWithTag("span", text, [("class", Str("hashtag"))]))
  }

  /** `convertInlineImage`: a fixed inline style after `src` and `alt`. */
  function InlineImageRule(props: map<string, Value>): string
  {
    var width := Get(props, "width");
    var height := Get(props, "height");
    SelfClosingTag("img",
      [("src", Get(props, "src")), ("alt", Or(Get(props, "altText"), Str(""))),
       ("style", Str("display: inline-block; vertical-align: middle;"))]
      + When(Truthy(width), "width", width) + When(Truthy(height), "height", height))
  }

  /** `convertEquation`: a span when inline, a div otherwise. */
  function EquationRule(props: map<string, Value>): Result<string>
  {
    var equation :- EscapeValue(Or(Get(props, "equation"), Str("")));
    var tag := if Truthy(Get(props, "inline")) then "span" else "div";
    Ok(WrapWithTag(tag, equation, [("class", Str("equation"))]))
  }

  /** `convertCodeHighlight`. */
  function CodeHighlightRule(props: map<string, Value>): Result<string>
  {
    var text :- EscapeValue(Or(Get(props, "text"), Str("")));
    var kind := Get(props, "highlightType");
    Ok(WrapWithTag("span", text, When(Truthy(kind), "class", Str("highlight-" + ToText(kind)))))
  }

  /** Options paired with their indices, as `map((option, index) => …)` sees them. */
  function Indexed(options: seq<PollOption>): (r: seq<(nat, PollOption)>)
    ensures |r| == |options|
    ensures forall i :: 0 <= i < |r| ==> r[i] == (i, options[i])
  {
    seq(|options|, i requires 0 <= i < |options| => (i, options[i]))
  }

  /** One poll option: its escaped text, or `Option i+1`, and its vote count;
      reading `text` from a null option throws. */
  function PollItem(item: (nat, PollOption)): Result<string>
  {
    match item.1
    case NullOption => Throw(ReadError("null", "text"))
    case Choice(text, votes) =>
      (var shown :- EscapeValue(Or(text, Str("Option " + NatText(item.0 + 1))));
       Ok(WrapWithTag("li", shown + " (" + NatText(votes) + " votes)", [])))
  }

  /** `node.$ || node`: the poll data object, or the node's own fields. */
  function PollDataOf(props: map<string, Value>, node: Node): PollData
    requires node.Obj?
  {
    if node.dollar.Some? then node.dollar.value else PollData(Get(props, "question"), node.options)
  }

  /** `convertPoll`: the question as a heading, then the options as a list
      when there is any. */
  function PollRule(props: map<string, Value>, node: Node): Result<string>
    requires node.Obj?
  {
    var data := PollDataOf(props, node);
    var question :- EscapeValue(Or(data.question, Str("")));
    var heading := WrapWithTag("h4", question, []);
    if |data.options| > 0 then
      var items :- ConcatMap(Indexed(data.options), PollItem);
      Ok(WrapWithTag("div", heading + WrapWithTag("ul", items, []), [("class", Str("poll"))]))
    else
      Ok(WrapWithTag("div", heading, [("class", Str("poll"))]))
  }

  /** A poll converts exactly when its question is a string or falsy and
      every option is an object whose text is a string or falsy. */
  lemma PollRuleOk(props: map<string, Value>, node: Node)
    requires node.Obj?
    ensures var data := PollDataOf(props, node);
      PollRule(props, node).Ok? <==>
        (!Truthy(data.question) || data.question.Str?)
        && forall i :: 0 <= i < |data.options| ==>
             data.options[i].Choice? && (!Truthy(data.options[i].text) || data.options[i].text.Str?)
  {
    var data := PollDataOf(props, node);
    var xs := Indexed(data.options);
    ConcatMapOk(xs, PollItem);
    assert forall i :: 0 <= i < |xs| ==> (PollItem(xs[i]).Ok? <==>
      data.options[i].Choice? && (!Truthy(data.options[i].text) || data.options[i].text.Str?));
  }

  /** `convertPageBreak`. */
  const PageBreak := WrapWithTag("div", "", [("class", Str("page-break"))])

  /** The rules that do not convert children. */
  function Leaf(k: Kind, props: map<string, Value>, node: Node): Result<string>
    requires node.Obj?
  {
    match k
    case Text => TextRule(props)
    case LineBreak => Ok("<br/>")
    case Hashtag => HashtagRule(props)
    case InlineImage => Ok(InlineImageRule(props))
    case Equation => EquationRule(props)
    case CodeHighlight => CodeHighlightRule(props)
    case Poll => PollRule(props, node)
    case PageBreak => Ok(PageBreak)
    case Excalidraw => Ok(Scene.Render(node.data))
    case _ => Ok("")
  }

  /** The kinds `Leaf` handles. */
  predicate IsLeaf(k: Kind)
  {
    k.Text? || k.LineBreak? || k.Hashtag? || k.InlineImage? || k.Equation? || k.CodeHighlight?
    || k.Poll? || k.PageBreak? || k.Excalidraw?
  }

  // ---------------------------------------------------------------------------
  // Container rules: the children's markup is wrapped

  /** `convertList`: `start` only on an `ol` that does not start at 1. */
  function ListAttrs(props: map<string, Value>, tag: Value): Attributes
  {
    var start := Get(props, "start");
    When(Truthy(start) && start != Num(1) && tag == Str("ol"), "start", start)
    + When(Get(props, "listType") == Str("check"), "class", Str("checklist"))
  }

  /** The checkbox `convertListItem` puts before the content. */
  function Checkbox(checked: Value): string
  {
    SelfClosingTag("input",
      [("type", Str("checkbox")), ("checked", if Truthy(checked) then Str("checked") else Undefined),
       ("disabled", Str("disabled"))])
  }

  /** `convertListItem`. */
  function ListItemRule(props: map<string, Value>, content: string): string
  {
    ListItem(props, ItemBody(props, content))
  }

  /** The `<li>` around an item body, with the item's `value` attribute. */
  function ListItem(props: map<string, Value>, body: string): string
  {
    var value := Get(props, "value");
    WrapWithTag("li", body, When(Truthy(value), "value", value))
  }

  /** What goes inside `<li>`: the checkbox and a space when the item has its
      own `checked` property (false or not), then the content. The body ends
      with the content and holds more exactly when `checked` is there. */
  function ItemBody(props: map<string, Value>, content: string): (r: string)
    ensures |r| >= |content| && r[|r| - |content|..] == content
    ensures "checked" in props <==> |r| > |content|
  {
    if "checked" in props then Checkbox(props["checked"]) + " " + content else content
  }

  /** The checkbox is of type `checkbox`, then carries `checked` exactly when
      the item's `checked` is truthy, then is `disabled`. */
  lemma CheckboxAttributes(checked: Value)
    ensures Checkbox(checked) == SelfClosingTag("input",
      [("type", Str("checkbox"))] + When(Truthy(checked), "checked", Str("checked")) + [("disabled", Str("disabled"))])
  {
    MiddleAttribute(("type", Str("checkbox")), ("checked", if Truthy(checked) then Str("checked") else Undefined),
      ("disabled", Str("disabled")));
  }

  /** An absent middle attribute can be dropped. */
  lemma MiddleAttribute(a: (string, Value), b: (string, Value), c: (string, Value))
    ensures BuildAttributes([a, b, c]) == BuildAttributes([a] + When(IsPresent(b.1), b.0, b.1) + [c])
  {
    if !IsPresent(b.1) {
      var attrs := [a, b, c];
      BuildAttributesIsList(attrs);
      BuildAttributesIsList([a, c]);
      assert attrs[1..][1..] == [a, c][1..];
      assert [a] + When(IsPresent(b.1), b.0, b.1) + [c] == [a, c];
    } else {
      assert [a] + When(IsPresent(b.1), b.0, b.1) + [c] == [a, b, c];
    }
  }

  /** The item's markup: `<li>` with a `value` attribute exactly when
      `value` is truthy; then, exactly when the item has its own `checked`
      property (false or not), the checkbox of `CheckboxAttributes` and a
      space; then the content unchanged. */
  /** The item's markup: `<li>`, with a `value` attribute exactly when
      `value` is truthy, around the item body unchanged. */
  lemma ListItemCheckbox(props: map<string, Value>, body: string)
    ensures var value := Get(props, "value");
      ListItem(props, body)
        == "<" + "li" + (if Truthy(value) then " " + AttributePair("value", value) else "") + ">" + body + "</" + "li" + ">"
  {
    var value := Get(props, "value");
    WrapWithWhen("li", body, Truthy(value), "value", value);
  }

  /** `convertLink`: `href` always, `target` unless `_self`, `rel` and
      `title` when set. */
  function LinkAttrs(props: map<string, Value>): Attributes
  {
    var target := Get(props, "target");
    var rel := Get(props, "rel");
    var title := Get(props, "title");
    [("href", Get(props, "url"))]
    + When(Truthy(target) && target != Str("_self"), "target", target)
    + When(Truthy(rel), "rel", rel)
    + When(Truthy(title), "title", title)
  }

  /** `convertTableCell`: a header cell when `headerState === 1`; spans only
      above 1; the background colour as an inline style. */
  function TableCellRule(props: map<string, Value>, content: string): string
  {
    var colSpan := Get(props, "colSpan");
    var rowSpan := Get(props, "rowSpan");
    var background := Get(props, "backgroundColor");
    var tag := if Get(props, "headerState") == Num(1) then "th" else "td";
    WrapWithTag(tag, content,
      When(Truthy(colSpan) && GreaterThan(colSpan, 1), "colspan", colSpan)
      + When(Truthy(rowSpan) && GreaterThan(rowSpan, 1), "rowspan", rowSpan)
      + When(Truthy(background), "style", Str("background-color: " + ToText(background))))
  }

  /** A cell is a header cell exactly when `headerState` is the number 1,
      and a span is emitted exactly when it is greater than 1 (the
      truthiness test adds nothing: a value above 1 is truthy). */
  lemma TableCellShape(props: map<string, Value>, content: string)
    ensures var colSpan := Get(props, "colSpan");
      var rowSpan := Get(props, "rowSpan");
      var background := Get(props, "backgroundColor");
      TableCellRule(props, content)
        == WrapWithTag(if Get(props, "headerState") == Num(1) then "th" else "td", content,
             When(GreaterThan(colSpan, 1), "colspan", colSpan)
             + When(GreaterThan(rowSpan, 1), "rowspan", rowSpan)
             + When(Truthy(background), "style", Str("background-color: " + ToText(background))))
  {
    AboveOneTruthy(Get(props, "colSpan"));
    AboveOneTruthy(Get(props, "rowSpan"));
  }

  lemma AboveOneTruthy(v: Value)
    ensures GreaterThan(v, 1) ==> Truthy(v)
  {
    if v.Str? && v.s == "" {
      assert Trim(v.s) == "";
    }
  }

  /** `convertLayoutContainer`. */
  function LayoutAttrs(props: map<string, Value>): Attributes
  {
    var columns := Get(props, "templateColumns");
    [("class", Str("layout-container"))]
    + When(Truthy(columns), "style", Str("grid-template-columns: " + ToText(columns)))
  }

  /** The rules that wrap the converted children (`root` and unknown types
      return them as they are). */
  function Wrap(k: Kind, props: map<string, Value>, content: string): string
  {
    match k
    case Heading => WrapWithTag(ToText(Or(Get(props, "tag"), Str("h1"))), content, [])
    case Quote => WrapWithTag("blockquote", content, [])
    case List =>
      var tag := Or(Get(props, "tag"), Str("ul"));
      WrapWithTag(ToText(tag), content, ListAttrs(props, tag))
    case ListItem => ListItemRule(props, content)
    case Link => WrapWithTag("a", content, LinkAttrs(props))
    case Table => WrapWithTag("table", content, [])
    case TableRow => WrapWithTag("tr", content, [])
    case TableCell => TableCellRule(props, content)
    case CollapsibleContainer =>
      WrapWithTag("details", content, When(Truthy(Get(props, "open")), "open", Str("open")))
    case CollapsibleTitle => WrapWithTag("summary", content, [])
    case CollapsibleContent => WrapWithTag("div", content, [("class", Str("details-content"))])
    case LayoutContainer => WrapWithTag("div", content, LayoutAttrs(props))
    case LayoutItem => WrapWithTag("div", content, [("class", Str("layout-item"))])
    case _ => content
  }

  // ---------------------------------------------------------------------------
  // Images

  /** `convertImage`'s attributes: `src`, `alt`, then the optional sizes. */
  function ImageAttrs(props: map<string, Value>): Attributes
  {
    var width := Get(props, "width");
    var height := Get(props, "height");
    var maxWidth := Get(props, "maxWidth");
    [("src", Get(props, "src")), ("alt", Or(Get(props, "altText"), Str("")))]
    + When(Truthy(width), "width", width) + When(Truthy(height), "height", height)
    + When(Truthy(maxWidth), "style", Str("max-width: " + ToText(maxWidth) + "px"))
  }

  /** The caption is shown when both `caption` and `showCaption` are truthy. */
  predicate ShowsCaption(props: map<string, Value>, node: Node)
    requires node.Obj?
  {
    CaptionTruthy(node.caption) && Truthy(Get(props, "showCaption"))
  }

  /** The figure: the image, then the caption block when there is one. */
  function Figure(props: map<string, Value>, caption: Option<string>): string
  {
    var img := SelfClosingTag("img", ImageAttrs(props));
    var block := if caption.Some? then WrapWithTag("div", caption.value, [("class", Str("image-caption"))]) else "";
    WrapWithTag("figure", img + block, [])
  }

  // ---------------------------------------------------------------------------
  // Paragraphs

  /** `alignmentMap[node.format]` for the four alignment names. */
  predicate IsAlignment(format: Value)
  {
    format == Str("left") || format == Str("center") || format == Str("right") || format == Str("justify")
  }

  /** The attributes every `<p>` of a paragraph carries. */
  function ParagraphAttrs(props: map<string, Value>): Attributes
  {
    var format := Get(props, "format");
    var direction := Get(props, "direction");
    When(Truthy(format) && IsAlignment(format), "style", Str("text-align: " + ToText(format)))
    + When(Truthy(direction) && direction != Str("ltr"), "dir", direction)
  }

  /** The attribute text of a paragraph: `style` exactly for the four
      alignment names, `dir` exactly for a direction other than `ltr`. */
  lemma ParagraphAttributeText(props: map<string, Value>)
    ensures var format := Get(props, "format");
      var direction := Get(props, "direction");
      BuildAttributes(ParagraphAttrs(props))
        == (if IsAlignment(format) then " " + AttributePair("style", Str("text-align: " + format.s)) else "")
           + (if Truthy(direction) && direction != Str("ltr") then " " + AttributePair("dir", direction) else "")
  {
    var format := Get(props, "format");
    var direction := Get(props, "direction");
    var attrs := ParagraphAttrs(props);
    var d := When(Truthy(direction) && direction != Str("ltr"), "dir", direction);
    BuildAttributesIsList(attrs);
    BuildAttributesIsList(d);
    if IsAlignment(format) {
      assert attrs[1..] == d;
    } else {
      assert attrs == d;
    }
    if d != [] {
      assert d[1..] == [];
    }
  }

  /** The state of `convertParagraph`'s `forEach`: the closed groups and the
      current one, or the TypeError of reading `type` from a null child. */
  function Grouping(items: seq<Node>): Result<(seq<seq<Node>>, seq<Node>)>
  {
    if items == [] then Ok(([], []))
    else
      var state :- Grouping(items[..|items| - 1]);
      var child := items[|items| - 1];
      if child.Null? then Throw(ReadError("null", "type"))
      else if TypeOf(child) == Str("linebreak") then
        Ok((if state.1 != [] then state.0 + [state.1] else state.0, []))
      else Ok((state.0, state.1 + [child]))
  }

  /** The groups `convertParagraph` converts, one `<p>` each. */
  function Runs(items: seq<Node>): Result<seq<seq<Node>>>
  {
    var state :- Grouping(items);
    Ok(if state.1 != [] then state.0 + [state.1] else state.0)
  }

  /** All groups laid end to end. */
  function Flatten(groups: seq<seq<Node>>): seq<Node>
  {
    if groups == [] then [] else Flatten(groups[..|groups| - 1]) + groups[|groups| - 1]
  }

  /** Reference definition: the children that are not line breaks, in order. */
  function NonBreaks(items: seq<Node>): seq<Node>
  {
    if items == [] then []
    else NonBreaks(items[..|items| - 1]) + (if IsLineBreak(items[|items| - 1]) then [] else [items[|items| - 1]])
  }

  /** Every group is non-empty and holds no line break. */
  predicate WellGrouped(groups: seq<seq<Node>>)
  {
    forall j :: 0 <= j < |groups| ==> groups[j] != [] && forall c :: c in groups[j] ==> !IsLineBreak(c)
  }

  lemma FlattenSnoc(groups: seq<seq<Node>>, g: seq<Node>)
    ensures Flatten(groups + [g]) == Flatten(groups) + g
  {
    assert (groups + [g])[..|groups|] == groups;
  }

  /** The `forEach` keeps its invariant: the closed groups and the current
      one are well formed and together hold the non-break children so far. */
  lemma {:induction false} GroupingInvariant(items: seq<Node>)
    requires Grouping(items).Ok?
    ensures var state := Grouping(items).value;
      WellGrouped(state.0) && (forall c :: c in state.1 ==> !IsLineBreak(c))
      && Flatten(state.0) + state.1 == NonBreaks(items)
    decreases |items|
  {
    if items != [] {
      var init := items[..|items| - 1];
      GroupingInvariant(init);
      var state := Grouping(init).value;
      var child := items[|items| - 1];
      if IsLineBreak(child) && state.1 != [] {
        FlattenSnoc(state.0, state.1);
      }
      if !IsLineBreak(child) {
        assert Flatten(state.0) + (state.1 + [child]) == (Flatten(state.0) + state.1) + [child];
      } else {
        assert NonBreaks(items) == NonBreaks(init) + [];
      }
    }
  }

  /** The paragraph's groups partition its non-break children: none is
      empty, none holds a line break, and laid end to end they are the
      children with the line breaks removed. */
  lemma RunsPartition(items: seq<Node>)
    requires Runs(items).Ok?
    ensures WellGrouped(Runs(items).value)
    ensures Flatten(Runs(items).value) == NonBreaks(items)
  {
    GroupingInvariant(items);
    var state := Grouping(items).value;
    if state.1 != [] {
      FlattenSnoc(state.0, state.1);
    } else {
      assert Flatten(state.0) + [] == Flatten(state.0);
    }
  }

  /** Reference definition: the children cut at every line break, empty
      pieces included (`k` breaks give `k + 1` pieces). */
  function Pieces(items: seq<Node>): (r: seq<seq<Node>>)
    ensures |r| >= 1
    ensures forall i, j :: 0 <= i < |r| && 0 <= j < |r[i]| ==> !IsLineBreak(r[i][j])
  {
    if items == [] then [[]]
    else
      var ps := Pieces(items[..|items| - 1]);
      var c := items[|items| - 1];
      if IsLineBreak(c) then ps + [[]]
      else ps[..|ps| - 1] + [ps[|ps| - 1] + [c]]
  }

  /** Cutting loses nothing but the breaks: the pieces, laid end to end,
      are the non-break children in order. */
  lemma {:induction false} PiecesFlatten(items: seq<Node>)
    ensures Flatten(Pieces(items)) == NonBreaks(items)
    decreases |items|
  {
    if items != [] {
      var init := items[..|items| - 1];
      var c := items[|items| - 1];
      PiecesFlatten(init);
      var ps := Pieces(init);
      var n := |ps|;
      if IsLineBreak(c) {
        FlattenSnoc(ps, []);
        assert Flatten(ps) + [] == Flatten(ps);
      } else {
        assert ps[..n - 1] + [ps[n - 1]] == ps;
        FlattenSnoc(ps[..n - 1], ps[n - 1]);
        FlattenSnoc(ps[..n - 1], ps[n - 1] + [c]);
        assert Flatten(ps[..n - 1]) + (ps[n - 1] + [c]) == Flatten(ps[..n - 1]) + ps[n - 1] + [c];
      }
    }
  }

  /** The pieces that are not empty, in order. */
  function NonEmpty(ps: seq<seq<Node>>): seq<seq<Node>>
  {
    if ps == [] then []
    else NonEmpty(ps[..|ps| - 1]) + (if ps[|ps| - 1] != [] then [ps[|ps| - 1]] else [])
  }

  /** The runs of children between line breaks, empty runs dropped. */
  function SplitAtBreaks(items: seq<Node>): seq<seq<Node>>
  {
    NonEmpty(Pieces(items))
  }

  /** One more child for the `forEach`: a line break closes a non-empty
      open group, any other child joins it. */
  lemma GroupingNext(items: seq<Node>)
    requires items != [] && Grouping(items[..|items| - 1]).Ok? && !items[|items| - 1].Null?
    ensures var st := Grouping(items[..|items| - 1]).value;
      var c := items[|items| - 1];
      Grouping(items) == Ok(if IsLineBreak(c) then (if st.1 != [] then st.0 + [st.1] else st.0, []) else (st.0, st.1 + [c]))
  {
  }

  /** The non-empty pieces of a sequence and one more piece. */
  lemma NonEmptySnoc(ps: seq<seq<Node>>, p: seq<Node>)
    ensures NonEmpty(ps + [p]) == NonEmpty(ps) + (if p != [] then [p] else [])
  {
    assert (ps + [p])[..|ps|] == ps;
  }

  /** The `forEach` state is the split so far: the closed groups are the
      non-empty pieces before the last break, the open group is the piece
      after it. */
  lemma {:induction false} GroupingIsSplit(items: seq<Node>)
    requires Node.Null !in items
    ensures var ps := Pieces(items);
      Grouping(items) == Ok((NonEmpty(ps[..|ps| - 1]), ps[|ps| - 1]))
    decreases |items|
  {
    if items != [] {
      var init := items[..|items| - 1];
      var c := items[|items| - 1];
      assert Node.Null !in init && c != Node.Null by {
        assert forall x :: x in init ==> x in items;
        assert c in items;
      }
      GroupingIsSplit(init);
      GroupingNext(items);
      var ps := Pieces(init);
      var n := |ps|;
      assert ps[..n - 1] + [ps[n - 1]] == ps;
      NonEmptySnoc(ps[..n - 1], ps[n - 1]);
      if IsLineBreak(c) {
        var ps' := ps + [[]];
        assert Pieces(items) == ps';
        assert ps'[..n] == ps;
        assert ps'[n] == [];
        assert NonEmpty(ps) == NonEmpty(ps[..n - 1]) + (if ps[n - 1] != [] then [ps[n - 1]] else []);
        var st := Grouping(init).value;
        assert st == (NonEmpty(ps[..n - 1]), ps[n - 1]);
        assert Grouping(items) == Ok((if st.1 != [] then st.0 + [st.1] else st.0, []));
        assert (if st.1 != [] then st.0 + [st.1] else st.0) == NonEmpty(ps);
        assert Grouping(items) == Ok((NonEmpty(ps), []));
      } else {
        var ps' := ps[..n - 1] + [ps[n - 1] + [c]];
        assert Pieces(items) == ps';
        assert ps'[..n - 1] == ps[..n - 1];
      }
    }
  }

  /** `convertParagraph` opens one `<p>` per run of children between line
      breaks, skipping empty runs: with no null child, the groups are
      exactly the split of the children at their line breaks. */
  lemma SplitRuns(items: seq<Node>)
    requires Node.Null !in items
    ensures Runs(items) == Ok(SplitAtBreaks(items))
  {
    GroupingIsSplit(items);
    var ps := Pieces(items);
    assert ps[..|ps| - 1] + [ps[|ps| - 1]] == ps;
    NonEmptySnoc(ps[..|ps| - 1], ps[|ps| - 1]);
    var st := Grouping(items).value;
    assert st == (NonEmpty(ps[..|ps| - 1]), ps[|ps| - 1]);
    assert Runs(items) == Ok(if st.1 != [] then st.0 + [st.1] else st.0);
    assert (if st.1 != [] then st.0 + [st.1] else st.0) == NonEmpty(ps);
  }

  /** Grouping fails exactly when some child is null, and then with the
      TypeError of reading `type`. */
  lemma {:induction false} GroupingThrows(items: seq<Node>)
    ensures Grouping(items).Throw? <==> exists i :: 0 <= i < |items| && items[i].Null?
    ensures Grouping(items).Throw? ==> Grouping(items).message == ReadError("null", "type")
    decreases |items|
  {
    if items != [] {
      var init := items[..|items| - 1];
      GroupingThrows(init);
      assert forall i :: 0 <= i < |init| ==> init[i] == items[i];
      if exists i :: 0 <= i < |items| && items[i].Null? {
        var i :| 0 <= i < |items| && items[i].Null?;
        if i < |init| { assert init[i].Null?; }
      }
    }
  }

  lemma {:induction false} NonBreaksMember(items: seq<Node>, c: Node)
    requires c in NonBreaks(items)
    ensures c in items
    decreases |items|
  {
    if items != [] {
      var init := items[..|items| - 1];
      if c in NonBreaks(init) {
        NonBreaksMember(init, c);
      }
    }
  }

  lemma {:induction false} FlattenMember(groups: seq<seq<Node>>, g: seq<Node>, c: Node)
    requires g in groups && c in g
    ensures c in Flatten(groups)
    decreases |groups|
  {
    var init := groups[..|groups| - 1];
    if g != groups[|groups| - 1] {
      assert g in init;
      FlattenMember(init, g, c);
    }
  }

  /** Every child a group holds is one of the paragraph's children. */
  lemma RunsMembers(items: seq<Node>)
    requires Runs(items).Ok?
    ensures forall g, c :: g in Runs(items).value && c in g ==> c in items
  {
    RunsPartition(items);
    forall g, c | g in Runs(items).value && c in g ensures c in items {
      FlattenMember(Runs(items).value, g, c);
      NonBreaksMember(items, c);
    }
  }

  // ---------------------------------------------------------------------------
  // Code blocks

  /** The lines of the converted content: split at `<br/>`, or at newlines
      when there is no `<br/>` but there is a newline. */
  function CodeSplit(content: string): (lines: seq<string>)
    ensures |lines| >= 1
  {
    var byBreak := Split(content, "<br/>");
    if |byBreak| == 1 && Contains(content, "\n") then Split(content, "\n") else byBreak
  }

  /** Newlines are only split at when the content has no `<br/>`. */
  lemma CodeSplitFallback(content: string)
    ensures CodeSplit(content) == if !Contains(content, "<br/>") && Contains(content, "\n")
      then Split(content, "\n") else Split(content, "<br/>")
  {
    SplitSingle(content, "<br/>");
  }

  /** The `while` loop of `convertCode`: trailing whitespace-only lines are
      dropped while more than one line is left (`trim() === ''` is `IsBlank`,
      by `TrimEmptyIffBlank`). */
  function DropBlankTail(lines: seq<string>): (r: seq<string>)
    ensures |r| <= |lines| && r == lines[..|r|]
    ensures |lines| >= 1 ==> |r| >= 1
    ensures forall i :: |r| <= i < |lines| ==> IsBlank(lines[i])
    ensures |r| > 1 ==> !IsBlank(r[|r| - 1])
    decreases |lines|
  {
    if |lines| > 1 && IsBlank(lines[|lines| - 1]) then
      var init := lines[..|lines| - 1];
      var r := DropBlankTail(init);
      assert r == lines[..|r|] by { assert init[..|r|] == lines[..|r|]; }
      assert forall i :: |r| <= i < |init| ==> lines[i] == init[i];
      r
    else lines
  }

  /** One code line: a whitespace-only line shows as a `<br/>`. */
  function CodeLine(number: nat, line: string): string
  {
    "<span class=\"code-line\" data-line=\"" + NatText(number) + "\">"
    + (if IsBlank(line) then "<br/>" else line) + "</span>"
  }

  /** The first `k` code lines, numbered from 1. */
  function CodeLines(lines: seq<string>, k: nat): string
    requires k <= |lines|
  {
    if k == 0 then "" else CodeLines(lines, k - 1) + CodeLine(k, lines[k - 1])
  }

  /** The first `k` line-number markers. */
  function LineNumbers(k: nat): string
  {
    if k == 0 then ""
    else
      var n := NatText(k);
      LineNumbers(k - 1) + "<div class=\"line-number\" data-line=\"" + n
      + "\" onclick=\"toggleLineHighlight(this)\">" + n + "</div>"
  }

  /** The copy and fold buttons of the block with this id. */
  function Controls(codeId: string): string
  {
    ControlsOpen + codeId + ControlsMiddle + codeId + ControlsClose
  }

  /** The text of `Controls` up to the first id. */
  const ControlsOpen: string :=
    "\n      <div class=\"code-controls\">\n        <button class=\"code-btn copy-btn\" onclick=\"copyCode('"

  /** The text of `Controls` between the two ids. */
  const ControlsMiddle: string :=
    "')\" title=\"Copy code\">\n          \U{29C9} Copy\n        </button>\n"
    + "        <button class=\"code-btn fold-btn\" onclick=\"toggleCodeFold('"

  /** The text of `Controls` after the second id. */
  const ControlsClose: string :=
    "')\" title=\"Fold/Unfold code\">\n          \U{229F} Fold\n        </button>\n      </div>\n    "

  /** The header shown when the block is folded; `language.toUpperCase()`
      throws unless the language is a string. */
  function CodeHeader(language: Value, lineCount: nat): (r: Result<string>)
    ensures r.Ok? <==> language.Str?
  {
    if !language.Str? then Throw(NotAFunction("language.toUpperCase"))
    else Ok("<div class=\"code-header\">" + ToUpper(language.s) + " (" + NatText(lineCount) + " lines)</div>")
  }

  /** `convertCode` after its lines are trimmed, for a block with id suffix `id`. */
  function CodeFinish(props: map<string, Value>, lines: seq<string>, id: string): Result<string>
  {
    var lineCount := if |lines| >= 1 then |lines| else 1;
    var codeId := "code-" + id;
    var language := Get(props, "language");
    var codeAttrs := When(Truthy(language), "class", Str("language-" + ToText(language)));
    var blockAttrs := [("class", Str("code-block")), ("id", Str(codeId))]
      + When(Truthy(language), "data-language", language);
    var header :- CodeHeader(Or(language, Str("code")), lineCount);
    var code := WrapWithTag("pre", WrapWithTag("code", CodeLines(lines, |lines|), codeAttrs), []);
    var numbers := WrapWithTag("div", LineNumbers(lineCount), [("class", Str("code-line-numbers"))]);
    var body := WrapWithTag("div", code, [("class", Str("code-content"))]);
    Ok(WrapWithTag("div", Controls(codeId) + header + numbers + body, blockAttrs))
  }

  /** The lines `convertCode` keeps. */
  function CodeLinesOf(content: string): seq<string>
  {
    DropBlankTail(CodeSplit(content))
  }

  /** `convertCode` on the converted children. */
  function CodeBlock(props: map<string, Value>, content: string, id: string): Result<string>
  {
    CodeFinish(props, CodeLinesOf(content), id)
  }

  /** The block keeps at least one line, and fails exactly when a truthy
      `language` is not a string. */
  lemma CodeBlockFails(props: map<string, Value>, content: string, id: string)
    ensures |CodeLinesOf(content)| >= 1
    ensures CodeBlock(props, content, id).Ok? <==> !Truthy(Get(props, "language")) || Get(props, "language").Str?
  {
  }
}
