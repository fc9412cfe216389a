/** `BaseConverter` (src/converters/base-converter.ts) with the recursive
    parts of `HtmlConverter` (src/converters/html-converter.ts): the
    dispatcher counts every node it is called on, records an error for an
    unknown type and for every exception a rule throws, and replaces the node
    by a comment; an exception raised while reading `type` of a missing node
    escapes to the caller. `convert` resets the count and the errors, and an
    exception that reaches it is fatal.

    The trace functions are the specification: each takes the converter's
    state before a call and gives the outcome and the state after it. The
    class holds that state in fields, and its methods are proved to follow
    the traces. The state, the messages and the comment are those of
    `ConvertJs`, which writes them identically. */
module TsConverter {
  import opened Js
  import opened Strings
  import opened HtmlUtils
  import opened Lexical
  import ConvertJs
  import Rules = HtmlConverterRules
  import JsRules = ConvertJsRules
  import Drawing = HtmlConverterDrawing

  type St = ConvertJs.St
  type Step = ConvertJs.Step

  // ---------------------------------------------------------------------------
  // Errors

  /** An error the dispatcher records: an unknown type, or a rule that threw. */
  predicate NodeError(e: string)
  {
    "Unknown node type: " <= e || "Error converting " <= e
  }

  lemma MessagesAreNodeErrors(t: Value, m: string)
    ensures NodeError(ConvertJs.UnknownMessage(t)) && NodeError(ConvertJs.ErrorMessage(t, m))
  {
    var u := ConvertJs.UnknownMessage(t);
    assert u[..|"Unknown node type: "|] == "Unknown node type: ";
    var e := ConvertJs.ErrorMessage(t, m);
    assert e[..|"Error converting "|] == "Error converting ";
  }

  /** `t` comes after `s`, and every error added in between is a node error. */
  predicate Grows(s: St, t: St)
  {
    ConvertJs.Extends(s, t)
    && forall i :: |s.errors| <= i < |t.errors| ==> NodeErrorAt(t.errors, i)
  }

  /** The error at index `i` is a node error. */
  predicate NodeErrorAt(errors: seq<string>, i: int)
    requires 0 <= i < |errors|
  {
    NodeError(errors[i])
  }

  lemma GrowsTrans(s: St, t: St, u: St)
    requires Grows(s, t) && Grows(t, u)
    ensures Grows(s, u)
  {
    forall i | |s.errors| <= i < |u.errors|
      ensures NodeErrorAt(u.errors, i)
    {
      if i < |t.errors| {
        assert NodeErrorAt(t.errors, i);
        assert u.errors[i] == t.errors[i];
      }
    }
  }

  /** The state with one more error. */
  function Record(s: St, e: string): St
  {
    s.(errors := s.errors + [e])
  }

  // ---------------------------------------------------------------------------
  // The per-type methods

  /** The methods `BaseConverter` leaves abstract and a concrete converter
      supplies, for the parts that do not call back into the dispatcher: a
      leaf node, a container around its converted children, the image
      figure, the code block around its converted lines, a code highlight
      inside a code block, and a drawing with its random id. */
  datatype NodeRules = NodeRules(
    leaf: (Kind, Node) -> Result<string>,
    wrap: (Kind, Node, string) -> Result<string>,
    figure: (map<string, Value>, Option<string>) -> string,
    code: (map<string, Value>, string) -> string,
    highlight: map<string, Value> -> Result<string>,
    drawing: (map<string, Value>, SceneData, string) -> string)

  function HtmlLeaf(k: Kind, n: Node): Result<string>
  {
    if n.Obj? && !k.Excalidraw? then Rules.Leaf(k, n.props, n) else Ok("")
  }

  function HtmlWrap(k: Kind, n: Node, content: string): Result<string>
  {
    if n.Obj? then Rules.Wrap(k, n.props, n, content) else Ok(content)
  }

  /** `HtmlConverter`'s implementations. */
  const HtmlRules: NodeRules :=
    NodeRules(HtmlLeaf, HtmlWrap, JsRules.Figure, Rules.CodeRule, JsRules.CodeHighlightRule, Drawing.Drawing)

  // ---------------------------------------------------------------------------
  // Specification: the converter as a state-passing function. `ids(k)` is the
  // suffix of the k-th random id drawn.

  /** `convertNode(node)`: the node is counted first; reading `type` of a
      missing node throws inside the `try`, and again in the `catch`, so
      that exception reaches the caller. An object always converts. */
  function NodeTrace(R: NodeRules, ids: nat -> string, n: Node, s: St): (o: Step)
    ensures Grows(s, o.st) && o.st.count > s.count
    ensures n.Obj? <==> o.r.Ok?
    decreases n, 3, 0, 0
  {
    var s1 := s.(count := s.count + 1);
    match n
    case Null => ConvertJs.Step(Throw(ReadError("null", "type")), s1)
    case Obj(_, _, _, _, _, _, _) =>
      var t := TypeOf(n);
      var k := KindOf(t);
      MessagesAreNodeErrors(t, "");
      var s2 := if k.Other? then Record(s1, ConvertJs.UnknownMessage(t)) else s1;
      var step := RuleTrace(R, ids, k, n, s2);
      GrowsTrans(s1, s2, step.st);
      match step.r
      case Ok(h) => ConvertJs.Step(Ok(h), step.st)
      case Throw(m) =>
        MessagesAreNodeErrors(t, m);
        var s3 := Record(step.st, ConvertJs.ErrorMessage(t, m));
        GrowsTrans(s1, step.st, s3);
        ConvertJs.Step(Ok(ConvertJs.ErrorComment(t)), s3)
  }

  /** `convertNode` on an object once its rule has run from `s2`: the rule's
      markup, or the comment and one more error when the rule threw. */
  lemma NodeAfterRule(R: NodeRules, ids: nat -> string, n: Node, s: St, s2: St, step: Step)
    requires n.Obj?
    requires var s1 := s.(count := s.count + 1);
      s2 == if KindOf(TypeOf(n)).Other? then Record(s1, ConvertJs.UnknownMessage(TypeOf(n))) else s1
    requires step == RuleTrace(R, ids, KindOf(TypeOf(n)), n, s2)
    ensures NodeTrace(R, ids, n, s)
      == match step.r
         case Ok(h) => ConvertJs.Step(Ok(h), step.st)
         case Throw(m) => ConvertJs.Step(Ok(ConvertJs.ErrorComment(TypeOf(n))), Record(step.st, ConvertJs.ErrorMessage(TypeOf(n), m)))
  {
  }

  /** The body of the `switch`, for kind `k`: `root` and unknown kinds are
      their converted children, the other containers wrap them. */
  function RuleTrace(R: NodeRules, ids: nat -> string, k: Kind, n: Node, s: St): (o: Step)
    requires n.Obj?
    ensures Grows(s, o.st)
    decreases n, 2, 0, 0
  {
    if k.Image? then ImageTrace(R, ids, n, s)
    else if k.Code? then CodeTrace(R, ids, n, s)
    else if k.Excalidraw? then
      ConvertJs.Step(Ok(R.drawing(n.props, n.data, ids(s.draws))), s.(draws := s.draws + 1))
    else if JsRules.IsLeaf(k) then ConvertJs.Step(R.leaf(k, n), s)
    else if k.Root? || k.Other? then ChildrenTrace(R, ids, n, s)
    else
      var c := ChildrenTrace(R, ids, n, s);
      match c.r
      case Throw(m) => ConvertJs.Step(Throw(m), c.st)
      case Ok(h) => ConvertJs.Step(R.wrap(k, n, h), c.st)
  }

  /** `convertChildren(node)`: nothing unless `children` is an array. */
  function ChildrenTrace(R: NodeRules, ids: nat -> string, n: Node, s: St): (o: Step)
    requires n.Obj?
    ensures Grows(s, o.st)
    decreases n, 0, 1, 0
  {
    match n.children
    case Items(items) => ChildrenUpTo(R, ids, n, |items|, s)
    case _ => ConvertJs.Step(Ok(""), s)
  }

  /** The first `k` children converted in order and joined; the first child
      whose conversion throws ends the `map`. */
  function ChildrenUpTo(R: NodeRules, ids: nat -> string, n: Node, k: nat, s: St): (o: Step)
    requires n.Obj? && n.children.Items? && k <= |n.children.items|
    ensures Grows(s, o.st)
    decreases n, 0, 0, k
  {
    if k == 0 then ConvertJs.Step(Ok(""), s)
    else
      var o := ChildrenUpTo(R, ids, n, k - 1, s);
      var next := ChildAfter(R, ids, n, k - 1, o);
      GrowsTrans(s, o.st, next.st);
      next
  }

  /** Child `i` once the children before it gave `o`: nothing runs after an
      exception; otherwise the child's markup is appended, or its exception
      ends the `map`. */
  function ChildAfter(R: NodeRules, ids: nat -> string, n: Node, i: nat, o: Step): (r: Step)
    requires n.Obj? && n.children.Items? && i < |n.children.items|
    ensures Grows(o.st, r.st)
    decreases n, 0, 0, i
  {
    if o.r.Throw? then o
    else
      var c := NodeTrace(R, ids, n.children.items[i], o.st);
      match c.r
      case Throw(m) => ConvertJs.Step(Throw(m), c.st)
      case Ok(h) => ConvertJs.Step(Ok(o.r.value + h), c.st)
  }

  /** `convertImage(node)`: an object caption is converted as a node, a
      scalar one is escaped. */
  function ImageTrace(R: NodeRules, ids: nat -> string, n: Node, s: St): (o: Step)
    requires n.Obj?
    ensures Grows(s, o.st) && o.r.Ok?
    decreases n, 1, 0, 0
  {
    if !JsRules.ShowsCaption(n.props, n) then ConvertJs.Step(Ok(R.figure(n.props, None)), s)
    else
      match n.caption
      case CaptionNode(c) =>
        var o := NodeTrace(R, ids, c, s);
        ConvertJs.Step(Ok(R.figure(n.props, Some(o.r.value))), o.st)
      case CaptionValue(v) => ConvertJs.Step(Ok(R.figure(n.props, Some(EscapeHtml(ToText(v))))), s)
  }

  /** `convertCode(node)`: the children as code, then the numbered block. */
  function CodeTrace(R: NodeRules, ids: nat -> string, n: Node, s: St): (o: Step)
    requires n.Obj?
    ensures Grows(s, o.st)
    decreases n, 1, 0, 0
  {
    var c := CodeChildrenTrace(R, ids, n, s);
    match c.r
    case Throw(m) => ConvertJs.Step(Throw(m), c.st)
    case Ok(h) => ConvertJs.Step(Ok(R.code(n.props, h)), c.st)
  }

  /** `convertCodeChildren(node)`. */
  function CodeChildrenTrace(R: NodeRules, ids: nat -> string, n: Node, s: St): (o: Step)
    requires n.Obj?
    ensures Grows(s, o.st)
    decreases n, 0, 1, 0
  {
    match n.children
    case Items(items) => CodeChildrenUpTo(R, ids, n, |items|, s)
    case _ => ConvertJs.Step(Ok(""), s)
  }

  /** One child of a code block: a line break is a newline and a highlight
      is converted directly, neither of them counted; any other child goes
      through the dispatcher; reading `type` of a missing child throws. */
  function CodeChildTrace(R: NodeRules, ids: nat -> string, c: Node, s: St): (o: Step)
    ensures Grows(s, o.st)
    decreases c, 4, 0, 0
  {
    if c.Null? then ConvertJs.Step(Throw(ReadError("null", "type")), s)
    else if TypeOf(c) == Str("linebreak") then ConvertJs.Step(Ok("\n"), s)
    else if TypeOf(c) == Str("code-highlight") then ConvertJs.Step(R.highlight(c.props), s)
    else NodeTrace(R, ids, c, s)
  }

  /** The first `k` children of a code block, joined. */
  function CodeChildrenUpTo(R: NodeRules, ids: nat -> string, n: Node, k: nat, s: St): (o: Step)
    requires n.Obj? && n.children.Items? && k <= |n.children.items|
    ensures Grows(s, o.st)
    decreases n, 0, 0, k
  {
    if k == 0 then ConvertJs.Step(Ok(""), s)
    else
      var o := CodeChildrenUpTo(R, ids, n, k - 1, s);
      if o.r.Throw? then o
      else
        var c := CodeChildTrace(R, ids, n.children.items[k - 1], o.st);
        GrowsTrans(s, o.st, c.st);
        match c.r
        case Throw(m) => ConvertJs.Step(Throw(m), c.st)
        case Ok(h) => ConvertJs.Step(Ok(o.r.value + h), c.st)
  }

  // ---------------------------------------------------------------------------
  // Properties of the dispatcher

  /** Once a child throws, the later children are not converted. */
  lemma {:induction false} ChildrenKeepThrow(R: NodeRules, ids: nat -> string, n: Node, j: nat, k: nat, s: St)
    requires n.Obj? && n.children.Items? && j <= k <= |n.children.items|
    requires ChildrenUpTo(R, ids, n, j, s).r.Throw?
    ensures ChildrenUpTo(R, ids, n, k, s) == ChildrenUpTo(R, ids, n, j, s)
    decreases k
  {
    if k > j {
      ChildrenKeepThrow(R, ids, n, j, k - 1, s);
      ChildrenAfterThrow(R, ids, n, k, s);
    }
  }

  lemma ChildrenAfterThrow(R: NodeRules, ids: nat -> string, n: Node, k: nat, s: St)
    requires n.Obj? && n.children.Items? && 0 < k <= |n.children.items|
    requires ChildrenUpTo(R, ids, n, k - 1, s).r.Throw?
    ensures ChildrenUpTo(R, ids, n, k, s) == ChildrenUpTo(R, ids, n, k - 1, s)
  {
    assert ChildAfter(R, ids, n, k - 1, ChildrenUpTo(R, ids, n, k - 1, s)) == ChildrenUpTo(R, ids, n, k - 1, s);
  }

  /** The children convert without an exception exactly when none of them
      is missing. */
  lemma {:induction false} ChildrenOk(R: NodeRules, ids: nat -> string, n: Node, k: nat, s: St)
    requires n.Obj? && n.children.Items? && k <= |n.children.items|
    ensures ChildrenUpTo(R, ids, n, k, s).r.Ok? <==> Node.Null !in n.children.items[..k]
  {
    ChildrenOkUpTo(R, ids, n, k, s);
    NoneMissingIff(n.children.items, k);
  }

  predicate NoneMissing(items: seq<Node>, k: nat)
    requires k <= |items|
  {
    k == 0 || (NoneMissing(items, k - 1) && items[k - 1].Obj?)
  }

  lemma {:induction false} NoneMissingIff(items: seq<Node>, k: nat)
    requires k <= |items|
    ensures NoneMissing(items, k) <==> Node.Null !in items[..k]
  {
    if k > 0 {
      NoneMissingIff(items, k - 1);
      NullInPrefix(items, k);
    }
  }

  lemma {:induction false} ChildrenOkUpTo(R: NodeRules, ids: nat -> string, n: Node, k: nat, s: St)
    requires n.Obj? && n.children.Items? && k <= |n.children.items|
    ensures ChildrenUpTo(R, ids, n, k, s).r.Ok? <==> NoneMissing(n.children.items, k)
    decreases k
  {
    if k > 0 {
      ChildrenOkUpTo(R, ids, n, k - 1, s);
      ChildrenOkStep(R, ids, n, k, s);
      assert NoneMissing(n.children.items, k)
        == (NoneMissing(n.children.items, k - 1) && n.children.items[k - 1].Obj?);
    }
  }

  lemma ChildrenOkStep(R: NodeRules, ids: nat -> string, n: Node, k: nat, s: St)
    requires n.Obj? && n.children.Items? && 0 < k <= |n.children.items|
    ensures ChildrenUpTo(R, ids, n, k, s).r.Ok?
      <==> ChildrenUpTo(R, ids, n, k - 1, s).r.Ok? && n.children.items[k - 1].Obj?
  {
    var o := ChildrenUpTo(R, ids, n, k - 1, s);
    if o.r.Ok? {
      var c := NodeTrace(R, ids, n.children.items[k - 1], o.st);
      ChildrenStep(R, ids, n, k - 1, s, o.r.value, o.st, c.r, c.st);
    }
  }

  lemma NullInPrefix(items: seq<Node>, k: nat)
    requires 0 < k <= |items|
    ensures Node.Null !in items[..k] <==> Node.Null !in items[..k - 1] && items[k - 1].Obj?
  {
    assert items[..k] == items[..k - 1] + [items[k - 1]];
  }

  /** One more child: its conversion either ends the list or is appended. */
  lemma ChildrenNext(R: NodeRules, ids: nat -> string, n: Node, k: nat, s: St,
                      html: string, st: St, h: Result<string>, st2: St)
    requires n.Obj? && n.children.Items? && k < |n.children.items|
    requires ChildrenUpTo(R, ids, n, k, s) == ConvertJs.Step(Ok(html), st)
    requires NodeTrace(R, ids, n.children.items[k], st) == ConvertJs.Step(h, st2)
    ensures ChildrenUpTo(R, ids, n, k + 1, s)
      == if h.Throw? then ConvertJs.Step(Throw(h.message), st2) else ConvertJs.Step(Ok(html + h.value), st2)
    ensures h.Throw? ==> ChildrenTrace(R, ids, n, s) == ConvertJs.Step(Throw(h.message), st2)
  {
    ChildrenStep(R, ids, n, k, s, html, st, h, st2);
    if h.Throw? {
      ChildrenThrowEnds(R, ids, n, k + 1, s);
    }
  }

  lemma ChildrenThrowEnds(R: NodeRules, ids: nat -> string, n: Node, j: nat, s: St)
    requires n.Obj? && n.children.Items? && j <= |n.children.items|
    requires ChildrenUpTo(R, ids, n, j, s).r.Throw?
    ensures ChildrenTrace(R, ids, n, s) == ChildrenUpTo(R, ids, n, j, s)
  {
    ChildrenKeepThrow(R, ids, n, j, |n.children.items|, s);
  }

  lemma ChildrenStep(R: NodeRules, ids: nat -> string, n: Node, k: nat, s: St,
                     html: string, st: St, h: Result<string>, st2: St)
    requires n.Obj? && n.children.Items? && k < |n.children.items|
    requires ChildrenUpTo(R, ids, n, k, s) == ConvertJs.Step(Ok(html), st)
    requires NodeTrace(R, ids, n.children.items[k], st) == ConvertJs.Step(h, st2)
    ensures ChildrenUpTo(R, ids, n, k + 1, s)
      == if h.Throw? then ConvertJs.Step(Throw(h.message), st2) else ConvertJs.Step(Ok(html + h.value), st2)
  {
    assert ChildrenUpTo(R, ids, n, k + 1, s) == ChildAfter(R, ids, n, k, ConvertJs.Step(Ok(html), st));
  }

  /** A missing child makes its parent's rule throw, so the parent becomes
      the error comment and its error names the parent's type: the failure
      is contained one level up. */
  lemma MissingChildContained(R: NodeRules, ids: nat -> string, n: Node, s: St)
    requires n.Obj? && n.children.Items? && Node.Null in n.children.items
    requires var k := KindOf(TypeOf(n)); !JsRules.IsLeaf(k) && !k.Image? && !k.Code?
    ensures var o := NodeTrace(R, ids, n, s);
      o.r == Ok(ConvertJs.ErrorComment(TypeOf(n)))
      && |o.st.errors| > 0
      && o.st.errors[|o.st.errors| - 1] == ConvertJs.ErrorMessage(TypeOf(n), ReadError("null", "type"))
  {
    var items := n.children.items;
    var t := TypeOf(n);
    var k := KindOf(t);
    var s1 := s.(count := s.count + 1);
    var s2 := if k.Other? then Record(s1, ConvertJs.UnknownMessage(t)) else s1;
    ChildrenThrowNull(R, ids, n, |items|, s2);
    ChildrenOk(R, ids, n, |items|, s2);
    assert items[..|items|] == items;
    var c := ChildrenTrace(R, ids, n, s2);
    assert c.r.Throw?;
    assert RuleTrace(R, ids, k, n, s2) == ConvertJs.Step(Throw(c.r.message), c.st);
    assert NodeTrace(R, ids, n, s).st == Record(c.st, ConvertJs.ErrorMessage(t, c.r.message));
  }

  /** A child list that throws throws the missing node's exception. */
  lemma {:induction false} ChildrenThrowNull(R: NodeRules, ids: nat -> string, n: Node, k: nat, s: St)
    requires n.Obj? && n.children.Items? && k <= |n.children.items|
    ensures ChildrenUpTo(R, ids, n, k, s).r.Throw? ==> ChildrenUpTo(R, ids, n, k, s).r.message == ReadError("null", "type")
    decreases k
  {
    if k > 0 {
      ChildrenThrowNull(R, ids, n, k - 1, s);
      var o := ChildrenUpTo(R, ids, n, k - 1, s);
      assert ChildrenUpTo(R, ids, n, k, s) == ChildAfter(R, ids, n, k - 1, o);
      if o.r.Ok? {
        var c := NodeTrace(R, ids, n.children.items[k - 1], o.st);
      }
    }
  }

  /** Line breaks and highlights inside a code block are not counted and
      record nothing. */
  lemma {:induction false} CodeChildrenUncounted(R: NodeRules, ids: nat -> string, n: Node, k: nat, s: St)
    requires n.Obj? && n.children.Items? && k <= |n.children.items|
    requires forall i :: 0 <= i < k ==>
      n.children.items[i].Obj? && TypeOf(n.children.items[i]) in {Str("linebreak"), Str("code-highlight")}
    ensures CodeChildrenUpTo(R, ids, n, k, s).st == s
    decreases k
  {
    if k > 0 {
      CodeChildrenUncounted(R, ids, n, k - 1, s);
    }
  }

  /** An untyped object is an unknown node: one error naming `undefined`,
      then its children. */
  lemma Untyped(R: NodeRules, ids: nat -> string, n: Node, s: St)
    requires n.Obj? && "type" !in n.props
    ensures var s2 := Record(s.(count := s.count + 1), "Unknown node type: undefined");
      var c := ChildrenTrace(R, ids, n, s2);
      NodeTrace(R, ids, n, s) == (if c.r.Ok? then c else ConvertJs.Step(Ok("<!-- Error converting undefined -->"),
                                   Record(c.st, "Error converting undefined: " + c.r.message)))
  {
    var s2 := Record(s.(count := s.count + 1), "Unknown node type: undefined");
    assert ConvertJs.UnknownMessage(Undefined) == "Unknown node type: undefined";
    assert ConvertJs.ErrorComment(Undefined) == "<!-- Error converting undefined -->";
    var c := ChildrenTrace(R, ids, n, s2);
    if c.r.Throw? {
      assert ConvertJs.ErrorMessage(Undefined, c.r.message) == "Error converting undefined: " + c.r.message;
    }
  }

  // ---------------------------------------------------------------------------
  // How many nodes are visited

  /** Reference count of the `convertNode` calls a conversion of `n` makes
      with rules `R`: one for `n` itself (a missing node is counted before
      reading its `type` throws) and those its kind converts below it. */
  function Visits(R: NodeRules, n: Node): nat
    decreases n, 2, 0
  {
    match n
    case Null => 1
    case Obj(_, _, _, _, _, _, _) => 1 + KindVisits(R, KindOf(TypeOf(n)), n)
  }

  /** The nodes kind `k` converts below `n`: a shown caption node, the code
      children that are neither line breaks nor highlights, nothing for a
      leaf or a drawing, and the children of any other kind; a list of
      children is cut short by the first child whose conversion throws. */
  function KindVisits(R: NodeRules, k: Kind, n: Node): nat
    requires n.Obj?
    decreases n, 1, 0
  {
    if k.Image? then
      if JsRules.ShowsCaption(n.props, n) && n.caption.CaptionNode? then Visits(R, n.caption.node) else 0
    else if k.Code? then
      if n.children.Items? then CodeItemsVisits(R, n, |n.children.items|) else 0
    else if JsRules.IsLeaf(k) || !n.children.Items? then 0
    else ItemsVisits(R, n, |n.children.items|)
  }

  /** The visits below the first `k` children of `n`, up to and including
      the first missing one. */
  function ItemsVisits(R: NodeRules, n: Node, k: nat): nat
    requires n.Obj? && n.children.Items? && k <= |n.children.items|
    decreases n, 0, k
  {
    if k == 0 then 0
    else ItemsVisits(R, n, k - 1) + if NoneMissing(n.children.items, k - 1) then Visits(R, n.children.items[k - 1]) else 0
  }

  /** A code child whose conversion throws: a missing one, or a highlight
      whose rule throws. */
  predicate CodeStops(R: NodeRules, c: Node)
  {
    c.Null? || (TypeOf(c) == Str("code-highlight") && R.highlight(c.props).Throw?)
  }

  /** None of the first `k` code children throws. */
  predicate CodeNoneStop(R: NodeRules, items: seq<Node>, k: nat)
    requires k <= |items|
  {
    k == 0 || (CodeNoneStop(R, items, k - 1) && !CodeStops(R, items[k - 1]))
  }

  /** The visits below the first `k` children of a code block, up to the
      first one that throws; line breaks and highlights are not visited. */
  function CodeItemsVisits(R: NodeRules, n: Node, k: nat): nat
    requires n.Obj? && n.children.Items? && k <= |n.children.items|
    decreases n, 0, k
  {
    if k == 0 then 0
    else
      var c := n.children.items[k - 1];
      CodeItemsVisits(R, n, k - 1)
        + if CodeNoneStop(R, n.children.items, k - 1) && c.Obj?
             && TypeOf(c) != Str("linebreak") && TypeOf(c) != Str("code-highlight")
          then Visits(R, c) else 0
  }

  /** `nodeCount` grows by exactly the visits of the node converted. */
  lemma {:induction false} NodeVisits(R: NodeRules, ids: nat -> string, n: Node, s: St)
    ensures NodeTrace(R, ids, n, s).st.count == s.count + Visits(R, n)
    decreases n, 3, 0, 0
  {
    if n.Obj? {
      var t := TypeOf(n);
      var k := KindOf(t);
      var s1 := s.(count := s.count + 1);
      var s2 := if k.Other? then Record(s1, ConvertJs.UnknownMessage(t)) else s1;
      RuleVisits(R, ids, k, n, s2);
      NodeAfterRule(R, ids, n, s, s2, RuleTrace(R, ids, k, n, s2));
    }
  }

  lemma {:induction false} RuleVisits(R: NodeRules, ids: nat -> string, k: Kind, n: Node, s: St)
    requires n.Obj?
    ensures RuleTrace(R, ids, k, n, s).st.count == s.count + KindVisits(R, k, n)
    decreases n, 2, 0, 0
  {
    if k.Image? {
      if JsRules.ShowsCaption(n.props, n) && n.caption.CaptionNode? {
        NodeVisits(R, ids, n.caption.node, s);
      }
    } else if k.Code? {
      if n.children.Items? {
        CodeUpToVisits(R, ids, n, |n.children.items|, s);
        assert CodeChildrenTrace(R, ids, n, s) == CodeChildrenUpTo(R, ids, n, |n.children.items|, s);
      } else {
        assert CodeChildrenTrace(R, ids, n, s).st == s;
      }
    } else if !k.Excalidraw? && !JsRules.IsLeaf(k) && n.children.Items? {
      UpToVisits(R, ids, n, |n.children.items|, s);
    }
  }

  lemma {:induction false} UpToVisits(R: NodeRules, ids: nat -> string, n: Node, k: nat, s: St)
    requires n.Obj? && n.children.Items? && k <= |n.children.items|
    ensures ChildrenUpTo(R, ids, n, k, s).st.count == s.count + ItemsVisits(R, n, k)
    decreases n, 0, 0, k
  {
    if k > 0 {
      UpToVisits(R, ids, n, k - 1, s);
      var o := ChildrenUpTo(R, ids, n, k - 1, s);
      ChildrenOkUpTo(R, ids, n, k - 1, s);
      if o.r.Ok? {
        NodeVisits(R, ids, n.children.items[k - 1], o.st);
      }
      assert ChildrenUpTo(R, ids, n, k, s) == ChildAfter(R, ids, n, k - 1, o);
    }
  }

  /** The code children convert without an exception exactly when none of
      them throws, and the count grows by their visits. */
  lemma {:induction false} CodeUpToVisits(R: NodeRules, ids: nat -> string, n: Node, k: nat, s: St)
    requires n.Obj? && n.children.Items? && k <= |n.children.items|
    ensures CodeChildrenUpTo(R, ids, n, k, s).r.Ok? <==> CodeNoneStop(R, n.children.items, k)
    ensures CodeChildrenUpTo(R, ids, n, k, s).st.count == s.count + CodeItemsVisits(R, n, k)
    decreases n, 0, 0, k
  {
    if k > 0 {
      CodeUpToVisits(R, ids, n, k - 1, s);
      var o := CodeChildrenUpTo(R, ids, n, k - 1, s);
      var c := n.children.items[k - 1];
      if o.r.Ok? && c.Obj? && TypeOf(c) != Str("linebreak") && TypeOf(c) != Str("code-highlight") {
        NodeVisits(R, ids, c, o.st);
      }
    }
  }

  /** A document's final `nodeCount`: nothing without `editorState`,
      otherwise the visits of its root (an absent root is counted once). */
  lemma DocumentVisits(R: NodeRules, ids: nat -> string, doc: Document, draws: nat)
    ensures DocumentTrace(R, ids, doc, draws).st.count
      == if doc.EditorState? then Visits(R, if doc.root.Some? then doc.root.value else Node.Null) else 0
  {
    if doc.EditorState? && doc.root.Some? {
      NodeVisits(R, ids, doc.root.value, ConvertJs.St(0, [], draws));
    }
  }

  // ---------------------------------------------------------------------------
  // Options and the result

  /** The default options; the ones given are spread over them. */
  const Defaults: map<string, Value> :=
    map["sanitize" := Bool(true), "format" := Str("html5"), "includeStyles" := Bool(true),
        "wrapInDocument" := Bool(true)]

  /** `{ sanitize: true, format: 'html5', includeStyles: true,
      wrapInDocument: true, ...options }`: a given option wins, even when it
      is `undefined`; a default stays only where nothing is given. */
  function MergeOptions(options: map<string, Value>): (r: map<string, Value>)
    ensures forall k :: k in options ==> k in r && r[k] == options[k]
    ensures forall k :: k in Defaults && k !in options ==> k in r && r[k] == Defaults[k]
    ensures r.Keys == options.Keys + Defaults.Keys
  {
    Defaults + options
  }

  /** `ConversionResult` without `processingTime`. */
  datatype Conversion = Conversion(html: string, nodeCount: nat, errors: seq<string>)

  /** The conversion of the document from a reset count and error list. A
      document without `editorState` throws before any node is counted; an
      absent root is counted, then reading its `type` throws. */
  function DocumentTrace(R: NodeRules, ids: nat -> string, doc: Document, draws: nat): (o: Step)
    ensures o.r.Throw? <==> !(doc.EditorState? && doc.root.Some? && doc.root.value.Obj?)
    ensures Grows(ConvertJs.St(0, [], draws), o.st)
  {
    var s := ConvertJs.St(0, [], draws);
    match doc
    case NoEditorState => ConvertJs.Step(Throw(ReadError("undefined", "root")), s)
    case EditorState(None) => ConvertJs.Step(Throw(ReadError("undefined", "type")), s.(count := 1))
    case EditorState(Some(root)) => NodeTrace(R, ids, root, s)
  }

  /** What `convert` returns after the root: a fatal exception gives no
      markup and a single error; otherwise the markup, wrapped in the page
      unless `wrapInDocument` is falsy, with the recorded errors. */
  function Finish(options: map<string, Value>, o: Step): Conversion
  {
    match o.r
    case Throw(m) => Conversion("", o.st.count, ["Fatal error: " + m])
    case Ok(h) =>
      Conversion(if Truthy(Get(options, "wrapInDocument")) then DocumentWrapper(h, DefaultTitle) else h,
                 o.st.count, o.st.errors)
  }

  /** `convert(lexicalDoc)`, specified. */
  function ConvertSpec(options: map<string, Value>, R: NodeRules, ids: nat -> string, doc: Document, draws: nat): Conversion
  {
    Finish(options, DocumentTrace(R, ids, doc, draws))
  }

  /** The conversion is fatal exactly when the root is not an object; a
      fatal conversion has no markup and one error, and otherwise every
      error is a node error. */
  lemma ConversionErrors(options: map<string, Value>, R: NodeRules, ids: nat -> string, doc: Document, draws: nat)
    ensures var c := ConvertSpec(options, R, ids, doc, draws);
      var fatal := !(doc.EditorState? && doc.root.Some? && doc.root.value.Obj?);
      (fatal ==> c.html == "" && |c.errors| == 1 && "Fatal error: " <= c.errors[0])
      && (!fatal ==> forall e :: e in c.errors ==> NodeError(e))
      && (doc.NoEditorState? ==> c.nodeCount == 0)
      && (doc.EditorState? ==> c.nodeCount >= 1)
  {
    var o := DocumentTrace(R, ids, doc, draws);
    if o.r.Throw? {
      var e := "Fatal error: " + o.r.message;
      assert e[..|"Fatal error: "|] == "Fatal error: ";
    } else {
      forall e | e in o.st.errors ensures NodeError(e) {
        var i :| 0 <= i < |o.st.errors| && o.st.errors[i] == e;
        assert NodeErrorAt(o.st.errors, i);
      }
    }
  }

  /** Without `wrapInDocument`, the markup is the root's own markup. */
  lemma Unwrapped(options: map<string, Value>, R: NodeRules, ids: nat -> string, doc: Document, draws: nat)
    requires "wrapInDocument" in options && !Truthy(options["wrapInDocument"])
    requires doc.EditorState? && doc.root.Some? && doc.root.value.Obj?
    ensures ConvertSpec(MergeOptions(options), R, ids, doc, draws).html == NodeTrace(R, ids, doc.root.value, ConvertJs.St(0, [], draws)).r.value
  {
  }

  // ---------------------------------------------------------------------------
  // The converter object

  class HtmlConverter {
    var nodeCount: nat
    var errors: seq<string>
    /** How many random ids have been drawn (the state of `Math.random`). */
    var draws: nat
    const options: map<string, Value>
    /** The random id suffixes, in the order they are drawn. */
    const ids: nat -> string
    /** The per-type methods of the concrete converter. */
    const rules: NodeRules

    function State(): St
      reads this
    {
      ConvertJs.St(nodeCount, errors, draws)
    }

    /** `new HtmlConverter(options)`. */
    constructor(options: map<string, Value>, ids: nat -> string)
      ensures this.options == MergeOptions(options) && this.ids == ids && rules == HtmlRules
      ensures State() == ConvertJs.St(0, [], 0)
    {
      nodeCount := 0;
      errors := [];
      draws := 0;
      this.options := MergeOptions(options);
      this.ids := ids;
      rules := HtmlRules;
    }

    /** `convert(lexicalDoc)`. */
    method Convert(doc: Document) returns (result: Conversion)
      modifies this
      ensures result == ConvertSpec(options, rules, ids, doc, old(draws))
      ensures State() == DocumentTrace(rules, ids, doc, old(draws)).st
    {
      nodeCount := 0;
      errors := [];
      var r: Result<string>;
      match doc {
        case NoEditorState =>
          r := Throw(ReadError("undefined", "root"));
        case EditorState(None) =>
          nodeCount := nodeCount + 1;
          r := Throw(ReadError("undefined", "type"));
        case EditorState(Some(root)) =>
          r := ConvertNode(root);
      }
      assert ConvertJs.Step(r, State()) == DocumentTrace(rules, ids, doc, old(draws));
      match r
      case Throw(m) =>
        result := Conversion("", nodeCount, ["Fatal error: " + m]);
      case Ok(h) =>
        var html := if Truthy(Get(options, "wrapInDocument")) then DocumentWrapper(h, DefaultTitle) else h;
        result := Conversion(html, nodeCount, errors);
    }

    /** `convertNode(node)`. */
    method ConvertNode(n: Node) returns (r: Result<string>)
      modifies this
      ensures ConvertJs.Step(r, State()) == NodeTrace(rules, ids, n, old(State()))
      decreases n, 3, 0, 0
    {
      nodeCount := nodeCount + 1;
      if n.Null? {
        return Throw(ReadError("null", "type"));
      }
      var t := TypeOf(n);
      var k := KindOf(t);
      if k.Other? {
        errors := errors + [ConvertJs.UnknownMessage(t)];
      }
      ghost var s2 := State();
      var rule := ConvertRule(k, n);
      NodeAfterRule(rules, ids, n, old(State()), s2, ConvertJs.Step(rule, State()));
      match rule
      case Ok(h) =>
        r := Ok(h);
      case Throw(m) =>
        errors := errors + [ConvertJs.ErrorMessage(t, m)];
        r := Ok(ConvertJs.ErrorComment(t));
    }

    /** The `switch`. */
    method ConvertRule(k: Kind, n: Node) returns (r: Result<string>)
      requires n.Obj?
      modifies this
      ensures ConvertJs.Step(r, State()) == RuleTrace(rules, ids, k, n, old(State()))
      decreases n, 2, 0, 0
    {
      if k.Image? {
        r := ConvertImage(n);
      } else if k.Code? {
        r := ConvertCode(n);
      } else if k.Excalidraw? {
        var html := ConvertExcalidraw(n);
        r := Ok(html);
      } else if JsRules.IsLeaf(k) {
        r := rules.leaf(k, n);
      } else if k.Root? || k.Other? {
        r := ConvertChildren(n);
      } else {
        var content := ConvertChildren(n);
        if content.Throw? {
          return Throw(content.message);
        }
        r := rules.wrap(k, n, content.value);
      }
    }

    /** `convertExcalidraw(node)`: one random id is drawn for the drawing. */
    method ConvertExcalidraw(n: Node) returns (html: string)
      requires n.Obj?
      modifies this
      ensures html == rules.drawing(n.props, n.data, ids(old(draws)))
      ensures State() == old(State()).(draws := old(draws) + 1)
    {
      var id := ids(draws);
      draws := draws + 1;
      html := rules.drawing(n.props, n.data, id);
    }

    /** `convertChildren(node)`. */
    method ConvertChildren(n: Node) returns (r: Result<string>)
      requires n.Obj?
      modifies this
      ensures ConvertJs.Step(r, State()) == ChildrenTrace(rules, ids, n, old(State()))
      decreases n, 0, 1, 0
    {
      if !n.children.Items? {
        return Ok("");
      }
      var items := n.children.items;
      var html := "";
      for i := 0 to |items|
        invariant ConvertJs.Step(Ok(html), State()) == ChildrenUpTo(rules, ids, n, i, old(State()))
      {
        ghost var st := State();
        var h := ConvertNode(items[i]);
        ChildrenNext(rules, ids, n, i, old(State()), html, st, h, State());
        if h.Throw? {
          return Throw(h.message);
        }
        html := html + h.value;
      }
      r := Ok(html);
    }

    /** `convertImage(node)`. */
    method ConvertImage(n: Node) returns (r: Result<string>)
      requires n.Obj?
      modifies this
      ensures ConvertJs.Step(r, State()) == ImageTrace(rules, ids, n, old(State()))
      decreases n, 1, 0, 0
    {
      if !JsRules.ShowsCaption(n.props, n) {
        return Ok(rules.figure(n.props, None));
      }
      match n.caption
      case CaptionNode(c) =>
        var caption := ConvertNode(c);
        r := Ok(rules.figure(n.props, Some(caption.value)));
      case CaptionValue(v) =>
        r := Ok(rules.figure(n.props, Some(EscapeHtml(ToText(v)))));
    }

    /** `convertCode(node)`. */
    method ConvertCode(n: Node) returns (r: Result<string>)
      requires n.Obj?
      modifies this
      ensures ConvertJs.Step(r, State()) == CodeTrace(rules, ids, n, old(State()))
      decreases n, 1, 0, 0
    {
      var content := ConvertCodeChildren(n);
      if content.Throw? {
        return Throw(content.message);
      }
      r := Ok(rules.code(n.props, content.value));
    }

    /** `convertCodeChildren(node)`. */
    method ConvertCodeChildren(n: Node) returns (r: Result<string>)
      requires n.Obj?
      modifies this
      ensures ConvertJs.Step(r, State()) == CodeChildrenTrace(rules, ids, n, old(State()))
      decreases n, 0, 1, 0
    {
      if !n.children.Items? {
        return Ok("");
      }
      var items := n.children.items;
      var html := "";
      for i := 0 to |items|
        invariant ConvertJs.Step(Ok(html), State()) == CodeChildrenUpTo(rules, ids, n, i, old(State()))
      {
        var c := items[i];
        ghost var st := State();
        var h: Result<string>;
        if c.Null? {
          h := Throw(ReadError("null", "type"));
        } else if TypeOf(c) == Str("linebreak") {
          h := Ok("\n");
        } else if TypeOf(c) == Str("code-highlight") {
          h := rules.highlight(c.props);
        } else {
          h := ConvertNode(c);
        }
        CodeChildrenNext(rules, ids, n, i, old(State()), html, st, h, State());
        if h.Throw? {
          return Throw(h.message);
        }
        html := html + h.value;
      }
      r := Ok(html);
    }
  }

  /** One more line of a code block, as `ChildrenNext`. */
  lemma CodeChildrenNext(R: NodeRules, ids: nat -> string, n: Node, k: nat, s: St,
                          html: string, st: St, h: Result<string>, st2: St)
    requires n.Obj? && n.children.Items? && k < |n.children.items|
    requires CodeChildrenUpTo(R, ids, n, k, s) == ConvertJs.Step(Ok(html), st)
    requires CodeChildTrace(R, ids, n.children.items[k], st) == ConvertJs.Step(h, st2)
    ensures CodeChildrenUpTo(R, ids, n, k + 1, s)
      == if h.Throw? then ConvertJs.Step(Throw(h.message), st2) else ConvertJs.Step(Ok(html + h.value), st2)
    ensures h.Throw? ==> CodeChildrenTrace(R, ids, n, s) == ConvertJs.Step(Throw(h.message), st2)
  {
    if h.Throw? {
      CodeChildrenKeepThrow(R, ids, n, k + 1, |n.children.items|, s);
    }
  }

  lemma {:induction false} CodeChildrenKeepThrow(R: NodeRules, ids: nat -> string, n: Node, j: nat, k: nat, s: St)
    requires n.Obj? && n.children.Items? && j <= k <= |n.children.items|
    requires CodeChildrenUpTo(R, ids, n, j, s).r.Throw?
    ensures CodeChildrenUpTo(R, ids, n, k, s) == CodeChildrenUpTo(R, ids, n, j, s)
    decreases k
  {
    if k > j {
      CodeChildrenKeepThrow(R, ids, n, j, k - 1, s);
    }
  }
}
