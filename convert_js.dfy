/** `LexicalToHtmlConverter` of `src/convert.js`: the dispatcher that walks a
    Lexical tree, counts the nodes it visits, records errors, catches every
    exception a rule throws, and draws one random id per code block.

    The trace functions are the specification: each takes the converter's
    state before a call and gives the markup and the state after it. The
    class holds that state in fields and its methods are proved to follow
    the traces. */
module ConvertJs {
  import opened Js
  import opened Strings
  import opened HtmlUtils
  import opened Lexical
  import opened ConvertJsRules
  import Scene = ConvertJsScene

  /** The converter's state: `nodeCount`, `errors`, and how many random ids
      have been drawn so far. */
  datatype St = St(count: nat, errors: seq<string>, draws: nat)

  /** Markup and the state after producing it. */
  datatype Out = Out(html: string, st: St)

  /** A rule's outcome (markup or exception) and the state after it. */
  datatype Step = Step(r: Result<string>, st: St)

  /** `t` comes after `s`: counters only grow and errors are only appended. */
  predicate Extends(s: St, t: St)
  {
    s.count <= t.count && s.draws <= t.draws && s.errors <= t.errors
  }

  function UnknownMessage(t: Value): string
  {
    "Unknown node type: " + ToText(t)
  }

  function ErrorMessage(t: Value, message: string): string
  {
    "Error converting " + ToText(t) + ": " + message
  }

  /** The comment a node whose rule threw is replaced by. */
  function ErrorComment(t: Value): string
  {
    "<!-- Error converting " + ToText(t) + " -->"
  }

  /** The methods the dispatcher calls on `this` that do not call back into
      it: a leaf node, a container around its converted children, the image
      figure, and the code block around its converted children with its id.
      The dispatcher's properties hold whatever they do; the class uses its
      own, `ClassRules`. */
  datatype Rules = Rules(
    leaf: (Kind, map<string, Value>, Node) -> Result<string>,
    wrap: (Kind, map<string, Value>, string) -> string,
    figure: (map<string, Value>, Option<string>) -> string,
    code: (map<string, Value>, string, string) -> Result<string>)

  /** `Leaf` on objects, the only nodes a rule is given. */
  function ClassLeaf(k: Kind, props: map<string, Value>, n: Node): Result<string>
  {
    if n.Obj? then Leaf(k, props, n) else Ok("")
  }

  /** The rules of `LexicalToHtmlConverter` itself. */
  const ClassRules := Rules(ClassLeaf, Wrap, Figure, CodeBlock)

  // ---------------------------------------------------------------------------
  // Specification: the converter as a state-passing function. `ids(k)` is the
  // suffix of the k-th random id drawn (`Math.random().toString(36).substr(2, 9)`).

  /** `convertNode(node)`. */
  function NodeTrace(R: Rules, ids: nat -> string, n: Node, s: St): (o: Out)
    ensures Extends(s, o.st) && o.st.count > s.count
    decreases n, 3, 0, 0
  {
    match n
    case Null => Out("", s.(count := s.count + 1))
    case Obj(_, _, _, _, _, _, _) => ObjTrace(R, ids, n.props, n, s)
  }

  /** `convertNode` on an object whose scalar properties are `props` and whose
      structured properties are those of `n` (`props` differs from `n.props`
      only for a paragraph child converted as a copy). */
  function ObjTrace(R: Rules, ids: nat -> string, props: map<string, Value>, n: Node, s: St): (o: Out)
    requires n.Obj?
    ensures Extends(s, o.st) && o.st.count > s.count
    decreases n, 2, 0, 0
  {
    var s1 := s.(count := s.count + 1);
    var t := Get(props, "type");
    if !Truthy(t) then Out("", s1)
    else
      var k := KindOf(t);
      var s2 := if k.Other? then s1.(errors := s1.errors + [UnknownMessage(t)]) else s1;
      var step := RuleTrace(R, ids, k, props, n, s2);
      match step.r
      case Ok(h) => Out(h, step.st)
      case Throw(m) => Out(ErrorComment(t), step.st.(errors := step.st.errors + [ErrorMessage(t, m)]))
  }

  /** The body of the `switch`, for kind `k`. */
  function RuleTrace(R: Rules, ids: nat -> string, k: Kind, props: map<string, Value>, n: Node, s: St): (o: Step)
    requires n.Obj?
    ensures Extends(s, o.st)
    decreases n, 1, 1, 0
  {
    if k.Paragraph? then ParagraphTrace(R, ids, props, n, s)
    else if k.Image? then
      var o := ImageTrace(R, ids, props, n, s);
      Step(Ok(o.html), o.st)
    else if k.Code? then CodeTrace(R, ids, props, n, s)
    else if IsLeaf(k) then Step(R.leaf(k, props, n), s)
    else
      var c := ChildrenTrace(R, ids, n, s);
      if k.Root? || k.Other? then Step(Ok(c.html), c.st)
      else Step(Ok(R.wrap(k, props, c.html)), c.st)
  }

  /** The branches of the dispatcher, one per kind, for any rules. */
  lemma RuleCases(R: Rules, ids: nat -> string, k: Kind, props: map<string, Value>, n: Node, s: St)
    requires n.Obj?
    ensures k.Paragraph? ==> RuleTrace(R, ids, k, props, n, s) == ParagraphTrace(R, ids, props, n, s)
    ensures k.Image? ==> RuleTrace(R, ids, k, props, n, s) == var o := ImageTrace(R, ids, props, n, s); Step(Ok(o.html), o.st)
    ensures k.Code? ==> RuleTrace(R, ids, k, props, n, s) == CodeTrace(R, ids, props, n, s)
    ensures !k.Paragraph? && !k.Image? && !k.Code? && IsLeaf(k) ==>
      RuleTrace(R, ids, k, props, n, s) == Step(R.leaf(k, props, n), s)
    ensures !k.Paragraph? && !k.Image? && !k.Code? && !IsLeaf(k) ==>
      var c := ChildrenTrace(R, ids, n, s);
      RuleTrace(R, ids, k, props, n, s) ==
        if k.Root? || k.Other? then Step(Ok(c.html), c.st) else Step(Ok(R.wrap(k, props, c.html)), c.st)
  { }

  /** The leaf and container branches of the class's own rules. */
  lemma ClassRuleCases(ids: nat -> string, k: Kind, props: map<string, Value>, n: Node, s: St)
    requires n.Obj? && !k.Paragraph? && !k.Image? && !k.Code?
    ensures IsLeaf(k) ==> RuleTrace(ClassRules, ids, k, props, n, s) == Step(Leaf(k, props, n), s)
    ensures !IsLeaf(k) ==>
      var c := ChildrenTrace(ClassRules, ids, n, s);
      RuleTrace(ClassRules, ids, k, props, n, s) ==
        Step(Ok(if k.Root? || k.Other? then c.html else Wrap(k, props, c.html)), c.st)
  {
    RuleCases(ClassRules, ids, k, props, n, s);
  }

  /** `convertCode(node)`: the children are converted, then one random id
      is drawn, then the block is built (which may throw). */
  function CodeTrace(R: Rules, ids: nat -> string, props: map<string, Value>, n: Node, s: St): (o: Step)
    requires n.Obj?
    ensures Extends(s, o.st)
    decreases n, 1, 0, 0
  {
    var c := ChildrenTrace(R, ids, n, s);
    Step(R.code(props, c.html, ids(c.st.draws)), c.st.(draws := c.st.draws + 1))
  }

  /** `convertChildren(node)`. */
  function ChildrenTrace(R: Rules, ids: nat -> string, n: Node, s: St): (o: Out)
    requires n.Obj?
    ensures Extends(s, o.st)
    decreases n, 0, 1, 0
  {
    match n.children
    case Items(items) => ChildrenUpTo(R, ids, n, |items|, s)
    case _ => Out("", s)
  }

  /** The first `k` children converted in order, their markup joined. */
  function ChildrenUpTo(R: Rules, ids: nat -> string, n: Node, k: nat, s: St): (o: Out)
    requires n.Obj? && n.children.Items? && k <= |n.children.items|
    ensures Extends(s, o.st)
    decreases n, 0, 0, k
  {
    if k == 0 then Out("", s)
    else
      var o := ChildrenUpTo(R, ids, n, k - 1, s);
      var c := NodeTrace(R, ids, n.children.items[k - 1], o.st);
      Out(o.html + c.html, c.st)
  }

  /** `convertParagraph(node)`. */
  function ParagraphTrace(R: Rules, ids: nat -> string, props: map<string, Value>, n: Node, s: St): (o: Step)
    requires n.Obj?
    ensures Extends(s, o.st)
    decreases n, 1, 0, 0
  {
    match n.children
    case Items(items) =>
      (match Runs(items)
       case Throw(m) => Step(Throw(m), s)
       case Ok(groups) =>
         if groups == [] then Step(Ok(WrapWithTag("p", "", ParagraphAttrs(props))), s)
         else
           RunsMembers(items);
           var o := GroupsTrace(R, ids, props, n, groups, |groups|, s);
           Step(Ok(o.html), o.st))
    case _ => Step(Ok(WrapWithTag("p", "", [])), s)
  }

  /** The first `j` groups of a paragraph, one `<p>` each. */
  function GroupsTrace(R: Rules, ids: nat -> string, props: map<string, Value>, n: Node,
                       groups: seq<seq<Node>>, j: nat, s: St): (o: Out)
    requires n.Obj? && n.children.Items? && j <= |groups|
    requires forall g, c :: g in groups && c in g ==> c in n.children.items
    ensures Extends(s, o.st)
    decreases n, 0, 1, j
  {
    if j == 0 then Out("", s)
    else
      var o := GroupsTrace(R, ids, props, n, groups, j - 1, s);
      var g := GroupTrace(R, ids, props, n, groups[j - 1], |groups[j - 1]|, o.st);
      Out(o.html + WrapWithTag("p", g.html, ParagraphAttrs(props)), g.st)
  }

  /** The first `i` children of one group. A child without a truthy `style`
      in a paragraph with a truthy `textStyle` is converted as a copy whose
      `style` is the paragraph's `textStyle`. */
  function GroupTrace(R: Rules, ids: nat -> string, props: map<string, Value>, n: Node,
                      group: seq<Node>, i: nat, s: St): (o: Out)
    requires n.Obj? && n.children.Items? && i <= |group|
    requires forall c :: c in group ==> c in n.children.items
    ensures Extends(s, o.st)
    decreases n, 0, 0, i
  {
    if i == 0 then Out("", s)
    else
      var o := GroupTrace(R, ids, props, n, group, i - 1, s);
      var c := group[i - 1];
      assert c in n.children.items by { assert c in group; }
      var textStyle := Get(props, "textStyle");
      var h := if c.Obj? && !Truthy(Get(c.props, "style")) && Truthy(textStyle)
        then ObjTrace(R, ids, c.props["style" := textStyle], c, o.st)
        else NodeTrace(R, ids, c, o.st);
      Out(o.html + h.html, h.st)
  }

  /** `convertImage(node)`: an object caption is converted as a node, a
      scalar one is escaped. */
  function ImageTrace(R: Rules, ids: nat -> string, props: map<string, Value>, n: Node, s: St): (o: Out)
    requires n.Obj?
    ensures Extends(s, o.st)
    decreases n, 1, 0, 0
  {
    if !ShowsCaption(props, n) then Out(R.figure(props, None), s)
    else
      match n.caption
      case CaptionNode(c) =>
        var o := NodeTrace(R, ids, c, s);
        Out(R.figure(props, Some(o.html)), o.st)
      case CaptionValue(v) => Out(R.figure(props, Some(EscapeHtml(ToText(v)))), s)
  }

  /** The converter run on a document's root (`undefined` reads like `null`),
      starting from a reset count and error list. */
  function DocumentTrace(R: Rules, ids: nat -> string, root: Option<Node>, draws: nat): Out
  {
    NodeTrace(R, ids, if root.Some? then root.value else Node.Null, St(0, [], draws))
  }

  // ---------------------------------------------------------------------------
  // Properties of the dispatcher

  /** A null node or an object without a truthy `type` is counted and
      renders as nothing. */
  lemma Untyped(R: Rules, ids: nat -> string, n: Node, s: St)
    requires n.Null? || !Truthy(TypeOf(n))
    ensures NodeTrace(R, ids, n, s) == Out("", s.(count := s.count + 1))
  {
  }

  /** An unknown type adds exactly one error and renders the children. */
  lemma UnknownType(R: Rules, ids: nat -> string, n: Node, s: St)
    requires n.Obj? && Truthy(TypeOf(n)) && KindOf(TypeOf(n)).Other?
    ensures NodeTrace(R, ids, n, s)
      == ChildrenTrace(R, ids, n, St(s.count + 1, s.errors + [UnknownMessage(TypeOf(n))], s.draws))
  {
    var s2 := St(s.count + 1, s.errors + [UnknownMessage(TypeOf(n))], s.draws);
    var c := ChildrenTrace(R, ids, n, s2);
    assert NodeTrace(R, ids, n, s) == ObjTrace(R, ids, n.props, n, s);
    assert RuleTrace(R, ids, Other, n.props, n, s2) == Step(Ok(c.html), c.st);
  }

  /** A rule that throws leaves the comment in place of the node and adds
      exactly one error, after whatever the rule recorded before throwing. */
  lemma RuleThrows(R: Rules, ids: nat -> string, n: Node, s: St)
    requires n.Obj? && Truthy(TypeOf(n)) && !KindOf(TypeOf(n)).Other?
    requires RuleTrace(R, ids, KindOf(TypeOf(n)), n.props, n, s.(count := s.count + 1)).r.Throw?
    ensures var step := RuleTrace(R, ids, KindOf(TypeOf(n)), n.props, n, s.(count := s.count + 1));
      NodeTrace(R, ids, n, s)
        == Out(ErrorComment(TypeOf(n)), step.st.(errors := step.st.errors + [ErrorMessage(TypeOf(n), step.r.message)]))
  {
    assert NodeTrace(R, ids, n, s) == ObjTrace(R, ids, n.props, n, s);
  }

  /** One more group appends its paragraph. */
  lemma GroupsNext(R: Rules, ids: nat -> string, props: map<string, Value>, n: Node, groups: seq<seq<Node>>,
                   j: nat, s: St, o: Out, p: Out)
    requires n.Obj? && n.children.Items? && j < |groups|
    requires forall g, c :: g in groups && c in g ==> c in n.children.items
    requires forall c :: c in groups[j] ==> c in n.children.items
    requires o == GroupsTrace(R, ids, props, n, groups, j, s)
    requires p == GroupTrace(R, ids, props, n, groups[j], |groups[j]|, o.st)
    ensures GroupsTrace(R, ids, props, n, groups, j + 1, s)
      == Out(o.html + WrapWithTag("p", p.html, ParagraphAttrs(props)), p.st)
  {
  }

  // ---------------------------------------------------------------------------
  // How many nodes are visited

  /** Reference count of the `convertNode` calls a conversion of `n` makes:
      one for `n` itself and, when it has a truthy `type`, those its kind
      converts below it. */
  function Visits(n: Node): nat
    decreases n, 2, 0
  {
    match n
    case Null => 1
    case Obj(_, _, _, _, _, _, _) =>
      var t := TypeOf(n);
      1 + (if Truthy(t) then KindVisits(KindOf(t), n) else 0)
  }

  /** The nodes kind `k` converts below `n`: a paragraph's children except
      its line breaks (none when a child is missing), a shown caption node,
      nothing for a leaf, and every child of any other kind. */
  function KindVisits(k: Kind, n: Node): nat
    requires n.Obj?
    decreases n, 1, 0
  {
    if k.Paragraph? then
      if n.children.Items? && Runs(n.children.items).Ok? then ItemsVisits(n, |n.children.items|, true) else 0
    else if k.Image? then
      if ShowsCaption(n.props, n) && n.caption.CaptionNode? then Visits(n.caption.node) else 0
    else if IsLeaf(k) || !n.children.Items? then 0
    else ItemsVisits(n, |n.children.items|, false)
  }

  /** The visits below the first `k` children of `n`, line breaks left out
      when `skipBreaks` holds. */
  function ItemsVisits(n: Node, k: nat, skipBreaks: bool): nat
    requires n.Obj? && n.children.Items? && k <= |n.children.items|
    decreases n, 0, k
  {
    if k == 0 then 0
    else
      var c := n.children.items[k - 1];
      ItemsVisits(n, k - 1, skipBreaks) + if skipBreaks && IsLineBreak(c) then 0 else Visits(c)
  }

  /** The visits below the nodes of `xs`, in any order. */
  function NodesVisits(xs: seq<Node>): nat
  {
    if xs == [] then 0 else NodesVisits(xs[..|xs| - 1]) + Visits(xs[|xs| - 1])
  }

  lemma {:induction false} NodesVisitsAppend(a: seq<Node>, b: seq<Node>)
    ensures NodesVisits(a + b) == NodesVisits(a) + NodesVisits(b)
    decreases |b|
  {
    if b != [] {
      var b' := b[..|b| - 1];
      assert (a + b)[..|a + b| - 1] == a + b';
      NodesVisitsAppend(a, b');
    } else {
      assert a + b == a;
    }
  }

  /** Skipping line breaks while counting is counting the children that
      are not line breaks. */
  lemma {:induction false} ItemsNonBreaks(n: Node, k: nat)
    requires n.Obj? && n.children.Items? && k <= |n.children.items|
    ensures ItemsVisits(n, k, true) == NodesVisits(NonBreaks(n.children.items[..k]))
  {
    var items := n.children.items;
    if k > 0 {
      ItemsNonBreaks(n, k - 1);
      assert items[..k][..k - 1] == items[..k - 1];
      var c := items[k - 1];
      NodesVisitsAppend(NonBreaks(items[..k - 1]), if IsLineBreak(c) then [] else [c]);
      assert [c][..0] == [];
    }
  }

  /** `nodeCount` grows by exactly the visits of the node converted. */
  lemma {:induction false} NodeVisits(R: Rules, ids: nat -> string, n: Node, s: St)
    ensures NodeTrace(R, ids, n, s).st.count == s.count + Visits(n)
    decreases n, 3, 0, 0
  {
    if n.Obj? {
      ObjVisits(R, ids, n.props, n, s);
    }
  }

  /** The same for an object converted with properties `props` that agree
      with its own on `type` and `showCaption` (a paragraph's styled copy). */
  lemma {:induction false} ObjVisits(R: Rules, ids: nat -> string, props: map<string, Value>, n: Node, s: St)
    requires n.Obj?
    requires Get(props, "type") == TypeOf(n) && Get(props, "showCaption") == Get(n.props, "showCaption")
    ensures ObjTrace(R, ids, props, n, s).st.count == s.count + Visits(n)
    decreases n, 2, 0, 0
  {
    var t := TypeOf(n);
    if Truthy(t) {
      var k := KindOf(t);
      var s1 := s.(count := s.count + 1);
      var s2 := if k.Other? then s1.(errors := s1.errors + [UnknownMessage(t)]) else s1;
      ObjAfterRule(R, ids, props, n, s, s2, RuleTrace(R, ids, k, props, n, s2));
      RuleVisits(R, ids, k, props, n, s2);
    }
  }

  /** `convertNode` on a typed object once its rule has run from `s2`: the
      rule's markup, or the comment and one more error when it threw. */
  lemma ObjAfterRule(R: Rules, ids: nat -> string, props: map<string, Value>, n: Node, s: St, s2: St, step: Step)
    requires n.Obj? && Truthy(Get(props, "type"))
    requires var t := Get(props, "type");
      var s1 := s.(count := s.count + 1);
      s2 == if KindOf(t).Other? then s1.(errors := s1.errors + [UnknownMessage(t)]) else s1
    requires step == RuleTrace(R, ids, KindOf(Get(props, "type")), props, n, s2)
    ensures ObjTrace(R, ids, props, n, s)
      == match step.r
         case Ok(h) => Out(h, step.st)
         case Throw(m) => Out(ErrorComment(Get(props, "type")), step.st.(errors := step.st.errors + [ErrorMessage(Get(props, "type"), m)]))
  {
  }

  lemma {:induction false} RuleVisits(R: Rules, ids: nat -> string, k: Kind, props: map<string, Value>, n: Node, s: St)
    requires n.Obj? && Get(props, "showCaption") == Get(n.props, "showCaption")
    ensures RuleTrace(R, ids, k, props, n, s).st.count == s.count + KindVisits(k, n)
    decreases n, 1, 1, 0
  {
    if k.Paragraph? {
      ParagraphVisits(R, ids, props, n, s);
    } else if k.Image? {
      if ShowsCaption(props, n) && n.caption.CaptionNode? {
        NodeVisits(R, ids, n.caption.node, s);
      }
    } else if k.Code? {
      ChildrenVisits(R, ids, n, s);
    } else if !IsLeaf(k) {
      ChildrenVisits(R, ids, n, s);
    }
  }

  lemma {:induction false} ChildrenVisits(R: Rules, ids: nat -> string, n: Node, s: St)
    requires n.Obj?
    ensures ChildrenTrace(R, ids, n, s).st.count
      == s.count + if n.children.Items? then ItemsVisits(n, |n.children.items|, false) else 0
    decreases n, 0, 1, 0
  {
    if n.children.Items? {
      UpToVisits(R, ids, n, |n.children.items|, s);
    }
  }

  lemma {:induction false} UpToVisits(R: Rules, ids: nat -> string, n: Node, k: nat, s: St)
    requires n.Obj? && n.children.Items? && k <= |n.children.items|
    ensures ChildrenUpTo(R, ids, n, k, s).st.count == s.count + ItemsVisits(n, k, false)
    decreases n, 0, 0, k
  {
    if k > 0 {
      UpToVisits(R, ids, n, k - 1, s);
      NodeVisits(R, ids, n.children.items[k - 1], ChildrenUpTo(R, ids, n, k - 1, s).st);
    }
  }

  lemma {:induction false} ParagraphVisits(R: Rules, ids: nat -> string, props: map<string, Value>, n: Node, s: St)
    requires n.Obj?
    ensures ParagraphTrace(R, ids, props, n, s).st.count
      == s.count + if n.children.Items? && Runs(n.children.items).Ok? then ItemsVisits(n, |n.children.items|, true) else 0
    decreases n, 1, 0, 0
  {
    if n.children.Items? && Runs(n.children.items).Ok? {
      var items := n.children.items;
      var groups := Runs(items).value;
      RunsPartition(items);
      ItemsNonBreaks(n, |items|);
      assert items[..|items|] == items;
      if groups != [] {
        RunsMembers(items);
        GroupsVisits(R, ids, props, n, groups, |groups|, s);
        assert groups[..|groups|] == groups;
      }
    }
  }

  lemma {:induction false} GroupsVisits(R: Rules, ids: nat -> string, props: map<string, Value>, n: Node,
                                        groups: seq<seq<Node>>, j: nat, s: St)
    requires n.Obj? && n.children.Items? && j <= |groups|
    requires forall g, c :: g in groups && c in g ==> c in n.children.items
    ensures GroupsTrace(R, ids, props, n, groups, j, s).st.count == s.count + NodesVisits(Flatten(groups[..j]))
    decreases n, 0, 1, j
  {
    if j > 0 {
      GroupsVisits(R, ids, props, n, groups, j - 1, s);
      var g := groups[j - 1];
      assert groups[..j][..j - 1] == groups[..j - 1];
      NodesVisitsAppend(Flatten(groups[..j - 1]), g);
      GroupVisits(R, ids, props, n, g, |g|, GroupsTrace(R, ids, props, n, groups, j - 1, s).st);
      assert g[..|g|] == g;
    }
  }

  lemma {:induction false} GroupVisits(R: Rules, ids: nat -> string, props: map<string, Value>, n: Node,
                                       group: seq<Node>, i: nat, s: St)
    requires n.Obj? && n.children.Items? && i <= |group|
    requires forall c :: c in group ==> c in n.children.items
    ensures GroupTrace(R, ids, props, n, group, i, s).st.count == s.count + NodesVisits(group[..i])
    decreases n, 0, 0, i
  {
    if i > 0 {
      GroupVisits(R, ids, props, n, group, i - 1, s);
      var o := GroupTrace(R, ids, props, n, group, i - 1, s);
      var c := group[i - 1];
      assert c in n.children.items by { assert c in group; }
      assert group[..i][..i - 1] == group[..i - 1];
      var textStyle := Get(props, "textStyle");
      if c.Obj? && !Truthy(Get(c.props, "style")) && Truthy(textStyle) {
        ObjVisits(R, ids, c.props["style" := textStyle], c, o.st);
      } else {
        NodeVisits(R, ids, c, o.st);
      }
    }
  }

  /** A document's final `nodeCount` is the visits of its root. */
  lemma DocumentVisits(R: Rules, ids: nat -> string, root: Option<Node>, draws: nat)
    ensures DocumentTrace(R, ids, root, draws).st.count == Visits(if root.Some? then root.value else Node.Null)
  {
    NodeVisits(R, ids, if root.Some? then root.value else Node.Null, St(0, [], draws));
  }

  // ---------------------------------------------------------------------------
  // The converter object

  /** The page `generateDocumentWrapper` puts the content in; `script` is
      the text after the page's opening `<script>` tag, which is `PageScript`
      in the converter. */
  function Page(content: string, script: string): string
  {
    PageHead + content + PageTail + script
  }

  /** The page up to the content: the head, the opening of the content
      `div` and the indentation of the content. */
  const PageHead: string := HeadLines + "    " + ContentOpen + "\n        "

  /** The document head and the opening `<body>`, in pieces too short to
      hold the opening of the content `div`. */
  const HeadLines: string := Concat(HeadPieces)

  const HeadPieces: seq<string> := [
    "<!DOCTYPE html>\n",
    "<html lang=\"vi\">\n",
    "<head>\n",
    "    <meta charset=\"UTF-8\">\n",
    "    <meta name=\"view",
    "port\" content=\"width",
    "=device-width",
    ", initial-scale=1.0\">\n",
    "    <title>Lexical C",
    "onverted Content</title>\n",
    "    <link rel=\"stylesh",
    "eet\" href=\"styles/",
    "lexical-content.css\">\n",
    "</head>\n",
    "<body>\n"
  ]

  const ContentOpen := "<div class=\"lexical-content\">"

  /** For each piece of the head, a character of `<script>` it lacks. */
  const HeadMissing := "ppppps<<ppp<<pp"

  lemma HeadMissingFirst()
    ensures forall i :: 0 <= i < 5 ==> HeadMissing[i] !in HeadPieces[i]
  {
  }

  lemma HeadMissingSecond()
    ensures forall i :: 5 <= i < 10 ==> HeadMissing[i] !in HeadPieces[i]
  {
  }

  lemma HeadMissingThird()
    ensures forall i :: 10 <= i < 15 ==> HeadMissing[i] !in HeadPieces[i]
  {
  }

  /** No piece of the head opens the content `div`: each is too short. */
  lemma HeadPiecesNoOpen()
    ensures forall i :: 0 <= i < |HeadPieces| ==> !Contains(HeadPieces[i], ContentOpen)
  {
    forall i | 0 <= i < |HeadPieces| ensures |HeadPieces[i]| < |ContentOpen| {
    }
  }

  /** No piece of the head opens a script: each lacks a character of it. */
  lemma HeadPiecesNoScript()
    ensures forall i :: 0 <= i < |HeadPieces| ==> !Contains(HeadPieces[i], "<script>")
  {
    HeadMissingFirst();
    HeadMissingSecond();
    HeadMissingThird();
    forall i | 0 <= i < |HeadPieces| ensures !Contains(HeadPieces[i], "<script>") {
      assert HeadMissing[i] in "<script>";
      MissingChar(HeadPieces[i], "<script>", HeadMissing[i]);
    }
  }

  /** Every piece of the head ends on one of these characters. */
  const HeadEnds := "\nwhC/"

  lemma HeadPiecesEnds()
    ensures forall i :: 0 <= i < |HeadPieces| ==>
      HeadPieces[i] != [] && HeadPieces[i][|HeadPieces[i]| - 1] in HeadEnds
  {
  }

  /** Neither the opening of the content `div` nor `<script>` uses them. */
  lemma HeadEndsOutside()
    ensures forall x :: x in HeadEnds ==> x !in ContentOpen
    ensures forall x :: x in HeadEnds ==> x !in "<script>"
  {
  }

  /** The head does not open the content box, and ends on a character
      outside it. */
  lemma HeadNoOpen()
    ensures !Contains(HeadLines, ContentOpen)
    ensures HeadLines != [] && HeadLines[|HeadLines| - 1] in HeadEnds
  {
    HeadPiecesNoOpen();
    HeadPiecesEnds();
    HeadEndsOutside();
    ConcatNotContains(HeadPieces, ContentOpen, HeadEnds);
  }

  /** The head does not open a script. */
  lemma HeadNoScript()
    ensures !Contains(HeadLines, "<script>")
  {
    HeadPiecesNoScript();
    HeadPiecesEnds();
    HeadEndsOutside();
    ConcatNotContains(HeadPieces, "<script>", HeadEnds);
  }

  /** The page after the content up to its script: the closing `div` and
      the opening `<script>` tag. */
  const PageTail: string := "\n    " + "</div>" + "\n    \n    " + "<script>"

  /** The script of the code-block buttons (copy, fold, line highlight,
      keyboard shortcuts) and the end of the page. */
  const PageScript: string :=
    "\n// Copy code functionality\n"
    + "function copyCode(codeId) {\n"
    + "  const codeBlock = document.getElementById(codeId);\n"
    + "  const codeContent = codeBlock.querySelector('pre code');\n"
    + "  const text = codeContent.innerText || codeContent.textContent;\n"
    + "  \n"
    + "  navigator.clipboard.writeText(text).then(() => {\n"
    + "    const copyBtn = codeBlock.querySelector('.copy-btn');\n"
    + "    const originalText = copyBtn.innerHTML;\n"
    + "    copyBtn.innerHTML = '\U{2713} Copied';\n"
    + "    copyBtn.classList.add('copied');\n"
    + "    \n"
    + "    setTimeout(() => {\n"
    + "      copyBtn.innerHTML = originalText;\n"
    + "      copyBtn.classList.remove('copied');\n"
    + "    }, 2000);\n"
    + "  }).catch(err => {\n"
    + "    console.error('Failed to copy code: ', err);\n"
    + "    // Fallback for older browsers\n"
    + "    const textArea = document.createElement('textarea');\n"
    + "    textArea.value = text;\n"
    + "    document.body.appendChild(textArea);\n"
    + "    textArea.select();\n"
    + "    document.execCommand('copy');\n"
    + "    document.body.removeChild(textArea);\n"
    + "    \n"
    + "    const copyBtn = codeBlock.querySelector('.copy-btn');\n"
    + "    const originalText = copyBtn.innerHTML;\n"
    + "    copyBtn.innerHTML = '\U{2713} Copied';\n"
    + "    copyBtn.classList.add('copied');\n"
    + "    \n"
    + "    setTimeout(() => {\n"
    + "      copyBtn.innerHTML = originalText;\n"
    + "      copyBtn.classList.remove('copied');\n"
    + "    }, 2000);\n"
    + "  });\n"
    + "}\n"
    + "\n"
    + "// Toggle code fold functionality\n"
    + "function toggleCodeFold(codeId) {\n"
    + "  const codeBlock = document.getElementById(codeId);\n"
    + "  const foldBtn = codeBlock.querySelector('.fold-btn');\n"
    + "  \n"
    + "  if (codeBlock.classList.contains('collapsed')) {\n"
    + "    codeBlock.classList.remove('collapsed');\n"
    + "    foldBtn.innerHTML = '\U{229F} Fold';\n"
    + "    foldBtn.title = 'Fold code';\n"
    + "  } else {\n"
    + "    codeBlock.classList.add('collapsed');\n"
    + "    foldBtn.innerHTML = '\U{229E} Unfold';\n"
    + "    foldBtn.title = 'Unfold code';\n"
    + "  }\n"
    + "}\n"
    + "\n"
    + "// Toggle line highlighting\n"
    + "function toggleLineHighlight(lineElement) {\n"
    + "  const lineNumber = lineElement.getAttribute('data-line');\n"
    + "  const codeBlock = lineElement.closest('.code-block');\n"
    + "  const codeLine = codeBlock.querySelector(`.code-line[data-line=\"${lineNumber}\"]`);\n"
    + "  \n"
    + "  // Toggle line number highlight\n"
    + "  lineElement.classList.toggle('highlighted');\n"
    + "  \n"
    + "  // Toggle code line highlight\n"
    + "  if (codeLine) {\n"
    + "    codeLine.classList.toggle('highlighted');\n"
    + "  }\n"
    + "}\n"
    + "\n"
    + "// Initialize code blocks on page load\n"
    + "document.addEventListener('DOMContentLoaded', function() {\n"
    + "  // Add keyboard shortcuts\n"
    + "  document.addEventListener('keydown', function(e) {\n"
    + "    // Ctrl/Cmd + C on focused code block\n"
    + "    if ((e.ctrlKey || e.metaKey) && e.key === 'c') {\n"
    + "      const activeElement = document.activeElement;\n"
    + "      const codeBlock = activeElement.closest('.code-block');\n"
    + "      if (codeBlock) {\n"
    + "        e.preventDefault();\n"
    + "        copyCode(codeBlock.id);\n"
    + "      }\n"
    + "    }\n"
    + "    \n"
    + "    // Ctrl/Cmd + F on focused code block to fold\n"
    + "    if ((e.ctrlKey || e.metaKey) && e.key === 'f') {\n"
    + "      const activeElement = document.activeElement;\n"
    + "      const codeBlock = activeElement.closest('.code-block');\n"
    + "      if (codeBlock) {\n"
    + "        e.preventDefault();\n"
    + "        toggleCodeFold(codeBlock.id);\n"
    + "      }\n"
    + "    }\n"
    + "  });\n"
    + "  \n"
    + "  // Make code blocks focusable\n"
    + "  const codeBlocks = document.querySelectorAll('.code-block');\n"
    + "  codeBlocks.forEach(block => {\n"
    + "    block.setAttribute('tabindex', '0');\n"
    + "    block.style.outline = 'none';\n"
    + "    \n"
    + "    // Add focus styling\n"
    + "    block.addEventListener('focus', function() {\n"
    + "      this.style.boxShadow = '0 0 0 2px #0366d6';\n"
    + "    });\n"
    + "    \n"
    + "    block.addEventListener('blur', function() {\n"
    + "      this.style.boxShadow = 'none';\n"
    + "    });\n"
    + "  });\n"
    + "});\n"
    + "    </script>\n"
    + "</body>\n"
    + "</html>"

  /** The lines of `convertCode`: split at `<br/>` (or at newlines), then
      trailing whitespace-only lines popped while more than one is left. */
  method SplitCode(content: string) returns (lines: seq<string>)
    ensures lines == CodeLinesOf(content)
  {
    lines := Split(content, "<br/>");
    if |lines| == 1 && Contains(content, "\n") {
      lines := Split(content, "\n");
    }
    while |lines| > 1 && Trim(lines[|lines| - 1]) == ""
      invariant |lines| >= 1 && DropBlankTail(lines) == CodeLinesOf(content)
      decreases |lines|
    {
      TrimEmptyIffBlank(lines[|lines| - 1]);
      lines := lines[..|lines| - 1];
    }
    if |lines| > 1 {
      TrimEmptyIffBlank(lines[|lines| - 1]);
    }
  }

  /** The code block for converted content `content` and id suffix `id`. */
  method BuildCode(props: map<string, Value>, content: string, id: string) returns (r: Result<string>)
    ensures r == CodeBlock(props, content, id)
  {
    var lines := SplitCode(content);
    r := CodeFinish(props, lines, id);
  }

  class LexicalToHtmlConverter {
    var nodeCount: nat
    var errors: seq<string>
    /** How many random ids have been drawn (the state of `Math.random`). */
    var draws: nat
    /** The random id suffixes, in the order they are drawn. */
    const ids: nat -> string
    /** The text of the page's script, `PageScript`. */
    const script: string

    function State(): St
      reads this
    {
      St(nodeCount, errors, draws)
    }

    constructor(ids: nat -> string)
      ensures State() == St(0, [], 0) && this.ids == ids && script == PageScript
    {
      nodeCount := 0;
      errors := [];
      draws := 0;
      this.ids := ids;
      script := PageScript;
    }

    /** `convert(lexicalDoc)`: reset the count and the errors, convert the
        root, wrap the result in the page. A document without `editorState`
        throws. */
    method Convert(doc: Document) returns (r: Result<string>)
      modifies this
      ensures doc.NoEditorState? ==>
        r == Throw(ReadError("undefined", "root")) && State() == St(0, [], old(draws))
      ensures doc.EditorState? ==> var o := DocumentTrace(ClassRules, ids, doc.root, old(draws));
        r == Ok(Page(o.html, script)) && State() == o.st
    {
      nodeCount := 0;
      errors := [];
      assert State() == St(0, [], old(draws));
      match doc
      case NoEditorState =>
        r := Throw(ReadError("undefined", "root"));
      case EditorState(root) =>
        var content := ConvertNode(if root.Some? then root.value else Node.Null);
        r := Ok(Page(content, script));
    }

    /** `convertNode(node)`. */
    method ConvertNode(n: Node) returns (html: string)
      modifies this
      ensures Out(html, State()) == NodeTrace(ClassRules, ids, n, old(State()))
      decreases n, 3, 0, 0
    {
      if n.Null? {
        nodeCount := nodeCount + 1;
        html := "";
      } else {
        html := ConvertObject(n.props, n);
      }
    }

    /** `convertNode` on an object with scalar properties `props`: count it,
        dispatch on `type`, and turn an exception into a comment and an
        error. */
    method ConvertObject(props: map<string, Value>, n: Node) returns (html: string)
      requires n.Obj?
      modifies this
      ensures Out(html, State()) == ObjTrace(ClassRules, ids, props, n, old(State()))
      decreases n, 2, 0, 0
    {
      ghost var s := State();
      nodeCount := nodeCount + 1;
      var t := Get(props, "type");
      if !Truthy(t) {
        return "";
      }
      var k := KindOf(t);
      if k.Other? {
        errors := errors + [UnknownMessage(t)];
      }
      ghost var s2 := State();
      var r := ConvertRule(k, props, n);
      ObjAfterRule(ClassRules, ids, props, n, s, s2, Step(r, State()));
      match r
      case Ok(h) =>
        html := h;
      case Throw(m) =>
        errors := errors + [ErrorMessage(t, m)];
        html := ErrorComment(t);
    }

    /** The `switch`. */
    /** A leaf kind renders from its own properties; a drawing goes through the renderer's loops. */
    method ConvertLeaf(k: Kind, props: map<string, Value>, n: Node) returns (r: Result<string>)
      requires n.Obj? && IsLeaf(k)
      ensures r == Leaf(k, props, n)
    {
      if k.Excalidraw? {
        var html := Scene.RenderExcalidraw(n.data);
        r := Ok(html);
      } else {
        r := Leaf(k, props, n);
      }
    }

    /** A container kind converts its children; the root and unknown kinds pass them through unwrapped. */
    method ConvertContainer(k: Kind, props: map<string, Value>, n: Node) returns (html: string)
      requires n.Obj? && !k.Paragraph? && !k.Image? && !k.Code? && !IsLeaf(k)
      modifies this
      ensures var c := ChildrenTrace(ClassRules, ids, n, old(State()));
        Out(html, State()) == Out(if k.Root? || k.Other? then c.html else Wrap(k, props, c.html), c.st)
      decreases n, 1, 0, 1
    {
      var content := ConvertChildren(n);
      html := if k.Root? || k.Other? then content else Wrap(k, props, content);
    }

    method ConvertRule(k: Kind, props: map<string, Value>, n: Node) returns (r: Result<string>)
      requires n.Obj?
      modifies this
      ensures Step(r, State()) == RuleTrace(ClassRules, ids, k, props, n, old(State()))
      decreases n, 1, 1, 0
    {
      ghost var s := State();
      RuleCases(ClassRules, ids, k, props, n, s);
      if k.Paragraph? {
        r := ConvertParagraph(props, n);
      } else if k.Image? {
        var html := ConvertImage(props, n);
        r := Ok(html);
      } else if k.Code? {
        r := ConvertCode(props, n);
      } else if IsLeaf(k) {
        ClassRuleCases(ids, k, props, n, s);
        r := ConvertLeaf(k, props, n);
      } else {
        ClassRuleCases(ids, k, props, n, s);
        var html := ConvertContainer(k, props, n);
        r := Ok(html);
      }
    }

    /** `convertChildren(node)`. */
    method ConvertChildren(n: Node) returns (html: string)
      requires n.Obj?
      modifies this
      ensures Out(html, State()) == ChildrenTrace(ClassRules, ids, n, old(State()))
      decreases n, 0, 1, 0
    {
      html := "";
      if !n.children.Items? {
        return;
      }
      var items := n.children.items;
      for i := 0 to |items|
        invariant Out(html, State()) == ChildrenUpTo(ClassRules, ids, n, i, old(State()))
      {
        var h := ConvertNode(items[i]);
        html := html + h;
      }
    }

    /** `convertParagraph(node)`: group the children at line breaks, then
        convert each group into its own `<p>`. */
    method ConvertParagraph(props: map<string, Value>, n: Node) returns (r: Result<string>)
      requires n.Obj?
      modifies this
      ensures Step(r, State()) == ParagraphTrace(ClassRules, ids, props, n, old(State()))
      decreases n, 1, 0, 0
    {
      if !n.children.Items? {
        return Ok(WrapWithTag("p", "", []));
      }
      var items := n.children.items;
      var groups: seq<seq<Node>> := [];
      var current: seq<Node> := [];
      for i := 0 to |items|
        invariant Grouping(items[..i]) == Ok((groups, current))
      {
        assert items[..i + 1][..i] == items[..i];
        var child := items[i];
        if child.Null? {
          GroupingThrows(items);
          return Throw(ReadError("null", "type"));
        }
        if TypeOf(child) == Str("linebreak") {
          if |current| > 0 {
            groups := groups + [current];
            current := [];
          }
        } else {
          current := current + [child];
        }
      }
      assert items[..|items|] == items;
      if |current| > 0 {
        groups := groups + [current];
      }
      if |groups| == 0 {
        return Ok(WrapWithTag("p", "", ParagraphAttrs(props)));
      }
      RunsMembers(items);
      var html := ConvertGroups(props, n, groups);
      r := Ok(html);
    }

    /** `groups.map(group => wrapWithTag('p', …)).join('')`. */
    method ConvertGroups(props: map<string, Value>, n: Node, groups: seq<seq<Node>>) returns (html: string)
      requires n.Obj? && n.children.Items?
      requires forall g, c :: g in groups && c in g ==> c in n.children.items
      modifies this
      ensures Out(html, State()) == GroupsTrace(ClassRules, ids, props, n, groups, |groups|, old(State()))
      decreases n, 0, 1, 0
    {
      html := "";
      for j := 0 to |groups|
        invariant Out(html, State()) == GroupsTrace(ClassRules, ids, props, n, groups, j, old(State()))
      {
        assert forall c :: c in groups[j] ==> c in n.children.items;
        ghost var before := Out(html, State());
        var g := ConvertGroup(props, n, groups[j]);
        GroupsNext(ClassRules, ids, props, n, groups, j, old(State()), before, Out(g, State()));
        html := html + WrapWithTag("p", g, ParagraphAttrs(props));
      }
    }

    /** One group's children, inheriting the paragraph's `textStyle`. */
    method ConvertGroup(props: map<string, Value>, n: Node, group: seq<Node>) returns (html: string)
      requires n.Obj? && n.children.Items?
      requires forall c :: c in group ==> c in n.children.items
      modifies this
      ensures Out(html, State()) == GroupTrace(ClassRules, ids, props, n, group, |group|, old(State()))
      decreases n, 0, 0, 0
    {
      html := "";
      var textStyle := Get(props, "textStyle");
      for i := 0 to |group|
        invariant Out(html, State()) == GroupTrace(ClassRules, ids, props, n, group, i, old(State()))
      {
        var c := group[i];
        assert c in n.children.items by { assert c in group; }
        var h;
        if c.Obj? && !Truthy(Get(c.props, "style")) && Truthy(textStyle) {
          h := ConvertObject(c.props["style" := textStyle], c);
        } else {
          h := ConvertNode(c);
        }
        html := html + h;
      }
    }

    /** `convertImage(node)`. */
    method ConvertImage(props: map<string, Value>, n: Node) returns (html: string)
      requires n.Obj?
      modifies this
      ensures Out(html, State()) == ImageTrace(ClassRules, ids, props, n, old(State()))
      decreases n, 1, 0, 0
    {
      if !ShowsCaption(props, n) {
        return Figure(props, None);
      }
      match n.caption
      case CaptionNode(c) =>
        var caption := ConvertNode(c);
        html := Figure(props, Some(caption));
      case CaptionValue(v) =>
        html := Figure(props, Some(EscapeHtml(ToText(v))));
    }

    /** `convertCode(node)`: split the converted children into lines, pop
        trailing blank lines, draw the block's id, and build the block. */
    method ConvertCode(props: map<string, Value>, n: Node) returns (r: Result<string>)
      requires n.Obj?
      modifies this
      ensures Step(r, State()) == CodeTrace(ClassRules, ids, props, n, old(State()))
      decreases n, 1, 0, 0
    {
      var content := ConvertChildren(n);
      r := FinishCode(props, content);
    }

    /** The rest of `convertCode` once the children are converted: the lines,
        one random id, and the block. */
    method FinishCode(props: map<string, Value>, content: string) returns (r: Result<string>)
      modifies this
      ensures r == CodeBlock(props, content, ids(old(draws)))
      ensures State() == old(State()).(draws := old(draws) + 1)
    {
      var id := ids(draws);
      draws := draws + 1;
      assert State() == old(State()).(draws := old(draws) + 1);
      r := BuildCode(props, content, id);
    }
  }
}
