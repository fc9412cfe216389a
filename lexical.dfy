/** The Lexical editor state as the converters read it: a tree of JSON objects
    with a `type` tag, scalar properties, a `children` array and a few
    object-valued properties (an image caption, poll data, drawing data), and
    the Excalidraw scene a drawing node carries. */
module Lexical {
  import opened Js
  import opened Strings

  // ---------------------------------------------------------------------------
  // Nodes

  /** A node: `null`, or an object whose scalar properties are in `props`
      (a key that is absent reads as `undefined`; `k in props` is
      `hasOwnProperty(k)`) and whose structured properties are fields. */
  datatype Node =
    | Null
    | Obj(props: map<string, Value>,
          children: Children,
          caption: Caption,
          dollar: Option<PollData>,
          options: seq<PollOption>,
          colWidths: seq<Value>,
          data: SceneData)

  /** `node.children`: falsy or absent, present but not an array, or an array. */
  datatype Children = NoChildren | NotArray | Items(items: seq<Node>)

  /** `node.caption`: a scalar (possibly `undefined`) or an object. */
  datatype Caption = CaptionValue(v: Value) | CaptionNode(node: Node)

  /** Poll data (`node.$`, or the poll node's own `question`/`options`). */
  datatype PollData = PollData(question: Value, options: seq<PollOption>)

  /** A poll option: `null`, or an object with a `text` and the length of
      its `votes` array (0 when absent). */
  datatype PollOption = NullOption | Choice(text: Value, votes: nat)

  /** `node.data` of a drawing: falsy, a JSON string (and what parsing it
      gives), or an object that is already parsed. */
  datatype SceneData = NoData | Json(parsed: Parsed) | Direct(scene: Scene)

  /** The outcome of `JSON.parse` on drawing data. */
  datatype Parsed = Unparsable(message: string) | Parsed(scene: Scene)

  /** An Excalidraw scene: `elements` (absent reads as empty) and
      `appState.viewBackgroundColor`. */
  datatype Scene = Scene(elements: seq<Element>, background: Value)

  type Point = (int, int)

  /** `roundness`: its `type` and `radius` (0 when absent). */
  datatype Roundness = Roundness(kind: Value, radius: int)

  /** A scene element. Coordinates and sizes that may be absent are options
      (absent prints as `undefined` and makes arithmetic NaN); `strokeWidth`,
      `opacity` and `fontSize` are only ever read through `|| default`, so 0
      stands for absent. */
  datatype Element = Element(
    kind: Value,
    isDeleted: bool,
    x: Option<int>,
    y: Option<int>,
    width: Option<int>,
    height: Option<int>,
    strokeColor: Value,
    backgroundColor: Value,
    strokeWidth: int,
    opacity: int,
    roundness: Option<Roundness>,
    points: Option<seq<Point>>,
    text: Value,
    fontSize: int,
    fontFamily: Value)

  /** The input document: `editorState` absent, or present with a root that
      may be absent. */
  datatype Document = NoEditorState | EditorState(root: Option<Node>)

  // ---------------------------------------------------------------------------
  // Reading properties

  /** `node[key]` for a scalar property. */
  function Get(props: map<string, Value>, key: string): (v: Value)
    ensures key !in props ==> v == Undefined
  {
    if key in props then props[key] else Undefined
  }

  /** The `type` property of an object node. */
  function TypeOf(node: Node): Value
    requires node.Obj?
  {
    Get(node.props, "type")
  }

  /** `` `${node.type}` `` as it appears in messages. */
  function TypeText(node: Node): string
    requires node.Obj?
  {
    ToText(TypeOf(node))
  }

  /** The node has a truthy property `key`. */
  predicate Has(node: Node, key: string)
    requires node.Obj?
  {
    Truthy(Get(node.props, key))
  }

  /** `node.caption` is truthy: a non-null object, or a truthy scalar. */
  predicate CaptionTruthy(c: Caption)
  {
    match c
    case CaptionValue(v) => Truthy(v)
    case CaptionNode(n) => n.Obj?
  }

  /** The message of the TypeError raised by reading `prop` from `null` or
      `undefined`. */
  function ReadError(what: string, prop: string): string
  {
    "Cannot read properties of " + what + " (reading '" + prop + "')"
  }

  /** The message of the TypeError raised by calling a missing method. */
  function NotAFunction(callee: string): string
  {
    callee + " is not a function"
  }

  // ---------------------------------------------------------------------------
  // Numeric coercion

  predicate AllDigits(s: string)
  {
    forall i :: 0 <= i < |s| ==> IsDigit(s[i])
  }

  /** `Number(v)` for the values a node property holds: integers, booleans,
      null, and strings of decimal digits with an optional `-` or `+` sign,
      surrounded by white space. */
  function ToNumber(v: Value): (r: Number)
    ensures v.Num? ==> r == Finite(v.n)
    ensures v.Undefined? ==> r.NaN?
  {
    match v
    case Undefined => NaN
    case Null => Finite(0)
    case Bool(b) => Finite(if b then 1 else 0)
    case Num(n) => Finite(n)
    case Str(s) =>
      var t := Trim(s);
      if t == "" then Finite(0)
      else if AllDigits(t) then Finite(DigitsValue(t))
      else if t[0] == '-' && |t| > 1 && AllDigits(t[1..]) then (var m: int := DigitsValue(t[1..]); Finite(-m))
      else if t[0] == '+' && |t| > 1 && AllDigits(t[1..]) then Finite(DigitsValue(t[1..]))
      else NaN
  }

  /** The integer a bitwise operator sees (`ToInt32`): NaN and infinities
      become 0. Bits 0-6, all that the converters read, are those of the integer. */
  function BitwiseInt(v: Value): int
  {
    var n := ToNumber(v);
    if n.Finite? then n.i else 0
  }

  /** `v > k` for an integer `k`. */
  predicate GreaterThan(v: Value, k: int)
  {
    Greater(ToNumber(v), Finite(k))
  }

  /** `x || d` for an optional integer read as a number. */
  function OrInt(x: Option<int>, d: int): int
  {
    if x.Some? && x.value != 0 then x.value else d
  }

  /** `x || d` for an integer property where 0 stands for absent. */
  function OrDefault(x: int, d: int): int
  {
    if x != 0 then x else d
  }

  /** `v || d` for a scalar. */
  function Or(v: Value, d: Value): (r: Value)
    ensures Truthy(v) ==> r == v
    ensures !Truthy(v) ==> r == d
  {
    if Truthy(v) then v else d
  }

  /** `` `${x}` `` for an optional integer. */
  function OptText(x: Option<int>): string
  {
    if x.Some? then IntText(x.value) else "undefined"
  }

  // ---------------------------------------------------------------------------
  // Node types

  /** The type tags the converters' switch statements name, and everything else. */
  datatype Kind =
    | Root | Paragraph | Heading | Text | LineBreak | Quote | List | ListItem | Link
    | Hashtag | Table | TableRow | TableCell | Image | InlineImage | Equation | Code
    | CodeHighlight | CollapsibleContainer | CollapsibleTitle | CollapsibleContent
    | Poll | LayoutContainer | LayoutItem | PageBreak | Excalidraw | Other

  /** `switch (node.type)`: strict comparison with each case label, so only
      a string can match one. */
  function KindOf(t: Value): Kind
  {
    if t.Str? then KindOfName(t.s) else Other
  }

  /** The case labels in the order of the switch. */
  function KindOfName(s: string): Kind
  {
    if s == "root" then Root
    else if s == "paragraph" then Paragraph
    else if s == "heading" then Heading
    else if s == "text" then Text
    else if s == "linebreak" then LineBreak
    else if s == "quote" then Quote
    else if s == "list" then List
    else if s == "listitem" then ListItem
    else if s == "link" then Link
    else if s == "hashtag" then Hashtag
    else if s == "table" then Table
    else if s == "tablerow" then TableRow
    else if s == "tablecell" then TableCell
    else if s == "image" then Image
    else if s == "inline-image" then InlineImage
    else if s == "equation" then Equation
    else if s == "code" then Code
    else if s == "code-highlight" then CodeHighlight
    else if s == "collapsible-container" then CollapsibleContainer
    else if s == "collapsible-title" then CollapsibleTitle
    else if s == "collapsible-content" then CollapsibleContent
    else if s == "poll" then Poll
    else if s == "layout-container" then LayoutContainer
    else if s == "layout-item" then LayoutItem
    else if s == "page-break" then PageBreak
    else if s == "excalidraw" then Excalidraw
    else Other
  }

  /** The node is a `linebreak` object. */
  predicate IsLineBreak(node: Node)
  {
    node.Obj? && TypeOf(node) == Str("linebreak")
  }
}
