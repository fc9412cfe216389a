/** `convertExcalidraw` of `HtmlConverter` in src/converters/html-converter.ts:
    the drawing data is parsed from its JSON text, every element with an
    origin (deleted ones included) widens the bounding box, the SVG is sized
    from the node's own dimensions or from that box, and each element of a
    known type becomes one shape. A parse failure, or a shape that throws,
    gives the "invalid data" placeholder; a scene without elements gives the
    "empty canvas" placeholder. */
module HtmlConverterDrawing {
  import opened Js
  import opened Strings
  import opened HtmlUtils
  import opened Lexical
  import JsScene = ConvertJsScene
  import JsRules = ConvertJsRules

  // ---------------------------------------------------------------------------
  // Bounds

  /** `element.x !== undefined && element.y !== undefined`. */
  predicate Placed(e: Element)
  {
    e.x.Some? && e.y.Some?
  }

  /** One iteration of the bounds loop: an element with an origin widens the
      box to its origin and to `(x + (width || 0), y + (height || 0))`. */
  function AddPlaced(b: JsScene.Box, e: Element): JsScene.Box
  {
    if Placed(e) then
      var x, y := e.x.value, e.y.value;
      JsScene.Box(Min(b.minX, Finite(x)), Min(b.minY, Finite(y)),
                Max(b.maxX, Finite(x + OrInt(e.width, 0))), Max(b.maxY, Finite(y + OrInt(e.height, 0))))
    else b
  }

  /** The box after the loop over `es`, from `Infinity, Infinity, -Infinity,
      -Infinity`. */
  function Bounds(es: seq<Element>): JsScene.Box
  {
    if es == [] then JsScene.Unbounded else AddPlaced(Bounds(es[..|es| - 1]), es[|es| - 1])
  }

  /** The bounds loop of `convertExcalidraw` (written twice in the source,
      once per sizing branch, with the same body). */
  method CalcBounds(elements: seq<Element>) returns (b: JsScene.Box)
    ensures b == Bounds(elements)
  {
    var minX, minY, maxX, maxY := PosInf, PosInf, NegInf, NegInf;
    for i := 0 to |elements|
      invariant JsScene.Box(minX, minY, maxX, maxY) == Bounds(elements[..i])
    {
      assert elements[..i + 1][..i] == elements[..i];
      var e := elements[i];
      if e.x.Some? && e.y.Some? {
        minX := Min(minX, Finite(e.x.value));
        minY := Min(minY, Finite(e.y.value));
        maxX := Max(maxX, Finite(e.x.value + OrInt(e.width, 0)));
        maxY := Max(maxY, Finite(e.y.value + OrInt(e.height, 0)));
      }
    }
    assert elements[..|elements|] == elements;
    b := JsScene.Box(minX, minY, maxX, maxY);
  }

  /** The box holds the element's origin and its far corner. */
  predicate Frames(b: JsScene.Box, e: Element)
    requires Placed(e)
  {
    JsScene.Closed(b)
    && b.minX.i <= e.x.value && b.minY.i <= e.y.value
    && e.x.value + OrInt(e.width, 0) <= b.maxX.i && e.y.value + OrInt(e.height, 0) <= b.maxY.i
  }

  /** Every side of the box is reached by some element: the box is the
      smallest one holding them all. */
  predicate Tight(b: JsScene.Box, es: seq<Element>)
    requires JsScene.Closed(b)
  {
    (exists i :: 0 <= i < |es| && Placed(es[i]) && es[i].x.value == b.minX.i)
    && (exists i :: 0 <= i < |es| && Placed(es[i]) && es[i].y.value == b.minY.i)
    && (exists i :: 0 <= i < |es| && Placed(es[i]) && es[i].x.value + OrInt(es[i].width, 0) == b.maxX.i)
    && (exists i :: 0 <= i < |es| && Placed(es[i]) && es[i].y.value + OrInt(es[i].height, 0) == b.maxY.i)
  }

  /** The box is finite exactly when some element has an origin, and it
      otherwise keeps the infinite start values. */
  lemma {:induction false} BoundsClosed(es: seq<Element>)
    ensures JsScene.Closed(Bounds(es)) <==> exists i :: 0 <= i < |es| && Placed(es[i])
    ensures !JsScene.Closed(Bounds(es)) ==> Bounds(es) == JsScene.Unbounded
    decreases |es|
  {
    if es != [] {
      var init := es[..|es| - 1];
      BoundsClosed(init);
      if exists i :: 0 <= i < |es| && Placed(es[i]) {
        var i :| 0 <= i < |es| && Placed(es[i]);
        if i < |init| {
          assert Placed(init[i]);
        }
      }
      if exists i :: 0 <= i < |init| && Placed(init[i]) {
        var i :| 0 <= i < |init| && Placed(init[i]);
        assert Placed(es[i]);
      }
    }
  }

  /** The box holds every element with an origin, deleted or not. */
  lemma {:induction false} BoundsFrame(es: seq<Element>)
    ensures forall i :: 0 <= i < |es| && Placed(es[i]) ==> Frames(Bounds(es), es[i])
    decreases |es|
  {
    if es != [] {
      var init := es[..|es| - 1];
      BoundsFrame(init);
      BoundsClosed(init);
      var b0 := Bounds(init);
      var b := Bounds(es);
      forall i | 0 <= i < |es| && Placed(es[i])
        ensures Frames(b, es[i])
      {
        if i < |init| {
          assert init[i] == es[i];
          assert Frames(b0, init[i]);
        }
      }
    }
  }

  /** Each side of the box is reached by an element with an origin. */
  lemma {:induction false} BoundsTight(es: seq<Element>)
    ensures JsScene.Closed(Bounds(es)) ==> Tight(Bounds(es), es)
    decreases |es|
  {
    if es != [] {
      var init := es[..|es| - 1];
      var n := |es| - 1;
      BoundsTight(init);
      BoundsClosed(init);
      var b0 := Bounds(init);
      var b := Bounds(es);
      if JsScene.Closed(b0) {
        var i1 :| 0 <= i1 < |init| && Placed(init[i1]) && init[i1].x.value == b0.minX.i;
        var i2 :| 0 <= i2 < |init| && Placed(init[i2]) && init[i2].y.value == b0.minY.i;
        var i3 :| 0 <= i3 < |init| && Placed(init[i3]) && init[i3].x.value + OrInt(init[i3].width, 0) == b0.maxX.i;
        var i4 :| 0 <= i4 < |init| && Placed(init[i4]) && init[i4].y.value + OrInt(init[i4].height, 0) == b0.maxY.i;
        assert es[i1] == init[i1] && es[i2] == init[i2] && es[i3] == init[i3] && es[i4] == init[i4];
        if Placed(es[n]) {
          var j1 := if b.minX.i == b0.minX.i then i1 else n;
          var j2 := if b.minY.i == b0.minY.i then i2 else n;
          var j3 := if b.maxX.i == b0.maxX.i then i3 else n;
          var j4 := if b.maxY.i == b0.maxY.i then i4 else n;
          assert es[j1].x.value == b.minX.i;
          assert es[j2].y.value == b.minY.i;
          assert es[j3].x.value + OrInt(es[j3].width, 0) == b.maxX.i;
          assert es[j4].y.value + OrInt(es[j4].height, 0) == b.maxY.i;
        }
      } else if Placed(es[n]) {
        assert es[n].x.value == b.minX.i;
        assert es[n].y.value == b.minY.i;
      }
    }
  }

  // ---------------------------------------------------------------------------
  // Sizing

  /** The sizes the SVG is drawn with: the origin and size of the viewBox, and
      the display size before the 800 by 600 cap. */
  datatype Frame = Frame(minX: Number, minY: Number, viewWidth: Number, viewHeight: Number,
                         width: Number, height: Number)

  /** With both `node.width` and `node.height` truthy, the display size is
      theirs (`Math.round` leaves the integers of this model as they are) and
      the viewBox is the box with a margin of 20; otherwise the display size
      and the viewBox size are the margined box, at least 400 by 300. */
  function FrameOf(props: map<string, Value>, b: JsScene.Box): (f: Frame)
    ensures f.minX == Sub(b.minX, Finite(20)) && f.minY == Sub(b.minY, Finite(20))
    ensures Truthy(Get(props, "width")) && Truthy(Get(props, "height")) ==>
      f.width == ToNumber(Get(props, "width")) && f.height == ToNumber(Get(props, "height"))
    ensures !(Truthy(Get(props, "width")) && Truthy(Get(props, "height"))) ==>
      f.viewWidth == f.width && f.viewHeight == f.height
  {
    var minX := Sub(b.minX, Finite(20));
    var minY := Sub(b.minY, Finite(20));
    var contentWidth := Add(Sub(b.maxX, b.minX), Finite(40));
    var contentHeight := Add(Sub(b.maxY, b.minY), Finite(40));
    var nodeWidth, nodeHeight := Get(props, "width"), Get(props, "height");
    if Truthy(nodeWidth) && Truthy(nodeHeight) then
      Frame(minX, minY, contentWidth, contentHeight, ToNumber(nodeWidth), ToNumber(nodeHeight))
    else
      var width := Max(Finite(400), contentWidth);
      var height := Max(Finite(300), contentHeight);
      Frame(minX, minY, width, height, width, height)
  }

  /** The viewBox holds every element with an origin with a margin of at
      least 20 on each side; without node dimensions the drawing is at least
      400 by 300. */
  lemma FrameHolds(props: map<string, Value>, es: seq<Element>, i: nat)
    requires i < |es| && Placed(es[i])
    ensures var f := FrameOf(props, Bounds(es));
      var e := es[i];
      f.minX.Finite? && f.minY.Finite? && f.viewWidth.Finite? && f.viewHeight.Finite?
      && f.minX.i + 20 <= e.x.value && e.x.value + OrInt(e.width, 0) + 20 <= f.minX.i + f.viewWidth.i
      && f.minY.i + 20 <= e.y.value && e.y.value + OrInt(e.height, 0) + 20 <= f.minY.i + f.viewHeight.i
      && (!(Truthy(Get(props, "width")) && Truthy(Get(props, "height"))) ==>
            f.width.i >= 400 && f.height.i >= 300)
  {
    BoundsFrame(es);
    assert Frames(Bounds(es), es[i]);
  }

  /** The viewBox size: the extent of the elements with an origin plus a
      margin of 20 each way, raised to 400 by 300 without node dimensions.
      Without any element with an origin the extent is `-Infinity`, so the
      view is `-Infinity` by `-Infinity` with node dimensions and 400 by 300
      without. */
  lemma FrameSize(props: map<string, Value>, es: seq<Element>)
    ensures var f, b := FrameOf(props, Bounds(es)), Bounds(es);
      var sized := Truthy(Get(props, "width")) && Truthy(Get(props, "height"));
      (JsScene.Closed(b) ==>
         var cw, ch := b.maxX.i - b.minX.i + 40, b.maxY.i - b.minY.i + 40;
         (sized ==> f.viewWidth == Finite(cw) && f.viewHeight == Finite(ch))
         && (!sized ==> f.viewWidth == Finite(if cw >= 400 then cw else 400)
                        && f.viewHeight == Finite(if ch >= 300 then ch else 300)))
      && (!JsScene.Closed(b) ==>
         (sized ==> f.viewWidth == NegInf && f.viewHeight == NegInf)
         && (!sized ==> f.viewWidth == Finite(400) && f.viewHeight == Finite(300)))
  {
    BoundsClosed(es);
  }

  /** `${minX} ${minY} ${width} ${height}`. */
  function ViewBox(f: Frame): string
  {
    NumberText(f.minX) + " " + NumberText(f.minY) + " " + NumberText(f.viewWidth) + " "
    + NumberText(f.viewHeight)
  }

  // ---------------------------------------------------------------------------
  // Shapes

  /** `element.strokeColor || '#000'`. */
  function Stroke(e: Element): string
  {
    ToText(Or(e.strokeColor, Str("#000")))
  }

  /** `element.strokeWidth || 2`. */
  function StrokeWidth(e: Element): string
  {
    IntText(OrDefault(e.strokeWidth, 2))
  }

  /** `element.backgroundColor || 'transparent'`. */
  function Fill(e: Element): string
  {
    ToText(Or(e.backgroundColor, Str("transparent")))
  }

  /** `element.roundness?.radius || 0`. */
  function Radius(e: Element): string
  {
    if e.roundness.Some? then IntText(OrDefault(e.roundness.value.radius, 0)) else "0"
  }

  function Rect(e: Element): string
  {
    "<rect x=\"" + OptText(e.x) + "\" y=\"" + OptText(e.y) + "\" width=\"" + OptText(e.width)
    + "\" height=\"" + OptText(e.height) + "\" \n                  fill=\"" + Fill(e)
    + "\" \n                  stroke=\"" + Stroke(e) + "\" \n                  stroke-width=\"" + StrokeWidth(e)
    + "\" \n                  rx=\"" + Radius(e) + "\"/>"
  }

  /** Centre `(x + width / 2, y + height / 2)`, radii half the sides. */
  function Ellipse(e: Element): string
  {
    "<ellipse cx=\"" + HalfText(JsScene.Centre(e.x, e.width)) + "\" cy=\"" + HalfText(JsScene.Centre(e.y, e.height))
    + "\" rx=\"" + HalfText(OptNumber(e.width)) + "\" ry=\"" + HalfText(OptNumber(e.height))
    + "\" \n                  fill=\"" + Fill(e) + "\" \n                  stroke=\"" + Stroke(e)
    + "\" \n                  stroke-width=\"" + StrokeWidth(e) + "\"/>"
  }

  /** A freedraw element with points: the commands joined by spaces. */
  function Path(e: Element): string
    requires e.points.Some?
  {
    var pathData := Join(JsScene.Commands(OptNumber(e.x), OptNumber(e.y), e.points.value), " ");
    "<path d=\"" + pathData + "\" \n                    fill=\"none\" \n                    stroke=\"" + Stroke(e)
    + "\" \n                    stroke-width=\"" + StrokeWidth(e) + "\"/>"
  }

  /** A line from the origin to `(x + width, y + height)`; an arrow adds the
      arrowhead marker. */
  function Line(e: Element, arrow: bool): string
  {
    "<line x1=\"" + OptText(e.x) + "\" y1=\"" + OptText(e.y) + "\" \n                  x2=\""
    + NumberText(Add(OptNumber(e.x), OptNumber(e.width))) + "\" y2=\""
    + NumberText(Add(OptNumber(e.y), OptNumber(e.height))) + "\" \n                  stroke=\"" + Stroke(e)
    + "\" \n                  stroke-width=\"" + StrokeWidth(e)
    + (if arrow then "\" \n                  marker-end=\"url(#arrowhead)\"/>" else "\"/>")
  }

  /** The escaped text 20 below the origin; `escapeHtml` throws on a text
      that is not a string. */
  function Text(e: Element): (r: Result<string>)
    ensures r.Throw? <==> Truthy(e.text) && !e.text.Str?
  {
    var escaped :- JsRules.EscapeValue(Or(e.text, Str("")));
    Ok("<text x=\"" + OptText(e.x) + "\" y=\"" + NumberText(Add(OptNumber(e.y), Finite(20)))
       + "\" \n                  font-family=\"Arial, sans-serif\" \n                  font-size=\""
       + IntText(OrDefault(e.fontSize, 16)) + "\" \n                  fill=\"" + Stroke(e) + "\">"
       + escaped + "</text>")
  }

  /** The `switch (element.type)`: six known types, nothing for the others
      and for a freedraw element without points; only a text can throw. */
  function Shape(e: Element): (r: Result<string>)
    ensures r.Throw? <==> e.kind == Str("text") && Truthy(e.text) && !e.text.Str?
    ensures r.Ok? && r.value == "" <==>
      (e.kind == Str("freedraw") && (e.points.None? || e.points.value == []))
      || !(e.kind in {Str("rectangle"), Str("ellipse"), Str("freedraw"), Str("line"), Str("arrow"), Str("text")})
  {
    if e.kind == Str("rectangle") then Ok(Rect(e))
    else if e.kind == Str("ellipse") then Ok(Ellipse(e))
    else if e.kind == Str("freedraw") then
      (if e.points.Some? && |e.points.value| > 0 then Ok(Path(e)) else Ok(""))
    else if e.kind == Str("line") then Ok(Line(e, false))
    else if e.kind == Str("arrow") then Ok(Line(e, true))
    else if e.kind == Str("text") then Text(e)
    else Ok("")
  }

  /** `svgElements`: the shapes of all elements, deleted ones included, in
      order, or the first exception. */
  function Shapes(es: seq<Element>): Result<string>
  {
    ConcatMap(es, Shape)
  }

  /** The element loop: each shape is appended in order; a text that throws
      ends it. */
  method DrawElements(elements: seq<Element>) returns (r: Result<string>)
    ensures r == Shapes(elements)
  {
    var svgElements := "";
    for i := 0 to |elements|
      invariant ConcatMap(elements[..i], Shape) == Ok(svgElements)
    {
      ConcatMapSnoc(elements, i, Shape);
      var shape := Shape(elements[i]);
      if shape.Throw? {
        ConcatMapKeepsThrow(elements, i + 1, Shape);
        return shape;
      }
      svgElements := svgElements + shape.value;
    }
    assert elements[..|elements|] == elements;
    r := Ok(svgElements);
  }

  /** `isDeleted` is never consulted: the same elements marked deleted or not
      give the same box and the same shapes. */
  lemma {:induction false} DeletedStillDrawn(es: seq<Element>, marked: seq<Element>)
    requires |marked| == |es|
    requires forall i :: 0 <= i < |es| ==> marked[i] == es[i].(isDeleted := marked[i].isDeleted)
    ensures Bounds(marked) == Bounds(es)
    ensures Shapes(marked) == Shapes(es)
  {
    DeletedSameBounds(es, marked);
    DeletedSameShapes(es, marked);
  }

  lemma {:induction false} DeletedSameBounds(es: seq<Element>, marked: seq<Element>)
    requires |marked| == |es|
    requires forall i :: 0 <= i < |es| ==> marked[i] == es[i].(isDeleted := marked[i].isDeleted)
    ensures Bounds(marked) == Bounds(es)
    decreases |es|
  {
    if es != [] {
      var n := |es| - 1;
      DeletedSameBounds(es[..n], marked[..n]);
      assert AddPlaced(Bounds(marked[..n]), marked[n]) == AddPlaced(Bounds(es[..n]), es[n]);
    }
  }

  lemma {:induction false} DeletedSameShapes(es: seq<Element>, marked: seq<Element>)
    requires |marked| == |es|
    requires forall i :: 0 <= i < |es| ==> marked[i] == es[i].(isDeleted := marked[i].isDeleted)
    ensures Shapes(marked) == Shapes(es)
    decreases |es|
  {
    if es != [] {
      var n := |es| - 1;
      DeletedSameShapes(es[..n], marked[..n]);
      ShapeIgnoresDeleted(es[n], marked[n].isDeleted);
    }
  }

  lemma ShapeIgnoresDeleted(e: Element, d: bool)
    ensures Shape(e.(isDeleted := d)) == Shape(e)
  {
  }

  // ---------------------------------------------------------------------------
  // The drawing

  /** The SVG of a scene with elements: the capped display size, the viewBox,
      the arrowhead definition, a frame rectangle over the viewBox origin, then
      the shapes. */
  function SvgText(f: Frame, svgElements: string): string
  {
    "\n            <svg width=\"" + NumberText(Min(f.width, Finite(800))) + "\" height=\""
    + NumberText(Min(f.height, Finite(600))) + "\" \n              viewBox=\"" + ViewBox(f)
    + "\" xmlns=\"http://www.w3.org/2000/svg\">\n              "
    + "\n            <defs>\n              <marker id=\"arrowhead\" markerWidth=\"10\" markerHeight=\"7\" \n                refX=\"9\" refY=\"3.5\" orient=\"auto\">\n                <polygon points=\"0 0, 10 3.5, 0 7\" fill=\"#000\"/>\n              </marker>\n            </defs>\n          "
    + "\n              <rect x=\"" + NumberText(f.minX) + "\" y=\"" + NumberText(f.minY) + "\" width=\""
    + NumberText(f.width) + "\" height=\"" + NumberText(f.height)
    + "\" \n                fill=\"white\" stroke=\"#e0e0e0\" stroke-width=\"1\"/>\n              "
    + svgElements + "\n            </svg>\n          "
  }

  /** The placeholder size: `node.width ? Math.round(node.width) : 400` and
      `node.height ? Math.round(node.height) : 200`. */
  function PlaceholderSize(props: map<string, Value>): (Number, Number)
  {
    var width, height := Get(props, "width"), Get(props, "height");
    (if Truthy(width) then ToNumber(width) else Finite(400),
     if Truthy(height) then ToNumber(height) else Finite(200))
  }

  function EmptyCanvas(props: map<string, Value>): string
  {
    var (dw, dh) := PlaceholderSize(props);
    var w, h := NumberText(dw), NumberText(dh);
    "\n            <svg width=\"" + w + "\" height=\"" + h + "\" viewBox=\"0 0 " + w + " " + h
    + "\" xmlns=\"http://www.w3.org/2000/svg\">\n              <rect width=\"" + w + "\" height=\"" + h
    + "\" fill=\"#f8f9fa\" stroke=\"#dee2e6\" stroke-width=\"2\" rx=\"8\"/>\n              <text x=\""
    + HalfText(dw) + "\" y=\"" + HalfText(Sub(dh, Finite(20)))
    + "\" text-anchor=\"middle\" font-family=\"Arial, sans-serif\" font-size=\"16\" fill=\"#6c757d\">\n                \U{F8FF}\U{FC}\U{EC}\U{F9} Empty Excalidraw Canvas\n              </text>\n              <text x=\""
    + HalfText(dw) + "\" y=\"" + HalfText(Add(dh, Finite(40)))
    + "\" text-anchor=\"middle\" font-family=\"Arial, sans-serif\" font-size=\"12\" fill=\"#999\">\n                No drawing elements found\n              </text>\n            </svg>\n          "
  }

  function InvalidData(props: map<string, Value>): string
  {
    var (dw, dh) := PlaceholderSize(props);
    var w, h := NumberText(dw), NumberText(dh);
    "\n        <svg width=\"" + w + "\" height=\"" + h + "\" viewBox=\"0 0 " + w + " " + h
    + "\" xmlns=\"http://www.w3.org/2000/svg\">\n          <rect width=\"" + w + "\" height=\"" + h
    + "\" fill=\"#ffe6e6\" stroke=\"#ff9999\" stroke-width=\"2\" rx=\"8\"/>\n          <text x=\""
    + HalfText(dw) + "\" y=\"" + HalfText(Sub(dh, Finite(20)))
    + "\" text-anchor=\"middle\" font-family=\"Arial, sans-serif\" font-size=\"16\" fill=\"#cc0000\">\n            \U{201A}\U{F6}\U{2020}\U{D4}\U{220F}\U{E8} Invalid Excalidraw Data\n          </text>\n          <text x=\""
    + HalfText(dw) + "\" y=\"" + HalfText(Add(dh, Finite(40)))
    + "\" text-anchor=\"middle\" font-family=\"Arial, sans-serif\" font-size=\"12\" fill=\"#666\">\n            Could not parse drawing data\n          </text>\n        </svg>\n      "
  }

  /** The placeholder text sits at the centre: `displayHeight / 2 - 10` is
      half of `displayHeight - 20`, `displayHeight / 2 + 20` half of
      `displayHeight + 40`. */
  lemma PlaceholderCentred(props: map<string, Value>)
    requires PlaceholderSize(props).1.Finite? && PlaceholderSize(props).1.i % 2 == 0
    ensures var dh := PlaceholderSize(props).1.i;
      HalfText(Sub(PlaceholderSize(props).1, Finite(20))) == IntText(dh / 2 - 10)
      && HalfText(Add(PlaceholderSize(props).1, Finite(40))) == IntText(dh / 2 + 20)
  {
    HalvesShifted(PlaceholderSize(props).1);
  }

  lemma HalvesShifted(h: Number)
    requires h.Finite? && h.i % 2 == 0
    ensures HalfText(Sub(h, Finite(20))) == IntText(h.i / 2 - 10)
    ensures HalfText(Add(h, Finite(40))) == IntText(h.i / 2 + 20)
  {
    assert (h.i - 20) / 2 == h.i / 2 - 10;
    assert (h.i + 40) / 2 == h.i / 2 + 20;
  }

  /** What `JSON.parse(data)` gives: a scene, or an exception for text that
      does not parse and for data that is already an object (its string form
      is not JSON). */
  function ParsedScene(data: SceneData): Result<Scene>
    requires !data.NoData?
  {
    match data
    case Json(Parsed(scene)) => Ok(scene)
    case Json(Unparsable(m)) => Throw(m)
    case Direct(_) => Throw("Unexpected token 'o', \"[object Object]\" is not valid JSON")
  }

  /** What the drawing's `div` holds. */
  datatype Outcome = NoSvg | Invalid | EmptyScene | Picture(frame: Frame, svgElements: string)

  /** Nothing without data; the invalid placeholder when parsing throws, or
      when a shape of a scene with elements throws; the empty placeholder for
      a scene without elements; else the SVG of the scene, sized by the frame
      of its box. */
  function OutcomeOf(props: map<string, Value>, data: SceneData): (o: Outcome)
    ensures o.NoSvg? <==> data.NoData?
    ensures o.EmptyScene? <==> !data.NoData? && ParsedScene(data).Ok? && ParsedScene(data).value.elements == []
    ensures o.Invalid? <==>
      !data.NoData? && (ParsedScene(data).Throw?
                        || (ParsedScene(data).value.elements != [] && Shapes(ParsedScene(data).value.elements).Throw?))
    ensures o.Picture? ==>
      var es := ParsedScene(data).value.elements;
      Shapes(es) == Ok(o.svgElements) && o.frame == FrameOf(props, Bounds(es))
  {
    if data.NoData? then NoSvg
    else
      match ParsedScene(data)
      case Throw(_) => Invalid
      case Ok(scene) =>
        if scene.elements == [] then EmptyScene
        else
          match Shapes(scene.elements)
          case Throw(_) => Invalid
          case Ok(svgElements) => Picture(FrameOf(props, Bounds(scene.elements)), svgElements)
  }

  /** The markup of each outcome. */
  function OutcomeText(props: map<string, Value>, o: Outcome): string
  {
    match o
    case NoSvg => ""
    case Invalid => InvalidData(props)
    case EmptyScene => EmptyCanvas(props)
    case Picture(f, svgElements) => SvgText(f, svgElements)
  }

  /** `convertExcalidraw`: the content in a `div` of class
      `excalidraw-simple` whose id is `excalidraw-` and the random id. */
  function Drawing(props: map<string, Value>, data: SceneData, id: string): string
  {
    WrapWithTag("div", OutcomeText(props, OutcomeOf(props, data)),
                [("class", Str("excalidraw-simple")), ("id", Str("excalidraw-" + id))])
  }

  /** `convertExcalidraw`, with its two loops. */
  method RenderDrawing(props: map<string, Value>, data: SceneData, id: string) returns (html: string)
    ensures html == Drawing(props, data, id)
  {
    var outcome := NoSvg;
    if !data.NoData? {
      var parsed := ParsedScene(data);
      if parsed.Throw? {
        outcome := Invalid;
      } else if |parsed.value.elements| == 0 {
        outcome := EmptyScene;
      } else {
        var elements := parsed.value.elements;
        var b := CalcBounds(elements);
        var f := FrameOf(props, b);
        var svgElements := DrawElements(elements);
        if svgElements.Throw? {
          outcome := Invalid;
        } else {
          outcome := Picture(f, svgElements.value);
        }
      }
    }
    assert outcome == OutcomeOf(props, data);
    html := WrapWithTag("div", OutcomeText(props, outcome),
                        [("class", Str("excalidraw-simple")), ("id", Str("excalidraw-" + id))]);
  }
}
