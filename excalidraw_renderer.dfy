/** The stand-alone drawing renderer of src/utils/excalidraw-renderer.js:
    the box of the live elements (freedraw points left out), widened by a
    padding of 10, a viewBox from the origin, every live element translated
    so that the padded corner is at `0 0`, and a display size capped at
    600 by 400. A parse failure becomes a fixed error box. */
module ExcalidrawRenderer {
  import opened Js
  import opened Strings
  import opened Lexical
  import JsScene = ConvertJsScene

  type Box = JsScene.Box

  // ---------------------------------------------------------------------------
  // Bounds

  /** One iteration of the bounds loop: a deleted element is skipped, a live
      one widens the box to `(x, y)` and `(x + (width || 0), y + (height || 0))`. */
  function LiveFrame(b: Box, e: Element): Box
  {
    if e.isDeleted then b else JsScene.AddFrame(b, e)
  }

  /** The box after the loop over `es`, from `b`. */
  function Frames(b: Box, es: seq<Element>): Box
  {
    if es == [] then b else LiveFrame(Frames(b, es[..|es| - 1]), es[|es| - 1])
  }

  /** The box after the loop over `es`, from the infinities. */
  function Bounds(es: seq<Element>): Box
  {
    Frames(JsScene.Unbounded, es)
  }

  lemma {:induction false} FramesAppend(b: Box, es: seq<Element>, more: seq<Element>)
    ensures Frames(b, es + more) == Frames(Frames(b, es), more)
    decreases |more|
  {
    if more == [] {
      assert es + more == es;
    } else {
      assert (es + more)[..|es + more| - 1] == es + more[..|more| - 1];
      FramesAppend(b, es, more[..|more| - 1]);
    }
  }

  /** Deleted elements are skipped: removing one does not move the box. */
  lemma BoundsSkipsDeleted(before: seq<Element>, e: Element, after: seq<Element>)
    requires e.isDeleted
    ensures Bounds(before + [e] + after) == Bounds(before + after)
  {
    FramesAppend(JsScene.Unbounded, before + [e], after);
    FramesAppend(JsScene.Unbounded, before, after);
    assert (before + [e])[..|before + [e]| - 1] == before;
  }

  /** Unlike the box of src/convert.js, this box ignores freedraw points:
      replacing the points of any element leaves it where it was. */
  lemma {:induction false} BoundsIgnorePoints(es: seq<Element>, i: nat, pts: Option<seq<Point>>)
    requires i < |es|
    ensures Bounds(es[i := es[i].(points := pts)]) == Bounds(es)
    decreases |es|
  {
    var es' := es[i := es[i].(points := pts)];
    var n := |es| - 1;
    assert es'[..n] == if i == n then es[..n] else es[..n][i := es[i].(points := pts)];
    if i < n {
      BoundsIgnorePoints(es[..n], i, pts);
    }
    assert LiveFrame(Bounds(es[..n]), es'[n]) == LiveFrame(Bounds(es[..n]), es[n]);
  }

  /** Where no live element is a freedraw with points, the two renderers
      agree on the box. */
  lemma {:induction false} BoundsAgree(es: seq<Element>)
    requires forall j :: 0 <= j < |es| ==> !JsScene.IsFreedraw(es[j])
    ensures Bounds(es) == JsScene.Bounds(JsScene.Unbounded, es)
    decreases |es|
  {
    if es != [] {
      var n := |es| - 1;
      assert forall j :: 0 <= j < n ==> es[..n][j] == es[j];
      BoundsAgree(es[..n]);
    }
  }

  /** A scene of deleted elements keeps the infinities, and the padded svg
      size is then `-Infinity` by `-Infinity`. */
  lemma {:induction false} BoundsAllDeleted(es: seq<Element>)
    requires forall j :: 0 <= j < |es| ==> es[j].isDeleted
    ensures Bounds(es) == JsScene.Unbounded
    ensures SvgWidth(Pad(Bounds(es))) == NegInf && SvgHeight(Pad(Bounds(es))) == NegInf
    decreases |es|
  {
    if es != [] {
      var n := |es| - 1;
      assert forall j :: 0 <= j < n ==> es[..n][j] == es[j];
      BoundsAllDeleted(es[..n]);
    }
  }

  /** The box holds the frame of a live element: its origin at or after the
      minimum and `(x + (width || 0), y + (height || 0))` at or before the
      maximum (freedraw points play no part). */
  predicate HoldsFrame(b: Box, e: Element)
    requires e.x.Some? && e.y.Some?
  {
    JsScene.Closed(b)
    && b.minX.i <= e.x.value && b.minY.i <= e.y.value
    && e.x.value + OrInt(e.width, 0) <= b.maxX.i && e.y.value + OrInt(e.height, 0) <= b.maxY.i
  }

  lemma LiveFrameWidens(b: Box, e: Element)
    requires JsScene.Sane(b) && JsScene.Defined(e)
    ensures JsScene.Sane(LiveFrame(b, e))
    ensures JsScene.Closed(b) ==> JsScene.Within(b, LiveFrame(b, e))
    ensures !e.isDeleted ==> HoldsFrame(LiveFrame(b, e), e)
  {
  }

  /** When every live element has a defined origin, the box of the scene
      holds the frame of each live element. */
  lemma {:induction false} BoundsHoldFrames(es: seq<Element>, i: nat)
    requires i < |es| && !es[i].isDeleted
    requires JsScene.AllDefined(es)
    ensures JsScene.Sane(Bounds(es)) && HoldsFrame(Bounds(es), es[i])
    decreases |es|
  {
    var n := |es| - 1;
    var prefix := es[..n];
    assert forall j :: 0 <= j < n ==> prefix[j] == es[j];
    BoundsSane(prefix);
    LiveFrameWidens(Bounds(prefix), es[n]);
    if i < n {
      BoundsHoldFrames(prefix, i);
    }
  }

  lemma {:induction false} BoundsSane(es: seq<Element>)
    requires JsScene.AllDefined(es)
    ensures JsScene.Sane(Bounds(es))
    decreases |es|
  {
    if es != [] {
      var n := |es| - 1;
      assert forall j :: 0 <= j < n ==> es[..n][j] == es[j];
      BoundsSane(es[..n]);
      LiveFrameWidens(Bounds(es[..n]), es[n]);
    }
  }

  /** Every finite side of the box is reached by a live element: its origin
      for the minima, its far corner for the maxima. */
  predicate Reached(b: Box, es: seq<Element>)
  {
    (b.minX.Finite? ==> exists i :: 0 <= i < |es| && !es[i].isDeleted && es[i].x == Some(b.minX.i))
    && (b.minY.Finite? ==> exists i :: 0 <= i < |es| && !es[i].isDeleted && es[i].y == Some(b.minY.i))
    && (b.maxX.Finite? ==> exists i :: 0 <= i < |es| && !es[i].isDeleted && es[i].x.Some?
                                       && es[i].x.value + OrInt(es[i].width, 0) == b.maxX.i)
    && (b.maxY.Finite? ==> exists i :: 0 <= i < |es| && !es[i].isDeleted && es[i].y.Some?
                                       && es[i].y.value + OrInt(es[i].height, 0) == b.maxY.i)
  }

  /** The box is the smallest that holds the frames of the live elements:
      each finite side is the origin or far corner of one of them. */
  lemma {:induction false} BoundsReached(es: seq<Element>)
    ensures Reached(Bounds(es), es)
    decreases |es|
  {
    if es != [] {
      var n := |es| - 1;
      var prefix := es[..n];
      assert forall j :: 0 <= j < n ==> prefix[j] == es[j];
      BoundsReached(prefix);
    }
  }

  const Padding := 10

  /** The box after `minX -= padding; … maxY += padding`. */
  function Pad(b: Box): (p: Box)
    ensures JsScene.Closed(b) ==>
              JsScene.Closed(p)
              && p.minX.i == b.minX.i - Padding && p.minY.i == b.minY.i - Padding
              && p.maxX.i == b.maxX.i + Padding && p.maxY.i == b.maxY.i + Padding
  {
    JsScene.Box(Sub(b.minX, Finite(Padding)), Sub(b.minY, Finite(Padding)),
                Add(b.maxX, Finite(Padding)), Add(b.maxY, Finite(Padding)))
  }

  /** `maxX - minX` and `maxY - minY` of the padded box. */
  function SvgWidth(p: Box): Number
  {
    Sub(p.maxX, p.minX)
  }

  function SvgHeight(p: Box): Number
  {
    Sub(p.maxY, p.minY)
  }

  /** Translated by the padded corner, every live element lies inside the
      svg with the padding to spare on each side, and the svg is the raw box
      plus twice the padding each way. */
  lemma TranslatedInside(es: seq<Element>, i: nat)
    requires i < |es| && !es[i].isDeleted
    requires JsScene.AllDefined(es)
    ensures var b, p := Bounds(es), Pad(Bounds(es));
      var w, h := SvgWidth(p), SvgHeight(p);
      var tx, ty := Sub(OptNumber(es[i].x), p.minX), Sub(OptNumber(es[i].y), p.minY);
      JsScene.Closed(b)
      && w == Finite(b.maxX.i - b.minX.i + 2 * Padding) && h == Finite(b.maxY.i - b.minY.i + 2 * Padding)
      && tx.Finite? && Padding <= tx.i && tx.i + OrInt(es[i].width, 0) <= w.i - Padding
      && ty.Finite? && Padding <= ty.i && ty.i + OrInt(es[i].height, 0) <= h.i - Padding
  {
    BoundsHoldFrames(es, i);
  }

  /** The printed display size: the svg size, or, when the svg is wider than
      600 or taller than 400, the size scaled down by `fit` (the
      floating-point division and product of the source). */
  function Display(w: Number, h: Number, fit: (Number, Number) -> (string, string)): (r: (string, string))
    ensures !Greater(w, Finite(600)) && !Greater(h, Finite(400)) ==> r == (NumberText(w), NumberText(h))
    ensures Greater(w, Finite(600)) || Greater(h, Finite(400)) ==> r == fit(w, h)
  {
    if Greater(w, Finite(600)) || Greater(h, Finite(400)) then fit(w, h) else (NumberText(w), NumberText(h))
  }

  // ---------------------------------------------------------------------------
  // Shapes

  /** `element.strokeColor || '#000'`. */
  function Stroke(e: Element): string
  {
    ToText(Or(e.strokeColor, Str("#000")))
  }

  /** `element.strokeWidth || 1`. */
  function StrokeWidth(e: Element): string
  {
    IntText(OrDefault(e.strokeWidth, 1))
  }

  /** A rectangle at the translated origin; `rx` is 8 for a `roundness.type`
      of 3, else 0. */
  function Rectangle(e: Element, x: Number, y: Number): string
  {
    var rx := if e.roundness.Some? && e.roundness.value.kind == Num(3) then "8" else "0";
    "\n            <rect \n              x=\"" + NumberText(x) + "\" \n              y=\"" + NumberText(y)
    + "\" \n              width=\"" + OptText(e.width) + "\" \n              height=\"" + OptText(e.height)
    + "\" \n              fill=\"none\" \n              stroke=\"" + Stroke(e)
    + "\" \n              stroke-width=\"" + StrokeWidth(e) + "\"\n              rx=\"" + rx
    + "\"\n            />"
  }

  /** The path of a freedraw element with points: a moveto to the first point
      and a lineto to each later one, each offset by the translated origin,
      joined by spaces. */
  function FreedrawPath(e: Element, x: Number, y: Number): (r: string)
    requires e.points.Some?
    ensures r != ""
  {
    "\n              <path \n                d=\"" + Join(JsScene.Commands(x, y, e.points.value), " ")
    + "\" \n                fill=\"none\" \n                stroke=\"" + Stroke(e)
    + "\" \n                stroke-width=\"" + StrokeWidth(e)
    + "\"\n                stroke-linecap=\"round\"\n                stroke-linejoin=\"round\"\n              />"
  }

  /** An ellipse: radii half the sides, centre the translated origin plus
      the radii (printed from counts of halves). */
  function Ellipse(e: Element, x: Number, y: Number): string
  {
    var w, h := OptNumber(e.width), OptNumber(e.height);
    "\n            <ellipse \n              cx=\"" + HalfText(Add(Add(x, x), w)) + "\" \n              cy=\""
    + HalfText(Add(Add(y, y), h)) + "\" \n              rx=\"" + HalfText(w) + "\" \n              ry=\""
    + HalfText(h) + "\" \n              fill=\"none\" \n              stroke=\"" + Stroke(e)
    + "\" \n              stroke-width=\"" + StrokeWidth(e) + "\"\n            />"
  }

  /** A line from the first to the second point, offset by the translated
      origin. */
  function Line(e: Element, x: Number, y: Number): (r: string)
    requires e.points.Some? && |e.points.value| >= 2
    ensures r != ""
  {
    var p, q := e.points.value[0], e.points.value[1];
    "\n              <line \n                x1=\"" + NumberText(Add(x, Finite(p.0))) + "\" \n                y1=\""
    + NumberText(Add(y, Finite(p.1))) + "\" \n                x2=\"" + NumberText(Add(x, Finite(q.0)))
    + "\" \n                y2=\"" + NumberText(Add(y, Finite(q.1))) + "\" \n                stroke=\""
    + Stroke(e) + "\" \n                stroke-width=\"" + StrokeWidth(e) + "\"\n              />"
  }

  /** The `switch (element.type)` for a live element at the translated
      origin `(x, y)`: a freedraw element needs a point and a line two;
      every other type draws nothing. */
  function ShapeAt(e: Element, x: Number, y: Number): (r: string)
    ensures r != "" ==> e.kind in {Str("rectangle"), Str("freedraw"), Str("ellipse"), Str("line")}
  {
    if e.kind == Str("rectangle") then Rectangle(e, x, y)
    else if e.kind == Str("freedraw") then
      (if e.points.Some? && |e.points.value| > 0 then FreedrawPath(e, x, y) else "")
    else if e.kind == Str("ellipse") then Ellipse(e, x, y)
    else if e.kind == Str("line") then
      (if e.points.Some? && |e.points.value| >= 2 then Line(e, x, y) else "")
    else ""
  }

  /** A freedraw element is drawn exactly when it has a point. */
  lemma FreedrawNeedsPoint(e: Element, x: Number, y: Number)
    requires e.kind == Str("freedraw")
    ensures ShapeAt(e, x, y) == "" <==> e.points.None? || e.points.value == []
  {
  }

  /** A line is drawn exactly when it has two points, and only the first
      two count. */
  lemma LineNeedsTwoPoints(e: Element, x: Number, y: Number)
    requires e.kind == Str("line")
    ensures ShapeAt(e, x, y) == "" <==> e.points.None? || |e.points.value| < 2
    ensures e.points.Some? && |e.points.value| >= 2 ==>
      ShapeAt(e, x, y) == ShapeAt(e.(points := Some(e.points.value[..2])), x, y)
  {
  }

  /** One iteration of the element loop, against the padded corner
      `(minX, minY)`: nothing for a deleted element, else its shape at
      `(x - minX, y - minY)`. */
  function Shape(e: Element, minX: Number, minY: Number): string
  {
    if e.isDeleted then "" else ShapeAt(e, Sub(OptNumber(e.x), minX), Sub(OptNumber(e.y), minY))
  }

  /** `svgElements` after the loop over `es`. */
  function Shapes(es: seq<Element>, minX: Number, minY: Number): string
  {
    MapConcat(es, e => Shape(e, minX, minY))
  }

  /** The shapes follow the element order. */
  lemma ShapesAppend(es: seq<Element>, more: seq<Element>, minX: Number, minY: Number)
    ensures Shapes(es + more, minX, minY) == Shapes(es, minX, minY) + Shapes(more, minX, minY)
  {
    MapConcatAppend(es, more, e => Shape(e, minX, minY));
  }

  /** A deleted element draws nothing and leaves the others in place. */
  lemma ShapesSkipDeleted(before: seq<Element>, e: Element, after: seq<Element>, minX: Number, minY: Number)
    requires e.isDeleted
    ensures Shapes(before + [e] + after, minX, minY) == Shapes(before + after, minX, minY)
  {
    ShapesAppend(before + [e], after, minX, minY);
    ShapesAppend(before, [e], minX, minY);
    ShapesAppend(before, after, minX, minY);
    MapConcatSingle(e, e => Shape(e, minX, minY));
    assert Shapes(before, minX, minY) + "" == Shapes(before, minX, minY);
  }

  /** Only live rectangles, freedraws, ellipses and lines draw anything. */
  lemma {:induction false} ShapesOfUnknownKinds(es: seq<Element>, minX: Number, minY: Number)
    requires forall j :: 0 <= j < |es| ==>
      es[j].isDeleted || es[j].kind !in {Str("rectangle"), Str("freedraw"), Str("ellipse"), Str("line")}
    ensures Shapes(es, minX, minY) == ""
    decreases |es|
  {
    if es != [] {
      var n := |es| - 1;
      assert forall j :: 0 <= j < n ==> es[..n][j] == es[j];
      ShapesOfUnknownKinds(es[..n], minX, minY);
    }
  }

  // ---------------------------------------------------------------------------
  // The whole drawing

  const EmptyScene := "<div class=\"excalidraw-empty\">Kh\U{00F4}ng c\U{00F3} n\U{1ED9}i dung v\U{1EBD}</div>"

  const Unreadable := "<div class=\"excalidraw-error\">Kh\U{00F4}ng th\U{1EC3} hi\U{1EC3}n th\U{1ECB} b\U{1EA3}n v\U{1EBD}</div>"

  /** The container: the display size as the maximum size of the box, the
      viewBox from `0 0`, then the shapes. */
  function Container(display: (string, string), w: Number, h: Number, shapes: string): string
  {
    "\n      <div class=\"excalidraw-container\" style=\"max-width: " + display.0 + "px; max-height: "
    + display.1 + "px;\">\n        <svg \n          width=\"100%\" \n          height=\"100%\" \n          viewBox=\"0 0 "
    + NumberText(w) + " " + NumberText(h)
    + "\" \n          style=\"border: 1px solid #e0e0e0; border-radius: 8px; background: white;\"\n          preserveAspectRatio=\"xMidYMid meet\"\n        >\n          "
    + shapes + "\n        </svg>\n      </div>"
  }

  /** What the container is filled with: the display size, the svg size
      and the shapes. */
  datatype Layout = Layout(display: (string, string), width: Number, height: Number, shapes: string)

  /** The layout of a scene with elements. */
  function LayoutOf(es: seq<Element>, fit: (Number, Number) -> (string, string)): Layout
  {
    var p := Pad(Bounds(es));
    var w, h := SvgWidth(p), SvgHeight(p);
    Layout(Display(w, h, fit), w, h, Shapes(es, p.minX, p.minY))
  }

  /** A scene whose elements are all deleted is still drawn: an empty svg
      whose sizes are `-Infinity`, shown at `-Infinity` by `-Infinity`. */
  lemma DeletedSceneLayout(es: seq<Element>, fit: (Number, Number) -> (string, string))
    requires forall j :: 0 <= j < |es| ==> es[j].isDeleted
    ensures LayoutOf(es, fit) == Layout(("-Infinity", "-Infinity"), NegInf, NegInf, "")
  {
    BoundsAllDeleted(es);
    var p := Pad(Bounds(es));
    ShapesOfUnknownKinds(es, p.minX, p.minY);
  }

  /** A scene with elements, drawn. */
  function Picture(es: seq<Element>, fit: (Number, Number) -> (string, string)): string
  {
    var l := LayoutOf(es, fit);
    Container(l.display, l.width, l.height, l.shapes)
  }

  /** `renderExcalidrawToSVG(excalidrawData)`, specified: the error box when
      the data does not parse, the empty box for a scene without elements,
      else the picture. */
  function Render(data: Parsed, fit: (Number, Number) -> (string, string)): (r: string)
    ensures data.Unparsable? ==> r == Unreadable
    ensures data.Parsed? && data.scene.elements == [] ==> r == EmptyScene
    ensures data.Parsed? && data.scene.elements != [] ==> r == Picture(data.scene.elements, fit)
  {
    match data
    case Unparsable(_) => Unreadable
    case Parsed(scene) => if scene.elements == [] then EmptyScene else Picture(scene.elements, fit)
  }

  /** The first loop of `renderExcalidrawToSVG`: the box of the live
      elements. */
  method MeasureBounds(elements: seq<Element>) returns (b: Box)
    ensures b == Bounds(elements)
  {
    var minX, minY, maxX, maxY := PosInf, PosInf, NegInf, NegInf;
    for i := 0 to |elements|
      invariant JsScene.Box(minX, minY, maxX, maxY) == Bounds(elements[..i])
    {
      assert elements[..i + 1][..i] == elements[..i];
      var e := elements[i];
      if e.isDeleted {
        continue;
      }
      var x, y := OptNumber(e.x), OptNumber(e.y);
      minX := Min(minX, x);
      minY := Min(minY, y);
      maxX := Max(maxX, Add(x, Finite(OrInt(e.width, 0))));
      maxY := Max(maxY, Add(y, Finite(OrInt(e.height, 0))));
    }
    assert elements[..|elements|] == elements;
    b := JsScene.Box(minX, minY, maxX, maxY);
  }

  /** The second loop of `renderExcalidrawToSVG`: the shapes of the live
      elements, in order, moved by the padded origin. */
  method DrawShapes(elements: seq<Element>, minX: Number, minY: Number) returns (svgElements: string)
    ensures svgElements == Shapes(elements, minX, minY)
  {
    svgElements := "";
    for i := 0 to |elements|
      invariant svgElements == Shapes(elements[..i], minX, minY)
    {
      assert elements[..i + 1][..i] == elements[..i];
      var e := elements[i];
      if e.isDeleted {
        assert svgElements + "" == svgElements;
        continue;
      }
      var x := Sub(OptNumber(e.x), minX);
      var y := Sub(OptNumber(e.y), minY);
      svgElements := svgElements + ShapeAt(e, x, y);
    }
    assert elements[..|elements|] == elements;
  }

  /** `renderExcalidrawToSVG` past its two early returns: the bounds loop,
      the padding applied in place, the display size, the element loop and
      the container. */
  method Draw(elements: seq<Element>, fit: (Number, Number) -> (string, string)) returns (html: string)
    ensures html == Picture(elements, fit)
  {
    var b := MeasureBounds(elements);
    var minX, minY, maxX, maxY := b.minX, b.minY, b.maxX, b.maxY;
    minX := Sub(minX, Finite(Padding));
    minY := Sub(minY, Finite(Padding));
    maxX := Add(maxX, Finite(Padding));
    maxY := Add(maxY, Finite(Padding));
    assert JsScene.Box(minX, minY, maxX, maxY) == Pad(Bounds(elements));
    var svgWidth := Sub(maxX, minX);
    var svgHeight := Sub(maxY, minY);
    var displayWidth, displayHeight := NumberText(svgWidth), NumberText(svgHeight);
    if Greater(svgWidth, Finite(600)) || Greater(svgHeight, Finite(400)) {
      var scaled := fit(svgWidth, svgHeight);
      displayWidth, displayHeight := scaled.0, scaled.1;
    }
    assert (displayWidth, displayHeight) == Display(svgWidth, svgHeight, fit);
    var svgElements := DrawShapes(elements, minX, minY);
    assert LayoutOf(elements, fit) == Layout((displayWidth, displayHeight), svgWidth, svgHeight, svgElements);
    html := Container((displayWidth, displayHeight), svgWidth, svgHeight, svgElements);
  }

  /** `renderExcalidrawToSVG`: the error box when the data does not parse,
      the empty box for a scene without elements, else the drawing. */
  method RenderExcalidrawToSvg(data: Parsed, fit: (Number, Number) -> (string, string)) returns (html: string)
    ensures html == Render(data, fit)
  {
    match data {
      case Unparsable(_) =>
        html := Unreadable;
      case Parsed(scene) =>
        if scene.elements == [] {
          html := EmptyScene;
        } else {
          html := Draw(scene.elements, fit);
        }
    }
  }
}
