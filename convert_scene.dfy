/** The drawing renderer of src/convert.js: the bounding box of the live
    elements (freedraw points included), an SVG sized from it, and one shape
    per live element in scene order. */
module ConvertJsScene {
  import opened Js
  import opened Strings
  import opened HtmlUtils
  import opened Lexical

  // ---------------------------------------------------------------------------
  // Bounds

  /** The running `minX, minY, maxX, maxY` of `calculateBounds`. */
  datatype Box = Box(minX: Number, minY: Number, maxX: Number, maxY: Number)

  /** The start values: `Infinity, Infinity, -Infinity, -Infinity`. */
  const Unbounded := Box(PosInf, PosInf, NegInf, NegInf)

  /** One point folded into the box. */
  function AddPoint(b: Box, px: Number, py: Number): Box
  {
    Box(Min(b.minX, px), Min(b.minY, py), Max(b.maxX, px), Max(b.maxY, py))
  }

  /** The corners `(x, y)` and `(x + (width || 0), y + (height || 0))`. */
  function AddFrame(b: Box, e: Element): Box
  {
    var x := OptNumber(e.x);
    var y := OptNumber(e.y);
    Box(Min(b.minX, x), Min(b.minY, y),
        Max(b.maxX, Add(x, Finite(OrInt(e.width, 0)))),
        Max(b.maxY, Add(y, Finite(OrInt(e.height, 0)))))
  }

  /** The first `k` freedraw points, each offset by the element origin. */
  function AddPoints(b: Box, x: Number, y: Number, pts: seq<Point>, k: nat): Box
    requires k <= |pts|
  {
    if k == 0 then b
    else AddPoint(AddPoints(b, x, y, pts, k - 1), Add(x, Finite(pts[k - 1].0)), Add(y, Finite(pts[k - 1].1)))
  }

  predicate IsFreedraw(e: Element)
  {
    e.kind == Str("freedraw") && e.points.Some?
  }

  /** One iteration of the element loop: deleted elements leave the box alone. */
  function AddElement(b: Box, e: Element): Box
  {
    if e.isDeleted then b
    else
      var f := AddFrame(b, e);
      if IsFreedraw(e) then AddPoints(f, OptNumber(e.x), OptNumber(e.y), e.points.value, |e.points.value|)
      else f
  }

  /** The box after folding the elements in order. */
  function Bounds(b: Box, es: seq<Element>): Box
  {
    if es == [] then b else AddElement(Bounds(b, es[..|es| - 1]), es[|es| - 1])
  }

  /** `calculateBounds`. */
  method CalculateBounds(elements: seq<Element>) returns (b: Box)
    ensures b == Bounds(Unbounded, elements)
  {
    var minX, minY, maxX, maxY := PosInf, PosInf, NegInf, NegInf;
    for i := 0 to |elements|
      invariant Box(minX, minY, maxX, maxY) == Bounds(Unbounded, elements[..i])
    {
      assert elements[..i + 1][..i] == elements[..i];
      var e := elements[i];
      if e.isDeleted {
        continue;
      }
      var x, y := OptNumber(e.x), OptNumber(e.y);
      minX := Min(minX, x);
      minY := Min(minY, y);
      maxX := Max(maxX, Add(x, Finite(OrInt(e.width, 0))));
      maxY := Max(maxY, Add(y, Finite(OrInt(e.height, 0))));
      if IsFreedraw(e) {
        var pts := e.points.value;
        ghost var frame := Box(minX, minY, maxX, maxY);
        for j := 0 to |pts|
          invariant Box(minX, minY, maxX, maxY) == AddPoints(frame, x, y, pts, j)
        {
          var px, py := Add(x, Finite(pts[j].0)), Add(y, Finite(pts[j].1));
          minX := Min(minX, px);
          minY := Min(minY, py);
          maxX := Max(maxX, px);
          maxY := Max(maxY, py);
        }
      }
    }
    assert elements[..|elements|] == elements;
    b := Box(minX, minY, maxX, maxY);
  }

  lemma {:induction false} BoundsAppend(b: Box, es: seq<Element>, more: seq<Element>)
    ensures Bounds(b, es + more) == Bounds(Bounds(b, es), more)
    decreases |more|
  {
    if more == [] {
      assert es + more == es;
    } else {
      assert (es + more)[..|es + more| - 1] == es + more[..|more| - 1];
      BoundsAppend(b, es, more[..|more| - 1]);
    }
  }

  /** Deleted elements are skipped: removing one does not move the box. */
  lemma BoundsSkipsDeleted(b: Box, before: seq<Element>, e: Element, after: seq<Element>)
    requires e.isDeleted
    ensures Bounds(b, before + [e] + after) == Bounds(b, before + after)
  {
    BoundsAppend(b, before + [e], after);
    BoundsAppend(b, before, after);
    assert (before + [e])[..|before + [e]| - 1] == before;
  }

  /** A scene of deleted elements leaves the start values in place, so an
      all-deleted scene is bounded by the infinities. */
  lemma {:induction false} BoundsAllDeleted(es: seq<Element>)
    requires forall i :: 0 <= i < |es| ==> es[i].isDeleted
    ensures Bounds(Unbounded, es) == Unbounded
  {
    if es != [] {
      BoundsAllDeleted(es[..|es| - 1]);
    }
  }

  /** A live element has a defined origin. */
  predicate Defined(e: Element)
  {
    e.isDeleted || (e.x.Some? && e.y.Some?)
  }

  /** Every component is finite, or still its start value. */
  predicate Sane(b: Box)
  {
    (b.minX.Finite? || b.minX == PosInf) && (b.minY.Finite? || b.minY == PosInf)
    && (b.maxX.Finite? || b.maxX == NegInf) && (b.maxY.Finite? || b.maxY == NegInf)
  }

  predicate Closed(b: Box)
  {
    b.minX.Finite? && b.minY.Finite? && b.maxX.Finite? && b.maxY.Finite?
  }

  /** The box holds the point `(px, py)`. */
  predicate HoldsPoint(b: Box, px: int, py: int)
  {
    Closed(b) && b.minX.i <= px <= b.maxX.i && b.minY.i <= py <= b.maxY.i
  }

  /** The box holds the live element: its origin is at or after the
      minimum, its far corner at or before the maximum and, for a freedraw
      element, every offset point is inside. */
  predicate Holds(b: Box, e: Element)
    requires e.x.Some? && e.y.Some?
  {
    var x, y := e.x.value, e.y.value;
    Closed(b)
    && b.minX.i <= x && b.minY.i <= y
    && x + OrInt(e.width, 0) <= b.maxX.i && y + OrInt(e.height, 0) <= b.maxY.i
    && (IsFreedraw(e) ==>
          forall k :: 0 <= k < |e.points.value| ==>
            HoldsPoint(b, x + e.points.value[k].0, y + e.points.value[k].1))
  }

  /** Every live element has a defined origin. */
  predicate AllDefined(es: seq<Element>)
  {
    forall j :: 0 <= j < |es| ==> es[j].isDeleted || (es[j].x.Some? && es[j].y.Some?)
  }

  /** Folding only widens a box. */
  predicate Within(b: Box, c: Box)
  {
    Closed(b) && Closed(c) && c.minX.i <= b.minX.i && c.minY.i <= b.minY.i
    && b.maxX.i <= c.maxX.i && b.maxY.i <= c.maxY.i
  }

  lemma AddPointWidens(b: Box, px: int, py: int)
    requires Sane(b)
    ensures Sane(AddPoint(b, Finite(px), Finite(py)))
    ensures HoldsPoint(AddPoint(b, Finite(px), Finite(py)), px, py)
    ensures Closed(b) ==> Within(b, AddPoint(b, Finite(px), Finite(py)))
  {
  }

  lemma {:induction false} AddPointsWidens(b: Box, x: int, y: int, pts: seq<Point>, k: nat)
    requires Sane(b) && k <= |pts|
    ensures var c := AddPoints(b, Finite(x), Finite(y), pts, k);
      Sane(c) && (Closed(b) ==> Within(b, c))
      && (forall j :: 0 <= j < k ==> HoldsPoint(c, x + pts[j].0, y + pts[j].1))
    decreases k
  {
    if k > 0 {
      AddPointsWidens(b, x, y, pts, k - 1);
      var c0 := AddPoints(b, Finite(x), Finite(y), pts, k - 1);
      AddPointWidens(c0, x + pts[k - 1].0, y + pts[k - 1].1);
    }
  }

  lemma AddElementWidens(b: Box, e: Element)
    requires Sane(b) && Defined(e)
    ensures Sane(AddElement(b, e))
    ensures Closed(b) ==> Within(b, AddElement(b, e))
    ensures !e.isDeleted ==> Holds(AddElement(b, e), e)
  {
    if !e.isDeleted {
      var x, y := e.x.value, e.y.value;
      var f := AddFrame(b, e);
      assert Sane(f) && Closed(f);
      assert Closed(b) ==> Within(b, f);
      if IsFreedraw(e) {
        AddPointsWidens(f, x, y, e.points.value, |e.points.value|);
      }
    }
  }

  lemma WithinHolds(b: Box, c: Box, e: Element)
    requires e.x.Some? && e.y.Some?
    requires Holds(b, e) && Within(b, c)
    ensures Holds(c, e)
  {
  }

  /** When every live element has a defined origin, the box of the scene
      holds every live element, its far corner and its freedraw points. */
  lemma {:induction false} BoundsHoldLive(es: seq<Element>, i: nat)
    requires i < |es| && !es[i].isDeleted
    requires AllDefined(es)
    ensures Sane(Bounds(Unbounded, es))
    ensures Holds(Bounds(Unbounded, es), es[i])
    decreases |es|
  {
    var prefix := es[..|es| - 1];
    var last := es[|es| - 1];
    assert forall j :: 0 <= j < |prefix| ==> prefix[j] == es[j];
    BoundsSane(prefix);
    AddElementWidens(Bounds(Unbounded, prefix), last);
    if i < |es| - 1 {
      BoundsHoldLive(prefix, i);
      WithinHolds(Bounds(Unbounded, prefix), Bounds(Unbounded, es), es[i]);
    }
  }

  lemma {:induction false} BoundsSane(es: seq<Element>)
    requires AllDefined(es)
    ensures Sane(Bounds(Unbounded, es))
    decreases |es|
  {
    if es != [] {
      var prefix := es[..|es| - 1];
      assert forall j :: 0 <= j < |prefix| ==> prefix[j] == es[j];
      BoundsSane(prefix);
      AddElementWidens(Bounds(Unbounded, prefix), es[|es| - 1]);
    }
  }

  /** `v` is the x of one of the live element's offset freedraw points. */
  predicate PointX(e: Element, v: int)
    requires e.x.Some?
  {
    IsFreedraw(e) && exists k :: 0 <= k < |e.points.value| && v == e.x.value + e.points.value[k].0
  }

  /** `v` is the y of one of the live element's offset freedraw points. */
  predicate PointY(e: Element, v: int)
    requires e.y.Some?
  {
    IsFreedraw(e) && exists k :: 0 <= k < |e.points.value| && v == e.y.value + e.points.value[k].1
  }

  /** The coordinates a live element can give each side of the box: its
      origin for the minima, its far corner for the maxima, and its offset
      freedraw points for either. */
  predicate LowX(e: Element, v: int)
  {
    !e.isDeleted && e.x.Some? && (v == e.x.value || PointX(e, v))
  }

  predicate LowY(e: Element, v: int)
  {
    !e.isDeleted && e.y.Some? && (v == e.y.value || PointY(e, v))
  }

  predicate HighX(e: Element, v: int)
  {
    !e.isDeleted && e.x.Some? && (v == e.x.value + OrInt(e.width, 0) || PointX(e, v))
  }

  predicate HighY(e: Element, v: int)
  {
    !e.isDeleted && e.y.Some? && (v == e.y.value + OrInt(e.height, 0) || PointY(e, v))
  }

  /** Every finite side of the box is reached by some element of `es`. */
  predicate Reached(b: Box, es: seq<Element>)
  {
    (b.minX.Finite? ==> exists i :: 0 <= i < |es| && LowX(es[i], b.minX.i))
    && (b.minY.Finite? ==> exists i :: 0 <= i < |es| && LowY(es[i], b.minY.i))
    && (b.maxX.Finite? ==> exists i :: 0 <= i < |es| && HighX(es[i], b.maxX.i))
    && (b.maxY.Finite? ==> exists i :: 0 <= i < |es| && HighY(es[i], b.maxY.i))
  }

  /** Folding in points moves each side only onto one of the points. */
  lemma {:induction false} AddPointsReach(f: Box, x: Number, y: Number, pts: seq<Point>, k: nat)
    requires k <= |pts|
    ensures var c := AddPoints(f, x, y, pts, k);
      (c.minX == f.minX || exists j :: 0 <= j < k && c.minX == Add(x, Finite(pts[j].0)))
      && (c.minY == f.minY || exists j :: 0 <= j < k && c.minY == Add(y, Finite(pts[j].1)))
      && (c.maxX == f.maxX || exists j :: 0 <= j < k && c.maxX == Add(x, Finite(pts[j].0)))
      && (c.maxY == f.maxY || exists j :: 0 <= j < k && c.maxY == Add(y, Finite(pts[j].1)))
    decreases k
  {
    if k > 0 {
      AddPointsReach(f, x, y, pts, k - 1);
    }
  }

  /** Folding in one element moves each finite side only onto a coordinate
      of that element. */
  lemma AddElementReach(b: Box, e: Element)
    ensures var c := AddElement(b, e);
      (c.minX.Finite? ==> c.minX == b.minX || LowX(e, c.minX.i))
      && (c.minY.Finite? ==> c.minY == b.minY || LowY(e, c.minY.i))
      && (c.maxX.Finite? ==> c.maxX == b.maxX || HighX(e, c.maxX.i))
      && (c.maxY.Finite? ==> c.maxY == b.maxY || HighY(e, c.maxY.i))
  {
    if !e.isDeleted && IsFreedraw(e) {
      var x, y := OptNumber(e.x), OptNumber(e.y);
      var pts := e.points.value;
      AddPointsReach(AddFrame(b, e), x, y, pts, |pts|);
    }
  }

  /** The box is the smallest that holds the live elements: each finite side
      is the origin, far corner or offset freedraw point of a live element. */
  lemma {:induction false} BoundsReached(es: seq<Element>)
    ensures Reached(Bounds(Unbounded, es), es)
    decreases |es|
  {
    if es != [] {
      var prefix := es[..|es| - 1];
      var last := |es| - 1;
      BoundsReached(prefix);
      var b := Bounds(Unbounded, prefix);
      AddElementReach(b, es[last]);
      assert forall j :: 0 <= j < |prefix| ==> prefix[j] == es[j];
    }
  }

  // ---------------------------------------------------------------------------
  // Shapes

  /** `stroke="…" stroke-width="…" fill="…" opacity="…"` with the defaults
      `#000000`, 1, `transparent` and 100 (opacity is printed divided by 100). */
  function StrokeStyle(e: Element, fill: string): string
  {
    "stroke=\"" + ToText(Or(e.strokeColor, Str("#000000"))) + "\" stroke-width=\""
    + IntText(OrDefault(e.strokeWidth, 1)) + "\" fill=\"" + fill + "\" opacity=\""
    + HundredthsText(OrDefault(e.opacity, 100)) + "\""
  }

  function ShapeFill(e: Element): string
  {
    ToText(Or(e.backgroundColor, Str("transparent")))
  }

  /** `x + width / 2` as a count of halves. */
  function Centre(x: Option<int>, size: Option<int>): Number
  {
    var n := OptNumber(x);
    Add(Add(n, n), OptNumber(size))
  }

  /** `renderRectangle`; a `roundness.type` of 3 adds `rx`/`ry` of a tenth
      of the smaller side. */
  function RenderRectangle(e: Element): string
  {
    var frame := "<rect x=\"" + OptText(e.x) + "\" y=\"" + OptText(e.y) + "\" width=\""
      + OptText(e.width) + "\" height=\"" + OptText(e.height) + "\" ";
    if e.roundness.Some? && e.roundness.value.kind == Num(3) then
      var m := Min(OptNumber(e.width), OptNumber(e.height));
      var radius := if m.Finite? then TenthsText(m.i) else NumberText(m);
      frame + "rx=\"" + radius + "\" ry=\"" + radius + "\" " + StrokeStyle(e, ShapeFill(e)) + "/>"
    else frame + StrokeStyle(e, ShapeFill(e)) + "/>"
  }

  /** `renderEllipse`: centre `(x + width/2, y + height/2)`, radii half the sides. */
  function RenderEllipse(e: Element): string
  {
    "<ellipse cx=\"" + HalfText(Centre(e.x, e.width)) + "\" cy=\"" + HalfText(Centre(e.y, e.height))
    + "\" rx=\"" + HalfText(OptNumber(e.width)) + "\" ry=\"" + HalfText(OptNumber(e.height))
    + "\" " + StrokeStyle(e, ShapeFill(e)) + "/>"
  }

  /** `renderDiamond`: the four edge midpoints, top, right, bottom, left. */
  function RenderDiamond(e: Element): string
  {
    var cx := HalfText(Centre(e.x, e.width));
    var cy := HalfText(Centre(e.y, e.height));
    var points := cx + "," + OptText(e.y) + " "
      + NumberText(Add(OptNumber(e.x), OptNumber(e.width))) + "," + cy + " "
      + cx + "," + NumberText(Add(OptNumber(e.y), OptNumber(e.height))) + " "
      + OptText(e.x) + "," + cy;
    "<polygon points=\"" + points + "\" " + StrokeStyle(e, ShapeFill(e)) + "/>"
  }

  /** `renderLine` (and `renderArrow`): the first two points offset by the
      origin; fewer than two points draw nothing. */
  function RenderLine(e: Element): (r: string)
    ensures (e.points.None? || |e.points.value| < 2) <==> r == ""
  {
    if e.points.None? || |e.points.value| < 2 then ""
    else
      var p, q := e.points.value[0], e.points.value[1];
      var x, y := OptNumber(e.x), OptNumber(e.y);
      "<line x1=\"" + NumberText(Add(x, Finite(p.0))) + "\" y1=\"" + NumberText(Add(y, Finite(p.1)))
      + "\" x2=\"" + NumberText(Add(x, Finite(q.0))) + "\" y2=\"" + NumberText(Add(y, Finite(q.1)))
      + "\" " + StrokeStyle(e, "none") + "/>"
  }

  /** One path command: `M px py` or `L px py`. */
  function Command(letter: string, x: Number, y: Number, p: Point): string
  {
    letter + " " + NumberText(Add(x, Finite(p.0))) + " " + NumberText(Add(y, Finite(p.1)))
  }

  /** The path commands: a moveto to the first point, a lineto to each
      following point (section 8.3 of SVG 1.1). */
  function Commands(x: Number, y: Number, pts: seq<Point>): (r: seq<string>)
    ensures |r| == |pts|
    ensures forall k :: 0 <= k < |pts| ==> r[k] == Command(if k == 0 then "M" else "L", x, y, pts[k])
  {
    seq(|pts|, k requires 0 <= k < |pts| => Command(if k == 0 then "M" else "L", x, y, pts[k]))
  }

  /** The `pathData` accumulated over the first `k` commands. */
  function PathData(cs: seq<string>, k: nat): string
    requires k <= |cs|
  {
    if k == 0 then ""
    else if k == 1 then cs[0]
    else PathData(cs, k - 1) + " " + cs[k - 1]
  }

  /** The accumulated path is the commands joined by single spaces. */
  lemma {:induction false} PathDataIsJoin(cs: seq<string>, k: nat)
    requires k <= |cs|
    ensures PathData(cs, k) == Join(cs[..k], " ")
    decreases k
  {
    if k == 1 {
      assert cs[..1] == [cs[0]];
    } else if k > 1 {
      PathDataIsJoin(cs, k - 1);
      JoinPrefix(cs, k);
    }
  }

  lemma JoinPrefix(cs: seq<string>, k: nat)
    requires 1 < k <= |cs|
    ensures Join(cs[..k], " ") == Join(cs[..k - 1], " ") + " " + cs[k - 1]
  {
    JoinSnoc(cs[..k - 1], cs[k - 1], " ");
    assert cs[..k - 1] + [cs[k - 1]] == cs[..k];
  }

  lemma {:induction false} JoinSnoc(parts: seq<string>, x: string, sep: string)
    requires parts != []
    ensures Join(parts + [x], sep) == Join(parts, sep) + sep + x
    decreases |parts|
  {
    if |parts| == 1 {
      assert (parts + [x])[1..] == [x];
    } else {
      assert (parts + [x])[1..] == parts[1..] + [x];
      JoinSnoc(parts[1..], x, sep);
    }
  }

  function FreedrawStyle(e: Element): string
  {
    StrokeStyle(e, "none") + " stroke-linecap=\"round\" stroke-linejoin=\"round\""
  }

  /** `renderFreedraw`, specified: nothing without points, else one path. */
  function Freedraw(e: Element): (r: string)
    ensures (e.points.None? || e.points.value == []) <==> r == ""
  {
    if e.points.None? || e.points.value == [] then ""
    else
      var pts := e.points.value;
      var cs := Commands(OptNumber(e.x), OptNumber(e.y), pts);
      "<path d=\"" + PathData(cs, |pts|) + "\" " + FreedrawStyle(e) + "/>"
  }

  /** `renderFreedraw`: the path data is appended point by point. */
  method RenderFreedraw(e: Element) returns (r: string)
    ensures r == Freedraw(e)
  {
    if e.points.None? || |e.points.value| == 0 {
      return "";
    }
    var pts := e.points.value;
    var x, y := OptNumber(e.x), OptNumber(e.y);
    ghost var cs := Commands(x, y, pts);
    var pathData := "";
    for k := 0 to |pts|
      invariant pathData == PathData(cs, k)
    {
      if k == 0 {
        pathData := pathData + Command("M", x, y, pts[k]);
      } else {
        pathData := pathData + " " + Command("L", x, y, pts[k]);
      }
    }
    r := "<path d=\"" + pathData + "\" " + FreedrawStyle(e) + "/>";
  }

  /** `renderText`: the escaped text at `(x, y + fontSize)`; a text that is
      not a string makes `escapeHtml` throw. */
  function RenderText(e: Element): (r: Result<string>)
    ensures r.Throw? <==> Truthy(e.text) && !e.text.Str?
  {
    var text := Or(e.text, Str(""));
    if !text.Str? then Throw(NotAFunction("text.replace"))
    else
      var size := OrDefault(e.fontSize, 16);
      var style := "fill=\"" + ToText(Or(e.strokeColor, Str("#000000"))) + "\" font-size=\""
        + IntText(size) + "\" font-family=\"" + ToText(Or(e.fontFamily, Str("Arial")))
        + "\" opacity=\"" + HundredthsText(OrDefault(e.opacity, 100)) + "\"";
      Ok("<text x=\"" + OptText(e.x) + "\" y=\"" + NumberText(Add(OptNumber(e.y), Finite(size)))
         + "\" " + style + ">" + EscapeHtml(text.s) + "</text>")
  }

  /** `renderElement`: dispatch on the element type. */
  function RenderElement(e: Element): (r: Result<string>)
    ensures r.Throw? ==> e.kind == Str("text")
  {
    if e.kind == Str("rectangle") then Ok(RenderRectangle(e))
    else if e.kind == Str("ellipse") then Ok(RenderEllipse(e))
    else if e.kind == Str("diamond") then Ok(RenderDiamond(e))
    else if e.kind == Str("arrow") || e.kind == Str("line") then Ok(RenderLine(e))
    else if e.kind == Str("freedraw") then Ok(Freedraw(e))
    else if e.kind == Str("text") then RenderText(e)
    else Ok("<!-- Unknown element type: " + ToText(e.kind) + " -->")
  }

  // ---------------------------------------------------------------------------
  // The whole drawing

  /** One iteration of the drawing loop: nothing for a deleted element. */
  function LiveShape(e: Element): Result<string>
  {
    if e.isDeleted then Ok("") else RenderElement(e)
  }

  /** The markup of the live elements among `es`, in order, or the first
      exception. */
  function Markup(es: seq<Element>): Result<string>
  {
    ConcatMap(es, LiveShape)
  }

  /** A live text element whose text is truthy but not a string: the only
      element `escapeHtml` cannot draw. */
  predicate Unprintable(e: Element)
  {
    !e.isDeleted && e.kind == Str("text") && Truthy(e.text) && !e.text.Str?
  }

  /** The markup fails exactly when some element is unprintable, and then
      with the exception of calling `text.replace`. */
  lemma MarkupThrows(es: seq<Element>)
    ensures Markup(es).Throw? <==> exists i :: 0 <= i < |es| && Unprintable(es[i])
    ensures Markup(es).Throw? ==> Markup(es).message == NotAFunction("text.replace")
  {
    forall i | 0 <= i < |es|
      ensures LiveShape(es[i]).Ok? <==> !Unprintable(es[i])
      ensures LiveShape(es[i]).Throw? ==> LiveShape(es[i]).message == NotAFunction("text.replace")
    {
    }
    ConcatMapOk(es, LiveShape);
    ConcatMapThrowMessage(es, LiveShape, NotAFunction("text.replace"));
  }

  /** A deleted element contributes nothing. */
  lemma MarkupSkipsDeleted(a: seq<Element>, e: Element, b: seq<Element>)
    requires e.isDeleted && Markup(a).Ok? && Markup(b).Ok?
    ensures Markup(a + [e] + b) == Markup(a + b)
  {
    ConcatMapAppend(a, [e], LiveShape);
    assert ConcatMap([e], LiveShape) == Ok("") by {
      assert [e][..0] == [];
      assert LiveShape(e) == Ok("");
      assert "" + "" == "";
    }
    assert Markup(a).value + "" == Markup(a).value;
    assert Markup(a + [e]) == Markup(a);
    ConcatMapAppend(a + [e], b, LiveShape);
    ConcatMapAppend(a, b, LiveShape);
  }

  /** `Math.max(maxX - minX + 40, floor)`. */
  function Extent(lo: Number, hi: Number, floor: int): (r: Number)
    ensures lo.Finite? && hi.Finite? ==>
      r.Finite? && r.i >= floor && r.i >= hi.i - lo.i + 40
      && (r.i == floor || r.i == hi.i - lo.i + 40)
  {
    Max(Add(Sub(hi, lo), Finite(40)), Finite(floor))
  }

  /** The opening `<svg>` tag and the optional background rectangle. */
  function SvgOpen(b: Box, background: Value): string
  {
    var width := Extent(b.minX, b.maxX, 200);
    var height := Extent(b.minY, b.maxY, 150);
    var ox := NumberText(Sub(b.minX, Finite(20)));
    var oy := NumberText(Sub(b.minY, Finite(20)));
    var w := NumberText(width);
    var h := NumberText(height);
    "<svg width=\"" + w + "\" height=\"" + h + "\" viewBox=\"" + ox + " " + oy + " " + w + " " + h
    + "\" xmlns=\"http://www.w3.org/2000/svg\" style=\"border: 1px solid #ddd; border-radius: 8px; background: white;\">"
    + (if Truthy(background) && background != Str("#ffffff")
       then "<rect x=\"" + ox + "\" y=\"" + oy + "\" width=\"" + w + "\" height=\"" + h + "\" fill=\"" + ToText(background) + "\"/>"
       else "")
  }

  const EmptyDrawing := "<div class=\"excalidraw-empty\">No drawing elements found</div>"

  function Container(svg: string): string
  {
    "<div class=\"excalidraw-container\">\n      <div class=\"excalidraw-drawing\">\n        " + svg
    + "\n      </div>\n    </div>"
  }

  function ErrorDrawing(message: string): string
  {
    "<div class=\"excalidraw-error\">\n      <p>\U{274C} Error rendering Excalidraw drawing: " + message
    + "</p>\n    </div>"
  }

  /** `JSON.parse('')`, what a missing `data` is parsed as, fails with this. */
  const EmptyJsonMessage := "Unexpected end of JSON input"

  /** The scene `renderExcalidrawToSVG` draws, or the message it catches. */
  function SceneOf(data: SceneData): Result<Scene>
  {
    match data
    case NoData => Throw(EmptyJsonMessage)
    case Json(Unparsable(m)) => Throw(m)
    case Json(Parsed(s)) => Ok(s)
    case Direct(s) => Ok(s)
  }

  /** `renderExcalidrawToSVG`, specified. */
  function Render(data: SceneData): (r: string)
    ensures SceneOf(data).Throw? ==> r == ErrorDrawing(SceneOf(data).message)
    ensures SceneOf(data).Ok? ==> r == Drawing(SceneOf(data).value)
  {
    match SceneOf(data)
    case Throw(m) => ErrorDrawing(m)
    case Ok(scene) => Drawing(scene)
  }

  /** A scene with an unprintable element shows the error box with the
      markup's exception. */
  lemma DrawingFails(scene: Scene)
    requires exists i :: 0 <= i < |scene.elements| && Unprintable(scene.elements[i])
    ensures Markup(scene.elements).Throw? && Drawing(scene) == ErrorDrawing(Markup(scene.elements).message)
  {
    MarkupThrows(scene.elements);
  }

  /** A non-empty scene without unprintable elements shows its SVG in the
      container. */
  lemma DrawingShows(scene: Scene)
    requires scene.elements != [] && forall i :: 0 <= i < |scene.elements| ==> !Unprintable(scene.elements[i])
    ensures Svg(scene).Ok? && Drawing(scene) == Container(Svg(scene).value)
  {
    MarkupThrows(scene.elements);
    assert Svg(scene).Ok?;
  }

  /** When `renderExcalidrawToSVG` shows an error or nothing, by the input
      alone: the error box with the parser's message when the data does not
      parse; the empty box for a scene without elements; the error box with
      the markup's exception (`MarkupThrows`) when some element is
      unprintable. Otherwise it shows the SVG (`RenderShows`). */
  lemma RenderOutcome(data: SceneData)
    ensures SceneOf(data).Throw? ==> Render(data) == ErrorDrawing(SceneOf(data).message)
    ensures SceneOf(data).Ok? && SceneOf(data).value.elements == [] ==> Render(data) == EmptyDrawing
    ensures SceneOf(data).Ok? && (exists i :: 0 <= i < |SceneOf(data).value.elements| && Unprintable(SceneOf(data).value.elements[i])) ==>
      Markup(SceneOf(data).value.elements).Throw?
      && Render(data) == ErrorDrawing(Markup(SceneOf(data).value.elements).message)
  {
    if SceneOf(data).Ok? && exists i :: 0 <= i < |SceneOf(data).value.elements| && Unprintable(SceneOf(data).value.elements[i]) {
      DrawingFails(SceneOf(data).value);
    }
  }

  /** Data that parses to a non-empty scene without unprintable elements
      is shown as its SVG in the container. */
  lemma RenderShows(data: SceneData)
    requires SceneOf(data).Ok? && SceneOf(data).value.elements != []
    requires forall i :: 0 <= i < |SceneOf(data).value.elements| ==> !Unprintable(SceneOf(data).value.elements[i])
    ensures Svg(SceneOf(data).value).Ok? && Render(data) == Container(Svg(SceneOf(data).value).value)
  {
    DrawingShows(SceneOf(data).value);
  }

  /** A parsed scene: the empty box without elements, else the sized SVG
      in its container, or the error box if a shape throws. */
  function Drawing(scene: Scene): (r: string)
    ensures scene.elements == [] ==> r == EmptyDrawing
    ensures scene.elements != [] && Markup(scene.elements).Throw? ==> r == ErrorDrawing(Markup(scene.elements).message)
  {
    if scene.elements == [] then EmptyDrawing
    else
      match Svg(scene)
      case Throw(m) => ErrorDrawing(m)
      case Ok(svg) => Container(svg)
  }

  /** The SVG of a scene with elements: the opening tag sized by the bounds,
      then the live elements' shapes. */
  function Svg(scene: Scene): (r: Result<string>)
    ensures Markup(scene.elements).Throw? <==> r.Throw?
    ensures r.Throw? ==> r.message == Markup(scene.elements).message
  {
    match Markup(scene.elements)
    case Throw(m) => Throw(m)
    case Ok(shapes) => Ok(SvgOpen(Bounds(Unbounded, scene.elements), scene.background) + shapes + "</svg>")
  }

  /** `renderElement`, with freedraw through its loop. */
  method RenderElementStep(e: Element) returns (r: Result<string>)
    ensures r == RenderElement(e)
  {
    if e.kind == Str("freedraw") {
      var path := RenderFreedraw(e);
      r := Ok(path);
    } else {
      r := RenderElement(e);
    }
  }

  /** The element loop of `renderExcalidrawToSVG`: each live element's
      shape is appended in order; a shape that throws ends the loop. */
  method DrawShapes(elements: seq<Element>) returns (r: Result<string>)
    ensures r == Markup(elements)
  {
    var shapes := "";
    for i := 0 to |elements|
      invariant ConcatMap(elements[..i], LiveShape) == Ok(shapes)
    {
      var e := elements[i];
      ConcatMapSnoc(elements, i, LiveShape);
      if e.isDeleted {
        assert LiveShape(e) == Ok("");
        assert shapes + "" == shapes;
        continue;
      }
      var shape := RenderElementStep(e);
      assert LiveShape(e) == shape;
      if shape.Throw? {
        ConcatMapKeepsThrow(elements, i + 1, LiveShape);
        return shape;
      }
      shapes := shapes + shape.value;
    }
    assert elements[..|elements|] == elements;
    r := Ok(shapes);
  }

  /** `renderExcalidrawToSVG` after the empty check: the bounds loop, the
      opening tag and the element loop. */
  method DrawSvg(scene: Scene) returns (r: Result<string>)
    ensures r == Svg(scene)
  {
    var b := CalculateBounds(scene.elements);
    var svg := SvgOpen(b, scene.background);
    var shapes := DrawShapes(scene.elements);
    if shapes.Throw? {
      return Throw(shapes.message);
    }
    svg := svg + shapes.value + "</svg>";
    r := Ok(svg);
  }

  /** `renderExcalidrawToSVG`: parse failures become the error box. */
  method RenderExcalidraw(data: SceneData) returns (html: string)
    ensures html == Render(data)
  {
    var scene := SceneOf(data);
    if scene.Throw? {
      return ErrorDrawing(scene.message);
    }
    if |scene.value.elements| == 0 {
      return EmptyDrawing;
    }
    var svg := DrawSvg(scene.value);
    if svg.Throw? {
      return ErrorDrawing(svg.message);
    }
    html := Container(svg.value);
  }
}
