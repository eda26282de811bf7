/** Fitting a graph into a viewport (frontend/data-source.js), over the reals: rounding is not modelled. */
module Viewport {
  datatype Rect = Rect(x: real, y: real, width: real, height: real)

  datatype Transform = Transform(x: real, y: real, scale: real)

  function Min(a: real, b: real): real {
    if a <= b then a else b
  }

  function Max(a: real, b: real): real {
    if a >= b then a else b
  }

  function MinOf(values: seq<real>): (r: real)
    requires values != []
    ensures r in values
    ensures forall i :: 0 <= i < |values| ==> r <= values[i]
  {
    if |values| == 1 then values[0] else Min(values[0], MinOf(values[1..]))
  }

  function MaxOf(values: seq<real>): (r: real)
    requires values != []
    ensures r in values
    ensures forall i :: 0 <= i < |values| ==> values[i] <= r
  {
    if |values| == 1 then values[0] else Max(values[0], MaxOf(values[1..]))
  }

  function Lefts(nodes: seq<Rect>): seq<real> {
    seq(|nodes|, i requires 0 <= i < |nodes| => nodes[i].x)
  }

  function Rights(nodes: seq<Rect>): seq<real> {
    seq(|nodes|, i requires 0 <= i < |nodes| => nodes[i].x + nodes[i].width)
  }

  function Tops(nodes: seq<Rect>): seq<real> {
    seq(|nodes|, i requires 0 <= i < |nodes| => nodes[i].y)
  }

  function Bottoms(nodes: seq<Rect>): seq<real> {
    seq(|nodes|, i requires 0 <= i < |nodes| => nodes[i].y + nodes[i].height)
  }

  /** Where a point of one axis goes: scale, then shift. */
  function Move(shift: real, scale: real, p: real): real {
    shift + p * scale
  }

  function Extent(min: real, max: real): real {
    Max(1.0, max - min)
  }

  function Ratio(size: real, extent: real): real
    requires extent >= 1.0
  {
    size / extent
  }

  /** The shift that puts an extent starting at `min` in the middle of the viewport's axis. */
  function Shift(low: real, size: real, min: real, extent: real, scale: real): real {
    low + (size - extent * scale) / 2.0 - min * scale
  }

  function Scale(nodes: seq<Rect>, viewport: Rect): real
    requires nodes != []
  {
    var width := Extent(MinOf(Lefts(nodes)), MaxOf(Rights(nodes)));
    var height := Extent(MinOf(Tops(nodes)), MaxOf(Bottoms(nodes)));
    Min(1.0, Min(Ratio(viewport.width, width), Ratio(viewport.height, height)))
  }

  function Fit(nodes: seq<Rect>, viewport: Rect): Transform {
    if nodes == [] then Transform(0.0, 0.0, 1.0)
    else
      var minX, maxX := MinOf(Lefts(nodes)), MaxOf(Rights(nodes));
      var minY, maxY := MinOf(Tops(nodes)), MaxOf(Bottoms(nodes));
      var scale := Scale(nodes, viewport);
      Transform(Shift(viewport.x, viewport.width, minX, Extent(minX, maxX), scale),
                Shift(viewport.y, viewport.height, minY, Extent(minY, maxY), scale),
                scale)
  }

  /** The image of [from, to] lies within [low, low + size]. */
  predicate MapsInside(shift: real, scale: real, from: real, to: real, low: real, size: real) {
    low <= Move(shift, scale, from) && Move(shift, scale, to) <= low + size
  }

  /** A rectangle, once moved, lies inside the viewport. */
  predicate Shows(t: Transform, node: Rect, viewport: Rect) {
    && MapsInside(t.x, t.scale, node.x, node.x + node.width, viewport.x, viewport.width)
    && MapsInside(t.y, t.scale, node.y, node.y + node.height, viewport.y, viewport.height)
  }

  // ---- one axis -------------------------------------------------------------------

  /** A scale fits an axis: it is positive and the scaled extent is no longer than the viewport's side. */
  predicate FitsAxis(scale: real, extent: real, size: real) {
    scale > 0.0 && extent * scale <= size
  }

  lemma RatioIsLargest(size: real, extent: real, scale: real)
    requires extent >= 1.0 && scale > 0.0
    ensures scale <= Ratio(size, extent) <==> FitsAxis(scale, extent, size)
  {
    var ratio := Ratio(size, extent);
    assert ratio * extent == size;
    assert (ratio - scale) * extent == size - extent * scale;
  }

  lemma RatioIsPositive(size: real, extent: real)
    requires extent >= 1.0 && size > 0.0
    ensures Ratio(size, extent) > 0.0
  {
  }

  lemma AxisInside(low: real, size: real, min: real, max: real, scale: real, from: real, to: real)
    requires FitsAxis(scale, Extent(min, max), size) && min <= from && to <= max
    ensures MapsInside(Shift(low, size, min, Extent(min, max), scale), scale, from, to, low, size)
  {
    var extent := Extent(min, max);
    assert (from - min) * scale >= 0.0;
    assert (extent - (to - min)) * scale >= 0.0;
    assert (from - min) * scale == from * scale - min * scale;
    assert (extent - (to - min)) * scale == extent * scale - to * scale + min * scale;
  }

  /** How far the middle of [min, max] lands from the middle of the viewport's axis. */
  lemma AxisCentre(low: real, size: real, min: real, max: real, extent: real, scale: real)
    ensures low + size / 2.0 - Move(Shift(low, size, min, extent, scale), scale, (min + max) / 2.0)
            == (extent - (max - min)) * scale / 2.0
  {
    assert (min + max) / 2.0 * scale == min * scale / 2.0 + max * scale / 2.0;
    assert (extent - (max - min)) * scale == extent * scale - max * scale + min * scale;
  }

  lemma AxisCentredWhen(low: real, size: real, min: real, max: real, scale: real)
    requires scale > 0.0
    ensures Move(Shift(low, size, min, Extent(min, max), scale), scale, (min + max) / 2.0) == low + size / 2.0
            <==> max - min >= 1.0
  {
    AxisCentre(low, size, min, max, Extent(min, max), scale);
    if max - min < 1.0 {
      assert (1.0 - (max - min)) * scale > 0.0;
    }
  }

  // ---- the fit ----------------------------------------------------------------------

  predicate Positive(viewport: Rect) {
    viewport.width > 0.0 && viewport.height > 0.0
  }

  lemma ScaleFits(nodes: seq<Rect>, viewport: Rect)
    requires Positive(viewport) && nodes != []
    ensures 0.0 < Scale(nodes, viewport) <= 1.0
    ensures FitsAxis(Scale(nodes, viewport), Extent(MinOf(Lefts(nodes)), MaxOf(Rights(nodes))), viewport.width)
    ensures FitsAxis(Scale(nodes, viewport), Extent(MinOf(Tops(nodes)), MaxOf(Bottoms(nodes))), viewport.height)
  {
    var width, height := Extent(MinOf(Lefts(nodes)), MaxOf(Rights(nodes))),
                         Extent(MinOf(Tops(nodes)), MaxOf(Bottoms(nodes)));
    RatioIsPositive(viewport.width, width);
    RatioIsPositive(viewport.height, height);
    RatioIsLargest(viewport.width, width, Scale(nodes, viewport));
    RatioIsLargest(viewport.height, height, Scale(nodes, viewport));
  }

  lemma WithinBounds(nodes: seq<Rect>, i: nat)
    requires i < |nodes|
    ensures MinOf(Lefts(nodes)) <= nodes[i].x && nodes[i].x + nodes[i].width <= MaxOf(Rights(nodes))
    ensures MinOf(Tops(nodes)) <= nodes[i].y && nodes[i].y + nodes[i].height <= MaxOf(Bottoms(nodes))
  {
    assert Lefts(nodes)[i] == nodes[i].x && Rights(nodes)[i] == nodes[i].x + nodes[i].width;
    assert Tops(nodes)[i] == nodes[i].y && Bottoms(nodes)[i] == nodes[i].y + nodes[i].height;
  }

  /** One uniform scale, never an enlargement, puts every node inside the viewport. */
  lemma EveryNodeInside(nodes: seq<Rect>, viewport: Rect, i: nat)
    requires Positive(viewport) && i < |nodes|
    ensures 0.0 < Fit(nodes, viewport).scale <= 1.0
    ensures Shows(Fit(nodes, viewport), nodes[i], viewport)
  {
    ScaleFits(nodes, viewport);
    WithinBounds(nodes, i);
    var scale, node := Scale(nodes, viewport), nodes[i];
    AxisInside(viewport.x, viewport.width, MinOf(Lefts(nodes)), MaxOf(Rights(nodes)), scale, node.x,
        node.x + node.width);
    AxisInside(viewport.y, viewport.height, MinOf(Tops(nodes)), MaxOf(Bottoms(nodes)), scale, node.y,
        node.y + node.height);
  }

  /** On each axis the bounding box is centred exactly when it extends over at least one unit. */
  lemma CentredWhen(nodes: seq<Rect>, viewport: Rect)
    requires Positive(viewport) && nodes != []
    ensures var t := Fit(nodes, viewport); var min, max := MinOf(Lefts(nodes)), MaxOf(Rights(nodes));
            Move(t.x, t.scale, (min + max) / 2.0) == viewport.x + viewport.width / 2.0 <==> max - min >= 1.0
    ensures var t := Fit(nodes, viewport); var min, max := MinOf(Tops(nodes)), MaxOf(Bottoms(nodes));
            Move(t.y, t.scale, (min + max) / 2.0) == viewport.y + viewport.height / 2.0 <==> max - min >= 1.0
  {
    ScaleFits(nodes, viewport);
    AxisCentredWhen(viewport.x, viewport.width, MinOf(Lefts(nodes)), MaxOf(Rights(nodes)), Scale(nodes, viewport));
    AxisCentredWhen(viewport.y, viewport.height, MinOf(Tops(nodes)), MaxOf(Bottoms(nodes)), Scale(nodes, viewport));
  }

  lemma BoundsAreTaken(nodes: seq<Rect>) returns (left: nat, right: nat, top: nat, bottom: nat)
    requires nodes != []
    ensures left < |nodes| && nodes[left].x == MinOf(Lefts(nodes))
    ensures right < |nodes| && nodes[right].x + nodes[right].width == MaxOf(Rights(nodes))
    ensures top < |nodes| && nodes[top].y == MinOf(Tops(nodes))
    ensures bottom < |nodes| && nodes[bottom].y + nodes[bottom].height == MaxOf(Bottoms(nodes))
  {
    left :| 0 <= left < |nodes| && Lefts(nodes)[left] == MinOf(Lefts(nodes));
    right :| 0 <= right < |nodes| && Rights(nodes)[right] == MaxOf(Rights(nodes));
    top :| 0 <= top < |nodes| && Tops(nodes)[top] == MinOf(Tops(nodes));
    bottom :| 0 <= bottom < |nodes| && Bottoms(nodes)[bottom] == MaxOf(Bottoms(nodes));
  }

  predicate ShowsAll(t: Transform, nodes: seq<Rect>, viewport: Rect) {
    forall i :: 0 <= i < |nodes| ==> Shows(t, nodes[i], viewport)
  }

  lemma ShownBounds(nodes: seq<Rect>, viewport: Rect, t: Transform)
    requires nodes != [] && ShowsAll(t, nodes, viewport)
    ensures MapsInside(t.x, t.scale, MinOf(Lefts(nodes)), MaxOf(Rights(nodes)), viewport.x, viewport.width)
    ensures MapsInside(t.y, t.scale, MinOf(Tops(nodes)), MaxOf(Bottoms(nodes)), viewport.y, viewport.height)
  {
    var left, right, top, bottom := BoundsAreTaken(nodes);
    assert Shows(t, nodes[left], viewport) && Shows(t, nodes[right], viewport);
    assert Shows(t, nodes[top], viewport) && Shows(t, nodes[bottom], viewport);
  }

  // ---- is the scale the largest? ------------------------------------------------------

  /** The largest scale up to 1 at which a length fits a side. */
  function Room(size: real, length: real): real
    requires size > 0.0
  {
    if length <= size then 1.0 else size / length
  }

  lemma ScalesInOrder(a: real, b: real, scale: real)
    requires a <= b && scale > 0.0
    ensures a * scale <= b * scale
  {
  }

  lemma RoomIsLargest(size: real, length: real, scale: real)
    requires size > 0.0 && 0.0 < scale <= 1.0
    ensures scale <= Room(size, length) <==> length * scale <= size
  {
    if length <= size {
      if length > 0.0 {
        ScalesInOrder(scale, 1.0, length);
      } else {
        ScalesInOrder(length, 0.0, scale);
      }
    } else {
      var room := size / length;
      assert room * length == size;
      assert (room - scale) * length == size - length * scale;
    }
  }

  /**
   What the source allows an axis: never more than there is room for, and all of it unless length and
   side are both below one unit.
   */
  lemma AxisIsTightWhen(size: real, min: real, max: real)
    requires size > 0.0
    ensures Min(1.0, Ratio(size, Extent(min, max))) <= Room(size, max - min)
    ensures Min(1.0, Ratio(size, Extent(min, max))) == Room(size, max - min)
            <==> Ratio(size, Extent(min, max)) >= 1.0 || max - min >= 1.0
  {
    var length := max - min;
    RatioIsLargest(size, Extent(min, max), 1.0);
    if length < 1.0 {
      assert Ratio(size, 1.0) == size;
      if size < length {
        QuotientGrows(size, length);
      }
    }
  }

  lemma QuotientGrows(a: real, b: real)
    requires a > 0.0 && 0.0 < b < 1.0
    ensures a / b > a
  {
    var q := a / b;
    assert q * b == a;
    assert a * (1.0 - b) == a - a * b && a * (1.0 - b) > 0.0;
    assert (q - a) * b == q * b - a * b;
    assert q - a <= 0.0 ==> (q - a) * b <= 0.0;
  }

  lemma RoomIsPositive(size: real, length: real)
    requires size > 0.0
    ensures 0.0 < Room(size, length) <= 1.0
  {
    if length > size {
      var room := size / length;
      assert room * length == size;
      assert (1.0 - room) * length == length - size;
      assert room <= 0.0 ==> room * length <= 0.0;
    }
  }

  lemma AxisHasRoom(shift: real, scale: real, min: real, max: real, low: real, size: real)
    requires size > 0.0 && 0.0 < scale <= 1.0 && MapsInside(shift, scale, min, max, low, size)
    ensures scale <= Room(size, max - min)
  {
    assert (max - min) * scale == max * scale - min * scale;
    RoomIsLargest(size, max - min, scale);
  }

  /** The shift that puts `min` at the viewport's edge. */
  function Start(low: real, min: real, scale: real): real {
    low - min * scale
  }

  lemma StaysAbove(low: real, min: real, scale: real, from: real)
    requires scale > 0.0 && min <= from
    ensures low <= Move(Start(low, min, scale), scale, from)
  {
    assert (from - min) * scale >= 0.0;
    assert (from - min) * scale == from * scale - min * scale;
  }

  lemma StaysBelow(low: real, min: real, max: real, scale: real, size: real, to: real)
    requires scale > 0.0 && to <= max && (max - min) * scale <= size
    ensures Move(Start(low, min, scale), scale, to) <= low + size
  {
    assert (max - to) * scale >= 0.0;
    assert (max - to) * scale == max * scale - to * scale;
    assert (max - min) * scale == max * scale - min * scale;
  }

  lemma RoomIsEnough(scale: real, min: real, max: real, low: real, size: real, from: real, to: real)
    requires size > 0.0 && 0.0 < scale <= 1.0 && scale <= Room(size, max - min) && min <= from && to <= max
    ensures MapsInside(Start(low, min, scale), scale, from, to, low, size)
  {
    RoomIsLargest(size, max - min, scale);
    StaysAbove(low, min, scale, from);
    StaysBelow(low, min, max, scale, size, to);
  }

  /** The largest scale up to 1 at which both sides of the bounding box fit. */
  function Best(nodes: seq<Rect>, viewport: Rect): real
    requires Positive(viewport) && nodes != []
  {
    Min(Room(viewport.width, MaxOf(Rights(nodes)) - MinOf(Lefts(nodes))),
        Room(viewport.height, MaxOf(Bottoms(nodes)) - MinOf(Tops(nodes))))
  }

  lemma NoneIsBetter(nodes: seq<Rect>, viewport: Rect, other: Transform)
    requires Positive(viewport) && nodes != [] && 0.0 < other.scale <= 1.0 && ShowsAll(other, nodes, viewport)
    ensures other.scale <= Best(nodes, viewport)
  {
    ShownBounds(nodes, viewport, other);
    AxisHasRoom(other.x, other.scale, MinOf(Lefts(nodes)), MaxOf(Rights(nodes)), viewport.x, viewport.width);
    AxisHasRoom(other.y, other.scale, MinOf(Tops(nodes)), MaxOf(Bottoms(nodes)), viewport.y, viewport.height);
  }

  function BestTransform(nodes: seq<Rect>, viewport: Rect): Transform
    requires Positive(viewport) && nodes != []
  {
    var scale := Best(nodes, viewport);
    Transform(Start(viewport.x, MinOf(Lefts(nodes)), scale), Start(viewport.y, MinOf(Tops(nodes)), scale), scale)
  }

  lemma BestIsPositive(nodes: seq<Rect>, viewport: Rect)
    requires Positive(viewport) && nodes != []
    ensures 0.0 < Best(nodes, viewport) <= 1.0
  {
    RoomIsPositive(viewport.width, MaxOf(Rights(nodes)) - MinOf(Lefts(nodes)));
    RoomIsPositive(viewport.height, MaxOf(Bottoms(nodes)) - MinOf(Tops(nodes)));
  }

  lemma BestShows(nodes: seq<Rect>, viewport: Rect, i: nat)
    requires Positive(viewport) && i < |nodes|
    ensures Shows(BestTransform(nodes, viewport), nodes[i], viewport)
  {
    var scale, node := Best(nodes, viewport), nodes[i];
    BestIsPositive(nodes, viewport);
    WithinBounds(nodes, i);
    RoomIsEnough(scale, MinOf(Lefts(nodes)), MaxOf(Rights(nodes)), viewport.x, viewport.width, node.x,
                 node.x + node.width);
    RoomIsEnough(scale, MinOf(Tops(nodes)), MaxOf(Bottoms(nodes)), viewport.y, viewport.height, node.y,
                 node.y + node.height);
  }

  lemma BestShowsAll(nodes: seq<Rect>, viewport: Rect)
    requires Positive(viewport) && nodes != []
    ensures ShowsAll(BestTransform(nodes, viewport), nodes, viewport)
  {
    forall i | 0 <= i < |nodes| ensures Shows(BestTransform(nodes, viewport), nodes[i], viewport) {
      BestShows(nodes, viewport, i);
    }
  }

  /** No other shift and no larger scale up to 1 shows every node. */
  ghost predicate IsLargest(nodes: seq<Rect>, viewport: Rect) {
    forall other: Transform :: 0.0 < other.scale <= 1.0 && ShowsAll(other, nodes, viewport) ==>
      other.scale <= Fit(nodes, viewport).scale
  }

  lemma LargestMeansBest(nodes: seq<Rect>, viewport: Rect)
    requires Positive(viewport) && nodes != []
    ensures IsLargest(nodes, viewport) <==> Best(nodes, viewport) <= Scale(nodes, viewport)
  {
    BestShowsAll(nodes, viewport);
    BestIsPositive(nodes, viewport);
    assert BestTransform(nodes, viewport).scale == Best(nodes, viewport);
    if Best(nodes, viewport) <= Scale(nodes, viewport) {
      forall other: Transform | 0.0 < other.scale <= 1.0 && ShowsAll(other, nodes, viewport)
        ensures other.scale <= Fit(nodes, viewport).scale
      {
        NoneIsBetter(nodes, viewport, other);
      }
    }
  }

  /**
   Which scale decides: none below 1, or the smaller ratio's axis, on which the nodes extend over at
   least one unit.
   */
  predicate DecidedAboveOneUnit(nodes: seq<Rect>, viewport: Rect)
    requires nodes != []
  {
    var width, height := MaxOf(Rights(nodes)) - MinOf(Lefts(nodes)), MaxOf(Bottoms(nodes)) - MinOf(Tops(nodes));
    var across, down := Ratio(viewport.width, Max(1.0, width)), Ratio(viewport.height, Max(1.0, height));
    || (across >= 1.0 && down >= 1.0)
    || (width >= 1.0 && across <= down)
    || (height >= 1.0 && down <= across)
  }

  /**
   The fitted scale is the largest up to 1 exactly when it is 1 or an axis on which the nodes reach
   one unit decides it.
   */
  lemma LargestExactlyWhen(nodes: seq<Rect>, viewport: Rect)
    requires Positive(viewport)
    ensures IsLargest(nodes, viewport) <==> nodes == [] || DecidedAboveOneUnit(nodes, viewport)
  {
    if nodes != [] {
      LargestMeansBest(nodes, viewport);
      AxisIsTightWhen(viewport.width, MinOf(Lefts(nodes)), MaxOf(Rights(nodes)));
      AxisIsTightWhen(viewport.height, MinOf(Tops(nodes)), MaxOf(Bottoms(nodes)));
    }
  }

  lemma BoundsOfOne(node: Rect)
    ensures MinOf(Lefts([node])) == node.x && MaxOf(Rights([node])) == node.x + node.width
    ensures MinOf(Tops([node])) == node.y && MaxOf(Bottoms([node])) == node.y + node.height
  {
  }

  const HALF := Rect(0.0, 0.0, 0.5, 0.5)

  lemma HalfScale()
    ensures Scale([HALF], HALF) == 0.5
  {
    BoundsOfOne(HALF);
    assert Extent(0.0, 0.5) == 1.0 && Ratio(0.5, 1.0) == 0.5;
  }

  lemma HalfIsShown()
    ensures ShowsAll(Transform(0.0, 0.0, 1.0), [HALF], HALF)
  {
    assert MapsInside(0.0, 1.0, 0.0, 0.5, 0.0, 0.5);
  }

  /** A node of half a unit in a viewport of half a unit is shrunk to half its size, although it fits as it is. */
  lemma SmallViewShrinksTooFar()
    ensures Fit([HALF], HALF).scale == 0.5 && ShowsAll(Transform(0.0, 0.0, 1.0), [HALF], HALF)
    ensures !IsLargest([HALF], HALF)
  {
    HalfScale();
    HalfIsShown();
    assert Transform(0.0, 0.0, 1.0).scale == 1.0;
  }
}
