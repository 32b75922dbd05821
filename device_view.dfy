/** The electrode layout and drawing of DeviceView
    (python/gui/device_view.py): electrodes numbered by a class-level counter,
    the strict point-in-rectangle test, the offset applied to the hard-coded
    layout, and the rectangles an update fills. Coordinates are reals; the
    pixmap is represented by the list of fills issued to it. */
module DeviceView {
  import opened Wrappers
  import opened Colors

  /** An axis-aligned rectangle: corner (x, y), extent width by height. */
  datatype Rect = Rect(x: real, y: real, width: real, height: real)

  /** One fill of the pixmap: a rectangle and the colour it is filled with. */
  datatype Fill = Fill(rect: Rect, color: Rgb)

  /** The pixmap's background, drawn with the widget style's black. */
  const Black := Rgb(0, 0, 0)

  /** The rectangle scaled by `s` about the origin (draw_electrode). */
  function Scaled(r: Rect, s: real): Rect
  {
    Rect(s * r.x, s * r.y, s * r.width, s * r.height)
  }

  /** The rectangle moved by (dx, dy). */
  function Translated(r: Rect, dx: real, dy: real): Rect
  {
    Rect(r.x + dx, r.y + dy, r.width, r.height)
  }

  /** The open interior of a rectangle: its edges are not part of it. */
  predicate Interior(r: Rect, px: real, py: real)
  {
    r.x < px < r.x + r.width && r.y < py < r.y + r.height
  }

  /** Electrode.next_id, the counter every construction draws from. */
  class IdCounter {
    var next: int

    constructor (start: int)
      ensures next == start
    {
      next := start;
    }
  }

  /** Electrode: an id, a position and extent in device units, and the
      colour the view fills it with. */
  class Electrode {
    const id: int
    var x: real
    var y: real
    var width: real
    var height: real
    var color: Rgb

    /** `Electrode(x, y, width, height=None)` (lines 75-85): takes the
        counter's value as its id and advances the counter; a missing height
        is the width; a new electrode is blue. */
    constructor (counter: IdCounter, x0: real, y0: real, w: real, h: Option<real>)
      modifies counter
      ensures id == old(counter.next) && counter.next == old(counter.next) + 1
      ensures x == x0 && y == y0 && width == w
      ensures h.None? ==> height == w
      ensures h.Some? ==> height == h.value
      ensures color == Blue
    {
      id := counter.next;
      counter.next := counter.next + 1;
      x := x0;
      y := y0;
      width := w;
      height := if h.None? then w else h.value;
      color := Blue;
    }

    /** The electrode's rectangle in device units. */
    function Bounds(): Rect
      reads this
    {
      Rect(x, y, width, height)
    }

    /** `contains` (lines 87-92), written as the source compares. */
    predicate Contains(px: real, py: real, scale: real)
      reads this
    {
      px > scale * x && px < scale * (x + width) &&
      py > scale * y && py < scale * (y + height)
    }
  }

  /** A point is contained exactly when it lies inside the rectangle the view
      draws for the electrode at the same scale. */
  lemma ContainsIsInteriorOfOutline(e: Electrode, px: real, py: real, scale: real)
    ensures e.Contains(px, py, scale) <==> Interior(Scaled(e.Bounds(), scale), px, py)
  {
    assert scale * (e.x + e.width) == scale * e.x + scale * e.width;
    assert scale * (e.y + e.height) == scale * e.y + scale * e.height;
  }

  /** No point on an edge of the drawn rectangle is contained. */
  lemma EdgesNotContained(e: Electrode, px: real, py: real, scale: real)
    requires var r := Scaled(e.Bounds(), scale);
      px == r.x || px == r.x + r.width || py == r.y || py == r.y + r.height
    ensures !e.Contains(px, py, scale)
  {
    ContainsIsInteriorOfOutline(e, px, py, scale);
  }

  /** At a positive scale, `contains` is the open-rectangle test in device
      units on the point divided by the scale. */
  lemma ContainsInDeviceUnits(e: Electrode, px: real, py: real, scale: real)
    requires scale > 0.0
    ensures e.Contains(px, py, scale) <==> Interior(e.Bounds(), px / scale, py / scale)
  {
    assert scale * (px / scale) == px;
    assert scale * (py / scale) == py;
  }

  /** The arguments of one `Electrode(...)` call of the layout. */
  datatype Shape = Shape(x: real, y: real, width: real, height: Option<real>)

  /** The rectangle an electrode built from a shape covers. */
  function Placed(s: Shape): Rect
  {
    Rect(s.x, s.y, s.width, if s.height.None? then s.width else s.height.value)
  }

  /** The 35 electrodes of lines 12-46, in list order. */
  const Layout: seq<Shape> := [
      Shape(24.0, 16.0, 1.9, None),
      Shape(24.0, 14.0, 1.9, None),
      Shape(24.0, 12.0, 1.9, None),
      Shape(22.0, 6.0, 5.9, None),
      Shape(22.0, 0.0, 5.9, None),
      Shape(22.0, 16.0, 1.9, None),
      Shape(20.0, 16.0, 1.9, None),
      Shape(6.0, 0.0, 5.9, None),
      Shape(16.0, 9.0, 1.9, Some(0.9)),
      Shape(16.0, 10.0, 1.9, Some(0.9)),
      Shape(16.0, 11.0, 1.9, Some(0.9)),
      Shape(16.0, 12.0, 1.9, Some(0.9)),
      Shape(16.0, 13.0, 1.9, Some(0.9)),
      Shape(6.0, 6.0, 5.9, None),
      Shape(8.0, 12.0, 1.9, None),
      Shape(8.0, 14.0, 1.9, None),
      Shape(12.0, 16.0, 1.9, None),
      Shape(10.0, 16.0, 1.9, None),
      Shape(8.0, 16.0, 1.9, None),
      Shape(14.0, 16.0, 1.9, None),
      Shape(16.0, 16.0, 1.9, None),
      Shape(16.0, 14.0, 1.9, None),
      Shape(18.0, 16.0, 1.9, None),
      Shape(16.0, 18.0, 1.9, None),
      Shape(16.0, 20.0, 1.9, None),
      Shape(16.0, 22.0, 1.9, None),
      Shape(14.5, 24.25, 1.4, None),
      Shape(16.0, 24.0, 1.9, None),
      Shape(18.0, 24.25, 1.4, None),
      Shape(13.0, 24.25, 1.4, None),
      Shape(19.5, 24.25, 1.4, None),
      Shape(21.0, 22.0, 5.9, None),
      Shape(7.0, 22.0, 5.9, None),
      Shape(1.0, 22.0, 5.9, None),
      Shape(27.0, 22.0, 5.9, None)
    ]

  /** Each electrode's id is greater than those of the electrodes before it. */
  ghost predicate IdsIncreasing(es: seq<Electrode>)
  {
    forall i, j :: 0 <= i < j < |es| ==> es[i].id < es[j].id
  }

  /** The fills `update` issues for `es`, one per electrode and in order. */
  function Fills(es: seq<Electrode>, scale: real): (r: seq<Fill>)
    reads es
    ensures |r| == |es|
    ensures forall k :: 0 <= k < |es| ==> r[k] == Fill(Scaled(es[k].Bounds(), scale), es[k].color)
  {
    if es == [] then []
    else
      var last := es[|es| - 1];
      Fills(es[..|es| - 1], scale) + [Fill(Scaled(last.Bounds(), scale), last.color)]
  }

  /** The list literal of lines 11-47: one construction per shape, in order. */
  method BuildLayout(counter: IdCounter, shapes: seq<Shape>) returns (es: seq<Electrode>)
    modifies counter
    ensures |es| == |shapes| && counter.next == old(counter.next) + |shapes|
    ensures forall k :: 0 <= k < |es| ==> fresh(es[k])
    ensures forall k :: 0 <= k < |es| ==> es[k].id == old(counter.next) + k
    ensures forall k :: 0 <= k < |es| ==> es[k].Bounds() == Placed(shapes[k]) && es[k].color == Blue
  {
    es := [];
    var i := 0;
    while i < |shapes|
      invariant 0 <= i <= |shapes| && |es| == i
      invariant counter.next == old(counter.next) + i
      invariant forall k :: 0 <= k < i ==> fresh(es[k])
      invariant forall k :: 0 <= k < i ==> es[k].id == old(counter.next) + k
      invariant forall k :: 0 <= k < i ==> es[k].Bounds() == Placed(shapes[k]) && es[k].color == Blue
    {
      var s := shapes[i];
      var e := new Electrode(counter, s.x, s.y, s.width, s.height);
      es := es + [e];
      i := i + 1;
    }
  }

  /** DeviceView: the electrodes at their display positions, the drawing
      scale and the fills issued to the pixmap so far. */
  class DeviceView {
    var scale: real
    var electrodes: seq<Electrode>
    var drawn: seq<Fill>
    var drawQueued: bool

    /** `DeviceView(widget)` (lines 4-51), for a widget allocation of
        `allocWidth` by `allocHeight`: a black background, scale 10, the
        layout's electrodes numbered from the counter in list order, each
        moved 5 units right and down. */
    constructor (counter: IdCounter, allocWidth: real, allocHeight: real)
      modifies counter
      ensures scale == 10.0 && !drawQueued
      ensures drawn == [Fill(Rect(0.0, 0.0, allocWidth, allocHeight), Black)]
      ensures |electrodes| == |Layout| && counter.next == old(counter.next) + |Layout|
      ensures forall k :: 0 <= k < |electrodes| ==> fresh(electrodes[k])
      ensures forall k :: 0 <= k < |electrodes| ==> electrodes[k].id == old(counter.next) + k
      ensures forall k :: 0 <= k < |electrodes| ==>
        electrodes[k].Bounds() == Translated(Placed(Layout[k]), 5.0, 5.0) && electrodes[k].color == Blue
    {
      scale := 10.0;
      drawn := [Fill(Rect(0.0, 0.0, allocWidth, allocHeight), Black)];
      drawQueued := false;
      var es := BuildLayout(counter, Layout);
      electrodes := es;
      new;
      Offset();
    }

    /** The loop of lines 49-51: every electrode moves by (5, 5) and keeps
        its extent, colour and place in the list. */
    method Offset()
      requires IdsIncreasing(electrodes)
      modifies electrodes
      ensures forall k :: 0 <= k < |electrodes| ==>
        electrodes[k].Bounds() == Translated(old(electrodes[k].Bounds()), 5.0, 5.0)
      ensures forall k :: 0 <= k < |electrodes| ==> electrodes[k].color == old(electrodes[k].color)
    {
      var i := 0;
      while i < |electrodes|
        invariant 0 <= i <= |electrodes|
        invariant forall k :: 0 <= k < i ==>
          electrodes[k].Bounds() == Translated(old(electrodes[k].Bounds()), 5.0, 5.0)
        invariant forall k :: i <= k < |electrodes| ==> electrodes[k].Bounds() == old(electrodes[k].Bounds())
        invariant forall k :: 0 <= k < |electrodes| ==> electrodes[k].color == old(electrodes[k].color)
      {
        var e := electrodes[i];
        e.x := e.x + 5.0;
        e.y := e.y + 5.0;
        i := i + 1;
      }
    }

    /** `update` (lines 60-67): fills every electrode's drawn rectangle with
        its own colour, in list order, then asks for a redraw. */
    method Update()
      modifies this
      ensures electrodes == old(electrodes) && scale == old(scale)
      ensures drawn == old(drawn) + Fills(electrodes, scale)
      ensures drawQueued
    {
      var fills := [];
      var i := 0;
      while i < |electrodes|
        invariant 0 <= i <= |electrodes|
        invariant fills == Fills(electrodes[..i], scale)
      {
        var e := electrodes[i];
        assert electrodes[..i + 1][..i] == electrodes[..i];
        fills := fills + [Fill(Scaled(e.Bounds(), scale), e.color)];
        i := i + 1;
      }
      assert electrodes[..i] == electrodes;
      drawn := drawn + fills;
      drawQueued := true;
    }
  }
}
