/**
 * The scene: the boxes shown on a canvas, the screen origin, hit-testing against the shared
 * index and the pointer state machine that moves the focus from box to box.
 */
module Scene {
  import opened Wrappers
  import opened Rectangle
  import opened Strings
  import opened Ordering
  import opened Box

  // ---------------------------------------------------------------------------
  // index queries

  /** A search window of the index, given by its extreme coordinates. */
  datatype Query = Query(minX: real, minY: real, maxX: real, maxY: real)

  /** The window spanned by a position and a size that may be negative. */
  function Normalise(x: real, y: real, w: real, h: real): (q: Query)
    ensures q.minX <= q.maxX && q.minY <= q.maxY
    ensures q.maxX - q.minX == (if w < 0.0 then -w else w)
    ensures q.maxY - q.minY == (if h < 0.0 then -h else h)
  {
    Query(Min(x, x + w), Min(y, y + h), Max(x, x + w), Max(y, y + h))
  }

  function Min(a: real, b: real): real { if a <= b then a else b }

  function Max(a: real, b: real): real { if a <= b then b else a }

  /** The same rectangle described from its opposite corner gives the same window. */
  lemma NormaliseFlip(x: real, y: real, w: real, h: real)
    ensures Normalise(x + w, y, -w, h) == Normalise(x, y, w, h)
    ensures Normalise(x, y + h, w, -h) == Normalise(x, y, w, h)
  {
  }

  /** The index's overlap test: an entry is hit when it reaches the window on both axes, edges included. */
  predicate Overlaps(r: Rect, q: Query) {
    q.minX <= r.Right() && q.minY <= r.Bottom() && q.maxX >= r.Left() && q.maxY >= r.Top()
  }

  /** Overlap in the index is weaker than strict intersection of rectangles: touching also counts. */
  lemma IntersectsImpliesOverlaps(r: Rect, s: Rect)
    requires s.width >= 0.0 && s.height >= 0.0 && r.Intersects(s)
    ensures Overlaps(r, Normalise(s.x, s.y, s.width, s.height))
  {
  }

  /** A box containing a point is hit by the one-unit window at that point. */
  lemma ContainedPointHits(r: Rect, px: real, py: real)
    requires r.Contains(px, py)
    ensures Overlaps(r, Normalise(px, py, 1.0, 1.0))
  {
  }

  /** `Box.tree.search`: the boxes of the entries that overlap the window, in the index's order. */
  function Search(index: seq<(BoxId, Rect)>, q: Query): (r: seq<BoxId>)
    ensures |r| <= |index|
    ensures forall id :: id in r <==> exists k :: 0 <= k < |index| && index[k].0 == id && Overlaps(index[k].1, q)
  {
    if index == [] then []
    else
      var rest := Search(index[1..], q);
      assert forall k :: 0 < k < |index| ==> index[k] == index[1..][k - 1];
      forall id | id in rest
        ensures exists k :: 0 <= k < |index| && index[k].0 == id && Overlaps(index[k].1, q)
      {
        var k :| 0 <= k < |index[1..]| && index[1..][k].0 == id && Overlaps(index[1..][k].1, q);
        assert index[k + 1] == index[1..][k];
      }
      if Overlaps(index[0].1, q) then [index[0].0] + rest else rest
  }

  /** The positions of the entries of `id` that overlap the window. */
  function HitEntries(index: seq<(BoxId, Rect)>, q: Query, id: BoxId): set<nat> {
    set k | 0 <= k < |index| && index[k].0 == id && Overlaps(index[k].1, q)
  }

  /** Search returns a box once for every entry of it that overlaps the window. */
  lemma {:induction false} SearchCounts(index: seq<(BoxId, Rect)>, q: Query, id: BoxId)
    ensures multiset(Search(index, q))[id] == |HitEntries(index, q, id)|
    decreases |index|
  {
    if index != [] {
      SearchCounts(index[1..], q, id);
      SearchCons(index, q);
      HitEntriesCons(index, q, id);
      ShiftedSize(HitEntries(index[1..], q, id));
    }
  }

  lemma SearchCons(index: seq<(BoxId, Rect)>, q: Query)
    requires index != []
    ensures Search(index, q) == (if Overlaps(index[0].1, q) then [index[0].0] else []) + Search(index[1..], q)
  {
  }

  lemma HitEntriesCons(index: seq<(BoxId, Rect)>, q: Query, id: BoxId)
    requires index != []
    ensures HitEntries(index, q, id) ==
            (if index[0].0 == id && Overlaps(index[0].1, q) then {0} else {}) + Shift(HitEntries(index[1..], q, id))
    ensures 0 !in Shift(HitEntries(index[1..], q, id))
  {
    var tail := HitEntries(index[1..], q, id);
    forall k | k in HitEntries(index, q, id) && k > 0
      ensures k in Shift(tail)
    {
      assert index[1..][k - 1] == index[k];
      assert k - 1 in tail;
    }
    forall k | k in Shift(tail)
      ensures k in HitEntries(index, q, id)
    {
      var m :| m in tail && k == m + 1;
      assert index[1..][m] == index[k];
    }
  }

  /** Every position one up. */
  function Shift(s: set<nat>): set<nat> {
    set k | k in s :: k + 1
  }

  /** Moving every position one up keeps the number of positions. */
  lemma {:induction false} ShiftedSize(s: set<nat>)
    ensures |Shift(s)| == |s|
    decreases |s|
  {
    if s != {} {
      var x :| x in s;
      var rest := s - {x};
      ShiftedSize(rest);
      forall y | y in Shift(s)
        ensures y in Shift(rest) + {x + 1}
      {
        var k :| k in s && y == k + 1;
        if k != x {
          assert k in rest;
        }
      }
      assert Shift(s) == Shift(rest) + {x + 1};
      assert x + 1 !in Shift(rest);
    }
  }

  // ---------------------------------------------------------------------------
  // ordering of hits

  /** The sort key `${depth}-${index}` of a box. */
  function SortKey(bs: seq<BoxState>, id: BoxId): string {
    if id < |bs| then IntToString(bs[id].depth) + "-" + IntToString(ChildIndex(bs, id)) else ""
  }

  function KeyOf(bs: seq<BoxState>): BoxId -> string {
    (id: BoxId) => SortKey(bs, id)
  }

  /** What getVisibleAtRect returns: the hits sorted by key, reversed when asked. */
  function VisibleAt(bs: seq<BoxState>, index: seq<(BoxId, Rect)>, x: real, y: real, w: real, h: real, reverse: bool): seq<BoxId> {
    var sorted := SortBy(Search(index, Normalise(x, y, w, h)), KeyOf(bs));
    if reverse then Reverse(sorted) else sorted
  }

  /** The visible boxes are the hits of the window, each as often as the index holds it, in key order. */
  lemma VisibleAtHits(bs: seq<BoxState>, index: seq<(BoxId, Rect)>, x: real, y: real, w: real, h: real, reverse: bool)
    ensures multiset(VisibleAt(bs, index, x, y, w, h, reverse)) == multiset(Search(index, Normalise(x, y, w, h)))
    ensures reverse ==> SortedDownBy(VisibleAt(bs, index, x, y, w, h, reverse), KeyOf(bs))
    ensures !reverse ==> SortedBy(VisibleAt(bs, index, x, y, w, h, reverse), KeyOf(bs))
  {
    var sorted := SortBy(Search(index, Normalise(x, y, w, h)), KeyOf(bs));
    if reverse {
      ReverseSortedDown(sorted, KeyOf(bs));
    }
  }

  /** The box under the pointer: the first of the reversed hits of the one-unit window. */
  function TopHit(bs: seq<BoxState>, index: seq<(BoxId, Rect)>, x: real, y: real): Option<BoxId> {
    var v := VisibleAt(bs, index, x, y, 1.0, 1.0, true);
    if |v| > 0 then Some(v[0]) else None
  }

  /** The top hit is one of the hits, its key is not below any other hit's, and there is one exactly when anything is hit. */
  lemma TopHitIsHighest(bs: seq<BoxState>, index: seq<(BoxId, Rect)>, x: real, y: real)
    ensures TopHit(bs, index, x, y).None? <==> Search(index, Normalise(x, y, 1.0, 1.0)) == []
    ensures TopHit(bs, index, x, y).Some? ==>
              var t := TopHit(bs, index, x, y).value;
              t in Search(index, Normalise(x, y, 1.0, 1.0)) &&
              forall z :: z in Search(index, Normalise(x, y, 1.0, 1.0)) ==> StrLe(SortKey(bs, z), SortKey(bs, t))
  {
    var hits := Search(index, Normalise(x, y, 1.0, 1.0));
    var v := VisibleAt(bs, index, x, y, 1.0, 1.0, true);
    VisibleAtHits(bs, index, x, y, 1.0, 1.0, true);
    if |v| == 0 {
      assert multiset(hits) == multiset{};
    } else {
      assert v[0] in multiset(v);
      forall z | z in hits
        ensures StrLe(SortKey(bs, z), SortKey(bs, v[0]))
      {
        assert z in multiset(v);
        var i :| 0 <= i < |v| && v[i] == z;
        if i > 0 {
          assert StrLe(KeyOf(bs)(v[i]), KeyOf(bs)(v[0]));
        } else {
          StrLeReflexive(SortKey(bs, z));
        }
      }
    }
  }

  /** Every box a query returns is a box of the arena when every entry of the index is. */
  lemma VisibleAreBoxes(bs: seq<BoxState>, index: seq<(BoxId, Rect)>, x: real, y: real, w: real, h: real, reverse: bool)
    requires forall e :: e in index ==> e.0 < |bs|
    ensures forall z :: z in VisibleAt(bs, index, x, y, w, h, reverse) ==> z < |bs|
  {
    VisibleAtHits(bs, index, x, y, w, h, reverse);
    forall z | z in VisibleAt(bs, index, x, y, w, h, reverse)
      ensures z < |bs|
    {
      assert z in multiset(VisibleAt(bs, index, x, y, w, h, reverse));
      assert z in Search(index, Normalise(x, y, w, h));
      var k :| 0 <= k < |index| && index[k].0 == z && Overlaps(index[k].1, Normalise(x, y, w, h));
      assert index[k] in index;
    }
  }

  /**
   * The keys compare as text, not as numbers: a box at depth 10 ranks below one at depth 2, so
   * among the hits the depth-2 box is reported first.
   */
  lemma DepthsCompareAsText()
    ensures IntToString(10) + "-" + IntToString(0) == "10-0"
    ensures IntToString(2) + "-" + IntToString(0) == "2-0"
    ensures StrLe("10-0", "2-0") && !StrLe("2-0", "10-0")
  {
    assert NatToString(10) == NatToString(1) + [DigitChar(0)];
  }

  // ---------------------------------------------------------------------------
  // pointer events

  /** The callbacks the scene invokes on boxes. */
  datatype Event = Over(box: BoxId) | Out(box: BoxId) | Move(box: BoxId) | Down(box: BoxId) | Up(box: BoxId)

  /**
   * The callbacks of one pointer move, from the old focus and the box now under the pointer:
   * out for a focus that is left, over for a box that is entered, then move for the box under
   * the pointer.
   */
  function MoveEvents(focus: Option<BoxId>, top: Option<BoxId>): seq<Event> {
    (if focus.Some? && focus != top then [Out(focus.value)] else []) +
    (if top.Some? && focus != top then [Over(top.value)] else []) +
    (if top.Some? then [Move(top.value)] else [])
  }

  function Overs(events: seq<Event>): nat {
    if events == [] then 0 else (if events[0].Over? then 1 else 0) + Overs(events[1..])
  }

  function Outs(events: seq<Event>): nat {
    if events == [] then 0 else (if events[0].Out? then 1 else 0) + Outs(events[1..])
  }

  function Count(o: Option<BoxId>): nat { if o.Some? then 1 else 0 }

  lemma {:induction false} CountsAppend(a: seq<Event>, b: seq<Event>)
    ensures Overs(a + b) == Overs(a) + Overs(b) && Outs(a + b) == Outs(a) + Outs(b)
  {
    if a == [] {
      assert a + b == b;
    } else {
      CountsAppend(a[1..], b);
      assert (a + b)[0] == a[0] && (a + b)[1..] == a[1..] + b;
    }
  }

  /**
   * The focus is always the box last entered and not left: over a sequence of moves, every over
   * is followed by exactly one out before the next over.
   */
  lemma {:induction false} OverOutBalance(focus: Option<BoxId>, top: Option<BoxId>)
    ensures Overs(MoveEvents(focus, top)) + Count(focus) == Outs(MoveEvents(focus, top)) + Count(top)
    ensures Overs(MoveEvents(focus, top)) <= 1 && Outs(MoveEvents(focus, top)) <= 1
  {
    var outs := if focus.Some? && focus != top then [Out(focus.value)] else [];
    var overs := if top.Some? && focus != top then [Over(top.value)] else [];
    var moves := if top.Some? then [Move(top.value)] else [];
    CountsAppend(outs, overs);
    CountsAppend(outs + overs, moves);
  }

  /** The four transitions of the focus, spelled out. */
  lemma MoveEventsCases(focus: Option<BoxId>, top: Option<BoxId>)
    ensures focus == top ==> MoveEvents(focus, top) == if top.Some? then [Move(top.value)] else []
    ensures focus != top && focus.Some? && top.Some? ==>
              MoveEvents(focus, top) == [Out(focus.value), Over(top.value), Move(top.value)]
    ensures focus.None? && top.Some? ==> MoveEvents(focus, top) == [Over(top.value), Move(top.value)]
    ensures focus.Some? && top.None? ==> MoveEvents(focus, top) == [Out(focus.value)]
  {
  }

  /** A second move over the same box only reports the move. */
  lemma MoveSettles(focus: Option<BoxId>, top: Option<BoxId>)
    ensures MoveEvents(top, top) == if top.Some? then [Move(top.value)] else []
  {
  }

  /** Each move over a box ends with that box's move callback; with nothing under the pointer, only the old focus hears of it. */
  lemma MoveEventsShape(focus: Option<BoxId>, top: Option<BoxId>)
    ensures top.Some? ==> |MoveEvents(focus, top)| > 0 && MoveEvents(focus, top)[|MoveEvents(focus, top)| - 1] == Move(top.value)
    ensures top.None? ==> MoveEvents(focus, top) == if focus.Some? then [Out(focus.value)] else []
  {
  }

  /** The boxes after a move: a box that loses the focus loses its background, one that gains it turns blue. */
  function Repaint(bs: seq<BoxState>, focus: Option<BoxId>, top: Option<BoxId>): seq<BoxState> {
    var left := if focus.Some? && focus != top && focus.value < |bs| then bs[focus.value := bs[focus.value].(backgroundColor := None)] else bs;
    if top.Some? && focus != top && top.value < |left| then left[top.value := left[top.value].(backgroundColor := Some("blue"))] else left
  }

  /** Repainting touches only the background colours of the old and the new focus. */
  lemma RepaintOnlyBackgrounds(bs: seq<BoxState>, focus: Option<BoxId>, top: Option<BoxId>)
    ensures |Repaint(bs, focus, top)| == |bs|
    ensures forall z :: 0 <= z < |bs| ==> Repaint(bs, focus, top)[z] == bs[z].(backgroundColor := Repaint(bs, focus, top)[z].backgroundColor)
    ensures forall z :: 0 <= z < |bs| && Some(z) != focus && Some(z) != top ==> Repaint(bs, focus, top)[z] == bs[z]
    ensures focus != top && top.Some? && top.value < |bs| ==> Repaint(bs, focus, top)[top.value].backgroundColor == Some("blue")
    ensures focus != top && focus.Some? && focus.value < |bs| ==> Repaint(bs, focus, top)[focus.value].backgroundColor == None
    ensures focus == top ==> Repaint(bs, focus, top) == bs
  {
  }

  // ---------------------------------------------------------------------------
  // the scene

  class Scene {
    /** The arena of boxes, with the index every box registers in. */
    const world: Boxes
    var children: seq<BoxId>
    var screenX: real
    var screenY: real
    var focus: Option<BoxId>

    ghost predicate Valid()
      reads this, world
    {
      world.Valid() &&
      (forall k :: 0 <= k < |children| ==> children[k] < |world.boxes|) &&
      (focus.Some? ==> focus.value < |world.boxes|)
    }

    /** A scene over an arena, with no children, no focus and the screen at the origin. */
    constructor(world: Boxes)
      requires world.Valid()
      ensures Valid() && this.world == world
      ensures children == [] && screenX == 0.0 && screenY == 0.0 && focus == None
    {
      this.world := world;
      children := [];
      screenX, screenY := 0.0, 0.0;
      focus := None;
    }

    /** The rectangle of the world the canvas shows. */
    function ScreenBounds(canvasWidth: real, canvasHeight: real): (r: Rect)
      reads this
      ensures r.Left() == screenX && r.Top() == screenY
      ensures r.width == canvasWidth && r.height == canvasHeight
    {
      Rect(screenX, screenY, canvasWidth, canvasHeight)
    }

    /** setOrigin: scrolls the screen to a new origin. */
    method SetOrigin(x: real, y: real)
      modifies this`screenX, this`screenY
      ensures screenX == x && screenY == y
      ensures forall cx, cy, left, top :: LocalMousePos(cx, cy, left, top, true) == (cx - left + x, cy - top + y)
    {
      screenX, screenY := x, y;
    }

    /**
     * localMousePos: the pointer's client position relative to the canvas's client rectangle,
     * shifted by the screen origin when asked.
     */
    function LocalMousePos(clientX: real, clientY: real, canvasLeft: real, canvasTop: real, applyScreenBounds: bool): (p: (real, real))
      reads this
      ensures applyScreenBounds ==> p == (clientX - canvasLeft + screenX, clientY - canvasTop + screenY)
      ensures !applyScreenBounds ==> p == (clientX - canvasLeft, clientY - canvasTop)
    {
      var sb := ScreenBounds(0.0, 0.0);
      (clientX - canvasLeft + (if applyScreenBounds then sb.Left() else 0.0),
       clientY - canvasTop + (if applyScreenBounds then sb.Top() else 0.0))
    }

    /** The topmost box under the pointer at a client position. */
    function PointerTop(clientX: real, clientY: real, canvasLeft: real, canvasTop: real): Option<BoxId>
      reads this, world
    {
      var p := LocalMousePos(clientX, clientY, canvasLeft, canvasTop, true);
      TopHit(world.boxes, world.index, p.0, p.1)
    }

    /** getVisibleAtRect: search the index with the normalised window, sort the hits by key, reverse them when asked. */
    method GetVisibleAtRect(x: real, y: real, w: real, h: real, reverse: bool) returns (hits: seq<BoxId>)
      requires Valid()
      ensures hits == VisibleAt(world.boxes, world.index, x, y, w, h, reverse)
      ensures multiset(hits) == multiset(Search(world.index, Normalise(x, y, w, h)))
      ensures reverse ==> SortedDownBy(hits, KeyOf(world.boxes))
      ensures !reverse ==> SortedBy(hits, KeyOf(world.boxes))
      ensures forall z :: z in hits ==> z < |world.boxes|
    {
      var q := Normalise(x, y, w, h);
      hits := Search(world.index, q);
      hits := SortBy(hits, KeyOf(world.boxes));
      if reverse {
        hits := Reverse(hits);
      }
      VisibleAtHits(world.boxes, world.index, x, y, w, h, reverse);
      VisibleAreBoxes(world.boxes, world.index, x, y, w, h, reverse);
    }

    /** getVisibleAtPoint: the boxes under a point, topmost first. */
    method GetVisibleAtPoint(x: real, y: real) returns (hits: seq<BoxId>)
      requires Valid()
      ensures hits == VisibleAt(world.boxes, world.index, x, y, 1.0, 1.0, true)
      ensures multiset(hits) == multiset(Search(world.index, Normalise(x, y, 1.0, 1.0)))
      ensures SortedDownBy(hits, KeyOf(world.boxes))
      ensures |hits| > 0 <==> TopHit(world.boxes, world.index, x, y).Some?
      ensures |hits| > 0 ==> TopHit(world.boxes, world.index, x, y) == Some(hits[0]) && hits[0] < |world.boxes|
    {
      hits := GetVisibleAtRect(x, y, 1.0, 1.0, true);
      if |hits| > 0 {
        assert hits[0] in hits;
      }
    }

    /** addChild: the box joins the scene's children and the index, at depth 0; its parent link is left alone. */
    method AddChild(box: BoxId)
      requires Valid() && box < |world.boxes|
      modifies this`children, world`boxes, world`bounds, world`index
      ensures Valid()
      ensures children == old(children) + [box]
      ensures world.index == old(world.index) + [(box, old(world.FreshBounds(box)))]
      ensures world.boxes == old(world.boxes)[box := old(world.boxes[box]).(depth := 0)]
    {
      children := children + [box];
      world.Insert(box);
      world.SetDepth(box, 0);
    }

    /** onMouseDown: the topmost box under the pointer hears of it; nothing happens over empty space. */
    method OnMouseDown(clientX: real, clientY: real, canvasLeft: real, canvasTop: real) returns (events: seq<Event>)
      requires Valid()
      ensures var (x, y) := LocalMousePos(clientX, clientY, canvasLeft, canvasTop, true);
              var top := TopHit(world.boxes, world.index, x, y);
              events == if top.Some? then [Down(top.value)] else []
    {
      var (x, y) := LocalMousePos(clientX, clientY, canvasLeft, canvasTop, true);
      var boxes := GetVisibleAtPoint(x, y);
      events := [];
      if |boxes| > 0 {
        events := [Down(boxes[0])];
      }
    }

    /** onMouseUp: the topmost box under the pointer hears of it; nothing happens over empty space. */
    method OnMouseUp(clientX: real, clientY: real, canvasLeft: real, canvasTop: real) returns (events: seq<Event>)
      requires Valid()
      ensures var (x, y) := LocalMousePos(clientX, clientY, canvasLeft, canvasTop, true);
              var top := TopHit(world.boxes, world.index, x, y);
              events == if top.Some? then [Up(top.value)] else []
    {
      var (x, y) := LocalMousePos(clientX, clientY, canvasLeft, canvasTop, true);
      var boxes := GetVisibleAtPoint(x, y);
      events := [];
      if |boxes| > 0 {
        events := [Up(boxes[0])];
      }
    }

    /**
     * The focus moves to `top`, the topmost box now under the pointer: the old focus hears it is
     * left and loses its background, the new one hears it is entered and turns blue, and the
     * box under the pointer hears of the move.
     */
    method MoveFocus(top: Option<BoxId>) returns (events: seq<Event>)
      requires Valid() && (top.Some? ==> top.value < |world.boxes|)
      modifies this`focus, world`boxes
      ensures Valid()
      ensures focus == top
      ensures events == MoveEvents(old(focus), top)
      ensures world.boxes == Repaint(old(world.boxes), old(focus), top)
    {
      ghost var before := focus;
      events := [];
      if top.Some? {
        var box := top.value;
        if focus != Some(box) {
          if focus.Some? {
            world.OnMouseOut(focus.value);
            events := events + [Out(focus.value)];
          }
          assert events == if before.Some? then [Out(before.value)] else [];
          focus := Some(box);
          world.OnMouseOver(box);
          events := events + [Over(box)];
        }
        events := events + [Move(box)];
        MoveEventsCases(before, focus);
      } else if focus.Some? {
        world.OnMouseOut(focus.value);
        events := events + [Out(focus.value)];
        focus := None;
        MoveEventsCases(before, focus);
      }
    }

    /**
     * onMouseMove: the focus follows the topmost box under the pointer. A box that loses the focus
     * loses its background colour, a box that gains it is painted blue.
     */
    method OnMouseMove(clientX: real, clientY: real, canvasLeft: real, canvasTop: real) returns (events: seq<Event>)
      requires Valid()
      modifies this`focus, world`boxes
      ensures Valid()
      ensures focus == old(PointerTop(clientX, clientY, canvasLeft, canvasTop))
      ensures events == MoveEvents(old(focus), focus)
      ensures world.boxes == Repaint(old(world.boxes), old(focus), focus)
    {
      var (x, y) := LocalMousePos(clientX, clientY, canvasLeft, canvasTop, true);
      var boxes := GetVisibleAtPoint(x, y);
      events := MoveFocus(if |boxes| > 0 then Some(boxes[0]) else None);
    }
  }
}
