/**
 * Boxes: a tree of rectangles laid out relative to their parents, with a lazily computed
 * global-bounds cache and one spatial index shared by every box.
 *
 * All boxes live in one arena, the class `Boxes`; a box is named by its position there.
 * Its value part is `BoxState`; its `_globalBounds` cache is kept beside it in `bounds`,
 * and the shared index (`Box.tree`) is `index`.
 */
module Box {
  import opened Wrappers
  import opened Rectangle

  type BoxId = nat

  // ---------------------------------------------------------------------------
  // named corners

  datatype Corner =
    | Center | TopLeft | TopCenter | TopRight | RightCenter
    | BottomRight | BottomCenter | BottomLeft | LeftCenter

  /** The `corners` table: a named point of a box as fractions of its width and height. */
  function CornerFractions(c: Corner): (f: (real, real))
    ensures 0.0 <= f.0 <= 1.0 && 0.0 <= f.1 <= 1.0
    ensures (f.0 == 0.0 <==> c in {TopLeft, BottomLeft, LeftCenter})
    ensures (f.1 == 1.0 <==> c in {BottomRight, BottomCenter, BottomLeft})
  {
    match c
    case Center => (0.5, 0.5)
    case TopLeft => (0.0, 0.0)
    case TopCenter => (0.5, 0.0)
    case TopRight => (1.0, 0.0)
    case RightCenter => (1.0, 0.5)
    case BottomRight => (1.0, 1.0)
    case BottomCenter => (0.5, 1.0)
    case BottomLeft => (0.0, 1.0)
    case LeftCenter => (0.0, 0.5)
  }

  // ---------------------------------------------------------------------------
  // one box

  datatype BoxState = BoxState(
    name: string,
    parent: Option<BoxId>,
    children: seq<BoxId>,
    x: real, y: real, width: real, height: real,
    originX: real, originY: real,
    anchorX: Option<real>, anchorY: Option<real>,
    borderWidth: real, borderColor: string, backgroundColor: Option<string>, alpha: real,
    depth: int)
  {
    /** How far the origin point lies from the box's left edge. */
    function OriginOffsetX(): real { width * originX }

    /** How far the origin point lies from the box's top edge. */
    function OriginOffsetY(): real { height * originY }
  }

  /** The state the constructor leaves: no parent, no children, origin (0, 0), no anchor, depth -1. */
  function NewBoxState(x: real, y: real, width: real, height: real): BoxState {
    BoxState("?", None, [], x, y, width, height, 0.0, 0.0, None, None, 0.0, "white", Some("black"), 1.0, -1)
  }

  /**
   * calcGlobalBounds, given the global bounds of the parent (None when there is no parent).
   * Without a parent the origin point is (x, y); with one it is (x, y) relative to the parent's
   * position, except on an axis that has an anchor, where it is that fraction of the parent.
   */
  function CalcBounds(b: BoxState, parentBounds: Option<Rect>): (r: Rect)
    ensures r.width == b.width && r.height == b.height
  {
    var originX := b.x - b.OriginOffsetX();
    var originY := b.y - b.OriginOffsetY();
    match parentBounds
    case None => Rect(originX, originY, b.width, b.height)
    case Some(p) =>
      var left := if b.anchorX.Some? then p.x + p.width * b.anchorX.value - b.OriginOffsetX() else p.x + originX;
      var top := if b.anchorY.Some? then p.y + p.height * b.anchorY.value - b.OriginOffsetY() else p.y + originY;
      Rect(left, top, b.width, b.height)
  }

  /** The point the box is pinned to: its position, or the anchor point of the parent on an anchored axis. */
  function PinX(b: BoxState, parentBounds: Option<Rect>): real {
    match parentBounds
    case None => b.x
    case Some(p) => if b.anchorX.Some? then p.x + p.width * b.anchorX.value else p.x + b.x
  }

  function PinY(b: BoxState, parentBounds: Option<Rect>): real {
    match parentBounds
    case None => b.y
    case Some(p) => if b.anchorY.Some? then p.y + p.height * b.anchorY.value else p.y + b.y
  }

  /**
   * The origin fractions name the point of the box that sits on the pin point; with fractions
   * in [0, 1] and a non-negative size, the pin point lies inside the box's bounds.
   */
  lemma OriginSitsOnPin(b: BoxState, parentBounds: Option<Rect>)
    ensures var r := CalcBounds(b, parentBounds);
            r.x + r.width * b.originX == PinX(b, parentBounds) && r.y + r.height * b.originY == PinY(b, parentBounds)
    ensures 0.0 <= b.originX <= 1.0 && 0.0 <= b.originY <= 1.0 && b.width >= 0.0 && b.height >= 0.0 ==>
            CalcBounds(b, parentBounds).Contains(PinX(b, parentBounds), PinY(b, parentBounds))
  {
    var r := CalcBounds(b, parentBounds);
    var px, py := PinX(b, parentBounds), PinY(b, parentBounds);
    assert r.x == px - b.OriginOffsetX() && r.y == py - b.OriginOffsetY();
    if 0.0 <= b.originX <= 1.0 && 0.0 <= b.originY <= 1.0 && b.width >= 0.0 && b.height >= 0.0 {
      WithinSpan(r.x, b.width, b.originX, px);
      WithinSpan(r.y, b.height, b.originY, py);
    }
  }

  lemma WithinSpan(lo: real, w: real, f: real, p: real)
    requires w >= 0.0 && 0.0 <= f <= 1.0 && lo == p - w * f
    ensures lo <= p <= lo + w
  {
    assert w * f <= w * 1.0;
  }

  /** The `source` corner of `r` is the same point as the `target` corner of `q`. */
  predicate CornersMeet(r: Rect, source: Corner, q: Rect, target: Corner)
  {
    r.x + r.width * CornerFractions(source).0 == q.x + q.width * CornerFractions(target).0 &&
    r.y + r.height * CornerFractions(source).1 == q.y + q.height * CornerFractions(target).1
  }

  /** After attachTo, the source corner of the box lies on the target corner of the parent. */
  lemma CornerOnCorner(b: BoxState, parentBounds: Rect, source: Corner, target: Corner)
    requires (b.originX, b.originY) == CornerFractions(source)
    requires (b.anchorX, b.anchorY) == (Some(CornerFractions(target).0), Some(CornerFractions(target).1))
    ensures CornersMeet(CalcBounds(b, Some(parentBounds)), source, parentBounds, target)
  {
    OriginSitsOnPin(b, Some(parentBounds));
  }

  /** Without an anchor, a child is placed like a box without a parent, shifted by the parent's position. */
  lemma UnanchoredIsTranslated(b: BoxState, p: Rect)
    ensures b.anchorX.None? ==> CalcBounds(b, Some(p)).x == p.x + CalcBounds(b, None).x
    ensures b.anchorY.None? ==> CalcBounds(b, Some(p)).y == p.y + CalcBounds(b, None).y
  {
  }

  /** On an anchored axis the position field plays no part. */
  lemma AnchoredIgnoresPosition(b: BoxState, p: Rect, nx: real, ny: real)
    ensures b.anchorX.Some? ==> CalcBounds(b.(x := nx), Some(p)).x == CalcBounds(b, Some(p)).x
    ensures b.anchorY.Some? ==> CalcBounds(b.(y := ny), Some(p)).y == CalcBounds(b, Some(p)).y
  {
  }

  /** The horizontal placement depends only on horizontal fields, and the vertical one only on vertical fields. */
  lemma AxesIndependent(b: BoxState, c: BoxState, parentBounds: Option<Rect>)
    ensures b.x == c.x && b.width == c.width && b.originX == c.originX && b.anchorX == c.anchorX ==>
            CalcBounds(b, parentBounds).x == CalcBounds(c, parentBounds).x
    ensures b.y == c.y && b.height == c.height && b.originY == c.originY && b.anchorY == c.anchorY ==>
            CalcBounds(b, parentBounds).y == CalcBounds(c, parentBounds).y
  {
  }

  /**
   * The demonstration scene: a 50x50 box attached by its centre to the bottom-left corner of the
   * box at (100, 100) of size 100x100 is placed at (75, 175).
   */
  lemma AttachToExample()
    ensures var (ox, oy) := CornerFractions(Center);
            var (ax, ay) := CornerFractions(BottomLeft);
            var rect2 := NewBoxState(100.0, 50.0, 50.0, 50.0).(originX := ox, originY := oy, anchorX := Some(ax), anchorY := Some(ay));
            var rect1Bounds := CalcBounds(NewBoxState(100.0, 100.0, 100.0, 100.0), None);
            CalcBounds(rect2, Some(rect1Bounds)) == Rect(75.0, 175.0, 50.0, 50.0)
  {
  }

  // ---------------------------------------------------------------------------
  // the parent relation of an arena

  function Parents(bs: seq<BoxState>): (ps: seq<Option<BoxId>>)
    ensures |ps| == |bs| && forall i :: 0 <= i < |bs| ==> ps[i] == bs[i].parent
  {
    seq(|bs|, i requires 0 <= i < |bs| => bs[i].parent)
  }

  /** Every parent link points into the arena and to a box of strictly smaller level: no cycles. */
  ghost predicate Ranked(ps: seq<Option<BoxId>>, lv: seq<nat>) {
    |lv| == |ps| &&
    forall z :: 0 <= z < |ps| && ps[z].Some? ==> ps[z].value < |ps| && lv[ps[z].value] < lv[z]
  }

  /** `a` is `z` or one of its ancestors. */
  ghost predicate InSubtree(ps: seq<Option<BoxId>>, lv: seq<nat>, a: BoxId, z: BoxId)
    requires Ranked(ps, lv) && z < |ps|
    decreases lv[z]
  {
    z == a || (ps[z].Some? && InSubtree(ps, lv, a, ps[z].value))
  }

  /** The global bounds recomputed from scratch along the ancestor chain, ignoring every cache. */
  ghost function Fresh(bs: seq<BoxState>, lv: seq<nat>, z: BoxId): Rect
    requires Ranked(Parents(bs), lv) && z < |bs|
    decreases lv[z]
  {
    match bs[z].parent
    case None => CalcBounds(bs[z], None)
    case Some(q) => CalcBounds(bs[z], Some(Fresh(bs, lv, q)))
  }

  lemma {:induction false} SubtreeLevel(ps: seq<Option<BoxId>>, lv: seq<nat>, a: BoxId, z: BoxId)
    requires Ranked(ps, lv) && z < |ps| && InSubtree(ps, lv, a, z)
    ensures a < |ps| && lv[a] <= lv[z] && (a != z ==> lv[a] < lv[z])
    decreases lv[z]
  {
    if z != a {
      SubtreeLevel(ps, lv, a, ps[z].value);
    }
  }

  lemma {:induction false} SubtreeTransitive(ps: seq<Option<BoxId>>, lv: seq<nat>, a: BoxId, b: BoxId, z: BoxId)
    requires Ranked(ps, lv) && b < |ps| && z < |ps|
    requires InSubtree(ps, lv, a, b) && InSubtree(ps, lv, b, z)
    ensures InSubtree(ps, lv, a, z)
    decreases lv[z]
  {
    if z != b {
      SubtreeTransitive(ps, lv, a, b, ps[z].value);
    }
  }

  /** The ancestors of a box form a chain: of two of them, one is an ancestor of the other. */
  lemma {:induction false} AncestorsLinear(ps: seq<Option<BoxId>>, lv: seq<nat>, a: BoxId, b: BoxId, z: BoxId)
    requires Ranked(ps, lv) && z < |ps|
    requires InSubtree(ps, lv, a, z) && InSubtree(ps, lv, b, z)
    ensures a < |ps| && b < |ps|
    ensures InSubtree(ps, lv, a, b) || InSubtree(ps, lv, b, a)
    decreases lv[z]
  {
    SubtreeLevel(ps, lv, a, z);
    SubtreeLevel(ps, lv, b, z);
    if z != a && z != b {
      AncestorsLinear(ps, lv, a, b, ps[z].value);
    }
  }

  /** Two different children of one box have disjoint subtrees, and neither contains the parent. */
  lemma SiblingSubtreesDisjoint(ps: seq<Option<BoxId>>, lv: seq<nat>, y: BoxId, c1: BoxId, c2: BoxId, z: BoxId)
    requires Ranked(ps, lv) && y < |ps| && c1 < |ps| && c2 < |ps| && z < |ps|
    requires ps[c1] == Some(y) && ps[c2] == Some(y) && c1 != c2
    ensures !(InSubtree(ps, lv, c1, z) && InSubtree(ps, lv, c2, z))
    ensures !InSubtree(ps, lv, c1, y)
  {
    if InSubtree(ps, lv, c1, z) && InSubtree(ps, lv, c2, z) {
      AncestorsLinear(ps, lv, c1, c2, z);
      if InSubtree(ps, lv, c1, c2) {
        assert InSubtree(ps, lv, c1, y);
        SubtreeLevel(ps, lv, c1, y);
      } else {
        assert InSubtree(ps, lv, c2, y);
        SubtreeLevel(ps, lv, c2, y);
      }
    }
    if InSubtree(ps, lv, c1, y) {
      SubtreeLevel(ps, lv, c1, y);
    }
  }

  /** Fresh bounds depend only on the boxes of the ancestor chain, not on the levels or on other boxes. */
  lemma {:induction false} FreshAgree(bs: seq<BoxState>, lv: seq<nat>, bs': seq<BoxState>, lv': seq<nat>, z: BoxId)
    requires Ranked(Parents(bs), lv) && Ranked(Parents(bs'), lv') && z < |bs| <= |bs'|
    requires forall a :: 0 <= a < |bs| && InSubtree(Parents(bs), lv, a, z) ==> SameGeometry(bs[a], bs'[a])
    ensures Fresh(bs', lv', z) == Fresh(bs, lv, z)
    decreases lv[z]
  {
    assert InSubtree(Parents(bs), lv, z, z);
    if bs[z].parent.Some? {
      var q := bs[z].parent.value;
      forall a | 0 <= a < |bs| && InSubtree(Parents(bs), lv, a, q)
        ensures SameGeometry(bs[a], bs'[a])
      {
        assert InSubtree(Parents(bs), lv, a, z);
      }
      FreshAgree(bs, lv, bs', lv', q);
    }
  }

  /** Two states of a box that place it identically. */
  predicate SameGeometry(b: BoxState, c: BoxState) {
    b.parent == c.parent && b.x == c.x && b.y == c.y && b.width == c.width && b.height == c.height &&
    b.originX == c.originX && b.originY == c.originY && b.anchorX == c.anchorX && b.anchorY == c.anchorY
  }

  /** `z` lies in the subtree of one of the first `k` entries of `cs`. */
  ghost predicate InSomeChild(ps: seq<Option<BoxId>>, lv: seq<nat>, cs: seq<BoxId>, k: nat, z: BoxId)
    requires Ranked(ps, lv) && z < |ps|
  {
    exists j :: 0 <= j < k && j < |cs| && InSubtree(ps, lv, cs[j], z)
  }

  /** Children lists point into the arena, back to their parent, and hold no box twice. */
  ghost predicate Linked(bs: seq<BoxState>) {
    PointBack(bs) && NoTwins(bs)
  }

  ghost predicate PointBack(bs: seq<BoxState>) {
    forall y, k :: 0 <= y < |bs| && 0 <= k < |bs[y].children| ==>
      bs[y].children[k] < |bs| && bs[bs[y].children[k]].parent == Some(y)
  }

  ghost predicate NoTwins(bs: seq<BoxState>) {
    forall y, i, j :: 0 <= y < |bs| && 0 <= i < j < |bs[y].children| ==> bs[y].children[i] != bs[y].children[j]
  }

  /** The parent of `z`, if any, lists `z` among its children. */
  ghost predicate Listed(bs: seq<BoxState>, z: BoxId)
    requires z < |bs|
  {
    match bs[z].parent
    case None => true
    case Some(q) => q < |bs| && z in bs[q].children
  }

  /** A subtree is its root together with the subtrees of the root's children. */
  lemma {:induction false} SubtreeSplit(bs: seq<BoxState>, lv: seq<nat>, y: BoxId, z: BoxId)
    requires Ranked(Parents(bs), lv) && y < |bs| && z < |bs|
    requires SubtreeListed(bs, lv, y)
    requires InSubtree(Parents(bs), lv, y, z) && z != y
    ensures InSomeChild(Parents(bs), lv, bs[y].children, |bs[y].children|, z)
    decreases lv[z]
  {
    var ps := Parents(bs);
    var q := bs[z].parent.value;
    if q == y {
      assert Listed(bs, z);
      var j :| 0 <= j < |bs[y].children| && bs[y].children[j] == z;
      assert InSubtree(ps, lv, bs[y].children[j], z);
    } else {
      SubtreeSplit(bs, lv, y, q);
      var j :| 0 <= j < |bs[y].children| && InSubtree(ps, lv, bs[y].children[j], q);
      assert InSubtree(ps, lv, bs[y].children[j], z);
    }
  }

  // ---------------------------------------------------------------------------
  // the shared spatial index, as a bag of (box, bounding rectangle) entries

  /** The rectangles under which `z` is registered, in index order. */
  function Entries(index: seq<(BoxId, Rect)>, z: BoxId): (r: seq<Rect>)
    ensures |r| <= |index|
  {
    if index == [] then [] else (if index[0].0 == z then [index[0].1] else []) + Entries(index[1..], z)
  }

  /** Removal of a box from the index: its first entry goes, every other entry stays in order. */
  function RemoveFirst(index: seq<(BoxId, Rect)>, z: BoxId): (r: seq<(BoxId, Rect)>)
    ensures forall e :: e in r ==> e in index
  {
    if index == [] then []
    else if index[0].0 == z then index[1..]
    else [index[0]] + RemoveFirst(index[1..], z)
  }

  function Tail(s: seq<Rect>): seq<Rect> {
    if s == [] then [] else s[1..]
  }

  lemma {:induction false} EntriesRemoveFirst(index: seq<(BoxId, Rect)>, y: BoxId, z: BoxId)
    ensures Entries(RemoveFirst(index, y), z) == if z == y then Tail(Entries(index, z)) else Entries(index, z)
  {
    if index != [] && index[0].0 != y {
      EntriesRemoveFirst(index[1..], y, z);
      assert ([index[0]] + RemoveFirst(index[1..], y))[1..] == RemoveFirst(index[1..], y);
    }
  }

  lemma {:induction false} EntriesAppend(index: seq<(BoxId, Rect)>, e: (BoxId, Rect), z: BoxId)
    ensures Entries(index + [e], z) == Entries(index, z) + (if e.0 == z then [e.1] else [])
  {
    if index == [] {
      assert [] + [e] == [e];
    } else {
      assert (index + [e])[1..] == index[1..] + [e];
      EntriesAppend(index[1..], e, z);
    }
  }

  // ---------------------------------------------------------------------------
  // the arena

  class Boxes {
    var boxes: seq<BoxState>
    /** Each box's `_globalBounds` cache. */
    var bounds: seq<Option<Rect>>
    /** The index shared by every box. */
    var index: seq<(BoxId, Rect)>
    /** A rank strictly above the parent's, witnessing that parent links have no cycle. */
    ghost var level: seq<nat>
    ghost var levelBound: nat

    ghost predicate Structured()
      reads this`boxes, this`bounds, this`index, this`level, this`levelBound
    {
      WellLinked(boxes, level, levelBound, |bounds|, index)
    }

    ghost predicate Sub(a: BoxId, z: BoxId)
      reads this`boxes, this`level
      requires Ranked(Parents(boxes), level) && z < |boxes|
    {
      InSubtree(Parents(boxes), level, a, z)
    }

    ghost function FreshBounds(z: BoxId): Rect
      reads this`boxes, this`level
      requires Ranked(Parents(boxes), level) && z < |boxes|
    {
      Fresh(boxes, level, z)
    }

    /** A cached rectangle, when there is one, is what a full recomputation gives. */
    ghost predicate CacheSound(z: BoxId)
      reads this`boxes, this`level, this`bounds
      requires Ranked(Parents(boxes), level) && z < |boxes| == |bounds|
    {
      SoundAt(boxes, level, bounds, z)
    }

    ghost predicate Valid()
      reads this`boxes, this`bounds, this`index, this`level, this`levelBound
    {
      Structured() && AllListed(boxes) && AllSound(boxes, level, bounds)
    }

    /** An empty arena with an empty index. */
    constructor()
      ensures Valid() && boxes == [] && index == []
    {
      boxes, bounds, index := [], [], [];
      level, levelBound := [], 0;
    }

    /**
     * The Box constructor: a parentless box with the default style and depth -1, whose bounds are
     * computed at once. It is not registered in the index.
     */
    method NewBox(x: real, y: real, width: real, height: real) returns (id: BoxId)
      requires Valid()
      modifies this`boxes, this`bounds, this`level, this`levelBound
      ensures Valid()
      ensures id == old(|boxes|) && boxes == old(boxes) + [NewBoxState(x, y, width, height)]
      ensures bounds == old(bounds) + [Some(Rect(x, y, width, height))]
    {
      var b := NewBoxState(x, y, width, height);
      var r := CalcBounds(b, None);
      NewBoxFacts(boxes, level, levelBound, bounds, index, b, r);
      id := |boxes|;
      boxes, bounds := boxes + [b], bounds + [Some(r)];
      level, levelBound := level + [0], levelBound + 1;
    }

    /** The `minX`/`minY`/`maxX`/`maxY` getters read the global bounds; `Box.tree.insert` registers them. */
    method Insert(id: BoxId)
      requires Valid() && id < |boxes|
      modifies this`bounds, this`index
      ensures Valid()
      ensures index == old(index) + [(id, FreshBounds(id))]
    {
      ghost var before := bounds;
      var r := GlobalBounds(id);
      SoundAfterFill(boxes, level, id, before, bounds);
      index := index + [(id, r)];
    }

    /**
     * The globalBounds getter: the cached rectangle while there is one, otherwise computed from
     * the parent's global bounds and cached. Caches change only from absent to fresh, and only
     * on the box's own ancestor chain.
     */
    method GlobalBounds(id: BoxId) returns (r: Rect)
      requires Structured() && id < |boxes|
      requires forall a :: 0 <= a < |boxes| && Sub(a, id) ==> CacheSound(a)
      modifies this`bounds
      ensures Structured()
      ensures r == FreshBounds(id) && bounds[id] == Some(r)
      ensures old(bounds[id]).Some? ==> bounds == old(bounds)
      ensures forall z :: 0 <= z < |boxes| ==>
                bounds[z] == old(bounds[z]) || (old(bounds[z]).None? && Sub(z, id) && bounds[z] == Some(FreshBounds(z)))
      decreases level[id]
    {
      assert Sub(id, id);
      if bounds[id].Some? {
        r := bounds[id].value;
        return;
      }
      match boxes[id].parent {
        case None =>
          r := CalcBounds(boxes[id], None);
        case Some(q) =>
          assert Parents(boxes)[id] == Some(q);
          forall a | 0 <= a < |boxes| && Sub(a, q)
            ensures Sub(a, id)
          {
          }
          var pr := GlobalBounds(q);
          r := CalcBounds(boxes[id], Some(pr));
      }
      bounds := bounds[id := Some(r)];
    }

    /**
     * clearBounds: the box leaves the index, its cache is dropped, every child subtree is cleared
     * the same way, and the box is registered again under freshly computed bounds.
     */
    method ClearBounds(y: BoxId)
      requires Structured() && y < |boxes|
      requires SubtreeListed(boxes, level, y) && AncestorsSound(boxes, level, bounds, y)
      modifies this`bounds, this`index
      ensures Structured()
      ensures ClearedCaches(boxes, level, y, old(bounds), bounds)
      ensures ClearedIndex(boxes, level, y, old(index), index)
      decreases levelBound - level[y], 1
    {
      ghost var start, index0 := bounds, index;
      index := RemoveFirst(index, y);
      bounds := bounds[y := None];
      ghost var bounds0, removed := bounds, index;
      ClearChildren(y, start);
      ghost var cachesBefore, indexBefore := bounds, index;
      ChainSoundAfterChildren(boxes, level, y, start, bounds0, bounds);
      var r := GlobalBounds(y);
      index := index + [(y, r)];
      ClearFinish(boxes, level, y, start, bounds0, cachesBefore, bounds);
      ReindexFinish(boxes, level, y, index0, removed, indexBefore, index);
    }

    /** The `children.forEach` of clearBounds: each child subtree is cleared in turn. */
    method ClearChildren(y: BoxId, ghost start: seq<Option<Rect>>)
      requires Structured() && y < |boxes| && |start| == |boxes| && bounds == start[y := None]
      requires SubtreeListed(boxes, level, y) && AncestorsSound(boxes, level, start, y)
      modifies this`bounds, this`index
      ensures Structured()
      ensures ChildrenCleared(boxes, level, y, |boxes[y].children|, old(bounds), bounds)
      ensures ChildrenReindexed(boxes, level, y, |boxes[y].children|, old(index), index)
      decreases levelBound - level[y], 0
    {
      ghost var bounds0, removed := bounds, index;
      var children := boxes[y].children;
      for k := 0 to |children|
        invariant Structured()
        invariant ChildrenCleared(boxes, level, y, k, bounds0, bounds)
        invariant ChildrenReindexed(boxes, level, y, k, removed, index)
      {
        var c := children[k];
        ChildChainSound(boxes, level, y, k, start, bounds0, bounds);
        ghost var cachesBefore, indexBefore := bounds, index;
        ClearBounds(c);
        ClearChildStep(boxes, level, y, k, bounds0, cachesBefore, bounds);
        ReindexChildStep(boxes, level, y, k, removed, indexBefore, index);
      }
    }

    /** What every setter does after assigning its fields: the box and its subtree are laid out again. */
    method Relayout(id: BoxId, b: BoxState)
      requires Valid() && id < |boxes|
      requires b.parent == boxes[id].parent && b.children == boxes[id].children
      modifies this`boxes, this`bounds, this`index
      ensures Valid()
      ensures boxes == old(boxes)[id := b] && level == old(level)
      ensures forall z :: 0 <= z < |boxes| && Sub(id, z) ==> bounds[z] == Some(FreshBounds(z))
      ensures forall z :: 0 <= z < |boxes| && !Sub(id, z) ==> FreshBounds(z) == old(FreshBounds(z))
      ensures ClearedIndex(boxes, level, id, old(index), index)
    {
      EditFacts(boxes, level, bounds, id, b);
      boxes := boxes[id := b];
      ClearBounds(id);
      SoundAfterClear(boxes, level, id, old(bounds), bounds);
    }

    /** setOrigin: new origin fractions, then clearBounds. */
    method SetOrigin(id: BoxId, originX: real, originY: real)
      requires Valid() && id < |boxes|
      modifies this`boxes, this`bounds, this`index
      ensures Valid()
      ensures boxes == old(boxes)[id := old(boxes[id]).(originX := originX, originY := originY)]
      ensures forall z :: 0 <= z < |boxes| && Sub(id, z) ==> bounds[z] == Some(FreshBounds(z))
      ensures ClearedIndex(boxes, level, id, old(index), index)
    {
      Relayout(id, boxes[id].(originX := originX, originY := originY));
    }

    /** setAnchor: new anchor fractions (None removes an anchor), then clearBounds. */
    method SetAnchor(id: BoxId, anchorX: Option<real>, anchorY: Option<real>)
      requires Valid() && id < |boxes|
      modifies this`boxes, this`bounds, this`index
      ensures Valid()
      ensures boxes == old(boxes)[id := old(boxes[id]).(anchorX := anchorX, anchorY := anchorY)]
      ensures forall z :: 0 <= z < |boxes| && Sub(id, z) ==> bounds[z] == Some(FreshBounds(z))
      ensures ClearedIndex(boxes, level, id, old(index), index)
    {
      Relayout(id, boxes[id].(anchorX := anchorX, anchorY := anchorY));
    }

    /** setPosition: a new position, then clearBounds. */
    method SetPosition(id: BoxId, x: real, y: real)
      requires Valid() && id < |boxes|
      modifies this`boxes, this`bounds, this`index
      ensures Valid()
      ensures boxes == old(boxes)[id := old(boxes[id]).(x := x, y := y)]
      ensures forall z :: 0 <= z < |boxes| && Sub(id, z) ==> bounds[z] == Some(FreshBounds(z))
      ensures ClearedIndex(boxes, level, id, old(index), index)
    {
      Relayout(id, boxes[id].(x := x, y := y));
    }

    /** setSize: a new size, then clearBounds. */
    method SetSize(id: BoxId, width: real, height: real)
      requires Valid() && id < |boxes|
      modifies this`boxes, this`bounds, this`index
      ensures Valid()
      ensures boxes == old(boxes)[id := old(boxes[id]).(width := width, height := height)]
      ensures forall z :: 0 <= z < |boxes| && Sub(id, z) ==> bounds[z] == Some(FreshBounds(z))
      ensures ClearedIndex(boxes, level, id, old(index), index)
    {
      Relayout(id, boxes[id].(width := width, height := height));
    }

    /** A change to a box that leaves its placement and links alone: bounds, caches and index stay as they are. */
    method Restyle(id: BoxId, b: BoxState)
      requires Valid() && id < |boxes|
      requires SameGeometry(b, boxes[id]) && b.children == boxes[id].children
      modifies this`boxes
      ensures Valid()
      ensures boxes == old(boxes)[id := b]
      ensures forall z :: 0 <= z < |boxes| ==> FreshBounds(z) == old(FreshBounds(z))
    {
      RestyleFacts(boxes, level, bounds, id, b);
      boxes := boxes[id := b];
    }

    /** onMouseOver: the box is painted blue. */
    method OnMouseOver(id: BoxId)
      requires Valid() && id < |boxes|
      modifies this`boxes
      ensures Valid()
      ensures boxes == old(boxes)[id := old(boxes[id]).(backgroundColor := Some("blue"))]
    {
      Restyle(id, boxes[id].(backgroundColor := Some("blue")));
    }

    /** onMouseOut: the box loses its background colour. */
    method OnMouseOut(id: BoxId)
      requires Valid() && id < |boxes|
      modifies this`boxes
      ensures Valid()
      ensures boxes == old(boxes)[id := old(boxes[id]).(backgroundColor := None)]
    {
      Restyle(id, boxes[id].(backgroundColor := None));
    }

    /** An assignment to the public `depth` field. */
    method SetDepth(id: BoxId, depth: int)
      requires Valid() && id < |boxes|
      modifies this`boxes
      ensures Valid()
      ensures boxes == old(boxes)[id := old(boxes[id]).(depth := depth)]
    {
      Restyle(id, boxes[id].(depth := depth));
    }

    /**
     * addChild: the child gets its parent link, its subtree is laid out again under the parent,
     * it is appended to the parent's children and its depth becomes one more than the parent's.
     * The child must not have a parent yet and the parent must not lie in the child's subtree.
     */
    method AddChild(p: BoxId, c: BoxId)
      requires Valid() && p < |boxes| && c < |boxes|
      requires boxes[c].parent.None? && !Sub(c, p)
      modifies this`boxes, this`bounds, this`index, this`level, this`levelBound
      ensures Valid()
      ensures |boxes| == old(|boxes|)
      ensures boxes[c] == old(boxes[c]).(parent := Some(p), depth := old(boxes[p].depth) + 1)
      ensures boxes[p] == old(boxes[p]).(children := old(boxes[p].children) + [c])
      ensures forall z :: 0 <= z < |boxes| && z != c && z != p ==> boxes[z] == old(boxes[z])
      ensures ChildIndex(boxes, c) == |old(boxes[p].children)|
      ensures forall z :: 0 <= z < |boxes| && Sub(c, z) ==> bounds[z] == Some(FreshBounds(z))
      ensures ClearedIndex(boxes, level, c, old(index), index)
    {
      ghost var bs0, lv0, bounds0 := boxes, level, bounds;
      SetParent(p, c);
      ghost var bs1, cleared := boxes, bounds;
      boxes := boxes[p := boxes[p].(children := boxes[p].children + [c])];
      boxes := boxes[c := boxes[c].(depth := boxes[p].depth + 1)];
      PushFields(bs0, bs1, boxes, p, c);
      PushChildLinks(bs0, boxes, p, c);
      PushChildCaches(bs0, lv0, bounds0, bs1, level, cleared, boxes, c, old(index), index);
      RelinkedWellLinked(bs1, boxes, level, levelBound, |bounds|, index);
    }

    /** The first half of addChild: `c` points at its new parent and its subtree's caches are recomputed. */
    method SetParent(p: BoxId, c: BoxId)
      requires Valid() && p < |boxes| && c < |boxes|
      requires boxes[c].parent.None? && !Sub(c, p)
      modifies this`boxes, this`bounds, this`index, this`level, this`levelBound
      ensures Structured() && p != c
      ensures boxes == old(boxes)[c := old(boxes[c]).(parent := Some(p))]
      ensures SubtreeMoved(old(boxes), old(level), boxes, level, c)
      ensures ClearedCaches(boxes, level, c, old(bounds), bounds)
      ensures ClearedIndex(boxes, level, c, old(index), index)
    {
      ghost var d: nat := if level[p] + 1 > level[c] then level[p] + 1 - level[c] else 0;
      ghost var lv1 := ShiftLevels(Parents(boxes), level, c, d);
      assert p != c by {
        assert Sub(c, c);
      }
      ReparentFacts(boxes, level, levelBound, bounds, index, p, c, d);
      level, levelBound := lv1, levelBound + d;
      boxes := boxes[c := boxes[c].(parent := Some(p))];
      ClearBounds(c);
    }

    /** The second half of attachTo: setOrigin, then setAnchor, on the same box. */
    method SetCorners(id: BoxId, originX: real, originY: real, anchorX: Option<real>, anchorY: Option<real>)
      requires Valid() && id < |boxes|
      modifies this`boxes, this`bounds, this`index
      ensures Valid()
      ensures boxes == old(boxes)[id := old(boxes[id]).(originX := originX, originY := originY, anchorX := anchorX, anchorY := anchorY)]
      ensures forall z :: 0 <= z < |boxes| && Sub(id, z) ==> bounds[z] == Some(FreshBounds(z))
      ensures RefreshedIndex(boxes, level, id, old(index), index)
    {
      ghost var bs0, i0 := boxes, index;
      SetOrigin(id, originX, originY);
      ghost var bs1, i1 := boxes, index;
      SetAnchor(id, anchorX, anchorY);
      assert Parents(boxes) == Parents(bs1);
      ClearedRefreshed(bs1, level, id, i0, i1);
      ClearedRefreshed(boxes, level, id, i1, index);
      RefreshedTwice(bs1, boxes, level, id, i0, i1, index);
    }

    /** attachTo: addChild, then the source corner of the box becomes its origin and the target corner of the parent its anchor. */
    method AttachTo(id: BoxId, p: BoxId, source: Corner, target: Corner)
      requires Valid() && p < |boxes| && id < |boxes|
      requires boxes[id].parent.None? && !Sub(id, p)
      modifies this`boxes, this`bounds, this`index, this`level, this`levelBound
      ensures Valid() && |boxes| == old(|boxes|)
      ensures boxes[id].parent == Some(p)
      ensures (boxes[id].originX, boxes[id].originY) == CornerFractions(source)
      ensures (boxes[id].anchorX, boxes[id].anchorY) == (Some(CornerFractions(target).0), Some(CornerFractions(target).1))
      ensures boxes == old(boxes)[p := old(boxes[p]).(children := old(boxes[p].children) + [id])]
                                 [id := old(boxes[id]).(parent := Some(p), depth := old(boxes[p].depth) + 1,
                                                        originX := CornerFractions(source).0, originY := CornerFractions(source).1,
                                                        anchorX := Some(CornerFractions(target).0), anchorY := Some(CornerFractions(target).1))]
      ensures ChildIndex(boxes, id) == |old(boxes[p].children)|
      ensures CornersMeet(FreshBounds(id), source, FreshBounds(p), target)
      ensures bounds[id] == Some(FreshBounds(id))
      ensures forall z :: 0 <= z < |boxes| && Sub(id, z) ==> bounds[z] == Some(FreshBounds(z))
      ensures RefreshedIndex(boxes, level, id, old(index), index)
    {
      ghost var bs0, i0 := boxes, index;
      AddChild(p, id);
      ghost var bs1, i1 := boxes, index;
      var (originX, originY) := CornerFractions(source);
      var (anchorX, anchorY) := CornerFractions(target);
      SetCorners(id, originX, originY, Some(anchorX), Some(anchorY));
      assert Sub(id, id);
      AttachedBoxes(bs0, bs1, boxes, p, id, originX, originY, Some(anchorX), Some(anchorY));
      ClearedRefreshed(bs1, level, id, i0, i1);
      RefreshedTwice(bs1, boxes, level, id, i0, i1, index);
      assert FreshBounds(id) == CalcBounds(boxes[id], Some(FreshBounds(p)));
      CornerOnCorner(boxes[id], FreshBounds(p), source, target);
    }

    /** walk: the order in which the callback visits the subtree, the box first and then each child's walk in turn. */
    method Walk(y: BoxId) returns (visited: seq<BoxId>)
      requires Valid() && y < |boxes|
      ensures |visited| > 0 && visited[0] == y
      ensures forall z: BoxId :: z in visited <==> z < |boxes| && Sub(y, z)
      ensures Distinct(visited) && ParentsFirst(boxes, visited)
      ensures visited == WalkOrder(boxes, level, levelBound, y)
      decreases levelBound - level[y]
    {
      visited := [y];
      var children := boxes[y].children;
      assert Sub(y, y);
      for k := 0 to |children|
        invariant |visited| > 0 && visited[0] == y
        invariant visited + ChildrenOrder(boxes, level, levelBound, y, k) == WalkOrder(boxes, level, levelBound, y)
        invariant forall z: BoxId :: z in visited <==> z < |boxes| && (z == y || InSomeChild(Parents(boxes), level, children, k, z))
        invariant Distinct(visited) && ParentsFirst(boxes, visited)
      {
        ChildFacts(boxes, level, y, k);
        var sub := Walk(children[k]);
        WalkStep(boxes, level, y, k, visited, sub);
        visited := visited + sub;
      }
      forall z | z in visited
        ensures z < |boxes| && Sub(y, z)
      {
        if z != y {
          SomeChildInside(boxes, level, y, |children|, z);
        }
      }
      forall z: BoxId | z < |boxes| && Sub(y, z)
        ensures z in visited
      {
        if z != y {
          SubtreeSplit(boxes, level, y, z);
        }
      }
    }
  }

  /** The depth-first order of walk: the box, then the order of each of its children in turn. */
  ghost function WalkOrder(bs: seq<BoxState>, lv: seq<nat>, lb: nat, y: BoxId): seq<BoxId>
    requires Ranked(Parents(bs), lv) && PointBack(bs) && (forall z :: 0 <= z < |lv| ==> lv[z] < lb) && y < |bs|
    decreases lb - lv[y], 1, 0
  {
    [y] + ChildrenOrder(bs, lv, lb, y, 0)
  }

  /** The orders of the children of `y` from the `k`-th on, one after another. */
  ghost function ChildrenOrder(bs: seq<BoxState>, lv: seq<nat>, lb: nat, y: BoxId, k: nat): seq<BoxId>
    requires Ranked(Parents(bs), lv) && PointBack(bs) && (forall z :: 0 <= z < |lv| ==> lv[z] < lb) && y < |bs|
    requires k <= |bs[y].children|
    decreases lb - lv[y], 0, |bs[y].children| - k
  {
    if k == |bs[y].children| then []
    else
      var c := bs[y].children[k];
      assert Parents(bs)[c] == Some(y);
      WalkOrder(bs, lv, lb, c) + ChildrenOrder(bs, lv, lb, y, k + 1)
  }

  /** Everything about an arena except the parent links listing their children and the caches. */
  ghost predicate WellLinked(bs: seq<BoxState>, lv: seq<nat>, lb: nat, nb: nat, index: seq<(BoxId, Rect)>) {
    nb == |bs| &&
    Ranked(Parents(bs), lv) &&
    (forall z :: 0 <= z < |lv| ==> lv[z] < lb) &&
    Linked(bs) &&
    (forall e :: e in index ==> e.0 < |bs|)
  }

  /** Changing the boxes without changing their parent links keeps the arena well linked, once the links are sound. */
  lemma RelinkedWellLinked(bs1: seq<BoxState>, bs3: seq<BoxState>, lv: seq<nat>, lb: nat, nb: nat, index: seq<(BoxId, Rect)>)
    requires WellLinked(bs1, lv, lb, nb, index)
    requires |bs3| == |bs1| && Parents(bs3) == Parents(bs1) && Linked(bs3)
    ensures WellLinked(bs3, lv, lb, nb, index)
  {
  }

  ghost predicate AllListed(bs: seq<BoxState>) {
    forall z :: 0 <= z < |bs| ==> Listed(bs, z)
  }

  ghost predicate AllSound(bs: seq<BoxState>, lv: seq<nat>, bounds: seq<Option<Rect>>)
    requires Ranked(Parents(bs), lv) && |bounds| == |bs|
  {
    forall z :: 0 <= z < |bs| ==> SoundAt(bs, lv, bounds, z)
  }

  /** The first position of `x` in `s`, or -1. */
  function IndexOf(s: seq<BoxId>, x: BoxId): (i: int)
    ensures -1 <= i < |s|
    ensures i == -1 <==> x !in s
    ensures 0 <= i ==> s[i] == x && x !in s[..i]
  {
    if s == [] then -1
    else if s[0] == x then 0
    else
      var j := IndexOf(s[1..], x);
      if j == -1 then -1 else assert s[..j + 1] == [s[0]] + s[1..][..j]; j + 1
  }

  /** The `index` getter: the position of the box among its parent's children, or -1 without a parent. */
  function ChildIndex(bs: seq<BoxState>, id: BoxId): (i: int)
    requires id < |bs|
    ensures bs[id].parent.None? ==> i == -1
    ensures Listed(bs, id) && bs[id].parent.Some? ==>
              0 <= i < |bs[bs[id].parent.value].children| && bs[bs[id].parent.value].children[i] == id
  {
    match bs[id].parent
    case None => -1
    case Some(q) => if q < |bs| then IndexOf(bs[q].children, id) else -1
  }

  lemma IndexOfAppended(s: seq<BoxId>, x: BoxId)
    requires x !in s
    ensures IndexOf(s + [x], x) == |s|
  {
    assert (s + [x])[|s|] == x;
  }

  lemma NewBoxFacts(bs: seq<BoxState>, lv: seq<nat>, lb: nat, bounds: seq<Option<Rect>>, index: seq<(BoxId, Rect)>, b: BoxState, r: Rect)
    requires WellLinked(bs, lv, lb, |bounds|, index) && AllListed(bs) && AllSound(bs, lv, bounds)
    requires b.parent.None? && b.children == [] && r == CalcBounds(b, None)
    ensures WellLinked(bs + [b], lv + [0], lb + 1, |bounds| + 1, index)
    ensures AllListed(bs + [b]) && AllSound(bs + [b], lv + [0], bounds + [Some(r)])
    ensures r == Rect(b.x - b.OriginOffsetX(), b.y - b.OriginOffsetY(), b.width, b.height)
  {
    var bs', lv' := bs + [b], lv + [0];
    assert Parents(bs') == Parents(bs) + [None];
    forall z | 0 <= z < |bs|
      ensures Fresh(bs', lv', z) == Fresh(bs, lv, z)
    {
      FreshAgree(bs, lv, bs', lv', z);
    }
    forall z | 0 <= z < |bs'|
      ensures SoundAt(bs', lv', bounds + [Some(r)], z) && Listed(bs', z)
    {
      if z < |bs| {
        assert SoundAt(bs, lv, bounds, z);
        assert Listed(bs, z);
      }
    }
  }

  /** A change to box `id` that keeps its links: only the subtree of `id` can move. */
  lemma EditFacts(bs: seq<BoxState>, lv: seq<nat>, bounds: seq<Option<Rect>>, id: BoxId, b: BoxState)
    requires Ranked(Parents(bs), lv) && Linked(bs) && AllListed(bs) && |bounds| == |bs| && AllSound(bs, lv, bounds)
    requires id < |bs| && b.parent == bs[id].parent && b.children == bs[id].children
    ensures Parents(bs[id := b]) == Parents(bs)
    ensures Linked(bs[id := b]) && AllListed(bs[id := b])
    ensures forall z :: 0 <= z < |bs| && !InSubtree(Parents(bs), lv, id, z) ==>
              Fresh(bs[id := b], lv, z) == Fresh(bs, lv, z) && SoundAt(bs[id := b], lv, bounds, z)
    ensures forall a :: 0 <= a < |bs| && a != id && InSubtree(Parents(bs), lv, a, id) ==> !InSubtree(Parents(bs), lv, id, a)
  {
    forall a | 0 <= a < |bs| && a != id && InSubtree(Parents(bs), lv, a, id)
      ensures !InSubtree(Parents(bs), lv, id, a)
    {
      SubtreeLevel(Parents(bs), lv, a, id);
      if InSubtree(Parents(bs), lv, id, a) {
        SubtreeLevel(Parents(bs), lv, id, a);
      }
    }
    var bs' := bs[id := b];
    assert Parents(bs') == Parents(bs);
    forall z | 0 <= z < |bs| && !InSubtree(Parents(bs), lv, id, z)
      ensures Fresh(bs', lv, z) == Fresh(bs, lv, z) && SoundAt(bs', lv, bounds, z)
    {
      FreshAgree(bs, lv, bs', lv, z);
      assert SoundAt(bs, lv, bounds, z);
    }
    forall z | 0 <= z < |bs'|
      ensures Listed(bs', z)
    {
      assert Listed(bs, z);
    }
  }

  /** Filling absent caches with fresh bounds keeps every cache sound. */
  lemma SoundAfterFill(bs: seq<BoxState>, lv: seq<nat>, id: BoxId, before: seq<Option<Rect>>, after: seq<Option<Rect>>)
    requires Ranked(Parents(bs), lv) && id < |bs| && |before| == |bs| && |after| == |bs| && AllSound(bs, lv, before)
    requires forall z :: 0 <= z < |bs| ==>
               after[z] == before[z] || (before[z].None? && InSubtree(Parents(bs), lv, z, id) && after[z] == Some(Fresh(bs, lv, z)))
    ensures AllSound(bs, lv, after)
  {
    forall z | 0 <= z < |bs|
      ensures SoundAt(bs, lv, after, z)
    {
      assert SoundAt(bs, lv, before, z);
    }
  }

  /** After a subtree is cleared, every cache is sound if those outside it were. */
  lemma SoundAfterClear(bs: seq<BoxState>, lv: seq<nat>, y: BoxId, before: seq<Option<Rect>>, after: seq<Option<Rect>>)
    requires Ranked(Parents(bs), lv) && y < |bs| && |before| == |bs| && |after| == |bs|
    requires forall z :: 0 <= z < |bs| && !InSubtree(Parents(bs), lv, y, z) ==> SoundAt(bs, lv, before, z)
    requires ClearedCaches(bs, lv, y, before, after)
    ensures AllSound(bs, lv, after)
  {
  }

  /** A change to box `id` that keeps its placement and links changes no bounds. */
  lemma RestyleFacts(bs: seq<BoxState>, lv: seq<nat>, bounds: seq<Option<Rect>>, id: BoxId, b: BoxState)
    requires Ranked(Parents(bs), lv) && Linked(bs) && AllListed(bs) && |bounds| == |bs| && AllSound(bs, lv, bounds)
    requires id < |bs| && SameGeometry(b, bs[id]) && b.children == bs[id].children
    ensures Parents(bs[id := b]) == Parents(bs)
    ensures Linked(bs[id := b]) && AllListed(bs[id := b])
    ensures forall z :: 0 <= z < |bs| ==> Fresh(bs[id := b], lv, z) == Fresh(bs, lv, z)
    ensures AllSound(bs[id := b], lv, bounds)
  {
    var bs' := bs[id := b];
    assert Parents(bs') == Parents(bs);
    forall z | 0 <= z < |bs|
      ensures Fresh(bs', lv, z) == Fresh(bs, lv, z) && SoundAt(bs', lv, bounds, z)
    {
      FreshAgree(bs, lv, bs', lv, z);
      assert SoundAt(bs, lv, bounds, z);
    }
    forall z | 0 <= z < |bs'|
      ensures Listed(bs', z)
    {
      assert Listed(bs, z);
    }
  }

  /** The levels after the subtree of `c` is lifted by `d`. */
  ghost function ShiftLevels(ps: seq<Option<BoxId>>, lv: seq<nat>, c: BoxId, d: nat): (lv': seq<nat>)
    requires Ranked(ps, lv)
    ensures |lv'| == |lv|
  {
    seq(|lv|, i requires 0 <= i < |lv| => if InSubtree(ps, lv, c, i) then lv[i] + d else lv[i])
  }

  lemma ShiftRanked(bs: seq<BoxState>, lv: seq<nat>, lb: nat, p: BoxId, c: BoxId, d: nat)
    requires Ranked(Parents(bs), lv) && (forall z :: 0 <= z < |lv| ==> lv[z] < lb)
    requires p < |bs| && c < |bs| && bs[c].parent.None? && !InSubtree(Parents(bs), lv, c, p)
    requires d == (if lv[p] + 1 > lv[c] then lv[p] + 1 - lv[c] else 0)
    ensures var lv' := ShiftLevels(Parents(bs), lv, c, d);
            Ranked(Parents(bs[c := bs[c].(parent := Some(p))]), lv') && (forall z :: 0 <= z < |lv'| ==> lv'[z] < lb + d)
  {
    var ps, bs' := Parents(bs), bs[c := bs[c].(parent := Some(p))];
    var ps', lv' := Parents(bs'), ShiftLevels(Parents(bs), lv, c, d);
    assert InSubtree(ps, lv, c, c);
    forall z | 0 <= z < |ps'| && ps'[z].Some?
      ensures ps'[z].value < |ps'| && lv'[ps'[z].value] < lv'[z]
    {
      if z != c {
        var q := ps[z].value;
        if InSubtree(ps, lv, c, q) {
          assert InSubtree(ps, lv, c, z);
        }
      }
    }
  }

  /** Lifting levels and linking `c` under `p` changes neither the subtree of `c` nor the chain above a box outside it. */
  lemma {:induction false} ReparentSubtree(bs: seq<BoxState>, lv: seq<nat>, p: BoxId, c: BoxId, d: nat, z: BoxId)
    requires Ranked(Parents(bs), lv) && p < |bs| && c < |bs| && z < |bs|
    requires Ranked(Parents(bs[c := bs[c].(parent := Some(p))]), ShiftLevels(Parents(bs), lv, c, d))
    ensures InSubtree(Parents(bs[c := bs[c].(parent := Some(p))]), ShiftLevels(Parents(bs), lv, c, d), c, z) == InSubtree(Parents(bs), lv, c, z)
    ensures !InSubtree(Parents(bs), lv, c, z) ==>
              forall a :: InSubtree(Parents(bs[c := bs[c].(parent := Some(p))]), ShiftLevels(Parents(bs), lv, c, d), a, z) == InSubtree(Parents(bs), lv, a, z)
    decreases lv[z]
  {
    var ps, ps', lv' := Parents(bs), Parents(bs[c := bs[c].(parent := Some(p))]), ShiftLevels(Parents(bs), lv, c, d);
    if z != c && ps[z].Some? {
      ReparentSubtree(bs, lv, p, c, d, ps[z].value);
    }
  }

  /** Moving the subtree of `c` keeps its members and leaves the bounds of every box outside it as they were. */
  ghost predicate SubtreeMoved(bs0: seq<BoxState>, lv0: seq<nat>, bs1: seq<BoxState>, lv1: seq<nat>, c: BoxId)
    requires Ranked(Parents(bs0), lv0) && Ranked(Parents(bs1), lv1) && |bs1| == |bs0| && c < |bs0|
  {
    (forall z :: 0 <= z < |bs0| ==> (InSubtree(Parents(bs1), lv1, c, z) <==> InSubtree(Parents(bs0), lv0, c, z))) &&
    (forall z :: 0 <= z < |bs0| && !InSubtree(Parents(bs0), lv0, c, z) ==> Fresh(bs1, lv1, z) == Fresh(bs0, lv0, z))
  }

  lemma ReparentFacts(bs: seq<BoxState>, lv: seq<nat>, lb: nat, bounds: seq<Option<Rect>>, index: seq<(BoxId, Rect)>, p: BoxId, c: BoxId, d: nat)
    requires WellLinked(bs, lv, lb, |bounds|, index) && AllListed(bs) && AllSound(bs, lv, bounds)
    requires p < |bs| && c < |bs| && bs[c].parent.None? && !InSubtree(Parents(bs), lv, c, p)
    requires d == (if lv[p] + 1 > lv[c] then lv[p] + 1 - lv[c] else 0)
    ensures var bs1, lv1 := bs[c := bs[c].(parent := Some(p))], ShiftLevels(Parents(bs), lv, c, d);
      WellLinked(bs1, lv1, lb + d, |bounds|, index) && SubtreeMoved(bs, lv, bs1, lv1, c) &&
      SubtreeListed(bs1, lv1, c) && AncestorsSound(bs1, lv1, bounds, c)
  {
    var bs1, lv1 := bs[c := bs[c].(parent := Some(p))], ShiftLevels(Parents(bs), lv, c, d);
    var ps, ps1 := Parents(bs), Parents(bs1);
    ShiftRanked(bs, lv, lb, p, c, d);
    forall z | 0 <= z < |bs|
      ensures InSubtree(ps1, lv1, c, z) <==> InSubtree(ps, lv, c, z)
    {
      ReparentSubtree(bs, lv, p, c, d, z);
    }
    forall z | 0 <= z < |bs| && !InSubtree(ps, lv, c, z)
      ensures Fresh(bs1, lv1, z) == Fresh(bs, lv, z)
    {
      FreshAgree(bs, lv, bs1, lv1, z);
    }
    forall y, k | 0 <= y < |bs1| && 0 <= k < |bs1[y].children|
      ensures bs1[y].children[k] < |bs1| && bs1[bs1[y].children[k]].parent == Some(y)
    {
      assert bs[y].children[k] != c;
    }
    forall z | 0 <= z < |bs| && z != c && InSubtree(ps1, lv1, c, z)
      ensures Listed(bs1, z)
    {
      assert Listed(bs, z);
    }
    forall a | 0 <= a < |bs| && a != c && InSubtree(ps1, lv1, a, c)
      ensures SoundAt(bs1, lv1, bounds, a)
    {
      if InSubtree(ps1, lv1, c, a) {
        SubtreeLevel(ps1, lv1, a, c);
        SubtreeLevel(ps1, lv1, c, a);
      }
      assert !InSubtree(ps, lv, c, a);
      assert SoundAt(bs, lv, bounds, a);
    }
  }

  /** Appending `c`, already pointing at `p`, to the children of `p` and giving it its depth touches only those two records and no geometry. */
  lemma PushFields(bs0: seq<BoxState>, bs1: seq<BoxState>, bs3: seq<BoxState>, p: BoxId, c: BoxId)
    requires p < |bs0| && c < |bs0| && p != c
    requires bs1 == bs0[c := bs0[c].(parent := Some(p))]
    requires var bs2 := bs1[p := bs1[p].(children := bs1[p].children + [c])];
             bs3 == bs2[c := bs2[c].(depth := bs2[p].depth + 1)]
    ensures |bs3| == |bs0| && bs3[c] == bs0[c].(parent := Some(p), depth := bs0[p].depth + 1)
    ensures bs3[p] == bs0[p].(children := bs0[p].children + [c])
    ensures forall z :: 0 <= z < |bs3| && z != c && z != p ==> bs3[z] == bs0[z]
    ensures Parents(bs3) == Parents(bs1)
    ensures forall z :: 0 <= z < |bs3| ==> SameGeometry(bs3[z], bs1[z])
  {
    assert Parents(bs3) == Parents(bs1);
  }

  /** The links after the child is attached. */
  lemma PushChildLinks(bs0: seq<BoxState>, bs3: seq<BoxState>, p: BoxId, c: BoxId)
    requires Linked(bs0) && AllListed(bs0) && p < |bs0| && c < |bs0| && p != c && bs0[c].parent.None?
    requires |bs3| == |bs0| && bs3[c] == bs0[c].(parent := Some(p), depth := bs0[p].depth + 1)
    requires bs3[p] == bs0[p].(children := bs0[p].children + [c])
    requires forall z :: 0 <= z < |bs3| && z != c && z != p ==> bs3[z] == bs0[z]
    ensures Linked(bs3) && AllListed(bs3)
    ensures ChildIndex(bs3, c) == |bs0[p].children|
  {
    assert c !in bs0[p].children by {
      assert forall k :: 0 <= k < |bs0[p].children| ==> bs0[bs0[p].children[k]].parent == Some(p);
    }
    PushPointBack(bs0, bs3, p, c);
    PushNoTwins(bs0, bs3, p, c);
    forall z | 0 <= z < |bs3|
      ensures Listed(bs3, z)
    {
      if z != c {
        assert Listed(bs0, z);
      }
    }
    IndexOfAppended(bs0[p].children, c);
  }

  lemma PushPointBack(bs0: seq<BoxState>, bs3: seq<BoxState>, p: BoxId, c: BoxId)
    requires PointBack(bs0) && p < |bs0| && c < |bs0| && p != c && |bs3| == |bs0| && bs0[c].parent.None?
    requires bs3[c].parent == Some(p) && bs3[c].children == bs0[c].children
    requires bs3[p].children == bs0[p].children + [c] && bs3[p].parent == bs0[p].parent
    requires forall z :: 0 <= z < |bs3| && z != c && z != p ==> bs3[z] == bs0[z]
    ensures PointBack(bs3)
  {
    forall y, k | 0 <= y < |bs3| && 0 <= k < |bs3[y].children|
      ensures bs3[y].children[k] < |bs3| && bs3[bs3[y].children[k]].parent == Some(y)
    {
      if !(y == p && k == |bs0[p].children|) {
        assert bs3[y].children[k] == bs0[y].children[k];
        assert bs0[y].children[k] != c;
      }
    }
  }

  lemma PushNoTwins(bs0: seq<BoxState>, bs3: seq<BoxState>, p: BoxId, c: BoxId)
    requires NoTwins(bs0) && p < |bs0| && c < |bs0| && p != c && |bs3| == |bs0| && c !in bs0[p].children
    requires bs3[c].children == bs0[c].children && bs3[p].children == bs0[p].children + [c]
    requires forall z :: 0 <= z < |bs3| && z != c && z != p ==> bs3[z] == bs0[z]
    ensures NoTwins(bs3)
  {
    forall y, i, j | 0 <= y < |bs3| && 0 <= i < j < |bs3[y].children|
      ensures bs3[y].children[i] != bs3[y].children[j]
    {
      if y == p && j == |bs0[p].children| {
        assert bs3[y].children[i] in bs0[p].children;
      } else {
        assert bs3[y].children[i] == bs0[y].children[i] && bs3[y].children[j] == bs0[y].children[j];
      }
    }
  }

  /** The caches and index after the child is attached: placements are those of the reparented arena. */
  lemma PushChildCaches(bs0: seq<BoxState>, lv0: seq<nat>, bounds0: seq<Option<Rect>>, bs1: seq<BoxState>, lv1: seq<nat>,
                        cleared: seq<Option<Rect>>, bs3: seq<BoxState>, c: BoxId,
                        index0: seq<(BoxId, Rect)>, index1: seq<(BoxId, Rect)>)
    requires Ranked(Parents(bs0), lv0) && |bounds0| == |bs0| && AllSound(bs0, lv0, bounds0) && c < |bs0|
    requires |bs1| == |bs0| && Ranked(Parents(bs1), lv1)
    requires SubtreeMoved(bs0, lv0, bs1, lv1, c)
    requires |cleared| == |bs0| && ClearedCaches(bs1, lv1, c, bounds0, cleared)
    requires ClearedIndex(bs1, lv1, c, index0, index1)
    requires |bs3| == |bs1| && Parents(bs3) == Parents(bs1)
    requires forall z :: 0 <= z < |bs3| ==> SameGeometry(bs3[z], bs1[z])
    ensures AllSound(bs3, lv1, cleared)
    ensures ClearedIndex(bs3, lv1, c, index0, index1)
    ensures forall z :: 0 <= z < |bs3| && InSubtree(Parents(bs3), lv1, c, z) ==> cleared[z] == Some(Fresh(bs3, lv1, z))
  {
    forall z | 0 <= z < |bs3|
      ensures Fresh(bs3, lv1, z) == Fresh(bs1, lv1, z)
    {
      FreshAgree(bs1, lv1, bs3, lv1, z);
    }
    forall z | 0 <= z < |bs3|
      ensures SoundAt(bs3, lv1, cleared, z)
    {
      if !InSubtree(Parents(bs1), lv1, c, z) {
        assert SoundAt(bs0, lv0, bounds0, z);
      }
    }
  }

  lemma SomeChildInside(bs: seq<BoxState>, lv: seq<nat>, y: BoxId, k: nat, z: BoxId)
    requires Ranked(Parents(bs), lv) && Linked(bs) && y < |bs| && z < |bs|
    requires InSomeChild(Parents(bs), lv, bs[y].children, k, z)
    ensures InSubtree(Parents(bs), lv, y, z) && z != y
  {
    var j :| 0 <= j < k && j < |bs[y].children| && InSubtree(Parents(bs), lv, bs[y].children[j], z);
    ChildFacts(bs, lv, y, j);
  }

  /** No box occurs twice in `v`. */
  predicate Distinct(v: seq<BoxId>)
  {
    forall i, j :: 0 <= i < j < |v| ==> v[i] != v[j]
  }

  /** Every box of `v` after the first has its parent somewhere before it. */
  predicate ParentsFirst(bs: seq<BoxState>, v: seq<BoxId>)
  {
    forall i :: 0 < i < |v| ==> v[i] < |bs| && bs[v[i]].parent.Some? && bs[v[i]].parent.value in v[..i]
  }

  lemma DistinctAppend(v: seq<BoxId>, w: seq<BoxId>)
    requires Distinct(v) && Distinct(w)
    requires forall z :: z in v ==> z !in w
    ensures Distinct(v + w)
  {
    var u := v + w;
    forall i, j | 0 <= i < j < |u|
      ensures u[i] != u[j]
    {
      if i < |v| <= j {
        assert u[i] in v && u[j] in w;
      }
    }
  }

  lemma ParentsFirstAppend(bs: seq<BoxState>, v: seq<BoxId>, w: seq<BoxId>)
    requires ParentsFirst(bs, v) && ParentsFirst(bs, w) && |w| > 0
    requires w[0] < |bs| && bs[w[0]].parent.Some? && bs[w[0]].parent.value in v
    ensures ParentsFirst(bs, v + w)
  {
    var u := v + w;
    forall i | 0 < i < |u|
      ensures u[i] < |bs| && bs[u[i]].parent.Some? && bs[u[i]].parent.value in u[..i]
    {
      if i < |v| {
        assert u[..i] == v[..i];
      } else if i == |v| {
        assert u[..i] == v;
      } else {
        var i' := i - |v|;
        assert u[..i] == v + w[..i'];
      }
    }
  }

  lemma WalkStep(bs: seq<BoxState>, lv: seq<nat>, y: BoxId, k: nat, visited: seq<BoxId>, sub: seq<BoxId>)
    requires Ranked(Parents(bs), lv) && Linked(bs) && y < |bs| && k < |bs[y].children|
    requires |visited| > 0 && visited[0] == y && Distinct(visited) && ParentsFirst(bs, visited)
    requires forall z: BoxId :: z in visited <==> z < |bs| && (z == y || InSomeChild(Parents(bs), lv, bs[y].children, k, z))
    requires |sub| > 0 && sub[0] == bs[y].children[k] && Distinct(sub) && ParentsFirst(bs, sub)
    requires forall z: BoxId :: z in sub <==> z < |bs| && InSubtree(Parents(bs), lv, bs[y].children[k], z)
    ensures var v := visited + sub;
      (|v| > 0 && v[0] == y) && Distinct(v) && ParentsFirst(bs, v) &&
      (forall z: BoxId :: z in v <==> z < |bs| && (z == y || InSomeChild(Parents(bs), lv, bs[y].children, k + 1, z)))
  {
    ChildFacts(bs, lv, y, k);
    DistinctAppend(visited, sub);
    ParentsFirstAppend(bs, visited, sub);
  }

  /** Every proper descendant of `y` is among its parent's children. */
  ghost predicate SubtreeListed(bs: seq<BoxState>, lv: seq<nat>, y: BoxId)
    requires Ranked(Parents(bs), lv) && y < |bs|
  {
    forall w :: 0 <= w < |bs| && w != y && InSubtree(Parents(bs), lv, y, w) ==> Listed(bs, w)
  }

  /** Every proper ancestor of `y` has a sound cache. */
  ghost predicate AncestorsSound(bs: seq<BoxState>, lv: seq<nat>, bounds: seq<Option<Rect>>, y: BoxId)
    requires Ranked(Parents(bs), lv) && y < |bs| == |bounds|
  {
    forall a :: 0 <= a < |bs| && a != y && InSubtree(Parents(bs), lv, a, y) ==> SoundAt(bs, lv, bounds, a)
  }

  /** The cache of `z`, if present, holds the freshly computed bounds. */
  ghost predicate SoundAt(bs: seq<BoxState>, lv: seq<nat>, bounds: seq<Option<Rect>>, z: BoxId)
    requires Ranked(Parents(bs), lv) && z < |bs| == |bounds|
  {
    bounds[z].Some? ==> bounds[z].value == Fresh(bs, lv, z)
  }

  lemma ChildChainSound(bs: seq<BoxState>, lv: seq<nat>, y: BoxId, k: nat, start: seq<Option<Rect>>, bounds0: seq<Option<Rect>>, bounds: seq<Option<Rect>>)
    requires Ranked(Parents(bs), lv) && Linked(bs) && y < |bs| && k < |bs[y].children|
    requires |start| == |bs| && bounds0 == start[y := None] && |bounds| == |bs|
    requires AncestorsSound(bs, lv, start, y)
    requires ChildrenCleared(bs, lv, y, k, bounds0, bounds)
    ensures bs[y].children[k] < |bs| && lv[y] < lv[bs[y].children[k]]
    ensures AncestorsSound(bs, lv, bounds, bs[y].children[k])
    ensures SubtreeListed(bs, lv, y) ==> SubtreeListed(bs, lv, bs[y].children[k])
  {
    ChildFacts(bs, lv, y, k);
  }

  lemma ChainSoundAfterChildren(bs: seq<BoxState>, lv: seq<nat>, y: BoxId, start: seq<Option<Rect>>, bounds0: seq<Option<Rect>>, bounds: seq<Option<Rect>>)
    requires Ranked(Parents(bs), lv) && y < |bs|
    requires |start| == |bs| && bounds0 == start[y := None] && |bounds| == |bs|
    requires AncestorsSound(bs, lv, start, y)
    requires ChildrenCleared(bs, lv, y, |bs[y].children|, bounds0, bounds)
    ensures forall a :: 0 <= a < |bs| && InSubtree(Parents(bs), lv, a, y) ==> SoundAt(bs, lv, bounds, a)
  {
    forall a | 0 <= a < |bs| && InSubtree(Parents(bs), lv, a, y) && a != y
      ensures !InSubtree(Parents(bs), lv, y, a)
    {
      if InSubtree(Parents(bs), lv, y, a) {
        SubtreeLevel(Parents(bs), lv, a, y);
        SubtreeLevel(Parents(bs), lv, y, a);
      }
    }
  }

  /** What clearing the subtree of `y` does to the caches. */
  ghost predicate ClearedCaches(bs: seq<BoxState>, lv: seq<nat>, y: BoxId, before: seq<Option<Rect>>, after: seq<Option<Rect>>)
    requires Ranked(Parents(bs), lv) && y < |bs| && |before| == |bs| && |after| == |bs|
  {
    var ps := Parents(bs);
    (forall z :: 0 <= z < |bs| && InSubtree(ps, lv, y, z) ==> after[z] == Some(Fresh(bs, lv, z))) &&
    (forall z :: 0 <= z < |bs| && !InSubtree(ps, lv, y, z) ==>
       after[z] == before[z] || (before[z].None? && InSubtree(ps, lv, z, y) && after[z] == Some(Fresh(bs, lv, z))))
  }

  /** What clearing the subtree of `y` does to the index: each box of it trades its first entry for a fresh one at the end. */
  ghost predicate ClearedIndex(bs: seq<BoxState>, lv: seq<nat>, y: BoxId, before: seq<(BoxId, Rect)>, after: seq<(BoxId, Rect)>)
    requires Ranked(Parents(bs), lv) && y < |bs|
  {
    forall z :: 0 <= z < |bs| ==>
      Entries(after, z) == if InSubtree(Parents(bs), lv, y, z) then Tail(Entries(before, z)) + [Fresh(bs, lv, z)] else Entries(before, z)
  }

  /** The boxes after attachTo's addChild and the setOrigin/setAnchor pair, as one update of the boxes before. */
  lemma AttachedBoxes(bs0: seq<BoxState>, bs1: seq<BoxState>, bs2: seq<BoxState>, p: BoxId, c: BoxId,
                      originX: real, originY: real, anchorX: Option<real>, anchorY: Option<real>)
    requires p < |bs0| && c < |bs0| && p != c && |bs1| == |bs0|
    requires bs1[c] == bs0[c].(parent := Some(p), depth := bs0[p].depth + 1)
    requires bs1[p] == bs0[p].(children := bs0[p].children + [c])
    requires forall z :: 0 <= z < |bs1| && z != c && z != p ==> bs1[z] == bs0[z]
    requires bs2 == bs1[c := bs1[c].(originX := originX, originY := originY, anchorX := anchorX, anchorY := anchorY)]
    ensures bs2 == bs0[p := bs0[p].(children := bs0[p].children + [c])]
                      [c := bs0[c].(parent := Some(p), depth := bs0[p].depth + 1, originX := originX, originY := originY,
                                    anchorX := anchorX, anchorY := anchorY)]
    ensures Parents(bs2) == Parents(bs1) && ChildIndex(bs2, c) == ChildIndex(bs1, c)
  {
    var want := bs0[p := bs0[p].(children := bs0[p].children + [c])]
                   [c := bs0[c].(parent := Some(p), depth := bs0[p].depth + 1, originX := originX, originY := originY,
                                 anchorX := anchorX, anchorY := anchorY)];
    assert forall z :: 0 <= z < |bs2| ==> bs2[z] == want[z];
    assert Parents(bs2) == Parents(bs1);
  }

  /** The index after one or more clearings of the subtree of `y`: every box outside it keeps its entries, and a box of it with at most one entry ends with exactly one, fresh. */
  ghost predicate RefreshedIndex(bs: seq<BoxState>, lv: seq<nat>, y: BoxId, before: seq<(BoxId, Rect)>, after: seq<(BoxId, Rect)>)
    requires Ranked(Parents(bs), lv) && y < |bs|
  {
    forall z :: 0 <= z < |bs| ==>
      (!InSubtree(Parents(bs), lv, y, z) ==> Entries(after, z) == Entries(before, z)) &&
      (InSubtree(Parents(bs), lv, y, z) && |Entries(before, z)| <= 1 ==> Entries(after, z) == [Fresh(bs, lv, z)])
  }

  lemma ClearedRefreshed(bs: seq<BoxState>, lv: seq<nat>, y: BoxId, before: seq<(BoxId, Rect)>, after: seq<(BoxId, Rect)>)
    requires Ranked(Parents(bs), lv) && y < |bs| && ClearedIndex(bs, lv, y, before, after)
    ensures RefreshedIndex(bs, lv, y, before, after)
  {
    forall z | 0 <= z < |bs| && InSubtree(Parents(bs), lv, y, z) && |Entries(before, z)| <= 1
      ensures Entries(after, z) == [Fresh(bs, lv, z)]
    {
      assert Tail(Entries(before, z)) == [];
    }
  }

  /** Two refreshes of the same subtree in a row, over the same links, are one refresh. */
  lemma RefreshedTwice(bs1: seq<BoxState>, bs2: seq<BoxState>, lv: seq<nat>, y: BoxId,
                       i0: seq<(BoxId, Rect)>, i1: seq<(BoxId, Rect)>, i2: seq<(BoxId, Rect)>)
    requires Ranked(Parents(bs1), lv) && y < |bs1| && |bs2| == |bs1| && Parents(bs2) == Parents(bs1)
    requires RefreshedIndex(bs1, lv, y, i0, i1) && RefreshedIndex(bs2, lv, y, i1, i2)
    ensures RefreshedIndex(bs2, lv, y, i0, i2)
  {
    forall z | 0 <= z < |bs2| && InSubtree(Parents(bs2), lv, y, z) && |Entries(i0, z)| <= 1
      ensures Entries(i2, z) == [Fresh(bs2, lv, z)]
    {
      assert Entries(i1, z) == [Fresh(bs1, lv, z)];
    }
  }

  /** The caches part of the loop of clearBounds, after the first `k` children. */
  ghost predicate ChildrenCleared(bs: seq<BoxState>, lv: seq<nat>, y: BoxId, k: nat, bounds0: seq<Option<Rect>>, bounds: seq<Option<Rect>>)
    requires Ranked(Parents(bs), lv) && y < |bs| && |bounds0| == |bs| && |bounds| == |bs|
  {
    var ps, cs := Parents(bs), bs[y].children;
    (bounds[y].None? || bounds[y] == Some(Fresh(bs, lv, y))) &&
    (forall z :: 0 <= z < |bs| && InSomeChild(ps, lv, cs, k, z) ==> bounds[z] == Some(Fresh(bs, lv, z))) &&
    (forall z :: 0 <= z < |bs| && !InSubtree(ps, lv, y, z) ==>
       bounds[z] == bounds0[z] || (bounds0[z].None? && InSubtree(ps, lv, z, y) && bounds[z] == Some(Fresh(bs, lv, z)))) &&
    (forall z :: 0 <= z < |bs| && z != y && InSubtree(ps, lv, y, z) && !InSomeChild(ps, lv, cs, k, z) ==> bounds[z] == bounds0[z])
  }

  /** The index part of the loop of clearBounds, after the first `k` children. */
  ghost predicate ChildrenReindexed(bs: seq<BoxState>, lv: seq<nat>, y: BoxId, k: nat, removed: seq<(BoxId, Rect)>, index: seq<(BoxId, Rect)>)
    requires Ranked(Parents(bs), lv) && y < |bs|
  {
    forall z :: 0 <= z < |bs| ==>
      Entries(index, z) == if InSomeChild(Parents(bs), lv, bs[y].children, k, z) then Tail(Entries(removed, z)) + [Fresh(bs, lv, z)] else Entries(removed, z)
  }

  lemma ChildFacts(bs: seq<BoxState>, lv: seq<nat>, y: BoxId, k: nat)
    requires Ranked(Parents(bs), lv) && Linked(bs) && y < |bs| && k < |bs[y].children|
    ensures var ps, cs, c := Parents(bs), bs[y].children, bs[y].children[k];
      c < |bs| && ps[c] == Some(y) && InSubtree(ps, lv, y, c) && !InSubtree(ps, lv, c, y) &&
      (forall z :: 0 <= z < |bs| && InSubtree(ps, lv, c, z) ==> InSubtree(ps, lv, y, z) && z != y) &&
      (forall z :: 0 <= z < |bs| ==> (InSomeChild(ps, lv, cs, k + 1, z) <==> InSomeChild(ps, lv, cs, k, z) || InSubtree(ps, lv, c, z))) &&
      (forall z :: 0 <= z < |bs| && InSubtree(ps, lv, c, z) ==> !InSomeChild(ps, lv, cs, k, z)) &&
      (forall z :: 0 <= z < |bs| && InSomeChild(ps, lv, cs, k, z) ==> InSubtree(ps, lv, y, z) && z != y) &&
      (forall a :: 0 <= a < |bs| && InSubtree(ps, lv, a, c) ==> a == c || InSubtree(ps, lv, a, y)) &&
      (forall a :: 0 <= a < |bs| && InSubtree(ps, lv, a, y) && InSubtree(ps, lv, y, a) ==> a == y)
  {
    var ps, cs, c := Parents(bs), bs[y].children, bs[y].children[k];
    assert InSubtree(ps, lv, y, y);
    assert InSubtree(ps, lv, y, c);
    if InSubtree(ps, lv, c, y) {
      SubtreeLevel(ps, lv, c, y);
    }
    forall z | 0 <= z < |bs| && InSubtree(ps, lv, c, z)
      ensures InSubtree(ps, lv, y, z) && z != y
    {
      SubtreeTransitive(ps, lv, y, c, z);
    }
    forall z | 0 <= z < |bs|
      ensures InSomeChild(ps, lv, cs, k + 1, z) <==> InSomeChild(ps, lv, cs, k, z) || InSubtree(ps, lv, c, z)
    {
      if InSomeChild(ps, lv, cs, k + 1, z) {
        var j :| 0 <= j < k + 1 && j < |cs| && InSubtree(ps, lv, cs[j], z);
        if j < k {
          assert InSomeChild(ps, lv, cs, k, z);
        }
      }
      if InSubtree(ps, lv, c, z) {
        assert 0 <= k < k + 1 && k < |cs| && InSubtree(ps, lv, cs[k], z);
      }
      if InSomeChild(ps, lv, cs, k, z) {
        var j :| 0 <= j < k && j < |cs| && InSubtree(ps, lv, cs[j], z);
        assert j < k + 1;
      }
    }
    forall z | 0 <= z < |bs| && InSubtree(ps, lv, c, z)
      ensures !InSomeChild(ps, lv, cs, k, z)
    {
      if InSomeChild(ps, lv, cs, k, z) {
        var j :| 0 <= j < k && j < |cs| && InSubtree(ps, lv, cs[j], z);
        SiblingSubtreesDisjoint(ps, lv, y, cs[j], c, z);
      }
    }
    forall z | 0 <= z < |bs| && InSomeChild(ps, lv, cs, k, z)
      ensures InSubtree(ps, lv, y, z) && z != y
    {
      var j :| 0 <= j < k && j < |cs| && InSubtree(ps, lv, cs[j], z);
      assert ps[cs[j]] == Some(y);
      assert InSubtree(ps, lv, y, cs[j]);
      SubtreeTransitive(ps, lv, y, cs[j], z);
      if z == y {
        SubtreeLevel(ps, lv, cs[j], y);
      }
    }
    forall a | 0 <= a < |bs| && InSubtree(ps, lv, a, y) && InSubtree(ps, lv, y, a)
      ensures a == y
    {
      SubtreeLevel(ps, lv, a, y);
      SubtreeLevel(ps, lv, y, a);
    }
  }

  lemma ClearChildStep(bs: seq<BoxState>, lv: seq<nat>, y: BoxId, k: nat, bounds0: seq<Option<Rect>>, pre: seq<Option<Rect>>, post: seq<Option<Rect>>)
    requires Ranked(Parents(bs), lv) && Linked(bs) && y < |bs| && k < |bs[y].children|
    requires |bounds0| == |bs| && |pre| == |bs| && |post| == |bs|
    requires ChildrenCleared(bs, lv, y, k, bounds0, pre)
    requires ClearedCaches(bs, lv, bs[y].children[k], pre, post)
    ensures ChildrenCleared(bs, lv, y, k + 1, bounds0, post)
  {
    ChildFacts(bs, lv, y, k);
  }

  lemma ReindexChildStep(bs: seq<BoxState>, lv: seq<nat>, y: BoxId, k: nat, removed: seq<(BoxId, Rect)>, pre: seq<(BoxId, Rect)>, post: seq<(BoxId, Rect)>)
    requires Ranked(Parents(bs), lv) && Linked(bs) && y < |bs| && k < |bs[y].children|
    requires ChildrenReindexed(bs, lv, y, k, removed, pre)
    requires ClearedIndex(bs, lv, bs[y].children[k], pre, post)
    ensures ChildrenReindexed(bs, lv, y, k + 1, removed, post)
  {
    ChildFacts(bs, lv, y, k);
  }

  lemma ClearFinish(bs: seq<BoxState>, lv: seq<nat>, y: BoxId, start: seq<Option<Rect>>, bounds0: seq<Option<Rect>>,
                    loopEnd: seq<Option<Rect>>, final: seq<Option<Rect>>)
    requires Ranked(Parents(bs), lv) && Linked(bs) && y < |bs|
    requires SubtreeListed(bs, lv, y)
    requires |start| == |bs| && bounds0 == start[y := None] && |loopEnd| == |bs| && |final| == |bs|
    requires ChildrenCleared(bs, lv, y, |bs[y].children|, bounds0, loopEnd)
    requires final[y] == Some(Fresh(bs, lv, y))
    requires forall z :: 0 <= z < |bs| ==>
               final[z] == loopEnd[z] || (loopEnd[z].None? && InSubtree(Parents(bs), lv, z, y) && final[z] == Some(Fresh(bs, lv, z)))
    ensures ClearedCaches(bs, lv, y, start, final)
  {
    var ps := Parents(bs);
    forall z | 0 <= z < |bs| && InSubtree(ps, lv, y, z) && z != y
      ensures InSomeChild(ps, lv, bs[y].children, |bs[y].children|, z)
    {
      SubtreeSplit(bs, lv, y, z);
    }
  }

  lemma ReindexFinish(bs: seq<BoxState>, lv: seq<nat>, y: BoxId, start: seq<(BoxId, Rect)>, removed: seq<(BoxId, Rect)>,
                      loopEnd: seq<(BoxId, Rect)>, final: seq<(BoxId, Rect)>)
    requires Ranked(Parents(bs), lv) && Linked(bs) && y < |bs|
    requires SubtreeListed(bs, lv, y)
    requires removed == RemoveFirst(start, y)
    requires ChildrenReindexed(bs, lv, y, |bs[y].children|, removed, loopEnd)
    requires final == loopEnd + [(y, Fresh(bs, lv, y))]
    ensures ClearedIndex(bs, lv, y, start, final)
  {
    var ps := Parents(bs);
    var cs := bs[y].children;
    forall z | 0 <= z < |bs|
      ensures Entries(final, z) == if InSubtree(ps, lv, y, z) then Tail(Entries(start, z)) + [Fresh(bs, lv, z)] else Entries(start, z)
    {
      var inChild := InSomeChild(ps, lv, cs, |cs|, z);
      EntriesRemoveFirst(start, y, z);
      EntriesAppend(loopEnd, (y, Fresh(bs, lv, y)), z);
      if z == y {
        if inChild {
          var j :| 0 <= j < |cs| && InSubtree(ps, lv, cs[j], y);
          ChildFacts(bs, lv, y, j);
        }
        assert InSubtree(ps, lv, y, y);
      } else if InSubtree(ps, lv, y, z) {
        SubtreeSplit(bs, lv, y, z);
      } else if inChild {
        var j :| 0 <= j < |cs| && InSubtree(ps, lv, cs[j], z);
        ChildFacts(bs, lv, y, j);
      }
    }
  }
}
