/** GameObject.intersects (and its copy in SpriteObject): the closed bounding-box test applied
    to the bounds each kind of object reports. */
module Collisions {
  import opened Wrappers
  import opened GameObjects
  import Rects
  import Sprites

  /** The two concrete kinds of GameObject. */
  datatype GameObj = RectObj(rect: Rects.Rect) | SpriteObj(sprite: Sprites.Sprite)

  /** getBounds, dispatched on the kind; None when the position is null (the call throws). */
  function BoundsOf(o: GameObj): (b: Option<Bounds>)
    ensures b.Some? <==> BodyOf(o).position.Some?
  {
    match o
    case RectObj(r) => Rects.GetBounds(r)
    case SpriteObj(s) => Sprites.GetBounds(s)
  }

  /** The GameObject state inside either kind. */
  function BodyOf(o: GameObj): GameObjects.Body
  {
    match o
    case RectObj(r) => r.body
    case SpriteObj(s) => s.body
  }

  /** a.intersects(b): both bounds are read (None: a null position throws) and tested for
      closed overlap, so touching edges count. */
  function Intersects(a: GameObj, b: GameObj): (r: Option<bool>)
    ensures r.Some? <==> BodyOf(a).position.Some? && BodyOf(b).position.Some?
    ensures r.Some? ==> (r.value <==> Overlap(BoundsOf(a).value, BoundsOf(b).value))
  {
    match (BoundsOf(a), BoundsOf(b))
    case (Some(x), Some(y)) => Some(Overlap(x, y))
    case _ => None
  }

  /** a.intersects(b) and b.intersects(a) always agree, whichever kinds they are. */
  lemma IntersectsSymmetric(a: GameObj, b: GameObj)
    ensures Intersects(a, b) == Intersects(b, a)
  {
    if Intersects(a, b).Some? {
      OverlapSymmetric(BoundsOf(a).value, BoundsOf(b).value);
    }
  }

  /** Rects (0,0,100,50) and (100,0,50,50) touch at an edge and intersect; (90,10,50,50)
      overlaps it; (151,0,50,50) is one unit clear of it and does not. */
  lemma RectCollisionExamples()
    ensures Intersects(RectObj(Rects.NewRect(100, 50, 0, 0)), RectObj(Rects.NewRect(50, 50, 100, 0))) == Some(true)
    ensures Intersects(RectObj(Rects.NewRect(100, 50, 0, 0)), RectObj(Rects.NewRect(50, 50, 90, 10))) == Some(true)
    ensures Intersects(RectObj(Rects.NewRect(100, 50, 0, 0)), RectObj(Rects.NewRect(50, 50, 151, 0))) == Some(false)
  {
  }

  /** Two constructed rects of non-negative size intersect exactly when their closed boxes share
      a point. */
  lemma RectsIntersectIffShareAPoint(w1: nat, h1: nat, x1: int, y1: int, w2: nat, h2: nat, x2: int, y2: int)
    ensures var a := BoundsOf(RectObj(Rects.NewRect(w1, h1, x1, y1))).value;
            var b := BoundsOf(RectObj(Rects.NewRect(w2, h2, x2, y2))).value;
            Intersects(RectObj(Rects.NewRect(w1, h1, x1, y1)), RectObj(Rects.NewRect(w2, h2, x2, y2))) == Some(true)
            <==> exists px, py :: Contains(a, px, py) && Contains(b, px, py)
  {
    var a := BoundsOf(RectObj(Rects.NewRect(w1, h1, x1, y1))).value;
    var b := BoundsOf(RectObj(Rects.NewRect(w2, h2, x2, y2))).value;
    OverlapIffSharedPoint(a, b);
  }
}
