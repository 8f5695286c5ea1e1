/** Rect: a GameObject with a width / height pair stored as a vector. */
module Rects {
  import opened Wrappers
  import opened Vectors
  import opened GameObjects

  /** The base GameObject state plus the size vector (x holds the width, y the height). */
  datatype Rect = Rect(body: Body, size: Vec2)

  /** getWidth. */
  function Width(r: Rect): real
  {
    r.size.x
  }

  /** getHeight. */
  function Height(r: Rect): real
  {
    r.size.y
  }

  /** Rect(width, height, posX, posY): a fresh body moved to (posX, posY) with the given size. */
  function NewRect(width: int, height: int, posX: int, posY: int): (r: Rect)
    ensures Width(r) == width as real && Height(r) == height as real
    ensures r.body == SetPosition(NewBody, Some(Vec2(posX as real, posY as real)))
  {
    Rect(SetPosition(NewBody, Some(Vec2(posX as real, posY as real))), Vec2(width as real, height as real))
  }

  /** setSize(height, width): the parameters come in the reverse of the constructor's order;
      the first one becomes the height. Position, speed and gravity are untouched. */
  function SetSize(r: Rect, height: int, width: int): (r': Rect)
    ensures Height(r') == height as real && Width(r') == width as real
    ensures r'.body == r.body
  {
    r.(size := Vec2(width as real, height as real))
  }

  /** getBounds: the position corner and the size. A null position makes getPosition().getX()
      throw, modelled as None. */
  function GetBounds(r: Rect): (b: Option<Bounds>)
    ensures b.Some? <==> r.body.position.Some?
    ensures b.Some? ==> b.value.x == r.body.position.value.x && b.value.y == r.body.position.value.y
    ensures b.Some? ==> b.value.width == Width(r) && b.value.height == Height(r)
  {
    match r.body.position
    case None => None
    case Some(p) => Some(Bounds(p.x, p.y, Width(r), Height(r)))
  }

  /** setSize(h, w) on any rect yields the size the constructor gives for (w, h), so the
      argument order is exactly reversed. */
  lemma SetSizeReversesConstructorOrder(r: Rect, a: int, b: int, x: int, y: int)
    ensures SetSize(r, a, b).size == NewRect(b, a, x, y).size
    ensures Height(SetSize(NewRect(a, b, x, y), a, b)) == Width(NewRect(a, b, x, y))
  {
  }

  /** A constructed rect always has bounds, placed at the given corner with the given size. */
  lemma NewRectBounds(width: int, height: int, posX: int, posY: int)
    ensures GetBounds(NewRect(width, height, posX, posY))
         == Some(Bounds(posX as real, posY as real, width as real, height as real))
  {
  }
}
