/** Vector2: a pair of real components; add and subtract build new values and leave
    both operands alone, setX / setY replace one component. */
module Vectors {

  datatype Vec2 = Vec2(x: real, y: real)

  /** The zero vector every owner starts from. */
  const Origin: Vec2 := Vec2(0.0, 0.0)

  /** setX: only the x component changes. */
  function WithX(v: Vec2, x: real): (r: Vec2)
    ensures r.x == x && r.y == v.y
  {
    v.(x := x)
  }

  /** setY: only the y component changes. */
  function WithY(v: Vec2, y: real): (r: Vec2)
    ensures r.y == y && r.x == v.x
  {
    v.(y := y)
  }

  /** add(x, y): the result is v displaced by exactly (dx, dy). */
  function AddScalars(v: Vec2, dx: real, dy: real): (r: Vec2)
    ensures r.x - v.x == dx && r.y - v.y == dy
  {
    Vec2(v.x + dx, v.y + dy)
  }

  /** add(other): the result is v displaced by exactly other. */
  function Add(v: Vec2, other: Vec2): (r: Vec2)
    ensures r.x - v.x == other.x && r.y - v.y == other.y
  {
    Vec2(v.x + other.x, v.y + other.y)
  }

  /** subtract(x, y): the result displaced by (dx, dy) is v again. */
  function SubtractScalars(v: Vec2, dx: real, dy: real): (r: Vec2)
    ensures r.x + dx == v.x && r.y + dy == v.y
  {
    Vec2(v.x - dx, v.y - dy)
  }

  /** subtract(other): the result displaced by other is v again. */
  function Subtract(v: Vec2, other: Vec2): (r: Vec2)
    ensures r.x + other.x == v.x && r.y + other.y == v.y
  {
    Vec2(v.x - other.x, v.y - other.y)
  }

  /** Scaling by a real, used for velocity times delta-time. */
  function Scale(v: Vec2, k: real): (r: Vec2)
    ensures k == 1.0 ==> r == v
    ensures k == 0.0 ==> r == Origin
  {
    Vec2(v.x * k, v.y * k)
  }

  /** The vector overloads agree with the scalar ones. */
  lemma OverloadsAgree(v: Vec2, w: Vec2)
    ensures Add(v, w) == AddScalars(v, w.x, w.y)
    ensures Subtract(v, w) == SubtractScalars(v, w.x, w.y)
  {
  }

  /** Subtraction undoes addition and addition undoes subtraction, for both overloads. */
  lemma AddThenSubtract(v: Vec2, w: Vec2)
    ensures Subtract(Add(v, w), w) == v
    ensures SubtractScalars(AddScalars(v, w.x, w.y), w.x, w.y) == v
    ensures Add(Subtract(v, w), w) == v
  {
  }

  /** setX then setY with the old values is the identity, and a setter only touches its component. */
  lemma SettersAreIndependent(v: Vec2, a: real, b: real)
    ensures WithY(WithX(v, a), b) == WithX(WithY(v, b), a) == Vec2(a, b)
    ensures WithX(v, v.x) == v && WithY(v, v.y) == v
  {
  }

  /** Chained calls compose component-wise: (10,20).add(5,10).subtract(3,5) is (12,25),
      and (1,2).add((3,4)).subtract((5,6)).add(2,2) is (1,2). */
  lemma ChainedExamples()
    ensures SubtractScalars(AddScalars(Vec2(10.0, 20.0), 5.0, 10.0), 3.0, 5.0) == Vec2(12.0, 25.0)
    ensures AddScalars(Subtract(Add(Vec2(1.0, 2.0), Vec2(3.0, 4.0)), Vec2(5.0, 6.0)), 2.0, 2.0) == Vec2(1.0, 2.0)
  {
  }

  /** Any chain of add / subtract calls equals one translation by the summed displacement. */
  lemma ChainComposes(v: Vec2, a: Vec2, b: Vec2)
    ensures Subtract(Add(v, a), b) == AddScalars(v, a.x - b.x, a.y - b.y)
  {
  }
}
