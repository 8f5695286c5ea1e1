/** Camera: a view position, a zoom with a floor of 0.1 and a follow speed kept in
    [0.01, 1.0]; it maps world points to screen points and back, and eases toward a target. */
module Cameras {
  import opened Vectors

  /** The camera's fields. The position is held by value. */
  datatype Camera = Camera(position: Vec2, zoom: real, followSpeed: real)

  const MinZoom: real := 0.1
  const MinFollowSpeed: real := 0.01
  const MaxFollowSpeed: real := 1.0

  /** The singleton as first created: at the origin, zoom 1, follow speed 0.1. */
  const Initial: Camera := Camera(Origin, 1.0, 0.1)

  /** What the setters guarantee of every reachable camera. */
  predicate Valid(c: Camera)
  {
    c.zoom >= MinZoom && MinFollowSpeed <= c.followSpeed <= MaxFollowSpeed
  }

  /** setPosition(x, y): only the position changes. */
  function SetPosition(c: Camera, x: real, y: real): (r: Camera)
    ensures r.position == Vec2(x, y)
    ensures r.zoom == c.zoom && r.followSpeed == c.followSpeed
  {
    c.(position := Vec2(x, y))
  }

  /** setPosition(vector), with the vector copied rather than shared. */
  function SetPositionVec(c: Camera, v: Vec2): (r: Camera)
    ensures r == SetPosition(c, v.x, v.y)
  {
    c.(position := v)
  }

  /** setZoom(z): max(0.1, z), so the zoom never drops below the floor and values at or above
      it are kept. */
  function SetZoom(c: Camera, z: real): (r: Camera)
    ensures r.zoom >= MinZoom
    ensures z >= MinZoom ==> r.zoom == z
    ensures z < MinZoom ==> r.zoom == MinZoom
    ensures r.position == c.position && r.followSpeed == c.followSpeed
  {
    c.(zoom := if MinZoom >= z then MinZoom else z)
  }

  /** setFollowSpeed(s): max(0.01, min(1.0, s)): the nearest point of [0.01, 1.0] to s. */
  function SetFollowSpeed(c: Camera, s: real): (r: Camera)
    ensures MinFollowSpeed <= r.followSpeed <= MaxFollowSpeed
    ensures MinFollowSpeed <= s <= MaxFollowSpeed ==> r.followSpeed == s
    ensures s > MaxFollowSpeed ==> r.followSpeed == MaxFollowSpeed
    ensures s < MinFollowSpeed ==> r.followSpeed == MinFollowSpeed
    ensures r.position == c.position && r.zoom == c.zoom
  {
    var upper := if MaxFollowSpeed <= s then MaxFollowSpeed else s;
    c.(followSpeed := if MinFollowSpeed >= upper then MinFollowSpeed else upper)
  }

  /** move(dx, dy): the position is displaced by exactly (dx, dy). */
  function Move(c: Camera, dx: real, dy: real): (r: Camera)
    ensures Subtract(r.position, c.position) == Vec2(dx, dy)
    ensures r.zoom == c.zoom && r.followSpeed == c.followSpeed
  {
    c.(position := Vec2(c.position.x + dx, c.position.y + dy))
  }

  /** worldToScreen: offset from the camera, scaled by the zoom, re-centred on the screen. */
  function WorldToScreen(c: Camera, wx: real, wy: real, screenWidth: int, screenHeight: int): (r: Vec2)
    ensures r.x - (screenWidth as real) / 2.0 == (wx - c.position.x) * c.zoom
    ensures r.y - (screenHeight as real) / 2.0 == (wy - c.position.y) * c.zoom
  {
    Vec2((wx - c.position.x) * c.zoom + (screenWidth as real) / 2.0,
         (wy - c.position.y) * c.zoom + (screenHeight as real) / 2.0)
  }

  /** screenToWorld: offset from the screen centre, divided by the zoom, moved to the camera.
      The zoom is never zero (the floor is 0.1). */
  function ScreenToWorld(c: Camera, sx: real, sy: real, screenWidth: int, screenHeight: int): (r: Vec2)
    requires c.zoom != 0.0
    ensures (r.x - c.position.x) * c.zoom == sx - (screenWidth as real) / 2.0
    ensures (r.y - c.position.y) * c.zoom == sy - (screenHeight as real) / 2.0
  {
    Vec2((sx - (screenWidth as real) / 2.0) / c.zoom + c.position.x,
         (sy - (screenHeight as real) / 2.0) / c.zoom + c.position.y)
  }

  /** centerOn(x, y): a jump to (x, y), no easing. */
  function CenterOn(c: Camera, x: real, y: real): (r: Camera)
    ensures r == SetPosition(c, x, y)
  {
    c.(position := Vec2(x, y))
  }

  /** centerOn(target). */
  function CenterOnVec(c: Camera, target: Vec2): (r: Camera)
    ensures r == CenterOn(c, target.x, target.y)
  {
    c.(position := target)
  }

  /** The fraction of the remaining distance one follow step covers: min(1, speed * dt * 60). */
  function LerpFactor(c: Camera, dt: real): (l: real)
    ensures l <= 1.0
    ensures c.followSpeed * dt * 60.0 <= 1.0 ==> l == c.followSpeed * dt * 60.0
    ensures c.followSpeed * dt * 60.0 >= 1.0 ==> l == 1.0
  {
    var raw := c.followSpeed * dt * 60.0;
    if 1.0 <= raw then 1.0 else raw
  }

  /** One coordinate moved the fraction l of the way from p to t. */
  function Lerp(p: real, t: real, l: real): real
  {
    p + (t - p) * l
  }

  /** A lerp scales the remaining offset to the target by (1 - l). */
  lemma LerpOffset(p: real, t: real, l: real)
    ensures Lerp(p, t, l) - t == (1.0 - l) * (p - t)
  {
  }

  /** follow(targetX, targetY, dt): each coordinate is lerped toward the target by the same
      factor; zoom and follow speed are kept. */
  function Follow(c: Camera, tx: real, ty: real, dt: real): (r: Camera)
    ensures r.position == Vec2(Lerp(c.position.x, tx, LerpFactor(c, dt)), Lerp(c.position.y, ty, LerpFactor(c, dt)))
    ensures r.zoom == c.zoom && r.followSpeed == c.followSpeed
  {
    var l := LerpFactor(c, dt);
    SetPosition(c, Lerp(c.position.x, tx, l), Lerp(c.position.y, ty, l))
  }

  /** follow(target, dt). */
  function FollowVec(c: Camera, target: Vec2, dt: real): (r: Camera)
    ensures r == Follow(c, target.x, target.y, dt)
  {
    Follow(c, target.x, target.y, dt)
  }

  /** The initial camera satisfies the invariant and every setter preserves it. */
  lemma ValidIsInvariant(c: Camera, x: real, y: real, z: real, s: real, dt: real)
    requires Valid(c)
    ensures Valid(Initial)
    ensures Valid(SetPosition(c, x, y)) && Valid(Move(c, x, y)) && Valid(CenterOn(c, x, y))
    ensures Valid(SetZoom(c, z)) && Valid(SetFollowSpeed(c, s)) && Valid(Follow(c, x, y, dt))
  {
  }

  /** setZoom(0.01) is floored to 0.1; setZoom(5.0) is kept. */
  lemma SetZoomExamples(c: Camera)
    ensures SetZoom(c, 0.01).zoom == 0.1 && SetZoom(c, 5.0).zoom == 5.0
  {
  }

  /** The clamps are idempotent: applying a setter to its own result changes nothing. */
  lemma ClampsIdempotent(c: Camera, z: real, s: real)
    ensures SetZoom(SetZoom(c, z), SetZoom(c, z).zoom) == SetZoom(c, z)
    ensures SetFollowSpeed(SetFollowSpeed(c, s), SetFollowSpeed(c, s).followSpeed) == SetFollowSpeed(c, s)
  {
  }

  /** The camera position always maps to the screen centre. */
  lemma PositionMapsToCentre(c: Camera, screenWidth: int, screenHeight: int)
    ensures WorldToScreen(c, c.position.x, c.position.y, screenWidth, screenHeight)
         == Vec2((screenWidth as real) / 2.0, (screenHeight as real) / 2.0)
  {
  }

  /** On an 800 by 600 screen with the camera at the origin: (0,0) maps to (400,300) at zoom 1
      and (100,0) maps to (600,300) at zoom 2. */
  lemma WorldToScreenExamples()
    ensures WorldToScreen(Initial, 0.0, 0.0, 800, 600) == Vec2(400.0, 300.0)
    ensures WorldToScreen(SetZoom(Initial, 2.0), 100.0, 0.0, 800, 600) == Vec2(600.0, 300.0)
  {
  }

  /** screenToWorld undoes worldToScreen and vice versa, for any non-zero zoom. */
  lemma ScreenWorldRoundTrip(c: Camera, px: real, py: real, screenWidth: int, screenHeight: int)
    requires c.zoom != 0.0
    ensures ScreenToWorld(c, WorldToScreen(c, px, py, screenWidth, screenHeight).x,
                          WorldToScreen(c, px, py, screenWidth, screenHeight).y, screenWidth, screenHeight)
         == Vec2(px, py)
    ensures WorldToScreen(c, ScreenToWorld(c, px, py, screenWidth, screenHeight).x,
                          ScreenToWorld(c, px, py, screenWidth, screenHeight).y, screenWidth, screenHeight)
         == Vec2(px, py)
  {
    var s := WorldToScreen(c, px, py, screenWidth, screenHeight);
    var w := ScreenToWorld(c, s.x, s.y, screenWidth, screenHeight);
    assert (w.x - c.position.x) * c.zoom == (px - c.position.x) * c.zoom;
    assert (w.y - c.position.y) * c.zoom == (py - c.position.y) * c.zoom;
    var w2 := ScreenToWorld(c, px, py, screenWidth, screenHeight);
    var s2 := WorldToScreen(c, w2.x, w2.y, screenWidth, screenHeight);
  }

  /** With lerp 1 (speed * dt * 60 at least 1) follow lands exactly on the target. */
  lemma FollowSnapsWhenLerpIsOne(c: Camera, tx: real, ty: real, dt: real)
    requires c.followSpeed * dt * 60.0 >= 1.0
    ensures Follow(c, tx, ty, dt).position == Vec2(tx, ty)
  {
  }

  /** Squared distance from a point to the target. */
  function DistanceSquared(p: Vec2, tx: real, ty: real): real
  {
    (p.x - tx) * (p.x - tx) + (p.y - ty) * (p.y - ty)
  }

  /** For 0 < lerp < 1 each coordinate not already on the target ends strictly between its old
      value and the target, and the distance to the target strictly decreases. */
  lemma FollowApproachesStrictly(c: Camera, tx: real, ty: real, dt: real)
    requires 0.0 < LerpFactor(c, dt) < 1.0
    ensures var p := c.position; var q := Follow(c, tx, ty, dt).position;
            && (p.x < tx ==> p.x < q.x < tx) && (tx < p.x ==> tx < q.x < p.x)
            && (p.y < ty ==> p.y < q.y < ty) && (ty < p.y ==> ty < q.y < p.y)
    ensures c.position != Vec2(tx, ty) ==>
              DistanceSquared(Follow(c, tx, ty, dt).position, tx, ty) < DistanceSquared(c.position, tx, ty)
  {
    var k := 1.0 - LerpFactor(c, dt);
    var p := c.position;
    var q := Follow(c, tx, ty, dt).position;
    LerpOffset(p.x, tx, 1.0 - k);
    LerpOffset(p.y, ty, 1.0 - k);
    ScaledOffsetShrinks(k, p.x - tx, q.x - tx);
    ScaledOffsetShrinks(k, p.y - ty, q.y - ty);
  }

  /** An offset e = k*d with k in (0, 1) keeps the sign of d, is strictly smaller in size
      unless d is zero, and so has a square no larger than d's. */
  lemma ScaledOffsetShrinks(k: real, d: real, e: real)
    requires 0.0 < k < 1.0 && e == k * d
    ensures d > 0.0 ==> 0.0 < e < d
    ensures d < 0.0 ==> d < e < 0.0
    ensures e * e <= d * d
    ensures d != 0.0 ==> e * e < d * d
  {
    if d > 0.0 {
      assert 0.0 < e < d;
      SquareMonotone(e, d);
    } else if d < 0.0 {
      ScaleOrder(k, 1.0, d);
      ScaleOrder(0.0, k, d);
      SquareMonotone(-e, -d);
    }
  }

  lemma SquareMonotone(a: real, b: real)
    requires 0.0 < a < b
    ensures a * a < b * b
  {
    assert a * a < a * b;
    assert a * b < b * b;
  }

  /** Multiplication by a non-negative factor keeps order; by a non-positive one reverses it. */
  lemma ScaleOrder(a: real, b: real, f: real)
    requires a <= b
    ensures f >= 0.0 ==> a * f <= b * f
    ensures f <= 0.0 ==> b * f <= a * f
    ensures f > 0.0 && a < b ==> a * f < b * f
    ensures f < 0.0 && a < b ==> b * f < a * f
  {
  }

  /** Products of non-negative reals grow with both factors. */
  lemma ProductMonotone(a: real, b: real, c: real, d: real)
    requires 0.0 <= a <= b && 0.0 <= c <= d
    ensures 0.0 <= a * c <= b * d
  {
    assert a * c <= b * c;
    assert b * c <= b * d;
  }

  function Abs(x: real): real
  {
    if x < 0.0 then -x else x
  }

  /** Along one axis with target t, a and b lie on p's side of t (or on it), a no farther
      from t than p, and b no farther than a. */
  predicate Approaches(p: real, a: real, b: real, t: real)
  {
    && Abs(b - t) <= Abs(a - t) <= Abs(p - t)
    && (a - t) * (p - t) >= 0.0 && (b - t) * (p - t) >= 0.0
  }

  /** A faster follow speed or a longer dt never covers less of the way to the target: on
      each axis, whichever side the target is on, the faster step ends no farther from it,
      neither step overshoots, and the faster one ends strictly closer whenever it has the
      larger factor and that axis was not already on target. */
  lemma FollowMovesFurtherWhenFaster(c: Camera, s1: real, s2: real, tx: real, ty: real, dt1: real, dt2: real)
    requires 0.0 <= s1 <= s2 && 0.0 <= dt1 <= dt2
    ensures var p := c.position;
            var q1 := Follow(c.(followSpeed := s1), tx, ty, dt1).position;
            var q2 := Follow(c.(followSpeed := s2), tx, ty, dt2).position;
            Approaches(p.x, q1.x, q2.x, tx) && Approaches(p.y, q1.y, q2.y, ty)
    ensures var p := c.position;
            var q1 := Follow(c.(followSpeed := s1), tx, ty, dt1).position;
            var q2 := Follow(c.(followSpeed := s2), tx, ty, dt2).position;
            s1 * dt1 < s2 * dt2 && s1 * dt1 * 60.0 < 1.0 ==>
              (p.x != tx ==> Abs(q2.x - tx) < Abs(q1.x - tx)) && (p.y != ty ==> Abs(q2.y - ty) < Abs(q1.y - ty))
  {
    var c1, c2 := c.(followSpeed := s1), c.(followSpeed := s2);
    var l1, l2 := LerpFactor(c1, dt1), LerpFactor(c2, dt2);
    FactorMonotone(c, s1, s2, dt1, dt2);
    LerpCloser(c.position.x, tx, l1, l2);
    LerpCloser(c.position.y, ty, l1, l2);
    var q1, q2 := Follow(c1, tx, ty, dt1).position, Follow(c2, tx, ty, dt2).position;
    assert q1 == Vec2(Lerp(c.position.x, tx, l1), Lerp(c.position.y, ty, l1));
    assert q2 == Vec2(Lerp(c.position.x, tx, l2), Lerp(c.position.y, ty, l2));
  }

  /** The lerp factor grows with speed and dt, stays in [0, 1], and grows strictly while the
      smaller product is below the clamp. */
  lemma FactorMonotone(c: Camera, s1: real, s2: real, dt1: real, dt2: real)
    requires 0.0 <= s1 <= s2 && 0.0 <= dt1 <= dt2
    ensures 0.0 <= LerpFactor(c.(followSpeed := s1), dt1) <= LerpFactor(c.(followSpeed := s2), dt2) <= 1.0
    ensures s1 * dt1 < s2 * dt2 && s1 * dt1 * 60.0 < 1.0 ==>
              LerpFactor(c.(followSpeed := s1), dt1) < LerpFactor(c.(followSpeed := s2), dt2)
  {
    var l1, l2 := LerpFactor(c.(followSpeed := s1), dt1), LerpFactor(c.(followSpeed := s2), dt2);
    ProductMonotone(s1, s2, dt1, dt2);
    if s1 * dt1 < s2 * dt2 && s1 * dt1 * 60.0 < 1.0 {
      assert l1 == s1 * dt1 * 60.0;
      assert s1 * dt1 * 60.0 < s2 * dt2 * 60.0;
      assert l1 < l2;
    }
  }

  /** Lerping by a larger factor in [0, 1] lands no farther from the target, neither lerp
      overshoots, and a strictly larger factor lands strictly closer unless p is the target. */
  lemma LerpCloser(p: real, t: real, l1: real, l2: real)
    requires 0.0 <= l1 <= l2 <= 1.0
    ensures Approaches(p, Lerp(p, t, l1), Lerp(p, t, l2), t)
    ensures l1 < l2 && p != t ==> Abs(Lerp(p, t, l2) - t) < Abs(Lerp(p, t, l1) - t)
  {
    var d, a, b := p - t, Lerp(p, t, l1) - t, Lerp(p, t, l2) - t;
    LerpOffset(p, t, l1);
    LerpOffset(p, t, l2);
    OffsetCloser(1.0 - l1, 1.0 - l2, d, a, b);
  }

  /** Offsets a = k1 * d and b = k2 * d, for factors k2 <= k1 in [0, 1]: neither is longer
      than d or on the other side of zero, b is no longer than a, and strictly shorter when
      k2 < k1 and d is not zero. */
  lemma OffsetCloser(k1: real, k2: real, d: real, a: real, b: real)
    requires 0.0 <= k2 <= k1 <= 1.0 && a == k1 * d && b == k2 * d
    ensures Abs(b) <= Abs(a) <= Abs(d)
    ensures a * d >= 0.0 && b * d >= 0.0
    ensures k2 < k1 && d != 0.0 ==> Abs(b) < Abs(a)
  {
    AbsScale(k1, d);
    AbsScale(k2, d);
    ScaleOrder(k2, k1, Abs(d));
    ScaleOrder(k1, 1.0, Abs(d));
    SignKept(k1, d);
    SignKept(k2, d);
  }

  /** A non-negative factor comes out of the absolute value. */
  lemma AbsScale(k: real, d: real)
    requires k >= 0.0
    ensures Abs(k * d) == k * Abs(d)
  {
    if d < 0.0 {
      ScaleOrder(d, 0.0, k);
    }
  }

  /** Scaling by a non-negative factor never flips the sign. */
  lemma SignKept(k: real, d: real)
    requires k >= 0.0
    ensures (k * d) * d >= 0.0
  {
    assert (k * d) * d == k * (d * d);
  }

  /** n follow steps toward a fixed target with a fixed dt. */
  function FollowSteps(c: Camera, tx: real, ty: real, dt: real, n: nat): (r: Camera)
    ensures r.zoom == c.zoom && r.followSpeed == c.followSpeed
    decreases n
  {
    if n == 0 then c else FollowSteps(Follow(c, tx, ty, dt), tx, ty, dt, n - 1)
  }

  /** n lerps of one coordinate toward a fixed target by a fixed factor. */
  function LerpSteps(p: real, t: real, l: real, n: nat): real
    decreases n
  {
    if n == 0 then p else LerpSteps(Lerp(p, t, l), t, l, n - 1)
  }

  /** Real power with a natural exponent. */
  function Pow(b: real, n: nat): real
  {
    if n == 0 then 1.0 else Pow(b, n - 1) * b
  }

  /** The follow speed does not change while following, so n camera steps are n lerps of each
      coordinate by the same factor. */
  lemma {:induction false} FollowStepsAreLerps(c: Camera, tx: real, ty: real, dt: real, n: nat)
    ensures FollowSteps(c, tx, ty, dt, n).position.x == LerpSteps(c.position.x, tx, LerpFactor(c, dt), n)
    ensures FollowSteps(c, tx, ty, dt, n).position.y == LerpSteps(c.position.y, ty, LerpFactor(c, dt), n)
    decreases n
  {
    if n > 0 {
      var c1 := Follow(c, tx, ty, dt);
      assert LerpFactor(c1, dt) == LerpFactor(c, dt);
      FollowStepsAreLerps(c1, tx, ty, dt, n - 1);
    }
  }

  /** After n lerps the offset to the target is the initial one scaled by (1 - l)^n. */
  lemma {:induction false} LerpStepsOffset(p: real, t: real, l: real, n: nat)
    ensures LerpSteps(p, t, l, n) - t == Pow(1.0 - l, n) * (p - t)
    decreases n
  {
    if n > 0 {
      var k := 1.0 - l;
      LerpOffset(p, t, l);
      LerpStepsOffset(Lerp(p, t, l), t, l, n - 1);
      Reassociate(Pow(k, n - 1), k, p - t);
    }
  }

  lemma Reassociate(a: real, b: real, d: real)
    ensures a * (b * d) == (a * b) * d
  {
  }

  /** Bernoulli's inequality turned around: for a lerp factor l in [0, 1],
      (1 - l)^n * (1 + n*l) <= 1, and (1 - l)^n stays in [0, 1]. */
  lemma {:induction false} DecayBound(l: real, n: nat)
    requires 0.0 <= l <= 1.0
    ensures 0.0 <= Pow(1.0 - l, n) <= 1.0
    ensures Pow(1.0 - l, n) * (1.0 + (n as real) * l) <= 1.0
  {
    if n > 0 {
      DecayBound(l, n - 1);
      var k := 1.0 - l;
      var m := (n - 1) as real;
      var q := Pow(k, n - 1);
      assert Pow(k, n) == q * k;
      assert (n as real) == m + 1.0;
      DecayStep(q, l, m);
    }
  }

  /** The inductive step of the decay bound, stated on plain reals. */
  lemma DecayStep(q: real, l: real, m: real)
    requires 0.0 <= l <= 1.0 && m >= 0.0
    requires 0.0 <= q <= 1.0 && q * (1.0 + m * l) <= 1.0
    ensures 0.0 <= q * (1.0 - l) <= 1.0
    ensures q * (1.0 - l) * (1.0 + (m + 1.0) * l) <= 1.0
  {
    var k := 1.0 - l;
    ScaleOrder(0.0, q, k);
    ScaleOrder(k, 1.0, q);
    BernoulliStep(l, m);
    var x := 1.0 + (m + 1.0) * l;
    Reassociate(q, k, x);
    ScaleOrder(k * x, 1.0 + m * l, q);
  }

  /** One step of Bernoulli: (1 - l)(1 + (m+1) l) = 1 + m l - m l^2 - l^2 <= 1 + m l. */
  lemma BernoulliStep(l: real, m: real)
    requires 0.0 <= l <= 1.0 && m >= 0.0
    ensures (1.0 - l) * (1.0 + (m + 1.0) * l) <= 1.0 + m * l
  {
    assert (1.0 - l) * (1.0 + (m + 1.0) * l) == 1.0 + m * l - m * l * l - l * l;
    assert m * l * l >= 0.0;
  }

  /** An offset d that n steps with lerp factor l in (0, 1] can bring within tol > 0: its size
      is at most n * l * tol. */
  predicate WithinReach(d: real, l: real, n: nat, tol: real)
  {
    0.0 < l <= 1.0 && tol > 0.0 && -((n as real) * l * tol) <= d <= (n as real) * l * tol
  }

  /** Following a fixed target converges: once n * lerp * tol reaches the initial offset on
      both axes, each coordinate ends within tol of the target. */
  lemma FollowConverges(c: Camera, tx: real, ty: real, dt: real, n: nat, tol: real)
    requires WithinReach(c.position.x - tx, LerpFactor(c, dt), n, tol)
    requires WithinReach(c.position.y - ty, LerpFactor(c, dt), n, tol)
    ensures -tol <= FollowSteps(c, tx, ty, dt, n).position.x - tx <= tol
    ensures -tol <= FollowSteps(c, tx, ty, dt, n).position.y - ty <= tol
  {
    var l := LerpFactor(c, dt);
    FollowStepsAreLerps(c, tx, ty, dt, n);
    var ex := LerpStepsWithin(c.position.x, tx, l, n, tol);
    var ey := LerpStepsWithin(c.position.y, ty, l, n, tol);
  }

  /** Starting at the origin with follow speed 0.5 and dt = 1/60, 300 or more follow steps
      toward (100, 100) end within 1.0 of the target on both axes. */
  lemma FollowReachesTargetExample(n: nat)
    requires n >= 300
    ensures var c := FollowSteps(SetFollowSpeed(Initial, 0.5), 100.0, 100.0, 1.0 / 60.0, n);
            -1.0 <= c.position.x - 100.0 <= 1.0 && -1.0 <= c.position.y - 100.0 <= 1.0
  {
    var c0 := SetFollowSpeed(Initial, 0.5);
    assert LerpFactor(c0, 1.0 / 60.0) == 0.5;
    assert (n as real) * 0.5 * 1.0 >= 150.0;
    FollowConverges(c0, 100.0, 100.0, 1.0 / 60.0, n, 1.0);
  }

  /** One coordinate lerped n times by l in (0, 1] ends within tol of the target once
      n * l * tol reaches the initial offset; e is that final offset. */
  lemma LerpStepsWithin(p: real, t: real, l: real, n: nat, tol: real) returns (e: real)
    requires WithinReach(p - t, l, n, tol)
    ensures LerpSteps(p, t, l, n) - t == e
    ensures -tol <= e <= tol
  {
    e := Pow(1.0 - l, n) * (p - t);
    LerpStepsOffset(p, t, l, n);
    DecayWithin(l, n, tol, p - t);
  }

  /** (1 - l)^n shrinks an offset of size at most n*l*tol to at most tol. */
  lemma DecayWithin(l: real, n: nat, tol: real, d: real)
    requires WithinReach(d, l, n, tol)
    ensures -tol <= Pow(1.0 - l, n) * d <= tol
  {
    DecayBound(l, n);
    ShrinkWithin(Pow(1.0 - l, n), l, n as real, tol, d);
  }

  /** The arithmetic step of convergence: a factor q with q * (1 + n*l) <= 1 shrinks an offset
      of size at most n*l*tol to at most tol. */
  lemma ShrinkWithin(q: real, l: real, n: real, tol: real, d: real)
    requires 0.0 <= q && q * (1.0 + n * l) <= 1.0 && tol > 0.0 && l > 0.0 && n >= 0.0
    requires -(n * l * tol) <= d <= n * l * tol
    ensures -tol <= q * d <= tol
  {
    var b := n * l * tol;
    ScaleOrder(d, b, q);
    ScaleOrder(-b, d, q);
    assert q * b <= q * (1.0 + n * l) * tol;
    ScaleOrder(q * (1.0 + n * l), 1.0, tol);
  }
}
