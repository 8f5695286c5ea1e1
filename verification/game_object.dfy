/** GameObject: the common state of every simulated body (position, speed, gravity flag),
    its per-frame integration step, and the closed axis-aligned bounding-box test. */
module GameObjects {
  import opened Wrappers
  import opened Vectors

  /** The gravity constant of update, in pixels per second squared. */
  const Gravity: real := 981.0

  /** The fields of GameObject. Each is a nullable Java reference: the setters accept null,
      and hasGravity is a boxed Boolean. */
  datatype Body = Body(position: Option<Vec2>, speed: Option<Vec2>, hasGravity: Option<bool>)

  /** The state the constructor leaves: at rest at the origin, gravity off. */
  const NewBody: Body := Body(Some(Origin), Some(Origin), Some(false))

  /** setSpeed: stores the reference, nothing else changes. */
  function SetSpeed(b: Body, speed: Option<Vec2>): (r: Body)
    ensures r.speed == speed
    ensures r.position == b.position && r.hasGravity == b.hasGravity
  {
    b.(speed := speed)
  }

  /** setPosition: stores the reference, nothing else changes. */
  function SetPosition(b: Body, position: Option<Vec2>): (r: Body)
    ensures r.position == position
    ensures r.speed == b.speed && r.hasGravity == b.hasGravity
  {
    b.(position := position)
  }

  /** setHasGravity: stores the flag, nothing else changes. */
  function SetHasGravity(b: Body, hasGravity: Option<bool>): (r: Body)
    ensures r.hasGravity == hasGravity
    ensures r.position == b.position && r.speed == b.speed
  {
    b.(hasGravity := hasGravity)
  }

  /** The outcome of update. Integrated is a normal return. NullGravityFlag is the
      NullPointerException thrown when the boxed gravity flag is null; the null position
      and speed have already been replaced by zero vectors when it is thrown. */
  datatype Step = Integrated(body: Body) | NullGravityFlag(body: Body)

  /** The speed update applies before the position update (semi-implicit Euler). */
  function Accelerate(speed: Vec2, gravityOn: bool, dt: real): (r: Vec2)
    ensures r.x == speed.x
    ensures gravityOn ==> r.y - speed.y == Gravity * dt
    ensures !gravityOn ==> r == speed
  {
    if gravityOn then WithY(speed, speed.y + Gravity * dt) else speed
  }

  /** update(dt): null position or speed become the zero vector; then, with gravity on,
      981 * dt is added to speed.y; then position moves by the new speed times dt. */
  function Update(b: Body, dt: real): (r: Step)
    ensures r.body.position.Some? && r.body.speed.Some?
    ensures r.body.hasGravity == b.hasGravity
    ensures r.NullGravityFlag? <==> b.hasGravity.None?
    ensures r.NullGravityFlag? ==>
              r.body.position.value == b.position.GetOr(Origin) && r.body.speed.value == b.speed.GetOr(Origin)
  {
    var p := b.position.GetOr(Origin);
    var s := b.speed.GetOr(Origin);
    match b.hasGravity
    case None => NullGravityFlag(Body(Some(p), Some(s), None))
    case Some(g) =>
      var s' := Accelerate(s, g, dt);
      Integrated(Body(Some(Add(p, Scale(s', dt))), Some(s'), b.hasGravity))
  }

  /** Semi-implicit Euler: the speed is accelerated first, then the position moves by the new
      speed times dt. */
  lemma UpdateIntegrates(b: Body, dt: real)
    requires b.hasGravity.Some?
    ensures Update(b, dt).Integrated?
    ensures Update(b, dt).body.speed.value == Accelerate(b.speed.GetOr(Origin), b.hasGravity.value, dt)
    ensures Update(b, dt).body.position.value
         == Add(b.position.GetOr(Origin), Scale(Update(b, dt).body.speed.value, dt))
  {
  }

  /** One update of a non-null body with its gravity flag set, written out per component. */
  lemma UpdateOnce(b: Body, dt: real)
    requires b.hasGravity.Some? && b.position.Some? && b.speed.Some?
    ensures Update(b, dt).body.hasGravity == b.hasGravity
    ensures Update(b, dt).body.position.Some? && Update(b, dt).body.speed.Some?
    ensures Update(b, dt).body.speed.value.x == b.speed.value.x
    ensures Update(b, dt).body.speed.value.y == b.speed.value.y + Acceleration(b.hasGravity.value) * dt
    ensures Update(b, dt).body.position.value.x == b.position.value.x + b.speed.value.x * dt
    ensures Update(b, dt).body.position.value.y
         == b.position.value.y + (b.speed.value.y + Acceleration(b.hasGravity.value) * dt) * dt
  {
    var v' := Accelerate(b.speed.value, b.hasGravity.value, dt);
    assert v'.y == b.speed.value.y + Acceleration(b.hasGravity.value) * dt;
    assert Update(b, dt).body.position.value.y == b.position.value.y + v'.y * dt;
  }

  /** With gravity off, speed is kept and position moves by exactly speed * dt. */
  lemma UpdateWithoutGravity(b: Body, dt: real)
    requires b.hasGravity == Some(false) && b.position.Some? && b.speed.Some?
    ensures Update(b, dt) == Integrated(SetPosition(b, Some(Add(b.position.value, Scale(b.speed.value, dt)))))
  {
  }

  /** With gravity on, speed.y grows by 981 * dt and that new speed already drives this
      step's displacement; speed.x is untouched. */
  lemma UpdateWithGravity(b: Body, dt: real)
    requires b.hasGravity == Some(true) && b.position.Some? && b.speed.Some?
    ensures Update(b, dt).body.speed == Some(Vec2(b.speed.value.x, b.speed.value.y + Gravity * dt))
    ensures Update(b, dt).body.position.value.y == b.position.value.y + b.speed.value.y * dt + Gravity * dt * dt
    ensures Update(b, dt).body.position.value.x == b.position.value.x + b.speed.value.x * dt
  {
  }

  /** A null position or speed is integrated as if it were the zero vector. */
  lemma UpdateTreatsNullAsZero(b: Body, dt: real)
    requires b.hasGravity.Some?
    ensures Update(b, dt) == Update(Body(Some(b.position.GetOr(Origin)), Some(b.speed.GetOr(Origin)), b.hasGravity), dt)
  {
  }

  /** A freshly constructed body stays at rest at the origin. */
  lemma NewBodyStaysAtRest(dt: real)
    ensures Update(NewBody, dt) == Integrated(NewBody)
  {
  }

  /** n successive updates with the same dt; a faulting update is not integrated. */
  function Run(b: Body, dt: real, n: nat): Body
    decreases n
  {
    if n == 0 then b else Run(Update(b, dt).body, dt, n - 1)
  }

  /** The acceleration a body's gravity flag selects. */
  function Acceleration(gravityOn: bool): real
  {
    if gravityOn then Gravity else 0.0
  }

  /** Gravity enters the speed as the selected acceleration times dt. */
  lemma AccelerateBy(speed: Vec2, gravityOn: bool, dt: real)
    ensures Accelerate(speed, gravityOn, dt) == Vec2(speed.x, speed.y + Acceleration(gravityOn) * dt)
  {
  }

  /** Speed gained in n updates under constant acceleration a, step by step. */
  function Gain(a: real, dt: real, n: nat): real
  {
    if n == 0 then 0.0 else a * dt + Gain(a, dt, n - 1)
  }

  /** Distance covered in n updates from speed v under constant acceleration a, step by step:
      each step first gains a*dt of speed and then moves by the new speed times dt. */
  function Travel(v: real, a: real, dt: real, n: nat): real
    decreases n
  {
    if n == 0 then 0.0 else (v + a * dt) * dt + Travel(v + a * dt, a, dt, n - 1)
  }

  /** n updates of a body whose gravity flag is set: speed and position advance exactly by
      Gain and Travel, speed.x never changes, and the flag is kept. */
  lemma {:induction false} RunStepByStep(b: Body, dt: real, n: nat)
    requires b.hasGravity.Some? && b.position.Some? && b.speed.Some?
    ensures Run(b, dt, n).hasGravity == b.hasGravity
    ensures Run(b, dt, n).position.Some? && Run(b, dt, n).speed.Some?
    ensures Run(b, dt, n).speed.value.x == b.speed.value.x
    ensures Run(b, dt, n).speed.value.y == b.speed.value.y + Gain(Acceleration(b.hasGravity.value), dt, n)
    ensures Run(b, dt, n).position.value.x == b.position.value.x + Travel(b.speed.value.x, 0.0, dt, n)
    ensures Run(b, dt, n).position.value.y
         == b.position.value.y + Travel(b.speed.value.y, Acceleration(b.hasGravity.value), dt, n)
    decreases n
  {
    if n > 0 {
      UpdateOnce(b, dt);
      var b1 := Update(b, dt).body;
      assert Run(b, dt, n) == Run(b1, dt, n - 1);
      RunStepByStep(b1, dt, n - 1);
    }
  }

  /** The triangular number 1 + 2 + ... + n, as a real. */
  function Triangle(n: nat): real
  {
    if n == 0 then 0.0 else (n as real) + Triangle(n - 1)
  }

  /** The triangular number is n*(n+1)/2. */
  lemma {:induction false} TriangleClosedForm(n: nat)
    ensures 2.0 * Triangle(n) == (n as real) * ((n + 1) as real)
  {
    if n > 0 {
      TriangleClosedForm(n - 1);
      var k := (n - 1) as real;
      assert (k + 1.0) * (k + 2.0) == k * (k + 1.0) + 2.0 * (k + 1.0);
    }
  }

  /** The speed gained in n steps is n*a*dt. */
  lemma {:induction false} GainClosedForm(a: real, dt: real, n: nat)
    ensures Gain(a, dt, n) == (n as real) * (a * dt)
  {
    if n > 0 {
      GainClosedForm(a, dt, n - 1);
      assert ((n - 1) as real + 1.0) * (a * dt) == ((n - 1) as real) * (a * dt) + a * dt;
    }
  }

  /** The distance covered in n steps is n*v*dt + a*dt*dt*n*(n+1)/2: semi-implicit Euler
      already applies the first step's speed gain, hence n*(n+1) rather than n*(n-1). */
  lemma {:induction false} TravelClosedForm(v: real, a: real, dt: real, n: nat)
    ensures Travel(v, a, dt, n) == (n as real) * (v * dt) + (a * dt * dt) * Triangle(n)
    decreases n
  {
    if n > 0 {
      TravelClosedForm(v + a * dt, a, dt, n - 1);
      var k := (n - 1) as real;
      var u := v * dt;
      var c := a * dt * dt;
      assert (v + a * dt) * dt == u + c;
      assert k * ((v + a * dt) * dt) == k * u + k * c;
      assert c * (Triangle(n - 1) + k + 1.0) == c * Triangle(n - 1) + c * k + c;
      assert (n as real) * u == k * u + u;
    }
  }

  /** The closed form of n updates: speed.y grows by n*a*dt, where a is 981 with gravity on
      and 0 with it off. */
  lemma RunSpeedClosedForm(b: Body, dt: real, n: nat)
    requires b.hasGravity.Some? && b.position.Some? && b.speed.Some?
    ensures Run(b, dt, n).speed.Some?
    ensures Run(b, dt, n).speed.value.y
         == b.speed.value.y + (n as real) * (Acceleration(b.hasGravity.value) * dt)
  {
    RunStepByStep(b, dt, n);
    GainClosedForm(Acceleration(b.hasGravity.value), dt, n);
  }

  /** The closed form of n updates: position.y grows by n*v*dt + a*dt*dt*n*(n+1)/2. */
  lemma RunPositionClosedForm(b: Body, dt: real, n: nat)
    requires b.hasGravity.Some? && b.position.Some? && b.speed.Some?
    ensures Run(b, dt, n).position.Some?
    ensures Run(b, dt, n).position.value.y
         == b.position.value.y + (n as real) * (b.speed.value.y * dt)
            + (Acceleration(b.hasGravity.value) * dt * dt) * Triangle(n)
  {
    var a := Acceleration(b.hasGravity.value);
    var t := Travel(b.speed.value.y, a, dt, n);
    RunStepByStep(b, dt, n);
    assert Run(b, dt, n).position.value.y == b.position.value.y + t;
    TravelClosedForm(b.speed.value.y, a, dt, n);
  }

  /** A bounds rectangle (Rectangle2D.Float): corner, width and height. */
  datatype Bounds = Bounds(x: real, y: real, width: real, height: real)

  /** intersects: closed-interval overlap on both axes, so touching edges count. */
  predicate Overlap(a: Bounds, b: Bounds)
  {
    && a.x <= b.x + b.width
    && a.x + a.width >= b.x
    && a.y <= b.y + b.height
    && a.y + a.height >= b.y
  }

  /** A point lies in the closed box. */
  predicate Contains(a: Bounds, px: real, py: real)
  {
    a.x <= px <= a.x + a.width && a.y <= py <= a.y + a.height
  }

  /** The overlap test does not depend on argument order. */
  lemma OverlapSymmetric(a: Bounds, b: Bounds)
    ensures Overlap(a, b) <==> Overlap(b, a)
  {
  }

  /** For boxes of non-negative size the test is exactly "the two closed boxes share a point". */
  lemma OverlapIffSharedPoint(a: Bounds, b: Bounds)
    requires a.width >= 0.0 && a.height >= 0.0 && b.width >= 0.0 && b.height >= 0.0
    ensures Overlap(a, b) <==> exists px, py :: Contains(a, px, py) && Contains(b, px, py)
  {
    if Overlap(a, b) {
      var px := if a.x >= b.x then a.x else b.x;
      var py := if a.y >= b.y then a.y else b.y;
      assert Contains(a, px, py) && Contains(b, px, py);
    }
  }

  /** With a negative size the test can report an overlap with a box that holds no point:
      a box of width -1 at x = 0 "touches" one spanning [-1, 1]. */
  lemma NegativeSizeOverlapsWithoutSharedPoint()
    ensures Overlap(Bounds(0.0, 0.0, -1.0, 1.0), Bounds(-1.0, 0.0, 2.0, 1.0))
    ensures forall px, py :: !Contains(Bounds(0.0, 0.0, -1.0, 1.0), px, py)
  {
  }
}
