/** GameLoop: a fixed-rate loop that calls an updater and a renderer once per frame, sleeps
    away what is left of the frame budget and publishes the frame count once per second.
    Threads and clocks are not modelled: the loop's timestamps come in as a trace. */
module GameLoops {
  import opened Wrappers

  const NanosPerSecond: int := 1_000_000_000
  const NanosPerMilli: int := 1_000_000
  const DefaultFps: int := 144

  /** The loop's configuration and flags. U and R stand for the updater and renderer
      callbacks, which are only ever stored, tested for null and called. */
  datatype Loop<U, R> = Loop(
    targetFps: int,
    targetFrameNanos: int,
    running: bool,
    hasThread: bool,
    updater: Option<U>,
    renderer: Option<R>,
    currentFps: int)

  /** nanos is the frame budget for fps frames per second: the whole number of nanoseconds
      that fits fps times into one second (floor division, stated without division). */
  predicate IsFrameBudget(fps: int, nanos: int)
  {
    fps > 0 && nanos * fps <= NanosPerSecond < (nanos + 1) * fps
  }

  /** Math.max on ints. */
  function Max(a: int, b: int): int
  {
    if a >= b then a else b
  }

  /** The budget 1_000_000_000 / fps for a positive fps, characterised without division. */
  function FrameBudget(fps: int): (nanos: int)
    requires fps > 0
    ensures IsFrameBudget(fps, nanos)
    ensures nanos >= 0
  {
    var q := NanosPerSecond / Max(1, fps);
    DivisionBounds(NanosPerSecond, fps);
    q
  }

  /** Floor division of a non-negative numerator by a positive divisor. */
  lemma DivisionBounds(a: int, b: int)
    requires a >= 0 && b > 0
    ensures (a / b) * b <= a < (a / b + 1) * b
    ensures a / b >= 0
  {
  }

  lemma MulMonotone(a: int, b: int, c: int)
    requires c > 0
    ensures a <= b ==> a * c <= b * c
  {
  }

  /** A frame budget is unique: there is only one whole number with that property. */
  lemma FrameBudgetUnique(fps: int, n1: int, n2: int)
    requires IsFrameBudget(fps, n1) && IsFrameBudget(fps, n2)
    ensures n1 == n2
  {
    MulMonotone(n1 + 1, n2, fps);
    MulMonotone(n2 + 1, n1, fps);
  }

  /** The default loop: 144 fps, not running, no callbacks, no fps reading yet. */
  function NewLoop<U, R>(): (l: Loop<U, R>)
    ensures l.targetFps == DefaultFps && IsFrameBudget(DefaultFps, l.targetFrameNanos)
    ensures !l.running && !l.hasThread && l.updater == None && l.renderer == None && l.currentFps == 0
  {
    Loop(DefaultFps, FrameBudget(DefaultFps), false, false, None, None, 0)
  }

  /** The fields the loop thread does not own: the target, its budget and the last reading. */
  predicate SameSettings<U, R>(a: Loop<U, R>, b: Loop<U, R>)
  {
    a.targetFps == b.targetFps && a.targetFrameNanos == b.targetFrameNanos && a.currentFps == b.currentFps
  }

  /** The two-argument constructor: the given callbacks, everything else as the default loop. */
  function NewLoopWith<U, R>(updater: Option<U>, renderer: Option<R>): (l: Loop<U, R>)
    ensures l.updater == updater && l.renderer == renderer
    ensures SameSettings(l, NewLoop<U, R>()) && !l.running && !l.hasThread
  {
    NewLoop<U, R>().(updater := updater, renderer := renderer)
  }

  /** setTargetFps: a non-positive fps is ignored; otherwise the target and its frame budget
      are replaced and nothing else changes. */
  function SetTargetFps<U, R>(l: Loop<U, R>, fps: int): (r: Loop<U, R>)
    ensures fps <= 0 ==> r == l
    ensures fps > 0 ==> r.targetFps == fps && IsFrameBudget(fps, r.targetFrameNanos)
    ensures r == l.(targetFps := r.targetFps, targetFrameNanos := r.targetFrameNanos)
  {
    if fps <= 0 then l else l.(targetFps := fps, targetFrameNanos := FrameBudget(fps))
  }

  /** The three-argument constructor routes the fps through setTargetFps. */
  function NewLoopWithFps<U, R>(fps: int, updater: Option<U>, renderer: Option<R>): (l: Loop<U, R>)
    ensures l == SetTargetFps(NewLoopWith(updater, renderer), fps)
  {
    SetTargetFps(NewLoop<U, R>(), fps).(updater := updater, renderer := renderer)
  }

  /** start: running afterwards; a no-op when already running, otherwise a loop thread is
      attached. Settings and callbacks are kept. */
  function Start<U, R>(l: Loop<U, R>): (r: Loop<U, R>)
    ensures r.running
    ensures l.running ==> r == l
    ensures !l.running ==> r.hasThread
    ensures SameSettings(r, l) && r.updater == l.updater && r.renderer == l.renderer
  {
    if l.running then l else l.(running := true, hasThread := true)
  }

  /** stop: never running afterwards and the thread reference is dropped; settings and
      callbacks are kept. */
  function Stop<U, R>(l: Loop<U, R>): (r: Loop<U, R>)
    ensures !r.running && !r.hasThread
    ensures SameSettings(r, l) && r.updater == l.updater && r.renderer == l.renderer
  {
    l.(running := false, hasThread := false)
  }

  /** setUpdater: only the updater is replaced. */
  function SetUpdater<U, R>(l: Loop<U, R>, updater: Option<U>): (r: Loop<U, R>)
    ensures r.updater == updater && r.renderer == l.renderer
    ensures SameSettings(r, l) && r.running == l.running && r.hasThread == l.hasThread
  {
    l.(updater := updater)
  }

  /** setRenderer: only the renderer is replaced. */
  function SetRenderer<U, R>(l: Loop<U, R>, renderer: Option<R>): (r: Loop<U, R>)
    ensures r.renderer == renderer && r.updater == l.updater
    ensures SameSettings(r, l) && r.running == l.running && r.hasThread == l.hasThread
  {
    l.(renderer := renderer)
  }

  /** The default budget is 6_944_444 ns, and the three-argument constructor keeps the default
      when given a non-positive fps. */
  lemma DefaultBudget<U, R>(u: Option<U>, r: Option<R>, fps: int)
    ensures NewLoop<U, R>().targetFrameNanos == 6_944_444
    ensures fps <= 0 ==> NewLoopWithFps(fps, u, r).targetFps == DefaultFps
    ensures fps <= 0 ==> NewLoopWithFps(fps, u, r).targetFrameNanos == 6_944_444
  {
    FrameBudgetUnique(DefaultFps, NewLoop<U, R>().targetFrameNanos, 6_944_444);
  }

  /** start is idempotent, and stop after start leaves the loop stopped whatever came before. */
  lemma StartStop<U, R>(l: Loop<U, R>)
    ensures Start(Start(l)) == Start(l) && Start(l).running
    ensures !Stop(Start(l)).running && Stop(Stop(l)) == Stop(l)
  {
  }

  /** What the loop does with the rest of a frame. */
  datatype Pause = Sleep(millis: int, nanos: int) | NoPause | Yield

  /** The pause after a frame whose work took workNanos: the remaining budget split into
      milliseconds and a sub-millisecond rest for Thread.sleep, or a yield when the work used
      the whole budget. */
  function FramePause(targetFrameNanos: int, workNanos: int): (p: Pause)
    ensures targetFrameNanos - workNanos > 0 <==> p.Sleep?
    ensures p.Sleep? ==> p.millis * NanosPerMilli + p.nanos == targetFrameNanos - workNanos
    ensures p.Sleep? ==> p.millis >= 0 && 0 <= p.nanos < NanosPerMilli
    ensures p != NoPause
  {
    var remaining := targetFrameNanos - workNanos;
    if remaining > 0 then
      var millis := remaining / NanosPerMilli;
      var nanos := remaining % NanosPerMilli;
      if millis > 0 || nanos > 0 then Sleep(millis, nanos) else NoPause
    else
      Yield
  }

  /** Nanoseconds the pause asks to sleep. */
  function SleptNanos(p: Pause): int
  {
    if p.Sleep? then p.millis * NanosPerMilli + p.nanos else 0
  }

  /** Work plus requested sleep fills the frame to its budget, or to the work time when the
      work ran over. */
  lemma FramePacing(targetFrameNanos: int, workNanos: int)
    ensures workNanos + SleptNanos(FramePause(targetFrameNanos, workNanos)) == Max(targetFrameNanos, workNanos)
  {
  }

  /** The seconds between two nanosecond timestamps, as handed to the updater. */
  function DeltaSeconds(frameStart: int, lastTime: int): (dt: real)
    ensures dt * 1_000_000_000.0 == (frameStart - lastTime) as real
  {
    (frameStart - lastTime) as real / 1_000_000_000.0
  }

  /** A callback invocation made during a frame. */
  datatype Call = UpdateCall(dt: real) | RenderCall

  /** The calls one frame makes: the updater with dt, then the renderer, each only if set. */
  function FrameCalls<U, R>(l: Loop<U, R>, dt: real): (calls: seq<Call>)
    ensures UpdateCall(dt) in calls <==> l.updater.Some?
    ensures RenderCall in calls <==> l.renderer.Some?
    ensures |calls| <= 2 && forall c :: c in calls ==> c == UpdateCall(dt) || c == RenderCall
    ensures |calls| == (if l.updater.Some? then 1 else 0) + (if l.renderer.Some? then 1 else 0)
    ensures l.updater.Some? && l.renderer.Some? ==> calls == [UpdateCall(dt), RenderCall]
  {
    (if l.updater.Some? then [UpdateCall(dt)] else []) + (if l.renderer.Some? then [RenderCall] else [])
  }

  /** The loop's frame counter and last published reading. */
  datatype FpsCounter = FpsCounter(frames: int, lastFpsTick: int, currentFps: int)

  /** Counts one frame at time now; once a second has passed since the last tick, the count
      (this frame included) is published and the window restarts at now. */
  function Tick(c: FpsCounter, now: int): (r: FpsCounter)
    ensures now - c.lastFpsTick >= NanosPerSecond ==> r == FpsCounter(0, now, c.frames + 1)
    ensures now - c.lastFpsTick < NanosPerSecond ==> r == c.(frames := c.frames + 1)
  {
    var frames := c.frames + 1;
    if now - c.lastFpsTick >= NanosPerSecond then FpsCounter(0, now, frames) else c.(frames := frames)
  }

  /** The counter after one tick per timestamp. */
  function TickAll(c: FpsCounter, nows: seq<int>): FpsCounter
    decreases |nows|
  {
    if |nows| == 0 then c else TickAll(Tick(c, nows[0]), nows[1..])
  }

  /** The readings published along the way, in order. */
  function Published(c: FpsCounter, nows: seq<int>): seq<int>
    decreases |nows|
  {
    if |nows| == 0 then []
    else
      var c1 := Tick(c, nows[0]);
      (if nows[0] - c.lastFpsTick >= NanosPerSecond then [c1.currentFps] else []) + Published(c1, nows[1..])
  }

  function Sum(s: seq<int>): int
  {
    if |s| == 0 then 0 else s[0] + Sum(s[1..])
  }

  lemma SumAppend(a: seq<int>, b: seq<int>)
    ensures Sum(a + b) == Sum(a) + Sum(b)
  {
    if |a| == 0 {
      assert a + b == b;
    } else {
      assert (a + b)[1..] == a[1..] + b;
      SumAppend(a[1..], b);
    }
  }

  /** Every frame is counted exactly once: the published readings plus the frames still in the
      current window account for all ticks. */
  lemma {:induction false} EveryFrameCounted(c: FpsCounter, nows: seq<int>)
    ensures Sum(Published(c, nows)) + TickAll(c, nows).frames == c.frames + |nows|
    decreases |nows|
  {
    if |nows| > 0 {
      var c1 := Tick(c, nows[0]);
      EveryFrameCounted(c1, nows[1..]);
      var head := if nows[0] - c.lastFpsTick >= NanosPerSecond then [c1.currentFps] else [];
      SumAppend(head, Published(c1, nows[1..]));
    }
  }

  /** Starting from a non-negative count, every published reading counts at least the frame
      that published it, and the count never goes negative. */
  lemma {:induction false} ReadingsArePositive(c: FpsCounter, nows: seq<int>)
    requires c.frames >= 0
    ensures forall i :: 0 <= i < |Published(c, nows)| ==> Published(c, nows)[i] >= 1
    ensures TickAll(c, nows).frames >= 0
    decreases |nows|
  {
    if |nows| > 0 {
      ReadingsArePositive(Tick(c, nows[0]), nows[1..]);
    }
  }

  /** The reading left at the end is the last one published, or the initial one if none was. */
  lemma {:induction false} LastReadingStays(c: FpsCounter, nows: seq<int>)
    ensures var p := Published(c, nows);
            TickAll(c, nows).currentFps == if |p| == 0 then c.currentFps else p[|p| - 1]
    decreases |nows|
  {
    if |nows| > 0 {
      LastReadingStays(Tick(c, nows[0]), nows[1..]);
    }
  }

  /** The three clock readings of one loop iteration: at frame start, after the callbacks and
      after the pause. */
  datatype FrameTimes = FrameTimes(frameStart: int, afterWork: int, now: int)

  /** What one iteration did: the callbacks it made and the pause it took. */
  datatype FrameRecord = FrameRecord(calls: seq<Call>, pause: Pause)

  /** The loop thread's local state: the previous frame start and the fps counter. */
  datatype LoopState = LoopState(lastTime: int, fps: FpsCounter)

  /** The state when runLoop starts at time start: both clocks at start, no frames counted. */
  function InitialState(start: int, currentFps: int): (s: LoopState)
    ensures s.lastTime == start && s.fps == FpsCounter(0, start, currentFps)
  {
    LoopState(start, FpsCounter(0, start, currentFps))
  }

  /** The record of a frame that started at f.frameStart when the previous one started at
      previous: the callbacks with the time between the two starts, and the pause for what is
      left of the budget after the frame's own work. */
  function FrameOf<U, R>(l: Loop<U, R>, previous: int, f: FrameTimes): FrameRecord
  {
    FrameRecord(FrameCalls(l, DeltaSeconds(f.frameStart, previous)),
                FramePause(l.targetFrameNanos, f.afterWork - f.frameStart))
  }

  /** One iteration of runLoop: the frame start becomes lastTime; the frame is counted, and
      published when a second has passed since the last tick; each set callback is called
      once, the updater with the seconds since the previous frame start; and the work plus the
      requested sleep fill the frame budget (or just the work, when it ran over). */
  function Iterate<U, R>(l: Loop<U, R>, s: LoopState, f: FrameTimes): (r: (LoopState, FrameRecord))
    ensures r.0.lastTime == f.frameStart
    ensures f.now - s.fps.lastFpsTick >= NanosPerSecond ==> r.0.fps == FpsCounter(0, f.now, s.fps.frames + 1)
    ensures f.now - s.fps.lastFpsTick < NanosPerSecond ==> r.0.fps == s.fps.(frames := s.fps.frames + 1)
    ensures forall c :: c in r.1.calls ==>
              c == RenderCall || (c.UpdateCall? && c.dt * 1_000_000_000.0 == (f.frameStart - s.lastTime) as real)
    ensures (exists c :: c in r.1.calls && c.UpdateCall?) <==> l.updater.Some?
    ensures RenderCall in r.1.calls <==> l.renderer.Some?
    ensures |r.1.calls| == (if l.updater.Some? then 1 else 0) + (if l.renderer.Some? then 1 else 0)
    ensures r.1.pause.Sleep? <==> l.targetFrameNanos - (f.afterWork - f.frameStart) > 0
    ensures (f.afterWork - f.frameStart) + SleptNanos(r.1.pause) == Max(l.targetFrameNanos, f.afterWork - f.frameStart)
  {
    var dt := DeltaSeconds(f.frameStart, s.lastTime);
    var calls := FrameCalls(l, dt);
    var pause := FramePause(l.targetFrameNanos, f.afterWork - f.frameStart);
    FramePacing(l.targetFrameNanos, f.afterWork - f.frameStart);
    assert l.updater.Some? ==> UpdateCall(dt) in calls;
    (LoopState(f.frameStart, Tick(s.fps, f.now)), FrameRecord(calls, pause))
  }

  /** The iterations of runLoop over a trace of clock readings, one per frame, while running
      stays true. */
  function Run<U, R>(l: Loop<U, R>, s: LoopState, trace: seq<FrameTimes>): (r: (LoopState, seq<FrameRecord>))
    ensures |r.1| == |trace|
    decreases |trace|
  {
    if |trace| == 0 then (s, [])
    else
      var (s1, rec) := Iterate(l, s, trace[0]);
      var (sf, recs) := Run(l, s1, trace[1..]);
      (sf, [rec] + recs)
  }

  /** The clock readings taken after each frame's pause. */
  function Nows(trace: seq<FrameTimes>): (nows: seq<int>)
    ensures |nows| == |trace| && forall i :: 0 <= i < |trace| ==> nows[i] == trace[i].now
  {
    seq(|trace|, i requires 0 <= i < |trace| => trace[i].now)
  }

  /** The start of the frame before frame i: the previous frame's start, or the loop's start
      time for the first frame. */
  function PreviousStart(s: LoopState, trace: seq<FrameTimes>, i: nat): int
    requires i < |trace|
  {
    if i == 0 then s.lastTime else trace[i - 1].frameStart
  }

  /** Frame i hands the updater the time since the previous frame started, and sleeps for the
      budget left after its own work. */
  lemma {:induction false} RunFrames<U, R>(l: Loop<U, R>, s: LoopState, trace: seq<FrameTimes>)
    ensures forall i :: 0 <= i < |trace| ==>
              Run(l, s, trace).1[i] == FrameOf(l, PreviousStart(s, trace, i), trace[i])
    decreases |trace|
  {
    if |trace| > 0 {
      var (s1, rec) := Iterate(l, s, trace[0]);
      var rest := Run(l, s1, trace[1..]).1;
      assert Run(l, s, trace).1 == [rec] + rest;
      RunFrames(l, s1, trace[1..]);
      forall i | 0 < i < |trace|
        ensures Run(l, s, trace).1[i] == FrameOf(l, PreviousStart(s, trace, i), trace[i])
      {
        assert Run(l, s, trace).1[i] == rest[i - 1];
        assert trace[1..][i - 1] == trace[i];
        assert PreviousStart(s1, trace[1..], i - 1) == PreviousStart(s, trace, i);
      }
    }
  }

  /** The loop's fps counter after a trace is the counter ticked once per frame at that
      frame's final clock reading; the last frame start becomes lastTime. */
  lemma {:induction false} RunCountsFrames<U, R>(l: Loop<U, R>, s: LoopState, trace: seq<FrameTimes>)
    ensures Run(l, s, trace).0.fps == TickAll(s.fps, Nows(trace))
    ensures |trace| > 0 ==> Run(l, s, trace).0.lastTime == trace[|trace| - 1].frameStart
    ensures |trace| == 0 ==> Run(l, s, trace).0 == s
    decreases |trace|
  {
    if |trace| > 0 {
      var (s1, rec) := Iterate(l, s, trace[0]);
      RunCountsFrames(l, s1, trace[1..]);
      assert Nows(trace)[1..] == Nows(trace[1..]);
    }
  }
}
