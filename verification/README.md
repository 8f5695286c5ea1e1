# SimplEngine core, modelled in Dafny

SimplEngine is a small Java 2D game engine. This project models its sequential logic as pure
functions over immutable Dafny values and proves what that logic guarantees:

- **Vectors** (`vectors.dfy`): `Vector2`, its setters and its add/subtract overloads.
- **GameObjects** (`game_object.dfy`): the state every `GameObject` shares (position, speed,
  the boxed gravity flag, each nullable), the `update(dt)` integration step, the closed
  bounding-box test behind `intersects`, and closed forms for n updates.
- **Rects** and **Sprites** (`rect.dfy`, `sprite.dfy`): the size, scale and bounds of the two
  concrete game objects. This includes the argument checks and the `keepSize` rules of
  `setImageFromSubImage`. An image is reduced to its width and height. `ImageIO.read` becomes a
  value passed in (`ImageRead`).
- **Collisions** (`collision.dfy`): `intersects` applied to either kind of object.
- **Cameras** (`camera.dfy`): the camera singleton as one value: zoom and follow-speed clamps,
  the world/screen map and its inverse, and the easing `follow` step, with its convergence
  over many steps.
- **GameLoops** (`game_loop.dfy`):
  - the loop's configuration and running flag;
  - the integer arithmetic of `runLoop`: frame budget, sleep split and fps window;
  - the loop run over a trace of clock readings that is passed in.
- **Keys** and **Inputs** (`keys.dfy`, `input_manager.dfy`): the key-code table with its reverse
  lookup, and the three key sets of `InputManager`, which the listener updates and `update`
  clears.
- **Mice** (`mouse_manager.dfy`): button flags and pointer position of `MouseManager`.
- **Sounds** (`sound_player.dfy`): the case-insensitive format choice, the two preload
  registries and the lookup order of `playLoadedSound`. The effect of each call is a value
  (`Playback`): which player starts, or which error line is printed. Opening a WAV file is an
  outcome passed in.
- **Greetings** (`library.dfy`): `Library.greet`.

Modelling conventions:
- Java `double` and `float` are `real`; Java `int` and `long` are `int`.
- A nullable reference that the source checks for null (a body's speed and gravity flag, a
  sprite's image, the game loop's callbacks, a greeting name) is an `Option`. Vector arguments
  and the camera position are never null here (see "## Left out"). An exception is the
  `Failure` of a `Result`, or another explicit outcome value.
- Vectors and the camera position are held by value. `Vector2`'s constructor and getters are the
  datatype constructor `Vec2` and its fields. Because these are values, add and subtract can
  never change their operands.

## Model

| member | source | states |
|---|---|---|
| Vectors.WithX | src/main/java/com/example/simplengine/Vectors/Vector2.java:17-19 | setX replaces x and keeps y |
| Vectors.WithY | src/main/java/com/example/simplengine/Vectors/Vector2.java:25-27 | setY replaces y and keeps x |
| Vectors.Add | src/main/java/com/example/simplengine/Vectors/Vector2.java:29-31 | add(other) displaces the vector by exactly other on each axis |
| Vectors.AddScalars | src/main/java/com/example/simplengine/Vectors/Vector2.java:33-35 | add(dx, dy) displaces the vector by exactly (dx, dy) |
| Vectors.Subtract | src/main/java/com/example/simplengine/Vectors/Vector2.java:37-39 | subtract(other) is the vector that other displaces back to the receiver |
| Vectors.SubtractScalars | src/main/java/com/example/simplengine/Vectors/Vector2.java:41-43 | subtract(dx, dy) is the vector that (dx, dy) displaces back to the receiver |
| Vectors.OverloadsAgree | src/main/java/com/example/simplengine/Vectors/Vector2.java:29-43 | add(v) equals add(v.x, v.y), and subtract(v) equals subtract(v.x, v.y) |
| Vectors.AddThenSubtract | src/main/java/com/example/simplengine/Vectors/Vector2.java:29-43 | subtracting undoes adding and adding undoes subtracting, for both overloads |
| Vectors.SettersAreIndependent | src/main/java/com/example/simplengine/Vectors/Vector2.java:17-27 | setX and setY commute, each touches only its own component, and setting the current value changes nothing |
| Vectors.ChainedExamples | src/test/java/com/example/simplengine/Vectors/Vector2Test.java:211-233 | (10,20).add(5,10).subtract(3,5) is (12,25); (1,2).add((3,4)).subtract((5,6)).add(2,2) is (1,2) |
| Vectors.ChainComposes | src/main/java/com/example/simplengine/Vectors/Vector2.java:29-43 | add then subtract is one translation by the difference of the displacements |
| GameObjects.SetSpeed | src/main/java/com/example/simplengine/GameObjects/GameObject.java:21-27 | getSpeed returns what setSpeed stored (null included); position and gravity are kept |
| GameObjects.SetPosition | src/main/java/com/example/simplengine/GameObjects/GameObject.java:64-70 | getPosition returns what setPosition stored; speed and gravity are kept |
| GameObjects.SetHasGravity | src/main/java/com/example/simplengine/GameObjects/GameObject.java:56-62 | getHasGravity returns what setHasGravity stored; position and speed are kept |
| GameObjects.Accelerate | src/main/java/com/example/simplengine/GameObjects/GameObject.java:33-37 | with gravity on, speed.y gains exactly 981*dt and speed.x is kept; with it off the speed is unchanged |
| GameObjects.Update | src/main/java/com/example/simplengine/GameObjects/GameObject.java:29-41 | afterwards neither position nor speed is null; the unboxing fails exactly when the gravity flag is null, and then the nulls have already been replaced by zero vectors |
| GameObjects.UpdateIntegrates | src/main/java/com/example/simplengine/GameObjects/GameObject.java:35-40 | semi-implicit Euler: the speed is accelerated first, and the new speed times dt moves the position |
| GameObjects.UpdateOnce | src/main/java/com/example/simplengine/GameObjects/GameObject.java:33-40 | one update written out per component with the acceleration the flag selects (981 or 0) |
| GameObjects.UpdateWithoutGravity | src/main/java/com/example/simplengine/GameObjects/GameObject.java:35-40 | with gravity off the speed is kept and the position moves by exactly speed*dt |
| GameObjects.UpdateWithGravity | src/main/java/com/example/simplengine/GameObjects/GameObject.java:33-40 | with gravity on speed.y grows by 981*dt before it moves position.y, so y gains speed.y*dt + 981*dt*dt; speed.x is kept |
| GameObjects.UpdateTreatsNullAsZero | src/main/java/com/example/simplengine/GameObjects/GameObject.java:30-31 | a null position or speed integrates exactly like the zero vector |
| GameObjects.NewBodyStaysAtRest | src/main/java/com/example/simplengine/GameObjects/GameObject.java:9-13 | a new object (origin, at rest, gravity off) is a fixed point of update |
| GameObjects.AccelerateBy | src/main/java/com/example/simplengine/GameObjects/GameObject.java:33-37 | the speed gain is the selected acceleration times dt |
| GameObjects.RunStepByStep | src/main/java/com/example/simplengine/GameObjects/GameObject.java:29-41 | n updates change speed.y by the step-by-step gain and the position by the step-by-step travel; speed.x and the flag are kept |
| GameObjects.TriangleClosedForm | src/main/java/com/example/simplengine/GameObjects/GameObject.java:35-40 | the triangular number behind the closed form is n(n+1)/2 |
| GameObjects.GainClosedForm | src/main/java/com/example/simplengine/GameObjects/GameObject.java:35-37 | n updates gain n*a*dt of speed |
| GameObjects.TravelClosedForm | src/main/java/com/example/simplengine/GameObjects/GameObject.java:35-40 | n updates travel n*v*dt + a*dt*dt*n(n+1)/2 (n+1, not n-1, because the gain is applied before the move) |
| GameObjects.RunSpeedClosedForm | src/main/java/com/example/simplengine/GameObjects/GameObject.java:29-41 | after n updates speed.y is the start value plus n*a*dt |
| GameObjects.RunPositionClosedForm | src/main/java/com/example/simplengine/GameObjects/GameObject.java:29-41 | after n updates position.y is the start value plus n*v*dt + a*dt*dt*n(n+1)/2 |
| GameObjects.Overlap | src/main/java/com/example/simplengine/GameObjects/GameObject.java:50-53 | the closed-interval overlap test of intersects; what it means is stated by GameObjects.OverlapSymmetric and GameObjects.OverlapIffSharedPoint |
| GameObjects.OverlapSymmetric | src/main/java/com/example/simplengine/GameObjects/GameObject.java:50-53 | the four-comparison test does not depend on argument order |
| GameObjects.OverlapIffSharedPoint | src/main/java/com/example/simplengine/GameObjects/GameObject.java:50-53 | for boxes of non-negative size the test holds exactly when the closed boxes share a point, so touching edges count |
| GameObjects.NegativeSizeOverlapsWithoutSharedPoint | src/main/java/com/example/simplengine/GameObjects/GameObject.java:50-53 | with a negative width the test reports an overlap with a box that contains no point |
| Rects.Width | src/main/java/com/example/simplengine/GameObjects/Rect.java:17-19 | getWidth reads the size vector's x; its contract is the one Rects.NewRect and Rects.SetSizeReversesConstructorOrder state through it |
| Rects.Height | src/main/java/com/example/simplengine/GameObjects/Rect.java:21-23 | getHeight reads the size vector's y, likewise |
| Rects.NewRect | src/main/java/com/example/simplengine/GameObjects/Rect.java:11-15 | the constructor gives size (width, height) and a fresh body moved to (posX, posY) |
| Rects.SetSize | src/main/java/com/example/simplengine/GameObjects/Rect.java:25-27 | setSize(a, b) makes the height a and the width b; the body is untouched |
| Rects.GetBounds | src/main/java/com/example/simplengine/GameObjects/Rect.java:47-56 | bounds exist exactly when the position is not null, at the position corner with the rect's width and height |
| Rects.SetSizeReversesConstructorOrder | src/main/java/com/example/simplengine/GameObjects/Rect.java:11-27 | setSize(h, w) yields the size the constructor gives for (w, h) |
| Rects.NewRectBounds | src/main/java/com/example/simplengine/GameObjects/Rect.java:11-15 | a constructed rect's bounds are (posX, posY, width, height) |
| Sprites.Width | src/main/java/com/example/simplengine/GameObjects/SpriteObject.java:140-142 | getWidth is an int, and for a non-negative scaled width inside the int range it is that width's whole part |
| Sprites.Height | src/main/java/com/example/simplengine/GameObjects/SpriteObject.java:149-151 | getHeight is an int, and for a non-negative scaled height inside the int range it is that height's whole part |
| Sprites.IntCast | src/main/java/com/example/simplengine/GameObjects/SpriteObject.java:140-151 | the (int) cast of getWidth/getHeight truncates toward zero and saturates at the int range |
| Sprites.Placed | src/main/java/com/example/simplengine/GameObjects/SpriteObject.java:28-88 | every constructor moves a fresh body to (posX, posY) and sets scale 1 on both axes |
| Sprites.FromFile | src/main/java/com/example/simplengine/GameObjects/SpriteObject.java:28-34 | succeeds exactly when the file decodes, with the image's size as base size; otherwise IOException |
| Sprites.FromFileSized | src/main/java/com/example/simplengine/GameObjects/SpriteObject.java:47-55 | as FromFile, but the given width and height replace the image's size |
| Sprites.Blank | src/main/java/com/example/simplengine/GameObjects/SpriteObject.java:66-71 | no image, base size 0 by 0, so the reported size is 0 by 0 |
| Sprites.FromImage | src/main/java/com/example/simplengine/GameObjects/SpriteObject.java:80-88 | succeeds exactly for a non-null image, taking its size; a null image is a NullPointerException |
| Sprites.SetScale | src/main/java/com/example/simplengine/GameObjects/SpriteObject.java:102-105 | only the two scale factors change |
| Sprites.SetUniformScale | src/main/java/com/example/simplengine/GameObjects/SpriteObject.java:107-110 | setScale(s) is setScale(s, s) |
| Sprites.SetSize | src/main/java/com/example/simplengine/GameObjects/SpriteObject.java:112-115 | only the base size changes |
| Sprites.SetImageKeep | src/main/java/com/example/simplengine/GameObjects/SpriteObject.java:182-188 | the image is always replaced; the base size becomes the image's only when keepSize is false and the image is not null |
| Sprites.SetImage | src/main/java/com/example/simplengine/GameObjects/SpriteObject.java:162-168 | setImage(img) is setImage(img, false) |
| Sprites.SetImageFromFile | src/main/java/com/example/simplengine/GameObjects/SpriteObject.java:170-173 | fails exactly when the read throws; a null read clears the image and keeps the size |
| Sprites.CheckRegion | src/main/java/com/example/simplengine/GameObjects/SpriteObject.java:218-231 | each of the three errors is reported exactly when its check is the first to fail |
| Sprites.SetImageFromSubImage | src/main/java/com/example/simplengine/GameObjects/SpriteObject.java:217-238 | fails exactly when a check fails, with that check's error; on success the image is the width-by-height region, the base size follows keepSize, and scale and body are kept |
| Sprites.SetImageFromSubImageFile | src/main/java/com/example/simplengine/GameObjects/SpriteObject.java:269-278 | a throwing or null read is an IOException; a decoded image goes through the same checks |
| Sprites.GetBounds | src/main/java/com/example/simplengine/GameObjects/SpriteObject.java:293-302 | bounds exist exactly when the position is not null, at the position with the scaled integer size |
| Sprites.SubImageSucceedsIffRegionInside | src/main/java/com/example/simplengine/GameObjects/SpriteObject.java:218-233 | the checks accept exactly the non-empty regions whose every pixel lies inside a non-null source |
| Sprites.SubImageIdempotent | src/main/java/com/example/simplengine/GameObjects/SpriteObject.java:217-238 | repeating a successful extraction changes nothing more |
| Sprites.UnitScaleKeepsBaseSize | src/main/java/com/example/simplengine/GameObjects/SpriteObject.java:122-151 | at scale 1 the reported size is the base size |
| Sprites.SubImageThenScaleExample | src/test/java/com/example/simplengine/GameObjects/SpriteTest.java:387-399 | at scale 2 a 32 by 32 region reports 64 by 64 while the base stays 32 by 32 |
| Sprites.ScaledSizeExamples | src/main/java/com/example/simplengine/GameObjects/SpriteObject.java:122-151 | a 100 by 50 base reports 200 by 100 at scale 2 and 200 by 25 at scales (2, 0.5); the base size ignores the scale |
| Sprites.FromFileReportsImageSize | src/main/java/com/example/simplengine/GameObjects/SpriteObject.java:28-34 | a sprite loaded from a file reports the image's size |
| Collisions.BoundsOf | src/main/java/com/example/simplengine/GameObjects/GameObject.java:45 | either kind of object has bounds exactly when its position is not null |
| Collisions.Intersects | src/main/java/com/example/simplengine/GameObjects/GameObject.java:47-54 | defined exactly when both positions are non-null, and then true exactly when the two bounds overlap in the closed test |
| Collisions.IntersectsSymmetric | src/main/java/com/example/simplengine/GameObjects/SpriteObject.java:304-312 | a.intersects(b) and b.intersects(a) agree for every mix of rects and sprites |
| Collisions.RectCollisionExamples | src/test/java/com/example/simplengine/CollisionTest.java:11-30 | edge-touching and overlapping rects intersect; a rect one unit clear does not |
| Collisions.RectsIntersectIffShareAPoint | src/main/java/com/example/simplengine/GameObjects/Rect.java:47-56 | two constructed rects of non-negative size intersect exactly when their closed boxes share a point |
| Cameras.SetPosition | src/main/java/com/example/simplengine/Camera/Camera.java:29-32 | the position becomes (x, y); zoom and follow speed are kept |
| Cameras.SetPositionVec | src/main/java/com/example/simplengine/Camera/Camera.java:34-36 | setPosition(v) equals setPosition(v.x, v.y) |
| Cameras.SetZoom | src/main/java/com/example/simplengine/Camera/Camera.java:42-44 | the zoom is max(0.1, z): never below 0.1, and z itself when z is at least 0.1 |
| Cameras.SetFollowSpeed | src/main/java/com/example/simplengine/Camera/Camera.java:89-91 | the follow speed is s clamped to [0.01, 1.0]: in range, s kept, and out of range, the nearer bound |
| Cameras.Move | src/main/java/com/example/simplengine/Camera/Camera.java:50-53 | the position is displaced by exactly (dx, dy) |
| Cameras.WorldToScreen | src/main/java/com/example/simplengine/Camera/Camera.java:55-59 | the screen offset from the centre is the world offset from the camera times the zoom |
| Cameras.ScreenToWorld | src/main/java/com/example/simplengine/Camera/Camera.java:61-65 | the world offset from the camera times the zoom is the screen offset from the centre |
| Cameras.CenterOn | src/main/java/com/example/simplengine/Camera/Camera.java:67-69 | centerOn(x, y) is a jump, equal to setPosition(x, y) |
| Cameras.CenterOnVec | src/main/java/com/example/simplengine/Camera/Camera.java:71-73 | centerOn(v) equals centerOn(v.x, v.y) |
| Cameras.LerpFactor | src/main/java/com/example/simplengine/Camera/Camera.java:77 | the factor is speed*dt*60 capped at 1 |
| Cameras.LerpOffset | src/main/java/com/example/simplengine/Camera/Camera.java:79-80 | a lerp by l scales the remaining offset to the target by 1 - l |
| Cameras.Follow | src/main/java/com/example/simplengine/Camera/Camera.java:75-83 | both coordinates are lerped toward the target by the same factor; zoom and follow speed are kept |
| Cameras.FollowVec | src/main/java/com/example/simplengine/Camera/Camera.java:85-87 | follow(v, dt) equals follow(v.x, v.y, dt) |
| Cameras.ValidIsInvariant | src/main/java/com/example/simplengine/Camera/Camera.java:12-16 | the initial camera has zoom at least 0.1 and follow speed in [0.01, 1], and every operation keeps that |
| Cameras.SetZoomExamples | src/test/java/com/example/simplengine/CameraTest.java:76-80 | setZoom(0.01) gives 0.1 and setZoom(5.0) gives 5.0 |
| Cameras.ClampsIdempotent | src/main/java/com/example/simplengine/Camera/Camera.java:42-44 | re-applying either clamp to its own result changes nothing |
| Cameras.PositionMapsToCentre | src/main/java/com/example/simplengine/Camera/Camera.java:55-59 | the camera position maps to the screen centre |
| Cameras.WorldToScreenExamples | src/test/java/com/example/simplengine/CameraTest.java:99-136 | on 800 by 600 the origin maps to (400, 300), and at zoom 2 (100, 0) maps to (600, 300) |
| Cameras.ScreenWorldRoundTrip | src/main/java/com/example/simplengine/Camera/Camera.java:55-65 | for a non-zero zoom, screenToWorld undoes worldToScreen and worldToScreen undoes screenToWorld |
| Cameras.FollowSnapsWhenLerpIsOne | src/main/java/com/example/simplengine/Camera/Camera.java:77-82 | when speed*dt*60 is at least 1, follow lands exactly on the target |
| Cameras.FollowApproachesStrictly | src/test/java/com/example/simplengine/CameraTest.java:195-269 | for a factor strictly between 0 and 1, each coordinate ends strictly between its old value and the target, and the distance strictly shrinks |
| Cameras.FollowMovesFurtherWhenFaster | src/main/java/com/example/simplengine/Camera/Camera.java:75-83 | on each axis and on either side of the target, a larger follow speed or dt ends no farther from the target, neither step overshoots it, and the faster step ends strictly closer while the smaller factor is below 1 and that axis is off target |
| Cameras.LerpCloser | src/main/java/com/example/simplengine/Camera/Camera.java:79-80 | a larger lerp factor in [0, 1] lands no farther from the target, on the same side, and strictly closer when it is larger and the start is off target |
| Cameras.FollowSteps | src/main/java/com/example/simplengine/Camera/Camera.java:75-83 | repeated follow steps keep zoom and follow speed |
| Cameras.FollowStepsAreLerps | src/main/java/com/example/simplengine/Camera/Camera.java:75-83 | n follow steps are n lerps of each coordinate by one fixed factor |
| Cameras.LerpStepsOffset | src/main/java/com/example/simplengine/Camera/Camera.java:79-80 | after n lerps the offset is the initial one times (1 - l)^n |
| Cameras.DecayBound | src/main/java/com/example/simplengine/Camera/Camera.java:77-80 | (1 - l)^n lies in [0, 1] and (1 - l)^n (1 + n l) is at most 1 |
| Cameras.FollowConverges | src/main/java/com/example/simplengine/Camera/Camera.java:75-83 | once n*l*tol covers the initial offset on both axes, n steps end within tol of the target |
| Cameras.FollowReachesTargetExample | src/main/java/com/example/simplengine/Camera/Camera.java:75-91 | at speed 0.5 and dt 1/60, 300 steps from the origin end within 1 of (100, 100) |
| GameLoops.FrameBudget | src/main/java/com/example/simplengine/GameLoop/GameLoop.java:62 | the budget is the largest number of nanoseconds that fits fps times into one second |
| GameLoops.FrameBudgetUnique | src/main/java/com/example/simplengine/GameLoop/GameLoop.java:6 | only one number has that property |
| GameLoops.NewLoop | src/main/java/com/example/simplengine/GameLoop/GameLoop.java:4-20 | 144 fps with its budget, not running, no thread, no callbacks, reading 0 |
| GameLoops.NewLoopWith | src/main/java/com/example/simplengine/GameLoop/GameLoop.java:22-25 | the defaults plus the two callbacks |
| GameLoops.SetTargetFps | src/main/java/com/example/simplengine/GameLoop/GameLoop.java:59-63 | a non-positive fps changes nothing; otherwise target and budget are replaced and nothing else changes |
| GameLoops.NewLoopWithFps | src/main/java/com/example/simplengine/GameLoop/GameLoop.java:27-31 | the three-argument constructor is the two-argument one followed by setTargetFps |
| GameLoops.Start | src/main/java/com/example/simplengine/GameLoop/GameLoop.java:33-39 | a no-op when running; otherwise running with a thread |
| GameLoops.Stop | src/main/java/com/example/simplengine/GameLoop/GameLoop.java:41-52 | never running afterwards, the thread dropped, and nothing else changed |
| GameLoops.SetUpdater | src/main/java/com/example/simplengine/GameLoop/GameLoop.java:56 | only the updater is replaced |
| GameLoops.SetRenderer | src/main/java/com/example/simplengine/GameLoop/GameLoop.java:57 | only the renderer is replaced |
| GameLoops.DefaultBudget | src/main/java/com/example/simplengine/GameLoop/GameLoop.java:4-6 | the default budget is 6_944_444 ns, and a non-positive fps in the constructor keeps the defaults |
| GameLoops.StartStop | src/main/java/com/example/simplengine/GameLoop/GameLoop.java:33-52 | start is idempotent, stop after start leaves the loop stopped, and stop is idempotent |
| GameLoops.FramePause | src/main/java/com/example/simplengine/GameLoop/GameLoop.java:86-102 | sleeps exactly when budget remains, with milliseconds times 10^6 plus a sub-millisecond rest equal to the remainder; otherwise yields |
| GameLoops.FramePacing | src/main/java/com/example/simplengine/GameLoop/GameLoop.java:86-102 | work plus requested sleep is the budget, or the work time when the work ran over |
| GameLoops.DeltaSeconds | src/main/java/com/example/simplengine/GameLoop/GameLoop.java:75 | dt times 10^9 is the nanoseconds between the two frame starts |
| GameLoops.FrameCalls | src/main/java/com/example/simplengine/GameLoop/GameLoop.java:78-84 | the updater is called with dt exactly when set, the renderer exactly when set, each at most once, updater first |
| GameLoops.Tick | src/main/java/com/example/simplengine/GameLoop/GameLoop.java:104-110 | each frame is counted; once a second has passed the count is published and the window restarts |
| GameLoops.EveryFrameCounted | src/main/java/com/example/simplengine/GameLoop/GameLoop.java:104-110 | published readings plus the open window's count account for every frame exactly once |
| GameLoops.ReadingsArePositive | src/main/java/com/example/simplengine/GameLoop/GameLoop.java:104-110 | every published reading is at least 1 |
| GameLoops.LastReadingStays | src/main/java/com/example/simplengine/GameLoop/GameLoop.java:107 | the reading left is the last one published, or the initial one |
| GameLoops.InitialState | src/main/java/com/example/simplengine/GameLoop/GameLoop.java:69-71 | both clocks start at the start time with no frames counted |
| GameLoops.Iterate | src/main/java/com/example/simplengine/GameLoop/GameLoop.java:73-111 | one iteration makes the frame start the new lastTime; counts the frame and publishes and restarts the counter once a second has passed since the last tick; calls each set callback once, the updater with the nanoseconds since the previous frame start as seconds; and requests a sleep exactly when the work left budget, the work plus the sleep filling the budget (or just the work, when it overran) |
| GameLoops.Run | src/main/java/com/example/simplengine/GameLoop/GameLoop.java:73-111 | one record per frame of the trace |
| GameLoops.Nows | src/main/java/com/example/simplengine/GameLoop/GameLoop.java:105 | the final reading of each frame, in order |
| GameLoops.RunFrames | src/main/java/com/example/simplengine/GameLoop/GameLoop.java:74-102 | frame i gets dt since the previous frame start (the loop start for the first) and the pause for its own work |
| GameLoops.RunCountsFrames | src/main/java/com/example/simplengine/GameLoop/GameLoop.java:69-110 | the counter after a run is the counter ticked once per frame; lastTime ends at the last frame start |
| Keys.KeyCode | src/main/java/com/example/simplengine/Inputs/Keys.java:8-87 | getKeyCode returns the code each constant is declared with, all between VK_BACK_SPACE (8) and VK_F12 (123); Keys.KeyCodesDistinct and Keys.KeyForCodeInverts state that they are distinct and mapped back |
| Keys.KeyForCodeSound | src/main/java/com/example/simplengine/Inputs/Keys.java:8-77 | a code the table maps is the code of the constant it maps to |
| Keys.KeyForCodeInverts | src/main/java/com/example/simplengine/Inputs/Keys.java:8-87 | the table maps every constant's code back to that constant |
| Keys.KeyCodesDistinct | src/main/java/com/example/simplengine/Inputs/Keys.java:8-77 | no two constants share a key code |
| Keys.AllKeysComplete | src/main/java/com/example/simplengine/Inputs/Keys.java:8-77 | values() has 60 entries and lists every constant |
| Keys.Lookup | src/main/java/com/example/simplengine/Inputs/Keys.java:90-93 | a found key is in the list with the code; nothing found exactly when no listed key has it |
| Keys.FromKeyCode | src/main/java/com/example/simplengine/Inputs/Keys.java:89-94 | a result has the code; null exactly when no constant has it |
| Keys.FromKeyCodeScan | src/main/java/com/example/simplengine/Inputs/Keys.java:89-94 | the loop over values() returns what fromKeyCode specifies |
| Keys.ScanKeys | src/main/java/com/example/simplengine/Inputs/Keys.java:90-93 | the early-return loop computes the first match of the list |
| Keys.FromKeyCodeRoundTrip | src/main/java/com/example/simplengine/Inputs/Keys.java:85-94 | fromKeyCode(k.getKeyCode()) is k for every constant |
| Keys.FromKeyCodeIsTable | src/main/java/com/example/simplengine/Inputs/Keys.java:89-94 | fromKeyCode agrees with the declaration table read backwards, for every int |
| Keys.PauseIsUnmapped | src/main/java/com/example/simplengine/Inputs/Keys.java:93 | VK_PAUSE (19) has no constant |
| Inputs.KeyPressed | src/main/java/com/example/simplengine/Inputs/InputManager.java:24-32 | an unmapped code changes nothing; otherwise exactly the mapped key becomes held, and it becomes just pressed exactly when it was not held; released keys are unchanged |
| Inputs.KeyReleased | src/main/java/com/example/simplengine/Inputs/InputManager.java:35-41 | an unmapped code changes nothing; otherwise exactly the mapped key stops being held and becomes just released; pressed keys are unchanged |
| Inputs.IsKeyPressed | src/main/java/com/example/simplengine/Inputs/InputManager.java:61-63 | membership in the just-pressed set; Inputs.HoldingDoesNotRetrigger and Inputs.ReplayJustPressed state when it holds |
| Inputs.IsKeyReleased | src/main/java/com/example/simplengine/Inputs/InputManager.java:65-67 | membership in the just-released set; Inputs.ReplayJustReleased states when it holds |
| Inputs.IsKeyDown | src/main/java/com/example/simplengine/Inputs/InputManager.java:69-71 | membership in the held set; Inputs.ReplayHeld states when it holds |
| Inputs.IsKeyUp | src/main/java/com/example/simplengine/Inputs/InputManager.java:73-75 | non-membership in the held set; Inputs.UpIsNotDown relates it to isKeyDown |
| Inputs.Press | src/main/java/com/example/simplengine/Inputs/InputManager.java:26-31 | the key is held; it is just pressed exactly when it already was or was up; released and other keys unchanged |
| Inputs.Release | src/main/java/com/example/simplengine/Inputs/InputManager.java:37-40 | the key is up and just released; pressed and other keys unchanged |
| Inputs.Update | src/main/java/com/example/simplengine/Inputs/InputManager.java:56-59 | nothing is just pressed or released afterwards, and every key is held exactly as before |
| Inputs.UpIsNotDown | src/main/java/com/example/simplengine/Inputs/InputManager.java:69-75 | isKeyUp is the negation of isKeyDown |
| Inputs.ValidIsInvariant | src/main/java/com/example/simplengine/Inputs/InputManager.java:24-59 | a just-pressed key is held or just released: true initially and kept by every handler and update |
| Inputs.HandlersUseTheKeyCode | src/main/java/com/example/simplengine/Inputs/InputManager.java:24-41 | an event with a constant's code acts on that constant |
| Inputs.UnmappedCodesAreIgnored | src/main/java/com/example/simplengine/Inputs/InputManager.java:25-26 | a code with no constant changes no set |
| Inputs.PauseIsIgnored | src/test/java/com/example/simplengine/InputManagerTest.java:95-102 | VK_PAUSE events change nothing |
| Inputs.HoldingDoesNotRetrigger | src/main/java/com/example/simplengine/Inputs/InputManager.java:27-29 | pressing a held key changes nothing; after an update a repeated press leaves it held but not just pressed |
| Inputs.PressOfAnUpKey | src/main/java/com/example/simplengine/Inputs/InputManager.java:24-32 | pressing an up key makes it held and just pressed, its released flag unchanged |
| Inputs.PressThenRelease | src/main/java/com/example/simplengine/Inputs/InputManager.java:24-41 | after press then release the key is up and just released |
| Inputs.KeysAreIndependent | src/test/java/com/example/simplengine/InputManagerTest.java:68-93 | with W and D held, S is up, and releasing W leaves D held |
| Inputs.ReplayIsPerKey | src/main/java/com/example/simplengine/Inputs/InputManager.java:24-59 | after any event sequence each key is held, just pressed and just released exactly as its own events and the updates dictate |
| Mice.Pressed | src/main/java/com/example/simplengine/Inputs/MouseManager.java:51-59 | each flag becomes true exactly when it was or the button is its own; the position is kept |
| Mice.Released | src/main/java/com/example/simplengine/Inputs/MouseManager.java:62-70 | each flag stays true exactly when it was and the button is not its own; the position is kept |
| Mice.MovedTo | src/main/java/com/example/simplengine/Inputs/MouseManager.java:88-97 | the position becomes the event's (x, y); the flags are kept |
| Mice.InitialState | src/main/java/com/example/simplengine/Inputs/MouseManager.java:12-17 | no button pressed, pointer at (0, 0) |
| Mice.OtherButtonsAreIgnored | src/main/java/com/example/simplengine/Inputs/MouseManager.java:51-70 | a button number other than 1, 2 or 3 changes nothing |
| Mice.OnlyTheMatchingFlagChanges | src/main/java/com/example/simplengine/Inputs/MouseManager.java:51-70 | each of the three buttons sets or clears only its own flag |
| Mice.PressThenRelease | src/main/java/com/example/simplengine/Inputs/MouseManager.java:51-70 | press then release equals release alone, and restores a state with all buttons up |
| Mice.NoOpHandlers | src/main/java/com/example/simplengine/Inputs/MouseManager.java:73-97 | clicked, entered and exited change nothing; moved and dragged agree |
| Mice.ReplayPosition | src/main/java/com/example/simplengine/Inputs/MouseManager.java:88-97 | after any events the pointer is where the last move or drag put it |
| Mice.ReplayButtons | src/main/java/com/example/simplengine/Inputs/MouseManager.java:51-70 | after any events a button is down exactly when its last press or release was a press |
| Sounds.LowerChar | src/main/java/com/example/simplengine/SimpleSound/SoundPlayer.java:33 | an ASCII capital maps to its small letter; every other character is kept |
| Sounds.Lower | src/main/java/com/example/simplengine/SimpleSound/SoundPlayer.java:100 | lower-casing keeps the length and maps each character |
| Sounds.FormatOf | src/main/java/com/example/simplengine/SimpleSound/SoundPlayer.java:33-45 | MP3 exactly when the last four characters lower-case to ".mp3", WAV exactly when they lower-case to ".wav" |
| Sounds.LowerIsIdempotent | src/main/java/com/example/simplengine/SimpleSound/SoundPlayer.java:33 | lower-casing twice is lower-casing once |
| Sounds.FormatIgnoresCase | src/main/java/com/example/simplengine/SimpleSound/SoundPlayer.java:100-107 | paths that lower-case alike have one format, the lower-cased path's |
| Sounds.FormatExamples | src/main/java/com/example/simplengine/SimpleSound/SoundPlayer.java:33-45 | ".MP3" and ".mp3" are MP3, ".Wav" is WAV, ".txt" and the bare "mp3" are unsupported |
| Sounds.PlaySound | src/main/java/com/example/simplengine/SimpleSound/SoundPlayer.java:27-46 | null is reported; otherwise the player the format selects plays the path as given, or the format error is reported |
| Sounds.LoadSound | src/main/java/com/example/simplengine/SimpleSound/SoundPlayer.java:89-121 | the name is checked before the path; no error exactly for an MP3 or a WAV that opens |
| Sounds.FailedLoadsChangeNothing | src/main/java/com/example/simplengine/SimpleSound/SoundPlayer.java:90-120 | a load that prints an error leaves both registries as they were |
| Sounds.Mp3LoadRecordsPath | src/main/java/com/example/simplengine/SimpleSound/SoundPlayer.java:103-104 | the name maps to the path as given, replacing any earlier entry; other names and the WAV registry are kept; no file is opened |
| Sounds.WavLoadRecordsClip | src/main/java/com/example/simplengine/SimpleSound/SoundPlayer.java:107-116 | an opened WAV maps the name to its clip; every other name keeps its registration and its clip, and the MP3 registry is unchanged |
| Sounds.ReloadKeepsSize | src/test/java/com/example/simplengine/SimpleSound/SoundPlayerTest.java:193-214 | reloading a name keeps the registry size; a new name adds one |
| Sounds.EmptyNameIsAccepted | src/test/java/com/example/simplengine/SimpleSound/SoundPlayerTest.java:258-270 | the empty string is a valid name |
| Sounds.PlayLoadedSound | src/main/java/com/example/simplengine/SimpleSound/SoundPlayer.java:127-147 | MP3 entry first, then WAV clip; an error, naming the sound ("null" for null), exactly when neither registry has it |
| Sounds.LoadThenPlay | src/main/java/com/example/simplengine/SimpleSound/SoundPlayer.java:103-144 | playing a just-loaded name plays what was loaded, except that an earlier MP3 of the same name shadows a WAV |
| Sounds.LoadKeepsOtherNames | src/main/java/com/example/simplengine/SimpleSound/SoundPlayer.java:89-147 | loading one name never changes what another name plays |
| Sounds.SeveralSounds | src/test/java/com/example/simplengine/SimpleSound/SoundPlayerTest.java:193-214 | three sounds under distinct names each play their own entry, and a fourth name is not loaded |
| Greetings.Greet | src/main/java/com/example/simplengine/Library.java:6-9 | starts with "Hello, ", ends with "!", and greets "World" for a null or blank name and the name itself otherwise |
| Greetings.NullOrBlankGreetsTheWorld | src/main/java/com/example/simplengine/Library.java:7-8 | null and blank names (empty, spaces, tabs, newlines) give "Hello, World!" |
| Greetings.OtherNamesAreGreetedVerbatim | src/main/java/com/example/simplengine/Library.java:7-8 | a non-blank name is greeted verbatim with no trimming, and distinct names give distinct greetings |
| Greetings.GreetExamples | src/main/java/com/example/simplengine/Library.java:7-8 | " Ana " greets as "Hello,  Ana !" |

## Left out

- Floating point: doubles and floats are reals. Rounding, NaN, infinities, the float narrowing
  in `Rectangle2D.Float` and in `setFollowSpeed`, and the exact values of the constants 0.1f and
  0.01f are not modelled. The round trips and convergence hold over the reals only.
- Integer overflow: Java `int` and `long` are mathematical integers. This covers `x + width` in
  `setImageFromSubImage` and the nanosecond differences in `runLoop`. The exception is the
  (int) cast of the scaled sprite size, which `Sprites.IntCast` models with truncation and
  saturation.
- Aliasing:
  - `Camera.setPosition(Vector2)` stores the caller's vector, which later `setPosition(x, y)` and
    `move` then change in place. The model copies it.
  - The setters of `GameObject` share the caller's vector, which `update` mutates.
  - `MouseManager.getMousePosition` hands out the live vector.
  - `Camera.getPosition` returns the camera's live vector, which later `setPosition(x, y)`,
    `move` and `follow` change in place; a caller's `setX` on it moves the camera.
  - `GameObject.getPosition` and `getSpeed` return the live vectors, which `update` then
    changes in place.
- Singletons: the three `getInstance` methods and their lazy initialisation are left out.
  `Camera.getInstance` uses double-checked locking; `InputManager.getInstance` and
  `MouseManager.getInstance` are plain unsynchronised null checks. Each singleton is one
  explicit state value.
- Threads and clocks: the `GameLoop` thread, `join(1000)`, `Thread.sleep`, `Thread.yield` and
  interrupts are left out. `System.nanoTime` becomes a trace of timestamps passed in.
  `GameLoops.Run` models one loop thread running while `running` stays true. A `stop` from
  another thread in the middle of a run is not modelled.
- GameLoops.Run: the whole trace runs against one `Loop` value. `runLoop` re-reads the volatile
  `targetFrameNanos` and the `updater` and `renderer` fields on every iteration, so a
  `setTargetFps`, `setUpdater` or `setRenderer` from another thread during a run is not
  modelled. The readings the run publishes live in the counter of the returned
  `LoopState` (`GameLoops.Published` lists them); they are not written back into the `Loop`'s
  `currentFps`.
- Inputs.Replay, Mice.Replay: each listener call and each `update` is one atomic step in a
  single order, visible at once to the next query. In the source the AWT event-dispatch thread
  runs the listeners while the game thread calls `update` and the queries.
  `InputManager` keeps its state in three unsynchronised `HashSet`s. `MouseManager`'s
  `leftPressed`, `middlePressed`, `rightPressed` and `mousePosition` are plain fields, not
  `volatile`. Races between the two threads are not modelled.
- Callbacks: the updater and renderer are opaque values. Only their presence and the calls made
  are modelled. Their exceptions, which the loop swallows, are not.
- Rendering: `render`, `Canvas` and `Graphics2D` drawing are left out.
- Images: `ImageIO.read` is an outcome passed in (`ImageRead`). A `BufferedImage` is only its
  size, and `getSubimage` yields an image of the region's size.
- Audio: the JLayer `Player`, `AudioSystem`, `Clip` and the MP3 playback thread are left out.
  Playback is described by a `Playback` value. An error line on standard error is a
  `ReportError` value. Opening a WAV file is an outcome passed in. Errors reported later, from
  the MP3 thread or from `playWav`, are not modelled.
- Sounds.Lower: `toLowerCase` is modelled on ASCII letters only. For the format test this loses
  nothing: no character outside ASCII lower-cases to any of '.', 'm', 'p', '3', 'w', 'a' or 'v',
  so whether a path ends in ".mp3" or ".wav" after lower-casing depends only on its ASCII
  characters. The lower-cased string itself is not used elsewhere.
- Greetings.IsWhitespace: `Character.isWhitespace` is a fixed table of the Unicode space, line
  and paragraph separators (no-break spaces excluded) plus the controls U+0009 to U+000D and
  U+001C to U+001F, following the Java documentation. Supplementary-plane characters are not
  considered.
- Collisions.Intersects: a null `other` (a NullPointerException before any bounds are read) is
  not modelled. Every object passed is a rect or a sprite.
- Cameras.SetPositionVec, Cameras.CenterOnVec, Cameras.FollowVec, Vectors.Add,
  Vectors.Subtract: a null vector argument is not modelled. `setPosition(null)` is accepted and
  stores null, after which `move`, `setPosition(x, y)`, `follow` and `worldToScreen` throw a
  NullPointerException. `centerOn(null)`, `follow(null, dt)`, `add(null)` and `subtract(null)`
  throw at once. In the model a vector is always present.
- `isKeyPressed(null)` and the other queries with a null key (always false) are not modelled.
  Keys are never null in the model.
- Behaviour kept as written: `playLoadedSound` looks up MP3 entries first. A name loaded as MP3
  and later as WAV therefore keeps playing the MP3 (`Sounds.LoadThenPlay`).
