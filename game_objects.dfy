/** The tile object model: `GameObject` (a mutable position with default no-op
    Update and Draw), `Tile` (one atlas region) and `AnimatedTile` (a cycle of
    frames advanced by a timer). The two concrete kinds share one class with a
    constant tag, `kind`, chosen by the named constructor; Update and Draw
    dispatch on it the way the source's virtual methods do. */
module GameObjects {
  import opened Framework
  import opened VirtualTextures

  /** What a game object is, fixed at construction. */
  datatype Kind =
    | StaticTile(region: VirtualTexture)
    | Animated(frames: seq<VirtualTexture>, delay: real)

  /** The mutable part of an animated tile: the frame shown and the time
      accumulated since the last frame change. */
  datatype AnimState = AnimState(currentFrame: int, timer: real)

  /** The state of an animated tile right after construction (C# leaves the
      timer at its default, 0). */
  const Fresh: AnimState := AnimState(0, 0.0)

  /** One Update of an animated tile with `frameCount` frames: accumulate `dt`;
      once the timer reaches `delay`, reset it to exactly 0 (dropping any
      excess) and move to the next frame, wrapping to 0 past the last. */
  function Step(s: AnimState, frameCount: int, delay: real, dt: real): (r: AnimState)
    ensures 0 <= s.currentFrame < frameCount ==>
              (r.currentFrame == s.currentFrame && r.timer == s.timer + dt)
              || (r.currentFrame == (s.currentFrame + 1) % frameCount && r.timer == 0.0)
  {
    var timer := s.timer + dt;
    if timer >= delay then
      var next := s.currentFrame + 1;
      AnimState(if next >= frameCount then 0 else next, 0.0)
    else
      AnimState(s.currentFrame, timer)
  }

  /** A sequence of Updates, one per element of `dts`. */
  function Run(s: AnimState, frameCount: int, delay: real, dts: seq<real>): AnimState
    decreases |dts|
  {
    if dts == [] then s else Run(Step(s, frameCount, delay, dts[0]), frameCount, delay, dts[1..])
  }

  /** The invariant Update keeps when the delay is positive and time does not
      run backwards: a valid frame index and a timer in [0, delay). */
  predicate Settled(s: AnimState, frameCount: int, delay: real) {
    0 <= s.currentFrame < frameCount && 0.0 <= s.timer < delay
  }

  // ---------------------------------------------------------------------
  // The animation state machine

  /** Below the delay, an Update only accumulates time. */
  lemma StepAccumulates(s: AnimState, frameCount: int, delay: real, dt: real)
    requires s.timer + dt < delay
    ensures Step(s, frameCount, delay, dt) == AnimState(s.currentFrame, s.timer + dt)
  {
  }

  /** At or past the delay, an Update advances exactly one frame modulo the
      frame count and resets the timer to 0, however large `dt` is. */
  lemma StepAdvancesOnce(s: AnimState, frameCount: int, delay: real, dt: real)
    requires 0 <= s.currentFrame < frameCount
    requires s.timer + dt >= delay
    ensures Step(s, frameCount, delay, dt) == AnimState((s.currentFrame + 1) % frameCount, 0.0)
  {
  }

  /** An Update never moves more than one frame forward. */
  lemma StepMovesAtMostOneFrame(s: AnimState, frameCount: int, delay: real, dt: real)
    requires 0 <= s.currentFrame < frameCount
    ensures var r := Step(s, frameCount, delay, dt);
            r.currentFrame == s.currentFrame || r.currentFrame == (s.currentFrame + 1) % frameCount
  {
    if s.timer + dt >= delay {
      StepAdvancesOnce(s, frameCount, delay, dt);
    }
  }

  /** With a non-empty frame list the frame index stays valid, for any `dt`. */
  lemma StepKeepsFrameInRange(s: AnimState, frameCount: int, delay: real, dt: real)
    requires 0 <= s.currentFrame < frameCount
    ensures 0 <= Step(s, frameCount, delay, dt).currentFrame < frameCount
  {
  }

  /** With a positive delay and a non-negative `dt`, an Update keeps the frame
      valid and leaves the timer in [0, delay). */
  lemma StepKeepsSettled(s: AnimState, frameCount: int, delay: real, dt: real)
    requires 0 <= s.currentFrame < frameCount && 0.0 <= s.timer
    requires delay > 0.0 && dt >= 0.0
    ensures Settled(Step(s, frameCount, delay, dt), frameCount, delay)
  {
  }

  /** Any run of non-negative Updates from a settled state stays settled. */
  lemma {:induction false} RunKeepsSettled(s: AnimState, frameCount: int, delay: real, dts: seq<real>)
    requires Settled(s, frameCount, delay)
    requires forall i :: 0 <= i < |dts| ==> dts[i] >= 0.0
    ensures Settled(Run(s, frameCount, delay, dts), frameCount, delay)
    decreases |dts|
  {
    if dts != [] {
      StepKeepsSettled(s, frameCount, delay, dts[0]);
      RunKeepsSettled(Step(s, frameCount, delay, dts[0]), frameCount, delay, dts[1..]);
    }
  }

  /** `k` Updates of exactly `delay` each, starting on frame `j mod n` with an
      empty timer, end on frame `(j + k) mod n` with an empty timer. */
  lemma {:induction false} RunWholeDelaysFrom(j: nat, k: nat, frameCount: int, delay: real)
    requires frameCount > 0
    ensures Run(AnimState(j % frameCount, 0.0), frameCount, delay, seq(k, _ => delay))
            == AnimState((j + k) % frameCount, 0.0)
    decreases k
  {
    if k > 0 {
      var dts := seq(k, _ => delay);
      var s := AnimState(j % frameCount, 0.0);
      ModNext(j, frameCount);
      assert Step(s, frameCount, delay, delay) == AnimState((j + 1) % frameCount, 0.0);
      assert dts[1..] == seq(k - 1, _ => delay);
      RunWholeDelaysFrom(j + 1, k - 1, frameCount, delay);
    }
  }

  /** From a fresh tile, `k` Updates of exactly `delay` each show frame
      `k mod n`. */
  lemma RunWholeDelays(k: nat, frameCount: int, delay: real)
    requires frameCount > 0
    ensures Run(Fresh, frameCount, delay, seq(k, _ => delay)).currentFrame == k % frameCount
  {
    RunWholeDelaysFrom(0, k, frameCount, delay);
  }

  /** Four frames, a delay of 0.15 and three Updates of 0.05: the first two only
      accumulate, the third reaches the delay and moves from frame 0 to 1. */
  lemma ThreeShortUpdatesExample()
    ensures Run(Fresh, 4, 0.15, [0.05]) == AnimState(0, 0.05)
    ensures Run(Fresh, 4, 0.15, [0.05, 0.05]) == AnimState(0, 0.10)
    ensures Run(Fresh, 4, 0.15, [0.05, 0.05, 0.05]) == AnimState(1, 0.0)
  {
    assert [0.05, 0.05][1..] == [0.05];
    assert [0.05, 0.05, 0.05][1..] == [0.05, 0.05];
  }

  // ---------------------------------------------------------------------
  // The objects

  class GameObject {
    /** The position, updated in place by the setters. */
    var position: Vec2
    /** Tile or animated tile, with its region(s) and delay; never changes. */
    const kind: Kind
    /** The animated tile's frame index and timer; a static tile keeps both 0. */
    var currentFrame: int
    var timer: real

    ghost predicate Valid()
      reads this
    {
      match kind
      case StaticTile(_) => currentFrame == 0 && timer == 0.0
      case Animated(frames, _) => 0 <= currentFrame && (currentFrame < |frames| || currentFrame == 0)
    }

    function State(): AnimState
      reads this
    {
      AnimState(currentFrame, timer)
    }

    /** `Tile(position, texture)`: stores both unchanged. */
    constructor Tile(position: Vec2, texture: VirtualTexture)
      ensures this.position == position && kind == StaticTile(texture)
      ensures State() == Fresh && Valid()
    {
      this.position := position;
      kind := StaticTile(texture);
      currentFrame := 0;
      timer := 0.0;
    }

    /** `AnimatedTile(frames, delay, position)`: stores the arguments and starts
        on frame 0 with an empty timer. The frame list is not checked for
        emptiness. */
    constructor AnimatedTile(frames: seq<VirtualTexture>, delay: real, position: Vec2)
      ensures this.position == position && kind == Animated(frames, delay)
      ensures State() == Fresh && Valid()
    {
      this.position := position;
      kind := Animated(frames, delay);
      currentFrame := 0;
      timer := 0.0;
    }

    method GetPosition() returns (p: Vec2)
      ensures p == position
    {
      p := position;
    }

    /** Replaces the whole position and nothing else. */
    method SetPosition(value: Vec2)
      modifies this
      ensures position == value
      ensures State() == old(State())
    {
      position := value;
    }

    method GetX() returns (x: real)
      ensures x == position.x
    {
      x := position.x;
    }

    /** Replaces the x component only; y and the animation state are kept. */
    method SetX(value: real)
      modifies this
      ensures position == Vec2(value, old(position).y)
      ensures State() == old(State())
    {
      position := position.(x := value);
    }

    method GetY() returns (y: real)
      ensures y == position.y
    {
      y := position.y;
    }

    /** Replaces the y component only; x and the animation state are kept. */
    method SetY(value: real)
      modifies this
      ensures position == Vec2(old(position).x, value)
      ensures State() == old(State())
    {
      position := position.(y := value);
    }

    /** The default Update of every game object: changes nothing. */
    method BaseUpdate(dt: real)
      ensures unchanged(this)
    {
    }

    /** The default Draw of every game object: issues no blit. */
    method BaseDraw() returns (emitted: seq<Blit>)
      ensures emitted == []
    {
      emitted := [];
    }

    /** The animated tile's Update: one step of its state machine. */
    method UpdateAnimated(dt: real)
      requires kind.Animated?
      modifies this
      ensures position == old(position)
      ensures State() == Step(old(State()), |kind.frames|, kind.delay, dt)
      ensures old(Valid()) ==> Valid()
    {
      timer := timer + dt;
      if timer >= kind.delay {
        timer := 0.0;
        currentFrame := currentFrame + 1;
        if currentFrame >= |kind.frames| {
          currentFrame := 0;
        }
      }
    }

    /** The virtual Update: a static tile keeps the default, an animated tile
        steps. The position is never touched. */
    method Update(dt: real)
      modifies this
      ensures position == old(position)
      ensures old(Valid()) ==> Valid()
      ensures kind.StaticTile? ==> State() == old(State())
      ensures kind.Animated? ==> State() == Step(old(State()), |kind.frames|, kind.delay, dt)
    {
      if kind.StaticTile? {
        BaseUpdate(dt);
      } else {
        UpdateAnimated(dt);
      }
    }

    /** The static tile's Draw: one white blit of its region at the current
        position. */
    method DrawTile() returns (emitted: seq<Blit>)
      requires kind.StaticTile?
      ensures emitted == [Blit(kind.region.texture, kind.region.source, position, White)]
    {
      emitted := [Render(kind.region, position, White)];
    }

    /** The animated tile's Draw: one white blit of the current frame at the
        current position; with a non-empty frame list the index is in range. */
    method DrawAnimated() returns (emitted: seq<Blit>)
      requires kind.Animated? && |kind.frames| > 0 && Valid()
      ensures 0 <= currentFrame < |kind.frames|
      ensures emitted == [Blit(kind.frames[currentFrame].texture, kind.frames[currentFrame].source,
                               position, White)]
    {
      emitted := [Render(kind.frames[currentFrame], position, White)];
    }

    /** The virtual Draw: every tile issues exactly one blit, at its current
        position. */
    method Draw() returns (emitted: seq<Blit>)
      requires Valid()
      requires kind.Animated? ==> |kind.frames| > 0
      ensures kind.StaticTile? ==> emitted == [Render(kind.region, position, White)]
      ensures kind.Animated? ==> emitted == [Render(kind.frames[currentFrame], position, White)]
    {
      if kind.StaticTile? {
        emitted := DrawTile();
      } else {
        emitted := DrawAnimated();
      }
    }
  }
}
