/** The player's per-tick systems: the clip table, horizontal movement, jump
    and attack initiation, the sword swing timer, rise and fall, the
    animation-state priority rules and facing. Each Bevy system is a pure
    function of the components it reads; `dt` is the tick's elapsed seconds. */
module Player {
  import opened Wrappers
  import opened Geometry
  import opened Animation
  import opened Entity

  const PLAYER_VELOCITY_X: real := 260.0
  const PLAYER_VELOCITY_Y: real := 280.0
  const MAX_JUMP_HEIGHT: real := 120.0
  /** Ascent speed of `rise`, in units per second. */
  const RISE_SPEED: real := 650.0
  /** Descent speed of `fall`, in units per second. */
  const FALL_SPEED: real := PLAYER_VELOCITY_Y / 0.95
  /** Length of a sword swing, in seconds. */
  const SWING_SECONDS: real := 0.5

  datatype PlayerAnimationState = Idle | Running | Falling | Jump | Attack

  /** The clip table: the sheet frames, frame period and looping of each state. */
  function ClipOf(s: PlayerAnimationState): (c: Clip)
    ensures c.Valid()
    ensures c.frameSeconds > 0.0
    ensures c.repeat <==> (s == Idle || s == Running)
  {
    match s
    case Idle => Clip(5, 20, 1.0 / 12.0, true)
    case Running => Clip(28, 34, 1.0 / 12.0, true)
    case Falling => Clip(20, 22, 1.0 / 2.0, false)
    case Jump => Clip(26, 28, 1.0 / 2.0, false)
    case Attack => Clip(0, 5, 1.0 / 8.0, false)
  }

  /** The sheet layout read the other way: which state's clip plays frame `i`. */
  function StateShowing(i: nat): Option<PlayerAnimationState> {
    if i < 5 then Some(Attack)
    else if i < 20 then Some(Idle)
    else if i < 22 then Some(Falling)
    else if i < 26 then None
    else if i < 28 then Some(Jump)
    else if i < 34 then Some(Running)
    else None
  }

  /** The clip table and the sheet layout agree frame by frame. */
  lemma ClipTableLayout(s: PlayerAnimationState, i: nat)
    ensures ClipOf(s).InRange(i) <==> StateShowing(i) == Some(s)
  {
  }

  /** Distinct states never share a sheet frame. */
  lemma ClipRangesDisjoint(a: PlayerAnimationState, b: PlayerAnimationState)
    requires a != b
    ensures forall i: nat :: !(ClipOf(a).InRange(i) && ClipOf(b).InRange(i))
  {
    forall i: nat
      ensures !(ClipOf(a).InRange(i) && ClipOf(b).InRange(i))
    {
      ClipTableLayout(a, i);
      ClipTableLayout(b, i);
    }
  }

  /** The idle loop, entered at its first frame, is back there after fifteen
      firings: it has shown frames 5 through 19 and wrapped once. */
  lemma IdleWrapsAfterFifteen()
    ensures Play(ClipOf(Idle), 5, 15) == 5
    ensures Play(ClipOf(Idle), 5, 14) == 19
  {
    LoopClosedForm(ClipOf(Idle), 15);
    LoopClosedForm(ClipOf(Idle), 14);
  }

  /** Keys held this tick: Left, Right, Up (jump) and X (attack). */
  datatype Input = Input(left: bool, right: bool, up: bool, attack: bool)

  /** What the kinematic character controller reported for the last tick. */
  datatype ControllerOutput = ControllerOutput(grounded: bool, desired: Vec2)

  datatype ActorStatus = ActorStatus(attacking: bool, attackTimer: real)

  /** The attack state: the `Swing` tag (elapsed seconds) and the status. */
  datatype Combat = Combat(swing: Option<real>, status: ActorStatus)

  /** The controller's requested translation, and the `Jump` tag (risen units). */
  datatype Ascent = Ascent(translation: Vec2, jump: Option<real>)

  datatype Direction = Right | Left

  function YOf(translation: Option<Vec2>): real {
    match translation
    case Some(v) => v.y
    case None => 0.0
  }

  function XOf(translation: Option<Vec2>): real {
    match translation
    case Some(v) => v.x
    case None => 0.0
  }

  /** `movement`: the horizontal request from the arrow keys. */
  function Movement(input: Input, dt: real, translation: Option<Vec2>): (r: Vec2)
    ensures input.right && !input.left ==> r.x == PLAYER_VELOCITY_X * dt
    ensures input.left && !input.right ==> r.x == -PLAYER_VELOCITY_X * dt
    ensures input.left == input.right ==> r.x == 0.0
    ensures translation.Some? ==> r.y == translation.value.y
    ensures translation.None? ==> r.y == 0.0
  {
    var toRight := if input.right then dt * PLAYER_VELOCITY_X else 0.0;
    var toLeft := if input.left then dt * PLAYER_VELOCITY_X * -1.0 else 0.0;
    Vec2(0.0 + toRight + toLeft, YOf(translation))
  }

  /** `jump`: a grounded player holding Up, not already jumping, gets `Jump(0.0)`. */
  function JumpStart(input: Input, output: Option<ControllerOutput>, jump: Option<real>): (r: Option<real>)
    ensures r != jump <==> jump.None? && input.up && output.Some? && output.value.grounded
    ensures r != jump ==> r == Some(0.0)
  {
    match output
    case Some(out) => if jump.None? && input.up && out.grounded then Some(0.0) else jump
    case None => jump
  }

  /** `start_attack`: a grounded player holding X, not already swinging,
      starts attacking with a fresh `Swing(0.0)`. */
  function StartAttack(input: Input, output: Option<ControllerOutput>, c: Combat): (r: Combat)
    ensures r != c <==> c.swing.None? && input.attack && output.Some? && output.value.grounded
    ensures r != c ==> r.swing == Some(0.0) && r.status.attacking && r.status.attackTimer == c.status.attackTimer
    ensures r.status.attacking ==> c.status.attacking || r.swing == Some(0.0)
  {
    match output
    case Some(out) =>
      if c.swing.None? && input.attack && out.grounded then Combat(Some(0.0), c.status.(attacking := true))
      else c
    case None => c
  }

  /** `swing_sword`: the swing accumulates `dt`; once it reaches half a second
      the player stops attacking and the `Swing` tag is removed. */
  function SwingSword(dt: real, c: Combat): (r: Combat)
    ensures c.swing.None? ==> r == c
    ensures c.swing.Some? ==> (r.swing.None? <==> c.swing.value + dt >= SWING_SECONDS)
    ensures c.swing.Some? && r.swing.Some? ==> r.swing.value == c.swing.value + dt && r.status == c.status
    ensures c.swing.Some? && r.swing.None? ==> r.status == c.status.(attacking := false)
  {
    match c.swing
    case None => c
    case Some(s) =>
      if dt + s >= SWING_SECONDS then Combat(None, c.status.(attacking := false))
      else Combat(Some(s + dt), c.status)
  }

  predicate NonNegative(dts: seq<real>) {
    forall i :: 0 <= i < |dts| ==> dts[i] >= 0.0
  }

  function Sum(dts: seq<real>): (r: real)
    ensures NonNegative(dts) ==> r >= 0.0
    decreases |dts|
  {
    if |dts| == 0 then 0.0 else dts[0] + Sum(dts[1..])
  }

  /** `swing_sword` over consecutive ticks. */
  function SwingRun(c: Combat, dts: seq<real>): Combat
    decreases |dts|
  {
    if |dts| == 0 then c else SwingRun(SwingSword(dts[0], c), dts[1..])
  }

  /** A swing at `s` seconds is still on after ticks totalling `T` exactly
      when `s + T` is under half a second; the player attacks for as long. */
  lemma {:induction false} SwingLasts(s: real, status: ActorStatus, dts: seq<real>)
    requires 0.0 <= s < SWING_SECONDS && status.attacking
    requires NonNegative(dts)
    ensures var r := SwingRun(Combat(Some(s), status), dts);
            (r.status.attacking <==> s + Sum(dts) < SWING_SECONDS) &&
            (r.swing.Some? <==> s + Sum(dts) < SWING_SECONDS) &&
            (r.swing.Some? ==> r.swing.value == s + Sum(dts))
    decreases |dts|
  {
    if |dts| > 0 {
      assert NonNegative(dts[1..]) by {
        forall i | 0 <= i < |dts[1..]| ensures dts[1..][i] >= 0.0 {
          assert dts[1..][i] == dts[i + 1];
        }
      }
      var c1 := SwingSword(dts[0], Combat(Some(s), status));
      if c1.swing.Some? {
        SwingLasts(s + dts[0], status, dts[1..]);
      } else {
        SwingStaysOff(c1, dts[1..]);
      }
    }
  }

  lemma {:induction false} SwingStaysOff(c: Combat, dts: seq<real>)
    requires c.swing.None?
    ensures SwingRun(c, dts) == c
    decreases |dts|
  {
    if |dts| > 0 {
      SwingStaysOff(c, dts[1..]);
    }
  }

  /** The `Swing` tag is present exactly while the player is attacking. */
  predicate SwingConsistent(c: Combat) {
    c.status.attacking <==> c.swing.Some?
  }

  /** Starting and advancing a swing keep the tag and the flag in step, so
      every attack that starts satisfies the hypothesis of `SwingLasts`. */
  lemma SwingConsistencyPreserved(input: Input, output: Option<ControllerOutput>, dt: real, c: Combat)
    requires SwingConsistent(c)
    ensures SwingConsistent(StartAttack(input, output, c))
    ensures SwingConsistent(SwingSword(dt, c))
    ensures StartAttack(input, output, c) != c ==>
              var s := StartAttack(input, output, c);
              s.swing == Some(0.0) && 0.0 <= s.swing.value < SWING_SECONDS && s.status.attacking
  {
  }

  /** A present `Jump` tag holds a rise in `[0, MAX_JUMP_HEIGHT)`. */
  predicate JumpConsistent(jump: Option<real>) {
    jump.Some? ==> 0.0 <= jump.value < MAX_JUMP_HEIGHT
  }

  /** Starting a jump and then rising or falling keep the tag in range. */
  lemma JumpConsistencyPreserved(input: Input, output: Option<ControllerOutput>, dt: real,
                                 jump: Option<real>, translation: Option<Vec2>)
    requires JumpConsistent(jump)
    requires dt >= 0.0
    ensures JumpConsistent(JumpStart(input, output, jump))
    ensures JumpConsistent(Vertical(dt, jump, translation).jump)
  {
  }

  /** `rise`: ascend at a fixed speed, but never past the maximum jump height;
      the tick that reaches it removes the `Jump` tag. */
  function Rise(dt: real, jump: real, translation: Option<Vec2>): (r: Ascent)
    ensures r.translation.x == XOf(translation)
    ensures r.jump.Some? ==> r.jump.value == jump + r.translation.y && r.jump.value < MAX_JUMP_HEIGHT
    ensures r.jump.None? ==> jump + r.translation.y == MAX_JUMP_HEIGHT
    ensures 0.0 <= dt && jump <= MAX_JUMP_HEIGHT ==> 0.0 <= r.translation.y <= RISE_SPEED * dt
    ensures r.translation.y == MinR(RISE_SPEED * dt, MAX_JUMP_HEIGHT - jump)
    ensures r.jump.None? <==> RISE_SPEED * dt + jump >= MAX_JUMP_HEIGHT
  {
    var movement := dt * RISE_SPEED;
    if movement + jump >= MAX_JUMP_HEIGHT then
      Ascent(Vec2(XOf(translation), MAX_JUMP_HEIGHT - jump), None)
    else
      Ascent(Vec2(XOf(translation), movement), Some(jump + movement))
  }

  /** Two ticks of a tenth of a second from the ground: 65 units, then the
      remaining 55, and the jump is over. */
  lemma RiseScenario()
    ensures Rise(0.1, 0.0, None) == Ascent(Vec2(0.0, 65.0), Some(65.0))
    ensures Rise(0.1, 65.0, None) == Ascent(Vec2(0.0, 55.0), None)
  {
  }

  /** `fall`: descend at a constant speed. */
  function Fall(dt: real, translation: Option<Vec2>): (r: Vec2)
    ensures r.x == XOf(translation)
    ensures dt >= 0.0 ==> r.y <= 0.0
    ensures r.y * 0.95 == -dt * PLAYER_VELOCITY_Y
  {
    Vec2(XOf(translation), dt * FALL_SPEED * -1.0)
  }

  /** The vertical systems: `rise` while the `Jump` tag is present, `fall` otherwise. */
  function Vertical(dt: real, jump: Option<real>, translation: Option<Vec2>): (r: Ascent)
    ensures r.translation.x == XOf(translation)
    ensures jump.Some? ==> r == Rise(dt, jump.value, translation)
    ensures jump.None? ==> r.translation == Fall(dt, translation) && r.jump.None?
  {
    match jump
    case Some(j) => Rise(dt, j, translation)
    case None => Ascent(Fall(dt, translation), None)
  }

  /** Total rise over consecutive ticks while the `Jump` tag lasts. */
  datatype Climb = Climb(risen: real, jump: Option<real>)

  function RiseRun(jump: real, dts: seq<real>): Climb
    decreases |dts|
  {
    if |dts| == 0 then Climb(0.0, Some(jump))
    else
      var a := Rise(dts[0], jump, None);
      match a.jump
      case None => Climb(a.translation.y, None)
      case Some(j) =>
        var rest := RiseRun(j, dts[1..]);
        Climb(a.translation.y + rest.risen, rest.jump)
  }

  /** Over any sequence of ticks a jump climbs monotonically, never beyond the
      maximum jump height, and its tag disappears exactly when it gets there. */
  lemma {:induction false} JumpNeverExceedsMax(jump: real, dts: seq<real>)
    requires 0.0 <= jump <= MAX_JUMP_HEIGHT
    requires NonNegative(dts)
    ensures var c := RiseRun(jump, dts);
            0.0 <= c.risen && jump + c.risen <= MAX_JUMP_HEIGHT &&
            (c.jump.None? ==> jump + c.risen == MAX_JUMP_HEIGHT) &&
            (c.jump.Some? ==> c.jump.value == jump + c.risen) &&
            c.risen == MinR(RISE_SPEED * Sum(dts), MAX_JUMP_HEIGHT - jump) &&
            (jump < MAX_JUMP_HEIGHT ==> (c.jump.Some? <==> jump + c.risen < MAX_JUMP_HEIGHT))
    decreases |dts|
  {
    if |dts| > 0 {
      var a := Rise(dts[0], jump, None);
      if a.jump.Some? {
        assert NonNegative(dts[1..]) by {
          forall i | 0 <= i < |dts[1..]| ensures dts[1..][i] >= 0.0 {
            assert dts[1..][i] == dts[i + 1];
          }
        }
        JumpNeverExceedsMax(a.jump.value, dts[1..]);
      }
    }
  }

  /** `movement` and `rise`/`fall` run unordered in the same tick; each keeps
      the other's axis, so either order yields the same request, whatever the
      previous request was. */
  lemma MovementCommutesWithVertical(input: Input, dt: real, jump: Option<real>,
                                     prev: Option<Vec2>, other: Option<Vec2>)
    ensures Vertical(dt, jump, Some(Movement(input, dt, prev))).translation
         == Movement(input, dt, Some(Vertical(dt, jump, prev).translation))
    ensures Vertical(dt, jump, Some(Movement(input, dt, prev))).translation
         == Vertical(dt, jump, Some(Movement(input, dt, other))).translation
  {
  }

  /** `apply_movement_animation`: strict priority, first match wins. */
  function ApplyMovementAnimation(status: ActorStatus, output: Option<ControllerOutput>,
                                  s: PlayerAnimationState): (r: PlayerAnimationState)
    ensures output.None? ==> r == s
    ensures output.Some? && status.attacking ==> r == Attack
    ensures output.Some? && !status.attacking && output.value.grounded ==>
              (r == Running <==> output.value.desired.x != 0.0) &&
              (r == Idle <==> output.value.desired.x == 0.0)
    ensures output.Some? && !status.attacking && !output.value.grounded ==>
              (output.value.desired.y > 0.0 ==> r == Jump) &&
              (output.value.desired.y < 0.0 ==> r == Falling) &&
              (output.value.desired.y == 0.0 ==> r == s)
  {
    match output
    case None => s
    case Some(out) =>
      if status.attacking then Attack
      else if out.desired.x != 0.0 && out.grounded then Running
      else if out.desired.x == 0.0 && out.grounded then Idle
      else if out.desired.y > 0.0 && !out.grounded then Jump
      else if out.desired.y < 0.0 && !out.grounded then Falling
      else s
  }

  /** The resolved state depends on the previous one only for an airborne,
      non-attacking player with no vertical request. */
  lemma AnimationStateIsMemoryless(status: ActorStatus, out: ControllerOutput,
                                   s1: PlayerAnimationState, s2: PlayerAnimationState)
    requires status.attacking || out.grounded || out.desired.y != 0.0
    ensures ApplyMovementAnimation(status, Some(out), s1) == ApplyMovementAnimation(status, Some(out), s2)
  {
  }

  /** Resolving twice with the same inputs changes nothing more. */
  lemma AnimationStateIdempotent(status: ActorStatus, output: Option<ControllerOutput>, s: PlayerAnimationState)
    ensures var r := ApplyMovementAnimation(status, output, s);
            ApplyMovementAnimation(status, output, r) == r
  {
  }

  /** `update_direction`: a positive request faces `Left`, a negative one
      `Right`, no horizontal request keeps the facing. */
  function UpdateDirection(output: Option<ControllerOutput>, d: Direction): (r: Direction)
    ensures output.Some? && output.value.desired.x > 0.0 ==> r == Left
    ensures output.Some? && output.value.desired.x < 0.0 ==> r == Right
    ensures output.None? || output.value.desired.x == 0.0 ==> r == d
  {
    match output
    case None => d
    case Some(out) =>
      if out.desired.x > 0.0 then Left
      else if out.desired.x < 0.0 then Right
      else d
  }

  /** `update_sprite_direction`: the sprite is mirrored exactly when facing `Right`. */
  function FlipX(d: Direction): (flip: bool)
    ensures flip <==> d == Right
  {
    match d
    case Right => true
    case Left => false
  }

  /** End to end, the sprite is mirrored exactly when the last request moved
      left, and keeps its mirroring when there was none. */
  lemma MirroredWhenMovingLeft(out: ControllerOutput, d: Direction)
    ensures out.desired.x != 0.0 ==> (FlipX(UpdateDirection(Some(out), d)) <==> out.desired.x < 0.0)
    ensures out.desired.x == 0.0 ==> FlipX(UpdateDirection(Some(out), d)) == FlipX(d)
  {
  }

  /** Holding Right for one tick of a tenth of a second requests 26 units. */
  lemma MovementScenario()
    ensures Movement(Input(false, true, false, false), 0.1, None) == Vec2(26.0, 0.0)
    ensures Movement(Input(true, true, false, false), 0.1, Some(Vec2(3.0, -4.0))) == Vec2(0.0, -4.0)
  {
  }

  /** An attack that plays out to its last frame sends `Finished`, and the
      finisher installs the successor's clip at its first frame. */
  lemma AttackFinishRebinds(e: EntityId, next: PlayerAnimationState -> Option<PlayerAnimationState>,
                            s: PlayerAnimationState)
    requires next(Attack) == Some(s)
    ensures var t := AnimateAll([Sprite(e, ClipOf(Attack), 4)], [true]);
            t.Success? && t.value.events == [Finished(e)] &&
            Finish(map[e := Bound(Attack, ClipOf(Attack), 4)], t.value.events, next, ClipOf)
              == Success(map[e := Bound(s, ClipOf(s), ClipOf(s).start)])
  {
    var t := AnimateAll([Sprite(e, ClipOf(Attack), 4)], [true]);
    assert Advance(ClipOf(Attack), 4, true) == Success(Frame(4, true));
    assert AnimateAll([Sprite(e, ClipOf(Attack), 4)][1..], [true][1..]) == Success(Tick([], []));
    assert t.value.events == [Finished(e)];
    var w := map[e := Bound(Attack, ClipOf(Attack), 4)];
    var b := Bound(s, ClipOf(s), ClipOf(s).start);
    assert w[e := b] == map[e := b];
    assert FinishOne(w, e, next, ClipOf) == Success(map[e := Bound(s, ClipOf(s), ClipOf(s).start)]);
    assert t.value.events[1..] == [];
  }
}
