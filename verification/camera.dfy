/** `camera_fit_inside_current_level`: fit a 16:9 viewport to the level and,
    when the level is wider than the screen, follow the player horizontally
    with a dead zone, never showing past the level's left or right edge. */
module Camera {
  import opened Wrappers
  import opened Geometry
  import opened Entity


  const ASPECT_RATIO: real := 16.0 / 9.0
  /** Dead-zone half width; zero means the camera always follows. */
  const THRESHOLD: real := 0.0

  /** Level size in pixels. */
  datatype LevelDims = LevelDims(pxHei: int, pxWid: int)

  /** The dimensions the game hard-codes for its one level. */
  const CURRENT_LEVEL: LevelDims := LevelDims(288, 2416)

  /** The fixed scaling mode of the orthographic projection. */
  datatype Viewport = Viewport(width: real, height: real)

  datatype Cam = Cam(entity: EntityId, viewport: Viewport, translation: Vec2)

  /** A relative move request for the parallax renderer. */
  datatype MoveEvent = MoveEvent(cameraMoveSpeed: Vec2, camera: EntityId)

  /** `f32::clamp` panics when its lower bound exceeds its upper bound. */
  datatype CameraFault = ClampBoundsInverted

  datatype LevelFit = LevelFit(camera: Cam, event: Option<MoveEvent>)

  datatype Framing = Framing(camera: Cam, events: seq<MoveEvent>)

  /** `f32::round`: to the nearest integer, halfway cases away from zero. */
  function Round(x: real): (r: int)
    ensures r as real - 0.5 <= x <= r as real + 0.5
    ensures x >= 0.0 ==> x < r as real + 0.5
    ensures x < 0.0 ==> r as real - 0.5 < x
  {
    if x >= 0.0 then (x + 0.5).Floor else -((-x + 0.5).Floor)
  }

  predicate WiderThanScreen(dims: LevelDims)
    requires dims.pxHei > 0
  {
    dims.pxWid as real / dims.pxHei as real > ASPECT_RATIO
  }

  /** Height-led fit: the level height rounded to a multiple of 9. */
  function WideViewport(dims: LevelDims): (v: Viewport)
    ensures v.width * 9.0 == v.height * 16.0
    ensures dims.pxHei as real - 4.5 <= v.height <= dims.pxHei as real + 4.5
    ensures exists k: int :: v.height == (9 * k) as real
    ensures dims.pxHei >= 0 ==> dims.pxHei as real - 4.5 < v.height
  {
    var k := Round(dims.pxHei as real / 9.0);
    var height := (k * 9) as real;
    assert height == (9 * k) as real;
    Viewport(height * ASPECT_RATIO, height)
  }

  /** Width-led fit: the level width rounded to a multiple of 16. */
  function TallViewport(dims: LevelDims): (v: Viewport)
    ensures v.width * 9.0 == v.height * 16.0
    ensures dims.pxWid as real - 8.0 <= v.width <= dims.pxWid as real + 8.0
    ensures exists k: int :: v.width == (16 * k) as real
    ensures dims.pxWid >= 0 ==> dims.pxWid as real - 8.0 < v.width
  {
    var k := Round(dims.pxWid as real / 16.0);
    var width := (k * 16) as real;
    assert width == (16 * k) as real;
    Viewport(width, width / ASPECT_RATIO)
  }

  /** The horizontal follow step: no move inside the dead zone; otherwise a
      move that would re-centre the player, pulled back so the viewport
      starts no further left than the level's left edge, then (checked
      second) ends no further right than its right edge. */
  function FollowDelta(playerX: real, camX: real, width: real, pxWid: real): (r: Option<real>)
    ensures r.None? <==> Abs(playerX - camX - width / 2.0) <= THRESHOLD
    ensures r.Some? ==> camX + r.value <= pxWid / 2.0 - width
    ensures r.Some? && width <= pxWid ==>
              camX + r.value == Clamp(playerX - width / 2.0, -pxWid / 2.0, pxWid / 2.0 - width)
    ensures r.Some? && width > pxWid ==> camX + r.value == pxWid / 2.0 - width
  {
    var delta := playerX - camX - width / 2.0;
    if Abs(delta) > THRESHOLD then
      var moveBy := if delta > 0.0 then delta - THRESHOLD else delta + THRESHOLD;
      var moveBy' := if camX + moveBy < -pxWid / 2.0 then -pxWid / 2.0 - camX else moveBy;
      var moveBy'' := if camX + moveBy' > pxWid / 2.0 - width then pxWid / 2.0 - camX - width else moveBy';
      Some(moveBy'')
    else
      None
  }

  /** Away from the level edges the follow step re-centres the player. */
  lemma FollowRecentres(playerX: real, camX: real, width: real, pxWid: real)
    requires -pxWid / 2.0 <= playerX - width / 2.0 <= pxWid / 2.0 - width
    ensures match FollowDelta(playerX, camX, width, pxWid)
            case None => camX + width / 2.0 == playerX
            case Some(m) => camX + m + width / 2.0 == playerX
  {
  }

  /** The tall branch's camera height: the player's offset from the level,
      less half the viewport, clamped so the viewport stays in the level. */
  function TallY(player: Vec2, level: Vec2, dims: LevelDims): real
    requires dims.pxHei as real >= TallViewport(dims).height
  {
    var height := TallViewport(dims).height;
    Clamp(player.y - level.y - height / 2.0, 0.0, dims.pxHei as real - height)
  }

  /** The camera after handling one level entity. */
  function FitLevel(player: Vec2, level: Vec2, dims: LevelDims, cam: Cam): (r: Result<LevelFit, CameraFault>)
    requires dims.pxHei > 0
    ensures r.Failure? <==> !WiderThanScreen(dims) && dims.pxHei as real < TallViewport(dims).height
    ensures r.Success? ==> r.value.camera.entity == cam.entity
    ensures r.Success? && WiderThanScreen(dims) ==>
              r.value.camera.viewport == WideViewport(dims) &&
              r.value.camera.translation == Vec2(cam.translation.x, -(dims.pxHei as real) / 2.0)
    ensures r.Success? && !WiderThanScreen(dims) ==>
              r.value.camera.viewport == TallViewport(dims) && r.value.event.None? &&
              r.value.camera.translation.x == 0.0 &&
              0.0 <= r.value.camera.translation.y <= dims.pxHei as real - TallViewport(dims).height &&
              r.value.camera.translation.y == TallY(player, level, dims)
    ensures r.Success? && WiderThanScreen(dims) ==>
              (r.value.event.Some? <==>
               FollowDelta(player.x, cam.translation.x, WideViewport(dims).width, dims.pxWid as real).Some?)
    ensures r.Success? && r.value.event.Some? ==>
              r.value.event.value.camera == cam.entity &&
              r.value.event.value.cameraMoveSpeed.y == 0.0 &&
              Some(r.value.event.value.cameraMoveSpeed.x)
                == FollowDelta(player.x, cam.translation.x, WideViewport(dims).width, dims.pxWid as real)
  {
    if WiderThanScreen(dims) then
      var vp := WideViewport(dims);
      var cam' := cam.(viewport := vp, translation := Vec2(cam.translation.x, -(dims.pxHei as real) / 2.0));
      match FollowDelta(player.x, cam.translation.x, vp.width, dims.pxWid as real)
      case None => Success(LevelFit(cam', None))
      case Some(m) => Success(LevelFit(cam', Some(MoveEvent(Vec2(m, 0.0), cam.entity))))
    else
      var vp := TallViewport(dims);
      var hi := dims.pxHei as real - vp.height;
      if 0.0 > hi then Failure(ClampBoundsInverted)
      else
        var y := Clamp(player.y - level.y - vp.height / 2.0, 0.0, hi);
        Success(LevelFit(cam.(viewport := vp, translation := Vec2(0.0, y)), None))
  }

  /** The loop over level entities, in query order. */
  function FitLevels(player: Vec2, levels: seq<Vec2>, dims: LevelDims, cam: Cam): (r: Result<Framing, CameraFault>)
    requires dims.pxHei > 0
    ensures |levels| == 0 ==> r == Success(Framing(cam, []))
    ensures r.Failure? <==> |levels| > 0 && !WiderThanScreen(dims) && dims.pxHei as real < TallViewport(dims).height
    ensures r.Success? ==> r.value.camera.entity == cam.entity && |r.value.events| <= |levels|
    ensures r.Success? ==> forall ev :: ev in r.value.events ==>
              ev.camera == cam.entity && ev.cameraMoveSpeed.y == 0.0 &&
              Some(ev.cameraMoveSpeed.x)
                == FollowDelta(player.x, cam.translation.x, WideViewport(dims).width, dims.pxWid as real)
    ensures r.Success? && |levels| > 0 && WiderThanScreen(dims) ==>
              r.value.camera.viewport == WideViewport(dims) &&
              r.value.camera.translation == Vec2(cam.translation.x, -(dims.pxHei as real) / 2.0)
    ensures r.Success? && |levels| > 0 && !WiderThanScreen(dims) ==>
              r.value.camera.viewport == TallViewport(dims) && r.value.events == [] &&
              r.value.camera.translation.x == 0.0 &&
              0.0 <= r.value.camera.translation.y <= dims.pxHei as real - TallViewport(dims).height &&
              r.value.camera.translation.y == TallY(player, levels[|levels| - 1], dims)
    ensures r.Success? && WiderThanScreen(dims) ==>
              |r.value.events| ==
              if FollowDelta(player.x, cam.translation.x, WideViewport(dims).width, dims.pxWid as real).Some?
              then |levels| else 0
    decreases |levels|
  {
    if |levels| == 0 then Success(Framing(cam, []))
    else
      match FitLevel(player, levels[0], dims, cam)
      case Failure(f) => Failure(f)
      case Success(fit) =>
        match FitLevels(player, levels[1..], dims, fit.camera)
        case Failure(f) => Failure(f)
        case Success(rest) =>
          var head := if fit.event.Some? then [fit.event.value] else [];
          Success(Framing(rest.camera, head + rest.events))
  }

  /** The whole system: nothing happens unless exactly one player exists. */
  function CameraFit(players: seq<Vec2>, cam: Cam, levels: seq<Vec2>, dims: LevelDims): (r: Result<Framing, CameraFault>)
    requires dims.pxHei > 0
    ensures |players| != 1 ==> r == Success(Framing(cam, []))
    ensures |levels| == 0 ==> r == Success(Framing(cam, []))
    ensures r.Success? ==> forall ev :: ev in r.value.events ==> ev.camera == cam.entity && ev.cameraMoveSpeed.y == 0.0
    ensures |players| == 1 && |levels| > 0 && WiderThanScreen(dims) ==>
              r.Success? &&
              r.value.camera.viewport == WideViewport(dims) &&
              r.value.camera.translation == Vec2(cam.translation.x, -(dims.pxHei as real) / 2.0) &&
              |r.value.events| ==
                (if FollowDelta(players[0].x, cam.translation.x, WideViewport(dims).width, dims.pxWid as real).Some?
                 then |levels| else 0) &&
              forall ev :: ev in r.value.events ==>
                Some(ev.cameraMoveSpeed.x)
                  == FollowDelta(players[0].x, cam.translation.x, WideViewport(dims).width, dims.pxWid as real)
    ensures |players| == 1 && |levels| > 0 && !WiderThanScreen(dims) ==>
              (r.Failure? <==> dims.pxHei as real < TallViewport(dims).height) &&
              (r.Success? ==>
                 r.value.camera.viewport == TallViewport(dims) && r.value.events == [] &&
                 r.value.camera.translation == Vec2(0.0, TallY(players[0], levels[|levels| - 1], dims)))
  {
    if |players| != 1 then Success(Framing(cam, []))
    else FitLevels(players[0], levels, dims, cam)
  }

  /** The hard-coded level is wider than 16:9, so it is framed 512 by 288 and
      the camera only ever pans between the level's edges. */
  lemma CurrentLevelFraming(player: Vec2, cam: Cam, levels: seq<Vec2>)
    requires |levels| > 0
    ensures WiderThanScreen(CURRENT_LEVEL)
    ensures WideViewport(CURRENT_LEVEL) == Viewport(512.0, 288.0)
    ensures var r := CameraFit([player], cam, levels, CURRENT_LEVEL);
            r.Success? &&
            r.value.camera.viewport == Viewport(512.0, 288.0) &&
            r.value.camera.translation == Vec2(cam.translation.x, -144.0) &&
            forall ev :: ev in r.value.events ==>
              -1208.0 <= cam.translation.x + ev.cameraMoveSpeed.x <= 696.0
  {
    assert Round(288.0 / 9.0) == 32;
    var r := FitLevels(player, levels, CURRENT_LEVEL, cam);
    forall ev | ev in r.value.events
      ensures -1208.0 <= cam.translation.x + ev.cameraMoveSpeed.x <= 696.0
    {
    }
  }

  /** A 24 by 14 level is taller than 16:9, but its width rounds up to 32 and
      the 18-pixel-high viewport no longer fits: the vertical clamp faults. */
  lemma TallClampFault(player: Vec2, cam: Cam, level: Vec2)
    ensures !WiderThanScreen(LevelDims(14, 24))
    ensures CameraFit([player], cam, [level], LevelDims(14, 24)) == Failure(ClampBoundsInverted)
  {
    assert Round(24.0 / 16.0) == 2;
  }
}
