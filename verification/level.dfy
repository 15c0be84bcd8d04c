/** `setup_level`: each pair of corners becomes a fixed cuboid collider whose
    sprite size, centre and half-extents are derived from the corners. */
module Level {
  import opened Geometry

  datatype Coordinates = Coordinates(from: Vec2, to: Vec2)

  /** A ground platform: sprite size, centre, and collider half-extents. */
  datatype Platform = Platform(size: Vec2, translation: Vec2, halfExtents: Vec2)
  {
    function Left(): real { translation.x - halfExtents.x }
    function Right(): real { translation.x + halfExtents.x }
    function Bottom(): real { translation.y - halfExtents.y }
    function Top(): real { translation.y + halfExtents.y }
  }

  /** The collider a pair of corners yields. */
  function PlatformOf(c: Coordinates): (p: Platform)
    ensures p.size.x >= 0.0 && p.size.y >= 0.0
    ensures p.Left() == MinR(c.from.x, c.to.x) && p.Right() == MaxR(c.from.x, c.to.x)
    ensures p.Bottom() == MinR(c.from.y, c.to.y) && p.Top() == MaxR(c.from.y, c.to.y)
    ensures p.size.x == p.Right() - p.Left() && p.size.y == p.Top() - p.Bottom()
  {
    var hi := c.from.Max(c.to);
    var lo := c.from.Min(c.to);
    var size := Vec2(hi.x - lo.x, hi.y - lo.y);
    var translation := Vec2((c.from.x + c.to.x) * 0.5, (c.from.y + c.to.y) * 0.5);
    Platform(size, translation, Vec2(size.x * 0.5, size.y * 0.5))
  }

  /** The corners may be given in either order. */
  lemma CornerOrderIrrelevant(c: Coordinates)
    ensures PlatformOf(Coordinates(c.to, c.from)) == PlatformOf(c)
  {
  }

  /** The four hard-coded ground segments, in the level's centred frame. */
  const GROUND: seq<Coordinates> := [
    Coordinates(Vec2(2234.0 - 1208.0, -144.0), Vec2(2416.0 - 1208.0, -84.0)),
    Coordinates(Vec2(1633.0 - 1208.0, -144.0), Vec2(2100.0 - 1208.0, -84.0)),
    Coordinates(Vec2(1162.0 - 1208.0, -144.0), Vec2(1539.0 - 1208.0, -84.0)),
    Coordinates(Vec2(-1208.0, -144.0), Vec2(1080.0 - 1208.0, -84.0))
  ]

  /** One platform per pair of corners, in order. */
  function SetupLevel(coords: seq<Coordinates>): (ps: seq<Platform>)
    ensures |ps| == |coords|
    ensures forall i :: 0 <= i < |ps| ==>
              ps[i].Left() == MinR(coords[i].from.x, coords[i].to.x) &&
              ps[i].Right() == MaxR(coords[i].from.x, coords[i].to.x) &&
              ps[i].Bottom() == MinR(coords[i].from.y, coords[i].to.y) &&
              ps[i].Top() == MaxR(coords[i].from.y, coords[i].to.y)
  {
    seq(|coords|, i requires 0 <= i < |coords| => PlatformOf(coords[i]))
  }

  /** The ground lies within the 2416-pixel-wide level, in the band
      60 pixels above its bottom, and no two segments overlap. */
  lemma GroundLayout()
    ensures var ps := SetupLevel(GROUND);
            |ps| == 4 &&
            (forall i :: 0 <= i < |ps| ==>
               -1208.0 <= ps[i].Left() && ps[i].Right() <= 1208.0 &&
               ps[i].Bottom() == -144.0 && ps[i].Top() == -84.0) &&
            (forall i, j :: 0 <= i < j < |ps| ==> ps[i].Right() < ps[j].Left() || ps[j].Right() < ps[i].Left())
  {
    var ps := SetupLevel(GROUND);
    assert ps[0].Left() == 1026.0 && ps[0].Right() == 1208.0;
    assert ps[1].Left() == 425.0 && ps[1].Right() == 892.0;
    assert ps[2].Left() == -46.0 && ps[2].Right() == 331.0;
    assert ps[3].Left() == -1208.0 && ps[3].Right() == -128.0;
  }
}
