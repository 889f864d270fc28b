/** The exploded 3D view of the building (symulacja/src/components/Building3D.tsx):
    one slab per listed floor, stacked by list position, and one figure per
    telemetry entry standing on the slab of its floor. The API's horizontal
    plane (x, y) becomes the scene's (x, z), the scene's y pointing up. */
module Scene3D {
  import opened Wrappers
  import opened Types
  import opened Palette
  import Seqs

  /** Vertical distance between consecutive slabs. */
  const SlabSpacing: real := 4.0

  /** How far above its slab a figure is placed. */
  const StandHeight: real := 0.5

  /** Height of the camera's target point. */
  const TargetHeight: real := 5.0

  datatype Point = Point(x: real, y: real, z: real)

  datatype Slab = Slab(title: string, centre: Point, width: real, depth: real)

  datatype Figure = Figure(key: string, position: Point, colour: Colour, caption: string)

  /** The view: a placeholder until a building is known. */
  datatype Scene = Placeholder | Rendered(target: Point, slabs: seq<Slab>, figures: seq<Figure>)

  /** Position `k` holds the first listed floor numbered `number`. */
  ghost predicate FirstListedAt(floors: seq<FloorInfo>, k: int, number: int) {
    0 <= k < |floors| && floors[k].number == number &&
    forall j :: 0 <= j < k ==> floors[j].number != number
  }

  /** Some listed floor is numbered `number`. */
  ghost predicate Listed(floors: seq<FloorInfo>, number: int) {
    exists i :: 0 <= i < |floors| && floors[i].number == number
  }

  /** `getFloorIndex`: the position of the first listed floor with this
      number, or 0 when no floor has it. */
  function FloorIndex(floors: seq<FloorInfo>, number: int): (r: nat)
    ensures |floors| > 0 ==> r < |floors|
    ensures (exists i :: 0 <= i < |floors| && floors[i].number == number) ==>
              r < |floors| && floors[r].number == number &&
              forall j :: 0 <= j < r ==> floors[j].number != number
    ensures (forall i :: 0 <= i < |floors| ==> floors[i].number != number) ==> r == 0
  {
    match Seqs.FindFirst(floors, (f: FloorInfo) => f.number == number)
    case Some(i) => i
    case None => 0
  }

  /** A figure's colour: amber when stationary, red when fallen, green for
      every other motion state. */
  function MotionColour(m: MotionState): (c: Colour)
    ensures c == Amber <==> m == Stationary
    ensures c == Red <==> m == Fallen
    ensures c == Green <==> m != Stationary && m != Fallen
  {
    if m == Stationary then Amber
    else if m == Fallen then Red
    else Green
  }

  /** The height of the slab at list position `index`. */
  function SlabHeight(index: nat): real {
    index as real * SlabSpacing
  }

  /** The slab for the floor at list position `index`: a plate the size of
      the building, its corner at the origin, raised to its height. */
  function SlabAt(f: FloorInfo, index: nat, d: Dimensions): Slab {
    Slab(f.name, Point(d.widthM / 2.0, SlabHeight(index), d.depthM / 2.0), d.widthM, d.depthM)
  }

  /** The figure for one telemetry entry. */
  function FigureAt(t: Telemetry, floors: seq<FloorInfo>): Figure {
    var y := SlabHeight(FloorIndex(floors, t.position.floor)) + StandHeight;
    Figure(t.tagId, Point(t.position.x, y, t.position.y), MotionColour(t.vitals.motionState), t.firefighter.name)
  }

  /** The whole view. Without a building only the placeholder is shown;
      with one, slabs follow the floor list and figures the telemetry list. */
  function BuildScene(building: Option<Building>, ffs: seq<Telemetry>): (s: Scene)
    ensures building.None? <==> s.Placeholder?
    ensures s.Rendered? ==> |s.slabs| == |building.value.floors| && |s.figures| == |ffs|
    ensures s.Rendered? ==>
              s.target == Point(building.value.dimensions.widthM / 2.0, TargetHeight,
                                building.value.dimensions.depthM / 2.0)
    ensures s.Rendered? ==> forall k :: 0 <= k < |s.slabs| ==>
              s.slabs[k].centre.y == k as real * SlabSpacing
    ensures s.Rendered? ==> forall i :: 0 <= i < |ffs| ==>
              && s.figures[i].position.x == ffs[i].position.x
              && s.figures[i].position.z == ffs[i].position.y
              && s.figures[i].colour == MotionColour(ffs[i].vitals.motionState)
    ensures s.Rendered? ==> forall i, k ::
              0 <= i < |ffs| && FirstListedAt(building.value.floors, k, ffs[i].position.floor) ==>
              s.figures[i].position.y == s.slabs[k].centre.y + StandHeight
    ensures s.Rendered? ==> forall i ::
              0 <= i < |ffs| && !Listed(building.value.floors, ffs[i].position.floor) ==>
              s.figures[i].position.y == StandHeight
  {
    match building
    case None => Placeholder
    case Some(b) =>
      var d := b.dimensions;
      Rendered(
        Point(d.widthM / 2.0, TargetHeight, d.depthM / 2.0),
        seq(|b.floors|, i requires 0 <= i < |b.floors| => SlabAt(b.floors[i], i, d)),
        seq(|ffs|, i requires 0 <= i < |ffs| => FigureAt(ffs[i], b.floors)))
  }
}
