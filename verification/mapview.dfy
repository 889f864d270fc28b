/** The plan view of one floor (symulacja/src/components/MapControl.tsx):
    which firefighters and beacons are drawn, how a click changes the
    selection, and how each marker is labelled and coloured. Leaflet
    drawing and the metre-to-latitude conversion are not modelled. */
module MapView {
  import opened Wrappers
  import opened Types
  import opened Palette
  import Seqs
  import Text

  /** A selection that counts: present and not empty (`""` is falsy). */
  predicate HasSelection(sel: Option<string>) {
    sel.Some? && sel.value != ""
  }

  /** The firefighter markers drawn: with a selection, only the telemetry of
      the selected firefighter, whatever its floor; otherwise everyone on the
      current floor. Multiplicity follows the input list, and so does the
      order (`Seqs.FilterAppend`). */
  function VisibleFirefighters(ffs: seq<Telemetry>, floor: int, sel: Option<string>): (r: seq<Telemetry>)
    ensures |r| <= |ffs|
    ensures HasSelection(sel) ==>
              forall t :: multiset(r)[t] == if t.firefighter.id == sel.value then multiset(ffs)[t] else 0
    ensures !HasSelection(sel) ==>
              forall t :: multiset(r)[t] == if t.position.floor == floor then multiset(ffs)[t] else 0
  {
    if HasSelection(sel) then
      var id := sel.value;
      Seqs.Filter(ffs, (t: Telemetry) => t.firefighter.id == id)
    else
      Seqs.Filter(ffs, (t: Telemetry) => t.position.floor == floor)
  }

  /** The beacon markers drawn: none while a firefighter is selected or the
      beacon layer is off; otherwise the beacons whose floor is the current
      one. */
  function VisibleBeacons(bs: seq<BeaconRecord>, floor: int, sel: Option<string>, showBeacons: bool): (r: seq<BeaconRecord>)
    ensures HasSelection(sel) || !showBeacons ==> r == []
    ensures !HasSelection(sel) && showBeacons ==>
              forall b :: multiset(r)[b] == if b.floor == Some(floor) then multiset(bs)[b] else 0
  {
    if !HasSelection(sel) && showBeacons then
      Seqs.Filter(bs, (b: BeaconRecord) => b.floor == Some(floor))
    else []
  }

  datatype Click = MarkerClick(firefighterId: string) | BackgroundClick

  /** The selection after a click: a marker click deselects its firefighter
      if it is the selected one and selects it otherwise; a click on the map
      background always clears the selection. */
  function AfterClick(sel: Option<string>, click: Click): (r: Option<string>)
    ensures click.BackgroundClick? ==> r == None
    ensures click.MarkerClick? ==> (r == None <==> sel == Some(click.firefighterId))
    ensures r.Some? ==> click.MarkerClick? && r == Some(click.firefighterId)
  {
    match click
    case BackgroundClick => None
    case MarkerClick(id) => if sel == Some(id) then None else Some(id)
  }

  /** The trail drawn for the selection: its recorded history, or nothing
      when there is no selection or no history for it. */
  function SelectedPath(sel: Option<string>, history: map<string, seq<Position>>): (p: seq<Position>)
    ensures !HasSelection(sel) ==> p == []
    ensures HasSelection(sel) && sel.value in history ==> p == history[sel.value]
    ensures HasSelection(sel) && sel.value !in history ==> p == []
  {
    if HasSelection(sel) then Get(history, sel.value).GetOr([]) else []
  }

  datatype BeaconIcon = BeaconIcon(letter: char, colour: Colour, opacity: real)

  /** `createBeaconIcon`: green 'A' by default, blue 'E' for an entry, amber
      'S' for stairs; an offline beacon is red and half transparent whatever
      its type. */
  function IconFor(b: BeaconRecord): (r: BeaconIcon)
    ensures r.letter == 'E' <==> b.kind == Some(Entry)
    ensures r.letter == 'S' <==> b.kind == Some(Stairs)
    ensures r.letter == 'A' <==> b.kind != Some(Entry) && b.kind != Some(Stairs)
    ensures r.colour == Red <==> b.status == Some(Offline)
    ensures r.opacity == (if b.status == Some(Offline) then 0.5 else 1.0)
    ensures r.colour == Blue <==> b.kind == Some(Entry) && b.status != Some(Offline)
    ensures r.colour == Amber <==> b.kind == Some(Stairs) && b.status != Some(Offline)
  {
    var letter := if b.kind == Some(Entry) then 'E' else if b.kind == Some(Stairs) then 'S' else 'A';
    var colour :=
      if b.status == Some(Offline) then Red
      else if b.kind == Some(Stairs) then Amber
      else if b.kind == Some(Entry) then Blue
      else Green;
    BeaconIcon(letter, colour, if b.status == Some(Offline) then 0.5 else 1.0)
  }

  datatype RangeCircle = RangeCircle(radius: real, colour: Colour)

  /** The radius of a beacon's range circle, `range_m || 15`: a missing or
      zero range falls back to 15 metres. */
  function RangeRadius(rangeM: Option<real>): (r: real)
    ensures rangeM.None? || rangeM == Some(0.0) ==> r == 15.0
    ensures rangeM.Some? && rangeM.value != 0.0 ==> r == rangeM.value
  {
    match rangeM
    case Some(v) => if v != 0.0 then v else 15.0
    case None => 15.0
  }

  /** A beacon's range circle, drawn only while the range layer is on: blue
      for an entry, green for any other type, with the fallback radius. */
  function CircleFor(b: BeaconRecord, showRanges: bool): (r: Option<RangeCircle>)
    ensures r.Some? <==> showRanges
    ensures r.Some? ==> r.value.radius == RangeRadius(b.rangeM)
    ensures r.Some? ==> r.value.radius > 0.0 || (b.rangeM.Some? && b.rangeM.value < 0.0)
    ensures r.Some? ==> r.value.colour == (if b.kind == Some(Entry) then Blue else Green)
  {
    if showRanges then
      Some(RangeCircle(RangeRadius(b.rangeM), if b.kind == Some(Entry) then Blue else Green))
    else None
  }

  /** The marker's rotation, `heading_deg || 0`: since the fallback is 0, a
      missing heading and a zero heading both point north and any other
      heading is used as given. */
  function Rotation(heading: Option<real>): (r: real)
    ensures r == heading.GetOr(0.0)
  {
    match heading
    case Some(h) => if h != 0.0 then h else 0.0
    case None => 0.0
  }

  /** The first character of each piece, skipping empty pieces. */
  function FirstLetters(ws: seq<string>): (r: string)
    ensures |r| <= |ws|
    decreases |ws|
  {
    if |ws| == 0 then []
    else (if |ws[0]| > 0 then [ws[0][0]] else []) + FirstLetters(ws[1..])
  }

  /** `name.split(' ').map(n => n[0]).join('')`: an empty word's `n[0]` is
      undefined, which `join` writes as nothing. */
  function Initials(name: string): (r: string)
    ensures ' ' !in r
  {
    var ws := Text.Split(name, ' ');
    assert forall i :: 0 <= i < |ws| && |ws[i]| > 0 ==> ws[i][0] != ' ';
    FirstLettersNoSpace(ws);
    FirstLetters(ws)
  }

  lemma {:induction false} FirstLettersNoSpace(ws: seq<string>)
    requires forall i :: 0 <= i < |ws| && |ws[i]| > 0 ==> ws[i][0] != ' '
    ensures ' ' !in FirstLetters(ws)
    decreases |ws|
  {
    if |ws| > 0 {
      FirstLettersNoSpace(ws[1..]);
    }
  }

  datatype FirefighterMarker = FirefighterMarker(initials: string, rotation: real, selected: bool)

  /** One firefighter's marker; it is highlighted when its firefighter is
      the selected one. */
  function MarkerFor(t: Telemetry, sel: Option<string>): (r: FirefighterMarker)
    ensures r.selected <==> sel == Some(t.firefighter.id)
    ensures r.initials == Initials(t.firefighter.name)
    ensures r.rotation == t.headingDeg.GetOr(0.0)
  {
    FirefighterMarker(Initials(t.firefighter.name), Rotation(t.headingDeg), sel == Some(t.firefighter.id))
  }
}
