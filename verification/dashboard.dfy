/** The top bar of the dashboard (recreated_frontend/src/App.tsx): the head
    count per floor, the floor selector with its badges, and the view's
    starting state. */
module Dashboard {
  import opened Wrappers

  /** `floorCounts.set(f, (floorCounts.get(f) || 0) + 1)` for each floor in
      turn. */
  function Tally(counts: map<int, nat>, floors: seq<int>): (r: map<int, nat>)
    ensures r.Keys == counts.Keys + set i | 0 <= i < |floors| :: floors[i]
    ensures forall f :: Get(r, f).GetOr(0) == Get(counts, f).GetOr(0) + multiset(floors)[f]
    decreases |floors|
  {
    if |floors| == 0 then counts
    else
      var f := floors[0];
      assert floors == [f] + floors[1..];
      assert (set i | 0 <= i < |floors| :: floors[i]) == {f} + set i | 0 <= i < |floors[1..]| :: floors[1..][i] by {
        assert forall i :: 0 < i < |floors| ==> floors[i] == floors[1..][i - 1];
      }
      Tally(counts[f := Get(counts, f).GetOr(0) + 1], floors[1..])
  }

  /** The head count per floor: a floor has an entry exactly when someone
      is on it, and the entry is how many are. */
  function FloorCounts(floors: seq<int>): (r: map<int, nat>)
    ensures forall f :: f in r <==> f in floors
    ensures forall f :: f in r ==> r[f] == multiset(floors)[f] && r[f] > 0
  {
    var r := Tally(map[], floors);
    assert forall f :: f in r ==> r[f] == multiset(floors)[f] by {
      forall f | f in r ensures r[f] == multiset(floors)[f] {
        assert Get(r, f).GetOr(0) == multiset(floors)[f];
      }
    }
    assert forall f :: f in r <==> f in floors by {
      forall f ensures f in r <==> f in floors {
        if f in floors {
          var i :| 0 <= i < |floors| && floors[i] == f;
        }
      }
    }
    r
  }

  /** `floorCounts.get(floor) || 0`: a floor without an entry reads as 0. */
  function CountOn(counts: map<int, nat>, floor: int): (n: nat)
    ensures floor !in counts ==> n == 0
    ensures floor in counts ==> n == counts[floor]
  {
    Get(counts, floor).GetOr(0)
  }

  /** The floors the selector offers, basement first. */
  const FloorChoices: seq<int> := [-1, 0, 1, 2]

  /** The number a string of decimal digits denotes, most significant
      digit first. */
  ghost function DigitsValue(s: string): int
    decreases |s|
  {
    if |s| == 0 then 0
    else DigitsValue(s[..|s| - 1]) * 10 + (s[|s| - 1] as int - '0' as int)
  }

  /** `n` written in decimal, as a number renders: digits only, denoting
      `n`, with no leading zero. */
  function Decimal(n: nat): (s: string)
    ensures |s| >= 1
    ensures forall i :: 0 <= i < |s| ==> '0' <= s[i] <= '9'
    ensures DigitsValue(s) == n
    ensures n > 0 ==> s[0] != '0'
    ensures |s| > 1 ==> s[0] != '0'
  {
    var d := [(n % 10) as char + '0'];
    if n < 10 then d
    else
      var s := Decimal(n / 10) + d;
      assert s[..|s| - 1] == Decimal(n / 10);
      s
  }

  /** A floor button's caption: 'P' for the basement, the number otherwise,
      with a minus sign below ground. */
  function FloorLabel(floor: int): (s: string)
    ensures s == "P" <==> floor == -1
    ensures floor >= 0 ==> s == Decimal(floor)
    ensures floor < -1 ==> s == "-" + Decimal(-floor)
  {
    if floor == -1 then "P"
    else if floor >= 0 then Decimal(floor)
    else "-" + Decimal(-floor)
  }

  datatype FloorButton = FloorButton(floor: int, caption: string, selected: bool, badge: Option<nat>)

  /** The selector: one button per offered floor, highlighted when it is the
      selected floor, badged with the head count only when that is above 0. */
  function FloorButtons(counts: map<int, nat>, selectedFloor: int): (r: seq<FloorButton>)
    ensures |r| == |FloorChoices|
    ensures forall i :: 0 <= i < |r| ==> r[i].floor == FloorChoices[i]
    ensures forall i :: 0 <= i < |r| ==> (r[i].selected <==> FloorChoices[i] == selectedFloor)
    ensures forall i :: 0 <= i < |r| ==>
              (r[i].badge.Some? <==> CountOn(counts, FloorChoices[i]) > 0) &&
              (r[i].badge.Some? ==> r[i].badge.value == counts[FloorChoices[i]])
  {
    seq(|FloorChoices|, i requires 0 <= i < |FloorChoices| =>
      var f := FloorChoices[i];
      var n := CountOn(counts, f);
      FloorButton(f, FloorLabel(f), f == selectedFloor, if n > 0 then Some(n) else None))
  }

  /** The view's selection state. */
  datatype View = View(floor: int, selected: Option<string>)

  /** The dashboard opens on the ground floor with no firefighter selected. */
  const InitialView := View(0, None)
}
