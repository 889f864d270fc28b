/** What the top bar's numbers add up to, and how it opens. */
module DashboardLemmas {
  import opened Wrappers
  import opened Types
  import opened Dashboard
  import MapView
  import Seqs

  /** The head counts of the floors in `ks`, added up. */
  ghost function SumCounts(ks: seq<int>, counts: map<int, nat>): int
    decreases |ks|
  {
    if |ks| == 0 then 0 else CountOn(counts, ks[0]) + SumCounts(ks[1..], counts)
  }

  /** Occurrences in `floors` of the floors in `ks`, added up. */
  ghost function SumOccurrences(ks: seq<int>, floors: seq<int>): int
    decreases |ks|
  {
    if |ks| == 0 then 0 else multiset(floors)[ks[0]] + SumOccurrences(ks[1..], floors)
  }

  lemma {:induction false} SumOccurrencesCons(ks: seq<int>, x: int, rest: seq<int>)
    ensures SumOccurrences(ks, [x] + rest) == SumOccurrences(ks, rest) + multiset(ks)[x]
    decreases |ks|
  {
    if |ks| > 0 {
      SumOccurrencesCons(ks[1..], x, rest);
      assert ks == [ks[0]] + ks[1..];
    }
  }

  lemma {:induction false} SumOccurrencesIsLength(ks: seq<int>, floors: seq<int>)
    requires Seqs.Distinct(ks)
    requires forall i :: 0 <= i < |floors| ==> floors[i] in ks
    ensures SumOccurrences(ks, floors) == |floors|
    decreases |floors|
  {
    if |floors| == 0 {
      SumOccurrencesEmpty(ks);
    } else {
      var rest := floors[1..];
      assert floors == [floors[0]] + rest;
      SumOccurrencesIsLength(ks, rest);
      SumOccurrencesCons(ks, floors[0], rest);
      Seqs.DistinctOccursOnce(ks, floors[0]);
    }
  }

  lemma {:induction false} SumOccurrencesEmpty(ks: seq<int>)
    ensures SumOccurrences(ks, []) == 0
    decreases |ks|
  {
    if |ks| > 0 {
      SumOccurrencesEmpty(ks[1..]);
    }
  }

  lemma {:induction false} SumCountsIsOccurrences(ks: seq<int>, floors: seq<int>)
    ensures SumCounts(ks, FloorCounts(floors)) == SumOccurrences(ks, floors)
    decreases |ks|
  {
    if |ks| > 0 {
      SumCountsIsOccurrences(ks[1..], floors);
    }
  }

  /** The head counts add up to the number of firefighters: summing the
      count of every floor in any repeat-free list of floors that includes
      each occupied floor gives the length of the input. */
  lemma CountsSumToLength(floors: seq<int>, ks: seq<int>)
    requires Seqs.Distinct(ks)
    requires forall f :: f in floors ==> f in ks
    ensures SumCounts(ks, FloorCounts(floors)) == |floors|
  {
    forall i | 0 <= i < |floors| ensures floors[i] in ks {
      var f := floors[i];
      assert f in floors;
      assert f in ks;
    }
    SumCountsIsOccurrences(ks, floors);
    SumOccurrencesIsLength(ks, floors);
  }

  /** A floor's button carries a badge exactly when some firefighter is on
      that floor, and the badge shows how many are. */
  lemma BadgeIffOccupied(floors: seq<int>, selectedFloor: int, i: int)
    requires 0 <= i < |FloorChoices|
    ensures var b := FloorButtons(FloorCounts(floors), selectedFloor)[i];
      && (b.badge.Some? <==> FloorChoices[i] in floors)
      && (b.badge.Some? ==> b.badge.value == multiset(floors)[FloorChoices[i]])
  {
  }

  /** The selector reads P, 0, 1, 2. */
  lemma FloorCaptions(counts: map<int, nat>, selectedFloor: int)
    ensures var r := FloorButtons(counts, selectedFloor);
      [r[0].caption, r[1].caption, r[2].caption, r[3].caption] == ["P", "0", "1", "2"]
  {
    assert Decimal(0) == "0" && Decimal(1) == "1" && Decimal(2) == "2";
  }

  /** On opening, the ground-floor button is the only one highlighted and
      the floor map (symulacja/src/components/MapControl.tsx) shows exactly
      the firefighters on the ground floor. The recreated map that
      recreated_frontend/src/App.tsx mounts filters on the floor alone; with
      no selection the two filters coincide, so the conclusion holds there
      too. */
  lemma InitialViewShowsGroundFloor(counts: map<int, nat>, ffs: seq<Telemetry>)
    ensures var r := FloorButtons(counts, InitialView.floor);
      forall i :: 0 <= i < |r| ==> (r[i].selected <==> i == 1)
    ensures forall t :: multiset(MapView.VisibleFirefighters(ffs, InitialView.floor, InitialView.selected))[t] ==
              if t.position.floor == 0 then multiset(ffs)[t] else 0
  {
  }
}
