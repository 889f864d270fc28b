/** Properties of the plan view that relate its rules to independent
    descriptions: initials as a character scan, the selected firefighter's
    single marker, and click sequences. */
module MapViewLemmas {
  import opened Wrappers
  import opened Types
  import opened MapView
  import Text
  import Seqs

  /** The initials as a scan of the characters: a character is an initial
      when it is not a space and starts the name or follows a space. */
  ghost function WordStarts(s: string, afterSpace: bool): (r: string)
    ensures |r| <= |s|
    decreases |s|
  {
    if |s| == 0 then []
    else (if s[0] != ' ' && afterSpace then [s[0]] else []) + WordStarts(s[1..], s[0] == ' ')
  }

  lemma {:induction false} SplitWordStarts(s: string)
    ensures WordStarts(s, true) == FirstLetters(Text.Split(s, ' '))
    ensures WordStarts(s, false) == FirstLetters(Text.Split(s, ' ')[1..])
    decreases |s|
  {
    var ws := Text.Split(s, ' ');
    if |s| == 0 {
      assert ws == [""];
    } else {
      SplitWordStarts(s[1..]);
      var rest := Text.Split(s[1..], ' ');
      if s[0] == ' ' {
        assert ws == [""] + rest;
        assert ws[1..] == rest;
      } else {
        assert ws == [[s[0]] + rest[0]] + rest[1..];
        assert ws[1..] == rest[1..];
      }
    }
  }

  /** The initials are exactly the characters that begin a word of the
      name, in order: one per non-empty word, so never more than the name
      has characters. */
  lemma InitialsAreWordStarts(name: string)
    ensures Initials(name) == WordStarts(name, true)
    ensures |Initials(name)| <= |name|
  {
    SplitWordStarts(name);
  }

  /** No two telemetry entries belong to the same firefighter, as in a list
      taken from the id-keyed map. */
  ghost predicate DistinctFirefighters(ffs: seq<Telemetry>) {
    forall i, j :: 0 <= i < j < |ffs| ==> ffs[i].firefighter.id != ffs[j].firefighter.id
  }

  lemma DistinctFirefightersAreDistinct(ffs: seq<Telemetry>)
    requires DistinctFirefighters(ffs)
    ensures Seqs.Distinct(ffs)
  {
  }

  /** With a firefighter selected, a list holding one entry per firefighter
      shows exactly that firefighter's entry, whatever the floor. */
  lemma SelectionShowsOneMarker(ffs: seq<Telemetry>, floor: int, sel: Option<string>, i: int)
    requires DistinctFirefighters(ffs)
    requires HasSelection(sel)
    requires 0 <= i < |ffs| && ffs[i].firefighter.id == sel.value
    ensures VisibleFirefighters(ffs, floor, sel) == [ffs[i]]
  {
    var r := VisibleFirefighters(ffs, floor, sel);
    DistinctFirefightersAreDistinct(ffs);
    Seqs.DistinctOccursOnce(ffs, ffs[i]);
    forall t | t in r ensures t == ffs[i] {
      assert multiset(r)[t] > 0;
      assert t in ffs;
      var j :| 0 <= j < |ffs| && ffs[j] == t;
      assert j == i;
    }
    assert multiset(r)[ffs[i]] == 1;
    assert multiset(r) == multiset{ffs[i]} by {
      forall t ensures multiset(r)[t] == multiset{ffs[i]}[t] {
      }
    }
    assert |r| == 1 by {
      assert |r| == |multiset(r)|;
    }
    assert r[0] in r;
  }

  /** Clicking the same marker twice restores the selection when it was
      empty or already that firefighter; from any other firefighter the
      first click switches to this one and the second clears it. */
  lemma ClickTwice(sel: Option<string>, id: string)
    ensures var twice := AfterClick(AfterClick(sel, MarkerClick(id)), MarkerClick(id));
      && (sel == None || sel == Some(id) ==> twice == sel)
      && (sel != None && sel != Some(id) ==> twice == None)
  {
  }

  /** The click rule as the map offers it: with a selection only the
      selected firefighter's markers are drawn, so clicking any drawn marker
      clears the selection; with none, clicking a drawn marker of a
      firefighter with a non-empty id selects that firefighter. */
  lemma ClickOnDrawnMarker(ffs: seq<Telemetry>, floor: int, sel: Option<string>, i: int)
    requires 0 <= i < |ffs|
    ensures var t := ffs[i];
      t in VisibleFirefighters(ffs, floor, sel) && HasSelection(sel) ==>
        AfterClick(sel, MarkerClick(t.firefighter.id)) == None
    ensures var t := ffs[i];
      t in VisibleFirefighters(ffs, floor, sel) && !HasSelection(sel) && t.firefighter.id != "" ==>
        AfterClick(sel, MarkerClick(t.firefighter.id)) == Some(t.firefighter.id)
  {
    var t := ffs[i];
    var r := VisibleFirefighters(ffs, floor, sel);
    if t in r {
      assert multiset(r)[t] > 0;
    }
  }
}
