/** What the history hook's normalisation guarantees: the points come out
    oldest first, they are the fetched records' positions rearranged (none
    lost, none invented), and records with equal timestamps keep their
    arrival order. */
module HistoryLemmas {
  import opened Wrappers
  import opened Types
  import opened History

  /** Neighbour-wise order is order between any two records. */
  lemma {:induction false} SortedIsChronological(rs: seq<HistoryRecord>)
    requires SortedByTime(rs)
    ensures Chronological(rs)
    decreases |rs|
  {
    if |rs| > 1 {
      var tail := rs[1..];
      assert SortedByTime(tail) by {
        forall i | 0 < i < |tail| ensures tail[i - 1].timestamp <= tail[i].timestamp {
          assert tail[i - 1] == rs[i] && tail[i] == rs[i + 1];
        }
      }
      SortedIsChronological(tail);
      forall i, j | 0 <= i < j < |rs| ensures rs[i].timestamp <= rs[j].timestamp {
        if i > 0 {
          assert tail[i - 1] == rs[i] && tail[j - 1] == rs[j];
        } else if j > 1 {
          assert tail[0] == rs[1] && tail[j - 1] == rs[j];
        }
      }
    }
  }

  /** Inserting a record adds it to the records stamped with its time, ahead
      of them, and leaves every other timestamp's records alone. */
  lemma {:induction false} InsertKeepsStampOrder(x: HistoryRecord, rs: seq<HistoryRecord>, t: int)
    ensures StampedAt(Insert(x, rs), t) == (if x.timestamp == t then [x] else []) + StampedAt(rs, t)
    decreases |rs|
  {
    var r := Insert(x, rs);
    if |rs| == 0 {
      assert r == [x] && r[1..] == [];
    } else if x.timestamp <= rs[0].timestamp {
      assert r == [x] + rs && r[1..] == rs;
    } else {
      var tail := Insert(x, rs[1..]);
      InsertKeepsStampOrder(x, rs[1..], t);
      assert r == [rs[0]] + tail && r[1..] == tail;
      if x.timestamp == t {
        calc {
          StampedAt(r, t);
          StampedAt(tail, t);
          [x] + StampedAt(rs[1..], t);
          { assert StampedAt(rs, t) == StampedAt(rs[1..], t); }
          [x] + StampedAt(rs, t);
        }
      } else if rs[0].timestamp == t {
        calc {
          StampedAt(r, t);
          [rs[0]] + StampedAt(tail, t);
          [rs[0]] + StampedAt(rs[1..], t);
          StampedAt(rs, t);
        }
      } else {
        calc {
          StampedAt(r, t);
          StampedAt(tail, t);
          StampedAt(rs[1..], t);
          StampedAt(rs, t);
        }
      }
    }
  }

  /** The sort is stable: for every timestamp, the records carrying it keep
      their order from the response. */
  lemma {:induction false} SortIsStable(rs: seq<HistoryRecord>, t: int)
    ensures StampedAt(SortByTime(rs), t) == StampedAt(rs, t)
    decreases |rs|
  {
    if |rs| > 0 {
      SortIsStable(rs[1..], t);
      InsertKeepsStampOrder(rs[0], SortByTime(rs[1..]), t);
    }
  }

  /** Inserting a record adds exactly its position to the projection. */
  lemma {:induction false} InsertPositions(x: HistoryRecord, rs: seq<HistoryRecord>)
    ensures multiset(Positions(Insert(x, rs))) == multiset(Positions(rs)) + multiset{x.position}
    decreases |rs|
  {
    var r := Insert(x, rs);
    if |rs| == 0 {
    } else if x.timestamp <= rs[0].timestamp {
      assert Positions(r) == [x.position] + Positions(rs);
    } else {
      InsertPositions(x, rs[1..]);
      assert Positions(r) == [rs[0].position] + Positions(Insert(x, rs[1..]));
      assert Positions(rs) == [rs[0].position] + Positions(rs[1..]);
    }
  }

  /** Sorting rearranges positions without losing or adding any. */
  lemma {:induction false} SortKeepsPositions(rs: seq<HistoryRecord>)
    ensures multiset(Positions(SortByTime(rs))) == multiset(Positions(rs))
    decreases |rs|
  {
    if |rs| > 0 {
      SortKeepsPositions(rs[1..]);
      InsertPositions(rs[0], SortByTime(rs[1..]));
      assert Positions(rs) == [rs[0].position] + Positions(rs[1..]);
    }
  }

  /** A successful fetch shows one point per record, in chronological order
      of the records, and the points are the records' positions rearranged. */
  lemma FetchedHistory(current: seq<Position>, rs: seq<HistoryRecord>)
    ensures var h := OnFetched(current, Parsed(Some(rs)));
      && |h| == |rs|
      && multiset(h) == multiset(Positions(rs))
      && exists sorted: seq<HistoryRecord> ::
           && multiset(sorted) == multiset(rs)
           && Chronological(sorted)
           && (forall t :: StampedAt(sorted, t) == StampedAt(rs, t))
           && h == Positions(sorted)
  {
    var sorted := SortByTime(rs);
    SortedIsChronological(sorted);
    SortKeepsPositions(rs);
    forall t ensures StampedAt(sorted, t) == StampedAt(rs, t) {
      SortIsStable(rs, t);
    }
  }
}
