/** The trajectory of the selected firefighter
    (recreated_frontend/src/hooks/useFirefighterHistory.ts). The hook asks the
    history endpoint for recent records, which arrive in no particular order,
    sorts them by timestamp, oldest first, and keeps their positions.
    Timestamps are the parsed epoch milliseconds. */
module History {
  import opened Wrappers
  import opened Types

  datatype HistoryRecord = HistoryRecord(position: Position, timestamp: int)

  /** How a fetch ended, after the network and JSON layers: a response that
      was not OK, a thrown error, or a parsed body whose `records` member is
      an array (Some) or missing or not an array (None). */
  datatype FetchOutcome =
    | HttpError(status: int)
    | Failed
    | Parsed(records: Option<seq<HistoryRecord>>)

  /** Each record is no older than the one before it. */
  ghost predicate SortedByTime(rs: seq<HistoryRecord>) {
    forall i :: 0 < i < |rs| ==> rs[i - 1].timestamp <= rs[i].timestamp
  }

  /** Any record is no older than any record before it. */
  ghost predicate Chronological(rs: seq<HistoryRecord>) {
    forall i, j :: 0 <= i < j < |rs| ==> rs[i].timestamp <= rs[j].timestamp
  }

  /** The records of `rs` stamped `t`, in their order in `rs`. */
  ghost function StampedAt(rs: seq<HistoryRecord>, t: int): seq<HistoryRecord>
    decreases |rs|
  {
    if |rs| == 0 then []
    else (if rs[0].timestamp == t then [rs[0]] else []) + StampedAt(rs[1..], t)
  }

  /** Places `x` before the first record that is not older than it. */
  function Insert(x: HistoryRecord, rs: seq<HistoryRecord>): (r: seq<HistoryRecord>)
    ensures |r| == |rs| + 1
    ensures r[0] == x || (|rs| > 0 && r[0] == rs[0])
    ensures multiset(r) == multiset(rs) + multiset{x}
    ensures SortedByTime(rs) ==> SortedByTime(r)
    decreases |rs|
  {
    if |rs| == 0 then [x]
    else if x.timestamp <= rs[0].timestamp then [x] + rs
    else
      assert rs == [rs[0]] + rs[1..];
      [rs[0]] + Insert(x, rs[1..])
  }

  /** `records.sort((a, b) => time(a) - time(b))`. The engine's sort is
      stable, which an insertion sort that puts each record before the
      equally old ones after it reproduces. */
  function SortByTime(rs: seq<HistoryRecord>): (r: seq<HistoryRecord>)
    ensures SortedByTime(r)
    ensures multiset(r) == multiset(rs)
    ensures |r| == |rs|
    decreases |rs|
  {
    if |rs| == 0 then []
    else
      assert rs == [rs[0]] + rs[1..];
      Insert(rs[0], SortByTime(rs[1..]))
  }

  /** `records.map(r => r.position)`. */
  function Positions(rs: seq<HistoryRecord>): (ps: seq<Position>)
    ensures |ps| == |rs|
    ensures forall i :: 0 <= i < |rs| ==> ps[i] == rs[i].position
  {
    seq(|rs|, i requires 0 <= i < |rs| => rs[i].position)
  }

  /** The history shown once a fetch has ended. */
  function OnFetched(current: seq<Position>, outcome: FetchOutcome): (h: seq<Position>)
    ensures outcome.HttpError? || outcome.Failed? ==> h == []
    ensures outcome == Parsed(None) ==> h == current
    ensures outcome.Parsed? && outcome.records.Some? ==>
              h == Positions(SortByTime(outcome.records.value))
  {
    match outcome
    case HttpError(_) => []
    case Failed => []
    case Parsed(None) => current
    case Parsed(Some(rs)) => Positions(SortByTime(rs))
  }

  /** A firefighter id the hook will fetch for: present and not empty, the
      empty string being falsy. */
  predicate ShouldFetch(id: Option<string>) {
    id.Some? && id.value != ""
  }

  /** The history right after the selected id changes: cleared when there is
      no id to fetch for, left as it was while the fetch is pending. */
  function OnIdChanged(current: seq<Position>, id: Option<string>): (h: seq<Position>)
    ensures !ShouldFetch(id) ==> h == []
    ensures ShouldFetch(id) ==> h == current
  {
    if ShouldFetch(id) then current else []
  }
}
