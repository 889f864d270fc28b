/** Properties of the live-state reducer that relate several calls: the
    invariant every reachable state keeps, latest-wins telemetry over a
    whole message stream, per-beacon patch folding, and the idempotence of
    alert delivery and resolution. */
module ReducerLemmas {
  import opened Wrappers
  import opened Types
  import opened Reducer

  // ------------------------------------------------------------- invariant

  /** Every message keeps alert ids unique and every entry under its id. */
  lemma StepPreservesValid(s: State, msg: Message)
    requires Valid(s)
    ensures Valid(Step(s, msg))
  {
    var r := Step(s, msg);
    match msg
    case TagTelemetry(t) =>
      assert FirefightersKeyedById(r.firefighters);
    case AlertResolved(id) =>
      var rs := ResolveAlert(s.alerts, id);
      assert forall i :: 0 <= i < |rs| ==> rs[i].id == s.alerts[i].id;
    case _ =>
  }

  /** The state before any message satisfies the invariant. */
  lemma InitialIsValid()
    ensures Valid(Initial)
  {
  }

  /** Any stream of messages keeps the invariant. */
  lemma {:induction false} RunPreservesValid(s: State, msgs: seq<Message>)
    requires Valid(s)
    ensures Valid(Run(s, msgs))
    decreases |msgs|
  {
    if |msgs| > 0 {
      StepPreservesValid(s, msgs[0]);
      RunPreservesValid(Step(s, msgs[0]), msgs[1..]);
    }
  }

  // ------------------------------------------------------ latest telemetry

  /** The telemetry of the last `tag_telemetry` message for firefighter `k`
      in `msgs`, if there is one. */
  ghost function LastTelemetry(msgs: seq<Message>, k: string): Option<Telemetry>
    decreases |msgs|
  {
    if |msgs| == 0 then None
    else
      match LastTelemetry(msgs[1..], k)
      case Some(t) => Some(t)
      case None =>
        if msgs[0].TagTelemetry? && msgs[0].telemetry.firefighter.id == k
        then Some(msgs[0].telemetry) else None
  }

  /** After a stream, each firefighter's entry is the last telemetry message
      for that id, whatever else arrived in between; a firefighter no message
      mentions keeps the entry it had. */
  lemma {:induction false} RunLatestTelemetryWins(s: State, msgs: seq<Message>, k: string)
    ensures LastTelemetry(msgs, k).Some? ==>
              Get(Run(s, msgs).firefighters, k) == LastTelemetry(msgs, k)
    ensures LastTelemetry(msgs, k).None? ==>
              Get(Run(s, msgs).firefighters, k) == Get(s.firefighters, k)
    decreases |msgs|
  {
    if |msgs| > 0 {
      RunLatestTelemetryWins(Step(s, msgs[0]), msgs[1..], k);
    }
  }

  // ---------------------------------------------------------- beacon patches

  /** What the entries of `ps` that name `k` make of the stored object
      `base`, applied in order: the first creates it if absent, each later
      one merges into it. */
  ghost function PatchedFor(base: Option<BeaconRecord>, ps: seq<BeaconRecord>, k: string): Option<BeaconRecord>
    decreases |ps|
  {
    if |ps| == 0 then base
    else if ps[0].id != k then PatchedFor(base, ps[1..], k)
    else
      var next := if base.Some? then Merge(base.value, ps[0]) else ps[0];
      PatchedFor(Some(next), ps[1..], k)
  }

  /** A `beacons_status` message acts on each beacon separately: the stored
      object for `k` is exactly what the entries naming `k` make of it. */
  lemma {:induction false} ApplyPatchesPerBeacon(m: map<string, BeaconRecord>, ps: seq<BeaconRecord>, k: string)
    ensures Get(ApplyPatches(m, ps), k) == PatchedFor(Get(m, k), ps, k)
    decreases |ps|
  {
    if |ps| > 0 {
      ApplyPatchesPerBeacon(ApplyPatch(m, ps[0]), ps[1..], k);
    }
  }

  /** Two successive patches of one beacon equal the single patch that
      merges them. */
  lemma MergeComposes(e: BeaconRecord, p: BeaconRecord, q: BeaconRecord)
    ensures Merge(Merge(e, p), q) == Merge(e, Merge(p, q))
  {
  }

  /** Delivering the same patch twice changes nothing more than once. */
  lemma MergeIdempotent(e: BeaconRecord, p: BeaconRecord)
    ensures Merge(Merge(e, p), p) == Merge(e, p)
  {
  }

  /** A beacon used as a patch replaces the stored object outright when it
      carries its optional members too; otherwise the stored `range_m` and
      `tags_in_range` survive the merge. */
  lemma MergeCompleteReplaces(e: BeaconRecord, b: Beacon)
    ensures b.rangeM.Some? && b.tagsInRange.Some? ==> Merge(e, FromBeacon(b)) == FromBeacon(b)
    ensures b.rangeM.None? ==> Merge(e, FromBeacon(b)).rangeM == e.rangeM
  {
  }

  // ------------------------------------------------------------------ alerts

  /** Re-delivering an `alert` message leaves the list as one delivery did. */
  lemma UpsertAlertIdempotent(alerts: seq<Alert>, a: Alert)
    ensures UpsertAlert(UpsertAlert(alerts, a), a) == UpsertAlert(alerts, a)
  {
    var once := UpsertAlert(alerts, a);
    if exists i :: 0 <= i < |alerts| && alerts[i].id == a.id {
      var i :| 0 <= i < |alerts| && alerts[i].id == a.id && once[i] == a &&
               (forall j :: 0 <= j < i ==> alerts[j].id != a.id) &&
               (forall j :: 0 <= j < |alerts| && j != i ==> once[j] == alerts[j]);
      assert forall j :: 0 <= j < i ==> once[j].id != a.id;
      assert once[i := a] == once;
    } else {
      assert once[0] == a;
      assert once[0 := a] == once;
    }
  }

  /** Resolving twice is resolving once. */
  lemma ResolveAlertIdempotent(alerts: seq<Alert>, id: string)
    ensures ResolveAlert(ResolveAlert(alerts, id), id) == ResolveAlert(alerts, id)
  {
    var once := ResolveAlert(alerts, id);
    var twice := ResolveAlert(once, id);
    forall i | 0 <= i < |once|
      ensures twice[i] == once[i]
    {
      assert twice[i].(resolved := once[i].resolved) == once[i];
    }
  }

  /** Resolving an id whose alerts are all resolved already, or an id no
      alert carries, leaves the list unchanged. */
  lemma ResolveAlertNoOp(alerts: seq<Alert>, id: string)
    requires forall i :: 0 <= i < |alerts| && alerts[i].id == id ==> alerts[i].resolved
    ensures ResolveAlert(alerts, id) == alerts
  {
    var r := ResolveAlert(alerts, id);
    forall i | 0 <= i < |alerts|
      ensures r[i] == alerts[i]
    {
      assert r[i].(resolved := alerts[i].resolved) == alerts[i];
    }
  }

  /** Resolution keeps alert ids unique. */
  lemma ResolveAlertKeepsUniqueIds(alerts: seq<Alert>, id: string)
    requires UniqueAlertIds(alerts)
    ensures UniqueAlertIds(ResolveAlert(alerts, id))
  {
    var r := ResolveAlert(alerts, id);
    assert forall i :: 0 <= i < |r| ==> r[i].id == alerts[i].id;
  }
}
