/** The client-side live state fed by the simulator's WebSocket stream
    (recreated_frontend/src/hooks/useSimulationData.ts): four pieces of state
    and the pure rule `Step` that applies one parsed message to them. */
module Reducer {
  import opened Wrappers
  import opened Types
  import Seqs

  /** What the hook keeps: telemetry keyed by firefighter id, beacon objects
      keyed by beacon id, the alert list (newest first) and the building. */
  datatype State = State(
    firefighters: map<string, Telemetry>,
    beacons: map<string, BeaconRecord>,
    alerts: seq<Alert>,
    building: Option<Building>)

  /** A parsed message, one constructor per `type` the reducer tells apart;
      any other `type` is `Unrecognised`. */
  datatype Message =
    | Welcome(simulatorVersion: string)
    | BuildingConfig(building: Option<Building>)
    | BeaconsConfig(beacons: seq<Beacon>)
    | TagTelemetry(telemetry: Telemetry)
    | BeaconsStatus(patches: seq<BeaconRecord>)
    | AlertRaised(alert: Alert)
    | AlertResolved(alertId: string)
    | Unrecognised(typeName: string)

  /** The state before any message: empty maps, no alerts, no building. */
  const Initial := State(map[], map[], [], None)

  /** No two alerts in the list share an id. */
  ghost predicate UniqueAlertIds(alerts: seq<Alert>) {
    forall i, j :: 0 <= i < j < |alerts| ==> alerts[i].id != alerts[j].id
  }

  /** Every beacon object sits under its own id. */
  ghost predicate BeaconsKeyedById(m: map<string, BeaconRecord>) {
    forall k :: k in m ==> m[k].id == k
  }

  /** Every telemetry entry sits under its firefighter's id. */
  ghost predicate FirefightersKeyedById(m: map<string, Telemetry>) {
    forall k :: k in m ==> m[k].firefighter.id == k
  }

  /** Every entry sits under its own id. */
  ghost predicate KeyedById(s: State) {
    FirefightersKeyedById(s.firefighters) && BeaconsKeyedById(s.beacons)
  }

  /** The invariant every reachable state keeps. */
  ghost predicate Valid(s: State) {
    UniqueAlertIds(s.alerts) && KeyedById(s)
  }

  // ---------------------------------------------------------------- telemetry

  /** `tag_telemetry`: the message replaces whatever was stored for its
      firefighter (latest wins); no other entry moves. */
  function UpsertTelemetry(m: map<string, Telemetry>, t: Telemetry): (r: map<string, Telemetry>)
    ensures r.Keys == m.Keys + {t.firefighter.id}
    ensures r[t.firefighter.id] == t
    ensures forall k :: k in m && k != t.firefighter.id ==> r[k] == m[k]
  {
    m[t.firefighter.id := t]
  }

  // ------------------------------------------------------------------ beacons

  /** Index `i` holds the last beacon in `bs` with its id. */
  ghost predicate LastWithId(bs: seq<Beacon>, i: int) {
    0 <= i < |bs| && forall j :: i < j < |bs| ==> bs[j].id != bs[i].id
  }

  /** The ids a `beacons_config` message lists. */
  ghost function BeaconIds(bs: seq<Beacon>): set<string> {
    set i | 0 <= i < |bs| :: bs[i].id
  }

  /** `bs.forEach(b => m.set(b.id, b))`: every listed beacon set in order, so
      a repeated id keeps its last occurrence and unlisted keys keep theirs. */
  function SetBeacons(m: map<string, BeaconRecord>, bs: seq<Beacon>): (r: map<string, BeaconRecord>)
    ensures r.Keys == m.Keys + BeaconIds(bs)
    ensures forall k :: k in m && k !in BeaconIds(bs) ==> r[k] == m[k]
    ensures forall i :: LastWithId(bs, i) ==> r[bs[i].id] == FromBeacon(bs[i])
    ensures BeaconsKeyedById(m) ==> BeaconsKeyedById(r)
    decreases |bs|
  {
    if |bs| == 0 then m
    else
      var m' := m[bs[0].id := FromBeacon(bs[0])];
      assert BeaconsKeyedById(m) ==> BeaconsKeyedById(m');
      var r := SetBeacons(m', bs[1..]);
      assert BeaconIds(bs) == {bs[0].id} + BeaconIds(bs[1..]) by {
        assert forall i :: 0 < i < |bs| ==> bs[1..][i - 1] == bs[i];
      }
      assert forall i :: LastWithId(bs, i) ==> r[bs[i].id] == FromBeacon(bs[i]) by {
        forall i | LastWithId(bs, i)
          ensures r[bs[i].id] == FromBeacon(bs[i])
        {
          if i == 0 {
            assert bs[0].id !in BeaconIds(bs[1..]);
          } else {
            assert bs[1..][i - 1] == bs[i];
            assert LastWithId(bs[1..], i - 1);
          }
        }
      }
      r
  }

  /** `beacons_config`: a fresh map holding exactly the message's beacons;
      whatever was stored before is dropped. */
  function ConfigMap(bs: seq<Beacon>): (r: map<string, BeaconRecord>)
    ensures r.Keys == BeaconIds(bs)
    ensures forall i :: LastWithId(bs, i) ==> r[bs[i].id] == FromBeacon(bs[i])
    ensures BeaconsKeyedById(r)
  {
    SetBeacons(map[], bs)
  }

  /** `{ ...existing, ...patch }`: the patch's present members win, the
      existing object's members fill the rest. */
  function Override<T>(existing: Option<T>, patch: Option<T>): Option<T> {
    if patch.Some? then patch else existing
  }

  /** One `beacons_status` entry merged into a stored beacon object. */
  function Merge(existing: BeaconRecord, patch: BeaconRecord): (r: BeaconRecord)
    ensures r.id == patch.id
    ensures patch.name.Some? ==> r.name == patch.name
    ensures patch.name.None? ==> r.name == existing.name
    ensures patch.kind.Some? ==> r.kind == patch.kind
    ensures patch.kind.None? ==> r.kind == existing.kind
    ensures patch.position.Some? ==> r.position == patch.position
    ensures patch.position.None? ==> r.position == existing.position
    ensures patch.floor.Some? ==> r.floor == patch.floor
    ensures patch.floor.None? ==> r.floor == existing.floor
    ensures patch.status.Some? ==> r.status == patch.status
    ensures patch.status.None? ==> r.status == existing.status
    ensures patch.batteryPercent.Some? ==> r.batteryPercent == patch.batteryPercent
    ensures patch.batteryPercent.None? ==> r.batteryPercent == existing.batteryPercent
    ensures patch.rangeM.Some? ==> r.rangeM == patch.rangeM
    ensures patch.rangeM.None? ==> r.rangeM == existing.rangeM
    ensures patch.tagsInRange.Some? ==> r.tagsInRange == patch.tagsInRange
    ensures patch.tagsInRange.None? ==> r.tagsInRange == existing.tagsInRange
    ensures Complete(existing) ==> Complete(r)
  {
    BeaconRecord(
      patch.id,
      Override(existing.name, patch.name),
      Override(existing.kind, patch.kind),
      Override(existing.position, patch.position),
      Override(existing.floor, patch.floor),
      Override(existing.status, patch.status),
      Override(existing.batteryPercent, patch.batteryPercent),
      Override(existing.rangeM, patch.rangeM),
      Override(existing.tagsInRange, patch.tagsInRange))
  }

  /** One `beacons_status` entry: merged into the stored object when its id
      is known, stored as given otherwise; every other beacon is untouched. */
  function ApplyPatch(m: map<string, BeaconRecord>, p: BeaconRecord): (r: map<string, BeaconRecord>)
    ensures r.Keys == m.Keys + {p.id}
    ensures p.id in m ==> r[p.id] == Merge(m[p.id], p)
    ensures p.id !in m ==> r[p.id] == p
    ensures forall k :: k in m && k != p.id ==> r[k] == m[k]
  {
    if p.id in m then m[p.id := Merge(m[p.id], p)] else m[p.id := p]
  }

  /** The ids a `beacons_status` message mentions. */
  ghost function PatchIds(ps: seq<BeaconRecord>): set<string> {
    set i | 0 <= i < |ps| :: ps[i].id
  }

  /** `beacons_status`: the entries applied one after another, in order.
      Only the mentioned ids change, and the key set grows by exactly
      those ids. */
  function ApplyPatches(m: map<string, BeaconRecord>, ps: seq<BeaconRecord>): (r: map<string, BeaconRecord>)
    ensures r.Keys == m.Keys + PatchIds(ps)
    ensures forall k :: k in m && k !in PatchIds(ps) ==> r[k] == m[k]
    ensures BeaconsKeyedById(m) ==> BeaconsKeyedById(r)
    decreases |ps|
  {
    if |ps| == 0 then m
    else
      assert PatchIds(ps) == {ps[0].id} + PatchIds(ps[1..]) by {
        assert forall i :: 0 < i < |ps| ==> ps[1..][i - 1] == ps[i];
      }
      ApplyPatches(ApplyPatch(m, ps[0]), ps[1..])
  }

  // ------------------------------------------------------------------- alerts

  /** `alert`: an alert whose id is already listed replaces the first such
      element in place; a new id is put at the front. */
  function UpsertAlert(alerts: seq<Alert>, a: Alert): (r: seq<Alert>)
    ensures a in r
    ensures (exists i :: 0 <= i < |alerts| && alerts[i].id == a.id) ==>
              |r| == |alerts| &&
              exists i :: 0 <= i < |alerts| && alerts[i].id == a.id && r[i] == a &&
                (forall j :: 0 <= j < i ==> alerts[j].id != a.id) &&
                (forall j :: 0 <= j < |alerts| && j != i ==> r[j] == alerts[j])
    ensures (forall i :: 0 <= i < |alerts| ==> alerts[i].id != a.id) ==>
              |r| == |alerts| + 1 && r[0] == a && r[1..] == alerts
    ensures UniqueAlertIds(alerts) ==> UniqueAlertIds(r)
  {
    match Seqs.FindFirst(alerts, (x: Alert) => x.id == a.id)
    case Some(i) => assert alerts[i := a][i] == a; alerts[i := a]
    case None => [a] + alerts
  }

  /** `alert_resolved` and `resolveAlert`: every alert with the given id is
      marked resolved; nothing else about the list changes. */
  function ResolveAlert(alerts: seq<Alert>, id: string): (r: seq<Alert>)
    ensures |r| == |alerts|
    ensures forall i :: 0 <= i < |r| ==>
              r[i].(resolved := alerts[i].resolved) == alerts[i] &&
              r[i].resolved == (alerts[i].resolved || alerts[i].id == id)
  {
    if |alerts| == 0 then []
    else
      var a := alerts[0];
      [if a.id == id then a.(resolved := true) else a] + ResolveAlert(alerts[1..], id)
  }

  // --------------------------------------------------------------------- step

  /** `handleMessage`: one message applied to the state. */
  function Step(s: State, msg: Message): (r: State)
    ensures msg.Welcome? || msg.Unrecognised? ==> r == s
    ensures !msg.TagTelemetry? ==> r.firefighters == s.firefighters
    ensures !(msg.BeaconsConfig? || msg.BeaconsStatus?) ==> r.beacons == s.beacons
    ensures !(msg.AlertRaised? || msg.AlertResolved?) ==> r.alerts == s.alerts
    ensures msg.BuildingConfig? ==> r.building == msg.building
    ensures !msg.BuildingConfig? ==> r.building == s.building
  {
    match msg
    case Welcome(_) => s
    case BuildingConfig(b) => s.(building := b)
    case BeaconsConfig(bs) => s.(beacons := ConfigMap(bs))
    case TagTelemetry(t) => s.(firefighters := UpsertTelemetry(s.firefighters, t))
    case BeaconsStatus(ps) => s.(beacons := ApplyPatches(s.beacons, ps))
    case AlertRaised(a) => s.(alerts := UpsertAlert(s.alerts, a))
    case AlertResolved(id) => s.(alerts := ResolveAlert(s.alerts, id))
    case Unrecognised(_) => s
  }

  /** A stream of messages applied in arrival order. */
  function Run(s: State, msgs: seq<Message>): State
    decreases |msgs|
  {
    if |msgs| == 0 then s else Run(Step(s, msgs[0]), msgs[1..])
  }
}
