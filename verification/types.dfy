/** The records and enumerations of the live-feed wire protocol (API v2.7.0),
    as the dashboard declares them. Numbers that are measurements are `real`;
    floor numbers are `int`, since they are compared for equality and used
    as keys. Optional members (`x?: T`) are `Option<T>`. */
module Types {
  import opened Wrappers

  datatype Position = Position(x: real, y: real, z: real, floor: int)

  datatype Firefighter = Firefighter(id: string, name: string, role: string, team: string, rank: Option<string>)

  datatype MotionState = Walking | Running | Stationary | Crawling | Fallen | Climbing

  datatype Vitals = Vitals(
    heartRateBpm: real,
    motionState: MotionState,
    stressLevel: Option<string>,
    stationaryDurationS: Option<real>)

  /** The SCBA alarm block: exactly three flags. */
  datatype ScbaAlarms = ScbaAlarms(lowPressure: bool, veryLowPressure: bool, motion: bool)

  datatype Scba = Scba(
    id: string,
    cylinderPressureBar: real,
    remainingTimeMin: real,
    batteryPercent: real,
    alarms: ScbaAlarms)

  datatype Device = Device(batteryPercent: real, uptimeS: Option<real>)

  /** A `tag_telemetry` payload: heading and SCBA are optional, everything
      else is required. The untyped UWB reading list is not carried. */
  datatype Telemetry = Telemetry(
    tagId: string,
    timestamp: string,
    firefighter: Firefighter,
    position: Position,
    headingDeg: Option<real>,
    vitals: Vitals,
    scba: Option<Scba>,
    device: Device)

  datatype BeaconType = Entry | Anchor | Stairs | Hazard

  datatype BeaconStatus = Active | Offline | Error

  /** A complete beacon, as a `beacons_config` message carries it. */
  datatype Beacon = Beacon(
    id: string,
    name: string,
    kind: BeaconType,
    position: Position,
    floor: int,
    status: BeaconStatus,
    batteryPercent: real,
    rangeM: Option<real>,
    tagsInRange: Option<seq<string>>)

  /** A beacon object as the client holds it. A `beacons_status` entry is a
      partial beacon (only `id` is certain) and, for an id not seen before,
      is stored as it arrived, so every member but `id` may be absent. */
  datatype BeaconRecord = BeaconRecord(
    id: string,
    name: Option<string>,
    kind: Option<BeaconType>,
    position: Option<Position>,
    floor: Option<int>,
    status: Option<BeaconStatus>,
    batteryPercent: Option<real>,
    rangeM: Option<real>,
    tagsInRange: Option<seq<string>>)

  /** A record carrying every member a complete beacon requires. */
  predicate Complete(r: BeaconRecord) {
    r.name.Some? && r.kind.Some? && r.position.Some? && r.floor.Some? &&
    r.status.Some? && r.batteryPercent.Some?
  }

  /** The client-side object for a complete beacon. */
  function FromBeacon(b: Beacon): (r: BeaconRecord)
    ensures Complete(r) && r.id == b.id
  {
    BeaconRecord(b.id, Some(b.name), Some(b.kind), Some(b.position), Some(b.floor),
                 Some(b.status), Some(b.batteryPercent), b.rangeM, b.tagsInRange)
  }

  /** Reads a client-side object back as a complete beacon, if it is one. */
  function ToBeacon(r: BeaconRecord): (b: Option<Beacon>)
    ensures b.Some? <==> Complete(r)
    ensures b.Some? ==> FromBeacon(b.value) == r
  {
    if Complete(r) then
      Some(Beacon(r.id, r.name.value, r.kind.value, r.position.value, r.floor.value,
                  r.status.value, r.batteryPercent.value, r.rangeM, r.tagsInRange))
    else None
  }

  datatype AlertType =
    | ManDown | SosPressed | HighHeartRate | LowBattery | ScbaLowPressure | ScbaCritical
    | BeaconOffline | TagOffline | HighTemperature | HighCo | LowOxygen | ExplosiveGas

  datatype Severity = Critical | Warning | Info

  datatype Alert = Alert(
    id: string,
    alertType: AlertType,
    severity: Severity,
    firefighter: Firefighter,
    position: Position,
    timestamp: string,
    resolved: bool)

  datatype Dimensions = Dimensions(widthM: real, depthM: real, heightM: real)

  datatype FloorInfo = FloorInfo(number: int, name: string, heightM: real)

  datatype EntryPoint = EntryPoint(id: string, x: real, y: real, floor: int, name: string)

  datatype Building = Building(dimensions: Dimensions, floors: seq<FloorInfo>, entryPoints: Option<seq<EntryPoint>>)

  // Wire spellings of the enumerations. Each `Parse…` accepts exactly the
  // spellings of its type, and each `All…` lists every value exactly once.

  function MotionStateName(m: MotionState): string {
    match m
    case Walking => "walking"
    case Running => "running"
    case Stationary => "stationary"
    case Crawling => "crawling"
    case Fallen => "fallen"
    case Climbing => "climbing"
  }

  function ParseMotionState(s: string): (r: Option<MotionState>)
    ensures forall m :: r == Some(m) <==> MotionStateName(m) == s
  {
    if s == "walking" then Some(Walking)
    else if s == "running" then Some(Running)
    else if s == "stationary" then Some(Stationary)
    else if s == "crawling" then Some(Crawling)
    else if s == "fallen" then Some(Fallen)
    else if s == "climbing" then Some(Climbing)
    else None
  }

  function AllMotionStates(): (r: seq<MotionState>)
    ensures |r| == 6
    ensures forall m :: m in r
    ensures forall i, j :: 0 <= i < j < |r| ==> r[i] != r[j]
  {
    var r := [Walking, Running, Stationary, Crawling, Fallen, Climbing];
    assert forall m :: (m == r[0] || m == r[1] || m == r[2] || m == r[3] || m == r[4] || m == r[5]) ==> m in r;
    r
  }

  function BeaconTypeName(t: BeaconType): string {
    match t
    case Entry => "entry"
    case Anchor => "anchor"
    case Stairs => "stairs"
    case Hazard => "hazard"
  }

  function ParseBeaconType(s: string): (r: Option<BeaconType>)
    ensures forall t :: r == Some(t) <==> BeaconTypeName(t) == s
  {
    if s == "entry" then Some(Entry)
    else if s == "anchor" then Some(Anchor)
    else if s == "stairs" then Some(Stairs)
    else if s == "hazard" then Some(Hazard)
    else None
  }

  function BeaconStatusName(t: BeaconStatus): string {
    match t
    case Active => "active"
    case Offline => "offline"
    case Error => "error"
  }

  function ParseBeaconStatus(s: string): (r: Option<BeaconStatus>)
    ensures forall t :: r == Some(t) <==> BeaconStatusName(t) == s
  {
    if s == "active" then Some(Active)
    else if s == "offline" then Some(Offline)
    else if s == "error" then Some(Error)
    else None
  }

  function AlertTypeName(a: AlertType): string {
    match a
    case ManDown => "man_down"
    case SosPressed => "sos_pressed"
    case HighHeartRate => "high_heart_rate"
    case LowBattery => "low_battery"
    case ScbaLowPressure => "scba_low_pressure"
    case ScbaCritical => "scba_critical"
    case BeaconOffline => "beacon_offline"
    case TagOffline => "tag_offline"
    case HighTemperature => "high_temperature"
    case HighCo => "high_co"
    case LowOxygen => "low_oxygen"
    case ExplosiveGas => "explosive_gas"
  }

  function ParseAlertType(s: string): (r: Option<AlertType>)
    ensures forall a :: r == Some(a) <==> AlertTypeName(a) == s
  {
    if s == "man_down" then Some(ManDown)
    else if s == "sos_pressed" then Some(SosPressed)
    else if s == "high_heart_rate" then Some(HighHeartRate)
    else if s == "low_battery" then Some(LowBattery)
    else if s == "scba_low_pressure" then Some(ScbaLowPressure)
    else if s == "scba_critical" then Some(ScbaCritical)
    else if s == "beacon_offline" then Some(BeaconOffline)
    else if s == "tag_offline" then Some(TagOffline)
    else if s == "high_temperature" then Some(HighTemperature)
    else if s == "high_co" then Some(HighCo)
    else if s == "low_oxygen" then Some(LowOxygen)
    else if s == "explosive_gas" then Some(ExplosiveGas)
    else None
  }

  function AllAlertTypes(): (r: seq<AlertType>)
    ensures |r| == 12
    ensures forall a :: a in r
    ensures forall i, j :: 0 <= i < j < |r| ==> r[i] != r[j]
  {
    var r := [ManDown, SosPressed, HighHeartRate, LowBattery, ScbaLowPressure, ScbaCritical,
              BeaconOffline, TagOffline, HighTemperature, HighCo, LowOxygen, ExplosiveGas];
    assert forall a :: (a == r[0] || a == r[1] || a == r[2] || a == r[3] || a == r[4] || a == r[5] ||
                        a == r[6] || a == r[7] || a == r[8] || a == r[9] || a == r[10] || a == r[11]) ==> a in r;
    r
  }

  function SeverityName(v: Severity): string {
    match v
    case Critical => "critical"
    case Warning => "warning"
    case Info => "info"
  }

  function ParseSeverity(s: string): (r: Option<Severity>)
    ensures forall v :: r == Some(v) <==> SeverityName(v) == s
  {
    if s == "critical" then Some(Critical)
    else if s == "warning" then Some(Warning)
    else if s == "info" then Some(Info)
    else None
  }
}
