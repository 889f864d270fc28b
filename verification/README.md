# Cyfrowy Nieśmiertelnik dashboard: live-state model

This project is a Dafny model of the client-side logic of the firefighter-tracking
dashboard ("Cyfrowy Nieśmiertelnik PSP"). The dashboard receives a live feed of tag
telemetry, beacon configuration and status, alerts and the building layout over a
WebSocket. It keeps that feed as four pieces of state, fetches each selected
firefighter's trajectory from a history endpoint, and draws everything on a floor
map and a 3D view.

The model covers:

- **Types** (`types.dfy`): the wire records and enumerations (`Position`, `Vitals`,
  `Scba`, `Telemetry`, `Beacon`, `Alert`, `Building`, …). For each enumeration
  there is a parser that accepts exactly its wire spellings. Optional members are
  `Option`s, so the datatypes themselves say which telemetry members are required
  (firefighter, position, vitals, device) and which are optional (heading, SCBA).
  `BeaconRecord` is a beacon object as the client holds it: only `id`
  is certain, because a status entry for an unknown beacon is stored as it
  arrived.
- **Reducer** (`reducer.dfy`, `reducer_lemmas.dfy`): `Step(state, message)` is the
  message handler. Telemetry is latest-wins, keyed by firefighter id. Beacon
  config replaces the map wholesale. Beacon status merges partial entries field by
  field. Alerts are upserted by id. Alert resolution flips one flag. The lemmas
  prove that the invariant holds over any message stream (unique alert ids, every
  entry under its own id). They also prove latest-wins telemetry over a whole
  stream, a per-beacon description of status merging, and the idempotence of
  alert delivery and resolution.
- **History** (`history.dfy`, `history_lemmas.dfy`): the fetched records are sorted
  by timestamp and projected to positions. The sort is proved ordered, a
  permutation and stable. The model also covers the hook's reaction to a missing
  id, to a failed or non-OK fetch, and to a body without a `records` array.
- **Map view** (`mapview.dfy`, `mapview_lemmas.dfy`, `text.dfy`): which markers are
  visible for a floor and a selection, how clicks change the selection, the trail
  of the selected firefighter, beacon icon letter/colour/opacity, range-circle
  radius, marker rotation, and name initials. The initials are proved equal to a
  character-level description of word starts.
- **3D view** (`scene3d.dfy`): floor-number → stack-index lookup with fallback 0,
  motion-state colour, axis mapping, vertical placement, and the placeholder shown
  when there is no building.
- **Top bar** (`dashboard.dfy`, `dashboard_lemmas.dfy`): the per-floor head count,
  the floor selector (P, 0, 1, 2) with badges, and the initial view.

Modelling choices:

- JavaScript truthiness is modelled where the code relies on it. An empty-string
  selection or history id counts as "none". `range_m || 15` falls back for an
  absent *or zero* range. `heading_deg || 0` is the heading or 0.
- JavaScript's `Array.prototype.sort` is stable, so the history sort is a stable
  insertion sort. Timestamps are the parsed epoch milliseconds, as integers.
- Coordinates and measurements are `real` (exact), and floor numbers are `int`.

Incoming `alert` messages are de-duplicated by alert `id` (`UpsertAlert`). This
front end keys alerts by nothing else.

## Model

| member | source | states |
|---|---|---|
| Types.ToBeacon | symulacja/src/types.ts:54-64 | A client-side beacon object reads back as a beacon exactly when it carries every required member, and converting that beacon again gives the same object |
| Types.ParseMotionState | symulacja/src/types.ts:20 | A string parses to a motion state exactly when it is that state's wire spelling |
| Types.AllMotionStates | symulacja/src/types.ts:20 | There are exactly six motion states, each listed once |
| Types.ParseBeaconType | symulacja/src/types.ts:57 | Only entry, anchor, stairs and hazard parse as beacon types, each to its own value |
| Types.ParseBeaconStatus | symulacja/src/types.ts:60 | Only active, offline and error parse as beacon statuses, each to its own value |
| Types.ParseAlertType | symulacja/src/types.ts:69 | Exactly the twelve alert-type spellings parse, each to its own kind |
| Types.AllAlertTypes | symulacja/src/types.ts:69 | There are exactly twelve alert kinds, each listed once |
| Types.ParseSeverity | symulacja/src/types.ts:70 | Only critical, warning and info parse as severities |
| Reducer.UpsertTelemetry | recreated_frontend/src/hooks/useSimulationData.ts:75-81 | After a telemetry message, its firefighter's entry is the whole message, the key set gains only that id, and every other entry is unchanged |
| Reducer.SetBeacons | recreated_frontend/src/hooks/useSimulationData.ts:72 | Setting beacons in order: keys grow by exactly the listed ids, a repeated id keeps its last occurrence, unlisted keys keep their value, and entries stay under their own ids |
| Reducer.ConfigMap | recreated_frontend/src/hooks/useSimulationData.ts:70-74 | After a beacon config, the key set is exactly the message's ids, earlier beacons are gone, and a duplicated id holds its last occurrence |
| Reducer.Merge | recreated_frontend/src/hooks/useSimulationData.ts:90 | A status patch overwrites exactly the members it carries and keeps every other member of the stored beacon; a complete beacon stays complete |
| Reducer.ApplyPatch | recreated_frontend/src/hooks/useSimulationData.ts:88-93 | A status entry for a known id merges into the stored beacon, and an unknown id is inserted as given; all other beacons are unchanged |
| Reducer.ApplyPatches | recreated_frontend/src/hooks/useSimulationData.ts:83-97 | A status message adds exactly the mentioned ids to the key set and leaves every unmentioned beacon unchanged |
| Reducer.UpsertAlert | recreated_frontend/src/hooks/useSimulationData.ts:98-109 | A known id replaces its first occurrence in place, keeping the length and all other positions. A new id is prepended and the length grows by one. Unique ids stay unique |
| Reducer.ResolveAlert | recreated_frontend/src/hooks/useSimulationData.ts:110-122 | Length and order are kept. Each alert is unchanged except that `resolved` becomes true exactly for alerts with the given id |
| Reducer.Step | recreated_frontend/src/hooks/useSimulationData.ts:62-115 | Welcome and unrecognised messages change nothing. Each message kind changes only its own piece of state. A building config replaces only the building |
| ReducerLemmas.StepPreservesValid | recreated_frontend/src/hooks/useSimulationData.ts:62-115 | Every message keeps alert ids unique and every map entry under its own id |
| ReducerLemmas.InitialIsValid | recreated_frontend/src/hooks/useSimulationData.ts:8-11 | The empty starting state satisfies the invariant |
| ReducerLemmas.RunPreservesValid | recreated_frontend/src/hooks/useSimulationData.ts:62-115 | Any stream of messages keeps the invariant |
| ReducerLemmas.RunLatestTelemetryWins | recreated_frontend/src/hooks/useSimulationData.ts:75-81 | After any stream, a firefighter's entry is the last telemetry message for that id; an id no message mentions keeps its old entry |
| ReducerLemmas.ApplyPatchesPerBeacon | recreated_frontend/src/hooks/useSimulationData.ts:83-97 | The stored object for each beacon is exactly what the status entries naming it make of its old value, applied in order |
| ReducerLemmas.MergeComposes | recreated_frontend/src/hooks/useSimulationData.ts:90 | Two successive patches equal one patch that merges them |
| ReducerLemmas.MergeIdempotent | recreated_frontend/src/hooks/useSimulationData.ts:90 | Applying the same patch twice equals applying it once |
| ReducerLemmas.MergeCompleteReplaces | recreated_frontend/src/hooks/useSimulationData.ts:90 | A full beacon with its optional members replaces the stored object. Without `range_m`, the stored range survives |
| ReducerLemmas.UpsertAlertIdempotent | recreated_frontend/src/hooks/useSimulationData.ts:98-109 | Re-delivering an alert leaves the list as one delivery did |
| ReducerLemmas.ResolveAlertIdempotent | recreated_frontend/src/hooks/useSimulationData.ts:110-122 | Resolving twice equals resolving once |
| ReducerLemmas.ResolveAlertNoOp | recreated_frontend/src/hooks/useSimulationData.ts:110-122 | Resolving an unknown id, or one whose alerts are already resolved, leaves the list unchanged |
| ReducerLemmas.ResolveAlertKeepsUniqueIds | recreated_frontend/src/hooks/useSimulationData.ts:110-122 | Resolution keeps alert ids unique |
| History.Insert | recreated_frontend/src/hooks/useFirefighterHistory.ts:29-31 | Inserting a record adds exactly that record and keeps a timestamp-ordered list ordered |
| History.SortByTime | recreated_frontend/src/hooks/useFirefighterHistory.ts:29-31 | The sorted records are ordered non-decreasingly by timestamp and are a permutation of the fetched records |
| History.Positions | recreated_frontend/src/hooks/useFirefighterHistory.ts:33 | The projection has one position per record, the i-th being the i-th record's position |
| History.OnFetched | recreated_frontend/src/hooks/useFirefighterHistory.ts:20-39 | A non-OK response or any failure empties the history. A body without a `records` array leaves it unchanged. Otherwise it becomes the positions of the sorted records |
| History.OnIdChanged | recreated_frontend/src/hooks/useFirefighterHistory.ts:10-13 | A null or empty firefighter id empties the history; otherwise it stays until the fetch ends |
| HistoryLemmas.SortedIsChronological | recreated_frontend/src/hooks/useFirefighterHistory.ts:29-31 | Neighbour-wise timestamp order implies order between any two records |
| HistoryLemmas.InsertKeepsStampOrder | recreated_frontend/src/hooks/useFirefighterHistory.ts:29-31 | Insertion puts the record ahead of the equally stamped ones and disturbs no other timestamp's records |
| HistoryLemmas.SortIsStable | recreated_frontend/src/hooks/useFirefighterHistory.ts:29-31 | Records with equal timestamps keep their response order |
| HistoryLemmas.InsertPositions | recreated_frontend/src/hooks/useFirefighterHistory.ts:29-33 | Inserting a record adds exactly its position to the projection |
| HistoryLemmas.SortKeepsPositions | recreated_frontend/src/hooks/useFirefighterHistory.ts:29-33 | The history's positions are the fetched positions rearranged, with none lost or added |
| HistoryLemmas.FetchedHistory | recreated_frontend/src/hooks/useFirefighterHistory.ts:27-34 | A successful fetch yields one point per record: the positions of a chronological, stable permutation of the records |
| Text.Split | symulacja/src/components/MapControl.tsx:215 | Splitting gives at least one piece, and no piece contains the separator |
| Text.JoinSplit | symulacja/src/components/MapControl.tsx:215 | Joining the split pieces with the separator gives back the name |
| MapView.VisibleFirefighters | symulacja/src/components/MapControl.tsx:209-211 | With a selection, exactly the entries with the selected id are shown, with their multiplicity and whatever their floor. Otherwise exactly the entries on the current floor are shown |
| Seqs.FilterAppend | symulacja/src/components/MapControl.tsx:209-211 | The marker filter keeps the input order: filtering two lists one after the other gives the two filtered lists one after the other |
| MapView.VisibleBeacons | symulacja/src/components/MapControl.tsx:177 | Beacons are shown only with no selection and the layer on, and then exactly those on the current floor |
| MapView.AfterClick | symulacja/src/components/MapControl.tsx:225 | A marker click deselects when its firefighter is the selected one and selects it otherwise. The background click handler (lines 49-51) always clears the selection |
| MapViewLemmas.ClickTwice | symulacja/src/components/MapControl.tsx:225 | Clicking one marker twice restores an empty selection or that marker's own selection. Starting from another firefighter's selection, the first click switches to this one and the second clears it |
| MapViewLemmas.ClickOnDrawnMarker | symulacja/src/components/MapControl.tsx:209-225 | With a selection, clicking any drawn marker clears it, since only the selected firefighter's markers are drawn. With no selection, clicking a drawn marker with a non-empty id selects that firefighter |
| MapView.SelectedPath | symulacja/src/components/MapControl.tsx:141 | The trail is the selected firefighter's history entry, or empty when there is no entry or no selection |
| MapView.IconFor | symulacja/src/components/MapControl.tsx:105-128 | The letter is E for entry, S for stairs and A otherwise. Offline forces red and opacity 0.5 whatever the type. Blue and amber appear only for online entry and stairs |
| MapView.RangeRadius | symulacja/src/components/MapControl.tsx:186 | The radius is `range_m`, or 15 when it is absent or zero |
| MapView.CircleFor | symulacja/src/components/MapControl.tsx:183-193 | A range circle is drawn exactly when the range layer is on. It is blue for an entry beacon and green otherwise. Its radius is `range_m`, or 15 when that is absent or zero, so it is positive unless the range given is negative |
| MapView.Rotation | symulacja/src/components/MapControl.tsx:214 | A marker's rotation is its heading, or 0 when the heading is missing |
| MapView.Initials | symulacja/src/components/MapControl.tsx:215 | Initials contain no spaces |
| MapView.MarkerFor | symulacja/src/components/MapControl.tsx:213-221 | A marker is highlighted exactly when its firefighter is selected, and carries the name's initials and the heading or 0 |
| MapViewLemmas.SplitWordStarts | symulacja/src/components/MapControl.tsx:215 | The first letters of the split pieces are the characters that start a word |
| MapViewLemmas.InitialsAreWordStarts | symulacja/src/components/MapControl.tsx:215 | Initials are the first characters of the non-empty space-separated words, in order, one per word, so never longer than the name |
| MapViewLemmas.SelectionShowsOneMarker | symulacja/src/components/MapControl.tsx:209-210 | In a list with one entry per firefighter, a selection shows exactly the selected firefighter's entry |
| Scene3D.FloorIndex | symulacja/src/components/Building3D.tsx:90-93 | The index is that of the first floor with the number, or 0 when none matches |
| Scene3D.MotionColour | symulacja/src/components/Building3D.tsx:61-62 | Stationary gives amber, fallen gives red, and every other motion state gives green |
| Scene3D.BuildScene | symulacja/src/components/Building3D.tsx:80-125 | With no building only the placeholder is shown. Otherwise: one slab per floor, the k-th at height 4·k; one figure per entry with API x→x and API y→z; each figure 0.5 above the slab of its floor. A figure on an unlisted floor stands 0.5 above the first slab, which is at ground level |
| Dashboard.Tally | recreated_frontend/src/App.tsx:26-29 | Counting adds each floor's occurrences to the count read as 0 when absent, and creates entries only for floors seen |
| Dashboard.FloorCounts | recreated_frontend/src/App.tsx:26-29 | A floor has an entry exactly when someone is on it, and the entry is its number of occupants |
| Dashboard.CountOn | recreated_frontend/src/App.tsx:106 | A floor without an entry reads as 0 |
| Dashboard.Decimal | recreated_frontend/src/App.tsx:105 | A floor caption renders the floor's magnitude as decimal digits whose value is the number, with no leading zero unless the number is 0 itself ("0") |
| Dashboard.FloorLabel | recreated_frontend/src/App.tsx:105 | The caption is 'P' exactly for floor −1. It is the decimal number for floors from 0 up, and a minus sign followed by the number's magnitude below −1 |
| Dashboard.FloorButtons | recreated_frontend/src/App.tsx:94-111 | One button each for −1, 0, 1, 2, highlighted exactly for the selected floor. A floor gets a badge exactly when its count is above 0, and the badge shows the count |
| DashboardLemmas.CountsSumToLength | recreated_frontend/src/App.tsx:26-29 | The per-floor counts sum to the number of firefighters |
| DashboardLemmas.BadgeIffOccupied | recreated_frontend/src/App.tsx:106-110 | A floor's badge appears exactly when someone is on that floor and shows how many |
| DashboardLemmas.FloorCaptions | recreated_frontend/src/App.tsx:94-105 | The selector reads P, 0, 1, 2 |
| DashboardLemmas.InitialViewShowsGroundFloor | recreated_frontend/src/App.tsx:22-23 | The view opens on floor 0 with no selection: only the ground-floor button is highlighted, and the map shows exactly the ground-floor firefighters |

## Left out

- WebSocket lifecycle (`connect`, open/close/error handlers, the 3000 ms reconnect timer, the `connected` flag) and `sendCommand`'s ready-state check: I/O and timers. The model takes a sequence of already parsed messages.
- JSON parsing and malformed payloads: the model assumes each message is well formed for its `type`. The source reacts to missing members case by case:
  - an `alert` without `id` matches no stored alert and is prepended as it arrived;
  - an `alert_resolved` without `alert_id` resolves nothing;
  - a `building_config` without `building` sets the building to `undefined`;
  - a `tag_telemetry` without `position` or `vitals` is stored as it arrived;
  - a `tag_telemetry` without `firefighter`, or a `beacons_status` without `beacons`, throws inside the state updater, outside the handler's `try`;
  - a `beacons_config` without `beacons` throws inside the handler, and the message is dropped. It treats JSON `null` and an absent member alike (both `None`).
- Reducer.Merge: a status entry that carries a member as JSON `null` (say `"range_m": null`) clears that member under `{ ...existing, ...b }`. `Merge` sees `None` and keeps the stored value instead, because the model does not distinguish `null` from an absent member.
- Map iteration order: the hook hands views `Array.from(map.values())`, ordered by insertion. Dafny maps are unordered, so the views take the list as a parameter.
- `fetch`, the request URL with its `limit=100` query, and JSON decoding in the history hook: network I/O. The model starts from the fetch outcome. It also leaves out the race in which a stale fetch for an earlier id completes after the selection changed.
- Invalid dates (a `NaN` comparator result) in the history sort: timestamps are assumed to parse to integers.
- `metersToLatLng`: floating-point trigonometry. Leaflet and Three.js rendering, DivIcon HTML and CSS, tooltips, `MapResizer`, the legend and camera settings other than the target: presentation only.
- The recreated copy of the map control and the sidebar: the first duplicates the icon rules modelled here over index-derived mock positions; the second is label rendering over mock data.
- The alerting backend, offline sweep, history ring buffer and server-side (firefighter, alert type) de-duplication: none of them is part of this front end.
- `NaN` values of `range_m` and `heading_deg`, which JavaScript also treats as falsy: numbers are exact reals here.
- MapView.Initials: names are sequences of Unicode scalar values, while JavaScript's `n[0]` takes the first UTF-16 code unit. For a word starting outside the Basic Multilingual Plane (an emoji, say), the source yields a lone high surrogate, and the model yields the whole character. Dafny strings cannot hold lone surrogates.
- The `uwb_measurements` list of a telemetry message, typed `any[]`, is not carried: nothing in these views reads it.
