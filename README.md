# Geofence evaluation for member location updates

A Dafny model of the Cloud Function `on_user_location_update` of the
sheap app (`flutter/releases/sheap_app_v9/functions/main.py`). The function
runs when a user document `users/{phoneNumber}` is written. It checks that
the member has a last known location with both coordinates. It then walks
every group whose `memberIds` contain the member. For each group with a
`geofenceConfig` that targets the member, it resolves the geofence centre:
the leader's live location for the tag `"dynamicLeader"`, or the static
coordinates for any other tag. It classifies the member as outside when
the distance is strictly greater than `radiusInMeters`. It sends an alert
only when the stored `isOutsideGeofence` was not truthy (missing, false,
null, 0 or an empty string). Finally it
merge-writes `groups/{groupId}/geofences/{memberId}`.

Layout:

- `wrappers.dfy` (`Wrappers`): `Option` and `Result`.
- `documents.dfy` (`Documents`): the documents the pass reads and writes.
  The Firestore collections become values: users are a
  `map<MemberId, UserDoc>`, groups are a `seq<Group>` in collection order,
  and status records are a `map<StatusKey, Doc>` with `Doc` a map from
  field name to value. The merge write is map union.
- `geofence.dfy` (`Geofence`): the pass as pure functions. It covers
  location validation (`MemberPosition`), the `array_contains` query
  (`MemberGroups`), centre resolution (`ResolveCenter`), classification
  (`Classify`), one loop iteration (`Step`), the loop (`Run`) and the whole
  pass (`Pass`).
- `engine.dfy` (`Engine`): the handler as the source runs it. The class
  `GeofenceStore` holds the status records and an effect trace. Its methods
  are the alert, the log, the status read and the merge write. The handler
  `OnUserLocationUpdate`, its group loop `EvaluateGroups` and the loop body
  `EvaluateGroup` are proved equal to `Pass`, `Run` and `Step`.
- `properties.dfy` (`Properties`): lemmas about `Pass`, `Run` and `Step`.

The effect trace records, in order, every alert (`Alert(group, member,
distance)`), every status write (`StatusWritten(key)`) and every abort or
skip observation with its reason. This makes "the alert precedes the write"
and "no alert was sent" statements about the model.

The great-circle distance is a parameter `dist: (real, real, real, real) ->
real` about which nothing is assumed. Classification and alerting are
stated relative to the value it returns. The timestamp `now` is an opaque
string parameter, taken once per pass.

The model follows the code in these points:

- Any `type` other than `"dynamicLeader"` takes the static-centre branch.
  This includes an unknown or missing tag. It is not an exhaustive
  two-way variant.
- The written record has five fields: `groupId`, `memberId`,
  `isOutsideGeofence`, `updatedAt` and `distanceMeters`.
- `radiusInMeters` is only checked for presence. It is not checked to be
  positive.
- The alert call has no error handling, so the model has no dispatch
  failure.

## Model

| member | source | states |
|---|---|---|
| Geofence.Coordinates | flutter/releases/sheap_app_v9/functions/main.py:118-122 | a location yields a coordinate iff both latitude and longitude are present, and then exactly those two values |
| Geofence.MemberPosition | flutter/releases/sheap_app_v9/functions/main.py:104-125 | the pass proceeds iff the user document exists, has a non-empty `lastKnownLocation`, and that location has both coordinates; a deleted user and a missing location give their own abort reasons |
| Geofence.UserLocation | flutter/releases/sheap_app_v9/functions/main.py:169-171 | a leader without a user document reads as having no location (`.to_dict() or {}` then `.get`) |
| Geofence.MemberGroups | flutter/releases/sheap_app_v9/functions/main.py:129-133 | the groups walked are exactly the groups of the collection whose `memberIds` contain the member |
| Geofence.ResolveCenter | flutter/releases/sheap_app_v9/functions/main.py:161-204 | for `"dynamicLeader"`: no leader id or an empty one is `NoLeaderId`; a resolved centre is the leader's stored coordinates; a leader with both coordinates always resolves. For every other tag: resolves iff both static coordinates are present, to those coordinates, and fails only with `MissingStaticCoordinates`. A leader with no stored location is `LeaderHasNoLocation`; a leader location lacking a coordinate is `LeaderMissingCoordinates` |
| Geofence.Classify | flutter/releases/sheap_app_v9/functions/main.py:141-213 | a group is measured iff it has a config, the config targets the member, the radius is present and the centre resolves; a missing config, an untargeted member and a missing radius are each reported by their own reason, exactly in those cases; the distance is `dist(member, centre)` and the member is outside iff distance > radius (on the boundary is inside) |
| Geofence.WasOutside | flutter/releases/sheap_app_v9/functions/main.py:229-231 | a record without `isOutsideGeofence` reads as not outside; a stored boolean reads as itself |
| Documents.Truthy | flutter/releases/sheap_app_v9/functions/main.py:231 | a stored value is truthy iff it is not null, `false`, `0` or the empty string, as Python's `bool` decides |
| Geofence.FirstCrossing | flutter/releases/sheap_app_v9/functions/main.py:231-234 | an alert is due only when the member is now outside; with no stored flag it is due iff the member is outside; with a stored boolean `b` it is due iff `b` is false and the member is outside |
| Geofence.StatusFields | flutter/releases/sheap_app_v9/functions/main.py:240-248 | the written fields are exactly the five record fields, and the stored flag reads back as the new classification |
| Geofence.Step | flutter/releases/sheap_app_v9/functions/main.py:137-249 | one iteration adds a record only at (group, member), and only when the group is measured; every other record is unchanged; the trace is only appended to |
| Geofence.Run | flutter/releases/sheap_app_v9/functions/main.py:137 | the group loop never deletes a record and only appends to the trace |
| Geofence.Pass | flutter/releases/sheap_app_v9/functions/main.py:63-249 | a pass never deletes a status record and only appends to the trace |
| Documents.Merge | flutter/releases/sheap_app_v9/functions/main.py:240-249 | a merge write overwrites the supplied fields, keeps every other stored field, and creates the record if absent |
| Documents.Prev | flutter/releases/sheap_app_v9/functions/main.py:229-230 | a missing status record reads as the empty document |
| Engine.GeofenceStore.SendGeofenceAlert | flutter/releases/sheap_app_v9/functions/main.py:46-54 | an alert appends `Alert(group, member, distance)` to the trace and touches no record |
| Engine.GeofenceStore.Log | flutter/releases/sheap_app_v9/functions/main.py:104-107 | an observation is appended to the trace and touches no record |
| Engine.GeofenceStore.ReadStatus | flutter/releases/sheap_app_v9/functions/main.py:229-230 | reads the stored record, or the empty document when there is none |
| Engine.GeofenceStore.MergeStatus | flutter/releases/sheap_app_v9/functions/main.py:240-249 | only the record at the key changes, to the merge of its old fields with the supplied ones; the write is recorded in the trace |
| Engine.GeofenceStore.EvaluateGroup | flutter/releases/sheap_app_v9/functions/main.py:138-249 | the loop body's effect on records and trace is exactly `Step` |
| Engine.GeofenceStore.EvaluateGroups | flutter/releases/sheap_app_v9/functions/main.py:137-249 | the loop over the query's groups, in order, has exactly the effect `Run` on records and trace |
| Engine.GeofenceStore.OnUserLocationUpdate | flutter/releases/sheap_app_v9/functions/main.py:63-249 | the handler's effect on records and trace is exactly `Pass` |
| Properties.CrossingsExactly | flutter/releases/sheap_app_v9/functions/main.py:229-237 | both directions of the alert rule for a loop: every entry of the reference list `Crossings` is an alert for a measured group classified outside whose record was not outside; every such group has its alert in the list |
| Properties.StepAlerts | flutter/releases/sheap_app_v9/functions/main.py:233-237 | one iteration adds exactly the alert its group owes against the current records |
| Properties.RunFrame | flutter/releases/sheap_app_v9/functions/main.py:222-249 | a record that no measured group of the loop addresses stays exactly as it was |
| Properties.RunMeasured | flutter/releases/sheap_app_v9/functions/main.py:137-249 | with distinct group ids, each measured group ends with its record merged from its value before the loop, regardless of the other groups |
| Properties.RunAlerts | flutter/releases/sheap_app_v9/functions/main.py:229-237 | with distinct group ids, the alerts the loop adds are exactly `Crossings` against the records as they stood before the loop |
| Properties.NoCrossings | flutter/releases/sheap_app_v9/functions/main.py:231-234 | when every measured record already holds its new flag, no group owes an alert |
| Properties.StoredFlag | flutter/releases/sheap_app_v9/functions/main.py:231-248 | a record just merge-written reads back, as the previous flag, exactly the classification written |
| Properties.RerunNoCrossings | flutter/releases/sheap_app_v9/functions/main.py:229-237 | after a group loop, running the same groups again owes no alert |
| Properties.MemberGroupsUnique | flutter/releases/sheap_app_v9/functions/main.py:129-133 | the query keeps the collection's ids distinct |
| Properties.AbortedPassWritesNothing | flutter/releases/sheap_app_v9/functions/main.py:104-122 | a deleted user, a missing location, or a missing coordinate changes no record and sends no alert; the trace gains only the abort observation |
| Properties.SkippedRecordUnchanged | flutter/releases/sheap_app_v9/functions/main.py:129-213 | a (group, member) record whose groups exclude the member or are skipped (no config, member not targeted, radius missing, centre unresolvable) is unchanged; the earlier alerts stay in place and no new alert is for that group |
| Properties.UntargetedRecordUnchanged | flutter/releases/sheap_app_v9/functions/main.py:129-150 | a (group, member) record whose groups exclude the member, lack a config, or do not target the member is unchanged; the earlier alerts stay in place and no new alert is for that group |
| Properties.QualifyingGroupWritten | flutter/releases/sheap_app_v9/functions/main.py:135-249 | after a pass, each qualifying group's record holds the group id, member id, new flag, distance and the pass's one timestamp; every other stored field is kept; skipped siblings do not prevent this |
| Properties.PassAlerts | flutter/releases/sheap_app_v9/functions/main.py:229-237 | a pass adds exactly the first-crossing alerts of its groups, judged against the records before the pass, and none when it aborts |
| Properties.RemergeOnlyStamps | flutter/releases/sheap_app_v9/functions/main.py:240-249 | merging the same classification again changes only `updatedAt`, and nothing with the same timestamp |
| Properties.PassIdempotent | flutter/releases/sheap_app_v9/functions/main.py:229-249 | a second pass with the same inputs sends no alert and changes no record except `updatedAt`; with the same timestamp it changes nothing |
| Properties.RerunLoop | flutter/releases/sheap_app_v9/functions/main.py:137-249 | the group loop run twice: no new alert, same record keys, only `updatedAt` may differ |
| Properties.AlertPrecedesWrite | flutter/releases/sheap_app_v9/functions/main.py:234-249 | for a measured group, the new effects are the alert (only on a first crossing) followed by the status write, which is last |
| Properties.Flags | flutter/releases/sheap_app_v9/functions/main.py:213 | the flags of successive updates are their classifications, in order |
| Properties.ReplayAlertsPerEdge | flutter/releases/sheap_app_v9/functions/main.py:213-249 | over successive updates of one member in one group, the stored flag is always the latest classification, and the number of alerts equals the number of inside-to-outside edges, with an absent record counting as inside |

## Left out

- The haversine formula and `_to_rad` (main.py:14-39) are not modelled. Floating-point trigonometry becomes the uninterpreted parameter `dist`, so symmetry and zero distance for coincident points are not stated.
- Firebase initialisation, the document-written trigger and the Firestore client are I/O. Queries, point reads and merge writes act on the in-memory maps and sequence instead.
- The `[GEOFENCE]` and `[DISTANCE]` informational log lines are not in the trace. Only the abort and skip observations are.
- The clock `datetime.utcnow().isoformat()` is the parameter `now`.
- `float(...)` conversions: stored numbers are taken as reals already. A non-numeric radius or coordinate would raise in the source and end the whole pass early; the model has no such path.
- Falsy values are folded into `None`. An absent, null or empty-map `lastKnownLocation` or `geofenceConfig` is `None`. A latitude, longitude or radius that is absent or null is `None`. Only the log reason can tell these apart; nothing else in the pass can.
- `leaderId` is a string, and `targetMemberIds` is a list of strings. A numeric leader id passed through `str()`, or a string `targetMemberIds` (which Python would search as a substring), is not modelled.
- Stored field values are null, booleans, numbers and strings. Lists and maps stored in a status record are not modelled.
- Concurrent invocations racing between the status read and the merge write are not modelled. The source has no transaction, and the model covers one sequential pass.
- The unused local `crossed_at` (main.py:236) has no effect and is not modelled.
- Properties.PassIdempotent, Properties.PassAlerts, Properties.RunMeasured, Properties.RunAlerts, Properties.QualifyingGroupWritten, Properties.SkippedRecordUnchanged and Properties.UntargetedRecordUnchanged assume group ids are distinct. Firestore document ids guarantee this; the handler itself does not check it.
- Properties.ReplayAlertsPerEdge: it covers a run of updates that are all measured in the group. An update that is skipped leaves the record unchanged (`RunFrame`) and adds no alert (`StepAlerts`, since `CrossingOf` is empty when `Classify` fails), but the edge count is not stated across such gaps.
