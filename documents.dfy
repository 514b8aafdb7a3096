/**
 * The Firestore documents the geofence pass reads and writes, with the
 * collections replaced by in-memory values:
 *
 *   users/{phoneNumber}                     -> UserDoc
 *   groups/{groupId}                        -> Group
 *   groups/{groupId}/geofences/{memberId}   -> Doc, keyed by StatusKey
 */
module Documents {
  import opened Wrappers

  /** A member is identified by the phone number that names its users/ document. */
  type MemberId = string
  type GroupId = string

  /** A geographic coordinate in degrees. */
  datatype Coord = Coord(lat: real, lon: real)

  /**
   * The `lastKnownLocation` map of a user. A coordinate is None when the key
   * is absent or holds null; the other keys of the map play no part.
   */
  datatype Location = Location(latitude: Option<real>, longitude: Option<real>)

  /**
   * The part of users/{phoneNumber} the pass reads. `lastKnownLocation` is
   * None for every value Python treats as false: absent, null or an empty map.
   */
  datatype UserDoc = UserDoc(lastKnownLocation: Option<Location>)

  /**
   * `geofenceConfig` of a group. `kind` is the free-form `type` tag, so an
   * unknown tag or a missing one is representable. `targetMemberIds` is the
   * list after `or []`, so an absent or null list is the empty sequence.
   */
  datatype GeofenceConfig = GeofenceConfig(
    kind: Option<string>,
    radiusInMeters: Option<real>,
    targetMemberIds: seq<MemberId>,
    staticLatitude: Option<real>,
    staticLongitude: Option<real>)

  /**
   * groups/{groupId}: `id` is the document id. `geofenceConfig` is None for
   * every falsy value (absent, null, empty map); `leaderId` is None when
   * absent or null.
   */
  datatype Group = Group(
    id: GroupId,
    memberIds: seq<MemberId>,
    leaderId: Option<string>,
    geofenceConfig: Option<GeofenceConfig>)

  /** The document-written trigger: the member id and the after-snapshot (None on deletion). */
  datatype TriggerEvent = TriggerEvent(phoneNumber: MemberId, after: Option<UserDoc>)

  /** A scalar value stored in a field of a status document. */
  datatype FieldValue = Null | BoolV(b: bool) | NumV(n: real) | StrV(s: string)

  /** Python truthiness of a stored value, as `bool(v)` computes it. */
  predicate Truthy(v: FieldValue)
    ensures Truthy(v) <==> v != Null && v != BoolV(false) && v != NumV(0.0) && v != StrV("")
  {
    match v
    case Null => false
    case BoolV(b) => b
    case NumV(n) => n != 0.0
    case StrV(s) => s != ""
  }

  /** A stored document: field name to value. */
  type Doc = map<string, FieldValue>

  /** The path groups/{groupId}/geofences/{memberId} of a status record. */
  datatype StatusKey = StatusKey(groupId: GroupId, memberId: MemberId)

  /** The document at `key`; a missing document reads as the empty map (`to_dict() or {}`). */
  function Prev(statuses: map<StatusKey, Doc>, key: StatusKey): (d: Doc)
    ensures key !in statuses ==> d == map[]
    ensures key in statuses ==> d == statuses[key]
  {
    if key in statuses then statuses[key] else map[]
  }

  /**
   * `set(fields, merge=True)`: every supplied field is overwritten, every
   * other field of the stored document is kept.
   */
  function Merge(prev: Doc, fields: Doc): (r: Doc)
    ensures r.Keys == prev.Keys + fields.Keys
    ensures forall f :: f in fields ==> r[f] == fields[f]
    ensures forall f :: f in prev && f !in fields ==> r[f] == prev[f]
  {
    prev + fields
  }
}
