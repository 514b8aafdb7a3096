/**
 * The geofence evaluation pass for one member location update, as pure
 * functions: validation of the member's location, the group query, centre
 * resolution, classification, the first-crossing rule and the merge write.
 * The great-circle distance is a parameter (`Distance`), the clock a string.
 */
module Geofence {
  import opened Wrappers
  import opened Documents

  /** The `type` tag that selects the leader's live location as centre. */
  const DynamicLeader := "dynamicLeader"

  /** Great-circle distance in metres between (lat1, lon1) and (lat2, lon2). */
  type Distance = (real, real, real, real) -> real

  /** Why a whole pass does nothing. */
  datatype AbortReason = UserDeleted | NoLastKnownLocation | MissingMemberCoordinates

  /** Why one group is skipped; the other groups of the pass still run. */
  datatype SkipReason =
    | NoGeofenceConfig
    | NotTargeted
    | MissingRadius
    | NoLeaderId
    | LeaderHasNoLocation
    | LeaderMissingCoordinates
    | MissingStaticCoordinates

  /** An observation written to the log. */
  datatype Note = PassAborted(member: MemberId, abort: AbortReason) | GroupSkipped(group: GroupId, skip: SkipReason)

  /** What a pass does to the outside world, in order. */
  datatype Effect =
    | Observe(note: Note)
    | Alert(groupId: GroupId, memberId: MemberId, distance: real)
    | StatusWritten(key: StatusKey)

  /** The status records together with the effects emitted so far. */
  datatype State = State(statuses: map<StatusKey, Doc>, trace: seq<Effect>)

  /** What one pass knows once the member's location is valid. */
  datatype Ctx = Ctx(member: MemberId, pos: Coord, users: map<MemberId, UserDoc>, dist: Distance)

  /** The measurement for one qualifying group. */
  datatype Classification = Classification(distance: real, isOutside: bool)

  /** Both coordinates of a location map, if both are present. */
  function Coordinates(loc: Location): (r: Option<Coord>)
    ensures r.Some? <==> loc.latitude.Some? && loc.longitude.Some?
    ensures r.Some? ==> r.value == Coord(loc.latitude.value, loc.longitude.value)
  {
    if loc.latitude.Some? && loc.longitude.Some? then Some(Coord(loc.latitude.value, loc.longitude.value)) else None
  }

  /** The member's position, or why the pass aborts before touching any group. */
  function MemberPosition(ev: TriggerEvent): (r: Result<Coord, AbortReason>)
    ensures r == Err(UserDeleted) <==> ev.after.None?
    ensures r == Err(NoLastKnownLocation) <==> ev.after.Some? && ev.after.value.lastKnownLocation.None?
    ensures r.Ok? <==> ev.after.Some? && ev.after.value.lastKnownLocation.Some?
                       && Coordinates(ev.after.value.lastKnownLocation.value).Some?
    ensures r.Ok? ==> Some(r.value) == Coordinates(ev.after.value.lastKnownLocation.value)
  {
    if ev.after.None? then Err(UserDeleted)
    else if ev.after.value.lastKnownLocation.None? then Err(NoLastKnownLocation)
    else match Coordinates(ev.after.value.lastKnownLocation.value)
      case None => Err(MissingMemberCoordinates)
      case Some(c) => Ok(c)
  }

  /** The `lastKnownLocation` of a user; a user without a document has none. */
  function UserLocation(users: map<MemberId, UserDoc>, id: MemberId): (r: Option<Location>)
    ensures id !in users ==> r.None?
  {
    if id in users then users[id].lastKnownLocation else None
  }

  /**
   * The groups whose `memberIds` contain the member, in collection order:
   * the `array_contains` query.
   */
  function MemberGroups(groups: seq<Group>, m: MemberId): (r: seq<Group>)
    ensures forall g :: g in r <==> g in groups && m in g.memberIds
    ensures |r| <= |groups|
  {
    if groups == [] then []
    else (if m in groups[0].memberIds then [groups[0]] else []) + MemberGroups(groups[1..], m)
  }

  /**
   * The centre of a group's geofence. The tag "dynamicLeader" uses the
   * leader's live location; every other tag, missing or unknown included,
   * uses the static coordinates of the configuration.
   */
  function ResolveCenter(g: Group, cfg: GeofenceConfig, users: map<MemberId, UserDoc>): (r: Result<Coord, SkipReason>)
    ensures cfg.kind == Some(DynamicLeader) ==>
      (r == Err(NoLeaderId) <==> g.leaderId.None? || g.leaderId == Some(""))
    ensures cfg.kind == Some(DynamicLeader) && r.Ok? ==>
      g.leaderId.Some? && g.leaderId.value != ""
      && UserLocation(users, g.leaderId.value).Some?
      && Coordinates(UserLocation(users, g.leaderId.value).value) == Some(r.value)
    ensures (cfg.kind == Some(DynamicLeader) && g.leaderId.Some? && g.leaderId.value != ""
             && UserLocation(users, g.leaderId.value).Some?
             && Coordinates(UserLocation(users, g.leaderId.value).value).Some?) ==> r.Ok?
    ensures cfg.kind != Some(DynamicLeader) ==>
      (r.Ok? <==> cfg.staticLatitude.Some? && cfg.staticLongitude.Some?)
      && (r.Ok? ==> r.value == Coord(cfg.staticLatitude.value, cfg.staticLongitude.value))
      && (r.Err? ==> r.error == MissingStaticCoordinates)
    ensures (cfg.kind == Some(DynamicLeader) && g.leaderId.Some? && g.leaderId.value != ""
             && UserLocation(users, g.leaderId.value).None?) ==> r == Err(LeaderHasNoLocation)
    ensures (cfg.kind == Some(DynamicLeader) && g.leaderId.Some? && g.leaderId.value != ""
             && UserLocation(users, g.leaderId.value).Some?
             && Coordinates(UserLocation(users, g.leaderId.value).value).None?) ==> r == Err(LeaderMissingCoordinates)
  {
    if cfg.kind == Some(DynamicLeader) then
      if g.leaderId.None? || g.leaderId.value == "" then Err(NoLeaderId)
      else match UserLocation(users, g.leaderId.value)
        case None => Err(LeaderHasNoLocation)
        case Some(loc) =>
          match Coordinates(loc)
          case None => Err(LeaderMissingCoordinates)
          case Some(c) => Ok(c)
    else if cfg.staticLatitude.None? || cfg.staticLongitude.None? then Err(MissingStaticCoordinates)
    else Ok(Coord(cfg.staticLatitude.value, cfg.staticLongitude.value))
  }

  /**
   * Classification of the member against one of its groups, or the reason
   * the group is skipped. A member exactly on the boundary is inside.
   */
  function Classify(ctx: Ctx, g: Group): (r: Result<Classification, SkipReason>)
    ensures r == Err(NoGeofenceConfig) <==> g.geofenceConfig.None?
    ensures r == Err(NotTargeted) <==>
      g.geofenceConfig.Some? && ctx.member !in g.geofenceConfig.value.targetMemberIds
    ensures r == Err(MissingRadius) <==>
      g.geofenceConfig.Some? && ctx.member in g.geofenceConfig.value.targetMemberIds
      && g.geofenceConfig.value.radiusInMeters.None?
    ensures r.Ok? <==>
      g.geofenceConfig.Some? && ctx.member in g.geofenceConfig.value.targetMemberIds
      && g.geofenceConfig.value.radiusInMeters.Some?
      && ResolveCenter(g, g.geofenceConfig.value, ctx.users).Ok?
    ensures r.Ok? ==>
      var cfg := g.geofenceConfig.value;
      var c := ResolveCenter(g, cfg, ctx.users).value;
      r.value.distance == ctx.dist(ctx.pos.lat, ctx.pos.lon, c.lat, c.lon)
      && (r.value.isOutside <==> r.value.distance > cfg.radiusInMeters.value)
  {
    if g.geofenceConfig.None? then Err(NoGeofenceConfig)
    else
      var cfg := g.geofenceConfig.value;
      if ctx.member !in cfg.targetMemberIds then Err(NotTargeted)
      else if cfg.radiusInMeters.None? then Err(MissingRadius)
      else match ResolveCenter(g, cfg, ctx.users)
        case Err(reason) => Err(reason)
        case Ok(c) =>
          var d := ctx.dist(ctx.pos.lat, ctx.pos.lon, c.lat, c.lon);
          Ok(Classification(d, d > cfg.radiusInMeters.value))
  }

  /** The stored flag read before the write: missing or falsy reads as inside. */
  predicate WasOutside(prev: Doc)
    ensures "isOutsideGeofence" !in prev ==> !WasOutside(prev)
    ensures forall b :: "isOutsideGeofence" in prev && prev["isOutsideGeofence"] == BoolV(b) ==> (WasOutside(prev) <==> b)
  {
    "isOutsideGeofence" in prev && Truthy(prev["isOutsideGeofence"])
  }

  /** The fields merge-written for a measured pair. */
  function StatusFields(key: StatusKey, c: Classification, now: string): (d: Doc)
    ensures d.Keys == {"groupId", "memberId", "isOutsideGeofence", "updatedAt", "distanceMeters"}
    ensures WasOutside(d) <==> c.isOutside
  {
    map[
      "groupId" := StrV(key.groupId),
      "memberId" := StrV(key.memberId),
      "isOutsideGeofence" := BoolV(c.isOutside),
      "updatedAt" := StrV(now),
      "distanceMeters" := NumV(c.distance)]
  }

  /** An alert is due exactly on a not-outside to outside edge. */
  predicate FirstCrossing(prev: Doc, c: Classification)
    ensures FirstCrossing(prev, c) ==> c.isOutside
    ensures "isOutsideGeofence" !in prev ==> (FirstCrossing(prev, c) <==> c.isOutside)
    ensures forall b :: "isOutsideGeofence" in prev && prev["isOutsideGeofence"] == BoolV(b) ==>
      (FirstCrossing(prev, c) <==> !b && c.isOutside)
  {
    !WasOutside(prev) && c.isOutside
  }

  /** One iteration of the group loop: skip with a note, or alert-then-merge. */
  function Step(st: State, ctx: Ctx, g: Group, now: string): (r: State)
    ensures r.statuses.Keys == st.statuses.Keys + (if Classify(ctx, g).Ok? then {StatusKey(g.id, ctx.member)} else {})
    ensures forall k :: k in st.statuses && k != StatusKey(g.id, ctx.member) ==> r.statuses[k] == st.statuses[k]
    ensures |r.trace| > |st.trace| && r.trace[..|st.trace|] == st.trace
  {
    match Classify(ctx, g)
    case Err(reason) => State(st.statuses, st.trace + [Observe(GroupSkipped(g.id, reason))])
    case Ok(c) =>
      var key := StatusKey(g.id, ctx.member);
      var prev := Prev(st.statuses, key);
      var alert := if FirstCrossing(prev, c) then [Alert(g.id, ctx.member, c.distance)] else [];
      State(st.statuses[key := Merge(prev, StatusFields(key, c, now))], st.trace + alert + [StatusWritten(key)])
  }

  /** The group loop over `gs`, in order. */
  function Run(st: State, ctx: Ctx, gs: seq<Group>, now: string): (r: State)
    ensures st.statuses.Keys <= r.statuses.Keys
    ensures |st.trace| <= |r.trace| && r.trace[..|st.trace|] == st.trace
    decreases |gs|
  {
    if gs == [] then st else Step(Run(st, ctx, gs[..|gs| - 1], now), ctx, gs[|gs| - 1], now)
  }

  /** The whole pass for one location update, with one timestamp `now` for every write. */
  function Pass(st: State, ev: TriggerEvent, groups: seq<Group>, users: map<MemberId, UserDoc>, dist: Distance, now: string): (r: State)
    ensures st.statuses.Keys <= r.statuses.Keys
    ensures |st.trace| <= |r.trace| && r.trace[..|st.trace|] == st.trace
  {
    match MemberPosition(ev)
    case Err(reason) => State(st.statuses, st.trace + [Observe(PassAborted(ev.phoneNumber, reason))])
    case Ok(pos) => Run(st, Ctx(ev.phoneNumber, pos, users, dist), MemberGroups(groups, ev.phoneNumber), now)
  }
}
