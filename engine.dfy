/**
 * The location-update handler as the source runs it: a loop over the
 * member's groups with early skips, a read of the previous status record,
 * the alert, then the merge write. The status collection and the effect
 * trace are the mutable state.
 */
module Engine {
  import opened Wrappers
  import opened Documents
  import opened Geofence

  class GeofenceStore {
    /** groups/{groupId}/geofences/{memberId}, for every pair. */
    var statuses: map<StatusKey, Doc>
    /** Alerts, status writes and log observations, oldest first. */
    var trace: seq<Effect>

    constructor (initial: map<StatusKey, Doc>)
      ensures statuses == initial && trace == []
    {
      statuses := initial;
      trace := [];
    }

    /** The abstract value of the store. */
    function Snapshot(): State
      reads this
    {
      State(statuses, trace)
    }

    /** The alert channel: currently a log line, here an entry in the trace. */
    method SendGeofenceAlert(groupId: GroupId, memberId: MemberId, distance: real)
      modifies this
      ensures trace == old(trace) + [Alert(groupId, memberId, distance)]
      ensures statuses == old(statuses)
    {
      trace := trace + [Alert(groupId, memberId, distance)];
    }

    /** A log observation. */
    method Log(note: Note)
      modifies this
      ensures trace == old(trace) + [Observe(note)]
      ensures statuses == old(statuses)
    {
      trace := trace + [Observe(note)];
    }

    /** `geofence_ref.get().to_dict() or {}`. */
    method ReadStatus(key: StatusKey) returns (prev: Doc)
      ensures prev == Prev(statuses, key)
    {
      prev := Prev(statuses, key);
    }

    /** `geofence_ref.set(fields, merge=True)`: only the record at `key` changes. */
    method MergeStatus(key: StatusKey, fields: Doc)
      modifies this
      ensures statuses == old(statuses)[key := Merge(Prev(old(statuses), key), fields)]
      ensures trace == old(trace) + [StatusWritten(key)]
    {
      var prev := ReadStatus(key);
      statuses := statuses[key := prev + fields];
      trace := trace + [StatusWritten(key)];
    }

    /**
     * One iteration of the group loop: the skips, centre resolution,
     * classification, the read of the previous flag, the alert on a first
     * crossing and then the merge write.
     */
    method EvaluateGroup(ctx: Ctx, g: Group, now: string)
      modifies this
      ensures Snapshot() == Step(old(Snapshot()), ctx, g, now)
    {
      if g.geofenceConfig.None? {
        Log(GroupSkipped(g.id, NoGeofenceConfig));
        return;
      }
      var cfg := g.geofenceConfig.value;
      if ctx.member !in cfg.targetMemberIds {
        Log(GroupSkipped(g.id, NotTargeted));
        return;
      }
      if cfg.radiusInMeters.None? {
        Log(GroupSkipped(g.id, MissingRadius));
        return;
      }
      var radius := cfg.radiusInMeters.value;

      var center := ResolveCenter(g, cfg, ctx.users);
      if center.Err? {
        Log(GroupSkipped(g.id, center.error));
        return;
      }

      var distance := ctx.dist(ctx.pos.lat, ctx.pos.lon, center.value.lat, center.value.lon);
      var isOutside := distance > radius;

      var key := StatusKey(g.id, ctx.member);
      var prev := ReadStatus(key);
      if !WasOutside(prev) && isOutside {
        SendGeofenceAlert(g.id, ctx.member, distance);
      }
      MergeStatus(key, StatusFields(key, Classification(distance, isOutside), now));
    }

    /**
     * One invocation of the handler for a write to users/{phoneNumber}.
     * Its effect on the store and trace is exactly the specification `Pass`.
     */
    method OnUserLocationUpdate(ev: TriggerEvent, groups: seq<Group>, users: map<MemberId, UserDoc>,
                                dist: Distance, now: string)
      modifies this
      ensures Snapshot() == Pass(old(Snapshot()), ev, groups, users, dist, now)
    {
      var phone := ev.phoneNumber;
      if ev.after.None? {
        Log(PassAborted(phone, UserDeleted));
        return;
      }
      var lastLoc := ev.after.value.lastKnownLocation;
      if lastLoc.None? {
        Log(PassAborted(phone, NoLastKnownLocation));
        return;
      }
      var memberLat, memberLng := lastLoc.value.latitude, lastLoc.value.longitude;
      if memberLat.None? || memberLng.None? {
        Log(PassAborted(phone, MissingMemberCoordinates));
        return;
      }
      var ctx := Ctx(phone, Coord(memberLat.value, memberLng.value), users, dist);
      assert MemberPosition(ev) == Ok(ctx.pos);
      EvaluateGroups(ctx, MemberGroups(groups, phone), now);
    }

    /** The loop over the groups returned by the membership query, in order. */
    method EvaluateGroups(ctx: Ctx, matching: seq<Group>, now: string)
      modifies this
      ensures Snapshot() == Run(old(Snapshot()), ctx, matching, now)
    {
      ghost var st0 := Snapshot();
      var i := 0;
      while i < |matching|
        invariant 0 <= i <= |matching|
        invariant Snapshot() == Run(st0, ctx, matching[..i], now)
      {
        assert matching[..i + 1][..i] == matching[..i];
        EvaluateGroup(ctx, matching[i], now);
        i := i + 1;
      }
      assert matching[..|matching|] == matching;
    }
  }
}
