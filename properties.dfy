/**
 * Properties of the geofence pass: aborts write nothing, skipped groups keep
 * their record, every qualifying group is merge-written with the pass's
 * timestamp regardless of skipped siblings, alerts are exactly the first
 * crossings measured against the records as they stood before the pass,
 * and a replayed pass neither alerts again nor changes anything but
 * `updatedAt`.
 */
module Properties {
  import opened Wrappers
  import opened Documents
  import opened Geofence

  /** Group document ids are unique within the groups collection. */
  predicate UniqueIds(gs: seq<Group>)
  {
    forall i, j :: 0 <= i < j < |gs| ==> gs[i].id != gs[j].id
  }

  /** The alerts of a trace, in order. */
  function AlertsOf(t: seq<Effect>): (r: seq<Effect>)
  {
    if t == [] then [] else (if t[0].Alert? then [t[0]] else []) + AlertsOf(t[1..])
  }

  /** The alerts of a trace are exactly its `Alert` entries. */
  lemma {:induction false} AlertsOfExactly(t: seq<Effect>)
    ensures forall e :: e in AlertsOf(t) <==> e in t && e.Alert?
    decreases |t|
  {
    if t != [] {
      AlertsOfExactly(t[1..]);
      assert forall e :: e in t <==> e == t[0] || e in t[1..];
    }
  }

  lemma ConcatAssoc<T>(a: seq<T>, b: seq<T>, c: seq<T>)
    ensures (a + b) + c == a + (b + c)
  {
  }

  lemma {:induction false} AlertsOfConcat(a: seq<Effect>, b: seq<Effect>)
    ensures AlertsOf(a + b) == AlertsOf(a) + AlertsOf(b)
    decreases |a|
  {
    if a == [] {
      assert a + b == b;
    } else {
      assert (a + b)[0] == a[0];
      assert (a + b)[1..] == a[1..] + b;
      AlertsOfConcat(a[1..], b);
      var head := if a[0].Alert? then [a[0]] else [];
      ConcatAssoc(head, AlertsOf(a[1..]), AlertsOf(b));
    }
  }

  /** The context of a pass whose member location is valid. */
  function PassCtx(ev: TriggerEvent, users: map<MemberId, UserDoc>, dist: Distance): (r: Ctx)
    requires MemberPosition(ev).Ok?
  {
    Ctx(ev.phoneNumber, MemberPosition(ev).value, users, dist)
  }

  /**
   * Reference definition of the alerts of a group loop: one per measured
   * group whose record, as it stood BEFORE the loop, was not outside and
   * whose new classification is outside.
   */
  function Crossings(statuses: map<StatusKey, Doc>, ctx: Ctx, gs: seq<Group>): (r: seq<Effect>)
    decreases |gs|
  {
    if gs == [] then []
    else Crossings(statuses, ctx, gs[..|gs| - 1]) + CrossingOf(statuses, ctx, gs[|gs| - 1])
  }

  /**
   * Both directions of the alert rule for a loop: every entry of `Crossings`
   * is an alert for a measured group classified outside whose record was not
   * outside, and every such group has its alert there.
   */
  lemma {:induction false} CrossingsExactly(statuses: map<StatusKey, Doc>, ctx: Ctx, gs: seq<Group>)
    ensures forall e :: e in Crossings(statuses, ctx, gs) ==>
      e.Alert? && e.memberId == ctx.member
      && exists g :: g in gs && g.id == e.groupId && Classify(ctx, g).Ok?
                     && Classify(ctx, g).value == Classification(e.distance, true)
                     && !WasOutside(Prev(statuses, StatusKey(g.id, ctx.member)))
    ensures forall g :: g in gs && Classify(ctx, g).Ok?
                        && FirstCrossing(Prev(statuses, StatusKey(g.id, ctx.member)), Classify(ctx, g).value)
                        ==> Alert(g.id, ctx.member, Classify(ctx, g).value.distance) in Crossings(statuses, ctx, gs)
    decreases |gs|
  {
    if gs != [] {
      var init, last := gs[..|gs| - 1], gs[|gs| - 1];
      CrossingsExactly(statuses, ctx, init);
      var ci, x := Crossings(statuses, ctx, init), CrossingOf(statuses, ctx, last);
      assert Crossings(statuses, ctx, gs) == ci + x;
      assert forall g :: g in init ==> g in gs;
      forall g | g in gs && Classify(ctx, g).Ok?
                 && FirstCrossing(Prev(statuses, StatusKey(g.id, ctx.member)), Classify(ctx, g).value)
        ensures Alert(g.id, ctx.member, Classify(ctx, g).value.distance) in ci + x
      {
        if g != last {
          assert g in init;
        }
      }
    }
  }

  /** The alert one group owes, judged against `statuses`. */
  function CrossingOf(statuses: map<StatusKey, Doc>, ctx: Ctx, g: Group): (r: seq<Effect>)
  {
    match Classify(ctx, g)
    case Err(_) => []
    case Ok(c) =>
      if FirstCrossing(Prev(statuses, StatusKey(g.id, ctx.member)), c)
      then [Alert(g.id, ctx.member, c.distance)] else []
  }

  /** One iteration adds exactly the alert that group owes against the current records. */
  lemma StepAlerts(st: State, ctx: Ctx, g: Group, now: string)
    ensures AlertsOf(Step(st, ctx, g, now).trace) == AlertsOf(st.trace) + CrossingOf(st.statuses, ctx, g)
  {
    var k := StatusKey(g.id, ctx.member);
    match Classify(ctx, g)
    case Err(reason) =>
      AlertsOfConcat(st.trace, [Observe(GroupSkipped(g.id, reason))]);
    case Ok(c) =>
      var alert := if FirstCrossing(Prev(st.statuses, k), c) then [Alert(g.id, ctx.member, c.distance)] else [];
      AlertsOfConcat(st.trace + alert, [StatusWritten(k)]);
      AlertsOfConcat(st.trace, alert);
  }

  /** Dropping the first group keeps ids distinct, and the first id occurs nowhere after it. */
  lemma UniqueIdsTail(groups: seq<Group>)
    requires UniqueIds(groups) && groups != []
    ensures UniqueIds(groups[1..])
    ensures forall h :: h in groups[1..] ==> h.id != groups[0].id
  {
    var rest := groups[1..];
    forall i, j | 0 <= i < j < |rest| ensures rest[i].id != rest[j].id {
      assert rest[i] == groups[i + 1] && rest[j] == groups[j + 1];
    }
    forall h | h in rest ensures h.id != groups[0].id {
      var i :| 0 <= i < |rest| && rest[i] == h;
      assert groups[i + 1] == h;
    }
  }

  /** Prefixing a group whose id is new keeps ids distinct. */
  lemma UniqueIdsCons(h: Group, r: seq<Group>)
    requires UniqueIds(r)
    requires forall x :: x in r ==> x.id != h.id
    ensures UniqueIds([h] + r)
  {
    var x := [h] + r;
    forall i, j | 0 <= i < j < |x| ensures x[i].id != x[j].id {
      assert x[j] == r[j - 1];
      if i > 0 {
        assert x[i] == r[i - 1];
      }
    }
  }

  lemma {:induction false} MemberGroupsUnique(groups: seq<Group>, m: MemberId)
    requires UniqueIds(groups)
    ensures UniqueIds(MemberGroups(groups, m))
    decreases |groups|
  {
    if groups != [] {
      UniqueIdsTail(groups);
      MemberGroupsUnique(groups[1..], m);
      var r := MemberGroups(groups[1..], m);
      assert forall x :: x in r ==> x in groups[1..];
      if m in groups[0].memberIds {
        UniqueIdsCons(groups[0], r);
        assert MemberGroups(groups, m) == [groups[0]] + r;
      } else {
        assert MemberGroups(groups, m) == r;
      }
    }
  }

  /** Ids of the groups before the last are distinct from the last one's. */
  lemma UniqueIdsInit(gs: seq<Group>)
    requires UniqueIds(gs) && gs != []
    ensures UniqueIds(gs[..|gs| - 1])
    ensures forall h :: h in gs[..|gs| - 1] ==> h.id != gs[|gs| - 1].id
  {
    var init := gs[..|gs| - 1];
    forall h | h in init ensures h.id != gs[|gs| - 1].id {
      var i :| 0 <= i < |init| && init[i] == h;
      assert gs[i] == h;
    }
  }

  /** A record that no measured group of the loop addresses is left exactly as it was. */
  lemma {:induction false} RunFrame(st: State, ctx: Ctx, gs: seq<Group>, now: string, k: StatusKey)
    requires forall g :: g in gs && StatusKey(g.id, ctx.member) == k ==> Classify(ctx, g).Err?
    ensures k in Run(st, ctx, gs, now).statuses <==> k in st.statuses
    ensures Prev(Run(st, ctx, gs, now).statuses, k) == Prev(st.statuses, k)
    decreases |gs|
  {
    if gs != [] {
      var init := gs[..|gs| - 1];
      assert forall g :: g in init ==> g in gs;
      RunFrame(st, ctx, init, now, k);
    }
  }

  /**
   * Every measured group of the loop ends with its record merge-written
   * from the record as it stood before the loop, whatever the other
   * groups did (skipped or not).
   */
  lemma {:induction false} RunMeasured(st: State, ctx: Ctx, gs: seq<Group>, now: string, g: Group)
    requires UniqueIds(gs) && g in gs && Classify(ctx, g).Ok?
    ensures StatusKey(g.id, ctx.member) in Run(st, ctx, gs, now).statuses
    ensures Run(st, ctx, gs, now).statuses[StatusKey(g.id, ctx.member)]
            == Merge(Prev(st.statuses, StatusKey(g.id, ctx.member)),
                     StatusFields(StatusKey(g.id, ctx.member), Classify(ctx, g).value, now))
    decreases |gs|
  {
    var init, last := gs[..|gs| - 1], gs[|gs| - 1];
    var k := StatusKey(g.id, ctx.member);
    UniqueIdsInit(gs);
    if last == g {
      RunFrame(st, ctx, init, now, k);
    } else {
      assert g in init;
      RunMeasured(st, ctx, init, now, g);
    }
  }

  /** The alerts of a loop over groups with distinct ids are exactly its crossings. */
  lemma {:induction false} RunAlerts(st: State, ctx: Ctx, gs: seq<Group>, now: string)
    requires UniqueIds(gs)
    ensures AlertsOf(Run(st, ctx, gs, now).trace) == AlertsOf(st.trace) + Crossings(st.statuses, ctx, gs)
    decreases |gs|
  {
    if gs != [] {
      var init, last := gs[..|gs| - 1], gs[|gs| - 1];
      UniqueIdsInit(gs);
      RunAlerts(st, ctx, init, now);
      var mid := Run(st, ctx, init, now);
      RunFrame(st, ctx, init, now, StatusKey(last.id, ctx.member));
      StepAlertsFramed(st.statuses, mid, ctx, last, now);
      var a0, c0, x := AlertsOf(st.trace), Crossings(st.statuses, ctx, init), CrossingOf(st.statuses, ctx, last);
      assert AlertsOf(mid.trace) == a0 + c0;
      assert Crossings(st.statuses, ctx, gs) == c0 + x;
      assert AlertsOf(Run(st, ctx, gs, now).trace) == (a0 + c0) + x;
      ConcatAssoc(a0, c0, x);
    }
  }

  /** One iteration adds the alert its group owes against any records that agree on its key. */
  lemma StepAlertsFramed(statuses: map<StatusKey, Doc>, mid: State, ctx: Ctx, g: Group, now: string)
    requires Prev(mid.statuses, StatusKey(g.id, ctx.member)) == Prev(statuses, StatusKey(g.id, ctx.member))
    ensures AlertsOf(Step(mid, ctx, g, now).trace) == AlertsOf(mid.trace) + CrossingOf(statuses, ctx, g)
  {
    StepAlerts(mid, ctx, g, now);
  }

  /** A loop whose every measured record already holds its new flag has no crossings. */
  lemma {:induction false} NoCrossings(statuses: map<StatusKey, Doc>, ctx: Ctx, gs: seq<Group>)
    requires forall g :: g in gs && Classify(ctx, g).Ok? ==>
      WasOutside(Prev(statuses, StatusKey(g.id, ctx.member))) == Classify(ctx, g).value.isOutside
    ensures Crossings(statuses, ctx, gs) == []
    decreases |gs|
  {
    if gs != [] {
      assert forall g :: g in gs[..|gs| - 1] ==> g in gs;
      NoCrossings(statuses, ctx, gs[..|gs| - 1]);
    }
  }

  // ---------------------------------------------------------------------
  // The pass as a whole
  // ---------------------------------------------------------------------

  /**
   * A deleted user, a missing or empty `lastKnownLocation`, or a missing
   * coordinate aborts the pass: no status record changes and no alert is
   * sent; only the abort is observed.
   */
  lemma AbortedPassWritesNothing(st: State, ev: TriggerEvent, groups: seq<Group>,
                                 users: map<MemberId, UserDoc>, dist: Distance, now: string)
    requires ev.after.None? || ev.after.value.lastKnownLocation.None?
             || ev.after.value.lastKnownLocation.value.latitude.None?
             || ev.after.value.lastKnownLocation.value.longitude.None?
    ensures Pass(st, ev, groups, users, dist, now).statuses == st.statuses
    ensures AlertsOf(Pass(st, ev, groups, users, dist, now).trace) == AlertsOf(st.trace)
    ensures Pass(st, ev, groups, users, dist, now).trace
            == st.trace + [Observe(PassAborted(ev.phoneNumber, MemberPosition(ev).error))]
  {
    AlertsOfConcat(st.trace, [Observe(PassAborted(ev.phoneNumber, MemberPosition(ev).error))]);
  }

  /**
   * A record (group, member) is untouched and gets no alert when every group
   * with that id that contains the member is skipped: no `geofenceConfig`,
   * member not targeted, radius missing or centre unresolvable. The alerts
   * before the pass stay in place and none of the new ones is for the group.
   */
  lemma SkippedRecordUnchanged(st: State, ev: TriggerEvent, groups: seq<Group>,
                               users: map<MemberId, UserDoc>, dist: Distance, now: string, gid: GroupId)
    requires UniqueIds(groups)
    requires MemberPosition(ev).Ok? ==>
      forall g :: g in groups && g.id == gid && ev.phoneNumber in g.memberIds ==>
        Classify(PassCtx(ev, users, dist), g).Err?
    ensures var k := StatusKey(gid, ev.phoneNumber);
      (k in Pass(st, ev, groups, users, dist, now).statuses <==> k in st.statuses)
      && Prev(Pass(st, ev, groups, users, dist, now).statuses, k) == Prev(st.statuses, k)
    ensures var a0 := AlertsOf(st.trace);
      var a := AlertsOf(Pass(st, ev, groups, users, dist, now).trace);
      && |a0| <= |a| && a[..|a0|] == a0
      && forall i :: |a0| <= i < |a| ==> !(a[i].Alert? && a[i].groupId == gid)
  {
    var k := StatusKey(gid, ev.phoneNumber);
    PassAlerts(st, ev, groups, users, dist, now);
    if MemberPosition(ev).Ok? {
      var ctx := PassCtx(ev, users, dist);
      var gs := MemberGroups(groups, ev.phoneNumber);
      MemberGroupsUnique(groups, ev.phoneNumber);
      RunFrame(st, ctx, gs, now, k);
      var a0: seq<Effect>, cs: seq<Effect> := AlertsOf(st.trace), Crossings(st.statuses, ctx, gs);
      var a: seq<Effect> := a0 + cs;
      CrossingsExactly(st.statuses, ctx, gs);
      forall i | |a0| <= i < |a|
        ensures !(a[i].Alert? && a[i].groupId == gid)
      {
        assert a[i] == cs[i - |a0|];
        assert cs[i - |a0|] in cs;
      }
    } else {
      AbortedPassWritesNothing(st, ev, groups, users, dist, now);
    }
  }

  /**
   * The common case of `SkippedRecordUnchanged`: every group with that id
   * excludes the member from `memberIds`, has no `geofenceConfig`, or does
   * not list the member in `targetMemberIds`.
   */
  lemma UntargetedRecordUnchanged(st: State, ev: TriggerEvent, groups: seq<Group>,
                                  users: map<MemberId, UserDoc>, dist: Distance, now: string, gid: GroupId)
    requires UniqueIds(groups)
    requires forall g :: g in groups && g.id == gid ==>
      ev.phoneNumber !in g.memberIds || g.geofenceConfig.None?
      || ev.phoneNumber !in g.geofenceConfig.value.targetMemberIds
    ensures var k := StatusKey(gid, ev.phoneNumber);
      (k in Pass(st, ev, groups, users, dist, now).statuses <==> k in st.statuses)
      && Prev(Pass(st, ev, groups, users, dist, now).statuses, k) == Prev(st.statuses, k)
    ensures var a0 := AlertsOf(st.trace);
      var a := AlertsOf(Pass(st, ev, groups, users, dist, now).trace);
      && |a0| <= |a| && a[..|a0|] == a0
      && forall i :: |a0| <= i < |a| ==> !(a[i].Alert? && a[i].groupId == gid)
  {
    SkippedRecordUnchanged(st, ev, groups, users, dist, now, gid);
  }

  /**
   * After a pass, every group that contains the member and qualifies
   * (configuration present, member targeted, radius present, centre
   * resolvable) holds the new flag, distance, the pass's single timestamp
   * and its ids in its record; every other field of that record is kept.
   * This holds whether or not sibling groups were skipped.
   */
  lemma QualifyingGroupWritten(st: State, ev: TriggerEvent, groups: seq<Group>,
                               users: map<MemberId, UserDoc>, dist: Distance, now: string, g: Group)
    requires UniqueIds(groups) && g in groups && ev.phoneNumber in g.memberIds
    requires MemberPosition(ev).Ok? && Classify(PassCtx(ev, users, dist), g).Ok?
    ensures var k := StatusKey(g.id, ev.phoneNumber);
      var c := Classify(PassCtx(ev, users, dist), g).value;
      var r := Pass(st, ev, groups, users, dist, now).statuses;
      && k in r
      && r[k].Keys == Prev(st.statuses, k).Keys + {"groupId", "memberId", "isOutsideGeofence", "updatedAt", "distanceMeters"}
      && r[k]["groupId"] == StrV(g.id)
      && r[k]["memberId"] == StrV(ev.phoneNumber)
      && r[k]["isOutsideGeofence"] == BoolV(c.isOutside)
      && r[k]["distanceMeters"] == NumV(c.distance)
      && r[k]["updatedAt"] == StrV(now)
      && forall f :: f in Prev(st.statuses, k) && f !in StatusFields(k, c, now) ==> r[k][f] == Prev(st.statuses, k)[f]
  {
    var ctx := PassCtx(ev, users, dist);
    var gs := MemberGroups(groups, ev.phoneNumber);
    MemberGroupsUnique(groups, ev.phoneNumber);
    RunMeasured(st, ctx, gs, now, g);
  }

  /**
   * The alerts a pass adds are exactly the first crossings of its groups,
   * judged against the records as they stood before the pass.
   */
  lemma PassAlerts(st: State, ev: TriggerEvent, groups: seq<Group>,
                   users: map<MemberId, UserDoc>, dist: Distance, now: string)
    requires UniqueIds(groups)
    ensures AlertsOf(Pass(st, ev, groups, users, dist, now).trace) == AlertsOf(st.trace) +
      if MemberPosition(ev).Ok?
      then Crossings(st.statuses, PassCtx(ev, users, dist), MemberGroups(groups, ev.phoneNumber))
      else []
  {
    if MemberPosition(ev).Ok? {
      MemberGroupsUnique(groups, ev.phoneNumber);
      RunAlerts(st, PassCtx(ev, users, dist), MemberGroups(groups, ev.phoneNumber), now);
    } else {
      AbortedPassWritesNothing(st, ev, groups, users, dist, now);
    }
  }

  /** Replaying a measured merge with another timestamp changes only `updatedAt`. */
  lemma RemergeOnlyStamps(prev: Doc, k: StatusKey, c: Classification, now: string, now2: string)
    ensures var once := Merge(prev, StatusFields(k, c, now));
      var twice := Merge(once, StatusFields(k, c, now2));
      twice.Keys == once.Keys && twice - {"updatedAt"} == once - {"updatedAt"}
      && (now2 == now ==> twice == once)
  {
    var once := Merge(prev, StatusFields(k, c, now));
    var twice := Merge(once, StatusFields(k, c, now2));
    assert twice - {"updatedAt"} == once - {"updatedAt"};
    if now2 == now {
      assert twice == once;
    }
  }

  /**
   * Running the pass a second time with the same event, groups, users and
   * distance emits no further alert and changes no record except for its
   * `updatedAt` field; with the same timestamp it changes nothing.
   */
  lemma PassIdempotent(st: State, ev: TriggerEvent, groups: seq<Group>,
                       users: map<MemberId, UserDoc>, dist: Distance, now: string, now2: string)
    requires UniqueIds(groups)
    ensures var st1 := Pass(st, ev, groups, users, dist, now);
      var st2 := Pass(st1, ev, groups, users, dist, now2);
      && AlertsOf(st2.trace) == AlertsOf(st1.trace)
      && st2.statuses.Keys == st1.statuses.Keys
      && (forall k :: k in st1.statuses ==> st2.statuses[k] - {"updatedAt"} == st1.statuses[k] - {"updatedAt"})
      && (now2 == now ==> st2.statuses == st1.statuses)
  {
    var st1 := Pass(st, ev, groups, users, dist, now);
    if MemberPosition(ev).Ok? {
      MemberGroupsUnique(groups, ev.phoneNumber);
      RerunLoop(st, PassCtx(ev, users, dist), MemberGroups(groups, ev.phoneNumber), now, now2);
    } else {
      AbortedPassWritesNothing(st1, ev, groups, users, dist, now2);
    }
  }

  /** The loop form of `PassIdempotent`. */
  lemma RerunLoop(st: State, ctx: Ctx, gs: seq<Group>, now: string, now2: string)
    requires UniqueIds(gs)
    ensures var st1 := Run(st, ctx, gs, now);
      var st2 := Run(st1, ctx, gs, now2);
      && AlertsOf(st2.trace) == AlertsOf(st1.trace)
      && st2.statuses.Keys == st1.statuses.Keys
      && (forall k :: k in st1.statuses ==> st2.statuses[k] - {"updatedAt"} == st1.statuses[k] - {"updatedAt"})
      && (now2 == now ==> st2.statuses == st1.statuses)
  {
    var st1 := Run(st, ctx, gs, now);
    var st2 := Run(st1, ctx, gs, now2);
    RunAlerts(st1, ctx, gs, now2);
    RerunNoCrossings(st, ctx, gs, now);
    assert AlertsOf(st1.trace) + [] == AlertsOf(st1.trace);
    forall k: StatusKey
      ensures (k in st2.statuses <==> k in st1.statuses)
      ensures k in st1.statuses ==> st2.statuses[k] - {"updatedAt"} == st1.statuses[k] - {"updatedAt"}
      ensures now2 == now && k in st1.statuses ==> st2.statuses[k] == st1.statuses[k]
    {
      RerunKey(st, ctx, gs, now, now2, k);
    }
  }

  /** After a loop, no group of the same loop owes an alert any more. */
  lemma RerunNoCrossings(st: State, ctx: Ctx, gs: seq<Group>, now: string)
    requires UniqueIds(gs)
    ensures Crossings(Run(st, ctx, gs, now).statuses, ctx, gs) == []
  {
    var st1 := Run(st, ctx, gs, now);
    forall g | g in gs && Classify(ctx, g).Ok?
      ensures WasOutside(Prev(st1.statuses, StatusKey(g.id, ctx.member))) == Classify(ctx, g).value.isOutside
    {
      RunMeasured(st, ctx, gs, now, g);
      StoredFlag(Prev(st.statuses, StatusKey(g.id, ctx.member)), StatusKey(g.id, ctx.member), Classify(ctx, g).value, now);
    }
    NoCrossings(st1.statuses, ctx, gs);
  }

  /** A record just merge-written reads back the flag that was written. */
  lemma StoredFlag(prev: Doc, k: StatusKey, c: Classification, now: string)
    ensures WasOutside(Merge(prev, StatusFields(k, c, now))) == c.isOutside
  {
    assert Merge(prev, StatusFields(k, c, now))["isOutsideGeofence"] == BoolV(c.isOutside);
  }

  /** Per record: a second loop over the same groups changes at most `updatedAt`. */
  lemma RerunKey(st: State, ctx: Ctx, gs: seq<Group>, now: string, now2: string, k: StatusKey)
    requires UniqueIds(gs)
    ensures var st1 := Run(st, ctx, gs, now);
      var st2 := Run(st1, ctx, gs, now2);
      && (k in st2.statuses <==> k in st1.statuses)
      && (k in st1.statuses ==> st2.statuses[k] - {"updatedAt"} == st1.statuses[k] - {"updatedAt"})
      && (now2 == now && k in st1.statuses ==> st2.statuses[k] == st1.statuses[k])
  {
    var st1 := Run(st, ctx, gs, now);
    if g :| g in gs && Classify(ctx, g).Ok? && StatusKey(g.id, ctx.member) == k {
      RunMeasured(st, ctx, gs, now, g);
      RunMeasured(st1, ctx, gs, now2, g);
      RemergeOnlyStamps(Prev(st.statuses, k), k, Classify(ctx, g).value, now, now2);
    } else {
      RunFrame(st1, ctx, gs, now2, k);
    }
  }

  // ---------------------------------------------------------------------
  // One (group, member) pair across one iteration and across updates
  // ---------------------------------------------------------------------

  /**
   * Within one iteration of a measured group the new effects are the alert,
   * if the edge is a first crossing, followed by the status write.
   */
  lemma AlertPrecedesWrite(st: State, ctx: Ctx, g: Group, now: string)
    requires Classify(ctx, g).Ok?
    ensures var k := StatusKey(g.id, ctx.member);
      var c := Classify(ctx, g).value;
      var t := Step(st, ctx, g, now).trace;
      && |t| > |st.trace|
      && t[..|st.trace|] == st.trace
      && t[|t| - 1] == StatusWritten(k)
      && (|t| == |st.trace| + 2 <==> FirstCrossing(Prev(st.statuses, k), c))
      && (FirstCrossing(Prev(st.statuses, k), c) ==> t[|st.trace|] == Alert(g.id, ctx.member, c.distance))
      && (!FirstCrossing(Prev(st.statuses, k), c) ==> |t| == |st.trace| + 1)
  {
  }

  /** One location update of the member: its pass context and its timestamp. */
  datatype Update = Update(ctx: Ctx, now: string)

  /** Successive updates of one member, each evaluated against group `g`. */
  function Replay(st: State, us: seq<Update>, g: Group): (r: State)
    decreases |us|
  {
    if us == [] then st else Step(Replay(st, us[..|us| - 1], g), us[|us| - 1].ctx, g, us[|us| - 1].now)
  }

  /** Every update is for member `m` and gets measured in `g`. */
  predicate AllMeasured(us: seq<Update>, g: Group, m: MemberId)
  {
    forall i :: 0 <= i < |us| ==> us[i].ctx.member == m && Classify(us[i].ctx, g).Ok?
  }

  /** The classification flags of the updates, in order. */
  function Flags(us: seq<Update>, g: Group, m: MemberId): (r: seq<bool>)
    requires AllMeasured(us, g, m)
    ensures |r| == |us|
    ensures forall i :: 0 <= i < |us| ==> r[i] == Classify(us[i].ctx, g).value.isOutside
    decreases |us|
  {
    if us == [] then []
    else Flags(us[..|us| - 1], g, m) + [Classify(us[|us| - 1].ctx, g).value.isOutside]
  }

  /** The latest flag, or `prev` when there is none. */
  function LastFlag(prev: bool, flags: seq<bool>): (r: bool)
  {
    if flags == [] then prev else flags[|flags| - 1]
  }

  /** Number of false-to-true edges in `[prev] + flags`. */
  function RisingEdges(prev: bool, flags: seq<bool>): (r: nat)
    decreases |flags|
  {
    if flags == [] then 0
    else
      var init := flags[..|flags| - 1];
      RisingEdges(prev, init) + if flags[|flags| - 1] && !LastFlag(prev, init) then 1 else 0
  }

  /**
   * Over successive updates of one member in one group, the stored flag is
   * always the latest classification, and one alert is sent per
   * inside-to-outside edge (an absent record counts as inside): no re-arm
   * state beyond the stored flag.
   */
  lemma {:induction false} ReplayAlertsPerEdge(st: State, us: seq<Update>, g: Group, m: MemberId)
    requires AllMeasured(us, g, m)
    ensures var k := StatusKey(g.id, m);
      var r := Replay(st, us, g);
      && WasOutside(Prev(r.statuses, k)) == LastFlag(WasOutside(Prev(st.statuses, k)), Flags(us, g, m))
      && |AlertsOf(r.trace)| == |AlertsOf(st.trace)| + RisingEdges(WasOutside(Prev(st.statuses, k)), Flags(us, g, m))
    decreases |us|
  {
    if us != [] {
      var init, u := us[..|us| - 1], us[|us| - 1];
      var k := StatusKey(g.id, m);
      assert AllMeasured(init, g, m) by {
        forall i | 0 <= i < |init| ensures init[i].ctx.member == m && Classify(init[i].ctx, g).Ok? {
          assert init[i] == us[i];
        }
      }
      ReplayAlertsPerEdge(st, init, g, m);
      var mid := Replay(st, init, g);
      StepAlerts(mid, u.ctx, g, u.now);
      var c := Classify(u.ctx, g).value;
      var prev0, fi := WasOutside(Prev(st.statuses, k)), Flags(init, g, m);
      assert Flags(us, g, m) == fi + [c.isOutside];
      assert Flags(us, g, m)[..|us| - 1] == fi;
      assert RisingEdges(prev0, Flags(us, g, m))
             == RisingEdges(prev0, fi) + if c.isOutside && !LastFlag(prev0, fi) then 1 else 0;
      assert |CrossingOf(mid.statuses, u.ctx, g)| == if c.isOutside && !LastFlag(prev0, fi) then 1 else 0;
      assert Replay(st, us, g) == Step(mid, u.ctx, g, u.now);
      StoredFlag(Prev(mid.statuses, k), k, c, u.now);
    }
  }
}
