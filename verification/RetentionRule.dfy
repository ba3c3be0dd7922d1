/** The retention rule read off the fields of the recordings, and what it leaves alone: other
    tenants never, other rooms as long as there is no tenant cap. */
module RetentionRule {
  import opened Ordering
  import opened RecordingLedger
  import opened RetentionPolicy
  import opened RetentionCaps
  import RetentionRetry

  /** The capture has ended, and the blob may still be there. */
  ghost predicate Finished(r: Recording) {
    r.state == Available || r.state == Failed || r.state == Expired
  }

  /** The end of the capture, or else its start. */
  ghost function Anchor(r: Recording): int {
    if r.endedAt > 0 then r.endedAt else r.startedAt
  }

  /** Later anchor first, then the larger egress id. */
  ghost predicate After(x: Recording, r: Recording) {
    Anchor(x) > Anchor(r) || (Anchor(x) == Anchor(r) && Less(r.egressId, x.egressId))
  }

  ghost function NewerOfTenant(recs: set<Recording>, r: Recording): set<Recording> {
    set x | x in recs && Finished(x) && x.tenant == r.tenant && After(x, r)
  }

  ghost function NewerInRoom(recs: set<Recording>, r: Recording): set<Recording> {
    set x | x in recs && Finished(x) && x.tenant == r.tenant && x.room == r.room && After(x, r)
  }

  /** A whole number of seconds, the TTL before now or earlier. */
  ghost predicate TtlIsOver(p: Policy, r: Recording, now: int) {
    p.ttl > 0 && Anchor(r) > 0 && Anchor(r) * 1_000_000_000 <= now - p.ttl
  }

  /** Selected, in terms of the fields. */
  ghost predicate IsPast(p: Policy, recs: set<Recording>, r: Recording, now: int) {
    && r in recs && Finished(r)
    && (|| TtlIsOver(p, r, now)
        || (p.maxPerRoom > 0 && |NewerInRoom(recs, r)| >= p.maxPerRoom)
        || (p.maxPerTenant > 0 && |NewerOfTenant(recs, r)| >= p.maxPerTenant))
  }

  lemma RivalsInFields(recs: set<Recording>, r: Recording)
    requires r in recs && forall x :: x in recs ==> '\0' !in x.tenant
    ensures Rivals(recs, PerTenant, r) == NewerOfTenant(recs, r)
    ensures Rivals(recs, PerRoom, r) == NewerInRoom(recs, r)
  {
    forall x | x in recs
      ensures GroupKey(PerRoom, x) == GroupKey(PerRoom, r) <==> x.tenant == r.tenant && x.room == r.room
    {
      RoomGroupIsTenantAndRoom(x, r);
    }
  }

  /** What the sweeper selects is what the fields say, whatever bytes the rooms hold. */
  lemma SelectedInFields(p: Policy, recs: set<Recording>, r: Recording, now: int)
    requires forall x :: x in recs ==> '\0' !in x.tenant
    ensures Selected(p, recs, r, now) <==> IsPast(p, recs, r, now)
  {
    if r in recs { RivalsInFields(recs, r); }
  }

  /** So the ids the sweeper selects are those of the recordings the fields put past retention. */
  lemma SelectionInFields(p: Policy, recs: set<Recording>, now: int)
    requires forall x :: x in recs ==> '\0' !in x.tenant
    ensures SelectedIds(p, recs, now) == set r | r in recs && IsPast(p, recs, r, now) :: r.egressId
  {
    forall r ensures Selected(p, recs, r, now) <==> IsPast(p, recs, r, now) { SelectedInFields(p, recs, r, now); }
  }

  // ---- Isolation ------------------------------------------------------------------------------

  ghost function OfTenant(recs: set<Recording>, tenant: string): set<Recording> {
    set r | r in recs && r.tenant == tenant
  }

  ghost function OfRoom(recs: set<Recording>, tenant: string, room: string): set<Recording> {
    set r | r in recs && r.tenant == tenant && r.room == room
  }

  /** For every ledger, policy and clock: what is selected for a tenant is what would be selected if
      no other tenant had any recordings. */
  lemma TenantsAreIsolated(p: Policy, recs: set<Recording>, tenant: string, now: int)
    requires forall x :: x in recs ==> '\0' !in x.tenant
    ensures SelectedIds(p, OfTenant(recs, tenant), now)
         == set r | r in OfTenant(recs, tenant) && Selected(p, recs, r, now) :: r.egressId
  {
    var own := OfTenant(recs, tenant);
    forall r | r in own ensures Selected(p, own, r, now) <==> Selected(p, recs, r, now) {
      SelectedInFields(p, recs, r, now);
      SelectedInFields(p, own, r, now);
      assert NewerOfTenant(own, r) == NewerOfTenant(recs, r);
      assert NewerInRoom(own, r) == NewerInRoom(recs, r);
    }
  }

  ghost predicate RoomIsolated(p: Policy, recs: set<Recording>, r: Recording, now: int) {
    Tidy(recs) && r in recs ==>
      (Selected(p, recs, r, now) <==> Selected(p, OfRoom(recs, r.tenant, r.room), r, now))
  }

  ghost predicate RoomsAreIsolated(p: Policy) {
    forall recs, r, now :: RoomIsolated(p, recs, r, now)
  }

  lemma NoTenantCapIsolates(p: Policy, recs: set<Recording>, r: Recording, now: int)
    requires p.maxPerTenant <= 0
    ensures RoomIsolated(p, recs, r, now)
  {
    if Tidy(recs) && r in recs {
      var own := OfRoom(recs, r.tenant, r.room);
      SelectedInFields(p, recs, r, now);
      SelectedInFields(p, own, r, now);
      assert NewerInRoom(own, r) == NewerInRoom(recs, r);
    }
  }

  /** A quiet room's only recording, and enough newer ones of the tenant in another room. */
  lemma TenantCapReachesOver(p: Policy)
    requires p.maxPerTenant > 0
    ensures !RoomIsolated(p, Band(Site("t", QUIET), 0, p.maxPerTenant + 1), Entry(Site("t", QUIET), 1), MOMENT_NANOS)
  {
    var site, n := Site("t", QUIET), p.maxPerTenant + 1;
    var recs, r := Band(site, 0, n), Entry(site, 1);
    var own := OfRoom(recs, r.tenant, r.room);
    BandIsTidy(site, n);
    BandRivals(site, n, 1);
    BandSize(site, 1, n);
    NotYetPastTtl(p, r);
    assert r in recs;
    LessIrreflexive(r.egressId);
    forall s: Scope ensures Rivals(own, s, r) == {} {
      assert forall x :: x in own ==> x == r;
    }
  }

  /** A busy room does not evict another room's recordings, for every ledger, recording and clock,
      exactly when there is no tenant cap. */
  lemma RoomIsolationTheorem(p: Policy)
    ensures RoomsAreIsolated(p) <==> p.maxPerTenant <= 0
  {
    if p.maxPerTenant > 0 {
      TenantCapReachesOver(p);
    } else {
      forall recs, r, now ensures RoomIsolated(p, recs, r, now) { NoTenantCapIsolates(p, recs, r, now); }
    }
  }

  // ---- After a sweep ----------------------------------------------------------------------------

  lemma GroupsInFields(recs: set<Recording>, tenant: string, room: string)
    requires '\0' !in tenant && forall x :: x in recs ==> '\0' !in x.tenant
    ensures RetentionRetry.Group(recs, PerTenant, tenant) == set r | r in recs && Finished(r) && r.tenant == tenant
    ensures RetentionRetry.Group(recs, PerRoom, tenant + "\0" + room)
         == set r | r in recs && Finished(r) && r.tenant == tenant && r.room == room
  {
    forall r | r in recs
      ensures GroupKey(PerRoom, r) == tenant + "\0" + room <==> r.tenant == tenant && r.room == room
    {
      RoomGroupIsTenantAndRoom(r, r.(tenant := tenant, room := room));
    }
  }

  lemma SweptTenants(p: Policy, l: Ledger, now: int, confirmed: set<string>)
    requires forall id :: id in l ==> '\0' !in l[id].tenant
    ensures forall x :: x in RetentionRetry.AfterSweep(p, l, now, confirmed).Values ==> '\0' !in x.tenant
  {}

  /** When every delete was confirmed, no tenant has more finished recordings than its cap, and no
      room of a tenant more than its own. */
  lemma CapsHoldAfterwards(p: Policy, l: Ledger, now: int, confirmed: set<string>, tenant: string, room: string)
    requires Keyed(l) && SelectedIds(p, l.Values, now) <= confirmed
    requires '\0' !in tenant && forall id :: id in l ==> '\0' !in l[id].tenant
    ensures var after := RetentionRetry.AfterSweep(p, l, now, confirmed).Values;
            && (p.maxPerTenant > 0 ==> |set r | r in after && Finished(r) && r.tenant == tenant| <= p.maxPerTenant)
            && (p.maxPerRoom > 0 ==>
                  |set r | r in after && Finished(r) && r.tenant == tenant && r.room == room| <= p.maxPerRoom)
  {
    SweptTenants(p, l, now, confirmed);
    GroupsInFields(RetentionRetry.AfterSweep(p, l, now, confirmed).Values, tenant, room);
    RetentionRetry.ConfirmedSweepConverges(p, l, now, confirmed);
    assert p.Cap(PerTenant) == p.maxPerTenant && p.Cap(PerRoom) == p.maxPerRoom;
  }
}
