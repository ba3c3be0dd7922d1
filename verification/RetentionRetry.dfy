/** After a sweep: a fully confirmed sweep leaves nothing to select; and as long as no webhook
    comes in between, a failed delete is certain to be tried again exactly when the two caps do
    not cross. */
module RetentionRetry {
  import opened Ordering
  import opened RecordingLedger
  import opened RetentionPolicy
  import opened RetentionCaps
  import opened RetentionSweep
  import UsageKey

  /** What webhooks produce: every eligible entry has a positive retention anchor, and tenants
      are free of NUL bytes. */
  ghost predicate WellFormed(l: Ledger) {
    && Keyed(l)
    && (forall id :: id in l && Eligible(l[id]) ==> l[id].RetainedFrom() > 0)
    && (forall id :: id in l ==> '\0' !in l[id].tenant)
  }

  ghost function AfterSweep(p: Policy, l: Ledger, now: int, confirmed: set<string>): Ledger {
    Swept(l, SelectedIds(p, l.Values, now), confirmed, UsageKey.UnixSeconds(now))
  }

  // ---- Convergence -------------------------------------------------------------------

  ghost function Group(recs: set<Recording>, scope: Scope, key: string): set<Recording> {
    set x | x in recs && Eligible(x) && GroupKey(scope, x) == key
  }

  /** The oldest of a group has all the others as rivals, and nobody has more. */
  lemma OldestRivals(recs: set<Recording>, scope: Scope, key: string) returns (oldest: Recording)
    requires DistinctIds(recs) && Group(recs, scope, key) != {}
    ensures oldest in Group(recs, scope, key)
    ensures |Rivals(recs, scope, oldest)| == |Group(recs, scope, key)| - 1
  {
    var g := Group(recs, scope, key);
    NewerLinear(recs);
    oldest := FirstOf((a, b) => Newer(b, a), g);
    assert Rivals(recs, scope, oldest) == g - {oldest};
  }

  lemma RivalsAreFewer(recs: set<Recording>, scope: Scope, r: Recording)
    requires DistinctIds(recs) && r in recs && Eligible(r)
    ensures |Rivals(recs, scope, r)| < |Group(recs, scope, GroupKey(scope, r))|
  {
    var g := Group(recs, scope, GroupKey(scope, r));
    NewerLinear(recs);
    SubsetSize(Rivals(recs, scope, r), g - {r});
  }

  /** A group holds at most `cap` eligible entries exactly when none of them is over the cap. */
  lemma NobodyOverCapMeansWithinCap(p: Policy, recs: set<Recording>, scope: Scope, key: string)
    requires DistinctIds(recs) && p.Cap(scope) > 0
    ensures (forall r :: r in Group(recs, scope, key) ==> !OverCap(p, recs, scope, r))
            <==> |Group(recs, scope, key)| <= p.Cap(scope)
  {
    if Group(recs, scope, key) != {} {
      var oldest := OldestRivals(recs, scope, key);
      forall r | r in Group(recs, scope, key)
        ensures |Rivals(recs, scope, r)| < |Group(recs, scope, key)|
      {
        RivalsAreFewer(recs, scope, r);
      }
    }
  }

  /** Entries the sweep neither marks nor deletes are untouched; the others change state only. */
  lemma SweptEntries(p: Policy, l: Ledger, now: int, confirmed: set<string>, id: string)
    requires Keyed(l) && id in l
    ensures var after := AfterSweep(p, l, now, confirmed);
            && Keyed(after) && id in after
            && (!Selected(p, l.Values, l[id], now) ==> after[id] == l[id])
            && (Selected(p, l.Values, l[id], now) ==>
                  after[id].state == if id in confirmed then Deleted else Expired)
            && after[id].RetainedFrom() == l[id].RetainedFrom()
            && forall s: Scope :: GroupKey(s, after[id]) == GroupKey(s, l[id])
  {
    SelectedMeans(p, l, now, id);
  }

  /** What stays eligible after a fully confirmed sweep was not selected. */
  lemma ConfirmedSweepSurvivors(p: Policy, l: Ledger, now: int, confirmed: set<string>, r: Recording)
    requires Keyed(l) && SelectedIds(p, l.Values, now) <= confirmed
    requires r in AfterSweep(p, l, now, confirmed).Values && Eligible(r)
    ensures r in l.Values && !Selected(p, l.Values, r, now)
  {
    var after := AfterSweep(p, l, now, confirmed);
    var id :| id in after && after[id] == r;
    SweptEntries(p, l, now, confirmed, id);
    SelectedMeans(p, l, now, id);
  }

  /** Fewer entries, none of them selected before: none selected now, and the caps hold. */
  lemma SurvivorsStay(p: Policy, recs: set<Recording>, left: set<Recording>, now: int)
    requires DistinctIds(recs) && DistinctIds(left)
    requires forall r :: r in left && Eligible(r) ==> r in recs && !Selected(p, recs, r, now)
    ensures SelectedIds(p, left, now) == {}
    ensures forall s: Scope, key: string :: p.Cap(s) > 0 ==> |Group(left, s, key)| <= p.Cap(s)
  {
    forall r, s: Scope | r in left && Eligible(r)
      ensures !OverCap(p, left, s, r)
    {
      SubsetSize(Rivals(left, s, r), Rivals(recs, s, r));
    }
    forall s: Scope, key: string | p.Cap(s) > 0
      ensures |Group(left, s, key)| <= p.Cap(s)
    {
      NobodyOverCapMeansWithinCap(p, left, s, key);
    }
  }

  /** When every selected delete is confirmed, the same clock selects nothing more and every
      group is within its cap. */
  lemma ConfirmedSweepConverges(p: Policy, l: Ledger, now: int, confirmed: set<string>)
    requires Keyed(l) && SelectedIds(p, l.Values, now) <= confirmed
    ensures SelectedIds(p, AfterSweep(p, l, now, confirmed).Values, now) == {}
    ensures forall s: Scope, key: string :: p.Cap(s) > 0 ==>
              |Group(AfterSweep(p, l, now, confirmed).Values, s, key)| <= p.Cap(s)
  {
    var after := AfterSweep(p, l, now, confirmed);
    forall r | r in after.Values && Eligible(r)
      ensures r in l.Values && !Selected(p, l.Values, r, now)
    {
      ConfirmedSweepSurvivors(p, l, now, confirmed, r);
    }
    SweptKeyed(l, SelectedIds(p, l.Values, now), confirmed, UsageKey.UnixSeconds(now));
    LedgerIds(p, l, now);
    LedgerIds(p, after, now);
    SurvivorsStay(p, l.Values, after.Values, now);
  }

  // ---- What keeps an entry selected -------------------------------------------------------

  /** What matters about an earlier ledger is still there: entries stay in their groups, the
      eligible ones that were not selected stay eligible and grow no older, and `id` is still
      eligible and as old as it was. */
  ghost predicate Carried(l: Ledger, l': Ledger, selected: set<string>, id: string) {
    && Keyed(l) && Keyed(l') && l.Keys <= l'.Keys
    && (forall x :: x in l ==> l'[x].tenant == l[x].tenant && l'[x].room == l[x].room)
    && (forall x :: x in l && x !in selected && Eligible(l[x]) ==>
          Eligible(l'[x]) && l[x].RetainedFrom() <= l'[x].RetainedFrom())
    && id in l && Eligible(l'[id]) && l'[id].RetainedFrom() == l[id].RetainedFrom()
  }

  /** Different entries have different successors. */
  lemma {:induction false} SuccessorsSize(a: set<Recording>, l': Ledger, b: set<Recording>)
    requires Keyed(l') && DistinctIds(a)
    requires forall x :: x in a ==> x.egressId in l' && l'[x.egressId] in b
    ensures |a| <= |b|
    decreases |a|
  {
    if a != {} {
      var x :| x in a;
      SuccessorsSize(a - {x}, l', b - {l'[x.egressId]});
    }
  }

  lemma StaysARival(l: Ledger, l': Ledger, selected: set<string>, scope: Scope, id: string, k: string)
    requires Carried(l, l', selected, id) && k in l && k !in selected && l[k] in Rivals(l.Values, scope, l[id])
    ensures l'[k] in Rivals(l'.Values, scope, l'[id])
  {
    assert l'[k] in l'.Values;
  }

  /** If none of the keepers was selected, the entry is still over the cap. */
  lemma KeepersKeep(p: Policy, l: Ledger, l': Ledger, now: int, scope: Scope, id: string)
    requires Carried(l, l', SelectedIds(p, l.Values, now), id)
    requires Eligible(l[id]) && OverCap(p, l.Values, scope, l[id])
    requires forall x :: x in Keepers(p, l.Values, scope, l[id]) ==> !Selected(p, l.Values, x, now)
    ensures OverCap(p, l'.Values, scope, l'[id])
  {
    LedgerIds(p, l, now);
    EnoughKeepers(p, l.Values, scope, l[id]);
    var keepers := Keepers(p, l.Values, scope, l[id]);
    forall x | x in keepers
      ensures x.egressId in l' && l'[x.egressId] in Rivals(l'.Values, scope, l'[id])
    {
      var k :| k in l && l[k] == x;
      SelectedMeans(p, l, now, k);
      StaysARival(l, l', SelectedIds(p, l.Values, now), scope, id, k);
    }
    SuccessorsSize(keepers, l', Rivals(l'.Values, scope, l'[id]));
  }

  /** If the caps do not cross, a rule that selected an entry by count keeps selecting it. */
  lemma CountRuleRetries(p: Policy, l: Ledger, l': Ledger, now: int, id: string)
    requires WellFormed(l) && !CapsCross(p) && Carried(l, l', SelectedIds(p, l.Values, now), id)
    requires Eligible(l[id]) && !PastTtl(p, l[id], now)
    requires OverCap(p, l.Values, PerRoom, l[id]) || OverCap(p, l.Values, PerTenant, l[id])
    ensures OverCap(p, l'.Values, PerRoom, l'[id]) || OverCap(p, l'.Values, PerTenant, l'[id])
  {
    var recs, r := l.Values, l[id];
    var scope := if OverCap(p, recs, PerTenant, r) then PerTenant else PerRoom;
    LedgerIds(p, l, now);
    forall x | x in Keepers(p, recs, scope, r) ensures !Selected(p, recs, x, now) {
      assert !PastTtl(p, x, now);
      if scope.PerTenant? {
        if OverCap(p, recs, PerRoom, x) { RoomCapImpliesTenantCap(p, recs, x); }
      } else if OverCap(p, recs, PerTenant, x) {
        RoomGroupIsTenantAndRoom(x, r);
        OlderIsOverCapToo(p, recs, PerTenant, x, r);
      }
    }
    KeepersKeep(p, l, l', now, scope, id);
  }

  lemma SelectedWhen(p: Policy, recs: set<Recording>, r: Recording, now: int)
    requires r in recs && Eligible(r)
    requires PastTtl(p, r, now) || OverCap(p, recs, PerRoom, r) || OverCap(p, recs, PerTenant, r)
    ensures Selected(p, recs, r, now)
  {}

  /** An entry that was selected, and is carried over, is selected again at any later clock; and at
      any clock at all if there is no TTL. */
  lemma SelectedAgain(p: Policy, l: Ledger, l': Ledger, now: int, later: int, id: string)
    requires WellFormed(l) && !CapsCross(p) && (now <= later || p.ttl <= 0)
    requires id in SelectedIds(p, l.Values, now) && Carried(l, l', SelectedIds(p, l.Values, now), id)
    ensures id in SelectedIds(p, l'.Values, later)
  {
    SelectedMeans(p, l, now, id);
    assert l'[id] in l'.Values;
    if PastTtl(p, l[id], now) {
      assert PastTtl(p, l'[id], later);
    } else {
      CountRuleRetries(p, l, l', now, id);
    }
    SelectedWhen(p, l'.Values, l'[id], later);
    SelectedMeans(p, l', later, id);
  }

  // ---- Two sweeps and nothing in between ---------------------------------------------------

  /** With no webhook in between, an entry whose delete failed is selected by the next sweep. */
  ghost predicate Retried(p: Policy, l: Ledger, confirmed: set<string>, now: int, later: int, id: string) {
    WellFormed(l) && now <= later && id in SelectedIds(p, l.Values, now) && id !in confirmed
    ==> id in SelectedIds(p, AfterSweep(p, l, now, confirmed).Values, later)
  }

  /** With no webhook in between, the policy never lets a failed delete be forgotten, whatever the
      ledger and the deleter do. */
  ghost predicate AlwaysRetries(p: Policy) {
    forall l, confirmed, now, later, id :: Retried(p, l, confirmed, now, later, id)
  }

  /** The same, whatever the clock of the next sweep shows. */
  ghost predicate RetriedAnyClock(p: Policy, l: Ledger, confirmed: set<string>, now: int, later: int, id: string) {
    WellFormed(l) && id in SelectedIds(p, l.Values, now) && id !in confirmed
    ==> id in SelectedIds(p, AfterSweep(p, l, now, confirmed).Values, later)
  }

  ghost predicate AlwaysRetriesAnyClock(p: Policy) {
    forall l, confirmed, now, later, id :: RetriedAnyClock(p, l, confirmed, now, later, id)
  }

  /** A sweep carries over what it does not delete. */
  ghost predicate SameAgeAndPlace(before: Recording, after: Recording) {
    before.tenant == after.tenant && before.room == after.room && before.RetainedFrom() == after.RetainedFrom()
  }

  lemma SweptStaysInPlace(l: Ledger, selected: set<string>, confirmed: set<string>, at: int)
    ensures var after := Swept(l, selected, confirmed, at);
            && after.Keys == l.Keys
            && (forall x :: x in l ==> SameAgeAndPlace(l[x], after[x]))
            && (forall x :: x in l && x !in selected ==> after[x] == l[x])
            && (forall x :: x in l && x in selected && x !in confirmed ==> after[x].state == Expired)
  {}

  lemma SweepCarries(p: Policy, l: Ledger, now: int, confirmed: set<string>, id: string)
    requires Keyed(l) && id in SelectedIds(p, l.Values, now) && id !in confirmed
    ensures Carried(l, AfterSweep(p, l, now, confirmed), SelectedIds(p, l.Values, now), id)
  {
    var selected, at := SelectedIds(p, l.Values, now), UsageKey.UnixSeconds(now);
    LedgerIds(p, l, now);
    SweptKeyed(l, selected, confirmed, at);
    SweptStaysInPlace(l, selected, confirmed, at);
    StaysCarried(l, Swept(l, selected, confirmed, at), selected, id);
  }

  lemma StaysCarried(l: Ledger, l': Ledger, selected: set<string>, id: string)
    requires Keyed(l) && Keyed(l') && l'.Keys == l.Keys && id in l && l'[id].state == Expired
    requires forall x :: x in l ==> SameAgeAndPlace(l[x], l'[x])
    requires forall x :: x in l && x !in selected ==> l'[x] == l[x]
    ensures Carried(l, l', selected, id)
  {}

  lemma FailedIsSelected(p: Policy, l: Ledger, confirmed: set<string>, now: int, later: int, id: string)
    requires WellFormed(l) && !CapsCross(p) && (now <= later || p.ttl <= 0)
    requires id in SelectedIds(p, l.Values, now) && id !in confirmed
    ensures id in SelectedIds(p, AfterSweep(p, l, now, confirmed).Values, later)
  {
    SweepCarries(p, l, now, confirmed, id);
    SelectedAgain(p, l, AfterSweep(p, l, now, confirmed), now, later, id);
  }

  lemma UncrossedCapsRetry(p: Policy, l: Ledger, confirmed: set<string>, now: int, later: int, id: string)
    requires !CapsCross(p)
    ensures Retried(p, l, confirmed, now, later, id)
    ensures p.ttl <= 0 ==> RetriedAnyClock(p, l, confirmed, now, later, id)
  {
    if WellFormed(l) && (now <= later || p.ttl <= 0) && id in SelectedIds(p, l.Values, now) && id !in confirmed {
      FailedIsSelected(p, l, confirmed, now, later, id);
    }
  }

  // ---- When the caps cross -----------------------------------------------------------

  ghost function BandLedger(site: Site, n: nat): Ledger {
    map id | id in (set i | 0 < i <= n :: Tag(i)) :: Entry(site, |id|)
  }

  lemma BandLedgerFacts(site: Site, n: nat)
    requires '\0' !in site.tenant
    ensures var l := BandLedger(site, n);
            && WellFormed(l) && l.Values == Band(site, 0, n)
            && (forall i :: 1 <= i <= n ==> Tag(i) in l && l[Tag(i)] == Entry(site, i))
            && (forall id :: id in l ==> 1 <= |id| <= n && id == Tag(|id|))
  {
    var l := BandLedger(site, n);
    forall i | 1 <= i <= n ensures Tag(i) in l && l[Tag(i)] == Entry(site, i) && Entry(site, i) in l.Values {
      assert |Tag(i)| == i;
    }
    forall id | id in l ensures id == Tag(|id|) && 1 <= |id| <= n {
      var i :| 0 < i <= n && id == Tag(i);
    }
  }

  predicate Crossing(p: Policy, site: Site, n: nat) {
    CapsCross(p) && n == p.maxPerTenant + 1 && '\0' !in site.tenant && site.first == QUIET
  }

  /** The band after a sweep in which only the first recording's delete failed. */
  ghost function AfterCrossing(p: Policy, site: Site, n: nat): Ledger {
    var l := BandLedger(site, n);
    AfterSweep(p, l, MOMENT_NANOS, l.Keys - {Tag(1)})
  }

  /** A busy recording is selected if it has at least `maxPerRoom` newer ones. */
  lemma CrossingSelected(p: Policy, site: Site, n: nat, i: nat)
    requires Crossing(p, site, n) && 2 <= i <= n
    ensures Selected(p, Band(site, 0, n), Entry(site, i), MOMENT_NANOS) <==> i <= n - p.maxPerRoom
  {
    BandRivals(site, n, i);
    BandSize(site, i, n);
    NotYetPastTtl(p, Entry(site, i));
    assert Entry(site, i) in Band(site, 0, n);
  }

  /** Then it is deleted, and the others are untouched. */
  lemma CrossingOutcome(p: Policy, site: Site, n: nat, i: nat)
    requires Crossing(p, site, n) && 2 <= i <= n
    ensures var after := AfterCrossing(p, site, n);
            Tag(i) in after &&
            if i <= n - p.maxPerRoom then after[Tag(i)].state == Deleted else after[Tag(i)] == Entry(site, i)
  {
    var l := BandLedger(site, n);
    BandLedgerFacts(site, n);
    CrossingSelected(p, site, n, i);
    assert |Tag(i)| != |Tag(1)|;
    SweptEntries(p, l, MOMENT_NANOS, l.Keys - {Tag(1)}, Tag(i));
  }

  lemma CrossingSurvivor(p: Policy, site: Site, n: nat, id: string)
    requires Crossing(p, site, n)
    requires id in AfterCrossing(p, site, n) && Eligible(AfterCrossing(p, site, n)[id]) && id != Tag(1)
    ensures var r := AfterCrossing(p, site, n)[id]; r in Band(site, n - p.maxPerRoom, n) && r.room == BUSY
  {
    var l := BandLedger(site, n);
    BandLedgerFacts(site, n);
    SweptKeyed(l, SelectedIds(p, l.Values, MOMENT_NANOS), l.Keys - {Tag(1)}, UsageKey.UnixSeconds(MOMENT_NANOS));
    CrossingOutcome(p, site, n, |id|);
  }

  lemma CrossingFirstSelected(p: Policy, site: Site, n: nat)
    requires Crossing(p, site, n)
    ensures Selected(p, Band(site, 0, n), Entry(site, 1), MOMENT_NANOS)
  {
    BandRivals(site, n, 1);
    BandSize(site, 1, n);
    assert Entry(site, 1) in Band(site, 0, n);
    assert OverCap(p, Band(site, 0, n), PerTenant, Entry(site, 1));
  }

  /** The first recording is selected, and left expired by the failed delete. */
  lemma CrossingFirstFails(p: Policy, site: Site, n: nat)
    requires Crossing(p, site, n)
    ensures var after := AfterCrossing(p, site, n);
            && Tag(1) in SelectedIds(p, BandLedger(site, n).Values, MOMENT_NANOS)
            && Keyed(after) && Tag(1) in after
            && after[Tag(1)] == FirstFailed(site)
  {
    var l := BandLedger(site, n);
    BandLedgerFacts(site, n);
    CrossingFirstSelected(p, site, n);
    SelectedMeans(p, l, MOMENT_NANOS, Tag(1));
    SweptEntries(p, l, MOMENT_NANOS, l.Keys - {Tag(1)}, Tag(1));
  }

  lemma SameAge(p: Policy, a: Recording, b: Recording, now: int)
    requires a.RetainedFrom() == b.RetainedFrom()
    ensures PastTtl(p, a, now) <==> PastTtl(p, b, now)
  {}

  /** The first recording, expired. */
  function FirstFailed(site: Site): Recording {
    Entry(site, 1).(state := Expired, expiredAt := MOMENT)
  }

  lemma CrossingNewer(p: Policy, site: Site, n: nat, x: Recording)
    requires Crossing(p, site, n) && Keyed(AfterCrossing(p, site, n))
    requires x in AfterCrossing(p, site, n).Values && Eligible(x) && Newer(x, FirstFailed(site))
    ensures x in Band(site, n - p.maxPerRoom, n) && x.room == BUSY
  {
    var after := AfterCrossing(p, site, n);
    var id :| id in after && after[id] == x;
    BandLedgerFacts(site, n);
    LessIrreflexive(Tag(1));
    if id == Tag(1) { CrossingFirstFails(p, site, n); }
    CrossingSurvivor(p, site, n, id);
  }

  lemma FewNewer(p: Policy, recs: set<Recording>, scope: Scope, r: Recording, left: set<Recording>)
    requires |left| < p.Cap(scope)
    requires forall x :: x in recs && Eligible(x) && Newer(x, r) && GroupKey(scope, x) == GroupKey(scope, r) ==>
               x in left
    ensures !OverCap(p, recs, scope, r)
  {
    SubsetSize(Rivals(recs, scope, r), left);
  }

  lemma BandIsElsewhere(site: Site, x: Recording)
    requires '\0' !in site.tenant && site.first == QUIET && x.tenant == site.tenant && x.room == BUSY
    ensures GroupKey(PerRoom, x) != GroupKey(PerRoom, FirstFailed(site))
  {
    RoomGroupIsTenantAndRoom(x, FirstFailed(site));
  }

  lemma FirstIsWithinCaps(p: Policy, recs: set<Recording>, site: Site, left: set<Recording>)
    requires CapsCross(p) && |left| == p.maxPerRoom && '\0' !in site.tenant && site.first == QUIET
    requires forall x :: x in recs && Eligible(x) && Newer(x, FirstFailed(site)) ==>
               x in left && x.room == BUSY && x.tenant == site.tenant
    ensures forall s: Scope :: !OverCap(p, recs, s, FirstFailed(site))
  {
    forall x | x in recs && Eligible(x) && Newer(x, FirstFailed(site))
      ensures GroupKey(PerRoom, x) != GroupKey(PerRoom, FirstFailed(site))
    {
      BandIsElsewhere(site, x);
    }
    FewNewer(p, recs, PerTenant, FirstFailed(site), left);
    FewNewer(p, recs, PerRoom, FirstFailed(site), {});
  }

  /** With the busy room emptied to its cap, no cap selects the first recording any more. */
  lemma CrossingFirstForgotten(p: Policy, site: Site, n: nat)
    requires Crossing(p, site, n) && Keyed(AfterCrossing(p, site, n))
    ensures forall s: Scope :: !OverCap(p, AfterCrossing(p, site, n).Values, s, FirstFailed(site))
  {
    var recs, low := AfterCrossing(p, site, n).Values, n - p.maxPerRoom;
    forall x | x in recs && Eligible(x) && Newer(x, FirstFailed(site))
      ensures x in Band(site, low, n) && x.room == BUSY
    {
      CrossingNewer(p, site, n, x);
    }
    assert forall x :: x in Band(site, low, n) ==> x.tenant == site.tenant;
    BandSize(site, low, n);
    FirstIsWithinCaps(p, recs, site, Band(site, low, n));
  }

  /** One tenant, `maxPerTenant` newer recordings in a busy room, one older in a quiet room.
      The old one's delete fails while the room cap empties the busy room. After that only the
      TTL, if there is one, selects it again; until then its blob stays. */
  lemma CrossedCapsForget(p: Policy, site: Site, n: nat, later: int)
    requires Crossing(p, site, n)
    ensures var l, after := BandLedger(site, n), AfterCrossing(p, site, n);
            && WellFormed(l) && Tag(1) in SelectedIds(p, l.Values, MOMENT_NANOS)
            && Tag(1) in after && after[Tag(1)].state == Expired
            && (Tag(1) in SelectedIds(p, after.Values, later) <==> PastTtl(p, Entry(site, 1), later))
  {
    var after := AfterCrossing(p, site, n);
    BandLedgerFacts(site, n);
    CrossingFirstFails(p, site, n);
    CrossingFirstForgotten(p, site, n);
    SelectedMeans(p, after, later, Tag(1));
    SameAge(p, after[Tag(1)], Entry(site, 1), later);
  }

  // ---- When the clock runs backwards -------------------------------------------------------

  /** One recording alone, past its TTL when its delete fails: it is selected again exactly while
      the clock shows it past its TTL. */
  lemma AloneIsUpToTheClock(p: Policy, site: Site, now: int, later: int)
    requires p.ttl > 0 && '\0' !in site.tenant && PastTtl(p, Entry(site, 1), now)
    ensures var l := BandLedger(site, 1);
            var after := AfterSweep(p, l, now, {});
            && WellFormed(l) && Tag(1) in SelectedIds(p, l.Values, now)
            && Tag(1) in after && after[Tag(1)].state == Expired
            && (Tag(1) in SelectedIds(p, after.Values, later) <==> PastTtl(p, Entry(site, 1), later))
  {
    var l := BandLedger(site, 1);
    var after := AfterSweep(p, l, now, {});
    BandLedgerFacts(site, 1);
    SelectedMeans(p, l, now, Tag(1));
    SweptEntries(p, l, now, {}, Tag(1));
    SelectedMeans(p, after, later, Tag(1));
    SameAge(p, after[Tag(1)], Entry(site, 1), later);
    LessIrreflexive(Tag(1));
    assert forall id :: id in after ==> id == Tag(1);
    forall s: Scope ensures Rivals(after.Values, s, after[Tag(1)]) == {} {}
  }

  /** When the recording of the band is past its TTL. */
  function TtlPassed(p: Policy): int {
    MOMENT_NANOS + p.ttl
  }

  lemma EarlierClockForgets(p: Policy, site: Site)
    requires p.ttl > 0 && '\0' !in site.tenant
    ensures !RetriedAnyClock(p, BandLedger(site, 1), {}, TtlPassed(p), MOMENT_NANOS, Tag(1))
  {
    AloneIsUpToTheClock(p, site, TtlPassed(p), MOMENT_NANOS);
    NotYetPastTtl(p, Entry(site, 1));
  }

  // ---- The guarantees ------------------------------------------------------------------------

  lemma CrossedCapsNeverRetry(p: Policy)
    requires CapsCross(p)
    ensures !AlwaysRetries(p) && !AlwaysRetriesAnyClock(p)
  {
    var site, n := Site("t", QUIET), p.maxPerTenant + 1;
    var l := BandLedger(site, n);
    CrossedCapsForget(p, site, n, MOMENT_NANOS);
    NotYetPastTtl(p, Entry(site, 1));
    assert !Retried(p, l, l.Keys - {Tag(1)}, MOMENT_NANOS, MOMENT_NANOS, Tag(1));
    assert !RetriedAnyClock(p, l, l.Keys - {Tag(1)}, MOMENT_NANOS, MOMENT_NANOS, Tag(1));
  }

  /** As long as no webhook comes between two sweeps and the clock does not run backwards, failed
      deletes are retried for every ledger, clock and deleter exactly when the caps do not cross. */
  lemma RetryGuarantee(p: Policy)
    ensures AlwaysRetries(p) <==> !CapsCross(p)
  {
    if CapsCross(p) {
      CrossedCapsNeverRetry(p);
    } else {
      forall l, confirmed, now, later, id ensures Retried(p, l, confirmed, now, later, id) {
        UncrossedCapsRetry(p, l, confirmed, now, later, id);
      }
    }
  }

  /** If the clock may run backwards, exactly when there is no TTL either. */
  lemma AnyClockGuarantee(p: Policy)
    ensures AlwaysRetriesAnyClock(p) <==> !CapsCross(p) && p.ttl <= 0
  {
    if CapsCross(p) {
      CrossedCapsNeverRetry(p);
    } else if p.ttl > 0 {
      EarlierClockForgets(p, Site("t", QUIET));
    } else {
      forall l, confirmed, now, later, id ensures RetriedAnyClock(p, l, confirmed, now, later, id) {
        UncrossedCapsRetry(p, l, confirmed, now, later, id);
      }
    }
  }
}
