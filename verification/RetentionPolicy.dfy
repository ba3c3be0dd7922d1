/** Which recordings are past retention: the rule the sweeper computes with loops, groups and a
    sort, and what that computation means. */
module RetentionPolicy {
  import opened Ordering
  import opened RecordingLedger
  import TenantGate
  import UsageKey

  /** Durations in nanoseconds; zero or less disables a rule. */
  datatype Policy = Policy(ttl: int, maxPerRoom: int, maxPerTenant: int) {
    predicate Enabled() { ttl > 0 || maxPerRoom > 0 || maxPerTenant > 0 }

    function Cap(scope: Scope): int {
      if scope.PerRoom? then maxPerRoom else maxPerTenant
    }
  }

  datatype Scope = PerRoom | PerTenant

  /** The map key groupBy files a recording under. */
  function GroupKey(scope: Scope, r: Recording): string {
    match scope
    case PerRoom => r.tenant + "\0" + r.room
    case PerTenant => r.tenant
  }

  predicate Eligible(r: Recording) {
    r.state != InProgress && r.state != Deleted
  }

  predicate Newer(a: Recording, b: Recording) {
    a.RetainedFrom() > b.RetainedFrom()
    || (a.RetainedFrom() == b.RetainedFrom() && Less(b.egressId, a.egressId))
  }

  ghost predicate DistinctIds(recs: set<Recording>) {
    forall a, b :: a in recs && b in recs && a.egressId == b.egressId ==> a == b
  }

  // ---- The meaning -------------------------------------------------------------------

  /** The eligible recordings of r's group that are newer than r. */
  ghost function Rivals(recs: set<Recording>, scope: Scope, r: Recording): set<Recording> {
    set x | x in recs && Eligible(x) && GroupKey(scope, x) == GroupKey(scope, r) && Newer(x, r)
  }

  ghost predicate OverCap(p: Policy, recs: set<Recording>, scope: Scope, r: Recording) {
    p.Cap(scope) > 0 && |Rivals(recs, scope, r)| >= p.Cap(scope)
  }

  predicate PastTtl(p: Policy, r: Recording, now: int) {
    p.ttl > 0 && 0 < r.RetainedFrom() <= UsageKey.UnixSeconds(now - p.ttl)
  }

  ghost predicate Selected(p: Policy, recs: set<Recording>, r: Recording, now: int) {
    && r in recs && Eligible(r)
    && (PastTtl(p, r, now) || OverCap(p, recs, PerRoom, r) || OverCap(p, recs, PerTenant, r))
  }

  ghost function SelectedIds(p: Policy, recs: set<Recording>, now: int): set<string> {
    set r | r in recs && Selected(p, recs, r, now) :: r.egressId
  }

  lemma NewerLinear(recs: set<Recording>)
    requires DistinctIds(recs)
    ensures Linear(Newer, recs)
  {
    forall x | x in recs ensures !Newer(x, x) { LessIrreflexive(x.egressId); }
    forall x, y | x in recs && y in recs && x != y ensures Newer(x, y) || Newer(y, x) {
      LessTotal(x.egressId, y.egressId);
    }
    forall x, y, z | x in recs && y in recs && z in recs && Newer(x, y) && Newer(y, z)
      ensures Newer(x, z)
    {
      if Less(y.egressId, x.egressId) && Less(z.egressId, y.egressId) {
        LessTransitive(z.egressId, y.egressId, x.egressId);
      }
    }
  }

  /** Tenants the gate accepts hold no NUL byte ... */
  lemma GateTenantsHaveNoNul(sep: char, tenant: string)
    requires TenantGate.ValidTenant(sep, tenant)
    ensures '\0' !in tenant
  {}

  /** ... and then a room group is one (tenant, room), whatever bytes the room name holds. */
  lemma RoomGroupIsTenantAndRoom(a: Recording, b: Recording)
    requires '\0' !in a.tenant && '\0' !in b.tenant
    ensures GroupKey(PerRoom, a) == GroupKey(PerRoom, b) <==> a.tenant == b.tenant && a.room == b.room
  {
    var s, t := GroupKey(PerRoom, a), GroupKey(PerRoom, b);
    assert s[|a.tenant|] == '\0' && t[|b.tenant|] == '\0';
    assert forall j :: 0 <= j < |a.tenant| ==> s[j] == a.tenant[j] && s[j] != '\0';
    assert forall j :: 0 <= j < |b.tenant| ==> t[j] == b.tenant[j] && t[j] != '\0';
    if s == t {
      assert a.tenant == s[..|a.tenant|] && b.tenant == t[..|b.tenant|];
      assert a.room == s[|a.tenant|+1..] && b.room == t[|b.tenant|+1..];
    }
  }

  // ---- The computation ---------------------------------------------------------------

  method GroupBy(recs: seq<Recording>, scope: Scope) returns (m: map<string, seq<Recording>>)
    requires NoDuplicates(recs)
    ensures forall r :: r in recs ==> GroupKey(scope, r) in m
    ensures forall k :: k in m ==> NoDuplicates(m[k])
    ensures forall k :: k in m ==> Elements(m[k]) == set r | r in recs && GroupKey(scope, r) == k
  {
    m := map[];
    for i := 0 to |recs|
      invariant forall r :: r in recs[..i] ==> GroupKey(scope, r) in m
      invariant forall k :: k in m ==> NoDuplicates(m[k])
      invariant forall k :: k in m ==> Elements(m[k]) == set r | r in recs[..i] && GroupKey(scope, r) == k
    {
      var r := recs[i];
      var k := GroupKey(scope, r);
      assert recs[..i+1] == recs[..i] + [r];
      assert r !in recs[..i];
      var grp := if k in m then m[k] else [];
      assert r !in Elements(grp);
      ghost var m0 := m;
      m := m[k := grp + [r]];
      assert Elements(m[k]) == Elements(grp) + {r};
      forall q | q in m && q != k
        ensures Elements(m[q]) == set x | x in recs[..i+1] && GroupKey(scope, x) == q
      {
        assert m[q] == m0[q];
      }
    }
    assert recs[..|recs|] == recs;
  }

  ghost function NewerIn(grp: set<Recording>, r: Recording): set<Recording> {
    set x | x in grp && Newer(x, r)
  }

  /** The ids of the members of a group that have at least `keep` newer ones beside them. */
  ghost function Outranked(grp: set<Recording>, keep: int): set<string> {
    set r | r in grp && keep > 0 && |NewerIn(grp, r)| >= keep :: r.egressId
  }

  method MarkOldestBeyond(grp: seq<Recording>, keep: int, out: set<string>) returns (marked: set<string>)
    requires NoDuplicates(grp) && DistinctIds(Elements(grp))
    ensures marked == out + Outranked(Elements(grp), keep)
  {
    marked := out;
    if keep <= 0 {
      return;
    }
    if |grp| <= keep {
      FewAreKept(grp, keep);
      return;
    }
    var sorted := SortBy(Newer, grp);
    SortedNewestFirst(grp);
    for i := keep to |sorted|
      invariant marked == out + set j | keep <= j < i :: sorted[j].egressId
    {
      marked := marked + {sorted[i].egressId};
    }
    TailIsOutranked(sorted, keep);
  }

  lemma SortedNewestFirst(grp: seq<Recording>)
    requires NoDuplicates(grp) && DistinctIds(Elements(grp))
    ensures var sorted := SortBy(Newer, grp);
            Linear(Newer, Elements(sorted)) && Sorted(Newer, sorted) && Elements(sorted) == Elements(grp)
            && |sorted| == |grp|
  {
    NewerLinear(Elements(grp));
    SortBySorts(Newer, grp);
  }

  lemma TailIsOutranked(sorted: seq<Recording>, keep: nat)
    requires 0 < keep && Linear(Newer, Elements(sorted)) && Sorted(Newer, sorted)
    ensures (set j | keep <= j < |sorted| :: sorted[j].egressId) == Outranked(Elements(sorted), keep)
  {
    var grp := Elements(sorted);
    var tail := set j | keep <= j < |sorted| :: sorted[j].egressId;
    forall j | 0 <= j < |sorted|
      ensures sorted[j] in grp && |NewerIn(grp, sorted[j])| == j
    {
      PositionIsRank(Newer, sorted, j);
      assert NewerIn(grp, sorted[j]) == Ahead(Newer, grp, sorted[j]);
    }
    forall id | id in Outranked(grp, keep) ensures id in tail {
      var r :| r in grp && |NewerIn(grp, r)| >= keep && r.egressId == id;
      var j :| 0 <= j < |sorted| && sorted[j] == r;
    }
  }

  lemma FewAreKept(grp: seq<Recording>, keep: int)
    requires NoDuplicates(grp) && DistinctIds(Elements(grp)) && |grp| <= keep
    ensures Outranked(Elements(grp), keep) == {}
  {
    NewerLinear(Elements(grp));
    CountElements(grp);
    forall r | r in Elements(grp)
      ensures |NewerIn(Elements(grp), r)| < keep
    {
      SubsetSize(NewerIn(Elements(grp), r), Elements(grp) - {r});
    }
  }

  /** The ids one cap rule selects among the groups not in `todo`. */
  ghost function CapIds(all: set<Recording>, scope: Scope, cap: int, todo: set<string>): set<string> {
    set r | r in all && GroupKey(scope, r) !in todo && |Rivals(all, scope, r)| >= cap :: r.egressId
  }

  lemma OneMoreGroup(all: set<Recording>, scope: Scope, cap: int, todo: set<string>, k: string, grp: set<Recording>)
    requires cap > 0 && k in todo && forall r :: r in all ==> Eligible(r)
    requires grp == set r | r in all && GroupKey(scope, r) == k
    ensures CapIds(all, scope, cap, todo - {k}) == CapIds(all, scope, cap, todo) + Outranked(grp, cap)
  {
    forall r | r in grp
      ensures Rivals(all, scope, r) == NewerIn(grp, r)
    {}
    forall id | id in Outranked(grp, cap) ensures id in CapIds(all, scope, cap, todo - {k}) {
      var r :| r in grp && |NewerIn(grp, r)| >= cap && r.egressId == id;
      assert |Rivals(all, scope, r)| >= cap;
    }
    forall id | id in CapIds(all, scope, cap, todo - {k}) && id !in CapIds(all, scope, cap, todo)
      ensures id in Outranked(grp, cap)
    {
      var r :| r in all && GroupKey(scope, r) !in todo - {k} && |Rivals(all, scope, r)| >= cap && r.egressId == id;
      assert r in grp;
    }
  }

  /** One cap rule: group, then mark each group, in whatever order the map yields them. */
  method MarkScope(eligible: seq<Recording>, scope: Scope, cap: int, out: set<string>) returns (marked: set<string>)
    requires NoDuplicates(eligible) && DistinctIds(Elements(eligible)) && cap > 0
    requires forall r :: r in Elements(eligible) ==> Eligible(r)
    ensures marked == out + CapIds(Elements(eligible), scope, cap, {})
  {
    ghost var all := Elements(eligible);
    var groups := GroupBy(eligible, scope);
    marked := out;
    var todo := groups.Keys;
    assert CapIds(all, scope, cap, todo) == {};
    while todo != {}
      invariant todo <= groups.Keys
      invariant marked == out + CapIds(all, scope, cap, todo)
    {
      var k :| k in todo;
      ghost var grp := Elements(groups[k]);
      assert grp == set r | r in all && GroupKey(scope, r) == k;
      marked := MarkOldestBeyond(groups[k], cap, marked);
      OneMoreGroup(all, scope, cap, todo, k, grp);
      todo := todo - {k};
    }
  }

  /** The first loop: neither in progress nor already gone. */
  method EligibleOnes(recs: seq<Recording>) returns (eligible: seq<Recording>)
    requires NoDuplicates(recs)
    ensures Elements(eligible) == set r | r in Elements(recs) && Eligible(r)
    ensures NoDuplicates(eligible)
  {
    eligible := [];
    for i := 0 to |recs|
      invariant Elements(eligible) == set r | r in recs[..i] && Eligible(r)
      invariant NoDuplicates(eligible)
    {
      assert recs[..i+1] == recs[..i] + [recs[i]];
      if recs[i].state != InProgress && recs[i].state != Deleted {
        assert recs[i] !in Elements(eligible);
        ghost var before := eligible;
        eligible := eligible + [recs[i]];
        assert Elements(eligible) == Elements(before) + {recs[i]};
      }
    }
    assert recs[..|recs|] == recs;
  }

  /** The TTL rule. */
  method MarkPastTtl(p: Policy, eligible: seq<Recording>, now: int) returns (out: set<string>)
    requires p.ttl > 0
    ensures out == set r | r in Elements(eligible) && PastTtl(p, r, now) :: r.egressId
  {
    out := {};
    var cutoff := UsageKey.UnixSeconds(now - p.ttl);
    for i := 0 to |eligible|
      invariant out == set j | 0 <= j < i && PastTtl(p, eligible[j], now) :: eligible[j].egressId
    {
      if eligible[i].RetainedFrom() > 0 && eligible[i].RetainedFrom() <= cutoff {
        out := out + {eligible[i].egressId};
      }
    }
    ghost var byTtl := set r | r in Elements(eligible) && PastTtl(p, r, now) :: r.egressId;
    forall id | id in byTtl ensures id in out {
      var r :| r in Elements(eligible) && PastTtl(p, r, now) && r.egressId == id;
      var j :| 0 <= j < |eligible| && eligible[j] == r;
    }
  }

  /** The selection, as the sweeper computes it, is exactly its meaning: it does not depend on
      the order of the list, of the groups, or of equal timestamps. */
  method ExpiredEgressIds(p: Policy, recs: seq<Recording>, now: int) returns (out: set<string>)
    requires NoDuplicates(recs) && DistinctIds(Elements(recs))
    ensures out == SelectedIds(p, Elements(recs), now)
  {
    out := {};
    if !p.Enabled() {
      return;
    }
    ghost var all := Elements(recs);
    var eligible := EligibleOnes(recs);
    ghost var el := Elements(eligible);
    if p.ttl > 0 {
      out := MarkPastTtl(p, eligible, now);
    }
    ghost var byTtl := set r | r in el && PastTtl(p, r, now) :: r.egressId;
    assert out == byTtl;
    if p.maxPerRoom > 0 {
      out := MarkScope(eligible, PerRoom, p.maxPerRoom, out);
    }
    ghost var byRoom := if p.maxPerRoom > 0 then CapIds(el, PerRoom, p.maxPerRoom, {}) else {};
    if p.maxPerTenant > 0 {
      out := MarkScope(eligible, PerTenant, p.maxPerTenant, out);
    }
    ghost var byTenant := if p.maxPerTenant > 0 then CapIds(el, PerTenant, p.maxPerTenant, {}) else {};
    assert out == byTtl + byRoom + byTenant;
    SelectionIsUnion(p, all, el, now);
  }

  lemma SelectionIsUnion(p: Policy, all: set<Recording>, el: set<Recording>, now: int)
    requires el == set r | r in all && Eligible(r)
    ensures SelectedIds(p, all, now)
         == (set r | r in el && PastTtl(p, r, now) :: r.egressId)
          + (if p.maxPerRoom > 0 then CapIds(el, PerRoom, p.maxPerRoom, {}) else {})
          + (if p.maxPerTenant > 0 then CapIds(el, PerTenant, p.maxPerTenant, {}) else {})
  {
    forall r: Recording, s: Scope ensures Rivals(el, s, r) == Rivals(all, s, r) {}
  }
}
