/** The two caps together: when one implies the other, who keeps an entry over a cap, and when it
    makes a difference in which order they are applied. */
module RetentionCaps {
  import opened Ordering
  import opened RecordingLedger
  import opened RetentionPolicy
  import UsageKey

  /** A per-room cap tighter than the per-tenant cap. */
  predicate CapsCross(p: Policy) {
    0 < p.maxPerRoom < p.maxPerTenant
  }

  /** What a ledger fed by the gate holds. */
  ghost predicate Tidy(recs: set<Recording>) {
    DistinctIds(recs) && forall r :: r in recs ==> '\0' !in r.tenant
  }

  /** Being over a cap passes to everything older in the group. */
  lemma OlderIsOverCapToo(p: Policy, recs: set<Recording>, scope: Scope, x: Recording, r: Recording)
    requires DistinctIds(recs) && x in recs && r in recs
    requires Newer(x, r) && GroupKey(scope, x) == GroupKey(scope, r) && OverCap(p, recs, scope, x)
    ensures OverCap(p, recs, scope, r)
  {
    NewerLinear(recs);
    SubsetSize(Rivals(recs, scope, x), Rivals(recs, scope, r));
  }

  /** A room cap no tighter than the tenant cap selects nothing the tenant cap does not. */
  lemma RoomCapImpliesTenantCap(p: Policy, recs: set<Recording>, x: Recording)
    requires 0 < p.maxPerTenant <= p.maxPerRoom && OverCap(p, recs, PerRoom, x) && x in recs
    requires forall y :: y in recs ==> '\0' !in y.tenant
    ensures OverCap(p, recs, PerTenant, x)
  {
    forall y | y in Rivals(recs, PerRoom, x)
      ensures y in Rivals(recs, PerTenant, x)
    {
      RoomGroupIsTenantAndRoom(y, x);
    }
    SubsetSize(Rivals(recs, PerRoom, x), Rivals(recs, PerTenant, x));
  }

  /** The newest `cap` members of r's group, which keep r over the cap for as long as they stay. */
  ghost function Keepers(p: Policy, recs: set<Recording>, scope: Scope, r: Recording): set<Recording> {
    set x | x in Rivals(recs, scope, r) && !OverCap(p, recs, scope, x)
  }

  lemma EnoughKeepers(p: Policy, recs: set<Recording>, scope: Scope, r: Recording)
    requires DistinctIds(recs) && r in recs && Eligible(r) && OverCap(p, recs, scope, r)
    ensures |Keepers(p, recs, scope, r)| >= p.Cap(scope)
  {
    var g := set x | x in recs && Eligible(x) && GroupKey(scope, x) == GroupKey(scope, r);
    NewerLinear(recs);
    assert Ahead(Newer, g, r) == Rivals(recs, scope, r);
    Leaders(Newer, g, r, p.Cap(scope));
    var lead := set x | x in Ahead(Newer, g, r) && |Ahead(Newer, g, x)| < p.Cap(scope);
    forall x | x in lead ensures x in Keepers(p, recs, scope, r) {
      assert Ahead(Newer, g, x) == Rivals(recs, scope, x);
    }
    SubsetSize(lead, Keepers(p, recs, scope, r));
  }

  // ---- A room cap that empties a busy room ------------------------------------------------

  const MOMENT: int := 1_700_000_000
  const MOMENT_NANOS: int := MOMENT * UsageKey.NANOS_PER_SECOND

  /** A tenant, and the room of its oldest recording; all others are in the busy room. */
  datatype Site = Site(tenant: string, first: string)

  const BUSY := "busy"
  const QUIET := "quiet"

  function Tag(i: nat): string {
    seq(i, _ => 'x')
  }

  /** Recordings that finished in the same second: a longer tag is the newer one. */
  function Entry(site: Site, i: nat): Recording {
    Recording(Tag(i), site.tenant, if i == 1 then site.first else BUSY, Available, 0, MOMENT, 0, 0, 0, 0)
  }

  ghost function Band(site: Site, low: nat, high: nat): set<Recording> {
    set i | low < i <= high :: Entry(site, i)
  }

  lemma {:induction false} TagOrder(i: nat, j: nat)
    ensures Less(Tag(i), Tag(j)) <==> i < j
  {
    if i > 0 && j > 0 {
      assert Tag(i)[1..] == Tag(i - 1) && Tag(j)[1..] == Tag(j - 1);
      TagOrder(i - 1, j - 1);
    }
  }

  lemma {:induction false} BandSize(site: Site, low: nat, high: nat)
    requires low <= high
    ensures |Band(site, low, high)| == high - low
  {
    if low < high {
      BandSize(site, low, high - 1);
      forall i | 0 <= i < high ensures Entry(site, i) != Entry(site, high) {
        assert |Entry(site, i).egressId| != |Entry(site, high).egressId|;
      }
      assert Band(site, low, high) == Band(site, low, high - 1) + {Entry(site, high)};
    } else {
      assert Band(site, low, high) == {};
    }
  }

  lemma BandIsTidy(site: Site, n: nat)
    requires '\0' !in site.tenant
    ensures Tidy(Band(site, 0, n))
  {
    forall i: nat, j: nat | Entry(site, i).egressId == Entry(site, j).egressId ensures i == j {
      assert |Tag(i)| == i && |Tag(j)| == j;
    }
  }

  /** Everybody's rivals are the newer ones; the first one's room rivals only if it is busy. */
  lemma BandRivals(site: Site, n: nat, i: nat)
    requires 1 <= i <= n
    ensures Rivals(Band(site, 0, n), PerTenant, Entry(site, i)) == Band(site, i, n)
    ensures i >= 2 || site.first == BUSY ==> Rivals(Band(site, 0, n), PerRoom, Entry(site, i)) == Band(site, i, n)
  {
    forall j: nat ensures Newer(Entry(site, j), Entry(site, i)) <==> i < j { TagOrder(i, j); }
  }

  lemma FirstIsAlone(site: Site, n: nat)
    requires n >= 1 && '\0' !in site.tenant && site.first != BUSY
    ensures Rivals(Band(site, 0, n), PerRoom, Entry(site, 1)) == {}
  {
    forall j: nat ensures Newer(Entry(site, j), Entry(site, 1)) <==> 1 < j { TagOrder(1, j); }
    forall j: nat | 1 < j ensures GroupKey(PerRoom, Entry(site, j)) != GroupKey(PerRoom, Entry(site, 1)) {
      RoomGroupIsTenantAndRoom(Entry(site, j), Entry(site, 1));
    }
  }

  lemma NotYetPastTtl(p: Policy, r: Recording)
    requires r.endedAt == MOMENT
    ensures !PastTtl(p, r, MOMENT_NANOS)
  {}

  // ---- One cap after the other ------------------------------------------------------------

  /** The newer ones of the tenant that the room cap leaves. */
  ghost function RivalsLeft(p: Policy, recs: set<Recording>, r: Recording): set<Recording> {
    set x | x in Rivals(recs, PerTenant, r) && !OverCap(p, recs, PerRoom, x)
  }

  /** The policy as documented: the tenant cap counts only what the room cap leaves. */
  ghost predicate SelectedInTurn(p: Policy, recs: set<Recording>, r: Recording, now: int) {
    && r in recs && Eligible(r)
    && (PastTtl(p, r, now) || OverCap(p, recs, PerRoom, r)
        || (p.maxPerTenant > 0 && |RivalsLeft(p, recs, r)| >= p.maxPerTenant))
  }

  ghost predicate SameInTurn(p: Policy, recs: set<Recording>, r: Recording, now: int) {
    Tidy(recs) ==> (Selected(p, recs, r, now) <==> SelectedInTurn(p, recs, r, now))
  }

  ghost predicate AppliesInTurn(p: Policy) {
    forall recs, r, now :: SameInTurn(p, recs, r, now)
  }

  lemma LeftIsEnough(p: Policy, recs: set<Recording>, r: Recording)
    requires Tidy(recs) && !CapsCross(p) && r in recs && Eligible(r) && OverCap(p, recs, PerTenant, r)
    ensures |RivalsLeft(p, recs, r)| >= p.maxPerTenant
  {
    EnoughKeepers(p, recs, PerTenant, r);
    forall x | x in Keepers(p, recs, PerTenant, r) ensures x in RivalsLeft(p, recs, r) {
      if OverCap(p, recs, PerRoom, x) { RoomCapImpliesTenantCap(p, recs, x); }
    }
    SubsetSize(Keepers(p, recs, PerTenant, r), RivalsLeft(p, recs, r));
  }

  lemma UncrossedCapsApplyInTurn(p: Policy, recs: set<Recording>, r: Recording, now: int)
    requires !CapsCross(p)
    ensures SameInTurn(p, recs, r, now)
  {
    if Tidy(recs) && r in recs && Eligible(r) {
      SubsetSize(RivalsLeft(p, recs, r), Rivals(recs, PerTenant, r));
      if OverCap(p, recs, PerTenant, r) { LeftIsEnough(p, recs, r); }
    }
  }

  /** With crossed caps the oldest recording of a tenant, alone in its room, is selected although
      the room cap leaves fewer than `maxPerTenant` newer ones. */
  lemma CrossedCapsDiffer(p: Policy)
    requires CapsCross(p)
    ensures !SameInTurn(p, Band(Site("t", QUIET), 0, p.maxPerTenant + 1), Entry(Site("t", QUIET), 1), MOMENT_NANOS)
  {
    var site, n := Site("t", QUIET), p.maxPerTenant + 1;
    var recs, r, left := Band(site, 0, n), Entry(site, 1), Band(site, n - p.maxPerRoom, n);
    BandIsTidy(site, n);
    BandRivals(site, n, 1);
    BandSize(site, 1, n);
    FirstIsAlone(site, n);
    NotYetPastTtl(p, r);
    assert r in recs;
    forall x | x in RivalsLeft(p, recs, r) ensures x in left {
      var i :| 1 < i <= n && x == Entry(site, i);
      BandRivals(site, n, i);
      BandSize(site, i, n);
    }
    BandSize(site, n - p.maxPerRoom, n);
    SubsetSize(RivalsLeft(p, recs, r), left);
  }

  /** The tenant cap comes after the room cap, for every ledger, entry and clock, exactly when the
      caps do not cross. */
  lemma InTurnTheorem(p: Policy)
    ensures AppliesInTurn(p) <==> !CapsCross(p)
  {
    if CapsCross(p) {
      CrossedCapsDiffer(p);
    } else {
      forall recs, r, now ensures SameInTurn(p, recs, r, now) { UncrossedCapsApplyInTurn(p, recs, r, now); }
    }
  }
}
