/** One uninterrupted retention sweep: what Run leaves in the ledger, in its result and in the
    counters, in whatever order it visits the selected ids. */
module RetentionSweep {
  import opened Ordering
  import opened RecordingLedger
  import opened RetentionPolicy
  import MapSum
  import UsageKey

  const NANOS_PER_MILLI: nat := 1_000_000

  datatype SweepResult = SweepResult(
    examined: nat, expired: nat, deleted: nat, deleteErrs: nat, bytesFreed: int, durationFreed: int)

  /** What a visit leaves of an entry the snapshot shows expired or not; `gone` is the deleter's
      answer. */
  function Visited(r: Recording, wasExpired: bool, gone: bool, at: int): Recording {
    var marked := if wasExpired then r else Moved(r, Expired, at);
    if gone then Moved(marked, Deleted, at) else marked
  }

  /** A visit with a snapshot that is up to date. */
  function SweptEntry(r: Recording, gone: bool, at: int): Recording {
    Visited(r, r.state == Expired, gone, at)
  }

  /** The ledger after visits to `selected`, working from a snapshot that may be stale. */
  function SweptOver(l: Ledger, snapshot: Ledger, selected: set<string>, confirmed: set<string>, at: int): Ledger
    requires selected <= snapshot.Keys
  {
    map id | id in l ::
      if id in selected then Visited(l[id], snapshot[id].state == Expired, id in confirmed, at) else l[id]
  }

  /** The ledger after a sweep over `selected`, when the deleter answers nil for exactly the
      ids in `confirmed`. */
  function Swept(l: Ledger, selected: set<string>, confirmed: set<string>, at: int): Ledger {
    map id | id in l :: if id in selected then SweptEntry(l[id], id in confirmed, at) else l[id]
  }

  function NewlyExpired(l: Ledger, selected: set<string>): set<string> {
    set id | id in selected && id in l && l[id].state != Expired
  }

  ghost function BytesOf(l: Ledger, ids: set<string>): int {
    MapSum.Sum(map id | id in l && id in ids :: l[id].sizeBytes as int)
  }

  ghost function NanosOf(l: Ledger, ids: set<string>): int {
    MapSum.Sum(map id | id in l && id in ids :: l[id].durationMs * NANOS_PER_MILLI)
  }

  /** The result of a sweep, in terms of the ledger it started from. */
  ghost function Totals(l: Ledger, examined: nat, selected: set<string>, confirmed: set<string>): SweepResult {
    SweepResult(examined, |NewlyExpired(l, selected)|, |selected * confirmed|, |selected - confirmed|,
                BytesOf(l, selected * confirmed), NanosOf(l, selected * confirmed))
  }

  /** One visit, added to the running result. */
  function Tally(res: SweepResult, rec: Recording, gone: bool): SweepResult {
    var t := if rec.state != Expired then res.(expired := res.expired + 1) else res;
    if gone
    then t.(deleted := t.deleted + 1, bytesFreed := t.bytesFreed + rec.sizeBytes,
            durationFreed := t.durationFreed + rec.durationMs * NANOS_PER_MILLI)
    else t.(deleteErrs := t.deleteErrs + 1)
  }

  class RetentionMetrics {
    var expiredTotal: nat
    var deletedTotal: nat
    var deleteErrTotal: nat
    var bytesFreed: int

    constructor ()
      ensures expiredTotal == deletedTotal == deleteErrTotal == 0 && bytesFreed == 0
    {
      expiredTotal, deletedTotal, deleteErrTotal, bytesFreed := 0, 0, 0, 0;
    }

    method ObserveRetentionSweep(res: SweepResult)
      modifies this
      ensures expiredTotal == old(expiredTotal) + res.expired
      ensures deletedTotal == old(deletedTotal) + res.deleted
      ensures deleteErrTotal == old(deleteErrTotal) + res.deleteErrs
      ensures bytesFreed == old(bytesFreed) + res.bytesFreed
    {
      expiredTotal := expiredTotal + res.expired;
      deletedTotal := deletedTotal + res.deleted;
      deleteErrTotal := deleteErrTotal + res.deleteErrs;
      bytesFreed := bytesFreed + res.bytesFreed;
    }
  }

  lemma OneMoreSwept(l: Ledger, done: set<string>, confirmed: set<string>, at: int, id: string)
    requires id in l && id !in done
    ensures Swept(l, done, confirmed, at)[id] == l[id]
    ensures Swept(l, done + {id}, confirmed, at)
         == Swept(l, done, confirmed, at)[id := SweptEntry(l[id], id in confirmed, at)]
  {}

  lemma OneMoreOver(l: Ledger, snapshot: Ledger, done: set<string>, confirmed: set<string>, at: int, id: string)
    requires done <= snapshot.Keys && id in snapshot && id in l && id !in done
    ensures SweptOver(l, snapshot, done, confirmed, at)[id] == l[id]
    ensures SweptOver(l, snapshot, done + {id}, confirmed, at)
         == SweptOver(l, snapshot, done, confirmed, at)[
              id := Visited(l[id], snapshot[id].state == Expired, id in confirmed, at)]
  {}

  /** Nobody has written since the listing: the snapshot is the ledger. */
  lemma FreshSnapshot(l: Ledger, selected: set<string>, confirmed: set<string>, at: int)
    requires selected <= l.Keys
    ensures SweptOver(l, l, selected, confirmed, at) == Swept(l, selected, confirmed, at)
  {}

  /** `cur` and `res` are what the visits to `done` leave. */
  ghost predicate SweptSoFar(l: Ledger, cur: Ledger, snapshot: Ledger, done: set<string>, confirmed: set<string>,
                             at: int, examined: nat, res: SweepResult)
  {
    done <= snapshot.Keys && cur == SweptOver(l, snapshot, done, confirmed, at)
    && res == Totals(snapshot, examined, done, confirmed)
  }

  ghost predicate Split(done: set<string>, todo: set<string>, all: set<string>) {
    done !! todo && done + todo == all
  }

  lemma MoveOver(done: set<string>, todo: set<string>, all: set<string>, id: string)
    requires Split(done, todo, all) && id in todo
    ensures Split(done + {id}, todo - {id}, all) && id !in done
  {}

  lemma NothingDone(l: Ledger, snapshot: Ledger, confirmed: set<string>, at: int, examined: nat)
    ensures SweptSoFar(l, l, snapshot, {}, confirmed, at, examined, SweepResult(examined, 0, 0, 0, 0, 0))
  {
    NothingSwept(snapshot, examined, confirmed, at);
  }

  lemma OneMoreDone(l: Ledger, cur: Ledger, snapshot: Ledger, done: set<string>, confirmed: set<string>,
                    at: int, examined: nat, res: SweepResult, id: string)
    requires SweptSoFar(l, cur, snapshot, done, confirmed, at, examined, res)
    requires id in l && id in snapshot && id !in done
    ensures id in cur
    ensures SweptSoFar(l, cur[id := Visited(cur[id], snapshot[id].state == Expired, id in confirmed, at)], snapshot,
                       done + {id}, confirmed, at, examined, Tally(res, snapshot[id], id in confirmed))
  {
    OneMoreOver(l, snapshot, done, confirmed, at, id);
    OneMoreTotal(snapshot, examined, done, confirmed, id);
  }

  lemma OneMoreFreed(l: Ledger, ids: set<string>, id: string)
    requires id in l && id !in ids
    ensures BytesOf(l, ids + {id}) == BytesOf(l, ids) + l[id].sizeBytes
    ensures NanosOf(l, ids + {id}) == NanosOf(l, ids) + l[id].durationMs * NANOS_PER_MILLI
  {
    var b := map x | x in l && x in ids :: l[x].sizeBytes as int;
    assert b[id := l[id].sizeBytes as int] == map x | x in l && x in ids + {id} :: l[x].sizeBytes as int;
    MapSum.AddKey(b, id, l[id].sizeBytes);
    var d := map x | x in l && x in ids :: l[x].durationMs * NANOS_PER_MILLI;
    assert d[id := l[id].durationMs * NANOS_PER_MILLI]
        == map x | x in l && x in ids + {id} :: l[x].durationMs * NANOS_PER_MILLI;
    MapSum.AddKey(d, id, l[id].durationMs * NANOS_PER_MILLI);
  }

  lemma OneMoreExpired(l: Ledger, done: set<string>, id: string)
    requires id in l && id !in done
    ensures |NewlyExpired(l, done + {id})| == |NewlyExpired(l, done)| + if l[id].state != Expired then 1 else 0
  {
    assert NewlyExpired(l, done + {id}) == NewlyExpired(l, done) + if l[id].state != Expired then {id} else {};
  }

  lemma OneMoreTotal(l: Ledger, examined: nat, done: set<string>, confirmed: set<string>, id: string)
    requires id in l && id !in done
    ensures Totals(l, examined, done + {id}, confirmed)
         == Tally(Totals(l, examined, done, confirmed), l[id], id in confirmed)
  {
    OneMoreExpired(l, done, id);
    if id in confirmed {
      OneMoreFreed(l, done * confirmed, id);
      assert (done + {id}) * confirmed == (done * confirmed) + {id};
      assert (done + {id}) - confirmed == done - confirmed;
    } else {
      assert (done + {id}) * confirmed == done * confirmed;
      assert (done + {id}) - confirmed == (done - confirmed) + {id};
    }
  }

  lemma NothingSwept(l: Ledger, examined: nat, confirmed: set<string>, at: int)
    ensures Swept(l, {}, confirmed, at) == l
    ensures Totals(l, examined, {}, confirmed) == SweepResult(examined, 0, 0, 0, 0, 0)
  {
    var none := {};
    assert none * confirmed == {} && none - confirmed == {} && NewlyExpired(l, none) == {};
  }

  lemma SweptKeyed(l: Ledger, selected: set<string>, confirmed: set<string>, at: int)
    requires Keyed(l)
    ensures Keyed(Swept(l, selected, confirmed, at)) && Swept(l, selected, confirmed, at).Keys == l.Keys
  {}

  lemma SelectedMeans(p: Policy, l: Ledger, now: int, id: string)
    requires Keyed(l) && id in l
    ensures id in SelectedIds(p, l.Values, now) <==> Selected(p, l.Values, l[id], now)
  {
    assert l[id] in l.Values;
    if id in SelectedIds(p, l.Values, now) {
      var r :| r in l.Values && Selected(p, l.Values, r, now) && r.egressId == id;
      var other :| other in l && l[other] == r;
    }
  }

  lemma LedgerIds(p: Policy, l: Ledger, now: int)
    requires Keyed(l)
    ensures SelectedIds(p, l.Values, now) <= l.Keys
    ensures DistinctIds(l.Values)
  {}

  lemma DisabledSelectsNothing(p: Policy, recs: set<Recording>, now: int)
    requires !p.Enabled()
    ensures SelectedIds(p, recs, now) == {}
  {}

  // ---- What a sweep comes to ----------------------------------------------------------------

  /** A visit, field by field, with whatever snapshot: the state, the two stamps, nothing else. */
  lemma VisitedInFields(r: Recording, wasExpired: bool, gone: bool, at: int)
    ensures var v := Visited(r, wasExpired, gone, at);
            && v.state == (if gone then Deleted else if wasExpired then r.state else Expired)
            && v.deletedAt == (if gone then at else r.deletedAt)
            && v.expiredAt == (if !wasExpired || (gone && r.expiredAt == 0) then at else r.expiredAt)
            && v.(state := r.state, expiredAt := r.expiredAt, deletedAt := r.deletedAt) == r
  {}

  /** The ids a sweep took from some other state to Deleted. */
  ghost function NewlyDeleted(before: Ledger, after: Ledger): set<string> {
    set id | id in before && id in after && after[id].state == Deleted && before[id].state != Deleted
  }

  /** The result of a sweep balances with the ledgers before and after it: the deletes are the
      entries newly Deleted, the errors the selected ones left Expired, and the bytes and the time
      freed are those of the entries newly Deleted. */
  lemma SweepBalances(l: Ledger, examined: nat, selected: set<string>, confirmed: set<string>, at: int)
    requires selected <= l.Keys && forall id :: id in selected ==> l[id].state != Deleted
    ensures var after, t := Swept(l, selected, confirmed, at), Totals(l, examined, selected, confirmed);
            && after.Keys == l.Keys && (forall id :: id in l && id !in selected ==> after[id] == l[id])
            && (forall id :: id in selected ==> after[id].state == if id in confirmed then Deleted else Expired)
            && t.examined == examined
            && t.deleted == |NewlyDeleted(l, after)|
            && t.deleteErrs == |set id | id in selected && after[id].state == Expired|
            && t.deleted + t.deleteErrs == |selected|
            && t.expired == |set id | id in selected && l[id].state != Expired|
            && t.bytesFreed == MapSum.Sum(map id | id in NewlyDeleted(l, after) :: l[id].sizeBytes as int)
            && t.durationFreed == MapSum.Sum(map id | id in NewlyDeleted(l, after) :: l[id].durationMs * 1_000_000)
  {
    var after := Swept(l, selected, confirmed, at);
    SweptStates(l, selected, confirmed, at);
    SweptSets(l, after, selected, confirmed);
    FreedSums(l, selected * confirmed);
  }

  lemma SweptSets(l: Ledger, after: Ledger, selected: set<string>, confirmed: set<string>)
    requires selected <= l.Keys && forall id :: id in selected ==> l[id].state != Deleted
    requires after.Keys == l.Keys && forall id :: id in l && id !in selected ==> after[id] == l[id]
    requires forall id :: id in selected ==> after[id].state == if id in confirmed then Deleted else Expired
    ensures NewlyDeleted(l, after) == selected * confirmed
    ensures (set id | id in selected && after[id].state == Expired) == selected - confirmed
    ensures (set id | id in selected && l[id].state != Expired) == NewlyExpired(l, selected)
    ensures |selected * confirmed| + |selected - confirmed| == |selected|
  {
    assert selected == (selected * confirmed) + (selected - confirmed);
  }

  lemma SweptStates(l: Ledger, selected: set<string>, confirmed: set<string>, at: int)
    requires selected <= l.Keys
    ensures var after := Swept(l, selected, confirmed, at);
            && after.Keys == l.Keys && (forall id :: id in l && id !in selected ==> after[id] == l[id])
            && (forall id :: id in selected ==> after[id].state == if id in confirmed then Deleted else Expired)
  {}

  lemma FreedSums(l: Ledger, ids: set<string>)
    requires ids <= l.Keys
    ensures BytesOf(l, ids) == MapSum.Sum(map id | id in ids :: l[id].sizeBytes as int)
    ensures NanosOf(l, ids) == MapSum.Sum(map id | id in ids :: l[id].durationMs * 1_000_000)
  {
    assert (map id | id in l && id in ids :: l[id].sizeBytes as int) == map id | id in ids :: l[id].sizeBytes as int;
    assert (map id | id in l && id in ids :: l[id].durationMs * NANOS_PER_MILLI)
        == map id | id in ids :: l[id].durationMs * 1_000_000;
  }

  class RetentionDriver {
    const store: MemRecordingStore
    const policy: Policy
    const metrics: RetentionMetrics

    constructor (store: MemRecordingStore, policy: Policy, metrics: RetentionMetrics)
      ensures this.store == store && this.policy == policy && this.metrics == metrics
    {
      this.store, this.policy, this.metrics := store, policy, metrics;
    }

    /** The loop body of Run for one selected id and its snapshot entry, which need not be what
        the store holds by now. */
    method Visit(id: string, rec: Recording, at: int, gone: bool, res0: SweepResult) returns (res: SweepResult)
      modifies store
      ensures id in old(store.rec) ==>
                store.rec == old(store.rec)[id := Visited(old(store.rec)[id], rec.state == Expired, gone, at)]
      ensures id in old(store.rec) ==> res == Tally(res0, rec, gone)
      ensures id !in old(store.rec) ==> store.rec == old(store.rec)
      ensures id !in old(store.rec) ==>
                res == if rec.state == Expired && !gone then res0.(deleteErrs := res0.deleteErrs + 1) else res0
    {
      res := res0;
      if rec.state != Expired {
        var found := store.SetState(id, Expired, at);
        if !found {
          return;
        }
        res := res.(expired := res.expired + 1);
      }
      if !gone {
        res := res.(deleteErrs := res.deleteErrs + 1);
        return;
      }
      var found := store.SetState(id, Deleted, at);
      if !found {
        return;
      }
      res := res.(deleted := res.deleted + 1,
                  bytesFreed := res.bytesFreed + rec.sizeBytes,
                  durationFreed := res.durationFreed + rec.durationMs * NANOS_PER_MILLI);
    }

    /** One cleanup pass at clock `now`, the deleter confirming exactly the ids in `confirmed`.
        Ids are visited in any order; the outcome does not depend on it. */
    method Run(now: int, confirmed: set<string>) returns (res: SweepResult)
      requires Keyed(store.rec)
      modifies store, metrics
      ensures Keyed(store.rec)
      ensures var selected := SelectedIds(policy, old(store.rec).Values, now);
              && store.rec == Swept(old(store.rec), selected, confirmed, UsageKey.UnixSeconds(now))
              && res == Totals(old(store.rec), if policy.Enabled() then |old(store.rec)| else 0, selected, confirmed)
      ensures metrics.expiredTotal == old(metrics.expiredTotal) + res.expired
      ensures metrics.deletedTotal == old(metrics.deletedTotal) + res.deleted
      ensures metrics.deleteErrTotal == old(metrics.deleteErrTotal) + res.deleteErrs
      ensures metrics.bytesFreed == old(metrics.bytesFreed) + res.bytesFreed
    {
      res := SweepResult(0, 0, 0, 0, 0, 0);
      ghost var l := store.rec;
      ghost var selected := SelectedIds(policy, l.Values, now);
      LedgerIds(policy, l, now);
      var at := UsageKey.UnixSeconds(now);
      SweptKeyed(l, selected, confirmed, at);
      if !policy.Enabled() {
        NothingSwept(l, 0, confirmed, at);
        DisabledSelectsNothing(policy, l.Values, now);
        return;
      }
      var recs := store.List();
      var expired := ExpiredEgressIds(policy, recs, now);
      assert expired == selected;
      var byId := IndexById(recs, l);
      FreshSnapshot(l, selected, confirmed, at);
      res := VisitAll(expired, byId, at, confirmed, |recs|);
      metrics.ObserveRetentionSweep(res);
    }

    /** The loop of Run over the selected ids, from a snapshot of the ledger then listed. */
    method VisitAll(expired: set<string>, byId: Ledger, at: int, confirmed: set<string>, examined: nat)
      returns (res: SweepResult)
      requires expired <= store.rec.Keys && expired <= byId.Keys
      modifies store
      ensures store.rec == SweptOver(old(store.rec), byId, expired, confirmed, at)
      ensures res == Totals(byId, examined, expired, confirmed)
    {
      res := SweepResult(examined, 0, 0, 0, 0, 0);
      ghost var l := store.rec;
      NothingDone(l, byId, confirmed, at, examined);
      var todo := expired;
      ghost var done := {};
      while todo != {}
        invariant Split(done, todo, expired) && todo <= store.rec.Keys
        invariant SweptSoFar(l, store.rec, byId, done, confirmed, at, examined, res)
        decreases |todo|
      {
        var id :| id in todo;
        OneMoreDone(l, store.rec, byId, done, confirmed, at, examined, res, id);
        MoveOver(done, todo, expired, id);
        res := Visit(id, byId[id], at, id in confirmed, res);
        todo := todo - {id};
        done := done + {id};
      }
    }
  }

  method IndexById(recs: seq<Recording>, ghost l: Ledger) returns (byId: Ledger)
    requires Keyed(l) && Elements(recs) == l.Values
    ensures byId == l
  {
    byId := map[];
    for i := 0 to |recs|
      invariant forall id :: id in byId ==> id in l && byId[id] == l[id]
      invariant forall j :: 0 <= j < i ==> recs[j].egressId in byId
    {
      assert recs[i] in Elements(recs);
      ghost var id :| id in l && l[id] == recs[i];
      byId := byId[recs[i].egressId := recs[i]];
    }
    forall id | id in l ensures id in byId {
      assert l[id] in Elements(recs);
    }
  }
}
