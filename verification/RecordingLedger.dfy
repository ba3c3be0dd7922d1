/** The recording lifecycle ledger: ranked states, the merge rule of webhook upserts, the
    unguarded transition of the sweeper, and the mapping from webhook events to records. */
module RecordingLedger {
  import opened Ordering

  datatype State = InProgress | Available | Failed | Expired | Deleted

  function Rank(s: State): nat {
    match s
    case InProgress => 0
    case Available => 1
    case Failed => 1
    case Expired => 2
    case Deleted => 3
  }

  datatype Recording = Recording(
    egressId: string, tenant: string, room: string, state: State,
    startedAt: int, endedAt: int, durationMs: nat, sizeBytes: nat,
    expiredAt: int, deletedAt: int)
  {
    /** The instant retention counts from. */
    function RetainedFrom(): int {
      if endedAt > 0 then endedAt else startedAt
    }
  }

  type Ledger = map<string, Recording>

  ghost predicate Keyed(l: Ledger) {
    forall id :: id in l ==> l[id].egressId == id && id != ""
  }

  // ---- Upsert ------------------------------------------------------------------------

  function Merge(cur: Recording, in_: Recording): Recording {
    cur.(
      state := if Rank(in_.state) < Rank(cur.state) then cur.state else in_.state,
      tenant := if in_.tenant != "" then in_.tenant else cur.tenant,
      room := if in_.room != "" then in_.room else cur.room,
      startedAt := if in_.startedAt > 0 && cur.startedAt == 0 then in_.startedAt else cur.startedAt,
      endedAt := if in_.endedAt > 0 then in_.endedAt else cur.endedAt,
      durationMs := if in_.durationMs > 0 then in_.durationMs else cur.durationMs,
      sizeBytes := if in_.sizeBytes > 0 then in_.sizeBytes else cur.sizeBytes)
  }

  /** The ledger after an upsert; one without an egress id is refused. */
  function Upserted(l: Ledger, in_: Recording): Ledger {
    if in_.egressId == "" then l
    else if in_.egressId in l then l[in_.egressId := Merge(l[in_.egressId], in_)]
    else l[in_.egressId := in_]
  }

  /** One entry after a transition, with its time stamps. */
  function Moved(r: Recording, state: State, at: int): Recording {
    var cur := r.(state := state);
    match state
    case Expired => cur.(expiredAt := at)
    case Deleted => cur.(expiredAt := if cur.expiredAt == 0 then at else cur.expiredAt, deletedAt := at)
    case _ => cur
  }

  /** The ledger after SetState: any state may follow any other. */
  function WithState(l: Ledger, id: string, state: State, at: int): Ledger
    requires id in l
  {
    l[id := Moved(l[id], state, at)]
  }

  predicate ById(a: Recording, b: Recording) {
    Less(a.egressId, b.egressId)
  }

  class MemRecordingStore {
    var rec: Ledger

    constructor ()
      ensures rec == map[]
    {
      rec := map[];
    }

    method Upsert(in_: Recording) returns (accepted: bool)
      modifies this
      ensures accepted <==> in_.egressId != ""
      ensures rec == Upserted(old(rec), in_)
    {
      if in_.egressId == "" {
        return false;
      }
      if in_.egressId !in rec {
        rec := rec[in_.egressId := in_];
        return true;
      }
      var cur := rec[in_.egressId];
      if !(Rank(in_.state) < Rank(cur.state)) {
        cur := cur.(state := in_.state);
      }
      if in_.tenant != "" {
        cur := cur.(tenant := in_.tenant);
      }
      if in_.room != "" {
        cur := cur.(room := in_.room);
      }
      if in_.startedAt > 0 && cur.startedAt == 0 {
        cur := cur.(startedAt := in_.startedAt);
      }
      if in_.endedAt > 0 {
        cur := cur.(endedAt := in_.endedAt);
      }
      if in_.durationMs > 0 {
        cur := cur.(durationMs := in_.durationMs);
      }
      if in_.sizeBytes > 0 {
        cur := cur.(sizeBytes := in_.sizeBytes);
      }
      rec := rec[in_.egressId := cur];
      return true;
    }

    /** A snapshot of every entry, by egress id. */
    method List() returns (out: seq<Recording>)
      requires Keyed(rec)
      ensures Elements(out) == rec.Values && |out| == |rec|
      ensures Sorted(ById, out) && NoDuplicates(out)
    {
      out := [];
      var todo := rec.Keys;
      while todo != {}
        invariant todo <= rec.Keys
        invariant Elements(out) == (set id | id in rec.Keys - todo :: rec[id])
        invariant |out| + |todo| == |rec|
        invariant NoDuplicates(out)
      {
        var id :| id in todo;
        ghost var done := rec.Keys - todo;
        todo := todo - {id};
        assert rec[id] !in Elements(out);
        ghost var before := out;
        out := out + [rec[id]];
        assert Elements(out) == Elements(before) + {rec[id]};
        assert rec.Keys - todo == done + {id};
      }
      assert Elements(out) == rec.Values;
      ByIdLinear(rec);
      SortBySorts(ById, out);
      out := SortBy(ById, out);
      forall i, j | 0 <= i < j < |out| ensures out[i] != out[j] {
        assert ById(out[i], out[j]);
        LessIrreflexive(out[i].egressId);
      }
    }

    method SetState(id: string, state: State, at: int) returns (found: bool)
      modifies this
      ensures found <==> id in old(rec)
      ensures found ==> id in rec && rec - {id} == old(rec) - {id}
      ensures found ==> rec[id] == old(rec)[id].(
                state := state,
                expiredAt := if state == Expired || (state == Deleted && old(rec)[id].expiredAt == 0) then at
                             else old(rec)[id].expiredAt,
                deletedAt := if state == Deleted then at else old(rec)[id].deletedAt)
      ensures rec == if found then WithState(old(rec), id, state, at) else old(rec)
    {
      if id !in rec {
        return false;
      }
      var cur := rec[id].(state := state);
      match state {
        case Expired =>
          cur := cur.(expiredAt := at);
        case Deleted =>
          if cur.expiredAt == 0 {
            cur := cur.(expiredAt := at);
          }
          cur := cur.(deletedAt := at);
        case _ =>
      }
      rec := rec[id := cur];
      return true;
    }
  }

  lemma ByIdLinear(l: Ledger)
    requires Keyed(l)
    ensures Linear(ById, l.Values)
  {
    forall x | x in l.Values ensures !ById(x, x) { LessIrreflexive(x.egressId); }
    forall x, y | x in l.Values && y in l.Values && x != y ensures ById(x, y) || ById(y, x) {
      LessTotal(x.egressId, y.egressId);
    }
    forall x, y, z | x in l.Values && y in l.Values && z in l.Values && ById(x, y) && ById(y, z)
      ensures ById(x, z)
    {
      LessTransitive(x.egressId, y.egressId, z.egressId);
    }
  }

  // ---- Webhook events ----------------------------------------------------------------

  /** What recordLifecycle reads from one verified egress event. */
  datatype EgressEvent = EgressEvent(
    event: string, status: string, egressId: string, tenant: string, room: string,
    sizeBytes: nat, durationMs: nat)

  predicate StatusIsComplete(s: string) { s == "EGRESS_COMPLETE" }

  predicate StatusIsFailed(s: string) {
    s == "EGRESS_FAILED" || s == "EGRESS_ABORTED" || s == "EGRESS_LIMIT_REACHED"
  }

  function LifecycleRecord(e: EgressEvent, now: int): Recording {
    var blank := Recording(e.egressId, e.tenant, e.room, InProgress, 0, 0, 0, 0, 0, 0);
    var finished := blank.(state := Available, endedAt := now, sizeBytes := e.sizeBytes, durationMs := e.durationMs);
    if StatusIsComplete(e.status) then finished
    else if StatusIsFailed(e.status) then blank.(state := Failed, endedAt := now)
    else if e.event == "egress_ended" then finished
    else blank.(startedAt := now)
  }

  /** Upserting the same record again changes nothing. A redelivered webhook is another record:
      it is stamped anew. */
  lemma UpsertIdempotent(l: Ledger, in_: Recording)
    ensures Upserted(Upserted(l, in_), in_) == Upserted(l, in_)
  {
    if in_.egressId != "" {
      var once := Upserted(l, in_)[in_.egressId];
      assert Merge(once, in_) == once;
    }
  }

  /** Upserts one after the other, starting from an empty ledger. */
  function Replay(events: seq<Recording>): Ledger {
    if events == [] then map[] else Upserted(Replay(events[..|events|-1]), events[|events|-1])
  }

  ghost function DeliveredStates(events: seq<Recording>, id: string): set<State> {
    set i | 0 <= i < |events| && events[i].egressId == id :: events[i].state
  }

  /** Whatever the order and the repetitions, an egress ends in one of the delivered states of
      the highest delivered rank. */
  lemma {:induction false} ReplayReachesMaximum(events: seq<Recording>, id: string)
    requires id != ""
    ensures id in Replay(events) <==> DeliveredStates(events, id) != {}
    ensures id in Replay(events) ==>
              && Replay(events)[id].state in DeliveredStates(events, id)
              && forall s :: s in DeliveredStates(events, id) ==> Rank(s) <= Rank(Replay(events)[id].state)
  {
    if events == [] { return; }
    var n := |events| - 1;
    var front, last := events[..n], events[n];
    ReplayReachesMaximum(front, id);
    var added := if last.egressId == id then {last.state} else {};
    assert DeliveredStates(events, id) == DeliveredStates(front, id) + added by {
      forall s | s in DeliveredStates(front, id) ensures s in DeliveredStates(events, id) {
        var i :| 0 <= i < n && front[i].egressId == id && front[i].state == s;
        assert events[i] == front[i];
      }
      forall s | s in DeliveredStates(events, id) ensures s in DeliveredStates(front, id) + added {
        var i :| 0 <= i <= n && events[i].egressId == id && events[i].state == s;
        if i < n { assert front[i] == events[i]; }
      }
    }
    if id in Replay(events) && last.egressId == id && id !in Replay(front) {
      assert Replay(events)[id] == last;
    }
  }

  /** Any two deliveries carrying the same states converge to the same rank, and to the same
      state exactly as far as the states allow: only a mix of complete and failed events can
      make the outcome depend on the order. */
  lemma DeliveriesConverge(a: seq<Recording>, b: seq<Recording>, id: string)
    requires id != "" && DeliveredStates(a, id) == DeliveredStates(b, id) != {}
    ensures id in Replay(a) && id in Replay(b)
    ensures Rank(Replay(a)[id].state) == Rank(Replay(b)[id].state)
    ensures !({Available, Failed} <= DeliveredStates(a, id)) ==> Replay(a)[id].state == Replay(b)[id].state
  {
    ReplayReachesMaximum(a, id);
    ReplayReachesMaximum(b, id);
  }

  /** With both kinds delivered and nothing of a higher rank, the later one wins. */
  lemma MixedDeliveryFollowsOrder(events: seq<Recording>, complete: Recording, failed: Recording)
    requires complete.egressId == failed.egressId != ""
    requires complete.state == Available && failed.state == Failed
    requires forall s :: s in DeliveredStates(events, complete.egressId) ==> Rank(s) <= 1
    ensures Replay(events + [complete, failed])[complete.egressId].state == Failed
    ensures Replay(events + [failed, complete])[complete.egressId].state == Available
  {
    var id := complete.egressId;
    ReplayReachesMaximum(events, id);
    forall x: Recording, y: Recording | x in {complete, failed} && y in {complete, failed}
      ensures Replay(events + [x, y]) == Upserted(Upserted(Replay(events), x), y)
    {
      assert (events + [x, y])[..|events|+1] == events + [x];
      assert (events + [x])[..|events|] == events;
    }
  }
}
