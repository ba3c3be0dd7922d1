/** Where every field of the recording ledger comes from: the webhooks delivered, in order, and the
    clocks of the sweeps. */
module RecordingHistory {
  import opened RecordingLedger
  import opened RetentionPolicy
  import opened RetentionSweep
  import opened RetentionProtocol
  import UsageKey

  // ---- What the delivered records say ---------------------------------------------------------

  ghost predicate Delivered(events: seq<Recording>, id: string) {
    exists i :: 0 <= i < |events| && events[i].egressId == id
  }

  /** The last positive size, or zero. */
  ghost function LastSize(events: seq<Recording>, id: string): nat {
    if events == [] then 0 else
      var front, last := events[..|events|-1], events[|events|-1];
      if last.egressId == id && last.sizeBytes > 0 then last.sizeBytes else LastSize(front, id)
  }

  ghost function LastDuration(events: seq<Recording>, id: string): nat {
    if events == [] then 0 else
      var front, last := events[..|events|-1], events[|events|-1];
      if last.egressId == id && last.durationMs > 0 then last.durationMs else LastDuration(front, id)
  }

  /** The last positive end, or the first record's own. */
  ghost function LastEnd(events: seq<Recording>, id: string): int {
    if events == [] then 0 else
      var front, last := events[..|events|-1], events[|events|-1];
      if last.egressId == id && (last.endedAt > 0 || !Delivered(front, id)) then last.endedAt else LastEnd(front, id)
  }

  /** The first record's own start, or, if that is zero, the first positive one. */
  ghost function FirstStart(events: seq<Recording>, id: string): int {
    if events == [] then 0 else
      var front, last := events[..|events|-1], events[|events|-1];
      if FirstStart(front, id) == 0 && last.egressId == id && (last.startedAt > 0 || !Delivered(front, id))
      then last.startedAt else FirstStart(front, id)
  }

  /** The last tenant that is not empty. */
  ghost function LastTenant(events: seq<Recording>, id: string): string {
    if events == [] then "" else
      var front, last := events[..|events|-1], events[|events|-1];
      if last.egressId == id && last.tenant != "" then last.tenant else LastTenant(front, id)
  }

  ghost function LastRoom(events: seq<Recording>, id: string): string {
    if events == [] then "" else
      var front, last := events[..|events|-1], events[|events|-1];
      if last.egressId == id && last.room != "" then last.room else LastRoom(front, id)
  }

  /** An entry carries what the delivered records say. */
  ghost predicate Remembers(events: seq<Recording>, id: string, r: Recording) {
    && r.egressId == id
    && r.sizeBytes == LastSize(events, id) && r.durationMs == LastDuration(events, id)
    && r.endedAt == LastEnd(events, id) && r.startedAt == FirstStart(events, id)
    && r.tenant == LastTenant(events, id) && r.room == LastRoom(events, id)
  }

  /** One entry of a ledger, if it is there, and only if it was delivered. */
  ghost predicate Reflects(events: seq<Recording>, id: string, l: Ledger) {
    (id in l <==> Delivered(events, id)) && (id in l ==> Remembers(events, id, l[id]))
  }

  lemma {:induction false} NothingSaid(events: seq<Recording>, id: string)
    requires !Delivered(events, id)
    ensures LastSize(events, id) == 0 && LastDuration(events, id) == 0 && LastEnd(events, id) == 0
    ensures FirstStart(events, id) == 0 && LastTenant(events, id) == "" && LastRoom(events, id) == ""
  {
    if events != [] {
      var front := events[..|events|-1];
      assert forall i :: 0 <= i < |front| ==> front[i] == events[i];
      assert events[|events|-1].egressId != id;
      NothingSaid(front, id);
    }
  }

  lemma OneMoreDelivered(events: seq<Recording>, in_: Recording, id: string)
    ensures Delivered(events + [in_], id) <==> Delivered(events, id) || in_.egressId == id
  {
    var more := events + [in_];
    if in_.egressId == id { assert more[|events|].egressId == id; }
    if Delivered(events, id) {
      var i :| 0 <= i < |events| && events[i].egressId == id;
      assert more[i].egressId == id;
    }
    if Delivered(more, id) && in_.egressId != id {
      var i :| 0 <= i < |more| && more[i].egressId == id;
      assert events[i].egressId == id;
    }
  }

  /** An upsert adds its record to what an entry remembers. */
  lemma UpsertRemembers(l: Ledger, events: seq<Recording>, in_: Recording, id: string)
    requires id != "" && Reflects(events, id, l)
    ensures Reflects(events + [in_], id, Upserted(l, in_))
  {
    assert (events + [in_])[..|events|] == events;
    OneMoreDelivered(events, in_, id);
    if id !in l { NothingSaid(events, id); }
  }

  /** After any upserts every field of an entry is what the delivered records say: sizes, durations,
      ends, tenants and rooms the last that were given, the start the first. */
  lemma {:induction false} ReplayRemembers(events: seq<Recording>, id: string)
    requires id != ""
    ensures Reflects(events, id, Replay(events))
  {
    if events != [] {
      var n := |events| - 1;
      assert events == events[..n] + [events[n]];
      ReplayRemembers(events[..n], id);
      UpsertRemembers(Replay(events[..n]), events[..n], events[n], id);
    }
  }

  // ---- What a webhook says ----------------------------------------------------------------------

  /** One verified egress event and the record made of it: which end it reports, if any, and what
      it carries. */
  lemma WebhookSays(e: EgressEvent, at: int)
    ensures var r := LifecycleRecord(e, at);
            var aborted :=
              e.status == "EGRESS_FAILED" || e.status == "EGRESS_ABORTED" || e.status == "EGRESS_LIMIT_REACHED";
            var complete := e.status == "EGRESS_COMPLETE" || (!aborted && e.event == "egress_ended");
            && r.egressId == e.egressId && r.tenant == e.tenant && r.room == e.room
            && (r.state == Available <==> complete) && (r.state == Failed <==> aborted)
            && (r.state == InProgress <==> !complete && !aborted)
            && r.endedAt == (if complete || aborted then at else 0)
            && r.startedAt == (if complete || aborted then 0 else at)
            && r.sizeBytes == (if complete then e.sizeBytes else 0)
            && r.durationMs == (if complete then e.durationMs else 0)
            && r.expiredAt == 0 && r.deletedAt == 0
  {}

  // ---- Runs -------------------------------------------------------------------------------------

  /** The records of the webhooks among the first k steps. */
  ghost function Reports(actions: seq<Action>, k: nat): seq<Recording>
    requires k <= |actions|
  {
    if k == 0 then []
    else if actions[k-1].Webhook?
    then Reports(actions, k - 1) + [LifecycleRecord(actions[k-1].e, actions[k-1].receivedAt)]
    else Reports(actions, k - 1)
  }

  lemma TransitionRemembers(events: seq<Recording>, l: Ledger, x: string, state: State, at: int, id: string)
    requires x in l && Reflects(events, id, l)
    ensures Reflects(events, id, WithState(l, x, state, at))
  {}

  lemma StepRemembers(sep: char, p: Policy, s: System, a: Action, events: seq<Recording>, id: string)
    requires Can(sep, p, s, a) && id != "" && Reflects(events, id, s.ledger)
    ensures var said := if a.Webhook? then events + [LifecycleRecord(a.e, a.receivedAt)] else events;
            Reflects(said, id, Do(sep, p, s, a).ledger)
  {
    match a
    case Webhook(e, _, at) => UpsertRemembers(s.ledger, events, LifecycleRecord(e, at), id);
    case Mark(x) =>
      if s.sweep.snapshot[x].state != Expired {
        TransitionRemembers(events, s.ledger, x, Expired, UsageKey.UnixSeconds(s.sweep.now), id);
      }
    case Record =>
      TransitionRemembers(events, s.ledger, s.sweep.cursor.id, Deleted, UsageKey.UnixSeconds(s.sweep.now), id);
    case _ =>
  }

  /** In every run, at every moment, the sweeper's steps included: each entry carries what the
      webhooks so far said. */
  lemma {:induction false} RunRemembers(
    sep: char, p: Policy, states: seq<System>, actions: seq<Action>, k: nat, id: string)
    requires IsRun(sep, p, states, actions) && k < |states| && id != ""
    ensures Reflects(Reports(actions, k), id, states[k].ledger)
  {
    if k > 0 {
      RunRemembers(sep, p, states, actions, k - 1, id);
      StepRemembers(sep, p, states[k-1], actions[k-1], Reports(actions, k - 1), id);
    }
  }

  /** The step at which the sweep under way began. */
  lemma {:induction false} SweepBegan(sep: char, p: Policy, states: seq<System>, actions: seq<Action>, k: nat)
    returns (b: nat)
    requires IsRun(sep, p, states, actions) && k < |states| && states[k].sweep.Busy?
    ensures b < k && actions[b].Begin? && forall m :: b < m < k ==> !actions[m].Begin?
    ensures states[k].sweep.snapshot == states[b].ledger && states[k].sweep.now == actions[b].clock
  {
    assert k > 0 && Can(sep, p, states[k-1], actions[k-1]);
    if actions[k-1].Begin? { b := k - 1; } else { b := SweepBegan(sep, p, states, actions, k - 1); }
  }

  /** What a Deleted entry adds to the bytes freed is the last positive size the webhooks had
      reported for it when the sweep began that deleted it. */
  lemma FreedIsReported(sep: char, p: Policy, states: seq<System>, actions: seq<Action>, i: nat, id: string)
    returns (b: nat, k: nat)
    requires IsRun(sep, p, states, actions) && i < |states|
    requires id in states[i].ledger && states[i].ledger[id].state == Deleted
    ensures b < k < i && actions[b].Begin? && (forall m :: b < m < k ==> !actions[m].Begin?)
    ensures Records(states, actions, k, id)
    ensures id in states[i].freed && states[i].freed[id] == LastSize(Reports(actions, b), id)
  {
    k := FreedOnce(sep, p, states, actions, i, id);
    b := SweepBegan(sep, p, states, actions, k);
    RunKeepsInvariant(sep, p, states, actions, i);
    RunRemembers(sep, p, states, actions, b, id);
  }

  // ---- The sweeper's stamps -----------------------------------------------------------------------

  /** Step k marks the id expired, and stamps it. */
  ghost predicate Marks(states: seq<System>, actions: seq<Action>, k: nat, id: string)
    requires k < |actions| && |states| == |actions| + 1
  {
    actions[k] == Mark(id) && states[k].sweep.Busy? && id in states[k].sweep.snapshot
    && states[k].sweep.snapshot[id].state != Expired
  }

  /** A step that is not about the id, as far as the sweeper's stamps go. */
  lemma UpsertKeepsStamps(l: Ledger, in_: Recording, id: string)
    requires Rank(in_.state) <= 1
    requires id in Upserted(l, in_) && Rank(Upserted(l, in_)[id].state) >= 2
    ensures id in l && SameStamps(l[id], Upserted(l, in_)[id])
  {}

  ghost predicate SameStamps(before: Recording, after: Recording) {
    before.state == after.state && before.expiredAt == after.expiredAt && before.deletedAt == after.deletedAt
  }

  /** A step that neither marks nor records the id leaves an entry past expiry as it was. */
  lemma OtherStepsKeepStamps(sep: char, p: Policy, s: System, a: Action, id: string)
    requires Can(sep, p, s, a)
    requires a == Mark(id) ==> s.sweep.snapshot[id].state == Expired
    requires a.Record? ==> s.sweep.cursor.id != id
    requires id in Do(sep, p, s, a).ledger && Rank(Do(sep, p, s, a).ledger[id].state) >= 2
    ensures id in s.ledger && SameStamps(s.ledger[id], Do(sep, p, s, a).ledger[id])
  {
    match a
    case Webhook(e, fullRoom, at) =>
      WebhookRecord(sep, e, fullRoom, at);
      UpsertKeepsStamps(s.ledger, LifecycleRecord(e, at), id);
    case _ =>
  }

  lemma RecordStamps(sep: char, p: Policy, s: System, a: Action)
    requires Can(sep, p, s, a) && a.Record?
    ensures var id, at := s.sweep.cursor.id, UsageKey.UnixSeconds(s.sweep.now);
            var before, after := s.ledger[id], Do(sep, p, s, a).ledger[id];
            && after.state == Deleted && after.deletedAt == at
            && after.expiredAt == if before.expiredAt == 0 then at else before.expiredAt
  {}

  lemma MarkStamps(sep: char, p: Policy, s: System, a: Action)
    requires Can(sep, p, s, a) && a.Mark? && s.sweep.snapshot[a.id].state != Expired
    ensures var after := Do(sep, p, s, a).ledger[a.id];
            after.state == Expired && after.expiredAt == UsageKey.UnixSeconds(s.sweep.now)
  {}

  /** The entry a nil answer is recorded for is expired. */
  lemma CursorIsExpired(sep: char, p: Policy, states: seq<System>, actions: seq<Action>, k: nat)
    requires IsRun(sep, p, states, actions) && k < |actions| && actions[k].Record?
    ensures Can(sep, p, states[k], actions[k])
    ensures var id := states[k].sweep.cursor.id; id in states[k].ledger && states[k].ledger[id].state == Expired
  {
    RunKeepsInvariant(sep, p, states, actions, k);
  }

  /** A Deleted entry carries the second of the sweep that deleted it. */
  lemma {:induction false} DeletedAtItsSweep(
    sep: char, p: Policy, states: seq<System>, actions: seq<Action>, i: nat, id: string) returns (k: nat)
    requires IsRun(sep, p, states, actions) && i < |states|
    requires id in states[i].ledger && states[i].ledger[id].state == Deleted
    ensures k < i && Records(states, actions, k, id)
    ensures states[i].ledger[id].deletedAt == UsageKey.UnixSeconds(states[k].sweep.now)
  {
    assert i > 0 && Can(sep, p, states[i-1], actions[i-1]);
    if Records(states, actions, i - 1, id) {
      k := i - 1;
      RecordStamps(sep, p, states[k], actions[k]);
    } else if Marks(states, actions, i - 1, id) {
      MarkStamps(sep, p, states[i-1], actions[i-1]);
      assert false;
    } else {
      OtherStepsKeepStamps(sep, p, states[i-1], actions[i-1], id);
      k := DeletedAtItsSweep(sep, p, states, actions, i - 1, id);
    }
  }

  /** What the stamp of an expired or deleted entry is, if `second` is that of the marking sweep: a
      zero second is overwritten when the entry is deleted. */
  ghost predicate ExpiryStamp(r: Recording, second: int) {
    if r.state == Expired then r.expiredAt == second
    else r.expiredAt == if second == 0 then r.deletedAt else second
  }

  /** An entry past expiry was marked by some step, and carries the second of that sweep. */
  lemma {:induction false} ExpiredAtItsSweep(
    sep: char, p: Policy, states: seq<System>, actions: seq<Action>, i: nat, id: string) returns (k: nat)
    requires IsRun(sep, p, states, actions) && i < |states|
    requires id in states[i].ledger && Rank(states[i].ledger[id].state) >= 2
    ensures k < i && Marks(states, actions, k, id)
    ensures ExpiryStamp(states[i].ledger[id], UsageKey.UnixSeconds(states[k].sweep.now))
  {
    assert i > 0 && Can(sep, p, states[i-1], actions[i-1]);
    if Marks(states, actions, i - 1, id) {
      k := i - 1;
      MarkStamps(sep, p, states[k], actions[k]);
    } else {
      if Records(states, actions, i - 1, id) {
        CursorIsExpired(sep, p, states, actions, i - 1);
        RecordStamps(sep, p, states[i-1], actions[i-1]);
      } else {
        OtherStepsKeepStamps(sep, p, states[i-1], actions[i-1], id);
      }
      k := ExpiredAtItsSweep(sep, p, states, actions, i - 1, id);
    }
  }
}
