/** The sweeper and the webhooks as one concurrent system. The store's lock makes each ledger
    access one step; between any two steps of a sweep any number of webhooks may write. The
    sweep works from the snapshot it listed at the start. There is one sweeper. */
module RetentionProtocol {
  import opened RecordingLedger
  import opened RetentionPolicy
  import opened RetentionSweep
  import RetentionRetry
  import TenantGate
  import UsageKey
  import MapSum

  /** Where the loop body of Run stands: between ids, about to call the deleter for an id now
      marked expired, or about to record the deleter's nil answer. */
  datatype Cursor = Between | Marked(id: string) | Confirmed(id: string)

  datatype Sweep =
    | Idle
    | Busy(snapshot: Ledger, now: int, todo: set<string>, cursor: Cursor,
           visited: set<string>, gone: set<string>, res: SweepResult)

  datatype Counters = Counters(expiredTotal: nat, deletedTotal: nat, deleteErrTotal: nat, bytesFreed: int)

  /** `issued`, `confirmed` and `freed` record the past: the ids a blob delete was issued for,
      those it returned nil for, and what each deleted id added to the bytes freed. */
  datatype System = System(
    ledger: Ledger, sweep: Sweep, counters: Counters,
    issued: set<string>, confirmed: set<string>, freed: map<string, int>)

  datatype Action =
    | Webhook(e: EgressEvent, fullRoom: string, receivedAt: int)
    | Begin(clock: int)
    | Mark(id: string)
    | Answer(ok: bool)
    | Record
    | Finish

  const START := System(map[], Idle, Counters(0, 0, 0, 0), {}, {}, map[])

  ghost predicate Can(sep: char, p: Policy, s: System, a: Action) {
    match a
    case Webhook(e, fullRoom, at) =>
      at > 0 && TenantGate.SplitRoom(sep, fullRoom) == TenantGate.Ok(TenantGate.RoomName(e.tenant, e.room))
    case Begin(_) => s.sweep.Idle? && p.Enabled()
    case Mark(id) => s.sweep.Busy? && s.sweep.cursor.Between? && id in s.sweep.todo
                     && id in s.ledger && id in s.sweep.snapshot
    case Answer(_) => s.sweep.Busy? && s.sweep.cursor.Marked?
    case Record => s.sweep.Busy? && s.sweep.cursor.Confirmed?
                   && s.sweep.cursor.id in s.ledger && s.sweep.cursor.id in s.sweep.snapshot
    case Finish => s.sweep.Busy? && s.sweep.cursor.Between? && s.sweep.todo == {}
  }

  ghost function Do(sep: char, p: Policy, s: System, a: Action): System
    requires Can(sep, p, s, a)
  {
    match a
    case Webhook(e, _, at) => s.(ledger := Upserted(s.ledger, LifecycleRecord(e, at)))
    case Begin(now) =>
      s.(sweep := Busy(s.ledger, now, SelectedIds(p, s.ledger.Values, now), Between, {}, {},
                       SweepResult(|s.ledger|, 0, 0, 0, 0, 0)))
    case Mark(id) =>
      var w, at := s.sweep, UsageKey.UnixSeconds(s.sweep.now);
      var next := w.(todo := w.todo - {id}, cursor := Marked(id), visited := w.visited + {id});
      if w.snapshot[id].state == Expired then s.(sweep := next)
      else s.(sweep := next.(res := w.res.(expired := w.res.expired + 1)),
              ledger := WithState(s.ledger, id, Expired, at))
    case Answer(ok) =>
      var w, id := s.sweep, s.sweep.cursor.id;
      if ok
      then s.(sweep := w.(cursor := Confirmed(id)), issued := s.issued + {id}, confirmed := s.confirmed + {id})
      else s.(sweep := w.(cursor := Between, res := w.res.(deleteErrs := w.res.deleteErrs + 1)),
              issued := s.issued + {id})
    case Record =>
      var w, id, at := s.sweep, s.sweep.cursor.id, UsageKey.UnixSeconds(s.sweep.now);
      var rec := w.snapshot[id];
      s.(sweep := w.(cursor := Between, gone := w.gone + {id},
                     res := w.res.(deleted := w.res.deleted + 1, bytesFreed := w.res.bytesFreed + rec.sizeBytes,
                                   durationFreed := w.res.durationFreed + rec.durationMs * NANOS_PER_MILLI)),
         ledger := WithState(s.ledger, id, Deleted, at),
         freed := s.freed[id := rec.sizeBytes])
    case Finish =>
      var c, r := s.counters, s.sweep.res;
      s.(sweep := Idle,
         counters := Counters(c.expiredTotal + r.expired, c.deletedTotal + r.deleted,
                              c.deleteErrTotal + r.deleteErrs, c.bytesFreed + r.bytesFreed))
  }

  // ---- Invariant ---------------------------------------------------------------------

  ghost function AtLeast(l: Ledger, rank: nat): set<string> {
    set id | id in l && Rank(l[id].state) >= rank
  }

  /** Finished captures carry their end time; ids and tenants are in order. */
  ghost predicate LedgerInv(l: Ledger) {
    && Keyed(l)
    && (forall id :: id in l && Rank(l[id].state) >= 1 ==> l[id].endedAt > 0)
    && (forall id :: id in l ==> '\0' !in l[id].tenant)
  }

  ghost predicate HistoryInv(s: System) {
    && s.confirmed <= s.issued <= AtLeast(s.ledger, 2)
    && AtLeast(s.ledger, 3) <= s.confirmed
    && s.freed.Keys == AtLeast(s.ledger, 3)
  }

  /** The snapshot is stale, but not where it matters: ids still to visit are expired now exactly
      if they were then, and the id at hand is expired. */
  ghost predicate SweepInv(l: Ledger, w: Sweep) {
    w.Busy? ==>
      && w.todo <= w.snapshot.Keys <= l.Keys
      && (forall id :: id in w.todo ==> id !in AtLeast(l, 3) && id in AtLeast(l, 1))
      && (forall id :: id in w.todo ==> (id in AtLeast(l, 2) <==> w.snapshot[id].state == Expired))
      && (!w.cursor.Between? ==> w.cursor.id !in w.todo && w.cursor.id in w.snapshot
                                 && w.cursor.id in l && l[w.cursor.id].state == Expired)
  }

  ghost predicate CounterInv(s: System) {
    var r := if s.sweep.Busy? then s.sweep.res else SweepResult(0, 0, 0, 0, 0, 0);
    && s.counters.expiredTotal + r.expired == |AtLeast(s.ledger, 2)|
    && s.counters.deletedTotal + r.deleted == |AtLeast(s.ledger, 3)|
    && s.counters.bytesFreed + r.bytesFreed == MapSum.Sum(s.freed)
  }

  ghost predicate Inv(s: System) {
    LedgerInv(s.ledger) && HistoryInv(s) && SweepInv(s.ledger, s.sweep) && CounterInv(s)
      && (s.sweep.Busy? && s.sweep.cursor.Confirmed? ==> s.sweep.cursor.id in s.confirmed)
  }

  lemma RankThree(l: Ledger, id: string)
    requires id in l
    ensures id in AtLeast(l, 3) <==> l[id].state == Deleted
    ensures id in AtLeast(l, 2) <==> l[id].state == Deleted || l[id].state == Expired
  {}

  /** A webhook moves nothing across the ranks the sweeper owns. */
  lemma UpsertLevels(l: Ledger, in_: Recording)
    requires LedgerInv(l) && Rank(in_.state) <= 1 && '\0' !in in_.tenant
    requires in_.state != InProgress ==> in_.endedAt > 0
    ensures var l' := Upserted(l, in_);
            && LedgerInv(l') && l.Keys <= l'.Keys
            && AtLeast(l', 3) == AtLeast(l, 3) && AtLeast(l', 2) == AtLeast(l, 2) && AtLeast(l, 1) <= AtLeast(l', 1)
            && forall id :: id in l && Rank(l[id].state) >= 2 ==> l'[id].state == l[id].state
  {
    UpsertKeepsLedger(l, in_);
    UpsertStates(l, in_);
  }

  lemma UpsertKeepsLedger(l: Ledger, in_: Recording)
    requires LedgerInv(l) && '\0' !in in_.tenant && (in_.state != InProgress ==> in_.endedAt > 0)
    ensures LedgerInv(Upserted(l, in_))
  {}

  lemma UpsertStates(l: Ledger, in_: Recording)
    requires Rank(in_.state) <= 1
    ensures var l' := Upserted(l, in_);
            && l.Keys <= l'.Keys
            && (forall id :: id in l ==> Rank(l[id].state) <= Rank(l'[id].state))
            && (forall id :: id in l && Rank(l[id].state) >= 2 ==> l'[id].state == l[id].state)
            && (forall id :: id in l' && Rank(l'[id].state) >= 2 ==> id in l && l'[id].state == l[id].state)
  {}

  lemma WebhookRecord(sep: char, e: EgressEvent, fullRoom: string, at: int)
    requires at > 0 && TenantGate.SplitRoom(sep, fullRoom) == TenantGate.Ok(TenantGate.RoomName(e.tenant, e.room))
    ensures var in_ := LifecycleRecord(e, at);
            Rank(in_.state) <= 1 && '\0' !in in_.tenant && (in_.state != InProgress ==> in_.endedAt > 0)
  {
    TenantGate.GateAdmits(sep, fullRoom);
    GateTenantsHaveNoNul(sep, e.tenant);
  }

  /** The sweeper's transitions move one entry up. */
  lemma TransitionLevels(l: Ledger, id: string, state: State, at: int)
    requires LedgerInv(l) && id in AtLeast(l, 1) && (state == Expired || state == Deleted)
    requires Rank(l[id].state) <= Rank(state)
    ensures var l' := WithState(l, id, state, at);
            && LedgerInv(l') && l'.Keys == l.Keys && l'[id].state == state
            && (forall x :: x in l && x != id ==> l'[x] == l[x])
            && AtLeast(l', 1) == AtLeast(l, 1) && AtLeast(l', 2) == AtLeast(l, 2) + {id}
            && AtLeast(l', 3) == if state == Deleted then AtLeast(l, 3) + {id} else AtLeast(l, 3)
  {
    var l' := WithState(l, id, state, at);
    assert forall x :: x in l && x != id ==> l'[x] == l[x];
  }

  lemma WebhookKeeps(sep: char, p: Policy, s: System, a: Action)
    requires Inv(s) && a.Webhook? && Can(sep, p, s, a)
    ensures Inv(Do(sep, p, s, a))
  {
    WebhookRecord(sep, a.e, a.fullRoom, a.receivedAt);
    UpsertLevels(s.ledger, LifecycleRecord(a.e, a.receivedAt));
    if s.sweep.Busy? && !s.sweep.cursor.Between? { RankThree(s.ledger, s.sweep.cursor.id); }
  }

  lemma BeginKeeps(sep: char, p: Policy, s: System, a: Action)
    requires Inv(s) && a.Begin? && Can(sep, p, s, a)
    ensures Inv(Do(sep, p, s, a))
  {
    BeginSweeps(p, s.ledger, a.clock);
  }

  lemma BeginSweeps(p: Policy, l: Ledger, now: int)
    requires Keyed(l)
    ensures SweepInv(l, Busy(l, now, SelectedIds(p, l.Values, now), Between, {}, {}, SweepResult(|l|, 0, 0, 0, 0, 0)))
  {
    LedgerIds(p, l, now);
    forall id | id in SelectedIds(p, l.Values, now)
      ensures Eligible(l[id])
    {
      SelectedMeans(p, l, now, id);
    }
  }

  lemma MarkKeeps(sep: char, p: Policy, s: System, a: Action)
    requires Inv(s) && a.Mark? && Can(sep, p, s, a)
    ensures Inv(Do(sep, p, s, a))
  {
    RankThree(s.ledger, a.id);
    if s.sweep.snapshot[a.id].state != Expired {
      TransitionLevels(s.ledger, a.id, Expired, UsageKey.UnixSeconds(s.sweep.now));
    }
  }

  lemma DeletedLevels(l: Ledger, id: string, at: int)
    requires LedgerInv(l) && id in l && l[id].state == Expired
    ensures AtLeast(WithState(l, id, Deleted, at), 2) == AtLeast(l, 2)
    ensures AtLeast(WithState(l, id, Deleted, at), 3) == AtLeast(l, 3) + {id} && id !in AtLeast(l, 3)
    ensures |AtLeast(WithState(l, id, Deleted, at), 3)| == |AtLeast(l, 3)| + 1
  {
    TransitionLevels(l, id, Deleted, at);
    assert AtLeast(l, 2) + {id} == AtLeast(l, 2);
  }

  lemma RecordCounts(sep: char, p: Policy, s: System, a: Action)
    requires a.Record? && Can(sep, p, s, a) && LedgerInv(s.ledger)
    requires HistoryInv(s) && CounterInv(s)
    requires s.ledger[s.sweep.cursor.id].state == Expired && s.sweep.cursor.id in s.confirmed
    ensures CounterInv(Do(sep, p, s, a)) && HistoryInv(Do(sep, p, s, a))
  {
    DeletedLevels(s.ledger, s.sweep.cursor.id, UsageKey.UnixSeconds(s.sweep.now));
    MapSum.AddKey(s.freed, s.sweep.cursor.id, s.sweep.snapshot[s.sweep.cursor.id].sizeBytes);
  }

  lemma RecordKeeps(sep: char, p: Policy, s: System, a: Action)
    requires Inv(s) && a.Record? && Can(sep, p, s, a)
    ensures Inv(Do(sep, p, s, a))
  {
    var id := s.sweep.cursor.id;
    RankThree(s.ledger, id);
    TransitionLevels(s.ledger, id, Deleted, UsageKey.UnixSeconds(s.sweep.now));
    RecordCounts(sep, p, s, a);
  }

  lemma StepKeepsInvariant(sep: char, p: Policy, s: System, a: Action)
    requires Inv(s) && Can(sep, p, s, a)
    ensures Inv(Do(sep, p, s, a))
  {
    match a
    case Webhook(_, _, _) => WebhookKeeps(sep, p, s, a);
    case Begin(_) => BeginKeeps(sep, p, s, a);
    case Mark(_) => MarkKeeps(sep, p, s, a);
    case Answer(_) => RankThree(s.ledger, s.sweep.cursor.id);
    case Record => RecordKeeps(sep, p, s, a);
    case Finish =>
  }

  // ---- Runs --------------------------------------------------------------------------

  ghost predicate IsRun(sep: char, p: Policy, states: seq<System>, actions: seq<Action>) {
    && |states| == |actions| + 1
    && states[0] == START
    && forall i :: 0 <= i < |actions| ==>
         Can(sep, p, states[i], actions[i]) && states[i+1] == Do(sep, p, states[i], actions[i])
  }

  lemma {:induction false} RunKeepsInvariant(sep: char, p: Policy, states: seq<System>, actions: seq<Action>, i: nat)
    requires IsRun(sep, p, states, actions) && i < |states|
    ensures Inv(states[i])
  {
    if i == 0 {
      assert AtLeast(START.ledger, 2) == {} && AtLeast(START.ledger, 3) == {};
    } else {
      RunKeepsInvariant(sep, p, states, actions, i - 1);
      StepKeepsInvariant(sep, p, states[i-1], actions[i-1]);
    }
  }

  /** No entry is ever forgotten and no entry ever walks backwards. */
  ghost predicate Advances(before: Ledger, after: Ledger) {
    forall id :: id in before ==>
      && id in after
      && Rank(before[id].state) <= Rank(after[id].state)
      && (before[id].state == Deleted ==> after[id].state == Deleted)
  }

  lemma UpsertAdvances(l: Ledger, in_: Recording)
    ensures Advances(l, Upserted(l, in_))
  {}

  lemma TransitionAdvances(l: Ledger, id: string, state: State, at: int)
    requires id in l && Rank(l[id].state) <= Rank(state) && (state == Expired || state == Deleted)
    requires l[id].state == Deleted ==> state == Deleted
    ensures Advances(l, WithState(l, id, state, at))
  {}

  lemma StepAdvances(sep: char, p: Policy, s: System, a: Action)
    requires Inv(s) && Can(sep, p, s, a)
    ensures Advances(s.ledger, Do(sep, p, s, a).ledger)
  {
    match a
    case Webhook(e, _, at) => UpsertAdvances(s.ledger, LifecycleRecord(e, at));
    case Mark(id) =>
      RankThree(s.ledger, id);
      TransitionAdvances(s.ledger, id, Expired, UsageKey.UnixSeconds(s.sweep.now));
    case Record =>
      TransitionAdvances(s.ledger, s.sweep.cursor.id, Deleted, UsageKey.UnixSeconds(s.sweep.now));
    case _ =>
  }

  lemma RunAdvances(sep: char, p: Policy, states: seq<System>, actions: seq<Action>, i: nat)
    requires IsRun(sep, p, states, actions) && i < |actions|
    ensures Advances(states[i].ledger, states[i+1].ledger)
  {
    RunKeepsInvariant(sep, p, states, actions, i);
    StepAdvances(sep, p, states[i], actions[i]);
  }

  lemma AdvancesChain(a: Ledger, b: Ledger, c: Ledger)
    requires Advances(a, b) && Advances(b, c)
    ensures Advances(a, c)
  {}

  lemma {:induction false} AdvancesAlong(ledgers: seq<Ledger>, i: nat, j: nat)
    requires i <= j < |ledgers| && forall k :: 0 <= k < |ledgers| - 1 ==> Advances(ledgers[k], ledgers[k+1])
    ensures Advances(ledgers[i], ledgers[j])
    decreases j
  {
    if i < j {
      AdvancesAlong(ledgers, i, j - 1);
      assert Advances(ledgers[j-1], ledgers[j-1+1]);
      AdvancesChain(ledgers[i], ledgers[j-1], ledgers[j]);
    }
  }

  /** Every run of one sweeper and any webhooks: ranks never fall and Deleted is final. */
  lemma LedgerNeverRegresses(sep: char, p: Policy, states: seq<System>, actions: seq<Action>, i: nat, j: nat)
    requires IsRun(sep, p, states, actions) && i <= j < |states|
    ensures Advances(states[i].ledger, states[j].ledger)
  {
    var ledgers := seq(|states|, k requires 0 <= k < |states| => states[k].ledger);
    forall k | 0 <= k < |ledgers| - 1 ensures Advances(ledgers[k], ledgers[k+1]) {
      RunAdvances(sep, p, states, actions, k);
    }
    AdvancesAlong(ledgers, i, j);
  }

  /** Every run: a blob delete is answered only for an entry whose capture has ended, and an
      entry is Deleted only after some delete of its blob returned nil. */
  lemma {:induction false} DeletesAreJustified(sep: char, p: Policy, states: seq<System>, actions: seq<Action>, i: nat)
    requires IsRun(sep, p, states, actions) && i < |states|
    ensures i < |actions| && actions[i].Answer? ==>
              var id := states[i].sweep.cursor.id;
              id in states[i].ledger && states[i].ledger[id].state == Expired && states[i].ledger[id].endedAt > 0
    ensures forall id :: id in states[i].ledger && states[i].ledger[id].state == Deleted ==>
              exists k :: 0 <= k < i && actions[k] == Answer(true) && states[k].sweep.cursor == Marked(id)
  {
    RunKeepsInvariant(sep, p, states, actions, i);
    forall id | id in states[i].ledger && states[i].ledger[id].state == Deleted
      ensures exists k :: 0 <= k < i && actions[k] == Answer(true) && states[k].sweep.cursor == Marked(id)
    {
      RankThree(states[i].ledger, id);
      ConfirmedWasAnswered(sep, p, states, actions, i, id);
    }
  }

  lemma {:induction false} ConfirmedWasAnswered(
    sep: char, p: Policy, states: seq<System>, actions: seq<Action>, i: nat, id: string)
    requires IsRun(sep, p, states, actions) && i < |states| && id in states[i].confirmed
    ensures exists k :: 0 <= k < i && actions[k] == Answer(true) && states[k].sweep.cursor == Marked(id)
  {
    if i > 0 {
      if id in states[i-1].confirmed {
        ConfirmedWasAnswered(sep, p, states, actions, i - 1, id);
      } else {
        assert actions[i-1] == Answer(true) && states[i-1].sweep.cursor == Marked(id);
      }
    }
  }

  /** Step k records the nil answer for the id: its entry becomes Deleted, and the size it had in
      the sweep's snapshot is added to the bytes freed. */
  ghost predicate Records(states: seq<System>, actions: seq<Action>, k: nat, id: string)
    requires k < |actions| && |states| == |actions| + 1
  {
    actions[k].Record? && states[k].sweep.Busy? && states[k].sweep.cursor == Confirmed(id)
    && id in states[k].sweep.snapshot
  }

  lemma {:induction false} FreedWasRecorded(
    sep: char, p: Policy, states: seq<System>, actions: seq<Action>, i: nat, id: string) returns (k: nat)
    requires IsRun(sep, p, states, actions) && i < |states| && id in states[i].freed
    ensures k < i && Records(states, actions, k, id)
    ensures states[i].freed[id] == states[k].sweep.snapshot[id].sizeBytes
  {
    assert i > 0 && Can(sep, p, states[i-1], actions[i-1]);
    if Records(states, actions, i - 1, id) {
      k := i - 1;
    } else {
      k := FreedWasRecorded(sep, p, states, actions, i - 1, id);
    }
  }

  /** Every Deleted entry was recorded by one step of the run and no other; what it added to the
      bytes freed is the size it had in the snapshot of that sweep. */
  lemma FreedOnce(sep: char, p: Policy, states: seq<System>, actions: seq<Action>, i: nat, id: string) returns (k: nat)
    requires IsRun(sep, p, states, actions) && i < |states|
    requires id in states[i].ledger && states[i].ledger[id].state == Deleted
    ensures k < i && Records(states, actions, k, id)
    ensures id in states[i].freed && states[i].freed[id] == states[k].sweep.snapshot[id].sizeBytes
    ensures forall m :: 0 <= m < i && Records(states, actions, m, id) ==> m == k
  {
    RunKeepsInvariant(sep, p, states, actions, i);
    RankThree(states[i].ledger, id);
    k := FreedWasRecorded(sep, p, states, actions, i, id);
    forall m | 0 <= m < i && Records(states, actions, m, id) ensures m == k {
      if m < k { RecordedOnlyOnce(sep, p, states, actions, m, k, id); }
      if k < m { RecordedOnlyOnce(sep, p, states, actions, k, m, id); }
    }
  }

  lemma RecordedOnlyOnce(sep: char, p: Policy, states: seq<System>, actions: seq<Action>, a: nat, b: nat, id: string)
    requires IsRun(sep, p, states, actions) && a < b < |actions|
    requires Records(states, actions, a, id)
    ensures !Records(states, actions, b, id)
  {
    assert Can(sep, p, states[a], actions[a]);
    RunKeepsInvariant(sep, p, states, actions, b);
    LedgerNeverRegresses(sep, p, states, actions, a + 1, b);
  }

  /** At every sweep boundary the counters read off the ledger: deletes counted are the Deleted
      entries, expiries counted the Expired or Deleted ones, and every Deleted entry has added
      its bytes exactly once. */
  lemma CountersMatchLedger(sep: char, p: Policy, states: seq<System>, actions: seq<Action>, i: nat)
    requires IsRun(sep, p, states, actions) && i < |states| && states[i].sweep.Idle?
    ensures var s := states[i];
            && s.counters.deletedTotal == |set id | id in s.ledger && s.ledger[id].state == Deleted|
            && s.counters.expiredTotal
               == |set id | id in s.ledger && (s.ledger[id].state == Expired || s.ledger[id].state == Deleted)|
            && s.freed.Keys == (set id | id in s.ledger && s.ledger[id].state == Deleted)
            && s.counters.bytesFreed == MapSum.Sum(s.freed)
  {
    RunKeepsInvariant(sep, p, states, actions, i);
    var l := states[i].ledger;
    assert (set id | id in l && l[id].state == Deleted) == AtLeast(l, 3);
    assert (set id | id in l && (l[id].state == Expired || l[id].state == Deleted)) == AtLeast(l, 2);
  }

  /** Every reachable ledger meets the assumptions of the retry guarantee. */
  lemma ReachableLedgersAreWellFormed(sep: char, p: Policy, states: seq<System>, actions: seq<Action>, i: nat)
    requires IsRun(sep, p, states, actions) && i < |states|
    ensures RetentionRetry.WellFormed(states[i].ledger)
  {
    RunKeepsInvariant(sep, p, states, actions, i);
  }
}
