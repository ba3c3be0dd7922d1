/** Two sweeps of one run, one after the other, and webhooks anywhere: when a failed delete is
    certain to be tried again. */
module RetentionRounds {
  import opened RecordingLedger
  import opened RetentionPolicy
  import opened RetentionCaps
  import opened RetentionSweep
  import opened RetentionProtocol
  import opened RetentionQuiet
  import Ordering
  import RetentionRetry
  import TenantGate
  import UsageKey

  /** An event that ends the capture: its record carries an end time. */
  predicate Finishing(e: EgressEvent) {
    StatusIsComplete(e.status) || StatusIsFailed(e.status) || e.event == "egress_ended"
  }

  /** The webhooks of one egress are stamped in order, and name the same tenant and room. */
  ghost predicate Orderly(actions: seq<Action>) {
    forall a, b :: 0 <= a < b < |actions| && SameEgress(actions[a], actions[b]) ==>
      && actions[a].receivedAt <= actions[b].receivedAt
      && actions[a].e.tenant == actions[b].e.tenant && actions[a].e.room == actions[b].e.room
  }

  predicate SameEgress(a: Action, b: Action) {
    a.Webhook? && b.Webhook? && a.e.egressId == b.e.egressId
  }

  /** Steps i and j begin two sweeps, the second the next after the first. */
  ghost predicate NextSweep(sep: char, p: Policy, states: seq<System>, actions: seq<Action>, i: nat, j: nat) {
    && IsRun(sep, p, states, actions) && i < j < |actions| && actions[i].Begin? && actions[j].Begin?
    && (forall k :: i < k < j ==> !actions[k].Begin?)
  }

  /** The first of the two sweeps selects the entry, and does not get it deleted. */
  ghost predicate FailedDelete(
    sep: char, p: Policy, states: seq<System>, actions: seq<Action>, i: nat, j: nat, id: string)
  {
    && NextSweep(sep, p, states, actions, i, j)
    && id in SelectedIds(p, states[i].ledger.Values, actions[i].clock)
    && id in states[j].ledger && states[j].ledger[id].state != Deleted
  }

  /** Between the two, some webhook reports the end of that same capture once more. */
  ghost predicate Refinished(actions: seq<Action>, i: nat, j: nat, id: string)
    requires j <= |actions|
  {
    exists k :: i < k < j && actions[k].Webhook? && actions[k].e.egressId == id && Finishing(actions[k].e)
  }

  /** A failed delete, and nothing in between that makes its recording look new. */
  ghost predicate MustTryAgain(
    sep: char, p: Policy, states: seq<System>, actions: seq<Action>, i: nat, j: nat, id: string)
  {
    FailedDelete(sep, p, states, actions, i, j, id) && Orderly(actions) && !Refinished(actions, i, j, id)
  }

  ghost predicate TriedAgain(
    sep: char, p: Policy, states: seq<System>, actions: seq<Action>, i: nat, j: nat, id: string)
  {
    MustTryAgain(sep, p, states, actions, i, j, id) && actions[i].clock <= actions[j].clock ==>
      id in SelectedIds(p, states[j].ledger.Values, actions[j].clock)
  }

  ghost predicate TriedAgainAnyClock(
    sep: char, p: Policy, states: seq<System>, actions: seq<Action>, i: nat, j: nat, id: string)
  {
    MustTryAgain(sep, p, states, actions, i, j, id) ==> id in SelectedIds(p, states[j].ledger.Values, actions[j].clock)
  }

  /** Whatever webhooks come, unless they report the same end again, failed deletes are retried at
      any later clock. */
  ghost predicate RunsRetry(sep: char, p: Policy) {
    forall states, actions, i, j, id :: TriedAgain(sep, p, states, actions, i, j, id)
  }

  ghost predicate RunsRetryAnyClock(sep: char, p: Policy) {
    forall states, actions, i, j, id :: TriedAgainAnyClock(sep, p, states, actions, i, j, id)
  }

  // ---- Where ledger fields come from -------------------------------------------------------

  /** What a step that is not this egress's webhook leaves of an entry. */
  ghost predicate SameFacts(before: Recording, after: Recording) {
    before.tenant == after.tenant && before.room == after.room && before.endedAt == after.endedAt
  }

  ghost predicate IsWebhookOf(a: Action, x: string) {
    a.Webhook? && a.e.egressId == x
  }

  lemma TransitionKeepsFacts(l: Ledger, id: string, state: State, at: int, x: string)
    requires id in l && x in WithState(l, id, state, at)
    ensures x in l && SameFacts(l[x], WithState(l, id, state, at)[x])
  {}

  lemma StepKeepsFacts(sep: char, p: Policy, s: System, a: Action, x: string)
    requires Can(sep, p, s, a) && !IsWebhookOf(a, x) && x in Do(sep, p, s, a).ledger
    ensures x in s.ledger && SameFacts(s.ledger[x], Do(sep, p, s, a).ledger[x])
  {
    match a
    case Mark(id) =>
      if s.sweep.snapshot[id].state != Expired {
        TransitionKeepsFacts(s.ledger, id, Expired, UsageKey.UnixSeconds(s.sweep.now), x);
      }
    case Record => TransitionKeepsFacts(s.ledger, s.sweep.cursor.id, Deleted, UsageKey.UnixSeconds(s.sweep.now), x);
    case _ =>
  }

  /** Only the sweeper deletes, and only what it has at hand. */
  lemma OnlyRecordDeletes(sep: char, p: Policy, s: System, a: Action, x: string)
    requires Can(sep, p, s, a) && x in s.ledger && s.ledger[x].state != Deleted
    requires x in Do(sep, p, s, a).ledger && Do(sep, p, s, a).ledger[x].state == Deleted
    ensures a.Record? && s.sweep.cursor.id == x
  {}

  lemma WebhookFacts(sep: char, p: Policy, s: System, a: Action, x: string)
    requires Can(sep, p, s, a) && IsWebhookOf(a, x) && x != ""
    ensures var l := Do(sep, p, s, a).ledger;
            && x in l && l[x].tenant == a.e.tenant && l[x].room == a.e.room
            && l[x].endedAt == if Finishing(a.e) then a.receivedAt
                               else if x in s.ledger then s.ledger[x].endedAt else 0
  {
    TenantGate.GateAdmits(sep, a.fullRoom);
  }

  lemma {:induction false} NamedByWebhook(
    sep: char, p: Policy, states: seq<System>, actions: seq<Action>, k: nat, x: string) returns (m: nat)
    requires IsRun(sep, p, states, actions) && k < |states| && x in states[k].ledger
    ensures m < k && IsWebhookOf(actions[m], x)
    ensures states[k].ledger[x].tenant == actions[m].e.tenant && states[k].ledger[x].room == actions[m].e.room
  {
    RunKeepsInvariant(sep, p, states, actions, k);
    m := k - 1;
    RunKeepsInvariant(sep, p, states, actions, m);
    if IsWebhookOf(actions[m], x) {
      WebhookFacts(sep, p, states[m], actions[m], x);
    } else {
      StepKeepsFacts(sep, p, states[m], actions[m], x);
      m := NamedByWebhook(sep, p, states, actions, k - 1, x);
    }
  }

  lemma EndIsOlder(sep: char, p: Policy, s: System, a: Action, x: string)
    requires Can(sep, p, s, a) && !(IsWebhookOf(a, x) && Finishing(a.e)) && x != ""
    requires x in Do(sep, p, s, a).ledger && Do(sep, p, s, a).ledger[x].endedAt > 0
    ensures x in s.ledger && s.ledger[x].endedAt == Do(sep, p, s, a).ledger[x].endedAt
  {
    if IsWebhookOf(a, x) { WebhookFacts(sep, p, s, a, x); } else { StepKeepsFacts(sep, p, s, a, x); }
  }

  /** The end of an entry is that of the last webhook, or was there before. */
  lemma EndAtStep(sep: char, p: Policy, states: seq<System>, actions: seq<Action>, k: nat, x: string)
    requires IsRun(sep, p, states, actions) && k < |actions| && x in states[k+1].ledger
    requires states[k+1].ledger[x].endedAt > 0
    ensures || (IsWebhookOf(actions[k], x) && actions[k].receivedAt == states[k+1].ledger[x].endedAt)
            || (x in states[k].ledger && states[k].ledger[x].endedAt == states[k+1].ledger[x].endedAt)
  {
    RunKeepsInvariant(sep, p, states, actions, k + 1);
    if IsWebhookOf(actions[k], x) && Finishing(actions[k].e) {
      WebhookFacts(sep, p, states[k], actions[k], x);
    } else {
      EndIsOlder(sep, p, states[k], actions[k], x);
    }
  }

  /** Where the end of an entry at step k + 1 may come from. */
  ghost predicate EndTraced(before: Ledger, a: Action, after: Ledger, x: string) {
    x in after && after[x].endedAt > 0 ==>
      || (IsWebhookOf(a, x) && a.receivedAt == after[x].endedAt)
      || (x in before && before[x].endedAt == after[x].endedAt)
  }

  lemma {:induction false} EndAlong(ledgers: seq<Ledger>, actions: seq<Action>, k: nat, x: string) returns (m: nat)
    requires |ledgers| == |actions| + 1 && k < |ledgers| && x !in ledgers[0]
    requires forall i :: 0 <= i < |actions| ==> EndTraced(ledgers[i], actions[i], ledgers[i+1], x)
    requires x in ledgers[k] && ledgers[k][x].endedAt > 0
    ensures m < k && IsWebhookOf(actions[m], x) && actions[m].receivedAt == ledgers[k][x].endedAt
  {
    m := k - 1;
    assert EndTraced(ledgers[m], actions[m], ledgers[m+1], x);
    if !(IsWebhookOf(actions[m], x) && actions[m].receivedAt == ledgers[k][x].endedAt) {
      m := EndAlong(ledgers, actions, k - 1, x);
    }
  }

  lemma EndedByWebhook(
    sep: char, p: Policy, states: seq<System>, actions: seq<Action>, k: nat, x: string) returns (m: nat)
    requires IsRun(sep, p, states, actions) && k < |states| && x in states[k].ledger && states[k].ledger[x].endedAt > 0
    ensures m < k && IsWebhookOf(actions[m], x) && actions[m].receivedAt == states[k].ledger[x].endedAt
  {
    var ledgers := seq(|states|, i requires 0 <= i < |states| => states[i].ledger);
    forall i | 0 <= i < |actions| ensures EndTraced(ledgers[i], actions[i], ledgers[i+1], x) {
      if x in states[i+1].ledger && states[i+1].ledger[x].endedAt > 0 { EndAtStep(sep, p, states, actions, i, x); }
    }
    m := EndAlong(ledgers, actions, k, x);
  }

  /** An orderly webhook for a known egress names what the ledger has, and is not stamped before
      the end the ledger has. */
  lemma OrderlyWebhook(sep: char, p: Policy, states: seq<System>, actions: seq<Action>, k: nat)
    requires IsRun(sep, p, states, actions) && Orderly(actions) && k < |actions|
    requires actions[k].Webhook? && actions[k].e.egressId in states[k].ledger
    ensures var r := states[k].ledger[actions[k].e.egressId];
            r.tenant == actions[k].e.tenant && r.room == actions[k].e.room && r.endedAt <= actions[k].receivedAt
  {
    var x := actions[k].e.egressId;
    var m := NamedByWebhook(sep, p, states, actions, k, x);
    assert Can(sep, p, states[k], actions[k]);
    if states[k].ledger[x].endedAt > 0 {
      var n := EndedByWebhook(sep, p, states, actions, k, x);
    }
  }

  // ---- What lies between two sweeps ----------------------------------------------------------

  /** What is left of an entry the first sweep listed; `selected` if it selected it. */
  ghost predicate Kept(before: Recording, after: Recording, selected: bool) {
    && before.tenant == after.tenant && before.room == after.room && before.endedAt <= after.endedAt
    && (Eligible(before) ==> Rank(after.state) >= 1 && (!selected ==> after.state != Deleted))
  }

  /** The sweep, while it lasts, works from the ledger l and only on the selected ids. */
  ghost predicate WorksOn(w: Sweep, l: Ledger, selected: set<string>) {
    w.Busy? ==> w.snapshot == l && w.todo <= selected && (!w.cursor.Between? ==> w.cursor.id in selected)
  }

  ghost predicate KeptSince(l: Ledger, selected: set<string>, id: string, s: System) {
    && WorksOn(s.sweep, l, selected)
    && (forall x :: x in l ==> x in s.ledger && Kept(l[x], s.ledger[x], x in selected))
    && (id in l ==> s.ledger[id].endedAt == l[id].endedAt)
  }

  lemma StillWorksOn(sep: char, p: Policy, s: System, a: Action, l: Ledger, selected: set<string>)
    requires Can(sep, p, s, a) && !a.Begin? && WorksOn(s.sweep, l, selected)
    ensures WorksOn(Do(sep, p, s, a).sweep, l, selected)
  {}

  /** One step moves one entry at most, and keeps what matters of it. */
  lemma StepKeepsEntry(sep: char, p: Policy, s: System, a: Action, l: Ledger, selected: set<string>, x: string)
    requires Inv(s) && Can(sep, p, s, a) && x in s.ledger && WorksOn(s.sweep, l, selected)
    requires IsWebhookOf(a, x) ==>
               s.ledger[x].tenant == a.e.tenant && s.ledger[x].room == a.e.room && s.ledger[x].endedAt <= a.receivedAt
    ensures x in Do(sep, p, s, a).ledger
    ensures var before, after := s.ledger[x], Do(sep, p, s, a).ledger[x];
            && before.tenant == after.tenant && before.room == after.room && before.endedAt <= after.endedAt
            && Rank(before.state) <= Rank(after.state)
            && (before.state != Deleted && after.state == Deleted ==> x in selected)
            && (!(IsWebhookOf(a, x) && Finishing(a.e)) ==> after.endedAt == before.endedAt)
  {
    StepAdvances(sep, p, s, a);
    if IsWebhookOf(a, x) { WebhookFacts(sep, p, s, a, x); } else { StepKeepsFacts(sep, p, s, a, x); }
    if s.ledger[x].state != Deleted && Do(sep, p, s, a).ledger[x].state == Deleted {
      OnlyRecordDeletes(sep, p, s, a, x);
    }
  }

  lemma KeptStep(sep: char, p: Policy, states: seq<System>, actions: seq<Action>, k: nat,
                 l: Ledger, selected: set<string>, id: string)
    requires IsRun(sep, p, states, actions) && Orderly(actions) && k < |actions|
    requires !actions[k].Begin? && KeptSince(l, selected, id, states[k])
    requires !(IsWebhookOf(actions[k], id) && Finishing(actions[k].e))
    ensures KeptSince(l, selected, id, states[k+1])
  {
    var s, a := states[k], actions[k];
    RunKeepsInvariant(sep, p, states, actions, k);
    StillWorksOn(sep, p, s, a, l, selected);
    if a.Webhook? && a.e.egressId in s.ledger { OrderlyWebhook(sep, p, states, actions, k); }
    forall x | x in l
      ensures x in states[k+1].ledger && Kept(l[x], states[k+1].ledger[x], x in selected)
      ensures x == id ==> states[k+1].ledger[x].endedAt == s.ledger[x].endedAt
    {
      StepKeepsEntry(sep, p, s, a, l, selected, x);
    }
  }

  lemma {:induction false} KeptAlong(states: seq<System>, l: Ledger, selected: set<string>, id: string, i: nat, k: nat)
    requires i <= k < |states| && KeptSince(l, selected, id, states[i])
    requires forall m :: i <= m < k && KeptSince(l, selected, id, states[m]) ==> KeptSince(l, selected, id, states[m+1])
    ensures KeptSince(l, selected, id, states[k])
  {
    if i < k {
      KeptAlong(states, l, selected, id, i, k - 1);
      assert KeptSince(l, selected, id, states[k-1+1]);
    }
  }

  lemma KeptFromTheStart(sep: char, p: Policy, s: System, a: Action, id: string)
    requires Inv(s) && Can(sep, p, s, a) && a.Begin?
    ensures KeptSince(s.ledger, SelectedIds(p, s.ledger.Values, a.clock), id, Do(sep, p, s, a))
  {}

  /** Up to the next sweep, everything the retry needs is carried over. */
  lemma NextSweepCarries(
    sep: char, p: Policy, states: seq<System>, actions: seq<Action>, i: nat, j: nat, id: string)
    requires MustTryAgain(sep, p, states, actions, i, j, id)
    ensures RetentionRetry.Carried(states[i].ledger, states[j].ledger,
                                   SelectedIds(p, states[i].ledger.Values, actions[i].clock), id)
  {
    var l, selected := states[i].ledger, SelectedIds(p, states[i].ledger.Values, actions[i].clock);
    RunKeepsInvariant(sep, p, states, actions, i);
    RunKeepsInvariant(sep, p, states, actions, j);
    LedgerIds(p, l, actions[i].clock);
    SelectedMeans(p, l, actions[i].clock, id);
    KeptFromTheStart(sep, p, states[i], actions[i], id);
    forall m | i < m < j && KeptSince(l, selected, id, states[m]) ensures KeptSince(l, selected, id, states[m+1]) {
      KeptStep(sep, p, states, actions, m, l, selected, id);
    }
    KeptAlong(states, l, selected, id, i + 1, j);
    KeptIsCarried(l, selected, id, states[j]);
  }

  lemma KeptIsCarried(l: Ledger, selected: set<string>, id: string, s: System)
    requires LedgerInv(l) && LedgerInv(s.ledger) && KeptSince(l, selected, id, s)
    requires id in l && Eligible(l[id]) && s.ledger[id].state != Deleted
    ensures RetentionRetry.Carried(l, s.ledger, selected, id)
  {}

  lemma UncrossedCapsTryAgain(
    sep: char, p: Policy, states: seq<System>, actions: seq<Action>, i: nat, j: nat, id: string)
    requires !CapsCross(p)
    ensures TriedAgain(sep, p, states, actions, i, j, id)
    ensures p.ttl <= 0 ==> TriedAgainAnyClock(sep, p, states, actions, i, j, id)
  {
    if MustTryAgain(sep, p, states, actions, i, j, id) && (actions[i].clock <= actions[j].clock || p.ttl <= 0) {
      ReachableLedgersAreWellFormed(sep, p, states, actions, i);
      NextSweepCarries(sep, p, states, actions, i, j, id);
      RetentionRetry.SelectedAgain(p, states[i].ledger, states[j].ledger, actions[i].clock, actions[j].clock, id);
    }
  }

  // ---- Runs that forget ----------------------------------------------------------------------

  /** A tenant the gate accepts, and the room of its first recording. */
  function SiteAt(sep: char, first: string): Site {
    Site(if sep == 't' then "u" else "t", first)
  }

  /** The capture of entry i ends. */
  function EndOf(site: Site, i: nat): EgressEvent {
    EgressEvent("egress_ended", "", Tag(i), site.tenant, if i == 1 then site.first else BUSY, 0, 0)
  }

  function EndHook(sep: char, site: Site, i: nat, at: int): Action {
    Webhook(EndOf(site, i), site.tenant + [sep] + EndOf(site, i).room, at)
  }

  lemma EndHookCan(sep: char, p: Policy, s: System, first: string, i: nat, at: int)
    requires first != "" && at > 0
    ensures Can(sep, p, s, EndHook(sep, SiteAt(sep, first), i, at))
  {
    var site := SiteAt(sep, first);
    TenantGate.SplitFindsTheParts(sep, site.tenant, EndOf(site, i).room);
  }

  lemma BandGrows(site: Site, n: nat)
    ensures Upserted(RetentionRetry.BandLedger(site, n), LifecycleRecord(EndOf(site, n + 1), MOMENT))
         == RetentionRetry.BandLedger(site, n + 1)
  {
    var l, more := RetentionRetry.BandLedger(site, n), RetentionRetry.BandLedger(site, n + 1);
    assert |Tag(n + 1)| == n + 1;
    assert LifecycleRecord(EndOf(site, n + 1), MOMENT) == Entry(site, n + 1);
    assert Tag(n + 1) !in l by {
      assert forall i: nat :: i <= n ==> |Tag(i)| == i;
    }
    assert more.Keys == l.Keys + {Tag(n + 1)};
  }

  /** The first webhooks of a run fill the ledger with a band. */
  ghost predicate Fills(sep: char, site: Site, actions: seq<Action>, n: nat) {
    n <= |actions| && forall k :: 0 <= k < n ==> actions[k] == EndHook(sep, site, k + 1, MOMENT)
  }

  lemma {:induction false} Fill(sep: char, p: Policy, first: string, n: nat)
    returns (states: seq<System>, actions: seq<Action>)
    requires first != ""
    ensures IsRun(sep, p, states, actions) && |actions| == n && Fills(sep, SiteAt(sep, first), actions, n)
    ensures Last(states).ledger == RetentionRetry.BandLedger(SiteAt(sep, first), n) && Last(states).sweep.Idle?
  {
    var site := SiteAt(sep, first);
    if n == 0 {
      states, actions := [START], [];
      assert RetentionRetry.BandLedger(site, 0) == map[];
    } else {
      states, actions := Fill(sep, p, first, n - 1);
      EndHookCan(sep, p, Last(states), first, n, MOMENT);
      BandGrows(site, n - 1);
      states, actions := OneMoreStep(sep, p, states, actions, EndHook(sep, site, n, MOMENT));
    }
  }

  /** A band, and one more webhook for the first entry at most. */
  lemma BandIsOrderly(sep: char, site: Site, actions: seq<Action>, n: nat, at: int)
    requires Fills(sep, site, actions, n) && at >= MOMENT
    requires forall k :: n <= k < |actions| && actions[k].Webhook? ==> actions[k] == EndHook(sep, site, 1, at)
    ensures Orderly(actions)
  {
    assert forall k :: 0 <= k < n ==> |actions[k].e.egressId| == k + 1;
    forall a, b | 0 <= a < b < |actions| && SameEgress(actions[a], actions[b])
      ensures actions[a].receivedAt <= actions[b].receivedAt && actions[a].e == actions[b].e
    {}
  }

  /** A run of webhooks for a band, and one sweep that begins at step n. */
  ghost predicate BandSwept(sep: char, p: Policy, states: seq<System>, actions: seq<Action>,
                            site: Site, n: nat, now: int, confirmed: set<string>)
  {
    && IsRun(sep, p, states, actions) && n < |actions| && actions[n] == Begin(now)
    && (forall k :: n < k < |actions| ==> !actions[k].Begin? && !actions[k].Webhook?)
    && Fills(sep, site, actions, n)
    && states[n].ledger == RetentionRetry.BandLedger(site, n)
    && Last(states).sweep.Idle?
    && Last(states).ledger == RetentionRetry.AfterSweep(p, RetentionRetry.BandLedger(site, n), now, confirmed)
  }

  lemma SweepTheBand(sep: char, p: Policy, first: string, n: nat, now: int, confirmed: set<string>)
    returns (states: seq<System>, actions: seq<Action>)
    requires first != "" && p.Enabled()
    ensures BandSwept(sep, p, states, actions, SiteAt(sep, first), n, now, confirmed)
  {
    var filled, hooks := Fill(sep, p, first, n);
    states, actions := SweepIsARun(sep, p, filled, hooks, now, confirmed);
    assert states[n] == filled[n];
    assert forall k :: 0 <= k < n ==> actions[k] == hooks[k];
  }

  /** The next sweep begins. */
  lemma BeginNext(sep: char, p: Policy, states: seq<System>, actions: seq<Action>, i: nat, later: int)
    returns (states': seq<System>, actions': seq<Action>)
    requires IsRun(sep, p, states, actions) && i < |actions| && actions[i].Begin?
    requires forall k :: i < k < |actions| ==> !actions[k].Begin?
    requires Last(states).sweep.Idle? && p.Enabled()
    ensures NextSweep(sep, p, states', actions', i, |actions|)
    ensures actions' == actions + [Begin(later)] && states <= states' && states'[|actions|] == Last(states)
  {
    states', actions' := OneMoreStep(sep, p, states, actions, Begin(later));
    assert states'[|states|-1] == states[|states|-1];
  }

  /** Two sweeps of a band, nothing but steps of the first in between. */
  lemma SweepTheBandTwice(sep: char, p: Policy, first: string, n: nat, now: int, confirmed: set<string>, later: int)
    returns (states: seq<System>, actions: seq<Action>, j: nat)
    requires first != "" && p.Enabled()
    ensures NextSweep(sep, p, states, actions, n, j) && Orderly(actions)
    ensures forall k :: n < k < j ==> !actions[k].Webhook?
    ensures actions[n].clock == now && actions[j].clock == later
    ensures states[n].ledger == RetentionRetry.BandLedger(SiteAt(sep, first), n)
    ensures states[j].ledger == RetentionRetry.AfterSweep(p, states[n].ledger, now, confirmed)
  {
    var before, begun := SweepTheBand(sep, p, first, n, now, confirmed);
    j := |begun|;
    states, actions := BeginNext(sep, p, before, begun, n, later);
    assert states[n] == before[n];
    BandIsOrderly(sep, SiteAt(sep, first), actions, n, MOMENT);
  }

  /** The band of crossed caps, as a run: the failed delete is not tried again before the TTL, if
      there is one. */
  lemma CrossedCapsRun(sep: char, p: Policy, later: int)
    returns (states: seq<System>, actions: seq<Action>, i: nat, j: nat)
    requires CapsCross(p) && MOMENT_NANOS <= later
    ensures MustTryAgain(sep, p, states, actions, i, j, Tag(1))
    ensures actions[i].clock <= actions[j].clock == later
    ensures Tag(1) in SelectedIds(p, states[j].ledger.Values, later)
            <==> PastTtl(p, Entry(SiteAt(sep, QUIET), 1), later)
  {
    i := p.maxPerTenant + 1;
    RetentionRetry.CrossedCapsForget(p, SiteAt(sep, QUIET), i, later);
    var confirmed := RetentionRetry.BandLedger(SiteAt(sep, QUIET), i).Keys - {Tag(1)};
    states, actions, j := SweepTheBandTwice(sep, p, QUIET, i, MOMENT_NANOS, confirmed, later);
  }

  /** One recording, a TTL, and a second sweep whose clock shows an earlier moment. */
  lemma EarlierClockRun(sep: char, p: Policy)
    returns (states: seq<System>, actions: seq<Action>, i: nat, j: nat)
    requires p.ttl > 0
    ensures MustTryAgain(sep, p, states, actions, i, j, Tag(1))
    ensures forall k :: i < k < j ==> !actions[k].Webhook?
    ensures Tag(1) !in SelectedIds(p, states[j].ledger.Values, actions[j].clock)
  {
    var site, now := SiteAt(sep, QUIET), RetentionRetry.TtlPassed(p);
    RetentionRetry.AloneIsUpToTheClock(p, site, now, MOMENT_NANOS);
    NotYetPastTtl(p, Entry(site, 1));
    i := 1;
    states, actions, j := SweepTheBandTwice(sep, p, QUIET, i, now, {}, MOMENT_NANOS);
  }

  lemma CrossedCapsForgetInARun(sep: char, p: Policy)
    requires CapsCross(p)
    ensures !RunsRetry(sep, p) && !RunsRetryAnyClock(sep, p)
  {
    var states, actions, i, j := CrossedCapsRun(sep, p, MOMENT_NANOS);
    NotYetPastTtl(p, Entry(SiteAt(sep, QUIET), 1));
    assert !TriedAgain(sep, p, states, actions, i, j, Tag(1));
    assert !TriedAgainAnyClock(sep, p, states, actions, i, j, Tag(1));
  }

  /** Whatever webhooks come that do not report the same end again, failed deletes are retried in
      every run whose clock does not run backwards exactly when the caps do not cross. */
  lemma RunRetryTheorem(sep: char, p: Policy)
    ensures RunsRetry(sep, p) <==> !CapsCross(p)
  {
    if CapsCross(p) {
      CrossedCapsForgetInARun(sep, p);
    } else {
      forall states, actions, i, j, id ensures TriedAgain(sep, p, states, actions, i, j, id) {
        UncrossedCapsTryAgain(sep, p, states, actions, i, j, id);
      }
    }
  }

  /** And in every run at all exactly when there is no TTL either. */
  lemma AnyClockRunTheorem(sep: char, p: Policy)
    ensures RunsRetryAnyClock(sep, p) <==> !CapsCross(p) && p.ttl <= 0
  {
    if CapsCross(p) {
      CrossedCapsForgetInARun(sep, p);
    } else if p.ttl > 0 {
      var states, actions, i, j := EarlierClockRun(sep, p);
      assert !TriedAgainAnyClock(sep, p, states, actions, i, j, Tag(1));
    } else {
      forall states, actions, i, j, id ensures TriedAgainAnyClock(sep, p, states, actions, i, j, id) {
        UncrossedCapsTryAgain(sep, p, states, actions, i, j, id);
      }
    }
  }

  // ---- The same end, reported again ------------------------------------------------------------

  /** As many recordings as make the policy select the oldest, and when. */
  function Crowd(p: Policy): nat {
    if p.ttl > 0 then 1
    else if p.maxPerRoom > 0 then p.maxPerRoom + 1
    else if p.maxPerTenant > 0 then p.maxPerTenant + 1
    else 1
  }

  function SelectedFrom(p: Policy): int {
    MOMENT_NANOS + if p.ttl > 0 then p.ttl else 0
  }

  lemma OldestIsSelected(p: Policy, site: Site)
    requires p.Enabled() && site.first == BUSY && '\0' !in site.tenant
    ensures Tag(1) in SelectedIds(p, RetentionRetry.BandLedger(site, Crowd(p)).Values, SelectedFrom(p))
  {
    var l, n := RetentionRetry.BandLedger(site, Crowd(p)), Crowd(p);
    RetentionRetry.BandLedgerFacts(site, n);
    BandRivals(site, n, 1);
    BandSize(site, 1, n);
    if p.ttl > 0 { assert PastTtl(p, Entry(site, 1), SelectedFrom(p)); }
    RetentionRetry.SelectedWhen(p, l.Values, Entry(site, 1), SelectedFrom(p));
    SelectedMeans(p, l, SelectedFrom(p), Tag(1));
  }

  /** An entry stamped after all others, at the very second of the sweep, is not selected. */
  lemma NewestIsNotSelected(p: Policy, l: Ledger, id: string, at: int)
    requires Keyed(l) && id in l && l[id].endedAt == at > 0
    requires forall x :: x in l && x != id ==> l[x].RetainedFrom() < at
    ensures id !in SelectedIds(p, l.Values, at * UsageKey.NANOS_PER_SECOND)
  {
    Ordering.LessIrreflexive(id);
    forall s: Scope ensures Rivals(l.Values, s, l[id]) == {} {}
    SelectedMeans(p, l, at * UsageKey.NANOS_PER_SECOND, id);
  }

  lemma FailedSweepLeaves(p: Policy, site: Site, n: nat, now: int, x: string)
    requires '\0' !in site.tenant && x in RetentionRetry.BandLedger(site, n)
    ensures var after := RetentionRetry.AfterSweep(p, RetentionRetry.BandLedger(site, n), now, {});
            x in after && after[x].RetainedFrom() == MOMENT && after[x].state != Deleted
  {
    RetentionRetry.BandLedgerFacts(site, n);
    RetentionRetry.SweptEntries(p, RetentionRetry.BandLedger(site, n), now, {}, x);
  }

  /** Its end reported again, an entry of such a ledger is the newest. */
  lemma RestampedIsNotSelected(p: Policy, after: Ledger, site: Site, at: int)
    requires Keyed(after) && at > MOMENT && Tag(1) in after && after[Tag(1)].state != Deleted
    requires forall x :: x in after ==> after[x].RetainedFrom() == MOMENT
    ensures var l := Upserted(after, LifecycleRecord(EndOf(site, 1), at));
            && Tag(1) in l && l[Tag(1)].state != Deleted
            && Tag(1) !in SelectedIds(p, l.Values, at * UsageKey.NANOS_PER_SECOND)
  {
    assert |Tag(1)| == 1;
    NewestIsNotSelected(p, Upserted(after, LifecycleRecord(EndOf(site, 1), at)), Tag(1), at);
  }

  lemma HookWrites(sep: char, p: Policy, s: System, site: Site, at: int)
    requires Can(sep, p, s, EndHook(sep, site, 1, at))
    ensures var s' := Do(sep, p, s, EndHook(sep, site, 1, at));
            s'.sweep == s.sweep && s'.ledger == Upserted(s.ledger, LifecycleRecord(EndOf(site, 1), at))
  {}

  lemma HookAfterBand(sep: char, site: Site, begun: seq<Action>, n: nat, at: int)
    requires Fills(sep, site, begun, n) && n < |begun| && begun[n].Begin? && at > MOMENT
    requires forall k :: n < k < |begun| ==> !begun[k].Begin? && !begun[k].Webhook?
    ensures var actions := begun + [EndHook(sep, site, 1, at)];
            && Orderly(actions) && Refinished(actions, n, |actions|, Tag(1))
            && forall k :: n < k < |actions| ==> !actions[k].Begin?
  {
    var hook := EndHook(sep, site, 1, at);
    var actions := begun + [hook];
    BandIsOrderly(sep, site, actions, n, at);
    assert IsWebhookOf(actions[|begun|], Tag(1)) && Finishing(hook.e);
  }

  /** Such a run, and the first entry's end reported again. */
  lemma ReportAgain(sep: char, p: Policy, n: nat, now: int, at: int)
    returns (states: seq<System>, actions: seq<Action>)
    requires p.Enabled() && at > MOMENT
    ensures IsRun(sep, p, states, actions) && n < |actions| && actions[n] == Begin(now)
    ensures forall k :: n < k < |actions| ==> !actions[k].Begin?
    ensures Orderly(actions) && Refinished(actions, n, |actions|, Tag(1)) && Last(states).sweep.Idle?
    ensures var site, l := SiteAt(sep, BUSY), RetentionRetry.BandLedger(SiteAt(sep, BUSY), n);
            && states[n].ledger == l
            && Last(states).ledger
               == Upserted(RetentionRetry.AfterSweep(p, l, now, {}), LifecycleRecord(EndOf(site, 1), at))
  {
    var hook := EndHook(sep, SiteAt(sep, BUSY), 1, at);
    var swept, begun := SweepTheBand(sep, p, BUSY, n, now, {});
    EndHookCan(sep, p, Last(swept), BUSY, 1, at);
    HookWrites(sep, p, Last(swept), SiteAt(sep, BUSY), at);
    HookAfterBand(sep, SiteAt(sep, BUSY), begun, n, at);
    states, actions := OneMoreStep(sep, p, swept, begun, hook);
    assert states[n] == swept[n];
  }

  lemma BeginChangesNothing(actions: seq<Action>, n: nat, later: int)
    requires Orderly(actions) && Refinished(actions, n, |actions|, Tag(1))
    ensures Orderly(actions + [Begin(later)]) && Refinished(actions + [Begin(later)], n, |actions|, Tag(1))
  {
    var more := actions + [Begin(later)];
    var k :| n < k < |actions| && actions[k].Webhook? && actions[k].e.egressId == Tag(1) && Finishing(actions[k].e);
    assert more[k] == actions[k];
  }

  lemma RefinishedRun(sep: char, p: Policy, n: nat, now: int, at: int)
    returns (states: seq<System>, actions: seq<Action>, j: nat)
    requires p.Enabled() && at > MOMENT
    ensures NextSweep(sep, p, states, actions, n, j) && Orderly(actions) && Refinished(actions, n, j, Tag(1))
    ensures actions[n].clock == now && actions[j].clock == at * UsageKey.NANOS_PER_SECOND
    ensures var site, l := SiteAt(sep, BUSY), RetentionRetry.BandLedger(SiteAt(sep, BUSY), n);
            && states[n].ledger == l
            && states[j].ledger
               == Upserted(RetentionRetry.AfterSweep(p, l, now, {}), LifecycleRecord(EndOf(site, 1), at))
  {
    var again, reported := ReportAgain(sep, p, n, now, at);
    j := |reported|;
    states, actions := BeginNext(sep, p, again, reported, n, at * UsageKey.NANOS_PER_SECOND);
    assert states[n] == again[n];
    BeginChangesNothing(reported, n, at * UsageKey.NANOS_PER_SECOND);
  }

  /** For every policy that selects anything: the delete of a finished recording fails, its end is
      reported again, stamped anew, and the next sweep does not select it. */
  lemma RefinishingStopsTheRetry(sep: char, p: Policy)
    returns (states: seq<System>, actions: seq<Action>, i: nat, j: nat)
    requires p.Enabled()
    ensures FailedDelete(sep, p, states, actions, i, j, Tag(1)) && Orderly(actions) && Refinished(actions, i, j, Tag(1))
    ensures actions[i].clock <= actions[j].clock
    ensures Tag(1) !in SelectedIds(p, states[j].ledger.Values, actions[j].clock)
  {
    var site, now := SiteAt(sep, BUSY), SelectedFrom(p);
    i := Crowd(p);
    var l, at := RetentionRetry.BandLedger(site, i), UsageKey.UnixSeconds(now) + 1;
    var after := RetentionRetry.AfterSweep(p, l, now, {});
    OldestIsSelected(p, site);
    RetentionRetry.BandLedgerFacts(site, i);
    SweptKeyed(l, SelectedIds(p, l.Values, now), {}, UsageKey.UnixSeconds(now));
    forall x | x in l ensures after[x].RetainedFrom() == MOMENT && after[x].state != Deleted {
      FailedSweepLeaves(p, site, i, now, x);
    }
    RestampedIsNotSelected(p, after, site, at);
    states, actions, j := RefinishedRun(sep, p, i, now, at);
  }
}
