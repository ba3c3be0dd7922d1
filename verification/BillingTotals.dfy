/** What is billed, over whole runs: the control plane never books more than was reported, what it
    has not booked is accounted for, and what is reported is the area under the occupancy curves. */
module BillingTotals {
  import opened UsageMetering
  import opened UsageArea
  import opened UsageDelivery
  import opened BillingProtocol
  import MapSum

  /** The minutes of one account among some keys. */
  ghost function Minutes(events: map<string, UsageEvent>, keys: set<string>, account: string): int {
    MapSum.Sum(map k | k in events && k in keys && events[k].account == account :: events[k].count)
  }

  lemma MinutesSplit(events: map<string, UsageEvent>, a: set<string>, b: set<string>, account: string)
    requires a !! b
    ensures Minutes(events, a + b, account) == Minutes(events, a, account) + Minutes(events, b, account)
  {
    var ma := map k | k in events && k in a && events[k].account == account :: events[k].count;
    var mb := map k | k in events && k in b && events[k].account == account :: events[k].count;
    MapSum.Join(ma, mb);
    assert ma + mb == map k | k in events && k in a + b && events[k].account == account :: events[k].count;
  }

  lemma BookedAgree(booked: map<string, UsageEvent>, metered: map<string, UsageEvent>, account: string)
    requires forall k :: k in booked ==> k in metered && booked[k] == metered[k]
    ensures Minutes(booked, booked.Keys, account) == Minutes(metered, booked.Keys, account)
  {
    var x := map k | k in booked && k in booked.Keys && booked[k].account == account :: booked[k].count;
    var y := map k | k in metered && k in booked.Keys && metered[k].account == account :: metered[k].count;
    assert x.Keys == y.Keys;
    assert x == y;
  }

  lemma EveryKeyHasAPlace(c: Config, d: Delivery)
    requires PlaceInv(d) && QueueInv(c, d)
    ensures d.booked.Keys + (PendingKeys(d) - d.booked.Keys) + (d.lost - d.booked.Keys) == d.metered.Keys
  {}

  lemma DeliveryConserves(c: Config, d: Delivery, account: string)
    requires PlaceInv(d) && QueueInv(c, d)
    ensures Minutes(d.metered, d.metered.Keys, account)
            == Minutes(d.booked, d.booked.Keys, account)
             + Minutes(d.metered, PendingKeys(d) - d.booked.Keys, account)
             + Minutes(d.metered, d.lost - d.booked.Keys, account)
  {
    var b, p, l := d.booked.Keys, PendingKeys(d) - d.booked.Keys, d.lost - d.booked.Keys;
    MinutesSplit(d.metered, b, p, account);
    MinutesSplit(d.metered, b + p, l, account);
    EveryKeyHasAPlace(c, d);
    BookedAgree(d.booked, d.metered, account);
  }

  lemma NoKeysNoMinutes(events: map<string, UsageEvent>, keys: set<string>, account: string)
    requires keys == {}
    ensures Minutes(events, keys, account) == 0
  {}

  lemma OneMoreReport(events: map<string, UsageEvent>, ev: UsageEvent, account: string)
    requires ev.key !in events
    ensures Minutes(events[ev.key := ev], events[ev.key := ev].Keys, account)
         == Minutes(events, events.Keys, account) + if ev.account == account then ev.count else 0
  {
    var more := events[ev.key := ev];
    var x := map k | k in events && k in events.Keys && events[k].account == account :: events[k].count;
    var y := map k | k in more && k in more.Keys && more[k].account == account :: more[k].count;
    if ev.account == account {
      MapSum.AddKey(x, ev.key, ev.count);
      assert y == x[ev.key := ev.count];
    } else {
      assert y == x;
    }
  }

  // ---- Never too much ---------------------------------------------------------------------

  /** The minutes of an account in one report. */
  ghost function MinutesIn(r: Report, account: string): nat {
    if r.Report? && r.account == account then r.minutes else 0
  }

  /** The minutes a trace has reported for an account, repeated keys or not. */
  ghost function ReportedMinutes(trace: seq<Event>, account: string): nat {
    if trace == [] then 0 else
      var front, e := trace[..|trace|-1], trace[|trace|-1];
      ReportedMinutes(front, account) + MinutesIn(Reported(RunTrace(front), e), account)
  }

  ghost function CountFor(ev: UsageEvent, account: string): int {
    if ev.account == account then ev.count else 0
  }

  ghost function QueueMinutes(queue: seq<UsageEvent>, account: string): int {
    if queue == [] then 0 else CountFor(queue[0], account) + QueueMinutes(queue[1..], account)
  }

  /** What the worker may still add to the books. */
  ghost function HeldMinutes(d: Delivery, account: string): int {
    if d.worker.Posting? && d.worker.ev.key !in d.booked then CountFor(d.worker.ev, account) else 0
  }

  ghost function BookedMinutes(d: Delivery, account: string): int {
    Minutes(d.booked, d.booked.Keys, account)
  }

  /** The most the books can still come to without a new report. */
  ghost function AtMost(d: Delivery, account: string): int {
    BookedMinutes(d, account) + QueueMinutes(d.queue, account) + HeldMinutes(d, account)
  }

  ghost predicate Positive(d: Delivery) {
    (forall ev :: ev in d.queue ==> ev.count > 0) && (d.worker.Posting? ==> d.worker.ev.count > 0)
  }

  lemma {:induction false} QueueGrows(queue: seq<UsageEvent>, ev: UsageEvent, account: string)
    ensures QueueMinutes(queue + [ev], account) == QueueMinutes(queue, account) + CountFor(ev, account)
  {
    if queue == [] {
      assert queue + [ev] == [ev];
    } else {
      assert (queue + [ev])[1..] == queue[1..] + [ev];
      QueueGrows(queue[1..], ev, account);
    }
  }

  lemma {:induction false} QueueIsNonNegative(queue: seq<UsageEvent>, account: string)
    requires forall ev :: ev in queue ==> ev.count > 0
    ensures QueueMinutes(queue, account) >= 0
  {
    if queue != [] { QueueIsNonNegative(queue[1..], account); }
  }

  lemma AcceptAdds(c: Config, d: Delivery, ev: UsageEvent, account: string)
    requires Positive(d) && ev.count > 0
    ensures Positive(Accept(c, d, ev))
    ensures AtMost(Accept(c, d, ev), account) <= AtMost(d, account) + CountFor(ev, account)
  {
    QueueGrows(d.queue, ev, account);
  }

  lemma TakeAdds(d: Delivery, account: string)
    requires Positive(d) && d.worker.Waiting? && d.queue != []
    ensures Positive(TakeNext(d)) && AtMost(TakeNext(d), account) <= AtMost(d, account)
  {}

  lemma BookingAdds(booked: map<string, UsageEvent>, ev: UsageEvent, account: string)
    ensures var after := Book(booked, ev);
            Minutes(after, after.Keys, account)
            == Minutes(booked, booked.Keys, account) + if ev.key in booked then 0 else CountFor(ev, account)
  {
    if ev.key !in booked { OneMoreReport(booked, ev, account); }
  }

  lemma TryAdds(c: Config, d: Delivery, a: Attempt, account: string)
    requires Positive(d) && d.worker.Posting?
    ensures Positive(AfterTry(c, d, a)) && AtMost(AfterTry(c, d, a), account) <= AtMost(d, account)
  {
    OneTry(c, d, a);
    BookingAdds(d.booked, d.worker.ev, account);
  }

  /** What may come to be booked stays within what was reported. */
  ghost predicate WithinReports(s: System, account: string) {
    Positive(s.d) && AtMost(s.d, account) <= ReportedMinutes(s.trace, account)
  }

  lemma OneMoreReported(front: seq<Event>, e: Event, account: string)
    ensures ReportedMinutes(front + [e], account)
         == ReportedMinutes(front, account) + MinutesIn(Reported(RunTrace(front), e), account)
  {
    assert (front + [e])[..|front|] == front;
  }

  lemma StepStaysWithin(c: Config, s: System, a: Action, account: string)
    requires WithinReports(s, account) && Can(c, s, a)
    ensures WithinReports(Do(c, s, a), account)
  {
    match a
    case Webhook(e) =>
      var r := Reported(RunTrace(s.trace), e);
      OneMoreReported(s.trace, e, account);
      if r.Report? { AcceptAdds(c, s.d, EventOf(r), account); }
    case Take => TakeAdds(s.d, account);
    case Try(t) => TryAdds(c, s.d, t, account);
  }

  lemma {:induction false} RunStaysWithin(c: Config, states: seq<System>, actions: seq<Action>, i: nat, account: string)
    requires IsRun(c, states, actions) && i < |states|
    ensures WithinReports(states[i], account)
  {
    if i == 0 {
      NoKeysNoMinutes(START.d.booked, START.d.booked.Keys, account);
    } else {
      RunStaysWithin(c, states, actions, i - 1, account);
      StepStaysWithin(c, states[i-1], actions[i-1], account);
    }
  }

  /** Every run, every moment, repeated keys or not: the control plane has never booked more than
      was reported. */
  lemma NeverOverbilled(c: Config, states: seq<System>, actions: seq<Action>, i: nat, account: string)
    requires IsRun(c, states, actions) && i < |states|
    ensures BookedMinutes(states[i].d, account) <= ReportedMinutes(states[i].trace, account)
  {
    RunStaysWithin(c, states, actions, i, account);
    QueueIsNonNegative(states[i].d.queue, account);
  }

  // ---- First in, first out --------------------------------------------------------------------

  /** The reports that found room in the queue, in order. */
  ghost function Admitted(c: Config, states: seq<System>, actions: seq<Action>, k: nat): seq<UsageEvent>
    requires k <= |actions| && |states| == |actions| + 1
  {
    if k == 0 then [] else
      var s, a, before := states[k-1], actions[k-1], Admitted(c, states, actions, k - 1);
      if a.Webhook? && Reported(RunTrace(s.trace), a.e).Report? && |s.d.queue| < c.queueSize
      then before + [EventOf(Reported(RunTrace(s.trace), a.e))] else before
  }

  /** The reports the worker has set about posting, in order. */
  ghost function TakenUp(states: seq<System>, actions: seq<Action>, k: nat): seq<UsageEvent>
    requires k <= |actions| && |states| == |actions| + 1
  {
    if k == 0 then []
    else if actions[k-1].Take? && states[k].d.worker.Posting?
    then TakenUp(states, actions, k - 1) + [states[k].d.worker.ev]
    else TakenUp(states, actions, k - 1)
  }

  /** Every run: reports are posted in the order they were admitted, none twice and none skipped. */
  lemma {:induction false} FirstInFirstOut(c: Config, states: seq<System>, actions: seq<Action>, k: nat)
    requires IsRun(c, states, actions) && k < |states|
    ensures Admitted(c, states, actions, k) == TakenUp(states, actions, k) + states[k].d.queue
  {
    if k > 0 {
      FirstInFirstOut(c, states, actions, k - 1);
      var s, a := states[k-1], actions[k-1];
      assert Can(c, s, a);
      if a.Try? { OneTry(c, s.d, a.a); }
    }
  }

  // ---- Everything is accounted for ------------------------------------------------------------

  lemma WebhookMeters(c: Config, s: System, e: Event, account: string)
    requires Inv(c, s) && Can(c, s, Webhook(e)) && Separate(s, Webhook(e))
    ensures var d' := Do(c, s, Webhook(e)).d;
            Minutes(d'.metered, d'.metered.Keys, account)
            == Minutes(s.d.metered, s.d.metered.Keys, account) + MinutesIn(Reported(RunTrace(s.trace), e), account)
  {
    var r := Reported(RunTrace(s.trace), e);
    if r.Report? {
      KeyIsTaken(c, s, e);
      AcceptMetersTheReport(c, s.d, EventOf(r));
      OneMoreReport(s.d.metered, EventOf(r), account);
    }
  }

  ghost predicate MetersReports(s: System, account: string) {
    Minutes(s.d.metered, s.d.metered.Keys, account) == ReportedMinutes(s.trace, account)
  }

  lemma StepMeters(c: Config, s: System, a: Action, account: string)
    requires Inv(c, s) && Can(c, s, a) && Separate(s, a) && MetersReports(s, account)
    ensures MetersReports(Do(c, s, a), account)
  {
    if a.Webhook? {
      WebhookMeters(c, s, a.e, account);
      OneMoreReported(s.trace, a.e, account);
    } else {
      OnlyWebhooksMeter(c, s, a);
    }
  }

  lemma RunMeters(c: Config, states: seq<System>, actions: seq<Action>, i: nat, account: string)
    requires IsRun(c, states, actions) && Spaced(states, actions) && i < |actions| && MetersReports(states[i], account)
    ensures MetersReports(states[i+1], account)
  {
    RunKeepsInvariant(c, states, actions, i);
    StepMeters(c, states[i], actions[i], account);
  }

  /** In runs of separate lifetimes the minutes metered under their keys are the minutes reported. */
  lemma {:induction false} MeteredIsReported(
    c: Config, states: seq<System>, actions: seq<Action>, i: nat, account: string)
    requires IsRun(c, states, actions) && Spaced(states, actions) && i < |states|
    ensures MetersReports(states[i], account)
  {
    if i == 0 {
      NoKeysNoMinutes(START.d.metered, START.d.metered.Keys, account);
    } else {
      MeteredIsReported(c, states, actions, i - 1, account);
      RunMeters(c, states, actions, i - 1, account);
    }
  }

  ghost function PendingMinutes(d: Delivery, account: string): int {
    Minutes(d.metered, PendingKeys(d) - d.booked.Keys, account)
  }

  ghost function LostMinutes(d: Delivery, account: string): int {
    Minutes(d.metered, d.lost - d.booked.Keys, account)
  }

  /** Every run of separate lifetimes, every moment: the minutes reported for an account are exactly
      the minutes the control plane has booked, plus those still pending and those counted as
      dropped that it has not received; and the drop counter counts the dropped reports. */
  lemma BillsAreConserved(c: Config, states: seq<System>, actions: seq<Action>, i: nat, account: string)
    requires IsRun(c, states, actions) && Spaced(states, actions) && i < |states|
    ensures var s := states[i];
            && ReportedMinutes(s.trace, account)
               == BookedMinutes(s.d, account) + PendingMinutes(s.d, account) + LostMinutes(s.d, account)
            && s.d.dropped == |s.d.lost|
  {
    RunKeepsInvariant(c, states, actions, i);
    MeteredIsReported(c, states, actions, i, account);
    DeliveryConserves(c, states[i].d, account);
  }

  /** Once nothing is pending and nothing was dropped, all that was reported is booked. */
  lemma SettledIsBooked(c: Config, states: seq<System>, actions: seq<Action>, i: nat, account: string)
    requires IsRun(c, states, actions) && Spaced(states, actions) && i < |states|
    requires states[i].d.queue == [] && states[i].d.worker.Waiting? && states[i].d.dropped == 0
    ensures BookedMinutes(states[i].d, account) == ReportedMinutes(states[i].trace, account)
  {
    var d := states[i].d;
    BillsAreConserved(c, states, actions, i, account);
    NoKeysNoMinutes(d.metered, PendingKeys(d) - d.booked.Keys, account);
    NoKeysNoMinutes(d.metered, d.lost - d.booked.Keys, account);
  }

  // ---- What is reported is the area ------------------------------------------------------------

  /** The bill of a trace, read off the occupancy curves: every finish bills its area to the
      nearest minute. */
  ghost function AreaBill(trace: seq<Event>, account: string): int {
    if trace == [] then 0 else
      var front, e := trace[..|trace|-1], trace[|trace|-1];
      var area := Area(front, e.room, e.now);
      AreaBill(front, account)
      + if e.kind.RoomFinished? && e.tenant == account && area >= 0 then RoundMinutes(area) else 0
  }

  /** The meet-minutes metric a trace leaves. */
  ghost function MinutesMetric(trace: seq<Event>): map<string, nat> {
    if trace == [] then map[] else
      var front, e := trace[..|trace|-1], trace[|trace|-1];
      CountMinutes(MinutesMetric(front), RunTrace(front), e)
  }

  lemma FinishMatchesArea(sep: char, front: seq<Event>, e: Event)
    requires Attributed(sep, front + [e]) && Ordered(front, e.now) && e.kind.RoomFinished?
    ensures var rooms, area := RunTrace(front), Area(front, e.room, e.now);
            && area >= 0
            && (e.room in rooms ==>
                  rooms[e.room].tenant == e.tenant && Billed(rooms[e.room], e.now) == RoundMinutes(area))
            && (e.room !in rooms ==> RoundMinutes(area) == 0)
  {
    FinishBillsTheArea(front, e);
    MeteringIsArea(front, e.room, e.now);
    assert (front + [e])[|front|] == e;
    assert forall i :: 0 <= i < |front| ==> (front + [e])[i] == front[i];
    if e.room in RunTrace(front) { RoomsCarryTheirNames(sep, front, e.room); }
  }

  function At(metric: map<string, nat>, account: string): nat {
    if account in metric then metric[account] else 0
  }

  lemma FinishAddsTheArea(sep: char, front: seq<Event>, e: Event, account: string)
    requires Attributed(sep, front + [e]) && Ordered(front, e.now) && account != ""
    ensures var area := Area(front, e.room, e.now);
            forall m :: At(CountMinutes(m, RunTrace(front), e), account) == At(m, account)
              + if e.kind.RoomFinished? && e.tenant == account && area >= 0 then RoundMinutes(area) else 0
  {
    if e.kind.RoomFinished? { FinishMatchesArea(sep, front, e); }
  }

  /** With stamps in order, the metric for an account is its area bill. */
  lemma {:induction false} MetricIsAreaBill(sep: char, trace: seq<Event>, t: int, account: string)
    requires Attributed(sep, trace) && Ordered(trace, t) && account != ""
    ensures At(MinutesMetric(trace), account) == AreaBill(trace, account)
  {
    if trace == [] { return; }
    var front, e := trace[..|trace|-1], trace[|trace|-1];
    assert trace == front + [e];
    MetricIsAreaBill(sep, front, t, account);
    FinishAddsTheArea(sep, front, e, account);
  }

  lemma AreaBillStep(sep: char, front: seq<Event>, e: Event, account: string)
    requires Attributed(sep, front + [e]) && Ordered(front, e.now)
    ensures var r := Reported(RunTrace(front), e);
            AreaBill(front + [e], account) == AreaBill(front, account) + MinutesIn(r, account)
  {
    assert (front + [e])[..|front|] == front;
    if e.kind.RoomFinished? { FinishMatchesArea(sep, front, e); }
  }

  lemma OrderedPrefix(front: seq<Event>, e: Event, t: int)
    requires Ordered(front + [e], t)
    ensures Ordered(front, e.now)
  {
    var trace := front + [e];
    assert forall j :: 0 <= j < |front| ==> trace[j] == front[j];
    assert trace[|front|] == e;
  }

  /** With stamps in order, the minutes reported for an account are its area bill, repeated keys
      or not. */
  lemma {:induction false} ReportedIsAreaBill(sep: char, trace: seq<Event>, t: int, account: string)
    requires Attributed(sep, trace) && Ordered(trace, t)
    ensures ReportedMinutes(trace, account) == AreaBill(trace, account)
  {
    if trace == [] { return; }
    var front, e := trace[..|trace|-1], trace[|trace|-1];
    assert trace == front + [e];
    OrderedPrefix(front, e, t);
    PrefixAttributed(sep, trace, |front|);
    ReportedIsAreaBill(sep, front, e.now, account);
    AreaBillStep(sep, front, e, account);
  }

  /** Every run whose stamps are in order: the control plane never books more than the area under
      the occupancy curves, billed to the nearest minute per finished room. */
  lemma NeverBilledBeyondTheArea(
    c: Config, states: seq<System>, actions: seq<Action>, i: nat, t: int, account: string)
    requires IsRun(c, states, actions) && i < |states| && Ordered(states[i].trace, t)
    ensures BookedMinutes(states[i].d, account) <= AreaBill(states[i].trace, account)
  {
    RunKeepsKeys(c, states, actions, i);
    NeverOverbilled(c, states, actions, i, account);
    ReportedIsAreaBill(c.sep, states[i].trace, t, account);
  }

  /** Every run of separate lifetimes whose stamps are in order, every moment: that area bill is what
      the control plane has booked plus what is pending or dropped and has not reached it. */
  lemma AreaIsBilledOrAccountedFor(
    c: Config, states: seq<System>, actions: seq<Action>, i: nat, t: int, account: string)
    requires IsRun(c, states, actions) && Spaced(states, actions) && i < |states| && Ordered(states[i].trace, t)
    ensures var s := states[i];
            AreaBill(s.trace, account)
            == BookedMinutes(s.d, account) + PendingMinutes(s.d, account) + LostMinutes(s.d, account)
  {
    RunKeepsKeys(c, states, actions, i);
    BillsAreConserved(c, states, actions, i, account);
    ReportedIsAreaBill(c.sep, states[i].trace, t, account);
  }
}
