/** What the seconds in the idempotency key cost: two crowded lifetimes of one room within a
    single second share a key, and the second bill disappears without a trace. */
module BillingCollision {
  import opened UsageMetering
  import opened UsageArea
  import opened UsageDelivery
  import opened UsageKey
  import opened BillingProtocol
  import opened BillingTotals
  import TenantGate
  import MapSum

  const HALF: int := 500_000_000
  const END: int := 999_999_999

  function Tenant(sep: char): string {
    if sep == 't' then "u" else "t"
  }

  function Room(sep: char): string {
    Tenant(sep) + [sep] + "r"
  }

  function Name(i: nat): string {
    seq(i + 1, _ => 'x')
  }

  /** The first n participants, all since the same moment. */
  function Crowd(n: nat, at: int): (live: map<string, int>)
    ensures |live| == n && forall who :: who in live ==> |who| <= n && live[who] == at
  {
    if n == 0 then map[] else Crowd(n - 1, at)[Name(n - 1) := at]
  }

  function Join(sep: char, i: nat, at: int): Event {
    Event(ParticipantJoined, Room(sep), Tenant(sep), "r", Name(i), at, at)
  }

  function Finish(sep: char, at: int): Event {
    Event(RoomFinished, Room(sep), Tenant(sep), "r", "", at, at)
  }

  /** The tracked rooms once n participants have joined. */
  function Full(sep: char, n: nat, at: int): Rooms {
    if n == 0 then map[] else map[Room(sep) := RoomUsage(Tenant(sep), "r", at, Crowd(n, at), 0, n, n)]
  }

  /** The report of a lifetime within the given second. */
  function TheEvent(sep: char, second: nat): UsageEvent {
    UsageEvent(Tenant(sep), "meet_minutes", 1, KeyFor(Tenant(sep), "r", Nanos(second), Nanos(second)))
  }

  function Nanos(second: nat): int {
    second * NANOS_PER_SECOND
  }

  lemma OneMoreJoin(sep: char, n: nat, at: int)
    ensures After(Full(sep, n, at), Join(sep, n, at)) == Full(sep, n + 1, at)
  {
    assert |Name(n)| == n + 1;
    assert Crowd(n, at)[Name(n) := at] == Crowd(n + 1, at);
  }

  /** Enough participants for half a minute in half a second. */
  predicate IsCrowd(n: nat) {
    61 <= n <= 100
  }

  /** The first or the second half of a second. */
  predicate IsLifetime(second: nat, at: int, end: int) {
    || (at == Nanos(second) && end == Nanos(second) + HALF)
    || (at == Nanos(second) + HALF && end == Nanos(second) + END)
  }

  lemma CrowdRounds(n: nat, span: nat)
    requires IsCrowd(n) && (span == HALF || span == END - HALF)
    ensures RoundMinutes(n * span) == 1
  {
    if span == HALF {
      assert n * span == n * HALF;
    } else {
      assert n * span == n * (END - HALF);
    }
  }

  lemma CrowdBillsOneMinute(sep: char, n: nat, at: int, end: int)
    requires IsCrowd(n) && (end - at == HALF || end - at == END - HALF)
    ensures Billed(RoomUsage(Tenant(sep), "r", at, Crowd(n, at), 0, n, n), end) == 1
  {
    var spans := OpenSpans(Crowd(n, at), end);
    assert |spans.Keys| == n by { assert spans.Keys == Crowd(n, at).Keys; }
    MapSum.Constant(spans, end - at);
    CrowdRounds(n, end - at);
  }

  lemma SameKey(sep: char, second: nat, at: int, end: int)
    requires IsLifetime(second, at, end)
    ensures KeyFor(Tenant(sep), "r", at, end) == KeyFor(Tenant(sep), "r", Nanos(second), Nanos(second))
  {
    assert UnixOrZero(at) == UnixOrZero(Nanos(second)) && UnixSeconds(end) == UnixSeconds(Nanos(second));
  }

  lemma CrowdReports(sep: char, n: nat, at: int, end: int)
    requires IsCrowd(n) && (end - at == HALF || end - at == END - HALF)
    ensures Reported(Full(sep, n, at), Finish(sep, end)) == Report(Tenant(sep), 1, KeyFor(Tenant(sep), "r", at, end))
    ensures forall m :: CountMinutes(m, Full(sep, n, at), Finish(sep, end)) == AddMinutes(m, Tenant(sep), 1)
    ensures After(Full(sep, n, at), Finish(sep, end)) == map[]
  {
    CrowdBillsOneMinute(sep, n, at, end);
  }

  /** Either lifetime bills one minute under the same key. */
  lemma FinishReports(sep: char, n: nat, second: nat, at: int, end: int)
    requires IsCrowd(n) && IsLifetime(second, at, end)
    ensures var r := Reported(Full(sep, n, at), Finish(sep, end)); r.Report? && EventOf(r) == TheEvent(sep, second)
    ensures forall m :: CountMinutes(m, Full(sep, n, at), Finish(sep, end)) == AddMinutes(m, Tenant(sep), 1)
    ensures After(Full(sep, n, at), Finish(sep, end)) == map[]
  {
    CrowdReports(sep, n, at, end);
    SameKey(sep, second, at, end);
  }

  ghost function Last(states: seq<System>): System
    requires states != []
  {
    states[|states|-1]
  }

  ghost predicate WithinSecond(trace: seq<Event>, second: nat) {
    forall i :: 0 <= i < |trace| ==> UnixSeconds(trace[i].now) == second
  }

  /** A run within one second has come to these tracked rooms, this delivery and this metric by
      moment t. */
  ghost predicate Reached(c: Config, states: seq<System>, actions: seq<Action>,
                          rooms: Rooms, d: Delivery, metric: map<string, nat>, second: nat, t: int) {
    && IsRun(c, states, actions) && WithinSecond(Last(states).trace, second)
    && Last(states).d == d
    && RunTrace(Last(states).trace) == rooms && MinutesMetric(Last(states).trace) == metric
    && Ordered(Last(states).trace, t) && Attributed(c.sep, Last(states).trace)
  }

  lemma Extend(c: Config, states: seq<System>, actions: seq<Action>, a: Action)
    returns (states': seq<System>, actions': seq<Action>)
    requires IsRun(c, states, actions) && Can(c, Last(states), a)
    ensures IsRun(c, states', actions') && Last(states') == Do(c, Last(states), a)
  {
    states', actions' := states + [Do(c, Last(states), a)], actions + [a];
  }

  lemma Hook(c: Config, states: seq<System>, actions: seq<Action>,
             rooms: Rooms, d: Delivery, metric: map<string, nat>, second: nat, t: int, e: Event)
    returns (states': seq<System>, actions': seq<Action>)
    requires Reached(c, states, actions, rooms, d, metric, second, t) && t <= e.now
    requires UnixSeconds(e.now) == second
    requires TenantGate.SplitRoom(c.sep, e.room) == TenantGate.Ok(TenantGate.RoomName(e.tenant, e.shortRoom))
    ensures var r := Reported(rooms, e);
            Reached(c, states', actions', After(rooms, e), if r.Report? then Accept(c, d, EventOf(r)) else d,
                    CountMinutes(metric, rooms, e), second, e.now)
  {
    states', actions' := Extend(c, states, actions, Webhook(e));
    OneMoreEvent(c.sep, Last(states).trace, second, t, e);
  }

  lemma OneMoreEvent(sep: char, front: seq<Event>, second: nat, t: int, e: Event)
    requires Ordered(front, t) && WithinSecond(front, second) && Attributed(sep, front) && t <= e.now
    requires UnixSeconds(e.now) == second
    requires TenantGate.SplitRoom(sep, e.room) == TenantGate.Ok(TenantGate.RoomName(e.tenant, e.shortRoom))
    ensures var trace := front + [e];
            && Ordered(trace, e.now) && WithinSecond(trace, second) && Attributed(sep, trace)
            && RunTrace(trace) == After(RunTrace(front), e)
            && MinutesMetric(trace) == CountMinutes(MinutesMetric(front), RunTrace(front), e)
  {
    assert (front + [e])[..|front|] == front;
  }

  lemma OurRoomIsOurs(sep: char)
    ensures TenantGate.SplitRoom(sep, Room(sep)) == TenantGate.Ok(TenantGate.RoomName(Tenant(sep), "r"))
  {
    TenantGate.SplitFindsTheParts(sep, Tenant(sep), "r");
  }

  lemma {:induction false} Arrive(c: Config, states: seq<System>, actions: seq<Action>,
                                  d: Delivery, metric: map<string, nat>, second: nat, at: int, n: nat)
    returns (states': seq<System>, actions': seq<Action>)
    requires Reached(c, states, actions, map[], d, metric, second, at) && UnixSeconds(at) == second
    ensures Reached(c, states', actions', Full(c.sep, n, at), d, metric, second, at)
  {
    if n == 0 {
      states', actions' := states, actions;
    } else {
      OurRoomIsOurs(c.sep);
      OneMoreJoin(c.sep, n - 1, at);
      states', actions' := Arrive(c, states, actions, d, metric, second, at, n - 1);
      states', actions' := Hook(
        c, states', actions', Full(c.sep, n - 1, at), d, metric, second, at, Join(c.sep, n - 1, at));
    }
  }

  /** One lifetime: the crowd joins, and the room finishes less than a second later. */
  lemma Lifetime(c: Config, states: seq<System>, actions: seq<Action>,
                 d: Delivery, metric: map<string, nat>, n: nat, second: nat, at: int, end: int)
    returns (states': seq<System>, actions': seq<Action>)
    requires IsCrowd(n) && IsLifetime(second, at, end)
    requires Reached(c, states, actions, map[], d, metric, second, at)
    ensures Reached(c, states', actions', map[],
                    Accept(c, d, TheEvent(c.sep, second)), AddMinutes(metric, Tenant(c.sep), 1), second, end)
  {
    OurRoomIsOurs(c.sep);
    assert UnixSeconds(at) == second && UnixSeconds(end) == second;
    FinishReports(c.sep, n, second, at, end);
    states', actions' := Arrive(c, states, actions, d, metric, second, at, n);
    states', actions' := Hook(c, states', actions', Full(c.sep, n, at), d, metric, second, at, Finish(c.sep, end));
  }

  /** The worker posts the one event in the queue, and the control plane answers 200. */
  lemma Deliver(c: Config, states: seq<System>, actions: seq<Action>,
                d: Delivery, metric: map<string, nat>, second: nat, t: int)
    returns (states': seq<System>, actions': seq<Action>)
    requires Reached(c, states, actions, map[], d, metric, second, t)
    requires d.worker.Waiting? && d.queue == [TheEvent(c.sep, second)]
    ensures Reached(c, states', actions', map[],
                    d.(queue := [], booked := Book(d.booked, TheEvent(c.sep, second))), metric, second, t)
  {
    states', actions' := Extend(c, states, actions, Take);
    states', actions' := Extend(c, states', actions', Try(Attempt(true, Status(200))));
  }

  /** The event metered and booked, nothing else anywhere. */
  function Settled(sep: char, second: nat): Delivery {
    var ev := TheEvent(sep, second);
    Delivery([], Waiting, 0, map[ev.key := ev], map[ev.key := ev], {})
  }

  /** A lifetime whose report is delivered, be it the first or the second. */
  lemma LifetimeSettles(c: Config, states: seq<System>, actions: seq<Action>,
                        d: Delivery, metric: map<string, nat>, n: nat, second: nat, at: int, end: int)
    returns (states': seq<System>, actions': seq<Action>)
    requires c.queueSize > 0 && IsCrowd(n) && IsLifetime(second, at, end)
    requires d == START.d || d == Settled(c.sep, second)
    requires Reached(c, states, actions, map[], d, metric, second, at)
    ensures Reached(c, states', actions', map[],
                    Settled(c.sep, second), AddMinutes(metric, Tenant(c.sep), 1), second, end)
  {
    var ev, m := TheEvent(c.sep, second), AddMinutes(metric, Tenant(c.sep), 1);
    states', actions' := Lifetime(c, states, actions, d, metric, n, second, at, end);
    states', actions' := Deliver(c, states', actions', Accept(c, d, ev), m, second, end);
    assert Accept(c, d, ev).(queue := [], booked := Book(d.booked, ev)) == Settled(c.sep, second);
  }

  lemma SettledBooksOne(sep: char, second: nat)
    ensures var d := Settled(sep, second); Minutes(d.booked, d.booked.Keys, Tenant(sep)) == 1
  {
    var ev := TheEvent(sep, second);
    OneMoreReport(map[], ev, Tenant(sep));
    NoKeysNoMinutes(map[], {}, Tenant(sep));
  }

  lemma NothingYet(c: Config, second: nat, t: int)
    ensures Reached(c, [START], [], map[], START.d, map[], second, t)
  {}

  lemma FirstLifetime(c: Config, n: nat, second: nat) returns (states: seq<System>, actions: seq<Action>)
    requires c.queueSize > 0 && IsCrowd(n)
    ensures Reached(c, states, actions, map[], Settled(c.sep, second), AddMinutes(map[], Tenant(c.sep), 1),
                    second, Nanos(second) + HALF)
  {
    var t := Nanos(second);
    NothingYet(c, second, t);
    states, actions := LifetimeSettles(c, [START], [], START.d, map[], n, second, t, t + HALF);
  }

  /** One lifetime after the other. */
  lemma TwoLifetimes(c: Config, n: nat, second: nat) returns (states: seq<System>, actions: seq<Action>)
    requires c.queueSize > 0 && IsCrowd(n)
    ensures var once := AddMinutes(map[], Tenant(c.sep), 1);
            Reached(c, states, actions, map[], Settled(c.sep, second), AddMinutes(once, Tenant(c.sep), 1),
                    second, Nanos(second) + END)
  {
    var once, t := AddMinutes(map[], Tenant(c.sep), 1), Nanos(second);
    states, actions := FirstLifetime(c, n, second);
    states, actions := LifetimeSettles(
      c, states, actions, Settled(c.sep, second), once, n, second, t + HALF, t + END);
  }

  /** In every second some run in order bills two minutes, by area and by its reports; the control
      plane books one; and nothing is pending, dropped or lost: the second report was taken for a
      repeat of the first. */
  lemma SecondBillDisappears(c: Config, second: nat) returns (states: seq<System>, actions: seq<Action>)
    requires c.queueSize > 0
    ensures IsRun(c, states, actions)
    ensures Ordered(Last(states).trace, Nanos(second) + END) && WithinSecond(Last(states).trace, second)
    ensures var s, account := Last(states), Tenant(c.sep);
            && AreaBill(s.trace, account) == ReportedMinutes(s.trace, account) == 2
            && BookedMinutes(s.d, account) == 1
            && s.d.queue == [] && s.d.worker.Waiting? && s.d.dropped == 0 && s.d.lost == {}
  {
    assert IsCrowd(61);
    var n: nat :| IsCrowd(n);
    states, actions := TwoLifetimes(c, n, second);
    var trace := Last(states).trace;
    MetricIsAreaBill(c.sep, trace, Nanos(second) + END, Tenant(c.sep));
    ReportedIsAreaBill(c.sep, trace, Nanos(second) + END, Tenant(c.sep));
    SettledBooksOne(c.sep, second);
  }
}
