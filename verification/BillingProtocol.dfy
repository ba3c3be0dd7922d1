/** The whole way of a bill: webhooks are metered, finished rooms are reported into the bounded
    queue, one worker posts with retries over a link that may lose requests or answers, and the
    control plane books each key once. All of it interleaves freely. */
module BillingProtocol {
  import opened UsageMetering
  import opened UsageArea
  import opened UsageStarts
  import opened UsageDelivery
  import opened UsageKey
  import TenantGate

  datatype Config = Config(sep: char, queueSize: nat, maxAttempts: nat)

  datatype Worker = Waiting | Posting(ev: UsageEvent, attempt: nat)

  /** The client and the control plane. `metered` collects every report the receiver made, `lost`
      the keys counted as dropped. */
  datatype Delivery = Delivery(
    queue: seq<UsageEvent>, worker: Worker, dropped: nat,
    booked: map<string, UsageEvent>, metered: map<string, UsageEvent>, lost: set<string>)

  datatype System = System(trace: seq<Event>, d: Delivery)

  datatype Action = Webhook(e: Event) | Take | Try(a: Attempt)

  const START := System([], Delivery([], Waiting, 0, map[], map[], {}))

  /** What event i of a trace hands to the reporter. */
  ghost function ReportAt(trace: seq<Event>, i: nat): Report
    requires i < |trace|
  {
    Reported(RunTrace(trace[..i]), trace[i])
  }

  /** The start second of the room's present lifetime, read off the trace, as a key prints it. */
  ghost function StartSecond(trace: seq<Event>, room: string): int {
    UnixOrZero(StartOf(trace, room))
  }

  /** Event i reported a lifetime of the room that started and finished in these seconds. */
  ghost predicate ReportedLifetime(trace: seq<Event>, i: nat, room: string, started: int, finished: int)
    requires i < |trace|
  {
    && ReportAt(trace, i).Report? && trace[i].room == room
    && StartSecond(trace[..i], room) == started && UnixSeconds(trace[i].now) == finished
  }

  /** Some reported lifetime of the same room started and finished in the same seconds as the one
      `e` is about to report. */
  ghost predicate SameSecondsBefore(trace: seq<Event>, e: Event) {
    exists i :: 0 <= i < |trace|
      && ReportedLifetime(trace, i, e.room, StartSecond(trace, e.room), UnixSeconds(e.now))
  }

  /** Events reach apply attributed by splitting their room id; an answer in the 200s means the
      control plane has received the request. */
  ghost predicate Can(c: Config, s: System, a: Action) {
    match a
    case Webhook(e) =>
      TenantGate.SplitRoom(c.sep, e.room) == TenantGate.Ok(TenantGate.RoomName(e.tenant, e.shortRoom))
    case Take => s.d.worker.Waiting? && s.d.queue != []
    case Try(a) => s.d.worker.Posting? && (Judge(a.reply) == Delivered ==> a.received)
  }

  /** A report never comes in the same seconds as an earlier one of its room. */
  ghost predicate Separate(s: System, a: Action) {
    a.Webhook? && Reported(RunTrace(s.trace), a.e).Report? ==> !SameSecondsBefore(s.trace, a.e)
  }

  /** A report is metered and offered to the queue. */
  function Accept(c: Config, d: Delivery, ev: UsageEvent): Delivery {
    var counted := d.(metered := d.metered[ev.key := ev]);
    if |d.queue| < c.queueSize then counted.(queue := d.queue + [ev])
    else counted.(dropped := d.dropped + 1, lost := d.lost + {ev.key})
  }

  function TakeNext(d: Delivery): Delivery
    requires d.queue != []
  {
    d.(queue := d.queue[1..], worker := Posting(d.queue[0], 0))
  }

  function GiveUp(d: Delivery): Delivery
    requires d.worker.Posting?
  {
    d.(worker := Waiting, dropped := d.dropped + 1, lost := d.lost + {d.worker.ev.key})
  }

  function AfterTry(c: Config, d: Delivery, a: Attempt): Delivery
    requires d.worker.Posting?
  {
    var after := if a.received then d.(booked := Book(d.booked, d.worker.ev)) else d;
    match Judge(a.reply)
    case Delivered => after.(worker := Waiting)
    case Rejected => GiveUp(after)
    case Again => if d.worker.attempt + 1 < c.maxAttempts
                  then after.(worker := Posting(d.worker.ev, d.worker.attempt + 1))
                  else GiveUp(after)
  }

  function EventOf(r: Report): UsageEvent
    requires r.Report?
  {
    UsageEvent(r.account, "meet_minutes", r.minutes, r.key)
  }

  ghost function Do(c: Config, s: System, a: Action): System
    requires Can(c, s, a)
  {
    match a
    case Webhook(e) =>
      var r := Reported(RunTrace(s.trace), e);
      System(s.trace + [e], if r.Report? then Accept(c, s.d, EventOf(r)) else s.d)
    case Take => s.(d := TakeNext(s.d))
    case Try(t) => s.(d := AfterTry(c, s.d, t))
  }

  // ---- The worker's steps and the retry loop ---------------------------------------------

  /** The steps of the worker for one event, from attempt i until it waits for the next. */
  function Tried(c: Config, d: Delivery, net: seq<Attempt>, i: nat): Delivery
    requires d.worker.Posting? && d.worker.attempt == i < c.maxAttempts <= |net|
    decreases c.maxAttempts - i
  {
    var next := AfterTry(c, d, net[i]);
    if next.worker.Waiting? then next else Tried(c, next, net, i + 1)
  }

  /** A success within the budget, after failures that settle nothing, books the event and drops
      nothing. */
  lemma SuccessIsBooked(c: Config, d: Delivery, net: seq<Attempt>, k: nat)
    requires d.worker.Posting? && d.worker.attempt == 0 && k < c.maxAttempts <= |net|
    requires Succeeds(net[k].reply) && net[k].received
    requires forall j :: 0 <= j < k ==> net[j].reply.NoReply? || 500 <= net[j].reply.code < 600
    ensures var after := Tried(c, d, net, 0);
            after.worker.Waiting? && d.worker.ev.key in after.booked && after.dropped == d.dropped
  {
    SuccessIsReached(net, c.maxAttempts, k);
    StepsArePost(c, d, net, 0);
  }

  lemma OneTry(c: Config, d: Delivery, a: Attempt)
    requires d.worker.Posting?
    ensures var next, verdict := AfterTry(c, d, a), Judge(a.reply);
            && next.queue == d.queue && next.metered == d.metered
            && next.booked == (if a.received then Book(d.booked, d.worker.ev) else d.booked)
            && next.worker == (if verdict == Again && d.worker.attempt + 1 < c.maxAttempts
                               then Posting(d.worker.ev, d.worker.attempt + 1) else Waiting)
            && next.dropped == d.dropped + (if next.worker.Waiting? && verdict != Delivered then 1 else 0)
  {}

  /** Step by step, the worker does what the retry loop of Post does: as many attempts, one
      booking if any of them was received, one drop unless the last one succeeded. */
  lemma {:induction false} StepsArePost(c: Config, d: Delivery, net: seq<Attempt>, i: nat)
    requires d.worker.Posting? && d.worker.attempt == i < c.maxAttempts <= |net|
    ensures var after, n := Tried(c, d, net, i), Tries(net, i, c.maxAttempts);
            && after.worker.Waiting? && after.queue == d.queue && after.metered == d.metered
            && after.booked == (if exists j :: i <= j < n && net[j].received then Book(d.booked, d.worker.ev)
                                else d.booked)
            && after.dropped == d.dropped + (if Judge(net[n-1].reply) == Delivered then 0 else 1)
    decreases c.maxAttempts - i
  {
    OneTry(c, d, net[i]);
    var next := AfterTry(c, d, net[i]);
    if next.worker.Posting? { StepsArePost(c, next, net, i + 1); }
  }

  // ---- Keys never collide --------------------------------------------------------------

  ghost predicate Attributed(sep: char, trace: seq<Event>) {
    forall i :: 0 <= i < |trace| ==>
      TenantGate.SplitRoom(sep, trace[i].room)
        == TenantGate.Ok(TenantGate.RoomName(trace[i].tenant, trace[i].shortRoom))
  }

  /** A tracked room carries the names its id splits into. */
  lemma {:induction false} RoomsCarryTheirNames(sep: char, trace: seq<Event>, room: string)
    requires Attributed(sep, trace) && room in RunTrace(trace)
    ensures var ru := RunTrace(trace)[room];
            TenantGate.SplitRoom(sep, room) == TenantGate.Ok(TenantGate.RoomName(ru.tenant, ru.shortRoom))
  {
    var front, e := trace[..|trace|-1], trace[|trace|-1];
    EventKeepsNames(RunTrace(front), e, room);
    if room in RunTrace(front) { RoomsCarryTheirNames(sep, front, room); }
  }

  /** A row of the admin read names the tenant and the room its id splits into. */
  lemma RowsCarryTheirNames(sep: char, trace: seq<Event>, room: string, t: int)
    requires Attributed(sep, trace) && room in RunTrace(trace)
    ensures var row := Row(RunTrace(trace)[room], t);
            TenantGate.SplitRoom(sep, room) == TenantGate.Ok(TenantGate.RoomName(row.tenant, row.room))
  {
    RoomsCarryTheirNames(sep, trace, room);
  }

  /** A tracked room keeps its names, or has just got those of the event. */
  lemma EventKeepsNames(rooms: Rooms, e: Event, room: string)
    requires room in After(rooms, e)
    ensures var ru := After(rooms, e)[room];
            if room in rooms then ru.tenant == rooms[room].tenant && ru.shortRoom == rooms[room].shortRoom
            else e.room == room && ru.tenant == e.tenant && ru.shortRoom == e.shortRoom
  {}

  /** A key on the books is that of a report. */
  ghost predicate KeyOfReport(key: string, account: string, trace: seq<Event>) {
    exists i :: 0 <= i < |trace| && ReportAt(trace, i).Report?
                && ReportAt(trace, i).key == key && ReportAt(trace, i).account == account
  }

  /** The keys metered are those of the reports so far. */
  ghost predicate KeysInv(trace: seq<Event>, metered: map<string, UsageEvent>) {
    && (forall k :: k in metered ==>
          metered[k].key == k && metered[k].count > 0 && KeyOfReport(k, metered[k].account, trace))
    && (forall i :: 0 <= i < |trace| && ReportAt(trace, i).Report? ==> ReportAt(trace, i).key in metered)
  }

  /** A report bills the account of the event under the key of the lifetime read off the trace. */
  lemma ReportNamesItsFinish(sep: char, trace: seq<Event>, e: Event)
    requires Attributed(sep, trace) && Reported(RunTrace(trace), e).Report?
    requires TenantGate.SplitRoom(sep, e.room) == TenantGate.Ok(TenantGate.RoomName(e.tenant, e.shortRoom))
    ensures var r := Reported(RunTrace(trace), e);
            && r.account == e.tenant
            && r.key == KeyFor(e.tenant, e.shortRoom, StartOf(trace, e.room), e.now)
  {
    RoomsCarryTheirNames(sep, trace, e.room);
    TrackedSince(trace, e.room);
  }

  /** What any event hands to the reporter, read off the trace: only a finish reports, exactly if the
      metered time (the area, and what the clamp adds) is half a minute or more, to the nearest
      minute, under the key of its tenant, room, start and finish. */
  lemma ReportReadsTheTrace(sep: char, trace: seq<Event>, e: Event)
    requires Attributed(sep, trace)
    requires TenantGate.SplitRoom(sep, e.room) == TenantGate.Ok(TenantGate.RoomName(e.tenant, e.shortRoom))
    ensures var r, nanos := Reported(RunTrace(trace), e), Area(trace, e.room, e.now) + Skew(trace, e.room, e.now);
            && (r.Report? <==> e.kind.RoomFinished? && nanos >= 30_000_000_000)
            && (r.Report? ==>
                  && nanos - 30_000_000_000 < r.minutes * 60_000_000_000 <= nanos + 30_000_000_000
                  && r.account == e.tenant && r.key == KeyFor(e.tenant, e.shortRoom, StartOf(trace, e.room), e.now))
  {
    MeteringIsAreaPlusSkew(trace, e.room, e.now);
    var rooms := RunTrace(trace);
    if e.kind.RoomFinished? {
      if e.room in rooms {
        MeteredIsNatural(rooms[e.room], e.now);
        NearestMinute(MeteredAt(rooms[e.room], e.now));
        if Reported(rooms, e).Report? { ReportNamesItsFinish(sep, trace, e); }
      } else {
        assert OpenSpans(map[], e.now) == map[];
      }
    }
  }

  lemma PrefixAttributed(sep: char, trace: seq<Event>, i: nat)
    requires Attributed(sep, trace) && i <= |trace|
    ensures Attributed(sep, trace[..i])
  {
    assert forall j :: 0 <= j < i ==> trace[..i][j] == trace[j];
  }

  /** Two reports share a key exactly when they are of one room and of the same seconds. */
  lemma ReportsCollide(sep: char, trace: seq<Event>, i: nat, e: Event)
    requires Attributed(sep, trace) && i < |trace| && ReportAt(trace, i).Report?
    requires TenantGate.SplitRoom(sep, e.room) == TenantGate.Ok(TenantGate.RoomName(e.tenant, e.shortRoom))
    requires Reported(RunTrace(trace), e).Report?
    ensures ReportAt(trace, i).key == Reported(RunTrace(trace), e).key <==>
            ReportedLifetime(trace, i, e.room, StartSecond(trace, e.room), UnixSeconds(e.now))
  {
    var before := trace[i];
    PrefixAttributed(sep, trace, i);
    ReportNamesItsFinish(sep, trace, e);
    ReportNamesItsFinish(sep, trace[..i], before);
    TenantGate.GateAdmits(sep, e.room);
    TenantGate.GateAdmits(sep, before.room);
    KeyDetermines(sep, before.tenant, before.shortRoom, StartOf(trace[..i], before.room), before.now,
                  e.tenant, e.shortRoom, StartOf(trace, e.room), e.now);
    if before.tenant == e.tenant && before.shortRoom == e.shortRoom {
      TenantGate.SplitInjective(sep, e.room, before.room);
    }
  }

  /** A new report reuses a key exactly when its room has a reported lifetime of the same seconds. */
  lemma KeyIsTaken(c: Config, s: System, e: Event)
    requires Attributed(c.sep, s.trace) && KeysInv(s.trace, s.d.metered) && Can(c, s, Webhook(e))
    requires Reported(RunTrace(s.trace), e).Report?
    ensures Reported(RunTrace(s.trace), e).key in s.d.metered <==> SameSecondsBefore(s.trace, e)
  {
    var key := Reported(RunTrace(s.trace), e).key;
    forall i | 0 <= i < |s.trace| && ReportAt(s.trace, i).Report?
      ensures ReportAt(s.trace, i).key == key <==>
              ReportedLifetime(s.trace, i, e.room, StartSecond(s.trace, e.room), UnixSeconds(e.now))
    {
      ReportsCollide(c.sep, s.trace, i, e);
    }
    if key in s.d.metered {
      var i :| 0 <= i < |s.trace| && ReportAt(s.trace, i).Report? && ReportAt(s.trace, i).key == key
               && ReportAt(s.trace, i).account == s.d.metered[key].account;
      assert SameSecondsBefore(s.trace, e);
    }
  }

  // ---- Where every report is -----------------------------------------------------------

  ghost function KeysOf(queue: seq<UsageEvent>): set<string> {
    set ev | ev in queue :: ev.key
  }

  ghost function PendingKeys(d: Delivery): set<string> {
    KeysOf(d.queue) + if d.worker.Posting? then {d.worker.ev.key} else {}
  }

  /** Everything pending is metered, and pending once. */
  ghost predicate QueueInv(c: Config, d: Delivery) {
    && |d.queue| <= c.queueSize
    && (forall ev :: ev in d.queue ==> ev.key in d.metered && d.metered[ev.key] == ev)
    && (forall i, j :: 0 <= i < j < |d.queue| ==> d.queue[i].key != d.queue[j].key)
    && (d.worker.Posting? ==>
          && d.worker.ev.key in d.metered && d.metered[d.worker.ev.key] == d.worker.ev
          && d.worker.ev.key !in KeysOf(d.queue))
  }

  /** The control plane has booked nothing the receiver did not report. */
  ghost predicate BookedInv(d: Delivery) {
    forall k :: k in d.booked ==> k in d.metered && d.booked[k] == d.metered[k]
  }

  /** Everything metered is booked, pending or lost; nothing is both pending and lost. */
  ghost predicate PlaceInv(d: Delivery) {
    && BookedInv(d)
    && (forall k :: k in d.lost ==> k in d.metered && k !in PendingKeys(d))
    && (forall k :: k in d.metered ==> k in d.booked || k in PendingKeys(d) || k in d.lost)
    && d.dropped == |d.lost|
  }

  ghost predicate DeliveryInv(c: Config, d: Delivery) {
    QueueInv(c, d) && PlaceInv(d)
  }

  ghost predicate Inv(c: Config, s: System) {
    Attributed(c.sep, s.trace) && KeysInv(s.trace, s.d.metered) && DeliveryInv(c, s.d)
  }

  lemma ReportsStay(trace: seq<Event>, e: Event)
    ensures forall i :: 0 <= i < |trace| ==> ReportAt(trace + [e], i) == ReportAt(trace, i)
    ensures ReportAt(trace + [e], |trace|) == Reported(RunTrace(trace), e)
  {
    forall i | 0 <= i <= |trace| ensures (trace + [e])[..i] == trace[..i] {}
    assert trace[..|trace|] == trace;
  }

  lemma KeyStays(key: string, account: string, trace: seq<Event>, e: Event)
    requires KeyOfReport(key, account, trace)
    ensures KeyOfReport(key, account, trace + [e])
  {
    ReportsStay(trace, e);
    var i :| 0 <= i < |trace| && ReportAt(trace, i).Report?
             && ReportAt(trace, i).key == key && ReportAt(trace, i).account == account;
    assert ReportAt(trace + [e], i) == ReportAt(trace, i);
  }

  /** The books after one more event, `metered` having taken its report if there is one. */
  lemma WebhookKeepsKeys(trace: seq<Event>, metered: map<string, UsageEvent>, e: Event, after: map<string, UsageEvent>)
    requires KeysInv(trace, metered)
    requires var r := Reported(RunTrace(trace), e);
             after == if r.Report? then metered[r.key := EventOf(r)] else metered
    ensures KeysInv(trace + [e], after)
  {
    var r := Reported(RunTrace(trace), e);
    ReportsStay(trace, e);
    forall k | k in after
      ensures after[k].key == k && after[k].count > 0 && KeyOfReport(k, after[k].account, trace + [e])
    {
      if r.Report? && k == r.key {
        assert ReportAt(trace + [e], |trace|) == r;
      } else {
        KeyStays(k, metered[k].account, trace, e);
      }
    }
  }

  lemma AcceptKeepsQueue(c: Config, d: Delivery, ev: UsageEvent)
    requires QueueInv(c, d) && ev.key !in d.metered
    ensures QueueInv(c, Accept(c, d, ev))
    ensures PendingKeys(Accept(c, d, ev)) == PendingKeys(d) + if |d.queue| < c.queueSize then {ev.key} else {}
  {
    var d' := Accept(c, d, ev);
    assert forall k :: k in d.metered ==> k in d'.metered && d'.metered[k] == d.metered[k];
    if |d.queue| < c.queueSize {
      assert KeysOf(d'.queue) == KeysOf(d.queue) + {ev.key};
    }
  }

  lemma MeteringKeepsPlaces(d: Delivery, d': Delivery, ev: UsageEvent)
    requires PlaceInv(d) && ev.key !in d.metered && PendingKeys(d) <= d.metered.Keys
    requires d'.metered == d.metered[ev.key := ev] && d'.booked == d.booked
    requires || (PendingKeys(d') == PendingKeys(d) + {ev.key} && d'.lost == d.lost && d'.dropped == d.dropped)
             || (PendingKeys(d') == PendingKeys(d) && d'.lost == d.lost + {ev.key} && d'.dropped == d.dropped + 1)
    ensures PlaceInv(d')
  {
    assert ev.key !in d.lost;
  }

  lemma AcceptKeepsPlaces(c: Config, d: Delivery, ev: UsageEvent)
    requires QueueInv(c, d) && PlaceInv(d) && ev.key !in d.metered
    ensures PlaceInv(Accept(c, d, ev))
  {
    AcceptKeepsQueue(c, d, ev);
    PendingIsMetered(c, d);
    MeteringKeepsPlaces(d, Accept(c, d, ev), ev);
  }

  lemma PendingIsMetered(c: Config, d: Delivery)
    requires QueueInv(c, d)
    ensures PendingKeys(d) <= d.metered.Keys
  {}

  lemma TakeKeeps(c: Config, d: Delivery)
    requires QueueInv(c, d) && PlaceInv(d) && d.queue != [] && d.worker.Waiting?
    ensures QueueInv(c, TakeNext(d)) && PlaceInv(TakeNext(d))
  {
    assert d.queue == [d.queue[0]] + d.queue[1..];
    assert KeysOf(d.queue) == {d.queue[0].key} + KeysOf(d.queue[1..]);
    assert PendingKeys(TakeNext(d)) == PendingKeys(d);
  }

  lemma ReceiptKeepsPlaces(d: Delivery)
    requires PlaceInv(d) && d.worker.Posting?
    requires d.worker.ev.key in d.metered && d.metered[d.worker.ev.key] == d.worker.ev
    ensures PlaceInv(d.(booked := Book(d.booked, d.worker.ev)))
  {
    var d' := d.(booked := Book(d.booked, d.worker.ev));
    assert PendingKeys(d') == PendingKeys(d);
    assert forall k :: k in d.booked ==> k in d'.booked;
  }

  lemma SuccessKeepsPlaces(d: Delivery)
    requires PlaceInv(d) && d.worker.Posting? && d.worker.ev.key in d.booked
    ensures PlaceInv(d.(worker := Waiting))
  {
    assert PendingKeys(d) == PendingKeys(d.(worker := Waiting)) + {d.worker.ev.key};
  }

  lemma GivingUpKeepsPlaces(d: Delivery)
    requires PlaceInv(d) && d.worker.Posting? && d.worker.ev.key in d.metered && d.worker.ev.key !in KeysOf(d.queue)
    ensures PlaceInv(GiveUp(d))
  {
    assert PendingKeys(d) == KeysOf(d.queue) + {d.worker.ev.key};
    assert PendingKeys(GiveUp(d)) == KeysOf(d.queue);
  }

  /** The key the worker holds is booked, still held, or lost after the attempt. */
  lemma TryKeepsPlaces(c: Config, d: Delivery, a: Attempt)
    requires QueueInv(c, d) && PlaceInv(d) && d.worker.Posting? && (Judge(a.reply) == Delivered ==> a.received)
    ensures PlaceInv(AfterTry(c, d, a))
  {
    var after := if a.received then d.(booked := Book(d.booked, d.worker.ev)) else d;
    if a.received { ReceiptKeepsPlaces(d); }
    match Judge(a.reply)
    case Delivered => SuccessKeepsPlaces(after);
    case Rejected => GivingUpKeepsPlaces(after);
    case Again =>
      if d.worker.attempt + 1 < c.maxAttempts {
        assert PendingKeys(AfterTry(c, d, a)) == PendingKeys(after);
      } else {
        GivingUpKeepsPlaces(after);
      }
  }

  lemma TryKeepsQueue(c: Config, d: Delivery, a: Attempt)
    requires QueueInv(c, d) && d.worker.Posting?
    ensures QueueInv(c, AfterTry(c, d, a))
  {}

  lemma AcceptMetersTheReport(c: Config, d: Delivery, ev: UsageEvent)
    ensures Accept(c, d, ev).metered == d.metered[ev.key := ev]
  {}

  lemma WebhookKeeps(c: Config, s: System, e: Event)
    requires Inv(c, s) && Can(c, s, Webhook(e)) && Separate(s, Webhook(e))
    ensures Inv(c, Do(c, s, Webhook(e)))
  {
    var r, after := Reported(RunTrace(s.trace), e), Do(c, s, Webhook(e)).d;
    assert Attributed(c.sep, s.trace + [e]);
    if r.Report? {
      KeyIsTaken(c, s, e);
      AcceptMetersTheReport(c, s.d, EventOf(r));
      AcceptKeepsQueue(c, s.d, EventOf(r));
      AcceptKeepsPlaces(c, s.d, EventOf(r));
    }
    WebhookKeepsKeys(s.trace, s.d.metered, e, after.metered);
  }

  lemma TryMetersNothing(c: Config, d: Delivery, a: Attempt)
    requires d.worker.Posting?
    ensures AfterTry(c, d, a).metered == d.metered
  {}

  lemma TryKeeps(c: Config, d: Delivery, a: Attempt)
    requires DeliveryInv(c, d) && d.worker.Posting? && (Judge(a.reply) == Delivered ==> a.received)
    ensures DeliveryInv(c, AfterTry(c, d, a))
  {
    TryKeepsQueue(c, d, a);
    TryKeepsPlaces(c, d, a);
  }

  lemma OnlyWebhooksMeter(c: Config, s: System, a: Action)
    requires Can(c, s, a) && !a.Webhook?
    ensures Do(c, s, a).trace == s.trace && Do(c, s, a).d.metered == s.d.metered
  {
    if a.Try? { TryMetersNothing(c, s.d, a.a); }
  }

  lemma DeliveryStepKeeps(c: Config, s: System, a: Action)
    requires DeliveryInv(c, s.d) && Can(c, s, a) && !a.Webhook?
    ensures DeliveryInv(c, Do(c, s, a).d)
  {
    if a.Take? { TakeKeeps(c, s.d); } else { TryKeeps(c, s.d, a.a); }
  }

  lemma StepKeepsInvariant(c: Config, s: System, a: Action)
    requires Inv(c, s) && Can(c, s, a) && Separate(s, a)
    ensures Inv(c, Do(c, s, a))
  {
    if a.Webhook? {
      WebhookKeeps(c, s, a.e);
    } else {
      OnlyWebhooksMeter(c, s, a);
      DeliveryStepKeeps(c, s, a);
    }
  }

  ghost predicate IsRun(c: Config, states: seq<System>, actions: seq<Action>) {
    && |states| == |actions| + 1
    && states[0] == START
    && forall i :: 0 <= i < |actions| ==> Can(c, states[i], actions[i]) && states[i+1] == Do(c, states[i], actions[i])
  }

  /** The keys metered are those of the reports, whatever the reports. */
  lemma StepKeepsKeys(c: Config, s: System, a: Action)
    requires Attributed(c.sep, s.trace) && KeysInv(s.trace, s.d.metered) && Can(c, s, a)
    ensures var s' := Do(c, s, a); Attributed(c.sep, s'.trace) && KeysInv(s'.trace, s'.d.metered)
  {
    if a.Webhook? {
      var r := Reported(RunTrace(s.trace), a.e);
      if r.Report? { AcceptMetersTheReport(c, s.d, EventOf(r)); }
      WebhookKeepsKeys(s.trace, s.d.metered, a.e, Do(c, s, a).d.metered);
    } else {
      OnlyWebhooksMeter(c, s, a);
    }
  }

  lemma {:induction false} RunKeepsKeys(c: Config, states: seq<System>, actions: seq<Action>, i: nat)
    requires IsRun(c, states, actions) && i < |states|
    ensures Attributed(c.sep, states[i].trace) && KeysInv(states[i].trace, states[i].d.metered)
  {
    if i > 0 {
      RunKeepsKeys(c, states, actions, i - 1);
      StepKeepsKeys(c, states[i-1], actions[i-1]);
    }
  }

  /** At any moment of any run, a report about to be made reuses a key exactly when a lifetime of
      the same room was reported before that started and finished in the same seconds. */
  lemma KeyIsTakenExactly(c: Config, states: seq<System>, actions: seq<Action>, i: nat, e: Event)
    requires IsRun(c, states, actions) && i < |states| && Can(c, states[i], Webhook(e))
    requires Reported(RunTrace(states[i].trace), e).Report?
    ensures Reported(RunTrace(states[i].trace), e).key in states[i].d.metered <==> SameSecondsBefore(states[i].trace, e)
  {
    RunKeepsKeys(c, states, actions, i);
    KeyIsTaken(c, states[i], e);
  }

  /** No two reported lifetimes of a room start in one second and finish in one second. */
  ghost predicate Spaced(states: seq<System>, actions: seq<Action>) {
    |states| == |actions| + 1 && forall i :: 0 <= i < |actions| ==> Separate(states[i], actions[i])
  }

  lemma {:induction false} RunKeepsInvariant(c: Config, states: seq<System>, actions: seq<Action>, i: nat)
    requires IsRun(c, states, actions) && Spaced(states, actions) && i < |states|
    ensures Inv(c, states[i])
  {
    if i > 0 {
      RunKeepsInvariant(c, states, actions, i - 1);
      StepKeepsInvariant(c, states[i-1], actions[i-1]);
    }
  }
}
