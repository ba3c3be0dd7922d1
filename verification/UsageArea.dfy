/** What metering means: over any trace of webhooks, accrued plus open spans are the area under
    the room's occupancy curve, plus exactly what the clamp adds when stamps run backwards. */
module UsageArea {
  import opened UsageMetering
  import MapSum

  function RunTrace(trace: seq<Event>): Rooms {
    if trace == [] then map[] else After(RunTrace(trace[..|trace|-1]), trace[|trace|-1])
  }

  ghost function LiveOf(rooms: Rooms, room: string): map<string, int> {
    if room in rooms then rooms[room].live else map[]
  }

  ghost function AccumOf(rooms: Rooms, room: string): nat {
    if room in rooms then rooms[room].accum else 0
  }

  ghost function Metered(trace: seq<Event>, room: string, t: int): int {
    AccumOf(RunTrace(trace), room) + MapSum.Sum(OpenSpans(LiveOf(RunTrace(trace), room), t))
  }

  /** What one event does to the spans of one room, tracked or not. */
  function LiveAfter(live: map<string, int>, e: Event, room: string): map<string, int> {
    if e.room != room then live
    else if e.kind.RoomFinished? then map[]
    else if e.kind.ParticipantJoined? && e.identity != "" && e.identity !in live then live[e.identity := e.now]
    else if e.kind.ParticipantLeft? && e.identity != "" then live - {e.identity}
    else live
  }

  function AccumAfter(live: map<string, int>, accum: nat, e: Event, room: string): nat {
    if e.room != room then accum
    else if e.kind.RoomFinished? then 0
    else if e.kind.ParticipantLeft? && e.identity != "" && e.identity in live
    then accum + SpanNanos(live[e.identity], e.now)
    else accum
  }

  lemma AfterOneRoom(rooms: Rooms, e: Event, room: string)
    ensures LiveOf(After(rooms, e), room) == LiveAfter(LiveOf(rooms, room), e, room)
    ensures AccumOf(After(rooms, e), room) == AccumAfter(LiveOf(rooms, room), AccumOf(rooms, room), e, room)
  {}

  // ---- Presence, read off the trace ----------------------------------------------------

  predicate Joins(e: Event, room: string, who: string) {
    e.kind.ParticipantJoined? && e.room == room && e.identity == who != ""
  }

  predicate Parts(e: Event, room: string, who: string) {
    e.room == room && (e.kind.RoomFinished? || (e.kind.ParticipantLeft? && e.identity == who))
  }

  /** Somebody is in the room when they joined it and nothing since has taken them out. */
  ghost predicate Present(trace: seq<Event>, room: string, who: string) {
    exists i :: 0 <= i < |trace| && Joins(trace[i], room, who)
                && forall j :: i < j < |trace| ==> !Parts(trace[j], room, who)
  }

  ghost function Occupants(trace: seq<Event>, room: string): set<string> {
    set i | 0 <= i < |trace| && Present(trace, room, trace[i].identity) :: trace[i].identity
  }

  lemma PresenceStep(front: seq<Event>, e: Event, room: string, who: string)
    ensures Present(front + [e], room, who) <==>
            Joins(e, room, who) || (Present(front, room, who) && !Parts(e, room, who))
  {
    var trace, n := front + [e], |front|;
    if Joins(e, room, who) { assert Joins(trace[n], room, who); }
    if Present(front, room, who) && !Parts(e, room, who) {
      var i :| 0 <= i < n && Joins(front[i], room, who) && forall j :: i < j < n ==> !Parts(front[j], room, who);
      assert Joins(trace[i], room, who);
      assert forall j :: i < j < n ==> trace[j] == front[j];
    }
    if Present(trace, room, who) && !Joins(e, room, who) {
      var i :| 0 <= i <= n && Joins(trace[i], room, who) && forall j :: i < j <= n ==> !Parts(trace[j], room, who);
      assert Joins(front[i], room, who) && !Parts(trace[n], room, who);
      assert forall j :: i < j < n ==> front[j] == trace[j];
    }
  }

  lemma NobodyWithoutName(trace: seq<Event>, room: string)
    ensures !Present(trace, room, "")
  {}

  lemma OccupantsArePresent(trace: seq<Event>, room: string)
    ensures forall who :: who in Occupants(trace, room) <==> Present(trace, room, who)
  {}

  /** The stamp of the join that began the current stay. */
  ghost function JoinedSince(trace: seq<Event>, room: string, who: string): int
    requires Present(trace, room, who)
  {
    var n := |trace| - 1;
    if Present(trace[..n], room, who) then JoinedSince(trace[..n], room, who) else trace[n].now
  }

  /** A span map tracks one participant of a trace. */
  ghost predicate Tracks(live: map<string, int>, trace: seq<Event>, room: string, who: string) {
    (who in live <==> Present(trace, room, who))
    && (who in live ==> live[who] == JoinedSince(trace, room, who))
  }

  lemma TrackStep(live: map<string, int>, front: seq<Event>, e: Event, room: string, who: string)
    requires Tracks(live, front, room, who)
    ensures Tracks(LiveAfter(live, e, room), front + [e], room, who)
  {
    assert (front + [e])[..|front|] == front;
    PresenceStep(front, e, room, who);
    NobodyWithoutName(front, room);
  }

  lemma {:induction false} LiveTracks(trace: seq<Event>, room: string, who: string)
    ensures Tracks(LiveOf(RunTrace(trace), room), trace, room, who)
  {
    if trace != [] {
      var front, e := trace[..|trace|-1], trace[|trace|-1];
      assert trace == front + [e];
      LiveTracks(front, room, who);
      AfterOneRoom(RunTrace(front), e, room);
      TrackStep(LiveOf(RunTrace(front), room), front, e, room, who);
    }
  }

  /** The tracked spans are the stays. */
  lemma LiveIsPresence(trace: seq<Event>, room: string)
    ensures LiveOf(RunTrace(trace), room).Keys == Occupants(trace, room)
    ensures forall who :: who in LiveOf(RunTrace(trace), room) ==>
              Present(trace, room, who) && LiveOf(RunTrace(trace), room)[who] == JoinedSince(trace, room, who)
  {
    OccupantsArePresent(trace, room);
    var live := LiveOf(RunTrace(trace), room);
    forall who
      ensures who in live <==> Present(trace, room, who)
      ensures who in live ==> Present(trace, room, who) && live[who] == JoinedSince(trace, room, who)
    {
      LiveTracks(trace, room, who);
    }
  }

  // ---- Area and skew -------------------------------------------------------------------

  /** The integral of the occupancy up to time t since the room last finished: occupancy is
      constant between events. */
  ghost function Area(trace: seq<Event>, room: string, t: int): int {
    if trace == [] then 0 else
      var front, e := trace[..|trace|-1], trace[|trace|-1];
      (if e.kind.RoomFinished? && e.room == room then 0 else Area(front, room, e.now))
      + |Occupants(trace, room)| * (t - e.now)
  }

  /** How far a span runs backwards. */
  function Backwards(start: int, end: int): nat {
    if end < start then start - end else 0
  }

  /** What the clamp has added to the spans already closed since the room last finished. */
  ghost function ClosedSkew(trace: seq<Event>, room: string): nat {
    if trace == [] then 0 else
      var front, e := trace[..|trace|-1], trace[|trace|-1];
      if e.kind.RoomFinished? && e.room == room then 0
      else if e.kind.ParticipantLeft? && e.room == room && Present(front, room, e.identity)
      then ClosedSkew(front, room) + Backwards(JoinedSince(front, room, e.identity), e.now)
      else ClosedSkew(front, room)
  }

  ghost function BackwardSpans(live: map<string, int>, t: int): map<string, int> {
    map who | who in live :: Backwards(live[who], t) as int
  }

  /** What the clamp adds in all, at time t. */
  ghost function Skew(trace: seq<Event>, room: string, t: int): int {
    ClosedSkew(trace, room) + MapSum.Sum(BackwardSpans(LiveOf(RunTrace(trace), room), t))
  }

  ghost function SignedSpans(live: map<string, int>, t: int): map<string, int> {
    map who | who in live :: t - live[who]
  }

  /** Time passing adds the head count, once per nanosecond. */
  lemma SpansGrow(live: map<string, int>, s: int, t: int)
    ensures MapSum.Sum(SignedSpans(live, t)) == MapSum.Sum(SignedSpans(live, s)) + |live| * (t - s)
  {
    var step := map who | who in live :: t - s;
    MapSum.Constant(step, t - s);
    assert step.Keys == live.Keys;
    assert |step| == |live| by { assert |step.Keys| == |live.Keys|; }
    MapSum.Pointwise(SignedSpans(live, s), step, SignedSpans(live, t));
  }

  lemma SpanJoins(live: map<string, int>, who: string, now: int)
    requires who !in live
    ensures MapSum.Sum(SignedSpans(live[who := now], now)) == MapSum.Sum(SignedSpans(live, now))
  {
    MapSum.AddKey(SignedSpans(live, now), who, 0);
    assert SignedSpans(live[who := now], now) == SignedSpans(live, now)[who := 0];
  }

  lemma SpanLeaves(live: map<string, int>, who: string, now: int)
    requires who in live
    ensures MapSum.Sum(SignedSpans(live - {who}, now)) == MapSum.Sum(SignedSpans(live, now)) - (now - live[who])
  {
    MapSum.SplitAt(SignedSpans(live, now), who);
    assert SignedSpans(live - {who}, now) == SignedSpans(live, now) - {who};
  }

  /** One event moves nothing but the clamp into the signed total at its own stamp. */
  lemma EventKeepsSignedTotal(front: seq<Event>, e: Event, room: string)
    requires !(e.kind.RoomFinished? && e.room == room)
    ensures SignedTotal(front + [e], room, e.now) == SignedTotal(front, room, e.now)
  {
    var live := LiveOf(RunTrace(front), room);
    assert (front + [e])[..|front|] == front;
    AfterOneRoom(RunTrace(front), e, room);
    if e.room == room && e.identity != "" {
      LiveTracks(front, room, e.identity);
      if e.kind.ParticipantJoined? && e.identity !in live { SpanJoins(live, e.identity, e.now); }
      if e.kind.ParticipantLeft? && e.identity in live { SpanLeaves(live, e.identity, e.now); }
      if e.kind.ParticipantLeft? && e.identity !in live { assert live - {e.identity} == live; }
    } else {
      NobodyWithoutName(front, room);
    }
  }

  /** Accrued time without the clamp's additions, and open spans signed. */
  ghost function SignedTotal(trace: seq<Event>, room: string, t: int): int {
    AccumOf(RunTrace(trace), room) - ClosedSkew(trace, room)
    + MapSum.Sum(SignedSpans(LiveOf(RunTrace(trace), room), t))
  }

  lemma SignedTotalGrows(trace: seq<Event>, room: string, s: int, t: int)
    ensures SignedTotal(trace, room, t) == SignedTotal(trace, room, s) + |Occupants(trace, room)| * (t - s)
  {
    var live := LiveOf(RunTrace(trace), room);
    SpansGrow(live, s, t);
    LiveIsPresence(trace, room);
    assert |live| == |live.Keys| == |Occupants(trace, room)|;
  }

  lemma SignedTotalStartsOver(front: seq<Event>, e: Event, room: string)
    requires e.kind.RoomFinished? && e.room == room
    ensures SignedTotal(front + [e], room, e.now) == 0
  {
    assert (front + [e])[..|front|] == front;
    assert SignedSpans(LiveOf(RunTrace(front + [e]), room), e.now) == map[];
  }

  lemma SignedTotalAtStamp(front: seq<Event>, e: Event, room: string)
    ensures SignedTotal(front + [e], room, e.now)
         == if e.kind.RoomFinished? && e.room == room then 0 else SignedTotal(front, room, e.now)
  {
    if e.kind.RoomFinished? && e.room == room {
      SignedTotalStartsOver(front, e, room);
    } else {
      EventKeepsSignedTotal(front, e, room);
    }
  }

  lemma {:induction false} SignedTotalIsArea(trace: seq<Event>, room: string, t: int)
    ensures SignedTotal(trace, room, t) == Area(trace, room, t)
  {
    if trace == [] {
      assert SignedSpans(map[], t) == map[];
    } else {
      var front, e := trace[..|trace|-1], trace[|trace|-1];
      assert trace == front + [e];
      SignedTotalGrows(trace, room, e.now, t);
      SignedTotalAtStamp(front, e, room);
      SignedTotalIsArea(front, room, e.now);
    }
  }

  /** For every trace, whatever the stamps: metered time is the area plus the skew. */
  lemma MeteringIsAreaPlusSkew(trace: seq<Event>, room: string, t: int)
    ensures Metered(trace, room, t) == Area(trace, room, t) + Skew(trace, room, t)
  {
    var live := LiveOf(RunTrace(trace), room);
    SignedTotalIsArea(trace, room, t);
    MapSum.Pointwise(SignedSpans(live, t), BackwardSpans(live, t), OpenSpans(live, t));
  }

  // ---- Clocks that do not run backwards ------------------------------------------------

  ghost predicate Ordered(trace: seq<Event>, t: int) {
    (forall i, j :: 0 <= i < j < |trace| ==> trace[i].now <= trace[j].now)
    && (forall i :: 0 <= i < |trace| ==> trace[i].now <= t)
  }

  lemma {:induction false} StaysBeganBefore(trace: seq<Event>, room: string, who: string, t: int)
    requires Ordered(trace, t) && Present(trace, room, who)
    ensures JoinedSince(trace, room, who) <= t
  {
    var n := |trace| - 1;
    if Present(trace[..n], room, who) { StaysBeganBefore(trace[..n], room, who, t); }
  }

  lemma {:induction false} NoClosedSkew(trace: seq<Event>, room: string, t: int)
    requires Ordered(trace, t)
    ensures ClosedSkew(trace, room) == 0
  {
    if trace != [] {
      var front, e := trace[..|trace|-1], trace[|trace|-1];
      NoClosedSkew(front, room, e.now);
      if Present(front, room, e.identity) { StaysBeganBefore(front, room, e.identity, e.now); }
    }
  }

  /** With non-decreasing stamps, metered time is exactly the area under the occupancy curve. */
  lemma MeteringIsArea(trace: seq<Event>, room: string, t: int)
    requires Ordered(trace, t)
    ensures Metered(trace, room, t) == Area(trace, room, t)
  {
    var live := LiveOf(RunTrace(trace), room);
    MeteringIsAreaPlusSkew(trace, room, t);
    NoClosedSkew(trace, room, t);
    LiveIsPresence(trace, room);
    forall who | who in live ensures BackwardSpans(live, t)[who] == 0 {
      StaysBeganBefore(trace, room, who, t);
    }
    MapSum.Constant(BackwardSpans(live, t), 0);
  }

  lemma NearestMinute(nanos: nat)
    ensures var m := RoundMinutes(nanos);
            && nanos - 30_000_000_000 < m * 60_000_000_000 <= nanos + 30_000_000_000
            && (m == 0 <==> nanos < 30_000_000_000)
  {}

  /** A finished room bills its area, to the nearest minute, once: half a minute or more always
      produces a report, less never does. */
  lemma FinishBillsTheArea(trace: seq<Event>, e: Event)
    requires e.kind.RoomFinished? && Ordered(trace, e.now)
    ensures var area, report := Area(trace, e.room, e.now), Reported(RunTrace(trace), e);
            && 0 <= area
            && (report.Report? <==> 2 * area >= NANOS_PER_MINUTE)
            && (report.Report? ==>
                  2 * area - NANOS_PER_MINUTE < 2 * (report.minutes * NANOS_PER_MINUTE) <= 2 * area + NANOS_PER_MINUTE)
            && e.room !in RunTrace(trace + [e])
  {
    MeteringIsArea(trace, e.room, e.now);
    assert (trace + [e])[..|trace|] == trace;
    var rooms := RunTrace(trace);
    if e.room in rooms {
      MeteredIsNatural(rooms[e.room], e.now);
      NearestMinute(MeteredAt(rooms[e.room], e.now));
    } else {
      assert OpenSpans(map[], e.now) == map[];
    }
  }

  // ---- Peak and joins -------------------------------------------------------------------

  /** The largest head count since the room last finished. */
  ghost function PeakOccupancy(trace: seq<Event>, room: string): nat {
    if trace == [] then 0 else
      var front, e := trace[..|trace|-1], trace[|trace|-1];
      if e.kind.RoomFinished? && e.room == room then 0
      else if |Occupants(trace, room)| > PeakOccupancy(front, room) then |Occupants(trace, room)|
      else PeakOccupancy(front, room)
  }

  /** How many stays began since the room last finished. */
  ghost function Arrivals(trace: seq<Event>, room: string): nat {
    if trace == [] then 0 else
      var front, e := trace[..|trace|-1], trace[|trace|-1];
      if e.kind.RoomFinished? && e.room == room then 0
      else if Joins(e, room, e.identity) && !Present(front, room, e.identity) then Arrivals(front, room) + 1
      else Arrivals(front, room)
  }

  ghost function PeakOf(rooms: Rooms, room: string): nat {
    if room in rooms then rooms[room].peakLive else 0
  }

  ghost function JoinsOf(rooms: Rooms, room: string): nat {
    if room in rooms then rooms[room].joinsTotal else 0
  }

  lemma AfterPeak(rooms: Rooms, e: Event, room: string)
    requires |LiveOf(rooms, room)| <= PeakOf(rooms, room)
    ensures var count := |LiveAfter(LiveOf(rooms, room), e, room)|;
            PeakOf(After(rooms, e), room) ==
            if e.kind.RoomFinished? && e.room == room then 0
            else if count > PeakOf(rooms, room) then count else PeakOf(rooms, room)
  {
    var live := LiveOf(rooms, room);
    if e.room == room && e.kind.ParticipantLeft? {
      if e.identity in live { assert |live - {e.identity}| == |live| - 1; }
      else { assert live - {e.identity} == live; }
    }
  }

  lemma AfterJoins(rooms: Rooms, e: Event, room: string)
    ensures JoinsOf(After(rooms, e), room) ==
            if e.kind.RoomFinished? && e.room == room then 0
            else if Joins(e, room, e.identity) && e.identity !in LiveOf(rooms, room) then JoinsOf(rooms, room) + 1
            else JoinsOf(rooms, room)
  {}

  /** What the admin read shows as peak and joins is what the trace says. */
  lemma {:induction false} PeakAndJoins(trace: seq<Event>, room: string)
    ensures PeakOf(RunTrace(trace), room) == PeakOccupancy(trace, room)
    ensures JoinsOf(RunTrace(trace), room) == Arrivals(trace, room)
    ensures |LiveOf(RunTrace(trace), room)| <= PeakOf(RunTrace(trace), room)
  {
    if trace == [] { return; }
    var front, e := trace[..|trace|-1], trace[|trace|-1];
    assert trace == front + [e];
    PeakAndJoins(front, room);
    AfterPeak(RunTrace(front), e, room);
    AfterJoins(RunTrace(front), e, room);
    AfterOneRoom(RunTrace(front), e, room);
    LiveIsPresence(trace, room);
    LiveTracks(front, room, e.identity);
    var live := LiveOf(RunTrace(trace), room);
    assert |live| == |live.Keys| == |Occupants(trace, room)|;
  }
}
