/** When a room is tracked, since when, and what is shown and counted of it, read off the trace of
    webhooks alone. */
module UsageStarts {
  import opened UsageMetering
  import opened UsageArea
  import opened UsageKey

  predicate Begins(e: Event, room: string) {
    e.kind.RoomStarted? && e.room == room
  }

  predicate Ends(e: Event, room: string) {
    e.kind.RoomFinished? && e.room == room
  }

  /** Starts, joins and leaves make a room tracked, a nameless participant's too. */
  predicate Touches(e: Event, room: string) {
    (e.kind.RoomStarted? || e.kind.ParticipantJoined? || e.kind.ParticipantLeft?) && e.room == room
  }

  ghost predicate NoEndAfter(trace: seq<Event>, room: string, i: int) {
    forall j :: i < j < |trace| && 0 <= j ==> !Ends(trace[j], room)
  }

  /** Something touched the room, and it has not finished since. */
  ghost predicate TrackedIn(trace: seq<Event>, room: string) {
    exists i :: 0 <= i < |trace| && Touches(trace[i], room) && NoEndAfter(trace, room, i)
  }

  /** Step i is the room's last start since it last finished. */
  ghost predicate LastStart(trace: seq<Event>, room: string, i: nat) {
    && i < |trace| && Begins(trace[i], room) && NoEndAfter(trace, room, i)
    && forall j :: i < j < |trace| ==> !Begins(trace[j], room)
  }

  /** Step i is the first to touch the room since it last finished. */
  ghost predicate FirstTouch(trace: seq<Event>, room: string, i: nat) {
    && i < |trace| && Touches(trace[i], room) && NoEndAfter(trace, room, i)
    && !TrackedIn(trace[..i], room)
  }

  /** The start of a tracked room: its last start, or else the reading taken when it was first
      touched. */
  ghost function StartOf(trace: seq<Event>, room: string): int {
    if trace == [] then 0 else
      var front, e := trace[..|trace|-1], trace[|trace|-1];
      if Begins(e, room) then e.now
      else if Touches(e, room) && !TrackedIn(front, room) then e.created
      else StartOf(front, room)
  }

  lemma TrackedStep(front: seq<Event>, e: Event, room: string)
    ensures TrackedIn(front + [e], room) <==> Touches(e, room) || (TrackedIn(front, room) && !Ends(e, room))
  {
    var trace, n := front + [e], |front|;
    if Touches(e, room) { assert Touches(trace[n], room) && NoEndAfter(trace, room, n); }
    if TrackedIn(front, room) && !Ends(e, room) {
      var i :| 0 <= i < n && Touches(front[i], room) && NoEndAfter(front, room, i);
      assert Touches(trace[i], room) && NoEndAfter(trace, room, i);
    }
    if TrackedIn(trace, room) && !Touches(e, room) {
      var i :| 0 <= i <= n && Touches(trace[i], room) && NoEndAfter(trace, room, i);
      assert !Ends(trace[n], room);
      assert forall j :: i < j < n ==> front[j] == trace[j];
      assert Touches(front[i], room) && NoEndAfter(front, room, i);
    }
  }

  lemma AfterTracks(rooms: Rooms, e: Event, room: string)
    ensures room in After(rooms, e) <==> Touches(e, room) || (room in rooms && !Ends(e, room))
    ensures room in After(rooms, e) ==>
              After(rooms, e)[room].startedAt == if Begins(e, room) then e.now
                                                 else if room in rooms then rooms[room].startedAt else e.created
  {}

  /** Over every trace: a room is tracked exactly when something touched it since it last finished,
      and its start is the one read off the trace. */
  lemma {:induction false} TrackedSince(trace: seq<Event>, room: string)
    ensures room in RunTrace(trace) <==> TrackedIn(trace, room)
    ensures room in RunTrace(trace) ==> RunTrace(trace)[room].startedAt == StartOf(trace, room)
  {
    if trace != [] {
      var front, e := trace[..|trace|-1], trace[|trace|-1];
      assert trace == front + [e];
      TrackedSince(front, room);
      TrackedStep(front, e, room);
      AfterTracks(RunTrace(front), e, room);
    }
  }

  lemma NoEndStep(front: seq<Event>, e: Event, room: string, i: nat)
    requires i < |front|
    ensures NoEndAfter(front + [e], room, i) <==> NoEndAfter(front, room, i) && !Ends(e, room)
  {
    var trace := front + [e];
    assert trace[|front|] == e;
    assert forall j :: 0 <= j < |front| ==> trace[j] == front[j];
  }

  lemma LastStartStep(front: seq<Event>, e: Event, room: string, i: nat)
    requires i < |front| && !Begins(e, room)
    ensures LastStart(front + [e], room, i) <==> LastStart(front, room, i) && !Ends(e, room)
  {
    var trace := front + [e];
    NoEndStep(front, e, room, i);
    assert forall j :: 0 <= j < |front| ==> trace[j] == front[j];
    assert trace[|front|] == e;
  }

  lemma FirstTouchStep(front: seq<Event>, e: Event, room: string, i: nat)
    requires FirstTouch(front, room, i) && !Ends(e, room)
    ensures FirstTouch(front + [e], room, i)
  {
    NoEndStep(front, e, room, i);
    assert (front + [e])[..i] == front[..i];
  }

  /** An untracked room has no start that counts. */
  lemma NoStartUntracked(trace: seq<Event>, room: string, i: nat)
    requires !TrackedIn(trace, room)
    ensures !LastStart(trace, room, i)
  {
    if i < |trace| && Begins(trace[i], room) { assert Touches(trace[i], room); }
  }

  /** Which step the start of a tracked room was read at. */
  lemma {:induction false} StartIsRead(trace: seq<Event>, room: string) returns (i: nat)
    requires TrackedIn(trace, room)
    ensures || (LastStart(trace, room, i) && StartOf(trace, room) == trace[i].now)
            || (FirstTouch(trace, room, i) && StartOf(trace, room) == trace[i].created
                && forall j: nat :: !LastStart(trace, room, j))
  {
    var n := |trace| - 1;
    var front, e := trace[..n], trace[n];
    assert trace == front + [e];
    TrackedStep(front, e, room);
    if Begins(e, room) {
      i := n;
    } else {
      if TrackedIn(front, room) { i := StartIsRead(front, room); } else { i := n; }
      forall j: nat | j < n ensures LastStart(trace, room, j) <==> LastStart(front, room, j) && !Ends(e, room) {
        LastStartStep(front, e, room, j);
      }
      if i == n {
        forall j: nat ensures !LastStart(front, room, j) { NoStartUntracked(front, room, j); }
      } else if FirstTouch(front, room, i) {
        FirstTouchStep(front, e, room, i);
      }
    }
  }

  // ---- What is shown and counted ------------------------------------------------------------------

  /** One row of the admin read, over every trace and at every moment. */
  lemma RowReadsTheTrace(trace: seq<Event>, room: string, t: int)
    requires room in RunTrace(trace)
    ensures var row := Row(RunTrace(trace)[room], t);
            && row.startedAtUnix == UnixOrZero(StartOf(trace, room))
            && row.nanos == Area(trace, room, t) + Skew(trace, room, t)
            && row.liveCount == |Occupants(trace, room)|
            && row.peak == PeakOccupancy(trace, room) && row.totalJoins == Arrivals(trace, room)
  {
    TrackedSince(trace, room);
    MeteringIsAreaPlusSkew(trace, room, t);
    PeakAndJoins(trace, room);
    LiveIsPresence(trace, room);
    var live := LiveOf(RunTrace(trace), room);
    assert |live| == |live.Keys|;
  }

  /** The room counter a trace leaves. */
  function RoomsMetric(trace: seq<Event>): map<MeetRoom, nat> {
    if trace == [] then map[] else CountRoom(RoomsMetric(trace[..|trace|-1]), trace[|trace|-1])
  }

  function EventsOf(trace: seq<Event>, kind: Kind): nat {
    if trace == [] then 0
    else EventsOf(trace[..|trace|-1], kind) + if trace[|trace|-1].kind == kind then 1 else 0
  }

  function Count(m: map<MeetRoom, nat>, transition: MeetRoom): nat {
    if transition in m then m[transition] else 0
  }

  /** Starts and finishes are all counted, of tracked rooms or not. */
  lemma {:induction false} TransitionsAreCounted(trace: seq<Event>)
    ensures Count(RoomsMetric(trace), Started) == EventsOf(trace, RoomStarted)
    ensures Count(RoomsMetric(trace), Finished) == EventsOf(trace, RoomFinished)
  {
    if trace != [] { TransitionsAreCounted(trace[..|trace|-1]); }
  }
}
