/** Participant-minute metering: webhook events open and close spans; what is billed is the area
    under the room's occupancy curve. Times are Unix nanoseconds; the Go code's float64 minutes
    are exact nanoseconds here. */
module UsageMetering {
  import MapSum
  import UsageKey

  const NANOS_PER_MINUTE: int := 60_000_000_000

  datatype Kind = RoomStarted | ParticipantJoined | ParticipantLeft | RoomFinished | OtherEvent

  /** One verified webhook, attributed to a tenant. `now` is the clock apply reads before taking
      the lock; `created` is the later reading roomFor takes when it has to create the room. */
  datatype Event = Event(kind: Kind, room: string, tenant: string, shortRoom: string,
                         identity: string, now: int, created: int)

  datatype RoomUsage = RoomUsage(
    tenant: string, shortRoom: string, startedAt: int,
    live: map<string, int>, accum: nat, peakLive: nat, joinsTotal: nat)

  /** The labels of the room-transition counter. */
  datatype MeetRoom = Started | Finished

  type Rooms = map<string, RoomUsage>

  datatype Report = NoReport | Report(account: string, minutes: nat, key: string)

  /** minutesBetween, in nanoseconds: clamped at zero. */
  function SpanNanos(start: int, end: int): nat {
    if end <= start then 0 else end - start
  }

  /** roundMinutes: to the nearest minute, halves up. */
  function RoundMinutes(nanos: nat): nat {
    (nanos + NANOS_PER_MINUTE / 2) / NANOS_PER_MINUTE
  }

  function NewRoom(e: Event, startedAt: int): RoomUsage {
    RoomUsage(e.tenant, e.shortRoom, startedAt, map[], 0, 0, 0)
  }

  function RoomFor(rooms: Rooms, e: Event): RoomUsage {
    if e.room in rooms then rooms[e.room] else NewRoom(e, e.created)
  }

  ghost function OpenSpans(live: map<string, int>, t: int): map<string, int> {
    map who | who in live :: SpanNanos(live[who], t) as int
  }

  /** Accrued plus open spans: what Snapshot shows and what a finish bills. */
  ghost function MeteredAt(ru: RoomUsage, t: int): int {
    ru.accum + MapSum.Sum(OpenSpans(ru.live, t))
  }

  lemma MeteredIsNatural(ru: RoomUsage, t: int)
    ensures MeteredAt(ru, t) >= 0
  {
    MapSum.NonNegative(OpenSpans(ru.live, t));
  }

  ghost function Billed(ru: RoomUsage, t: int): nat {
    MeteredIsNatural(ru, t);
    RoundMinutes(MeteredAt(ru, t))
  }

  function Joined(ru: RoomUsage, who: string, now: int): RoomUsage {
    var r := if who in ru.live then ru
             else ru.(live := ru.live[who := now], joinsTotal := ru.joinsTotal + 1);
    if |r.live| > r.peakLive then r.(peakLive := |r.live|) else r
  }

  function Left(ru: RoomUsage, who: string, now: int): RoomUsage {
    if who in ru.live
    then ru.(accum := ru.accum + SpanNanos(ru.live[who], now), live := ru.live - {who})
    else ru
  }

  /** The tracked rooms after one event. */
  function After(rooms: Rooms, e: Event): Rooms {
    match e.kind
    case RoomStarted =>
      rooms[e.room := (if e.room in rooms then rooms[e.room] else NewRoom(e, e.now)).(startedAt := e.now)]
    case ParticipantJoined =>
      var ru := RoomFor(rooms, e);
      rooms[e.room := if e.identity == "" then ru else Joined(ru, e.identity, e.now)]
    case ParticipantLeft =>
      var ru := RoomFor(rooms, e);
      rooms[e.room := if e.identity == "" then ru else Left(ru, e.identity, e.now)]
    case RoomFinished => rooms - {e.room}
    case OtherEvent => rooms
  }

  /** What the event hands to the reporter. */
  ghost function Reported(rooms: Rooms, e: Event): Report {
    if e.kind.RoomFinished? && e.room in rooms && Billed(rooms[e.room], e.now) > 0
    then var ru := rooms[e.room];
         Report(ru.tenant, Billed(ru, e.now), UsageKey.KeyFor(ru.tenant, ru.shortRoom, ru.startedAt, e.now))
    else NoReport
  }

  datatype SnapshotRow = SnapshotRow(tenant: string, room: string, startedAtUnix: int, nanos: int,
                                     liveCount: nat, peak: nat, totalJoins: nat)

  ghost function Row(ru: RoomUsage, t: int): SnapshotRow {
    SnapshotRow(ru.tenant, ru.shortRoom, UsageKey.UnixOrZero(ru.startedAt), MeteredAt(ru, t),
                |ru.live|, ru.peakLive, ru.joinsTotal)
  }

  /** The rows are those of the tenant's rooms among `among`, each room once, listed by `ids`. */
  ghost predicate RowsOf(rooms: Rooms, among: set<string>, tenant: string, now: int,
                         ids: seq<string>, rows: seq<SnapshotRow>)
    requires among <= rooms.Keys
  {
    && |rows| == |ids| && (forall i, j :: 0 <= i < j < |ids| ==> ids[i] != ids[j])
    && (forall id :: id in ids <==> id in among && rooms[id].tenant == tenant)
    && forall i :: 0 <= i < |ids| ==> rows[i] == Row(rooms[ids[i]], now)
  }

  /** Adds up the open spans in whatever order the map yields them. */
  method SumOpenSpans(live: map<string, int>, t: int) returns (total: nat)
    ensures total == MapSum.Sum(OpenSpans(live, t))
  {
    total := 0;
    var todo := live.Keys;
    ghost var spans := OpenSpans(live, t);
    ghost var left := spans;
    while todo != {}
      invariant todo == left.Keys && todo <= live.Keys
      invariant forall who :: who in left ==> left[who] == spans[who]
      invariant total + MapSum.Sum(left) == MapSum.Sum(spans)
      decreases |todo|
    {
      var who :| who in todo;
      MapSum.SplitAt(left, who);
      total := total + SpanNanos(live[who], t);
      todo := todo - {who};
      left := left - {who};
    }
    assert left == map[];
  }

  class UsageReceiver {
    var rooms: Rooms
    var meetMinutes: map<string, nat>
    var meetRooms: map<MeetRoom, nat>

    constructor ()
      ensures rooms == map[] && meetMinutes == map[] && meetRooms == map[]
    {
      rooms, meetMinutes, meetRooms := map[], map[], map[];
    }

    method Apply(e: Event) returns (report: Report)
      modifies this
      ensures rooms == After(old(rooms), e)
      ensures report == Reported(old(rooms), e)
      ensures meetMinutes == CountMinutes(old(meetMinutes), old(rooms), e)
      ensures meetRooms == CountRoom(old(meetRooms), e)
    {
      report := NoReport;
      match e.kind {
        case RoomStarted =>
          var ru := if e.room in rooms then rooms[e.room] else NewRoom(e, e.now);
          rooms := rooms[e.room := ru.(startedAt := e.now)];
          ObserveMeetRoom(Started);
        case ParticipantJoined =>
          var ru := RoomFor(rooms, e);
          if e.identity == "" {
            rooms := rooms[e.room := ru];
            return;
          }
          if e.identity !in ru.live {
            ru := ru.(live := ru.live[e.identity := e.now], joinsTotal := ru.joinsTotal + 1);
          }
          if |ru.live| > ru.peakLive {
            ru := ru.(peakLive := |ru.live|);
          }
          rooms := rooms[e.room := ru];
        case ParticipantLeft =>
          var ru := RoomFor(rooms, e);
          if e.identity == "" {
            rooms := rooms[e.room := ru];
            return;
          }
          if e.identity in ru.live {
            ru := ru.(accum := ru.accum + SpanNanos(ru.live[e.identity], e.now), live := ru.live - {e.identity});
          }
          rooms := rooms[e.room := ru];
        case RoomFinished =>
          if e.room !in rooms {
            ObserveMeetRoom(Finished);
            return;
          }
          var ru := rooms[e.room];
          var open := SumOpenSpans(ru.live, e.now);
          ru := ru.(accum := ru.accum + open, live := map[]);
          var minutes := RoundMinutes(ru.accum);
          ObserveMeetRoom(Finished);
          ObserveMeetMinutes(ru.tenant, minutes);
          if minutes > 0 {
            report := Report(ru.tenant, minutes, UsageKey.KeyFor(ru.tenant, ru.shortRoom, ru.startedAt, e.now));
          }
          rooms := rooms - {e.room};
        case OtherEvent =>
      }
    }

    method ObserveMeetRoom(transition: MeetRoom)
      modifies this`meetRooms
      ensures meetRooms == OneMore(old(meetRooms), transition)
    {
      meetRooms := meetRooms[transition := (if transition in meetRooms then meetRooms[transition] else 0) + 1];
    }

    method ObserveMeetMinutes(tenant: string, minutes: nat)
      modifies this`meetMinutes
      ensures meetMinutes == AddMinutes(old(meetMinutes), tenant, minutes)
    {
      if tenant == "" || minutes <= 0 {
        return;
      }
      meetMinutes := meetMinutes[tenant := (if tenant in meetMinutes then meetMinutes[tenant] else 0) + minutes];
    }

    /** One row per tracked room of the tenant, in any order. */
    method Snapshot(tenant: string, now: int) returns (rows: seq<SnapshotRow>)
      ensures exists ids :: RowsOf(rooms, rooms.Keys, tenant, now, ids, rows)
    {
      rows := [];
      ghost var ids := [];
      var todo := rooms.Keys;
      while todo != {}
        invariant todo <= rooms.Keys
        invariant RowsOf(rooms, rooms.Keys - todo, tenant, now, ids, rows)
      {
        var id :| id in todo;
        var ru := rooms[id];
        if ru.tenant == tenant {
          var open := SumOpenSpans(ru.live, now);
          rows := rows + [SnapshotRow(ru.tenant, ru.shortRoom, UsageKey.UnixOrZero(ru.startedAt), ru.accum + open,
                                      |ru.live|, ru.peakLive, ru.joinsTotal)];
          ids := ids + [id];
        }
        todo := todo - {id};
      }
      assert rooms.Keys - todo == rooms.Keys;
    }
  }

  function OneMore(m: map<MeetRoom, nat>, transition: MeetRoom): map<MeetRoom, nat> {
    m[transition := (if transition in m then m[transition] else 0) + 1]
  }

  /** Every start and every finish counts, tracked room or not. */
  function CountRoom(m: map<MeetRoom, nat>, e: Event): map<MeetRoom, nat> {
    if !e.kind.RoomStarted? && !e.kind.RoomFinished? then m
    else
      OneMore(m, if e.kind.RoomStarted? then Started else Finished)
  }

  function AddMinutes(m: map<string, nat>, tenant: string, minutes: nat): map<string, nat> {
    if tenant == "" || minutes == 0 then m
    else m[tenant := (if tenant in m then m[tenant] else 0) + minutes]
  }

  ghost function CountMinutes(m: map<string, nat>, rooms: Rooms, e: Event): map<string, nat> {
    if e.kind.RoomFinished? && e.room in rooms
    then AddMinutes(m, rooms[e.room].tenant, Billed(rooms[e.room], e.now))
    else m
  }
}
