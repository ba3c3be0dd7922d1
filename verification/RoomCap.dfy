/** The concurrent-room ceiling: a join is checked against a listing, and the SFU creates the
    room some time after. */
module RoomCap {
  import opened Ordering

  datatype Admission = Unbounded | ListError | Existing | RejectedCapacity | NewRoom

  predicate Allows(a: Admission) {
    !a.ListError? && !a.RejectedCapacity?
  }

  datatype Listing = Failed | Rooms(ids: seq<string>)

  /** The verdict on a join, from the listing the room service returned. */
  function Verdict(max: int, configured: bool, listing: Listing, room: string): Admission {
    if !configured || max <= 0 then Unbounded
    else if listing.Failed? then ListError
    else if room in listing.ids then Existing
    else if |listing.ids| >= max then RejectedCapacity
    else NewRoom
  }

  function OneMore(m: map<Admission, nat>, a: Admission): map<Admission, nat> {
    m[a := (if a in m then m[a] else 0) + 1]
  }

  class SignalGate {
    const max: int
    const configured: bool
    var admissions: map<Admission, nat>

    constructor (max: int, configured: bool)
      ensures this.max == max && this.configured == configured && admissions == map[]
    {
      this.max, this.configured, admissions := max, configured, map[];
    }

    method ObserveRoomAdmission(a: Admission)
      modifies this
      ensures admissions == old(admissions)[a := (if a in old(admissions) then old(admissions)[a] else 0) + 1]
    {
      admissions := admissions[a := (if a in admissions then admissions[a] else 0) + 1];
    }

    method EnforceRoomCap(fullRoom: string, listing: Listing) returns (allowed: bool)
      modifies this
      ensures allowed <==> || !configured || max <= 0
                           || (listing.Rooms? && (fullRoom in listing.ids || |listing.ids| < max))
      ensures !configured || max <= 0 ==> admissions == old(admissions)
      ensures configured && max > 0 && listing.Failed? ==> admissions == OneMore(old(admissions), ListError)
      ensures configured && max > 0 && listing.Rooms? ==>
                admissions == OneMore(old(admissions), if fullRoom in listing.ids then Existing
                                                       else if |listing.ids| >= max then RejectedCapacity else NewRoom)
      ensures allowed == Allows(Verdict(max, configured, listing, fullRoom))
    {
      if !configured || max <= 0 {
        return true;
      }
      if listing.Failed? {
        ObserveRoomAdmission(ListError);
        return false;
      }
      var active, already, i := listing.ids, false, 0;
      while i < |active| && !already
        invariant 0 <= i <= |active|
        invariant already ==> fullRoom in active
        invariant !already ==> fullRoom !in active[..i]
      {
        if active[i] == fullRoom {
          already := true;
        }
        i := i + 1;
      }
      assert !already ==> active[..i] == active;
      if already {
        ObserveRoomAdmission(Existing);
        return true;
      }
      if |active| >= max {
        ObserveRoomAdmission(RejectedCapacity);
        return false;
      }
      ObserveRoomAdmission(NewRoom);
      return true;
    }
  }

  // ---- The race ----------------------------------------------------------------------------

  /** `active` are the SFU's rooms, `pending` the admitted joins it has not acted on yet. */
  datatype System = System(active: set<string>, pending: map<nat, string>)

  /** A join takes its listing and is decided; the SFU acts on a pending join, creating the room
      if it is not there; a pending join fails on the way; a room ends. */
  datatype Action =
    | Join(id: nat, room: string, listing: Listing)
    | Create(id: nat)
    | Abandon(id: nat)
    | End(room: string)

  ghost predicate Lists(listing: Listing, active: set<string>) {
    listing.Rooms? ==> Elements(listing.ids) == active && NoDuplicates(listing.ids)
  }

  ghost predicate Can(s: System, a: Action) {
    match a
    case Join(id, _, listing) => id !in s.pending && Lists(listing, s.active)
    case Create(id) => id in s.pending
    case Abandon(id) => id in s.pending
    case End(room) => room in s.active
  }

  ghost function Do(max: int, s: System, a: Action): System
    requires Can(s, a)
  {
    match a
    case Join(id, room, listing) =>
      if Allows(Verdict(max, true, listing, room)) then s.(pending := s.pending[id := room]) else s
    case Create(id) => System(s.active + {s.pending[id]}, s.pending - {id})
    case Abandon(id) => s.(pending := s.pending - {id})
    case End(room) => s.(active := s.active - {room})
  }

  ghost predicate IsRun(max: int, parallel: nat, states: seq<System>, actions: seq<Action>) {
    && |states| == |actions| + 1
    && (forall i :: 0 <= i < |actions| ==> Can(states[i], actions[i]) && states[i+1] == Do(max, states[i], actions[i]))
    && (forall i :: 0 <= i < |states| ==> |states[i].pending| <= parallel)
  }

  /** Exactly who is turned away, in every run: a join whose listing failed, or for a room that is
      not active while at least max rooms are. A turned-away join changes nothing, an admitted one
      is pending. */
  lemma RefusedExactly(max: int, parallel: nat, states: seq<System>, actions: seq<Action>, i: nat)
    requires max > 0 && IsRun(max, parallel, states, actions) && i < |actions| && actions[i].Join?
    ensures var s, a := states[i], actions[i];
            if a.listing.Failed? || (a.room !in s.active && |s.active| >= max)
            then states[i+1] == s
            else states[i+1].active == s.active && states[i+1].pending == s.pending[a.id := a.room]
    ensures actions[i].id in states[i+1].pending <==>
            !(actions[i].listing.Failed? || (actions[i].room !in states[i].active && |states[i].active| >= max))
  {
    assert Can(states[i], actions[i]);
    if actions[i].listing.Rooms? { CountElements(actions[i].listing.ids); }
  }

  /** Active rooms, and those a pending join may still create. */
  ghost function Committed(s: System): set<string> {
    s.active + s.pending.Values
  }

  function Max(a: int, b: int): int {
    if a > b then a else b
  }

  lemma {:induction false} ValuesFit(m: map<nat, string>)
    ensures |m.Values| <= |m|
    decreases |m|
  {
    if m != map[] {
      var k :| k in m;
      var rest := m - {k};
      ValuesFit(rest);
      forall v | v in m.Values ensures v in rest.Values + {m[k]} {
        var x :| x in m && m[x] == v;
        if x != k { assert rest[x] == v; }
      }
      SubsetSize(m.Values, rest.Values + {m[k]});
    }
  }

  /** Only the admission of a new room adds to what is committed, and only below the ceiling. */
  lemma StepCommits(max: int, parallel: nat, s: System, a: Action)
    requires max > 0 && Can(s, a) && |Do(max, s, a).pending| <= parallel
    ensures |Committed(Do(max, s, a))| <= Max(|Committed(s)|, max - 1 + parallel)
  {
    var s' := Do(max, s, a);
    if a.Join? && Verdict(max, true, a.listing, a.room).NewRoom? {
      CountElements(a.listing.ids);
      ValuesFit(s'.pending);
      assert |s'.active + s'.pending.Values| <= |s'.active| + |s'.pending.Values|;
    } else {
      assert Committed(s') <= Committed(s);
      SubsetSize(Committed(s'), Committed(s));
    }
  }

  lemma {:induction false} RunCommits(max: int, parallel: nat, states: seq<System>, actions: seq<Action>, i: nat)
    requires max > 0 && IsRun(max, parallel, states, actions) && i < |states|
    ensures |Committed(states[i])| <= Max(|Committed(states[0])|, max - 1 + parallel)
  {
    if i > 0 {
      RunCommits(max, parallel, states, actions, i - 1);
      assert |states[i].pending| <= parallel;
      StepCommits(max, parallel, states[i-1], actions[i-1]);
    }
  }

  /** If at most `parallel` joins are ever between their listing and the SFU's answer, the box
      never holds more than max - 1 + parallel rooms, or what it was committed to at the start;
      rooms that end and are created again by a pending join included. */
  lemma RoomsStayBounded(max: int, parallel: nat, states: seq<System>, actions: seq<Action>, i: nat)
    requires max > 0 && IsRun(max, parallel, states, actions) && i < |states|
    ensures |states[i].active| <= Max(|states[0].active + states[0].pending.Values|, max - 1 + parallel)
  {
    RunCommits(max, parallel, states, actions, i);
    SubsetSize(states[i].active, Committed(states[i]));
  }

  // ---- The bound is reached ------------------------------------------------------------------

  function Name(i: nat): string {
    seq(i, _ => 'x')
  }

  function Names(n: nat): set<string> {
    set i | 0 <= i < n :: Name(i)
  }

  lemma {:induction false} NamesSize(n: nat)
    ensures |Names(n)| == n
  {
    if n > 0 {
      NamesSize(n - 1);
      forall i | 0 <= i < n - 1 ensures Name(i) != Name(n - 1) { assert |Name(i)| != |Name(n - 1)|; }
      assert Names(n) == Names(n - 1) + {Name(n - 1)};
    }
  }

  function NameList(n: nat): seq<string> {
    seq(n, i requires 0 <= i < n => Name(i))
  }

  lemma NameListLists(n: nat)
    ensures Lists(Rooms(NameList(n)), Names(n))
  {
    var l := NameList(n);
    forall i, j | 0 <= i < j < n ensures l[i] != l[j] { assert |l[i]| != |l[j]|; }
    forall i | 0 <= i < n ensures Name(i) in l { assert l[i] == Name(i); }
  }

  /** The joins from low up to high, each for a room of its own. */
  function Waiting(first: nat, low: nat, high: nat): (m: map<nat, string>)
    ensures forall i :: i in m <==> low <= i < high
    ensures forall i :: i in m ==> m[i] == Name(first + i)
    ensures |m| == if low < high then high - low else 0
  {
    if low >= high then map[] else Waiting(first, low, high - 1)[high - 1 := Name(first + high - 1)]
  }

  ghost function Last(states: seq<System>): System
    requires states != []
  {
    states[|states|-1]
  }

  ghost predicate Leads(max: int, s: System, a: Action, s': System) {
    Can(s, a) && Do(max, s, a) == s'
  }

  lemma Extend(max: int, parallel: nat, states: seq<System>, actions: seq<Action>, a: Action, s': System)
    returns (states': seq<System>, actions': seq<Action>)
    requires IsRun(max, parallel, states, actions) && Leads(max, Last(states), a, s') && |s'.pending| <= parallel
    ensures IsRun(max, parallel, states', actions') && states'[0] == states[0] && Last(states') == s'
  {
    states', actions' := states + [s'], actions + [a];
  }

  lemma NextName(n: nat)
    ensures Names(n + 1) == Names(n) + {Name(n)}
  {}

  lemma OneLess(first: nat, k: nat, high: nat)
    requires k < high
    ensures k in Waiting(first, k, high) && Waiting(first, k, high)[k] == Name(first + k)
    ensures Waiting(first, k + 1, high) == Waiting(first, k, high) - {k}
  {}

  lemma NextJoin(max: int, first: nat, n: nat)
    requires first == max - 1
    ensures Leads(max, System(Names(first), Waiting(first, 0, n)), Join(n, Name(first + n), Rooms(NameList(first))),
                  System(Names(first), Waiting(first, 0, n + 1)))
  {
    NameListLists(first);
    forall j | 0 <= j < first ensures NameList(first)[j] != Name(first + n) {
      assert |NameList(first)[j]| == j;
    }
    assert Verdict(max, true, Rooms(NameList(first)), Name(first + n)).NewRoom?;
    assert Waiting(first, 0, n + 1) == Waiting(first, 0, n)[n := Name(first + n)];
  }

  /** When the SFU has acted on the first k joins. */
  function Opened(first: nat, high: nat, k: nat): System {
    System(Names(first + k), Waiting(first, k, high))
  }

  lemma NextCreate(max: int, first: nat, k: nat, high: nat)
    requires k < high
    ensures Leads(max, Opened(first, high, k), Create(k), Opened(first, high, k + 1))
  {
    NextName(first + k);
    OneLess(first, k, high);
    assert Names(first + k + 1) == Names(first + (k + 1));
  }

  lemma CreateKeepsBound(first: nat, high: nat, k: nat)
    ensures |Opened(first, high, k).pending| <= high
  {}

  /** First the joins list the same rooms, one below the ceiling ... */
  lemma {:induction false} RushIn(max: int, first: nat, parallel: nat, n: nat)
    returns (states: seq<System>, actions: seq<Action>)
    requires first == max - 1 && n <= parallel
    ensures IsRun(max, parallel, states, actions) && states[0] == System(Names(first), map[])
    ensures Last(states) == System(Names(first), Waiting(first, 0, n))
  {
    if n == 0 {
      states, actions := [System(Names(first), map[])], [];
    } else {
      states, actions := RushIn(max, first, parallel, n - 1);
      NextJoin(max, first, n - 1);
      var join := Join(n - 1, Name(first + n - 1), Rooms(NameList(first)));
      states, actions := Extend(max, parallel, states, actions, join, System(Names(first), Waiting(first, 0, n)));
    }
  }

  /** ... and then the SFU acts on them. */
  lemma {:induction false} RushThrough(max: int, first: nat, parallel: nat, k: nat)
    returns (states: seq<System>, actions: seq<Action>)
    requires first == max - 1 && k <= parallel
    ensures IsRun(max, parallel, states, actions) && states[0] == System(Names(first), map[])
    ensures Last(states) == Opened(first, parallel, k)
  {
    if k == 0 {
      states, actions := RushIn(max, first, parallel, parallel);
    } else {
      var before := k - 1;
      states, actions := RushThrough(max, first, parallel, before);
      NextCreate(max, first, before, parallel);
      CreateKeepsBound(first, parallel, before + 1);
      states, actions := Extend(max, parallel, states, actions, Create(before), Opened(first, parallel, before + 1));
    }
  }

  /** With `parallel` joins at once the ceiling is overrun by parallel - 1 rooms. */
  lemma BoundIsReached(max: int, parallel: nat) returns (states: seq<System>, actions: seq<Action>)
    requires max > 0 && parallel > 0
    ensures IsRun(max, parallel, states, actions) && |states[0].active| == max - 1 && states[0].pending == map[]
    ensures |states[|states|-1].active| == max - 1 + parallel
  {
    states, actions := RushThrough(max, max - 1, parallel, parallel);
    NamesSize(max - 1);
    NamesSize(max - 1 + parallel);
  }
}
