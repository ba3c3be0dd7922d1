/** A sweep nobody interrupts: with no webhook between its first and its last step, the protocol
    does exactly what the sequential driver does; and whatever the sequential driver can do, some
    run of the protocol does. */
module RetentionQuiet {
  import opened RecordingLedger
  import opened RetentionPolicy
  import opened RetentionSweep
  import opened RetentionProtocol
  import RetentionRetry
  import UsageKey

  /** So far the ledger is the snapshot, swept over the ids visited. */
  ghost predicate Undisturbed(p: Policy, s: System) {
    s.sweep.Busy? ==>
      var w := s.sweep;
      && s.ledger == Swept(w.snapshot, w.visited, w.gone, UsageKey.UnixSeconds(w.now))
      && w.visited !! w.todo && w.visited + w.todo == SelectedIds(p, w.snapshot.Values, w.now)
      && (!w.cursor.Between? ==> w.cursor.id in w.visited && w.cursor.id !in w.gone)
      && w.gone <= w.visited
  }

  lemma QuietMark(sep: char, p: Policy, s: System, a: Action)
    requires Inv(s) && Undisturbed(p, s) && Can(sep, p, s, a) && a.Mark?
    ensures Undisturbed(p, Do(sep, p, s, a))
  {
    var w := s.sweep;
    SweptOneMore(w.snapshot, s.ledger, w.visited, w.gone, UsageKey.UnixSeconds(w.now), a.id);
  }

  /** Marking an id not visited yet is what the sequential sweep does to it. */
  lemma SweptOneMore(snapshot: Ledger, l: Ledger, visited: set<string>, gone: set<string>, at: int, id: string)
    requires id in snapshot && id !in visited && id !in gone && l == Swept(snapshot, visited, gone, at)
    ensures Swept(snapshot, visited + {id}, gone, at)
            == if snapshot[id].state == Expired then l else WithState(l, id, Expired, at)
  {
    OneMoreSwept(snapshot, visited, gone, at, id);
    assert l[id := l[id]] == l;
  }

  lemma OneMoreGone(l: Ledger, visited: set<string>, gone: set<string>, at: int, id: string)
    requires id in l && id in visited && id !in gone
    ensures Swept(l, visited, gone, at)[id] == SweptEntry(l[id], false, at)
    ensures Swept(l, visited, gone + {id}, at) == Swept(l, visited, gone, at)[id := SweptEntry(l[id], true, at)]
  {}

  lemma QuietRecord(sep: char, p: Policy, s: System, a: Action)
    requires Undisturbed(p, s) && Can(sep, p, s, a) && a.Record?
    ensures Undisturbed(p, Do(sep, p, s, a))
  {
    var w := s.sweep;
    OneMoreGone(w.snapshot, w.visited, w.gone, UsageKey.UnixSeconds(w.now), w.cursor.id);
  }

  lemma QuietBegin(sep: char, p: Policy, s: System, a: Action)
    requires Can(sep, p, s, a) && a.Begin?
    ensures Undisturbed(p, Do(sep, p, s, a))
  {
    assert Swept(s.ledger, {}, {}, UsageKey.UnixSeconds(a.clock)) == s.ledger;
  }

  lemma QuietFinish(p: Policy, s: System)
    requires Undisturbed(p, s) && s.sweep.Busy? && s.sweep.todo == {}
    ensures s.ledger == Swept(s.sweep.snapshot, SelectedIds(p, s.sweep.snapshot.Values, s.sweep.now),
                              s.sweep.gone, UsageKey.UnixSeconds(s.sweep.now))
  {
    assert s.sweep.visited == s.sweep.visited + s.sweep.todo;
  }

  lemma QuietStep(sep: char, p: Policy, s: System, a: Action)
    requires Inv(s) && Undisturbed(p, s) && Can(sep, p, s, a) && !a.Webhook?
    ensures Undisturbed(p, Do(sep, p, s, a))
  {
    match a
    case Begin(_) => QuietBegin(sep, p, s, a);
    case Mark(_) => QuietMark(sep, p, s, a);
    case Answer(_) =>
    case Record => QuietRecord(sep, p, s, a);
    case Finish =>
  }

  // ---- The running result ------------------------------------------------------------------

  /** The ids done with: all visited ones but the one at hand. */
  ghost function Done(w: Sweep): set<string>
    requires w.Busy?
  {
    if w.cursor.Between? then w.visited else w.visited - {w.cursor.id}
  }

  /** The result is the totals of the ids done, and the expiry of the one at hand. */
  ghost predicate ResultSoFar(w: Sweep) {
    w.Busy? ==>
      var total := Totals(w.snapshot, |w.snapshot|, Done(w), w.gone);
      if w.cursor.Between? then w.res == total
      else w.cursor.id in w.snapshot && w.cursor.id in w.visited && w.cursor.id !in w.gone
           && w.res == if w.snapshot[w.cursor.id].state == Expired then total
                       else total.(expired := total.expired + 1)
  }

  lemma ResultBegin(sep: char, p: Policy, s: System, a: Action)
    requires Can(sep, p, s, a) && a.Begin?
    ensures ResultSoFar(Do(sep, p, s, a).sweep)
  {
    NothingSwept(s.ledger, |s.ledger|, {}, 0);
  }

  lemma ResultMark(sep: char, p: Policy, s: System, a: Action)
    requires ResultSoFar(s.sweep) && Can(sep, p, s, a) && a.Mark?
    requires a.id !in s.sweep.visited && a.id !in s.sweep.gone
    ensures ResultSoFar(Do(sep, p, s, a).sweep)
  {
    assert Done(Do(sep, p, s, a).sweep) == s.sweep.visited;
  }

  lemma ResultAnswer(sep: char, p: Policy, s: System, a: Action)
    requires ResultSoFar(s.sweep) && Can(sep, p, s, a) && a.Answer?
    ensures ResultSoFar(Do(sep, p, s, a).sweep)
  {
    var w, id := s.sweep, s.sweep.cursor.id;
    if !a.ok {
      OneMoreTotal(w.snapshot, |w.snapshot|, Done(w), w.gone, id);
      assert Done(w) + {id} == w.visited;
    }
  }

  /** An id not among those done does not change their totals. */
  lemma TotalsIgnore(l: Ledger, examined: nat, done: set<string>, gone: set<string>, id: string)
    requires id !in done
    ensures Totals(l, examined, done, gone + {id}) == Totals(l, examined, done, gone)
  {
    assert done * (gone + {id}) == done * gone && done - (gone + {id}) == done - gone;
  }

  lemma RecordedTotals(w: Sweep, id: string)
    requires w.Busy? && w.cursor == Confirmed(id) && id in w.snapshot && id in w.visited
    ensures Totals(w.snapshot, |w.snapshot|, w.visited, w.gone + {id})
         == Tally(Totals(w.snapshot, |w.snapshot|, Done(w), w.gone), w.snapshot[id], true)
  {
    TotalsIgnore(w.snapshot, |w.snapshot|, Done(w), w.gone, id);
    OneMoreTotal(w.snapshot, |w.snapshot|, Done(w), w.gone + {id}, id);
    assert Done(w) + {id} == w.visited;
  }

  lemma ResultRecord(sep: char, p: Policy, s: System, a: Action)
    requires ResultSoFar(s.sweep) && Can(sep, p, s, a) && a.Record?
    ensures ResultSoFar(Do(sep, p, s, a).sweep)
  {
    RecordedTotals(s.sweep, s.sweep.cursor.id);
  }

  // ---- From Begin to Finish ------------------------------------------------------------------

  /** The sweep that began in state s0 at clock `now` is under way, undisturbed. */
  ghost predicate UnderWay(p: Policy, s0: System, now: int, s: System) {
    && s.sweep.Busy? && s.sweep.snapshot == s0.ledger && s.sweep.now == now && s.counters == s0.counters
    && Undisturbed(p, s) && ResultSoFar(s.sweep)
  }

  lemma SweepGoesOn(sep: char, p: Policy, s: System, a: Action)
    requires s.sweep.Busy? && Can(sep, p, s, a) && !a.Finish?
    ensures var s' := Do(sep, p, s, a);
            s'.sweep.Busy? && s'.sweep.snapshot == s.sweep.snapshot && s'.sweep.now == s.sweep.now
            && s'.counters == s.counters
  {}

  lemma ResultStep(sep: char, p: Policy, s: System, a: Action)
    requires s.sweep.Busy? && Undisturbed(p, s) && ResultSoFar(s.sweep)
    requires Can(sep, p, s, a) && !a.Webhook? && !a.Finish?
    ensures ResultSoFar(Do(sep, p, s, a).sweep)
  {
    match a
    case Mark(_) => ResultMark(sep, p, s, a);
    case Answer(_) => ResultAnswer(sep, p, s, a);
    case Record => ResultRecord(sep, p, s, a);
  }

  lemma StaysUnderWay(sep: char, p: Policy, s0: System, now: int, s: System, a: Action)
    requires Inv(s) && UnderWay(p, s0, now, s) && Can(sep, p, s, a) && !a.Webhook? && !a.Finish?
    ensures UnderWay(p, s0, now, Do(sep, p, s, a))
  {
    SweepGoesOn(sep, p, s, a);
    QuietStep(sep, p, s, a);
    ResultStep(sep, p, s, a);
  }

  lemma BeginsUnderWay(sep: char, p: Policy, s: System, a: Action)
    requires Can(sep, p, s, a) && a.Begin?
    ensures UnderWay(p, s, a.clock, Do(sep, p, s, a))
  {
    QuietBegin(sep, p, s, a);
    ResultBegin(sep, p, s, a);
  }

  /** Steps i and j begin and finish one sweep, and no webhook comes in between. */
  ghost predicate IsQuietSweep(sep: char, p: Policy, states: seq<System>, actions: seq<Action>, i: nat, j: nat) {
    && IsRun(sep, p, states, actions) && i < j < |actions| && actions[i].Begin? && actions[j].Finish?
    && forall k :: i < k < j ==> !actions[k].Webhook? && !actions[k].Finish?
  }

  lemma UnderWayAt(sep: char, p: Policy, states: seq<System>, actions: seq<Action>, s0: System, now: int, k: nat)
    requires IsRun(sep, p, states, actions) && k < |actions| && !actions[k].Webhook? && !actions[k].Finish?
    requires UnderWay(p, s0, now, states[k])
    ensures UnderWay(p, s0, now, states[k+1])
  {
    RunKeepsInvariant(sep, p, states, actions, k);
    StaysUnderWay(sep, p, s0, now, states[k], actions[k]);
  }

  lemma {:induction false} UnderWayAlong(p: Policy, states: seq<System>, s0: System, now: int, i: nat, k: nat)
    requires i <= k < |states| && UnderWay(p, s0, now, states[i])
    requires forall m :: i <= m < k && UnderWay(p, s0, now, states[m]) ==> UnderWay(p, s0, now, states[m+1])
    ensures UnderWay(p, s0, now, states[k])
  {
    if i < k {
      UnderWayAlong(p, states, s0, now, i, k - 1);
      assert UnderWay(p, s0, now, states[k-1+1]);
    }
  }

  lemma SweepUnderWay(
    sep: char, p: Policy, states: seq<System>, actions: seq<Action>, i: nat, j: nat, k: nat)
    requires IsQuietSweep(sep, p, states, actions, i, j) && i < k <= j
    ensures UnderWay(p, states[i], actions[i].clock, states[k])
  {
    var s0, now := states[i], actions[i].clock;
    BeginsUnderWay(sep, p, s0, actions[i]);
    forall m | i < m < k && UnderWay(p, s0, now, states[m]) ensures UnderWay(p, s0, now, states[m+1]) {
      UnderWayAt(sep, p, states, actions, s0, now, m);
    }
    UnderWayAlong(p, states, s0, now, i + 1, k);
  }

  /** The id is recorded as gone, or about to be. */
  ghost predicate IsGone(s: System, id: string) {
    s.sweep.Busy? && (id in s.sweep.gone || s.sweep.cursor == Confirmed(id))
  }

  /** The step is a nil answer of the deleter for the id. */
  ghost predicate AnswersNil(s: System, a: Action, id: string) {
    a == Answer(true) && s.sweep.Busy? && s.sweep.cursor == Marked(id)
  }

  lemma GoneStep(sep: char, p: Policy, s: System, a: Action, id: string)
    requires s.sweep.Busy? && Can(sep, p, s, a) && !a.Webhook? && !a.Finish?
    ensures IsGone(Do(sep, p, s, a), id) <==> IsGone(s, id) || AnswersNil(s, a, id)
  {}

  lemma {:induction false} GoneAlong(states: seq<System>, actions: seq<Action>, i: nat, k: nat, id: string)
    requires i < k < |states| && |states| == |actions| + 1 && !IsGone(states[i+1], id)
    requires forall m :: i < m < k ==>
               (IsGone(states[m+1], id) <==> IsGone(states[m], id) || AnswersNil(states[m], actions[m], id))
    ensures IsGone(states[k], id) <==> exists m :: i < m < k && AnswersNil(states[m], actions[m], id)
  {
    if k > i + 1 {
      GoneAlong(states, actions, i, k - 1, id);
      assert IsGone(states[k-1+1], id) <==> IsGone(states[k-1], id) || AnswersNil(states[k-1], actions[k-1], id);
    }
  }

  /** The ids gone are those the deleter answered nil for since the sweep began. */
  lemma GoneWereAnswered(sep: char, p: Policy, states: seq<System>, actions: seq<Action>, i: nat, j: nat, id: string)
    requires IsQuietSweep(sep, p, states, actions, i, j)
    ensures IsGone(states[j], id) <==> exists m :: i < m < j && AnswersNil(states[m], actions[m], id)
  {
    assert Can(sep, p, states[i], actions[i]);
    assert !IsGone(states[i+1], id);
    forall m | i < m < j
      ensures IsGone(states[m+1], id) <==> IsGone(states[m], id) || AnswersNil(states[m], actions[m], id)
    {
      SweepUnderWay(sep, p, states, actions, i, j, m);
      GoneStep(sep, p, states[m], actions[m], id);
    }
    GoneAlong(states, actions, i, j, id);
  }

  ghost function Plus(c: Counters, r: SweepResult): Counters {
    Counters(c.expiredTotal + r.expired, c.deletedTotal + r.deleted,
             c.deleteErrTotal + r.deleteErrs, c.bytesFreed + r.bytesFreed)
  }

  /** From Begin to Finish with no webhook in between: the ledger is swept as the sequential driver
      sweeps it, the counters move by the totals of that sweep, and the ids gone are those the
      deleter answered nil for. */
  lemma QuietSweep(sep: char, p: Policy, states: seq<System>, actions: seq<Action>, i: nat, j: nat)
    returns (gone: set<string>)
    requires IsQuietSweep(sep, p, states, actions, i, j)
    ensures var l, now := states[i].ledger, actions[i].clock;
            var selected := SelectedIds(p, l.Values, now);
            && states[j+1].ledger == Swept(l, selected, gone, UsageKey.UnixSeconds(now))
            && states[j+1].counters == Plus(states[i].counters, Totals(l, |l|, selected, gone))
    ensures forall id :: id in gone <==> exists m :: i < m < j && AnswersNil(states[m], actions[m], id)
  {
    SweepUnderWay(sep, p, states, actions, i, j, j);
    FinishesQuietly(sep, p, states[i], actions[i].clock, states[j], actions[j]);
    gone := states[j].sweep.gone;
    forall id ensures id in gone <==> exists m :: i < m < j && AnswersNil(states[m], actions[m], id) {
      GoneWereAnswered(sep, p, states, actions, i, j, id);
    }
  }

  lemma AllVisited(p: Policy, s: System)
    requires Undisturbed(p, s) && s.sweep.Busy? && s.sweep.todo == {}
    ensures s.sweep.visited == SelectedIds(p, s.sweep.snapshot.Values, s.sweep.now)
  {
    assert s.sweep.visited + s.sweep.todo == s.sweep.visited;
  }

  lemma FinishesQuietly(sep: char, p: Policy, s0: System, now: int, s: System, a: Action)
    requires UnderWay(p, s0, now, s) && Can(sep, p, s, a) && a.Finish?
    ensures var s', l, gone := Do(sep, p, s, a), s0.ledger, s.sweep.gone;
            var selected := SelectedIds(p, l.Values, now);
            && s'.ledger == Swept(l, selected, gone, UsageKey.UnixSeconds(now))
            && s'.counters == Plus(s0.counters, Totals(l, |l|, selected, gone))
            && s.sweep.cursor.Between?
  {
    QuietFinish(p, s);
    AllVisited(p, s);
    FinishCounts(sep, p, s, a);
    assert s.sweep.res == Totals(s0.ledger, |s0.ledger|, s.sweep.visited, s.sweep.gone);
  }

  lemma FinishCounts(sep: char, p: Policy, s: System, a: Action)
    requires Can(sep, p, s, a) && a.Finish?
    ensures Do(sep, p, s, a).ledger == s.ledger && Do(sep, p, s, a).counters == Plus(s.counters, s.sweep.res)
  {}

  // ---- Every sequential sweep is a run ---------------------------------------------------------

  ghost function Last(states: seq<System>): System
    requires states != []
  {
    states[|states|-1]
  }

  /** A run goes on from another one, with no Begin but where it says. */
  ghost predicate GoesOn(states: seq<System>, actions: seq<Action>, states': seq<System>, actions': seq<Action>) {
    && states <= states' && actions <= actions'
    && forall k :: |actions| <= k < |actions'| ==> !actions'[k].Begin? && !actions'[k].Webhook?
  }

  lemma OneMoreStep(sep: char, p: Policy, states: seq<System>, actions: seq<Action>, a: Action)
    returns (states': seq<System>, actions': seq<Action>)
    requires IsRun(sep, p, states, actions) && Can(sep, p, Last(states), a)
    ensures IsRun(sep, p, states', actions') && actions' == actions + [a] && states <= states'
    ensures Last(states') == Do(sep, p, Last(states), a)
  {
    states', actions' := states + [Do(sep, p, Last(states), a)], actions + [a];
  }

  /** Between two ids of an undisturbed sweep, those in `confirmed` and visited are gone. */
  ghost predicate HalfWay(p: Policy, l: Ledger, now: int, confirmed: set<string>, s: System) {
    && s.sweep.Busy? && s.sweep.cursor.Between? && s.sweep.snapshot == l && s.sweep.now == now
    && s.sweep.gone == s.sweep.visited * confirmed && Undisturbed(p, s)
  }

  /** At one id of such a sweep. */
  ghost predicate AtId(p: Policy, l: Ledger, now: int, confirmed: set<string>, s: System, cursor: Cursor) {
    && s.sweep.Busy? && !cursor.Between? && s.sweep.cursor == cursor && s.sweep.snapshot == l && s.sweep.now == now
    && s.sweep.gone == (s.sweep.visited - {cursor.id}) * confirmed && cursor.id in s.sweep.visited
    && Undisturbed(p, s)
  }

  lemma MarkStep(sep: char, p: Policy, l: Ledger, now: int, confirmed: set<string>, s: System, id: string)
    requires Inv(s) && HalfWay(p, l, now, confirmed, s) && id in s.sweep.todo
    ensures Can(sep, p, s, Mark(id))
    ensures var s' := Do(sep, p, s, Mark(id));
            AtId(p, l, now, confirmed, s', Marked(id)) && s'.sweep.todo == s.sweep.todo - {id}
  {
    QuietMark(sep, p, s, Mark(id));
    assert (s.sweep.visited + {id}) - {id} == s.sweep.visited;
  }

  lemma AnswerStep(sep: char, p: Policy, l: Ledger, now: int, confirmed: set<string>, s: System, id: string)
    requires AtId(p, l, now, confirmed, s, Marked(id))
    ensures var a := Answer(id in confirmed);
            && Can(sep, p, s, a) && Do(sep, p, s, a).sweep.todo == s.sweep.todo
            && if a.ok then AtId(p, l, now, confirmed, Do(sep, p, s, a), Confirmed(id))
               else HalfWay(p, l, now, confirmed, Do(sep, p, s, a))
  {
    if id !in confirmed { assert (s.sweep.visited - {id}) * confirmed == s.sweep.visited * confirmed; }
  }

  lemma RecordStep(sep: char, p: Policy, l: Ledger, now: int, confirmed: set<string>, s: System, id: string)
    requires AtId(p, l, now, confirmed, s, Confirmed(id)) && id in confirmed
    requires id in s.ledger && id in s.sweep.snapshot
    ensures Can(sep, p, s, Record) && Do(sep, p, s, Record).sweep.todo == s.sweep.todo
    ensures HalfWay(p, l, now, confirmed, Do(sep, p, s, Record))
  {
    QuietRecord(sep, p, s, Record);
    assert (s.sweep.visited - {id}) * confirmed + {id} == s.sweep.visited * confirmed;
  }

  lemma MarkRun(sep: char, p: Policy, states: seq<System>, actions: seq<Action>,
                l: Ledger, now: int, confirmed: set<string>, id: string)
    returns (states': seq<System>, actions': seq<Action>)
    requires IsRun(sep, p, states, actions) && HalfWay(p, l, now, confirmed, Last(states))
    requires id in Last(states).sweep.todo
    ensures IsRun(sep, p, states', actions') && GoesOn(states, actions, states', actions')
    ensures AtId(p, l, now, confirmed, Last(states'), Marked(id))
    ensures Last(states').sweep.todo == Last(states).sweep.todo - {id}
  {
    RunKeepsInvariant(sep, p, states, actions, |states| - 1);
    MarkStep(sep, p, l, now, confirmed, Last(states), id);
    states', actions' := OneMoreStep(sep, p, states, actions, Mark(id));
  }

  lemma AnswerRun(sep: char, p: Policy, states: seq<System>, actions: seq<Action>,
                  l: Ledger, now: int, confirmed: set<string>, id: string)
    returns (states': seq<System>, actions': seq<Action>)
    requires IsRun(sep, p, states, actions) && AtId(p, l, now, confirmed, Last(states), Marked(id))
    ensures IsRun(sep, p, states', actions') && GoesOn(states, actions, states', actions')
    ensures if id in confirmed then AtId(p, l, now, confirmed, Last(states'), Confirmed(id))
            else HalfWay(p, l, now, confirmed, Last(states'))
    ensures Last(states').sweep.todo == Last(states).sweep.todo
  {
    AnswerStep(sep, p, l, now, confirmed, Last(states), id);
    states', actions' := OneMoreStep(sep, p, states, actions, Answer(id in confirmed));
  }

  lemma RecordRun(sep: char, p: Policy, states: seq<System>, actions: seq<Action>,
                  l: Ledger, now: int, confirmed: set<string>, id: string)
    returns (states': seq<System>, actions': seq<Action>)
    requires IsRun(sep, p, states, actions)
    requires AtId(p, l, now, confirmed, Last(states), Confirmed(id)) && id in confirmed
    ensures IsRun(sep, p, states', actions') && GoesOn(states, actions, states', actions')
    ensures HalfWay(p, l, now, confirmed, Last(states')) && Last(states').sweep.todo == Last(states).sweep.todo
  {
    RunKeepsInvariant(sep, p, states, actions, |states| - 1);
    RecordStep(sep, p, l, now, confirmed, Last(states), id);
    states', actions' := OneMoreStep(sep, p, states, actions, Record);
  }

  /** The steps for one id. */
  lemma VisitSteps(sep: char, p: Policy, states: seq<System>, actions: seq<Action>,
                   l: Ledger, now: int, confirmed: set<string>, id: string)
    returns (states': seq<System>, actions': seq<Action>)
    requires IsRun(sep, p, states, actions) && HalfWay(p, l, now, confirmed, Last(states))
    requires id in Last(states).sweep.todo
    ensures IsRun(sep, p, states', actions') && GoesOn(states, actions, states', actions')
    ensures HalfWay(p, l, now, confirmed, Last(states')) && Last(states').sweep.todo == Last(states).sweep.todo - {id}
  {
    states', actions' := MarkRun(sep, p, states, actions, l, now, confirmed, id);
    states', actions' := AnswerRun(sep, p, states', actions', l, now, confirmed, id);
    if id in confirmed {
      states', actions' := RecordRun(sep, p, states', actions', l, now, confirmed, id);
    }
  }

  lemma {:induction false} VisitAllSteps(sep: char, p: Policy, states: seq<System>, actions: seq<Action>,
                                         l: Ledger, now: int, confirmed: set<string>)
    returns (states': seq<System>, actions': seq<Action>)
    requires IsRun(sep, p, states, actions) && HalfWay(p, l, now, confirmed, Last(states))
    ensures IsRun(sep, p, states', actions') && HalfWay(p, l, now, confirmed, Last(states'))
    ensures GoesOn(states, actions, states', actions') && Last(states').sweep.todo == {}
    decreases |Last(states).sweep.todo|
  {
    if Last(states).sweep.todo == {} {
      states', actions' := states, actions;
    } else {
      var id :| id in Last(states).sweep.todo;
      states', actions' := VisitSteps(sep, p, states, actions, l, now, confirmed, id);
      states', actions' := VisitAllSteps(sep, p, states', actions', l, now, confirmed);
    }
  }

  /** Whatever a sequential sweep leaves, whichever deletes are confirmed, a run can leave too. */
  lemma SweepIsARun(sep: char, p: Policy, states: seq<System>, actions: seq<Action>, now: int, confirmed: set<string>)
    returns (states': seq<System>, actions': seq<Action>)
    requires IsRun(sep, p, states, actions) && Last(states).sweep.Idle? && p.Enabled()
    ensures IsRun(sep, p, states', actions') && states <= states' && actions + [Begin(now)] <= actions'
    ensures forall k :: |actions| < k < |actions'| ==> !actions'[k].Begin? && !actions'[k].Webhook?
    ensures Last(states').sweep.Idle?
    ensures Last(states').ledger == RetentionRetry.AfterSweep(p, Last(states).ledger, now, confirmed)
  {
    var l := Last(states).ledger;
    QuietBegin(sep, p, Last(states), Begin(now));
    states', actions' := OneMoreStep(sep, p, states, actions, Begin(now));
    states', actions' := VisitAllSteps(sep, p, states', actions', l, now, confirmed);
    var s := Last(states');
    QuietFinish(p, s);
    AllVisited(p, s);
    GoneByConfirmed(l, s.sweep.visited, confirmed, UsageKey.UnixSeconds(now));
    states', actions' := OneMoreStep(sep, p, states', actions', Finish);
  }

  lemma GoneByConfirmed(l: Ledger, selected: set<string>, confirmed: set<string>, at: int)
    ensures Swept(l, selected, selected * confirmed, at) == Swept(l, selected, confirmed, at)
  {}
}
