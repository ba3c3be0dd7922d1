/** The circuit breaker in front of the room service, and the calls that pass through it
    concurrently. Times are nanoseconds of a monotone clock. */
module CircuitBreaker {

  const DEFAULT_COOLDOWN: int := 30_000_000_000
  const DEFAULT_THRESHOLD: int := 3

  /** `Closed` stands for the zero time in openUntil. */
  datatype Gate = Closed | Until(t: int)

  datatype Breaker = Breaker(consecFail: nat, openUntil: Gate, halfOpen: bool)

  datatype Config = Config(threshold: int, cooldown: int)

  predicate Admits(b: Breaker, now: int) {
    b.openUntil.Closed? || (now >= b.openUntil.t && !b.halfOpen)
  }

  /** Only the probe in flight keeps a call out. */
  predicate ProbeShuts(b: Breaker, now: int) {
    b.halfOpen && b.openUntil.Until? && b.openUntil.t <= now
  }

  function AfterPre(b: Breaker, now: int): Breaker {
    if b.openUntil.Until? && Admits(b, now) then b.(halfOpen := true) else b
  }

  function AfterPost(c: Config, b: Breaker, ok: bool, now: int): Breaker {
    if ok then Breaker(0, Closed, false)
    else
      var fails := b.consecFail + 1;
      Breaker(fails, if fails >= c.threshold then Until(now + c.cooldown) else b.openUntil, false)
  }

  datatype Outcome = BreakerOpen | Failed | Succeeded

  class LiveKitRoomService {
    const cfg: Config
    var consecFail: nat
    var openUntil: Gate
    var halfOpen: bool
    var requestsTotal: nat

    ghost function State(): Breaker
      reads this
    {
      Breaker(consecFail, openUntil, halfOpen)
    }

    constructor (threshold: int, cooldown: int)
      ensures cfg == Config(if threshold == 0 then 3 else threshold,
                            if cooldown == 0 then 30_000_000_000 else cooldown)
      ensures State() == Breaker(0, Closed, false) && requestsTotal == 0
    {
      cfg := Config(if threshold == 0 then DEFAULT_THRESHOLD else threshold,
                    if cooldown == 0 then DEFAULT_COOLDOWN else cooldown);
      consecFail, openUntil, halfOpen, requestsTotal := 0, Closed, false, 0;
    }

    method PreCall(now: int) returns (admitted: bool)
      modifies this`halfOpen
      ensures admitted == Admits(old(State()), now) && State() == AfterPre(old(State()), now)
    {
      if openUntil.Closed? {
        return true;
      }
      if now < openUntil.t {
        return false;
      }
      if halfOpen {
        return false;
      }
      halfOpen := true;
      return true;
    }

    method PostCall(ok: bool, now: int)
      modifies this`halfOpen, this`consecFail, this`openUntil
      ensures State() == AfterPost(cfg, old(State()), ok, now)
    {
      halfOpen := false;
      if ok {
        consecFail := 0;
        openUntil := Closed;
        return;
      }
      consecFail := consecFail + 1;
      if consecFail >= cfg.threshold {
        openUntil := Until(now + cfg.cooldown);
      }
    }

    /** Open is reported exactly when calls are refused, but for one exception: once the cooldown
        has passed and a probe is out, calls are refused and the report is "not open". */
    method IsBreakerOpen(now: int) returns (open: bool)
      ensures open <==> openUntil.Until? && now < openUntil.t
      ensures open <==> !Admits(State(), now) && !ProbeShuts(State(), now)
      ensures ProbeShuts(State(), now) ==> !Admits(State(), now)
    {
      open := openUntil.Until? && now < openUntil.t;
    }

    /** The bracketing every RPC method shares: a rejected call posts nothing, an admitted one
        posts exactly once, also when no token could be minted for it. */
    method Rpc(preAt: int, minted: bool, answered: bool, postAt: int) returns (out: Outcome)
      modifies this
      ensures requestsTotal == old(requestsTotal) + 1
      ensures out.BreakerOpen? <==> !Admits(old(State()), preAt)
      ensures out.Succeeded? <==> !out.BreakerOpen? && minted && answered
      ensures State() == if out.BreakerOpen? then old(State())
                         else AfterPost(cfg, AfterPre(old(State()), preAt), out.Succeeded?, postAt)
    {
      requestsTotal := requestsTotal + 1;
      var admitted := PreCall(preAt);
      if !admitted {
        return BreakerOpen;
      }
      if !minted {
        PostCall(false, postAt);
        return Failed;
      }
      PostCall(answered, postAt);
      return if answered then Succeeded else Failed;
    }
  }

  // ---- Concurrent calls ------------------------------------------------------------------

  /** An admitted call that has not posted yet; probes are numbered in order of admission. */
  datatype Flight = Ordinary(start: int) | Probe(start: int, number: nat)

  /** `done` are the outcomes in order of completion, `probes` the admission times of all
      half-open probes so far. */
  datatype System = System(
    b: Breaker, clock: int, flights: map<nat, Flight>, probes: seq<int>, done: seq<bool>, admitted: nat)

  datatype Action = Pre(id: nat, now: int) | Post(id: nat, ok: bool, now: int)

  function Start(clock: int): System {
    System(Breaker(0, Closed, false), clock, map[], [], [], 0)
  }

  predicate Can(s: System, a: Action) {
    a.now >= s.clock && (if a.Pre? then a.id !in s.flights else a.id in s.flights)
  }

  function Do(c: Config, s: System, a: Action): System
    requires Can(s, a)
  {
    match a
    case Pre(id, now) =>
      var next := s.(b := AfterPre(s.b, now), clock := now);
      if !Admits(s.b, now) then next
      else if s.b.openUntil.Closed?
      then next.(flights := s.flights[id := Ordinary(now)], admitted := s.admitted + 1)
      else next.(flights := s.flights[id := Probe(now, |s.probes|)], probes := s.probes + [now],
                 admitted := s.admitted + 1)
    case Post(id, ok, now) =>
      s.(b := AfterPost(c, s.b, ok, now), clock := now, flights := s.flights - {id}, done := s.done + [ok])
  }

  /** How many calls failed since the last success, in order of completion. */
  function TrailingFailures(done: seq<bool>): nat {
    if done == [] || done[|done|-1] then 0 else 1 + TrailingFailures(done[..|done|-1])
  }

  ghost predicate CountInv(c: Config, s: System) {
    && s.b.consecFail == TrailingFailures(s.done)
    && (s.b.openUntil.Until? ==> s.b.consecFail >= c.threshold)
    && (c.threshold > 0 && s.b.consecFail >= c.threshold ==> s.b.openUntil.Until?)
  }

  /** Probes are apart, and the next one cannot come too soon. */
  ghost predicate SpacingInv(c: Config, s: System) {
    && (forall i, j :: 0 <= i < j < |s.probes| ==> s.probes[j] - s.probes[i] >= c.cooldown)
    && (forall i :: 0 <= i < |s.probes| ==> s.probes[i] <= s.clock)
    && (s.b.openUntil.Until? && !s.b.halfOpen ==>
          forall i :: 0 <= i < |s.probes| ==> s.b.openUntil.t >= s.probes[i] + c.cooldown)
  }

  ghost predicate FlightInv(s: System) {
    && (forall id :: id in s.flights && s.flights[id].Probe? ==>
          s.flights[id].number < |s.probes| && s.probes[s.flights[id].number] == s.flights[id].start)
    && (forall x, y :: x in s.flights && y in s.flights && x != y && s.flights[x].Probe? && s.flights[y].Probe? ==>
          s.flights[x].number != s.flights[y].number)
    && (s.b.halfOpen ==> s.b.openUntil.Until? && LastProbeFlies(s))
  }

  ghost predicate LastProbeFlies(s: System) {
    exists id :: id in s.flights && s.flights[id].Probe? && s.flights[id].number + 1 == |s.probes|
  }

  ghost predicate Inv(c: Config, s: System) {
    CountInv(c, s) && SpacingInv(c, s) && FlightInv(s)
  }

  lemma PostKeeps(c: Config, s: System, a: Action)
    requires c.cooldown >= 0 && Inv(c, s) && Can(s, a) && a.Post?
    ensures Inv(c, Do(c, s, a))
  {
    assert Do(c, s, a).done[..|s.done|] == s.done;
  }

  lemma PreKeepsFlights(c: Config, s: System, a: Action)
    requires FlightInv(s) && Can(s, a) && a.Pre?
    ensures FlightInv(Do(c, s, a))
  {
    var s' := Do(c, s, a);
    assert forall id :: id in s.flights ==> id in s'.flights && s'.flights[id] == s.flights[id];
    if Admits(s.b, a.now) && s.b.openUntil.Until? {
      assert s'.flights[a.id] == Probe(a.now, |s.probes|);
    } else if s.b.halfOpen {
      var p :| p in s.flights && s.flights[p].Probe? && s.flights[p].number + 1 == |s.probes|;
      assert s'.flights[p] == s.flights[p];
    }
  }

  lemma PreKeeps(c: Config, s: System, a: Action)
    requires c.cooldown >= 0 && CountInv(c, s) && SpacingInv(c, s) && Can(s, a) && a.Pre?
    ensures CountInv(c, Do(c, s, a)) && SpacingInv(c, Do(c, s, a))
  {}

  lemma StepKeepsInvariant(c: Config, s: System, a: Action)
    requires c.cooldown >= 0 && Inv(c, s) && Can(s, a)
    ensures Inv(c, Do(c, s, a))
  {
    if a.Post? {
      PostKeeps(c, s, a);
    } else {
      PreKeeps(c, s, a);
      PreKeepsFlights(c, s, a);
    }
  }

  ghost predicate IsRun(c: Config, t0: int, states: seq<System>, actions: seq<Action>) {
    && |states| == |actions| + 1
    && states[0] == Start(t0)
    && forall i :: 0 <= i < |actions| ==> Can(states[i], actions[i]) && states[i+1] == Do(c, states[i], actions[i])
  }

  lemma {:induction false} RunKeepsInvariant(c: Config, t0: int, states: seq<System>, actions: seq<Action>, i: nat)
    requires c.cooldown >= 0 && IsRun(c, t0, states, actions) && i < |states|
    ensures Inv(c, states[i])
  {
    if i > 0 {
      RunKeepsInvariant(c, t0, states, actions, i - 1);
      StepKeepsInvariant(c, states[i-1], actions[i-1]);
    }
  }

  /** Every concurrent run: any two half-open admissions are at least the cooldown apart, even
      when calls admitted earlier finish in the middle of a probe. */
  lemma ProbesAreSpaced(c: Config, t0: int, states: seq<System>, actions: seq<Action>, k: nat, i: nat, j: nat)
    requires c.cooldown >= 0 && IsRun(c, t0, states, actions) && k < |states| && i < j < |states[k].probes|
    ensures states[k].probes[j] - states[k].probes[i] >= c.cooldown
  {
    RunKeepsInvariant(c, t0, states, actions, k);
  }

  /** So while every call in flight is younger than the cooldown, at most one is a probe. */
  lemma AtMostOneProbe(c: Config, t0: int, states: seq<System>, actions: seq<Action>, k: nat, x: nat, y: nat)
    requires c.cooldown >= 0 && IsRun(c, t0, states, actions) && k < |states|
    requires forall id :: id in states[k].flights ==> states[k].clock - states[k].flights[id].start < c.cooldown
    requires x in states[k].flights && states[k].flights[x].Probe?
    requires y in states[k].flights && states[k].flights[y].Probe?
    ensures x == y
  {
    RunKeepsInvariant(c, t0, states, actions, k);
  }

  // ---- Exactly who is admitted --------------------------------------------------------------

  /** The step of the last completion before step k, or -1. */
  function LastPost(actions: seq<Action>, k: nat): int
    requires k <= |actions|
  {
    if k == 0 then -1 else if actions[k-1].Post? then k - 1 else LastPost(actions, k - 1)
  }

  /** How many calls have failed since the last success. */
  function FailuresBefore(actions: seq<Action>, k: nat): nat
    requires k <= |actions|
  {
    if k == 0 then 0
    else if actions[k-1].Pre? then FailuresBefore(actions, k - 1)
    else if actions[k-1].ok then 0 else FailuresBefore(actions, k - 1) + 1
  }

  lemma {:induction false} LastPostIsLast(actions: seq<Action>, k: nat)
    requires k <= |actions|
    ensures -1 <= LastPost(actions, k) < k
    ensures LastPost(actions, k) >= 0 ==> actions[LastPost(actions, k)].Post?
    ensures forall j :: LastPost(actions, k) < j < k ==> actions[j].Pre?
  {
    if k > 0 { LastPostIsLast(actions, k - 1); }
  }

  /** When the gate reopens: a cooldown after the last completion. */
  function ReopensAt(c: Config, actions: seq<Action>, k: nat): int
    requires k <= |actions| && LastPost(actions, k) >= 0
  {
    LastPostIsLast(actions, k);
    actions[LastPost(actions, k)].now + c.cooldown
  }

  /** Some call has come since, at or after that moment. */
  ghost predicate ProbedSince(c: Config, actions: seq<Action>, k: nat)
    requires k <= |actions| && LastPost(actions, k) >= 0
  {
    exists j :: LastPost(actions, k) < j < k && actions[j].now >= ReopensAt(c, actions, k)
  }

  /** The breaker's fields, read off the calls. */
  ghost predicate Reads(c: Config, actions: seq<Action>, k: nat, b: Breaker)
    requires k <= |actions|
  {
    && b.consecFail == FailuresBefore(actions, k)
    && (b.openUntil.Until? <==> FailuresBefore(actions, k) >= c.threshold)
    && (b.openUntil.Until? ==>
          && LastPost(actions, k) >= 0 && b.openUntil.t == ReopensAt(c, actions, k)
          && (b.halfOpen <==> ProbedSince(c, actions, k)))
    && (b.openUntil.Closed? ==> !b.halfOpen)
  }

  lemma PreReads(c: Config, actions: seq<Action>, k: nat, b: Breaker)
    requires k < |actions| && actions[k].Pre? && Reads(c, actions, k, b)
    ensures Reads(c, actions, k + 1, AfterPre(b, actions[k].now))
  {
    LastPostIsLast(actions, k);
    if b.openUntil.Until? {
      assert ProbedSince(c, actions, k + 1)
        <==> ProbedSince(c, actions, k) || actions[k].now >= ReopensAt(c, actions, k) by {
        if actions[k].now >= ReopensAt(c, actions, k) { assert LastPost(actions, k + 1) < k < k + 1; }
      }
    }
  }

  lemma PostReads(c: Config, actions: seq<Action>, k: nat, b: Breaker)
    requires k < |actions| && actions[k].Post? && c.threshold > 0 && Reads(c, actions, k, b)
    ensures Reads(c, actions, k + 1, AfterPost(c, b, actions[k].ok, actions[k].now))
  {}

  /** Every run, every moment: what the breaker holds is what the calls so far say. */
  lemma {:induction false} BreakerReads(c: Config, t0: int, states: seq<System>, actions: seq<Action>, k: nat)
    requires c.threshold > 0 && IsRun(c, t0, states, actions) && k < |states|
    ensures Reads(c, actions, k, states[k].b)
  {
    if k > 0 {
      BreakerReads(c, t0, states, actions, k - 1);
      assert Can(states[k-1], actions[k-1]);
      if actions[k-1].Pre? { PreReads(c, actions, k - 1, states[k-1].b); }
      else { PostReads(c, actions, k - 1, states[k-1].b); }
    }
  }

  /** A call is admitted exactly if fewer than `threshold` calls have failed since the last success,
      or it is the first to come a cooldown or more after the last completion. */
  lemma AdmittedExactly(c: Config, t0: int, states: seq<System>, actions: seq<Action>, k: nat)
    requires c.threshold > 0 && IsRun(c, t0, states, actions) && k < |actions| && actions[k].Pre?
    ensures actions[k].id in states[k+1].flights <==>
            || FailuresBefore(actions, k) < c.threshold
            || (LastPost(actions, k) >= 0 && actions[k].now >= ReopensAt(c, actions, k) && !ProbedSince(c, actions, k))
  {
    BreakerReads(c, t0, states, actions, k);
    assert Can(states[k], actions[k]);
  }

  // ---- How many probes at once --------------------------------------------------------------

  /** No call is older than `longest` at any step of the run, the step that ends it included. */
  ghost predicate CallsLast(longest: int, states: seq<System>, actions: seq<Action>)
    requires |states| == |actions| + 1
  {
    forall k, id :: 0 <= k < |actions| && id in states[k].flights ==>
      actions[k].now - states[k].flights[id].start <= longest
  }

  ghost predicate OneProbe(s: System) {
    forall x, y :: x in s.flights && y in s.flights && s.flights[x].Probe? && s.flights[y].Probe? ==> x == y
  }

  ghost predicate OneProbeAlong(c: Config, longest: int, t0: int, states: seq<System>, actions: seq<Action>) {
    IsRun(c, t0, states, actions) && CallsLast(longest, states, actions) ==>
      forall k :: 0 <= k < |states| ==> OneProbe(states[k])
  }

  /** In every run whose calls last at most `longest` there is never more than one probe. */
  ghost predicate NeverTwoProbes(c: Config, longest: int) {
    forall t0, states, actions :: OneProbeAlong(c, longest, t0, states, actions)
  }

  /** A probe admitted while another is in flight makes that one as old as the cooldown. */
  lemma {:induction false} ShortCallsOneProbe(
    c: Config, t0: int, states: seq<System>, actions: seq<Action>, longest: int, k: nat)
    requires 0 <= c.cooldown && longest < c.cooldown && IsRun(c, t0, states, actions) && k < |states|
    requires CallsLast(longest, states, actions)
    ensures OneProbe(states[k])
  {
    if k > 0 {
      ShortCallsOneProbe(c, t0, states, actions, longest, k - 1);
      RunKeepsInvariant(c, t0, states, actions, k);
      RunKeepsInvariant(c, t0, states, actions, k - 1);
      assert Can(states[k-1], actions[k-1]);
    }
  }

  ghost function Last(states: seq<System>): System
    requires states != []
  {
    states[|states|-1]
  }

  /** One more step of a run. */
  lemma Extend(c: Config, t0: int, states: seq<System>, actions: seq<Action>, longest: int, a: Action)
    returns (states': seq<System>, actions': seq<Action>)
    requires IsRun(c, t0, states, actions) && CallsLast(longest, states, actions) && Can(Last(states), a)
    requires forall id :: id in Last(states).flights ==> a.now - Last(states).flights[id].start <= longest
    ensures IsRun(c, t0, states', actions') && CallsLast(longest, states', actions')
    ensures Last(states') == Do(c, Last(states), a)
  {
    states', actions' := states + [Do(c, Last(states), a)], actions + [a];
  }

  function Calls(low: nat, high: nat, t: int): (m: map<nat, Flight>)
    ensures forall id :: id in m <==> low <= id < high
    ensures forall id :: id in m ==> m[id] == Ordinary(t)
  {
    if low >= high then map[] else Calls(low, high - 1, t)[high - 1 := Ordinary(t)]
  }

  /** `n` calls are admitted at once. */
  lemma {:induction false} Crowd(c: Config, t0: int, longest: nat, n: nat)
    returns (states: seq<System>, actions: seq<Action>)
    ensures IsRun(c, t0, states, actions) && CallsLast(longest, states, actions)
    ensures Last(states).b == Breaker(0, Closed, false) && Last(states).clock == t0 && Last(states).probes == []
    ensures Last(states).flights == Calls(0, n, t0)
  {
    if n == 0 {
      states, actions := [Start(t0)], [];
    } else {
      states, actions := Crowd(c, t0, longest, n - 1);
      states, actions := Extend(c, t0, states, actions, longest, Pre(n - 1, t0));
    }
  }

  /** All but one of them fail, as many as it takes to close the gate. */
  lemma {:induction false} CrowdFails(c: Config, t0: int, longest: nat, n: nat, j: nat)
    returns (states: seq<System>, actions: seq<Action>)
    requires n == (if c.threshold < 1 then 1 else c.threshold) && j <= n
    ensures IsRun(c, t0, states, actions) && CallsLast(longest, states, actions)
    ensures var gate := if j == n then Until(t0 + c.cooldown) else Closed;
            Last(states).b == Breaker(j, gate, false) && Last(states).clock == t0 && Last(states).probes == []
    ensures Last(states).flights == Calls(j, n + 1, t0)
  {
    if j == 0 {
      states, actions := Crowd(c, t0, longest, n + 1);
    } else {
      states, actions := CrowdFails(c, t0, longest, n, j - 1);
      states, actions := Extend(c, t0, states, actions, longest, Post(j - 1, false, t0));
    }
  }

  /** The first probe, and the last of the old calls failing while it is out. */
  lemma ProbeOvertaken(c: Config, t0: int, longest: nat, n: nat)
    returns (states: seq<System>, actions: seq<Action>)
    requires 0 <= c.cooldown <= longest && n == (if c.threshold < 1 then 1 else c.threshold)
    ensures IsRun(c, t0, states, actions) && CallsLast(longest, states, actions)
    ensures Last(states).b == Breaker(n + 1, Until(t0 + 2 * c.cooldown), false)
    ensures Last(states).clock == t0 + c.cooldown && Last(states).probes == [t0 + c.cooldown]
    ensures Last(states).flights == map[n + 1 := Probe(t0 + c.cooldown, 0)]
  {
    states, actions := CrowdFails(c, t0, longest, n, n);
    states, actions := Extend(c, t0, states, actions, longest, Pre(n + 1, t0 + c.cooldown));
    states, actions := Extend(c, t0, states, actions, longest, Post(n, false, t0 + c.cooldown));
  }

  /** Whatever the threshold: a call admitted before the gate closed fails while the probe is
      out, and clears halfOpen; a probe as old as the cooldown is then joined by a second. */
  lemma TwoProbesAtOnce(c: Config, t0: int, longest: int) returns (states: seq<System>, actions: seq<Action>)
    requires 0 <= c.cooldown <= longest
    ensures IsRun(c, t0, states, actions) && CallsLast(longest, states, actions) && !OneProbe(Last(states))
  {
    var n := if c.threshold < 1 then 1 else c.threshold;
    states, actions := ProbeOvertaken(c, t0, longest, n);
    var second := Pre(n + 2, t0 + 2 * c.cooldown);
    states, actions := Extend(c, t0, states, actions, longest, second);
    assert Last(states).flights[n+1].Probe? && Last(states).flights[n+2].Probe?;
  }

  /** At most one probe at a time, in every run whose calls last at most `longest`, exactly when
      `longest` is shorter than the cooldown; the threshold does not matter. */
  lemma OneProbeTheorem(c: Config, longest: int)
    requires c.cooldown >= 0
    ensures NeverTwoProbes(c, longest) <==> longest < c.cooldown
  {
    if longest < c.cooldown {
      forall t0, states, actions ensures OneProbeAlong(c, longest, t0, states, actions) {
        if IsRun(c, t0, states, actions) && CallsLast(longest, states, actions) {
          forall k | 0 <= k < |states| ensures OneProbe(states[k]) {
            ShortCallsOneProbe(c, t0, states, actions, longest, k);
          }
        }
      }
    } else {
      var states, actions := TwoProbesAtOnce(c, 0, longest);
      assert !OneProbe(states[|states|-1]);
      assert !OneProbeAlong(c, longest, 0, states, actions);
    }
  }

  /** Every reachable state: the failure count is the trailing failure run, the gate is set
      exactly from the threshold on, and a half-open gate has its probe still in flight. */
  lemma BreakerAccounting(c: Config, t0: int, states: seq<System>, actions: seq<Action>, k: nat)
    requires c.cooldown >= 0 && c.threshold > 0 && IsRun(c, t0, states, actions) && k < |states|
    ensures var s := states[k];
            && s.b.consecFail == TrailingFailures(s.done)
            && (s.b.openUntil.Until? <==> TrailingFailures(s.done) >= c.threshold)
            && (s.b.halfOpen ==> LastProbeFlies(s))
  {
    RunKeepsInvariant(c, t0, states, actions, k);
  }

  // ---- A sequential caller facing only failures -------------------------------------------

  /** One call at a time, and all of them fail. */
  ghost predicate SequentialFailures(states: seq<System>, actions: seq<Action>) {
    |states| == |actions| + 1 &&
    forall i :: 0 <= i < |actions| ==>
      if actions[i].Pre? then states[i].flights == map[] else !actions[i].ok
  }

  /** The clock has paid one cooldown for every admission past the threshold. */
  ghost predicate PaidFor(c: Config, t0: int, s: System) {
    && s.clock >= t0
    && |s.flights| <= 1 && s.admitted == |s.done| + |s.flights| && s.b.consecFail == |s.done|
    && (s.admitted > c.threshold ==> s.clock - t0 >= (s.admitted - c.threshold) * c.cooldown)
    && (|s.done| >= c.threshold ==>
          s.b.openUntil.Until? && s.b.openUntil.t - t0 >= (|s.done| - c.threshold + 1) * c.cooldown)
  }

  lemma OneMoreCooldown(n: int, cooldown: int)
    ensures (n + 1) * cooldown == n * cooldown + cooldown
  {}

  lemma PrePays(c: Config, t0: int, s: System, a: Action)
    requires c.cooldown > 0 && c.threshold > 0 && PaidFor(c, t0, s) && Can(s, a) && a.Pre? && s.flights == map[]
    ensures PaidFor(c, t0, Do(c, s, a))
  {
    OneMoreCooldown(|s.done| - c.threshold, c.cooldown);
  }

  lemma PostPays(c: Config, t0: int, s: System, a: Action)
    requires c.cooldown > 0 && c.threshold > 0 && PaidFor(c, t0, s) && Can(s, a) && a.Post? && !a.ok
    ensures PaidFor(c, t0, Do(c, s, a))
  {
    OneMoreCooldown(s.admitted - c.threshold, c.cooldown);
    assert |s.flights - {a.id}| == |s.flights| - 1;
  }

  lemma {:induction false} FailuresPay(c: Config, t0: int, states: seq<System>, actions: seq<Action>, k: nat)
    requires c.cooldown > 0 && c.threshold > 0 && IsRun(c, t0, states, actions) && k < |states|
    requires SequentialFailures(states, actions)
    ensures PaidFor(c, t0, states[k])
  {
    if k > 0 {
      FailuresPay(c, t0, states, actions, k - 1);
      if actions[k-1].Pre? { PrePays(c, t0, states[k-1], actions[k-1]); }
      else { PostPays(c, t0, states[k-1], actions[k-1]); }
    }
  }

  /** Within time T a sequential caller that only meets failures is admitted at most threshold +
      T / cooldown times. */
  lemma FailingCallerIsThrottled(c: Config, t0: int, states: seq<System>, actions: seq<Action>, k: nat)
    requires c.cooldown > 0 && c.threshold > 0 && IsRun(c, t0, states, actions) && k < |states|
    requires SequentialFailures(states, actions)
    ensures states[k].admitted <= c.threshold + (states[k].clock - t0) / c.cooldown
  {
    FailuresPay(c, t0, states, actions, k);
    var s := states[k];
    if s.admitted > c.threshold {
      Quotient(s.admitted - c.threshold, c.cooldown, s.clock - t0);
    }
  }

  lemma Quotient(n: nat, d: nat, total: int)
    requires d > 0 && n * d <= total
    ensures n <= total / d
  {
    var q := total / d;
    assert total < (q + 1) * d;
    SmallerFactor(n, q + 1, d);
  }

  lemma SmallerFactor(n: int, m: int, d: nat)
    requires n * d < m * d
    ensures n < m
  {
    assert (m - n) * d > 0;
  }
}
