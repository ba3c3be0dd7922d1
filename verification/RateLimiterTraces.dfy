/** What the limiter's callers may rely on over whole traces: safe eviction is invisible, a
    rejected call leaves no trace, and a request on /rtc pays twice. */
module RateLimiterTraces {
  import opened RateLimiter

  // ---- Eviction ------------------------------------------------------------------------

  /** The same limiter, never evicting. */
  function NeverEvicting(c: Config): Config {
    c.(idleTTL := 0.0)
  }

  lemma {:induction false} SamePassed(c: Config, ops: seq<Op>, key: string, j: nat, i: nat)
    requires Plain(c, ops) && j <= i <= |ops|
    ensures Passed(c, ops, key, j, i) == Passed(NeverEvicting(c), ops, key, j, i)
    decreases i, 0
  {
    if j < i {
      SamePassed(c, ops, key, j, i - 1);
      if ops[i-1].Call? { EvictionIsInvisible(c, ops, i - 1); }
    }
  }

  lemma SameFits(c: Config, ops: seq<Op>, key: string, j: nat, i: nat)
    requires j <= i < |ops| && Passed(c, ops, key, j, i) == Passed(NeverEvicting(c), ops, key, j, i)
    ensures Fits(c, ops, key, j, i) <==> Fits(NeverEvicting(c), ops, key, j, i)
  {}

  /** If idleTTL * rate is at least burst, a limiter evicting at any moments decides every call
      as one that never evicts. */
  lemma {:induction false} EvictionIsInvisible(c: Config, ops: seq<Op>, i: nat)
    requires Plain(c, ops) && i < |ops| && ops[i].Call?
    ensures Passes(c, ops, ops[i].key, i) <==> Passes(NeverEvicting(c), ops, ops[i].key, i)
    decreases i, 1
  {
    var never, key := NeverEvicting(c), ops[i].key;
    AdmissionIsExact(c, ops, i);
    AdmissionIsExact(never, ops, i);
    forall j | 0 <= j <= i
      ensures Fits(c, ops, key, j, i) <==> Fits(never, ops, key, j, i)
    {
      SamePassed(c, ops, key, j, i);
      SameFits(c, ops, key, j, i);
    }
  }

  // ---- Rejected calls --------------------------------------------------------------------

  function Without(ops: seq<Op>, m: nat): seq<Op>
    requires m < |ops|
  {
    ops[..m] + ops[m+1..]
  }

  lemma {:induction false} SamePrefix(c: Config, a: seq<Op>, b: seq<Op>, n: nat)
    requires n <= |a| && n <= |b| && a[..n] == b[..n]
    ensures After(c, a, n) == After(c, b, n)
  {
    if n > 0 {
      assert a[..n-1] == a[..n][..n-1] && b[..n-1] == b[..n][..n-1];
      assert a[n-1] == a[..n][n-1] && b[n-1] == b[..n][n-1];
      SamePrefix(c, a, b, n - 1);
    }
  }

  lemma WithoutStaysPlain(c: Config, ops: seq<Op>, m: nat)
    requires Plain(c, ops) && m < |ops|
    ensures Plain(c, Without(ops, m))
  {
    var rest := Without(ops, m);
    assert forall i :: 0 <= i < |rest| ==> rest[i] == if i < m then ops[i] else ops[i+1];
  }

  lemma RejectionTakesNothing(c: Config, ops: seq<Op>, m: nat, key: string, t: real)
    requires Plain(c, ops) && m < |ops| && ops[m].Call? && !Passes(c, ops, ops[m].key, m) && ops[m].at <= t
    ensures LevelAfter(c, ops, m + 1, key, t) == LevelAfter(c, Without(ops, m), m, key, t)
  {
    var rest, s := Without(ops, m), ops[m].at;
    LevelStep(c, ops, m, key, t);
    assert ops[..m] == rest[..m];
    SamePrefix(c, ops, rest, m);
    TraceIsSane(c, ops, m, s);
    LevelGrows(c, After(c, ops, m), key, s, t);
  }

  lemma SameDecision(c: Config, ops: seq<Op>, m: nat, i: nat)
    requires Plain(c, ops) && m < i < |ops| && ops[i].Call?
    requires LevelAfter(c, ops, i, ops[i].key, ops[i].at)
          == LevelAfter(c, Without(ops, m), i - 1, ops[i].key, ops[i].at)
    ensures Without(ops, m)[i-1] == ops[i]
    ensures Passes(c, Without(ops, m), ops[i].key, i - 1) <==> Passes(c, ops, ops[i].key, i)
  {
    WithoutStaysPlain(c, ops, m);
    PassesAtOne(c, ops, i);
    PassesAtOne(c, Without(ops, m), i - 1);
  }

  lemma {:induction false} RejectedKeepsLevels(c: Config, ops: seq<Op>, m: nat, n: nat, key: string, t: real)
    requires Plain(c, ops) && m < n <= |ops| && ops[m].Call? && !Passes(c, ops, ops[m].key, m) && ops[n-1].at <= t
    ensures LevelAfter(c, ops, n, key, t) == LevelAfter(c, Without(ops, m), n - 1, key, t)
  {
    var rest, s := Without(ops, m), ops[n-1].at;
    if n == m + 1 {
      RejectionTakesNothing(c, ops, m, key, t);
    } else {
      WithoutStaysPlain(c, ops, m);
      assert rest[n-2] == ops[n-1];
      RejectedKeepsLevels(c, ops, m, n - 1, key, s);
      if ops[n-1].Call? {
        RejectedKeepsLevels(c, ops, m, n - 1, ops[n-1].key, s);
        SameDecision(c, ops, m, n - 1);
      }
      LevelStep(c, ops, n - 1, key, t);
      LevelStep(c, rest, n - 2, key, t);
    }
  }

  /** Taking a rejected call out of a trace changes no other decision. */
  lemma RejectedLeavesNoTrace(c: Config, ops: seq<Op>, m: nat, i: nat)
    requires Plain(c, ops) && m < |ops| && i < |ops| && i != m
    requires ops[m].Call? && !Passes(c, ops, ops[m].key, m) && ops[i].Call?
    ensures var k := if i < m then i else i - 1;
            Without(ops, m)[k] == ops[i]
            && (Passes(c, Without(ops, m), ops[i].key, k) <==> Passes(c, ops, ops[i].key, i))
  {
    var rest := Without(ops, m);
    if i < m {
      assert ops[..i] == rest[..i];
      SamePrefix(c, ops, rest, i);
    } else {
      RejectedKeepsLevels(c, ops, m, i, ops[i].key, ops[i].at);
      SameDecision(c, ops, m, i);
    }
  }

  // ---- /rtc ------------------------------------------------------------------------------

  /** A request that reached token validation: the operations in which the middleware and then
      the gate let it through. */
  datatype RtcRequest = RtcRequest(middleware: nat, gate: nat)

  ghost function PassingIndices(c: Config, ops: seq<Op>, key: string, j: nat, n: nat): set<nat>
    requires j <= n <= |ops|
  {
    set i | j <= i < n && Passes(c, ops, key, i)
  }

  lemma {:induction false} PassedIsSize(c: Config, ops: seq<Op>, key: string, j: nat, n: nat)
    requires j <= n <= |ops|
    ensures |PassingIndices(c, ops, key, j, n)| == Passed(c, ops, key, j, n)
  {
    if j == n {
      assert PassingIndices(c, ops, key, j, n) == {};
    } else {
      PassedIsSize(c, ops, key, j, n - 1);
      assert PassingIndices(c, ops, key, j, n)
          == PassingIndices(c, ops, key, j, n - 1) + if Passes(c, ops, key, n - 1) then {n - 1} else {};
    }
  }

  ghost predicate Separate(reached: seq<RtcRequest>) {
    && (forall a :: 0 <= a < |reached| ==> reached[a].middleware != reached[a].gate)
    && (forall a, b :: 0 <= a < b < |reached| ==>
          {reached[a].middleware, reached[a].gate} !! {reached[b].middleware, reached[b].gate})
  }

  /** The requests whose first check came before operation j. */
  ghost function Early(reached: seq<RtcRequest>, j: nat): set<nat> {
    set a | 0 <= a < |reached| && reached[a].middleware < j
  }

  /** The second check of each request is among the indices, and the first unless it was early. */
  ghost predicate Accounted(reached: seq<RtcRequest>, j: nat, indices: set<nat>) {
    forall a :: 0 <= a < |reached| ==>
      reached[a].gate in indices && (reached[a].middleware >= j ==> reached[a].middleware in indices)
  }

  lemma LastIsAccounted(reached: seq<RtcRequest>, j: nat, indices: set<nat>) returns (rest: set<nat>)
    requires reached != [] && Separate(reached) && Accounted(reached, j, indices)
    ensures var n := |reached| - 1;
            && Accounted(reached[..n], j, rest)
            && |indices| == |rest| + if reached[n].middleware >= j then 2 else 1
  {
    var n := |reached| - 1;
    var last := reached[n];
    var taken := if last.middleware >= j then {last.middleware, last.gate} else {last.gate};
    rest := indices - taken;
    assert indices == rest + taken;
    forall a | 0 <= a < n
      ensures reached[a].gate !in taken && reached[a].middleware !in taken
    {
      assert {reached[a].middleware, reached[a].gate} !! {last.middleware, last.gate};
    }
  }

  lemma {:induction false} TwoEach(reached: seq<RtcRequest>, j: nat, indices: set<nat>)
    requires Separate(reached) && Accounted(reached, j, indices)
    ensures 2 * |reached| <= |indices| + |Early(reached, j)|
  {
    if reached != [] {
      var n := |reached| - 1;
      var rest := LastIsAccounted(reached, j, indices);
      TwoEach(reached[..n], j, rest);
      assert Early(reached, j) == Early(reached[..n], j) + if reached[n].middleware < j then {n} else {};
    }
  }

  /** In any window of length d, however the checks of different requests interleave, the requests
      of one client that come through the second check are at most half of burst + rate * d and
      of those that had passed the first check before the window began. */
  lemma RtcPaysTwice(c: Config, ops: seq<Op>, key: string, j: nat, n: nat, d: real, reached: seq<RtcRequest>)
    requires Plain(c, ops) && c.burst >= 0.0 && j < n <= |ops| && ops[n-1].at - ops[j].at <= d
    requires Separate(reached)
    requires forall a :: 0 <= a < |reached| ==>
               reached[a].middleware < n && Passes(c, ops, key, reached[a].middleware)
               && j <= reached[a].gate < n && Passes(c, ops, key, reached[a].gate)
    ensures 2.0 * (|reached| as real) <= c.burst + d * c.rate + (|Early(reached, j)| as real)
  {
    WindowBound(c, ops, key, j, n, d);
    PassedIsSize(c, ops, key, j, n);
    TwoEach(reached, j, PassingIndices(c, ops, key, j, n));
  }

  /** A first operation that no first check precedes, and that is one itself or the window's own. */
  lemma {:induction false} EarliestCheck(reached: seq<RtcRequest>, j: nat) returns (first: nat)
    ensures first <= j && Early(reached, first) == {}
    ensures first == j || exists a :: 0 <= a < |reached| && reached[a].middleware == first
  {
    if reached == [] {
      first := j;
    } else {
      var n := |reached| - 1;
      first := EarliestCheck(reached[..n], j);
      assert forall a :: 0 <= a < n ==> a !in Early(reached[..n], first) && reached[..n][a] == reached[a];
      if reached[n].middleware < first { first := reached[n].middleware; }
    }
  }

  /** If no more than `wait` passes between the two checks of a request, at most half of burst +
      rate * (d + wait) requests of one client come through in any window of length d. */
  lemma PromptRequestsPayTwice(
    c: Config, ops: seq<Op>, key: string, j: nat, n: nat, d: real, wait: real, reached: seq<RtcRequest>)
    requires Plain(c, ops) && c.burst >= 0.0 && j < n <= |ops| && ops[n-1].at - ops[j].at <= d && wait >= 0.0
    requires Separate(reached)
    requires forall a :: 0 <= a < |reached| ==>
               reached[a].middleware < n && Passes(c, ops, key, reached[a].middleware)
               && j <= reached[a].gate < n && Passes(c, ops, key, reached[a].gate)
               && ops[reached[a].gate].at - ops[reached[a].middleware].at <= wait
    ensures 2.0 * (|reached| as real) <= c.burst + (d + wait) * c.rate
  {
    var first := EarliestCheck(reached, j);
    assert ops[n-1].at - ops[first].at <= d + wait;
    RtcPaysTwice(c, ops, key, first, n, d + wait, reached);
  }

  /** The early ones do count: two requests pass the first check, wait, and pass the second check in
      one moment, although half of the burst is one. */
  lemma EarlyChecksCount(key: string) returns (c: Config, ops: seq<Op>, reached: seq<RtcRequest>)
    ensures Plain(c, ops) && |ops| == 4 && ops[3].at == ops[2].at && c.burst == 2.0
    ensures Separate(reached) && |reached| == 2 && Early(reached, 2) == {0, 1}
    ensures forall a :: 0 <= a < 2 ==>
              reached[a].middleware < 2 && Passes(c, ops, key, reached[a].middleware)
              && 2 <= reached[a].gate < 4 && Passes(c, ops, key, reached[a].gate)
  {
    c := Config(1.0, 2.0, 0.0);
    ops := [Call(key, 0.0), Call(key, 0.0), Call(key, 2.0), Call(key, 2.0)];
    reached := [RtcRequest(0, 2), RtcRequest(1, 3)];
    assert After(c, ops, 0) == map[];
    assert After(c, ops, 1) == map[key := TokenBucket(1.0, 0.0)];
    assert After(c, ops, 2) == map[key := TokenBucket(0.0, 0.0)];
    assert After(c, ops, 3) == map[key := TokenBucket(1.0, 2.0)];
  }
}
