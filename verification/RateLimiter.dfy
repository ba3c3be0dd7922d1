/** The per-key token bucket: lazy refill, a cap, and eviction of idle buckets. Times are real
    seconds. */
module RateLimiter {
  import opened TokenLine

  datatype TokenBucket = TokenBucket(tokens: real, last: real)

  type Buckets = map<string, TokenBucket>

  datatype Config = Config(rate: real, burst: real, idleTTL: real)

  function Refill(b: TokenBucket, rate: real, burst: real, now: real): TokenBucket {
    TokenBucket(Min(b.tokens + (now - b.last) * rate, burst), now)
  }

  /** The bucket a call finds, refilled to its own clock. */
  function Found(c: Config, buckets: Buckets, key: string, now: real): TokenBucket {
    if key !in buckets then TokenBucket(c.burst, now)
    else
      var b := buckets[key];
      if now - b.last > 0.0 then Refill(b, c.rate, c.burst, now) else b
  }

  function Admits(c: Config, buckets: Buckets, key: string, now: real): bool {
    Found(c, buckets, key, now).tokens >= 1.0
  }

  function AfterCall(c: Config, buckets: Buckets, key: string, now: real): Buckets {
    var b := Found(c, buckets, key, now);
    buckets[key := if b.tokens >= 1.0 then b.(tokens := b.tokens - 1.0) else b]
  }

  function AfterGc(c: Config, buckets: Buckets, now: real): Buckets {
    if c.idleTTL == 0.0 then buckets
    else map key | key in buckets && now - buckets[key].last <= c.idleTTL :: buckets[key]
  }

  class Limiter {
    const rate: real
    const burst: real
    const idleTTL: real
    var buckets: Buckets

    function Cfg(): Config { Config(rate, burst, idleTTL) }

    constructor (rate: real, burst: real, idleTTL: real)
      ensures Cfg() == Config(rate, burst, idleTTL) && buckets == map[]
    {
      this.rate, this.burst, this.idleTTL := rate, burst, idleTTL;
      buckets := map[];
    }

    method Allow(key: string, now: real) returns (ok: bool)
      modifies this
      ensures key in buckets && buckets - {key} == old(buckets) - {key}
      ensures var b := if key !in old(buckets) then TokenBucket(burst, now) else old(buckets)[key];
              var grown := b.tokens + (now - b.last) * rate;
              var found := if now <= b.last then b else TokenBucket(if grown > burst then burst else grown, now);
              && ok == (found.tokens >= 1.0)
              && buckets[key] == (if ok then TokenBucket(found.tokens - 1.0, found.last) else found)
      ensures ok == Admits(Cfg(), old(buckets), key, now)
      ensures buckets == AfterCall(Cfg(), old(buckets), key, now)
    {
      var b: TokenBucket;
      if key !in buckets {
        b := TokenBucket(burst, now);
      } else {
        b := buckets[key];
        var elapsed := now - b.last;
        if elapsed > 0.0 {
          b := b.(tokens := b.tokens + elapsed * rate);
          if b.tokens > burst {
            b := b.(tokens := burst);
          }
          b := b.(last := now);
        }
      }
      if b.tokens < 1.0 {
        buckets := buckets[key := b];
        return false;
      }
      buckets := buckets[key := b.(tokens := b.tokens - 1.0)];
      return true;
    }

    method GCOnce(now: real)
      modifies this
      ensures forall key :: key in buckets <==>
                key in old(buckets) && (idleTTL == 0.0 || now - old(buckets)[key].last <= idleTTL)
      ensures forall key :: key in buckets ==> buckets[key] == old(buckets)[key]
      ensures buckets == AfterGc(Cfg(), old(buckets), now)
    {
      if idleTTL == 0.0 {
        return;
      }
      var todo := buckets.Keys;
      ghost var start := buckets;
      while todo != {}
        invariant todo <= start.Keys
        invariant forall k :: k in buckets <==>
                    k in start && (k in todo || now - start[k].last <= idleTTL)
        invariant forall k :: k in buckets ==> buckets[k] == start[k]
        decreases |todo|
      {
        var key :| key in todo;
        if now - buckets[key].last > idleTTL {
          buckets := buckets - {key};
        }
        todo := todo - {key};
      }
      assert buckets == AfterGc(Cfg(), start, now);
    }

    /** The middleware in front of every route, then the gate's own check on /rtc: one limiter,
        asked twice. `reached` says that the request comes to token validation. */
    method HandleRtc(key: string, atMiddleware: real, atGate: real) returns (reached: bool)
      modifies this
      ensures var first := Admits(Cfg(), old(buckets), key, atMiddleware);
              var between := AfterCall(Cfg(), old(buckets), key, atMiddleware);
              && reached == (first && Admits(Cfg(), between, key, atGate))
              && buckets == if first then AfterCall(Cfg(), between, key, atGate) else between
    {
      reached := Allow(key, atMiddleware);
      if !reached {
        return;
      }
      reached := Allow(key, atGate);
    }
  }

  /** The clock a bucket goes by: it never runs backwards. */
  function OwnClock(buckets: Buckets, key: string, now: real): real {
    if key in buckets && now < buckets[key].last then buckets[key].last else now
  }

  /** A call whose clock is behind its bucket counts as one at the bucket's own moment: nothing is
      taken back, and the same time is never refilled twice. */
  lemma EarlierClockIsIgnored(c: Config, buckets: Buckets, key: string, now: real)
    ensures var own := OwnClock(buckets, key, now);
            && Admits(c, buckets, key, now) == Admits(c, buckets, key, own)
            && AfterCall(c, buckets, key, now) == AfterCall(c, buckets, key, own)
            && AfterCall(c, buckets, key, now)[key].last == own
  {}

  // ---- Traces --------------------------------------------------------------------------

  datatype Op = Call(key: string, at: real) | Gc(at: real)

  /** The limiter after the first n operations. */
  function After(c: Config, ops: seq<Op>, n: nat): Buckets
    requires n <= |ops|
  {
    if n == 0 then map[]
    else
      var before := After(c, ops, n - 1);
      match ops[n-1]
      case Call(key, at) => AfterCall(c, before, key, at)
      case Gc(at) => AfterGc(c, before, at)
  }

  /** Operation i is a call of `key` and is let through. */
  predicate Passes(c: Config, ops: seq<Op>, key: string, i: nat)
    requires i < |ops|
  {
    ops[i].Call? && ops[i].key == key && Admits(c, After(c, ops, i), key, ops[i].at)
  }

  /** How many calls of `key` pass among the operations from j up to i. */
  function Passed(c: Config, ops: seq<Op>, key: string, j: nat, i: nat): nat
    requires j <= i <= |ops|
  {
    if i == j then 0
    else Passed(c, ops, key, j, i - 1) + if Passes(c, ops, key, i - 1) then 1 else 0
  }

  ghost predicate Ordered(ops: seq<Op>) {
    forall i, j :: 0 <= i < j < |ops| ==> ops[i].at <= ops[j].at
  }

  /** Nothing is evicted before its bucket would be full again. */
  predicate EvictionSafe(c: Config) {
    c.idleTTL == 0.0 || (c.idleTTL > 0.0 && c.idleTTL * c.rate >= c.burst)
  }

  // ---- The level ------------------------------------------------------------------------

  /** The tokens that flow in up to time t. */
  function Accrual(rate: real, t: real): real {
    t * rate
  }

  lemma AccrualSplits(c: Config, s: real, t: real)
    ensures (t - s) * c.rate == Accrual(c.rate, t) - Accrual(c.rate, s)
  {}

  lemma AccrualGrows(c: Config, s: real, t: real)
    requires c.rate >= 0.0 && s <= t
    ensures Accrual(c.rate, s) <= Accrual(c.rate, t)
  {
    assert (t - s) * c.rate >= 0.0;
    AccrualSplits(c, s, t);
  }

  /** The tokens a call at time t would find: all that matters about a bucket. */
  function Level(c: Config, buckets: Buckets, key: string, t: real): real {
    if key !in buckets then c.burst
    else Min(buckets[key].tokens + (Accrual(c.rate, t) - Accrual(c.rate, buckets[key].last)), c.burst)
  }

  /** Stamps are not in the future, and no bucket overflows or goes into debt. */
  ghost predicate Sane(c: Config, buckets: Buckets, t: real) {
    forall key :: key in buckets ==>
      buckets[key].last <= t && Min(0.0, c.burst) <= buckets[key].tokens <= c.burst
  }

  /** A call finds its level, with its clock on the bucket. */
  lemma FoundLevel(c: Config, buckets: Buckets, key: string, s: real)
    requires c.rate >= 0.0 && Sane(c, buckets, s)
    ensures Found(c, buckets, key, s) == TokenBucket(Level(c, buckets, key, s), s)
    ensures Min(0.0, c.burst) <= Level(c, buckets, key, s) <= c.burst
  {
    if key in buckets {
      AccrualSplits(c, buckets[key].last, s);
      AccrualGrows(c, buckets[key].last, s);
    }
  }

  /** The level at t after one operation at s, given the level it found. */
  function Stepped(c: Config, found: real, took: bool, s: real, t: real): real {
    Min(found - (if took then 1.0 else 0.0) + (Accrual(c.rate, t) - Accrual(c.rate, s)), c.burst)
  }

  /** Without a call in between, levels only grow, at the rate, up to the cap. */
  lemma LevelGrows(c: Config, buckets: Buckets, key: string, s: real, t: real)
    requires c.rate >= 0.0 && s <= t && Sane(c, buckets, s)
    ensures Level(c, buckets, key, t) == Stepped(c, Level(c, buckets, key, s), false, s, t)
  {
    AccrualGrows(c, s, t);
  }

  /** A call that passes takes one token from its own level for good; one that does not pass
      leaves every level alone. */
  lemma CallLevel(c: Config, buckets: Buckets, caller: string, s: real, key: string, t: real)
    requires c.rate >= 0.0 && s <= t && Sane(c, buckets, s)
    ensures Sane(c, AfterCall(c, buckets, caller, s), s)
    ensures Level(c, AfterCall(c, buckets, caller, s), key, t)
         == Stepped(c, Level(c, buckets, key, s), key == caller && Admits(c, buckets, key, s), s, t)
  {
    FoundLevel(c, buckets, caller, s);
    LevelGrows(c, buckets, key, s, t);
  }

  /** Safe eviction changes no level. */
  lemma GcLevel(c: Config, buckets: Buckets, s: real, key: string, t: real)
    requires c.rate >= 0.0 && s <= t && Sane(c, buckets, s) && EvictionSafe(c)
    ensures Sane(c, AfterGc(c, buckets, s), s)
    ensures Level(c, AfterGc(c, buckets, s), key, t) == Stepped(c, Level(c, buckets, key, s), false, s, t)
  {
    LevelGrows(c, buckets, key, s, t);
    if c.idleTTL != 0.0 && key in buckets && s - buckets[key].last > c.idleTTL {
      IdleIsFull(c, buckets[key], t);
    }
  }

  lemma IdleIsFull(c: Config, b: TokenBucket, t: real)
    requires c.rate >= 0.0 && EvictionSafe(c) && c.idleTTL != 0.0 && t - b.last > c.idleTTL
    requires Min(0.0, c.burst) <= b.tokens
    ensures b.tokens + (Accrual(c.rate, t) - Accrual(c.rate, b.last)) >= c.burst
  {
    AccrualGrows(c, 0.0, c.idleTTL);
    AccrualGrows(c, c.idleTTL, t - b.last);
    AccrualSplits(c, b.last, t);
    assert Accrual(c.rate, 0.0) == 0.0;
    assert Accrual(c.rate, t - b.last) == Accrual(c.rate, t) - Accrual(c.rate, b.last);
  }

  // ---- Whole traces ----------------------------------------------------------------------

  /** The level of a key at time t after the first n operations. */
  function LevelAfter(c: Config, ops: seq<Op>, n: nat, key: string, t: real): real
    requires n <= |ops|
  {
    Level(c, After(c, ops, n), key, t)
  }

  ghost predicate Plain(c: Config, ops: seq<Op>) {
    c.rate >= 0.0 && EvictionSafe(c) && Ordered(ops)
  }

  lemma {:induction false} TraceIsSane(c: Config, ops: seq<Op>, n: nat, t: real)
    requires Plain(c, ops) && n <= |ops| && (n > 0 ==> ops[n-1].at <= t)
    ensures Sane(c, After(c, ops, n), t)
  {
    if n > 0 {
      var s := ops[n-1].at;
      TraceIsSane(c, ops, n - 1, s);
      if ops[n-1].Call? { CallLevel(c, After(c, ops, n - 1), ops[n-1].key, s, ops[n-1].key, s); }
      else { GcLevel(c, After(c, ops, n - 1), s, "", s); }
    }
  }

  /** One operation, seen through the levels. */
  lemma LevelStep(c: Config, ops: seq<Op>, n: nat, key: string, t: real)
    requires Plain(c, ops) && n < |ops| && ops[n].at <= t
    ensures LevelAfter(c, ops, n + 1, key, t)
         == Stepped(c, LevelAfter(c, ops, n, key, ops[n].at), Passes(c, ops, key, n), ops[n].at, t)
  {
    var before, s := After(c, ops, n), ops[n].at;
    TraceIsSane(c, ops, n, s);
    if ops[n].Call? {
      CallLevel(c, before, ops[n].key, s, key, t);
      assert After(c, ops, n + 1) == AfterCall(c, before, ops[n].key, s);
    } else {
      GcLevel(c, before, s, key, t);
      assert After(c, ops, n + 1) == AfterGc(c, before, s);
    }
  }

  /** A call passes when it finds a whole token. */
  lemma PassesAtOne(c: Config, ops: seq<Op>, n: nat)
    requires Plain(c, ops) && n < |ops| && ops[n].Call?
    ensures Passes(c, ops, ops[n].key, n) <==> LevelAfter(c, ops, n, ops[n].key, ops[n].at) >= 1.0
  {
    TraceIsSane(c, ops, n, ops[n].at);
    FoundLevel(c, After(c, ops, n), ops[n].key, ops[n].at);
  }

  // ---- The same trace in tokens --------------------------------------------------------

  /** When each operation happens, in tokens accrued. */
  function Accrued(c: Config, ops: seq<Op>): seq<real> {
    seq(|ops|, i requires 0 <= i < |ops| => Accrual(c.rate, ops[i].at))
  }

  function Takes(c: Config, ops: seq<Op>, key: string): seq<bool> {
    seq(|ops|, i requires 0 <= i < |ops| => Passes(c, ops, key, i))
  }

  lemma {:induction false} PassedIsCount(c: Config, ops: seq<Op>, key: string, j: nat, n: nat)
    requires j <= n <= |ops|
    ensures Passed(c, ops, key, j, n) == TokenLine.Count(Takes(c, ops, key), j, n)
  {
    if j < n { PassedIsCount(c, ops, key, j, n - 1); }
  }

  lemma {:induction false} LevelInTokens(c: Config, ops: seq<Op>, n: nat, key: string, t: real)
    requires Plain(c, ops) && n <= |ops| && (n > 0 ==> ops[n-1].at <= t)
    ensures LevelAfter(c, ops, n, key, t)
         == TokenLine.Level(c.burst, Accrued(c, ops), Takes(c, ops, key), n, Accrual(c.rate, t))
  {
    if n > 0 {
      LevelInTokens(c, ops, n - 1, key, ops[n-1].at);
      LevelStep(c, ops, n - 1, key, t);
    }
  }

  // ---- What the limiter lets through ----------------------------------------------------

  /** One more call after `passed` ones fits into the cap plus the refill. */
  predicate Room(passed: nat, burst: real, rate: real, elapsed: real) {
    passed as real + 1.0 <= burst + elapsed * rate
  }

  /** The calls of key passed since operation j, and call i, fit into burst plus refill. */
  ghost predicate Fits(c: Config, ops: seq<Op>, key: string, j: nat, i: nat)
    requires j <= i < |ops|
  {
    Room(Passed(c, ops, key, j, i), c.burst, c.rate, ops[i].at - ops[j].at)
  }

  lemma FitsInTokens(c: Config, ops: seq<Op>, key: string, j: nat, i: nat)
    requires j < i < |ops|
    ensures Fits(c, ops, key, j, i) <==>
            1.0 <= TokenLine.Line(c.burst, Accrued(c, ops), Takes(c, ops, key), j, i, Accrual(c.rate, ops[i].at))
  {
    PassedIsCount(c, ops, key, j, i);
    RoomInTokens(c, Passed(c, ops, key, j, i), ops[j].at, ops[i].at);
  }

  lemma RoomInTokens(c: Config, passed: nat, s: real, t: real)
    ensures Room(passed, c.burst, c.rate, t - s) <==>
            passed as real + 1.0 <= c.burst + (Accrual(c.rate, t) - Accrual(c.rate, s))
  {
    AccrualSplits(c, s, t);
  }

  /** Exactly when a call passes: when it fits, counting from every earlier operation and from
      itself. */
  lemma AdmissionIsExact(c: Config, ops: seq<Op>, i: nat)
    requires Plain(c, ops) && i < |ops| && ops[i].Call?
    ensures Passes(c, ops, ops[i].key, i) <==> forall j :: 0 <= j <= i ==> Fits(c, ops, ops[i].key, j, i)
  {
    var key, u, a, w := ops[i].key, Accrued(c, ops), Takes(c, ops, ops[i].key), Accrual(c.rate, ops[i].at);
    PassesAtOne(c, ops, i);
    LevelInTokens(c, ops, i, key, ops[i].at);
    TokenLine.LowestLine(c.burst, u, a, i, w, 1.0);
    assert Fits(c, ops, key, i, i) <==> 1.0 <= c.burst;
    forall j | 0 <= j < i
      ensures Fits(c, ops, key, j, i) <==> 1.0 <= TokenLine.Line(c.burst, u, a, j, i, w)
    {
      FitsInTokens(c, ops, key, j, i);
    }
  }

  /** The next call of the key at or after operation j, up to operation i, which is one. */
  lemma {:induction false} NextCall(c: Config, ops: seq<Op>, key: string, j: nat, i: nat) returns (k: nat)
    requires j <= i < |ops| && ops[i].Call? && ops[i].key == key
    ensures j <= k <= i && ops[k].Call? && ops[k].key == key
    ensures Passed(c, ops, key, j, i) == Passed(c, ops, key, k, i)
    decreases i - j
  {
    if ops[j].Call? && ops[j].key == key {
      k := j;
    } else {
      k := NextCall(c, ops, key, j + 1, i);
      FirstDoesNotPass(c, ops, key, j, i);
    }
  }

  lemma {:induction false} FirstDoesNotPass(c: Config, ops: seq<Op>, key: string, j: nat, i: nat)
    requires j < i <= |ops| && !Passes(c, ops, key, j)
    ensures Passed(c, ops, key, j, i) == Passed(c, ops, key, j + 1, i)
  {
    if j + 1 < i { FirstDoesNotPass(c, ops, key, j, i - 1); }
  }

  lemma RoomGrows(c: Config, passed: nat, less: real, more: real)
    requires c.rate >= 0.0 && less <= more && Room(passed, c.burst, c.rate, less)
    ensures Room(passed, c.burst, c.rate, more)
  {
    AccrualGrows(c, less, more);
  }

  /** It is enough to count from the earlier calls of the same key, and from the call itself. */
  lemma OwnCallsDecide(c: Config, ops: seq<Op>, i: nat)
    requires Plain(c, ops) && i < |ops| && ops[i].Call?
    ensures Passes(c, ops, ops[i].key, i) <==>
            forall j :: 0 <= j <= i && ops[j].Call? && ops[j].key == ops[i].key ==> Fits(c, ops, ops[i].key, j, i)
  {
    var key := ops[i].key;
    AdmissionIsExact(c, ops, i);
    if forall j :: 0 <= j <= i && ops[j].Call? && ops[j].key == key ==> Fits(c, ops, key, j, i) {
      forall j | 0 <= j <= i ensures Fits(c, ops, key, j, i) {
        var k := NextCall(c, ops, key, j, i);
        assert Fits(c, ops, key, k, i);
        RoomGrows(c, Passed(c, ops, key, j, i), ops[i].at - ops[k].at, ops[i].at - ops[j].at);
      }
    }
  }

  lemma WindowInTokens(c: Config, ops: seq<Op>, key: string, j: nat, n: nat)
    requires Plain(c, ops) && c.burst >= 0.0 && j < n <= |ops|
    ensures Passed(c, ops, key, j, n) as real <= c.burst + (Accrual(c.rate, ops[n-1].at) - Accrual(c.rate, ops[j].at))
  {
    var t, u := ops[n-1].at, Accrued(c, ops);
    forall i | j <= i < n ensures u[j] <= u[i] { AccrualGrows(c, ops[j].at, ops[i].at); }
    TokenLine.Budget(c.burst, u, Takes(c, ops, key), j, n, u[n-1]);
    PassedIsCount(c, ops, key, j, n);
    LevelInTokens(c, ops, n, key, t);
    TraceIsSane(c, ops, n, t);
    FoundLevel(c, After(c, ops, n), key, t);
  }

  /** In any window of length d, at most burst + rate * d calls of one key pass. */
  lemma WindowBound(c: Config, ops: seq<Op>, key: string, j: nat, n: nat, d: real)
    requires Plain(c, ops) && c.burst >= 0.0 && j < n <= |ops| && ops[n-1].at - ops[j].at <= d
    ensures Passed(c, ops, key, j, n) as real <= c.burst + d * c.rate
  {
    WindowInTokens(c, ops, key, j, n);
    AccrualWithin(c, ops[j].at, ops[n-1].at, d);
  }

  lemma AccrualWithin(c: Config, s: real, t: real, d: real)
    requires c.rate >= 0.0 && t - s <= d
    ensures Accrual(c.rate, t) - Accrual(c.rate, s) <= d * c.rate
  {
    AccrualSplits(c, s, t);
    AccrualGrows(c, t - s, d);
    assert Accrual(c.rate, t - s) == Accrual(c.rate, t) - Accrual(c.rate, s);
  }
}
