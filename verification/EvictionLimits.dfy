/** The bound on idleTTL is exact: a limiter that evicts any sooner decides some trace otherwise
    than one that never evicts. */
module EvictionLimits {
  import opened RateLimiter
  import opened RateLimiterTraces

  function Next(c: Config, b: Buckets, op: Op): Buckets {
    match op
    case Call(key, at) => AfterCall(c, b, key, at)
    case Gc(at) => AfterGc(c, b, at)
  }

  /** Run on two limiters side by side, the script brings out a different decision. */
  ghost predicate Differ(c: Config, d: Config, a: Buckets, b: Buckets, script: seq<Op>)
    decreases |script|
  {
    script != [] &&
    (|| (script[0].Call? && Admits(c, a, script[0].key, script[0].at) != Admits(d, b, script[0].key, script[0].at))
     || Differ(c, d, Next(c, a, script[0]), Next(d, b, script[0]), script[1..]))
  }

  ghost predicate From(script: seq<Op>, s: real) {
    Ordered(script) && forall i :: 0 <= i < |script| ==> s <= script[i].at
  }

  lemma Prepend(op: Op, script: seq<Op>, s: real)
    requires s <= op.at && From(script, op.at)
    ensures From([op] + script, s) && ([op] + script)[1..] == script
  {
    var all := [op] + script;
    assert forall i :: 0 < i < |all| ==> all[i] == script[i-1];
  }

  /** The same refill and the same cap. */
  ghost predicate Alike(c: Config, d: Config) {
    c.rate == d.rate >= 0.0 && c.burst == d.burst >= 1.0
  }

  lemma OneCall(c: Config, b: Buckets, key: string, s: real)
    requires c.rate >= 0.0 && Sane(c, b, s)
    ensures Admits(c, b, key, s) <==> Level(c, b, key, s) >= 1.0
    ensures Sane(c, AfterCall(c, b, key, s), s)
    ensures Level(c, AfterCall(c, b, key, s), key, s)
         == Level(c, b, key, s) - if Admits(c, b, key, s) then 1.0 else 0.0
    ensures key in AfterCall(c, b, key, s) && AfterCall(c, b, key, s)[key].last == s
  {
    FoundLevel(c, b, key, s);
    CallLevel(c, b, key, s, key, s);
  }

  /** The moment at which a level below one has grown to exactly one. */
  lemma WaitForOne(c: Config, b: Buckets, key: string, s: real) returns (t: real)
    requires c.rate > 0.0 && c.burst >= 1.0 && Sane(c, b, s) && Level(c, b, key, s) < 1.0
    ensures s < t && Sane(c, b, t)
    ensures Level(c, b, key, t) == 1.0
    ensures Accrual(c.rate, t) - Accrual(c.rate, s) == 1.0 - Level(c, b, key, s)
  {
    var missing := 1.0 - Level(c, b, key, s);
    var wait := missing / c.rate;
    t := s + wait;
    assert wait > 0.0 && wait * c.rate == missing;
    AccrualSplits(c, s, t);
    LevelGrows(c, b, key, s, t);
  }

  /** One call tells two limiters apart when only one of them has a whole token. */
  lemma CallTells(c: Config, d: Config, a: Buckets, b: Buckets, key: string, t: real)
    requires Alike(c, d) && Sane(c, a, t) && Sane(d, b, t)
    requires Level(c, a, key, t) >= 1.0 > Level(d, b, key, t)
    ensures Differ(c, d, a, b, [Call(key, t)])
  {
    OneCall(c, a, key, t);
    OneCall(d, b, key, t);
  }

  /** The higher level has just one token when the lower one is still short of one. */
  lemma LowerLags(c: Config, d: Config, a: Buckets, b: Buckets, key: string, s: real) returns (t: real)
    requires Alike(c, d) && c.rate > 0.0 && Sane(c, a, s) && Sane(d, b, s)
    requires Level(d, b, key, s) < Level(c, a, key, s) < 1.0
    ensures s < t && Sane(c, a, t) && Sane(d, b, t)
    ensures Level(c, a, key, t) >= 1.0 > Level(d, b, key, t)
  {
    t := WaitForOne(c, a, key, s);
    LevelGrows(d, b, key, s, t);
    assert Accrual(d.rate, t) - Accrual(d.rate, s) == Accrual(c.rate, t) - Accrual(c.rate, s);
  }

  /** Two limiters at different levels can be told apart: call both until the lower one runs
      out, or wait until the higher one has just one token. */
  lemma {:induction false} TellApart(c: Config, d: Config, a: Buckets, b: Buckets, key: string, s: real, n: nat)
    returns (script: seq<Op>)
    requires Alike(c, d) && c.rate > 0.0 && Sane(c, a, s) && Sane(d, b, s)
    requires Level(d, b, key, s) < Level(c, a, key, s) && Level(d, b, key, s) < n as real
    ensures From(script, s) && Differ(c, d, a, b, script)
    decreases n
  {
    if Level(c, a, key, s) < 1.0 {
      var t := LowerLags(c, d, a, b, key, s);
      CallTells(c, d, a, b, key, t);
      script := [Call(key, t)];
    } else if Level(d, b, key, s) < 1.0 {
      CallTells(c, d, a, b, key, s);
      script := [Call(key, s)];
    } else {
      var call := Call(key, s);
      OneCall(c, a, key, s);
      OneCall(d, b, key, s);
      var rest := TellApart(c, d, Next(c, a, call), Next(d, b, call), key, s, n - 1);
      Prepend(call, rest, s);
      script := [call] + rest;
    }
  }

  // ---- Draining a bucket -----------------------------------------------------------------

  function Exec(c: Config, b: Buckets, script: seq<Op>): Buckets
    decreases |script|
  {
    if script == [] then b else Exec(c, Next(c, b, script[0]), script[1..])
  }

  ghost predicate CallsOnly(script: seq<Op>) {
    forall i :: 0 <= i < |script| ==> script[i].Call?
  }

  lemma CallIgnoresIdle(c: Config, b: Buckets, key: string, at: real)
    ensures Admits(c, b, key, at) == Admits(NeverEvicting(c), b, key, at)
    ensures AfterCall(c, b, key, at) == AfterCall(NeverEvicting(c), b, key, at)
  {
    assert Found(c, b, key, at) == Found(NeverEvicting(c), b, key, at);
  }

  /** Until somebody evicts, two limiters that differ in idleTTL only are the same. */
  lemma {:induction false} SameWithoutGc(c: Config, b: Buckets, script: seq<Op>)
    requires CallsOnly(script)
    ensures Exec(c, b, script) == Exec(NeverEvicting(c), b, script)
    decreases |script|
  {
    if script != [] {
      CallIgnoresIdle(c, b, script[0].key, script[0].at);
      SameWithoutGc(c, Next(c, b, script[0]), script[1..]);
    }
  }

  /** What differs after a prefix of calls differs from the start. */
  lemma {:induction false} DifferAfter(c: Config, b: Buckets, prefix: seq<Op>, tail: seq<Op>)
    requires CallsOnly(prefix)
    requires Differ(c, NeverEvicting(c), Exec(c, b, prefix), Exec(c, b, prefix), tail)
    ensures Differ(c, NeverEvicting(c), b, b, prefix + tail)
    decreases |prefix|
  {
    if prefix == [] {
      assert prefix + tail == tail;
    } else {
      assert (prefix + tail)[1..] == prefix[1..] + tail;
      CallIgnoresIdle(c, b, prefix[0].key, prefix[0].at);
      DifferAfter(c, Next(c, b, prefix[0]), prefix[1..], tail);
    }
  }

  /** Calls at one moment empty a bucket to less than one token. */
  lemma {:induction false} Drain(c: Config, b: Buckets, key: string, s: real, n: nat) returns (script: seq<Op>)
    requires c.rate >= 0.0 && Sane(c, b, s) && 1.0 <= Level(c, b, key, s) < n as real
    ensures CallsOnly(script) && (forall i :: 0 <= i < |script| ==> script[i].at == s)
    ensures var e := Exec(c, b, script);
            Sane(c, e, s) && 0.0 <= Level(c, e, key, s) < 1.0 && key in e && e[key].last == s
    decreases n
  {
    OneCall(c, b, key, s);
    var next := AfterCall(c, b, key, s);
    script := [Call(key, s)];
    assert Exec(c, next, []) == next;
    if Level(c, next, key, s) >= 1.0 {
      var rest := Drain(c, next, key, s, n - 1);
      script := script + rest;
      assert script[1..] == rest;
    }
  }

  // ---- An idle time too short --------------------------------------------------------------

  lemma {:induction false} ExecAppend(c: Config, b: Buckets, script: seq<Op>, op: Op)
    ensures Exec(c, b, script + [op]) == Next(c, Exec(c, b, script), op)
    decreases |script|
  {
    if script == [] {
      assert script + [op] == [op] && [op][1..] == [];
    } else {
      assert (script + [op])[1..] == script[1..] + [op];
      ExecAppend(c, Next(c, b, script[0]), script[1..], op);
    }
  }

  /** Calls that leave the bucket of the empty key as low as calls can: empty if it refills at
      all, and below one token in any case. */
  lemma Empty(c: Config) returns (script: seq<Op>, t: real)
    requires c.rate >= 0.0 && c.burst >= 1.0
    ensures 0.0 <= t && CallsOnly(script) && From(script, 0.0) && forall i :: 0 <= i < |script| ==> script[i].at <= t
    ensures var e := Exec(c, map[], script);
            && Sane(c, e, t) && "" in e && e[""].last == t
            && 0.0 <= Level(c, e, "", t) < 1.0 && (c.rate > 0.0 ==> Level(c, e, "", t) == 0.0)
  {
    script := Drain(c, map[], "", 0.0, c.burst.Floor + 1);
    t := 0.0;
    if c.rate > 0.0 {
      var e := Exec(c, map[], script);
      t := WaitForOne(c, e, "", 0.0);
      OneCall(c, e, "", t);
      ExecAppend(c, map[], script, Call("", t));
      script := script + [Call("", t)];
    }
  }

  /** Long enough for an eviction, too short for the bucket to be full. */
  lemma IdleButNotFull(c: Config, level: real) returns (wait: real)
    requires c.rate >= 0.0 && c.burst >= 1.0 && !EvictionSafe(c)
    requires 0.0 <= level < 1.0 && (c.rate > 0.0 ==> level == 0.0)
    ensures wait >= 0.0 && wait > c.idleTTL && level + wait * c.rate < c.burst
  {
    if c.idleTTL < 0.0 {
      wait := 0.0;
    } else if c.rate == 0.0 {
      wait := c.idleTTL + 1.0;
    } else {
      var full := c.burst / c.rate;
      assert full * c.rate == c.burst;
      assert full > c.idleTTL by {
        if full <= c.idleTTL {
          AccrualGrows(c, full, c.idleTTL);
          assert false;
        }
      }
      wait := (c.idleTTL + full) / 2.0;
      assert wait * c.rate == (c.idleTTL * c.rate + full * c.rate) / 2.0;
    }
  }

  /** The eviction refills the bucket; without it the level is still short of full. */
  lemma GcRefills(c: Config, e: Buckets, t: real) returns (s: real)
    requires c.rate >= 0.0 && c.burst >= 1.0 && !EvictionSafe(c) && Sane(c, e, t) && "" in e && e[""].last == t
    requires 0.0 <= Level(c, e, "", t) < 1.0 && (c.rate > 0.0 ==> Level(c, e, "", t) == 0.0)
    ensures t <= s && Sane(c, AfterGc(c, e, s), s) && Sane(NeverEvicting(c), e, s)
    ensures 0.0 <= Level(NeverEvicting(c), e, "", s) < Level(c, AfterGc(c, e, s), "", s) == c.burst
    ensures c.rate == 0.0 ==> Level(NeverEvicting(c), e, "", s) < 1.0
  {
    var wait := IdleButNotFull(c, Level(c, e, "", t));
    s := t + wait;
    AccrualSplits(c, t, s);
    LevelGrows(c, e, "", t, s);
    FoundLevel(c, e, "", s);
    assert Level(c, e, "", s) == Level(NeverEvicting(c), e, "", s);
  }

  lemma {:induction false} DifferMeans(c: Config, d: Config, ops: seq<Op>, n: nat)
    requires n <= |ops| && Differ(c, d, After(c, ops, n), After(d, ops, n), ops[n..])
    ensures exists i :: n <= i < |ops| && ops[i].Call? && Passes(c, ops, ops[i].key, i) != Passes(d, ops, ops[i].key, i)
    decreases |ops| - n
  {
    if !(ops[n].Call? && Passes(c, ops, ops[n].key, n) != Passes(d, ops, ops[n].key, n)) {
      assert ops[n..][0] == ops[n] && ops[n..][1..] == ops[n+1..];
      assert After(c, ops, n + 1) == Next(c, After(c, ops, n), ops[n]);
      assert After(d, ops, n + 1) == Next(d, After(d, ops, n), ops[n]);
      DifferMeans(c, d, ops, n + 1);
    }
  }

  lemma InOrder(script: seq<Op>, t: real, tail: seq<Op>, s: real)
    requires From(script, 0.0) && (forall i :: 0 <= i < |script| ==> script[i].at <= t) && t <= s && From(tail, s)
    ensures Ordered(script + tail)
  {
    var all := script + tail;
    assert forall i :: |script| <= i < |all| ==> all[i] == tail[i - |script|];
  }

  /** From an emptied bucket on, an early eviction and some calls bring out the difference. */
  lemma EvictionTells(c: Config, e: Buckets, t: real) returns (tail: seq<Op>, s: real)
    requires c.rate >= 0.0 && c.burst >= 1.0 && !EvictionSafe(c) && Sane(c, e, t) && "" in e && e[""].last == t
    requires 0.0 <= Level(c, e, "", t) < 1.0 && (c.rate > 0.0 ==> Level(c, e, "", t) == 0.0)
    ensures t <= s && From(tail, s) && Differ(c, NeverEvicting(c), e, e, tail)
  {
    var d := NeverEvicting(c);
    s := GcRefills(c, e, t);
    var a := AfterGc(c, e, s);
    var rest: seq<Op>;
    if c.rate > 0.0 {
      rest := TellApart(c, d, a, e, "", s, Level(d, e, "", s).Floor + 1);
    } else {
      CallTells(c, d, a, e, "", s);
      rest := [Call("", s)];
    }
    Prepend(Gc(s), rest, s);
    tail := [Gc(s)] + rest;
    assert Next(c, e, Gc(s)) == a && Next(d, e, Gc(s)) == e;
  }

  /** A limiter that evicts too early is found out by some trace. */
  lemma EarlyEvictionIsNoticed(c: Config) returns (ops: seq<Op>, i: nat)
    requires c.rate >= 0.0 && c.burst >= 1.0 && !EvictionSafe(c)
    ensures Ordered(ops) && i < |ops| && ops[i].Call?
    ensures Passes(c, ops, ops[i].key, i) != Passes(NeverEvicting(c), ops, ops[i].key, i)
  {
    var d := NeverEvicting(c);
    var script, t := Empty(c);
    var tail, s := EvictionTells(c, Exec(c, map[], script), t);
    InOrder(script, t, tail, s);
    DifferAfter(c, map[], script, tail);
    ops := script + tail;
    assert ops[0..] == ops;
    DifferMeans(c, d, ops, 0);
    i :| 0 <= i < |ops| && ops[i].Call? && Passes(c, ops, ops[i].key, i) != Passes(d, ops, ops[i].key, i);
  }

  /** No trace tells the limiter from one that never evicts. */
  ghost predicate Invisible(c: Config) {
    forall ops: seq<Op>, i :: Ordered(ops) && 0 <= i < |ops| && ops[i].Call? ==>
      Passes(c, ops, ops[i].key, i) == Passes(NeverEvicting(c), ops, ops[i].key, i)
  }

  lemma {:induction false} BucketsAreCapped(c: Config, ops: seq<Op>, n: nat)
    requires n <= |ops|
    ensures forall key :: key in After(c, ops, n) ==> After(c, ops, n)[key].tokens <= c.burst
  {
    if n > 0 { BucketsAreCapped(c, ops, n - 1); }
  }

  /** Eviction is invisible exactly when idleTTL * rate is at least burst, or eviction is off, or
      the bucket never holds a whole token. */
  lemma EvictionTheorem(c: Config)
    requires c.rate >= 0.0
    ensures Invisible(c) <==> EvictionSafe(c) || c.burst < 1.0
  {
    if !EvictionSafe(c) && c.burst >= 1.0 {
      var ops, i := EarlyEvictionIsNoticed(c);
    } else {
      forall ops: seq<Op>, i | Ordered(ops) && 0 <= i < |ops| && ops[i].Call?
        ensures Passes(c, ops, ops[i].key, i) == Passes(NeverEvicting(c), ops, ops[i].key, i)
      {
        if EvictionSafe(c) {
          EvictionIsInvisible(c, ops, i);
        } else {
          BucketsAreCapped(c, ops, i);
          BucketsAreCapped(NeverEvicting(c), ops, i);
        }
      }
    }
  }
}
