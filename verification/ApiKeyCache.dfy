/** API-key introspection: the control plane's answers, cached for 60 seconds, under any number
    of introspections at once. Keys stand for their hashes. */
module ApiKeyCache {

  /** In nanoseconds. */
  const CACHE_TTL: int := 60 * 1_000_000_000

  datatype Option<T> = None | Some(value: T)

  datatype Result = Result(valid: bool, account: string, scopes: seq<string>, products: seq<string>)

  datatype Cached = Cached(res: Result, fetched: int)

  type Cache = map<string, Cached>

  /** How a request comes back; a body that does not decode is None. */
  datatype Reply = TransportError | Http(status: int, body: Option<Result>)

  function Lookup(cache: Cache, key: string, now: int): Option<Result> {
    if key in cache && now - cache[key].fetched < CACHE_TTL then Some(cache[key].res) else None
  }

  class CpIntrospector {
    var cache: Cache

    constructor ()
      ensures cache == map[]
    {
      cache := map[];
    }

    method FromCache(key: string, now: int) returns (found: Option<Result>)
      ensures found.Some? <==> key in cache && now - cache[key].fetched < 60_000_000_000
      ensures found.Some? ==> found.value == cache[key].res
      ensures found == Lookup(cache, key, now)
    {
      if key !in cache || now - cache[key].fetched >= CACHE_TTL {
        return None;
      }
      return Some(cache[key].res);
    }

    method Remember(key: string, res: Result, now: int)
      modifies this
      ensures cache == old(cache)[key := Cached(res, now)]
    {
      cache := cache[key := Cached(res, now)];
    }

    /** One introspection nobody else interleaves with: `looked` and `came` are the two readings
        of the clock, and None is the error the caller fails closed on. Nothing but a decoded
        200 answer is ever cached. */
    method Introspect(key: string, looked: int, reply: Reply, came: int) returns (r: Option<Result>)
      modifies this
      ensures var hit := Lookup(old(cache), key, looked);
              var answered := reply.Http? && reply.status == 200 && reply.body.Some?;
              && r == (if hit.Some? then hit else if answered then reply.body else None)
              && cache == (if hit.None? && answered then old(cache)[key := Cached(reply.body.value, came)]
                           else old(cache))
    {
      var hit := FromCache(key, looked);
      if hit.Some? {
        return hit;
      }
      if reply.TransportError? {
        return None;
      }
      if reply.status != 200 {
        return None;
      }
      if reply.body.None? {
        return None;
      }
      Remember(key, reply.body.value, came);
      return reply.body;
    }
  }

  // ---- Many introspections at once ------------------------------------------------------

  /** What the control plane said about a key, and when. */
  datatype Answer = Answer(key: string, res: Result, given: int)

  datatype Flight = Asking(key: string, looked: int) | Answered(answer: Answer, looked: int)

  /** A result handed to a caller, from the cache or fresh. */
  datatype Told = Told(key: string, res: Result, at: int)

  /** `answers` and `told` record the past. */
  datatype System = System(
    cache: Cache, flights: map<nat, Flight>, answers: set<Answer>, told: set<Told>, clock: int)

  /** A caller reads the cache; the control plane answers a request; the answer is cached and
      handed out; a request ends in an error. The two cache accesses hold the lock and read the
      clock under it. */
  datatype Action =
    | Look(id: nat, key: string, at: int)
    | Serve(id: nat, res: Result, at: int)
    | Arrive(id: nat, at: int)
    | Fail(id: nat, at: int)

  /** No request takes longer than `longest` from its cache lookup to its answer's arrival. */
  ghost predicate Can(longest: int, s: System, a: Action) {
    s.clock <= a.at &&
    match a
    case Look(id, _, _) => id !in s.flights
    case Serve(id, _, _) => id in s.flights && s.flights[id].Asking?
    case Arrive(id, at) => id in s.flights && s.flights[id].Answered? && at - s.flights[id].looked <= longest
    case Fail(id, _) => id in s.flights
  }

  ghost function Do(longest: int, s: System, a: Action): System
    requires Can(longest, s, a)
  {
    match a
    case Look(id, key, at) =>
      var hit := Lookup(s.cache, key, at);
      if hit.Some? then s.(told := s.told + {Told(key, hit.value, at)}, clock := at)
      else s.(flights := s.flights[id := Asking(key, at)], clock := at)
    case Serve(id, res, at) =>
      var answer := Answer(s.flights[id].key, res, at);
      s.(flights := s.flights[id := Answered(answer, s.flights[id].looked)],
         answers := s.answers + {answer}, clock := at)
    case Arrive(id, at) =>
      var answer := s.flights[id].answer;
      System(s.cache[answer.key := Cached(answer.res, at)], s.flights - {id}, s.answers,
             s.told + {Told(answer.key, answer.res, at)}, at)
    case Fail(id, at) => s.(flights := s.flights - {id}, clock := at)
  }

  ghost predicate IsRun(longest: int, states: seq<System>, actions: seq<Action>) {
    && |states| == |actions| + 1
    && states[0].cache == map[] && states[0].flights == map[] && states[0].told == {}
    && forall i :: 0 <= i < |actions| ==>
         Can(longest, states[i], actions[i]) && states[i+1] == Do(longest, states[i], actions[i])
  }

  /** The control plane said `res` about `key` after moment `after`, not after `upTo`. */
  ghost predicate Said(answers: set<Answer>, key: string, res: Result, after: int, upTo: int) {
    exists a :: a in answers && a.key == key && a.res == res && after < a.given <= upTo
  }

  ghost predicate CacheInv(longest: int, s: System) {
    forall k :: k in s.cache ==>
      s.cache[k].fetched <= s.clock
      && Said(s.answers, k, s.cache[k].res, s.cache[k].fetched - longest - 1, s.cache[k].fetched)
  }

  ghost predicate FlightInv(s: System) {
    forall id :: id in s.flights ==>
      s.flights[id].looked <= s.clock
      && (s.flights[id].Answered? ==>
            s.flights[id].answer in s.answers
            && s.flights[id].looked <= s.flights[id].answer.given <= s.clock)
  }

  ghost predicate ToldInv(longest: int, s: System) {
    forall x :: x in s.told ==> Said(s.answers, x.key, x.res, x.at - CACHE_TTL - longest, x.at)
  }

  ghost predicate Inv(longest: int, s: System) {
    CacheInv(longest, s) && FlightInv(s) && ToldInv(longest, s)
  }

  lemma SaidRemains(answers: set<Answer>, more: set<Answer>, key: string, res: Result, after: int, upTo: int,
                    after': int, upTo': int)
    requires Said(answers, key, res, after, upTo) && answers <= more && after' <= after && upTo <= upTo'
    ensures Said(more, key, res, after', upTo')
  {}

  lemma LookKeeps(longest: int, s: System, a: Action)
    requires Inv(longest, s) && a.Look? && Can(longest, s, a)
    ensures Inv(longest, Do(longest, s, a))
  {
    if Lookup(s.cache, a.key, a.at).Some? {
      var c := s.cache[a.key];
      SaidRemains(s.answers, s.answers, a.key, c.res, c.fetched - longest - 1, c.fetched,
                  a.at - CACHE_TTL - longest, a.at);
    }
  }

  lemma ServeKeeps(longest: int, s: System, a: Action)
    requires Inv(longest, s) && a.Serve? && Can(longest, s, a)
    ensures Inv(longest, Do(longest, s, a))
  {
    var s' := Do(longest, s, a);
    forall k | k in s.cache
      ensures Said(s'.answers, k, s.cache[k].res, s.cache[k].fetched - longest - 1, s.cache[k].fetched)
    {
      var from, to := s.cache[k].fetched - longest - 1, s.cache[k].fetched;
      SaidRemains(s.answers, s'.answers, k, s.cache[k].res, from, to, from, to);
    }
    forall x | x in s.told
      ensures Said(s'.answers, x.key, x.res, x.at - CACHE_TTL - longest, x.at)
    {
      var from := x.at - CACHE_TTL - longest;
      SaidRemains(s.answers, s'.answers, x.key, x.res, from, x.at, from, x.at);
    }
  }

  lemma ArriveKeeps(longest: int, s: System, a: Action)
    requires Inv(longest, s) && a.Arrive? && Can(longest, s, a)
    ensures Inv(longest, Do(longest, s, a))
  {
    var answer := s.flights[a.id].answer;
    assert Said(s.answers, answer.key, answer.res, a.at - longest - 1, a.at);
    SaidRemains(s.answers, s.answers, answer.key, answer.res, a.at - longest - 1, a.at,
                a.at - CACHE_TTL - longest, a.at);
  }

  lemma StepKeepsInvariant(longest: int, s: System, a: Action)
    requires Inv(longest, s) && Can(longest, s, a)
    ensures Inv(longest, Do(longest, s, a))
  {
    match a
    case Look(_, _, _) => LookKeeps(longest, s, a);
    case Serve(_, _, _) => ServeKeeps(longest, s, a);
    case Arrive(_, _) => ArriveKeeps(longest, s, a);
    case Fail(_, _) =>
  }

  lemma {:induction false} RunKeepsInvariant(longest: int, states: seq<System>, actions: seq<Action>, i: nat)
    requires IsRun(longest, states, actions) && i < |states|
    ensures Inv(longest, states[i])
  {
    if i > 0 {
      RunKeepsInvariant(longest, states, actions, i - 1);
      StepKeepsInvariant(longest, states[i-1], actions[i-1]);
    }
  }

  /** Every run: a result handed out at some moment is one the control plane gave less than 60
      seconds plus the longest request before. So errors are never handed out as results, from
      the cache or otherwise. */
  lemma ResultsAreFresh(longest: int, states: seq<System>, actions: seq<Action>, i: nat, x: Told)
    requires IsRun(longest, states, actions) && i < |states| && x in states[i].told
    ensures exists a :: a in states[i].answers && a.key == x.key && a.res == x.res
                        && x.at - CACHE_TTL - longest < a.given <= x.at
  {
    RunKeepsInvariant(longest, states, actions, i);
  }

  /** Once the control plane calls a key invalid for good, nobody is told otherwise after 60
      seconds plus the longest request. */
  lemma RevocationTakesHold(longest: int, states: seq<System>, actions: seq<Action>, i: nat,
                            key: string, revoked: int, x: Told)
    requires IsRun(longest, states, actions) && i < |states| && x in states[i].told && x.key == key
    requires forall a :: a in states[i].answers && a.key == key && a.given >= revoked ==> !a.res.valid
    requires x.at - revoked >= CACHE_TTL + longest
    ensures !x.res.valid
  {
    ResultsAreFresh(longest, states, actions, i, x);
  }

  // ---- How often a key is asked -----------------------------------------------------------

  /** Step i caches an answer about the key. */
  ghost predicate Caches(states: seq<System>, actions: seq<Action>, i: nat, key: string)
    requires i < |actions| && |states| == |actions| + 1
  {
    && actions[i].Arrive? && actions[i].id in states[i].flights
    && states[i].flights[actions[i].id].Answered? && states[i].flights[actions[i].id].answer.key == key
  }

  /** An answer cached at step i is not older than what the cache holds later. */
  lemma {:induction false} CacheMovesOn(
    longest: int, states: seq<System>, actions: seq<Action>, key: string, i: nat, j: nat)
    requires IsRun(longest, states, actions) && i < j < |states| && Caches(states, actions, i, key)
    ensures key in states[j].cache && actions[i].at <= states[j].cache[key].fetched <= states[j].clock
    decreases j
  {
    assert Can(longest, states[j-1], actions[j-1]);
    if i < j - 1 { CacheMovesOn(longest, states, actions, key, i, j - 1); }
  }

  /** What the cache holds was cached at some step. */
  lemma {:induction false} CachedAtSomeStep(
    longest: int, states: seq<System>, actions: seq<Action>, key: string, j: nat) returns (i: nat)
    requires IsRun(longest, states, actions) && j < |states| && key in states[j].cache
    ensures i < j && Caches(states, actions, i, key) && states[j].cache[key].fetched == actions[i].at
  {
    assert j > 0 && Can(longest, states[j-1], actions[j-1]);
    if Caches(states, actions, j - 1, key) {
      i := j - 1;
    } else {
      i := CachedAtSomeStep(longest, states, actions, key, j - 1);
    }
  }

  /** Exactly when a lookup sends a request: when every answer about the key that was ever cached
      is 60 seconds old or more. */
  lemma AskedExactlyWhenStale(longest: int, states: seq<System>, actions: seq<Action>, j: nat)
    requires IsRun(longest, states, actions) && j < |actions| && actions[j].Look?
    ensures Lookup(states[j].cache, actions[j].key, actions[j].at).None? <==>
            forall i :: 0 <= i < j && Caches(states, actions, i, actions[j].key) ==>
              actions[j].at - actions[i].at >= CACHE_TTL
  {
    var key := actions[j].key;
    forall i | 0 <= i < j && Caches(states, actions, i, key)
      ensures key in states[j].cache && actions[i].at <= states[j].cache[key].fetched
    {
      CacheMovesOn(longest, states, actions, key, i, j);
    }
    if key in states[j].cache {
      var i := CachedAtSomeStep(longest, states, actions, key, j);
    }
  }

  /** A request that ends in an error leaves nothing behind: one caller alone, asking again at
      once, sends a second request at the same moment. */
  lemma ErrorsAreAskedAgain(longest: nat, key: string, at: int) returns (states: seq<System>)
    ensures IsRun(longest, states, [Look(0, key, at), Fail(0, at), Look(1, key, at)])
    ensures forall i :: i in {0, 2} ==> Lookup(states[i].cache, key, at).None?
    ensures 0 in states[1].flights && states[2].flights == map[] && 1 in states[3].flights
  {
    var s0 := System(map[], map[], {}, {}, at);
    var s1 := s0.(flights := map[0 := Asking(key, at)]);
    var s3 := s0.(flights := map[1 := Asking(key, at)]);
    assert s1.flights - {0} == map[];
    states := [s0, s1, s0, s3];
  }

  const OPEN := Result(true, "a", [], [])
  const REVOKED := Result(false, "", [], [])

  const FIRST := Answer("k", OPEN, 0)
  const SECOND := Answer("k", REVOKED, 1)
  const BOTH := {FIRST, SECOND}
  const TOLD_REVOKED := Told("k", REVOKED, 1)

  /** Two lookups before any answer: the later answer arrives first, then the older one. */
  function Race(longest: nat): seq<Action> {
    [Look(0, "k", 0), Look(1, "k", 0), Serve(0, OPEN, 0), Serve(1, REVOKED, 1),
     Arrive(1, 1), Arrive(0, longest), Look(2, "k", longest + CACHE_TTL - 1)]
  }

  function RaceState(longest: nat, i: nat): System {
    var late := map["k" := Cached(OPEN, longest)];
    var told := {TOLD_REVOKED, Told("k", OPEN, longest)};
    var end := longest + CACHE_TTL - 1;
    match i
    case 0 => System(map[], map[], {}, {}, 0)
    case 1 => System(map[], map[0 := Asking("k", 0)], {}, {}, 0)
    case 2 => System(map[], map[0 := Asking("k", 0), 1 := Asking("k", 0)], {}, {}, 0)
    case 3 => System(map[], map[0 := Answered(FIRST, 0), 1 := Asking("k", 0)], {FIRST}, {}, 0)
    case 4 => System(map[], map[0 := Answered(FIRST, 0), 1 := Answered(SECOND, 0)], BOTH, {}, 1)
    case 5 => System(map["k" := Cached(REVOKED, 1)], map[0 := Answered(FIRST, 0)], BOTH, {TOLD_REVOKED}, 1)
    case 6 => System(late, map[], BOTH, told, longest)
    case _ => System(late, map[], BOTH, told + {Told("k", OPEN, end)}, end)
  }

  ghost predicate Steps(longest: nat, s: System, a: Action, s': System) {
    Can(longest, s, a) && Do(longest, s, a) == s'
  }

  lemma RaceLooks(longest: nat)
    ensures Steps(longest, RaceState(longest, 0), Race(longest)[0], RaceState(longest, 1))
    ensures Steps(longest, RaceState(longest, 1), Race(longest)[1], RaceState(longest, 2))
    ensures Steps(longest, RaceState(longest, 6), Race(longest)[6], RaceState(longest, 7))
  {}

  lemma RaceServes(longest: nat)
    ensures Steps(longest, RaceState(longest, 2), Race(longest)[2], RaceState(longest, 3))
    ensures Steps(longest, RaceState(longest, 3), Race(longest)[3], RaceState(longest, 4))
  {}

  lemma RaceArrives(longest: nat)
    requires longest > 0
    ensures Steps(longest, RaceState(longest, 4), Race(longest)[4], RaceState(longest, 5))
    ensures Steps(longest, RaceState(longest, 5), Race(longest)[5], RaceState(longest, 6))
  {}

  /** One key can be asked twice at once, and then the older answer may overwrite the newer: the
      control plane says "valid" at moment 0 and "revoked" at moment 1, a caller is told
      "revoked", and later ones "valid" again, up to the very last moment ResultsAreFresh allows. */
  lemma RevokedKeyComesBack(longest: nat) returns (states: seq<System>)
    requires longest > 0
    ensures IsRun(longest, states, Race(longest))
    ensures states[7].answers == {Answer("k", OPEN, 0), Answer("k", REVOKED, 1)}
    ensures Told("k", REVOKED, 1) in states[5].told
    ensures Told("k", OPEN, longest + CACHE_TTL - 1) in states[7].told
  {
    states := seq(8, i requires 0 <= i < 8 => RaceState(longest, i));
    RaceLooks(longest);
    RaceServes(longest);
    RaceArrives(longest);
    forall i | 0 <= i < 7 ensures Steps(longest, states[i], Race(longest)[i], states[i+1]) {}
  }
}
