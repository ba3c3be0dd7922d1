/** Delivery of usage events to the control plane: a bounded queue, a bounded retry loop over a
    lossy link, and a receiver that ignores keys it has booked before. */
module UsageDelivery {

  const DEFAULT_MAX_ATTEMPTS: nat := 4
  const DEFAULT_QUEUE_SIZE: nat := 1024

  datatype UsageEvent = UsageEvent(account: string, kind: string, count: int, key: string)

  /** What comes back from one POST. */
  datatype Reply = NoReply | Status(code: int)

  /** One POST: whether the control plane received it, and what the client saw. A request can
      be received and its answer lost. */
  datatype Attempt = Attempt(received: bool, reply: Reply)

  datatype Verdict = Delivered | Rejected | Again

  function Judge(reply: Reply): Verdict {
    match reply
    case NoReply => Again
    case Status(code) =>
      if 200 <= code < 300 then Delivered
      else if 400 <= code < 500 then Rejected
      else Again
  }

  /** An answer in the 200s. */
  ghost predicate Succeeds(reply: Reply) {
    reply.Status? && 200 <= reply.code < 300
  }

  /** An answer after which nothing is sent again: a success, or one in the 400s. */
  ghost predicate Settles(reply: Reply) {
    reply.Status? && (200 <= reply.code < 300 || 400 <= reply.code < 500)
  }

  /** The control plane's books after receiving an event: the first arrival of a key counts. */
  function Book(booked: map<string, UsageEvent>, ev: UsageEvent): map<string, UsageEvent> {
    if ev.key in booked then booked else booked[ev.key := ev]
  }

  /** How many attempts the retry loop makes from attempt i on: up to the first final verdict. */
  function Tries(net: seq<Attempt>, i: nat, max: nat): (n: nat)
    requires i < max <= |net|
    ensures i < n <= max
    ensures forall j :: i <= j < n - 1 ==> Judge(net[j].reply) == Again
    ensures n < max ==> Judge(net[n-1].reply) != Again
    decreases max - i
  {
    if Judge(net[i].reply) != Again || i + 1 == max then i + 1 else Tries(net, i + 1, max)
  }

  /** Some of the first n attempts was received. */
  ghost predicate GotThrough(net: seq<Attempt>, n: nat)
    requires n <= |net|
  {
    exists i :: 0 <= i < n && net[i].received
  }

  lemma OneMoreAttempt(net: seq<Attempt>, n: nat)
    requires n < |net|
    ensures GotThrough(net, n + 1) <==> GotThrough(net, n) || net[n].received
  {
    if net[n].received { assert GotThrough(net, n + 1); }
  }

  /** Exactly when n attempts are made: the last is the first that settles the matter, or none
      before it does and the budget is used up. */
  lemma {:induction false} TriesUntilSettled(net: seq<Attempt>, i: nat, max: nat, n: nat)
    requires i < max <= |net| && i < n <= max
    ensures Tries(net, i, max) == n <==>
            (forall j :: i <= j < n - 1 ==> !Settles(net[j].reply)) && (n < max ==> Settles(net[n-1].reply))
    decreases max - i
  {
    if Tries(net, i, max) > i + 1 && n > i + 1 {
      TriesUntilSettled(net, i + 1, max, n);
    }
  }

  /** Failures that settle nothing, and then a success within the budget: it is reached, and is the
      last attempt. */
  lemma SuccessIsReached(net: seq<Attempt>, max: nat, k: nat)
    requires k < max <= |net| && Succeeds(net[k].reply)
    requires forall j :: 0 <= j < k ==> net[j].reply.NoReply? || 500 <= net[j].reply.code < 600
    ensures Tries(net, 0, max) == k + 1
  {
    TriesUntilSettled(net, 0, max, k + 1);
  }

  class ControlPlane {
    var booked: map<string, UsageEvent>

    constructor ()
      ensures booked == map[]
    {
      booked := map[];
    }

    method Receive(ev: UsageEvent)
      modifies this
      ensures booked == Book(old(booked), ev)
    {
      if ev.key !in booked {
        booked := booked[ev.key := ev];
      }
    }
  }

  /** A client is built only with a control plane to talk to. */
  method NewUsageClient(url: string, maxAttempts: int, queueSize: int) returns (c: UsageClient?)
    ensures c == null <==> url == ""
    ensures c != null ==>
              && fresh(c) && c.Valid() && c.queue == [] && c.dropped == 0
              && c.maxAttempts == (if maxAttempts <= 0 then 4 else maxAttempts)
              && c.queueSize == (if queueSize <= 0 then 1024 else queueSize)
  {
    if url == "" {
      return null;
    }
    c := new UsageClient(maxAttempts, queueSize);
  }

  class UsageClient {
    const maxAttempts: nat
    const queueSize: nat
    var queue: seq<UsageEvent>
    var dropped: nat

    ghost predicate Valid()
      reads this
    {
      0 < maxAttempts && 0 < queueSize && |queue| <= queueSize
    }

    constructor (maxAttempts: int, queueSize: int)
      ensures Valid() && queue == [] && dropped == 0
      ensures this.maxAttempts == if maxAttempts <= 0 then DEFAULT_MAX_ATTEMPTS else maxAttempts
      ensures this.queueSize == if queueSize <= 0 then DEFAULT_QUEUE_SIZE else queueSize
    {
      this.maxAttempts := if maxAttempts <= 0 then DEFAULT_MAX_ATTEMPTS else maxAttempts;
      this.queueSize := if queueSize <= 0 then DEFAULT_QUEUE_SIZE else queueSize;
      queue, dropped := [], 0;
    }

    method Report(account: string, kind: string, count: int, key: string)
      requires Valid()
      modifies this
      ensures Valid()
      ensures var ev, taken := UsageEvent(account, kind, count, key), account != "" && count > 0;
              && queue == (if taken && |old(queue)| < queueSize then old(queue) + [ev] else old(queue))
              && dropped == old(dropped) + (if taken && |old(queue)| == queueSize then 1 else 0)
    {
      if account == "" || count <= 0 {
        return;
      }
      Enqueue(UsageEvent(account, kind, count, key));
    }

    method Enqueue(ev: UsageEvent)
      requires Valid()
      modifies this
      ensures Valid()
      ensures queue == if |old(queue)| < queueSize then old(queue) + [ev] else old(queue)
      ensures dropped == old(dropped) + (if |old(queue)| == queueSize then 1 else 0)
    {
      if |queue| < queueSize {
        queue := queue + [ev];
      } else {
        dropped := dropped + 1;
      }
    }

    /** The retry loop for one event: it ends with the first answer that settles the matter, or when
        the budget is used up. However many attempts get through, the control plane books the
        event at most once; the drop counter moves exactly when the last answer was not a success.
        `net` is what the network does to each attempt. */
    method Post(ev: UsageEvent, cp: ControlPlane, net: seq<Attempt>) returns (attempts: nat)
      requires Valid() && maxAttempts <= |net|
      modifies this, cp
      ensures Valid() && queue == old(queue)
      ensures attempts == Tries(net, 0, maxAttempts)
      ensures 0 < attempts <= maxAttempts && forall j :: 0 <= j < attempts - 1 ==> !Settles(net[j].reply)
      ensures attempts < maxAttempts ==> Settles(net[attempts-1].reply)
      ensures dropped == old(dropped) + (if Succeeds(net[attempts-1].reply) then 0 else 1)
      ensures cp.booked == if GotThrough(net, attempts) then Book(old(cp.booked), ev) else old(cp.booked)
    {
      attempts := 0;
      while attempts < maxAttempts
        invariant 0 <= attempts <= maxAttempts
        invariant attempts < maxAttempts ==> Tries(net, 0, maxAttempts) == Tries(net, attempts, maxAttempts)
        invariant attempts == maxAttempts ==>
                    Tries(net, 0, maxAttempts) == maxAttempts && Judge(net[maxAttempts-1].reply) == Again
        invariant cp.booked == if GotThrough(net, attempts) then Book(old(cp.booked), ev) else old(cp.booked)
        invariant queue == old(queue) && dropped == old(dropped)
      {
        var this_ := net[attempts];
        OneMoreAttempt(net, attempts);
        attempts := attempts + 1;
        if this_.received {
          cp.Receive(ev);
        }
        match Judge(this_.reply) {
          case Delivered =>
            return;
          case Rejected =>
            dropped := dropped + 1;
            return;
          case Again =>
        }
      }
      dropped := dropped + 1;
    }

    /** One turn of the worker: the oldest event in the queue is posted. */
    method DrainOne(cp: ControlPlane, net: seq<Attempt>) returns (attempts: nat)
      requires Valid() && maxAttempts <= |net| && queue != []
      modifies this, cp
      ensures Valid() && queue == old(queue)[1..]
      ensures attempts == Tries(net, 0, maxAttempts)
      ensures cp.booked == if GotThrough(net, attempts) then Book(old(cp.booked), old(queue)[0]) else old(cp.booked)
      ensures dropped == old(dropped) + (if Succeeds(net[attempts-1].reply) then 0 else 1)
    {
      var ev := queue[0];
      queue := queue[1..];
      attempts := Post(ev, cp, net);
    }
  }
}
