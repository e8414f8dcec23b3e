/** Concurrent requests for first-seen epochs as a step system: one load per epoch at a time, shared by everyone who
    asks meanwhile. */
module FirstSeenFlight {
  import opened Core

  /** A load ends with data or with an error; `Data` stands for the grouped votes of an epoch. */
  type Data = int
  type Result = Option<Data>

  /** Where a request is; `flight` is the number of the in-flight record it holds or waits for. */
  datatype PC =
    | Start
    | Waiting(flight: nat)
    | Loading(flight: nat)
    | Publishing(flight: nat, result: Result)
    | Returned(flight: nat, result: Result)

  datatype Request = Request(epoch: uint64, pc: PC)

  /** An in-flight record; `closes` counts how often its channel was closed. Records stay reachable after they leave the
      table. */
  datatype Flight = Flight(epoch: uint64, result: Result, closes: nat)

  /** A cache entry remembers (as history) the flight that produced it. */
  datatype Entry = Entry(data: Data, flight: nat)

  datatype System = System(requests: seq<Request>, cache: map<uint64, Entry>, inflight: map<uint64, nat>,
                           flights: seq<Flight>)

  ghost predicate Init(s: System) {
    s == System([], map[], map[], [])
  }

  function Moved(s: System, t: nat, pc: PC): System
    requires t < |s.requests|
  {
    s.(requests := s.requests[t := s.requests[t].(pc := pc)])
  }

  ghost predicate Arrive(s: System, s': System, epoch: uint64) {
    s' == s.(requests := s.requests + [Request(epoch, Start)])
  }

  /** The first critical section: serve from the cache, join a flight, or start one. */
  ghost predicate StartStep(s: System, s': System, t: nat)
    requires t < |s.requests|
  {
    var e := s.requests[t].epoch;
    s.requests[t].pc.Start? &&
    if e in s.cache then s' == Moved(s, t, Returned(s.cache[e].flight, Some(s.cache[e].data)))
    else if e in s.inflight then s' == Moved(s, t, Waiting(s.inflight[e]))
    else s' == Moved(s, t, Loading(|s.flights|)).(inflight := s.inflight[e := |s.flights|],
      flights := s.flights + [Flight(e, None, 0)])
  }

  /** The load runs without the lock and may succeed or fail. */
  ghost predicate LoadStep(s: System, s': System, t: nat)
    requires t < |s.requests|
  {
    s.requests[t].pc.Loading? && exists result: Result :: s' == Moved(s, t, Publishing(s.requests[t].pc.flight, result))
  }

  /** What an LRU cache may hold after an addition: the new entry, and any of the others. */
  ghost predicate Evicted(before: map<uint64, Entry>, after: map<uint64, Entry>) {
    after.Keys <= before.Keys && forall e :: e in after ==> after[e] == before[e]
  }

  /** The second critical section: cache a success, leave the table, and close the channel. */
  ghost predicate PublishStep(s: System, s': System, t: nat)
    requires t < |s.requests|
  {
    var e, pc := s.requests[t].epoch, s.requests[t].pc;
    && pc.Publishing? && pc.flight < |s.flights|
    && Evicted(if pc.result.Some? then s.cache[e := Entry(pc.result.value, pc.flight)] else s.cache, s'.cache)
    && s' == Moved(s, t, Returned(pc.flight, pc.result)).(
         cache := s'.cache,
         inflight := s.inflight - {e},
         flights := s.flights[pc.flight :=
           Flight(s.flights[pc.flight].epoch, pc.result, s.flights[pc.flight].closes + 1)])
  }

  /** A closed channel releases its waiters with the record's result. */
  ghost predicate WakeStep(s: System, s': System, t: nat)
    requires t < |s.requests|
  {
    var pc := s.requests[t].pc;
    pc.Waiting? && pc.flight < |s.flights| && s.flights[pc.flight].closes > 0
      && s' == Moved(s, t, Returned(pc.flight, s.flights[pc.flight].result))
  }

  ghost predicate RequestStep(s: System, s': System, t: nat) {
    t < |s.requests| && (StartStep(s, s', t) || LoadStep(s, s', t) || PublishStep(s, s', t) || WakeStep(s, s', t))
  }

  ghost predicate Step(s: System, s': System) {
    || (exists epoch: uint64 :: Arrive(s, s', epoch))
    || (exists t: nat :: RequestStep(s, s', t))
  }

  // ----- the invariant

  predicate Flying(r: Request, k: nat) {
    (r.pc.Loading? || r.pc.Publishing?) && r.pc.flight == k
  }

  /** The record k belongs to a request of its epoch that is still loading. */
  ghost predicate Aloft(s: System, k: nat) {
    k < |s.flights| && s.flights[k].epoch in s.inflight && s.inflight[s.flights[k].epoch] == k
  }

  ghost predicate FlightOk(s: System, k: nat)
    requires k < |s.flights|
  {
    if Aloft(s, k) then s.flights[k].closes == 0 && exists t :: 0 <= t < |s.requests| && Flying(s.requests[t], k)
    else s.flights[k].closes == 1
  }

  ghost predicate RequestOk(s: System, r: Request) {
    match r.pc
    case Start => true
    case Waiting(k) => k < |s.flights| && s.flights[k].epoch == r.epoch
    case Loading(k) => Aloft(s, k) && s.flights[k].epoch == r.epoch
    case Publishing(k, _) => Aloft(s, k) && s.flights[k].epoch == r.epoch
    case Returned(k, result) => k < |s.flights| && s.flights[k] == Flight(r.epoch, result, 1)
  }

  ghost predicate Inv(s: System) {
    && (forall e :: e in s.inflight ==> s.inflight[e] < |s.flights| && s.flights[s.inflight[e]].epoch == e)
    && (forall k :: 0 <= k < |s.flights| ==> FlightOk(s, k))
    && (forall t :: 0 <= t < |s.requests| ==> RequestOk(s, s.requests[t]))
    && (forall t, u, k: nat :: 0 <= t < u < |s.requests| && Flying(s.requests[t], k) ==> !Flying(s.requests[u], k))
    && (forall e :: e in s.cache ==>
      s.cache[e].flight < |s.flights| && s.flights[s.cache[e].flight] == Flight(e, Some(s.cache[e].data), 1))
  }

  lemma ArriveKeeps(s: System, s': System, epoch: uint64)
    requires Inv(s) && Arrive(s, s', epoch)
    ensures Inv(s')
  {
    forall k | 0 <= k < |s'.flights|
      ensures FlightOk(s', k)
    {
      StillOk(s, s', k);
    }
  }

  /** A record stays in order as long as whoever loads it keeps loading. */
  lemma StillOk(s: System, s': System, k: nat)
    requires k < |s.flights| && k < |s'.flights| && FlightOk(s, k) && s'.flights[k] == s.flights[k]
    requires Aloft(s, k) <==> Aloft(s', k)
    requires |s.requests| <= |s'.requests|
    requires forall t :: 0 <= t < |s.requests| && Flying(s.requests[t], k) ==> Flying(s'.requests[t], k)
    ensures FlightOk(s', k)
  {
    if Aloft(s, k) {
      var t :| 0 <= t < |s.requests| && Flying(s.requests[t], k);
      assert Flying(s'.requests[t], k);
    }
  }

  /** A step that touches no record. */
  lemma QuietKeeps(s: System, s': System, t: nat, pc: PC)
    requires Inv(s) && t < |s.requests| && s' == Moved(s, t, pc)
    requires RequestOk(s, s'.requests[t])
    requires forall k :: Flying(s.requests[t], k) <==> Flying(s'.requests[t], k)
    ensures Inv(s')
  {
    forall k | 0 <= k < |s'.flights|
      ensures FlightOk(s', k)
    {
      StillOk(s, s', k);
    }
    forall u | 0 <= u < |s'.requests|
      ensures RequestOk(s', s'.requests[u])
    {
      assert RequestOk(s, if u == t then s'.requests[t] else s.requests[u]);
    }
  }

  lemma ClaimKeeps(s: System, s': System, t: nat)
    requires Inv(s) && t < |s.requests| && s.requests[t].pc.Start? && s.requests[t].epoch !in s.inflight
    requires s' == Moved(s, t, Loading(|s.flights|)).(inflight := s.inflight[s.requests[t].epoch := |s.flights|],
      flights := s.flights + [Flight(s.requests[t].epoch, None, 0)])
    ensures Inv(s')
  {
    var n := |s.flights|;
    forall k | 0 <= k < |s'.flights|
      ensures FlightOk(s', k)
    {
      if k == n {
        assert Flying(s'.requests[t], n);
      } else {
        StillOk(s, s', k);
      }
    }
    forall u | 0 <= u < |s'.requests|
      ensures RequestOk(s', s'.requests[u])
    {
      assert RequestOk(s, s.requests[u]);
    }
  }

  lemma PublishKeeps(s: System, s': System, t: nat)
    requires Inv(s) && t < |s.requests| && PublishStep(s, s', t)
    ensures Inv(s')
  {
    var e, n := s.requests[t].epoch, s.requests[t].pc.flight;
    assert RequestOk(s, s.requests[t]) && FlightOk(s, n) && Flying(s.requests[t], n);
    forall k | 0 <= k < |s'.flights|
      ensures FlightOk(s', k)
    {
      assert FlightOk(s, k);
      if k != n {
        StillOk(s, s', k);
      }
    }
    forall u | 0 <= u < |s'.requests|
      ensures RequestOk(s', s'.requests[u])
    {
      assert RequestOk(s, s.requests[u]);
      if u != t {
        assert !Flying(s.requests[u], n);
      }
    }
  }

  lemma StepKeeps(s: System, s': System)
    requires Inv(s) && Step(s, s')
    ensures Inv(s')
  {
    if epoch: uint64 :| Arrive(s, s', epoch) {
      ArriveKeeps(s, s', epoch);
    } else {
      var t: nat :| RequestStep(s, s', t);
      RequestStepKeeps(s, s', t);
    }
  }

  lemma RequestStepKeeps(s: System, s': System, t: nat)
    requires Inv(s) && RequestStep(s, s', t)
    ensures Inv(s')
  {
    var r := s.requests[t];
    assert RequestOk(s, r);
    if PublishStep(s, s', t) {
      PublishKeeps(s, s', t);
    } else if r.pc.Start? && r.epoch !in s.cache && r.epoch !in s.inflight {
      ClaimKeeps(s, s', t);
    } else {
      if WakeStep(s, s', t) {
        assert FlightOk(s, r.pc.flight);
      }
      QuietKeeps(s, s', t, s'.requests[t].pc);
    }
  }

  // ----- runs

  ghost predicate Run(run: seq<System>) {
    && run != [] && Init(run[0])
    && (forall i :: 0 <= i < |run| - 1 ==> Step(run[i], run[i + 1]))
  }

  lemma {:induction false} RunInv(run: seq<System>, i: nat)
    requires Run(run) && i < |run|
    ensures Inv(run[i])
  {
    if i > 0 {
      RunInv(run, i - 1);
      assert Step(run[i - 1], run[i - 1 + 1]);
      StepKeeps(run[i - 1], run[i]);
    }
  }

  /** At any time at most one request loads an epoch, and the table has an epoch exactly while somebody loads it. */
  lemma OneLoadPerEpoch(run: seq<System>, i: nat, e: uint64)
    requires Run(run) && i < |run|
    ensures var s := run[i];
      && (forall t, u ::
        0 <= t < |s.requests| && 0 <= u < |s.requests| && Loads(s.requests[t], e) && Loads(s.requests[u], e) ==> t == u)
      && (e in s.inflight <==> exists t :: 0 <= t < |s.requests| && Loads(s.requests[t], e))
  {
    RunInv(run, i);
    var s := run[i];
    forall t | 0 <= t < |s.requests| && Loads(s.requests[t], e)
      ensures e in s.inflight && Flying(s.requests[t], s.inflight[e])
    {
      assert RequestOk(s, s.requests[t]);
    }
    if e in s.inflight {
      assert FlightOk(s, s.inflight[e]);
      var t :| 0 <= t < |s.requests| && Flying(s.requests[t], s.inflight[e]);
      assert RequestOk(s, s.requests[t]) && Loads(s.requests[t], e);
    }
  }

  predicate Loads(r: Request, e: uint64) {
    (r.pc.Loading? || r.pc.Publishing?) && r.epoch == e
  }

  /** No channel is closed twice: a record is closed at most once, and from then on it never changes. */
  lemma ClosedOnce(run: seq<System>, i: nat, k: nat)
    requires Run(run) && i < |run| && k < |run[i].flights|
    ensures run[i].flights[k].closes <= 1
    ensures i + 1 < |run| ==>
      k < |run[i + 1].flights| && (run[i].flights[k].closes == 1 ==> run[i + 1].flights[k] == run[i].flights[k])
  {
    RunInv(run, i);
    var s := run[i];
    assert FlightOk(s, k);
    if i + 1 < |run| {
      var next := run[i + 1];
      assert Step(s, next);
      if epoch: uint64 :| Arrive(s, next, epoch) {
      } else {
        var t: nat :| RequestStep(s, next, t);
        assert RequestOk(s, s.requests[t]);
        if PublishStep(s, next, t) {
          assert FlightOk(s, s.requests[t].pc.flight);
        }
      }
    }
  }

  /** A failed load is never served from the cache: every entry is what a successful load of its epoch returned. */
  lemma CacheHoldsSuccesses(run: seq<System>, i: nat, e: uint64)
    requires Run(run) && i < |run| && e in run[i].cache
    ensures var entry := run[i].cache[e];
      entry.flight < |run[i].flights| && run[i].flights[entry.flight].epoch == e
        && run[i].flights[entry.flight].result == Some(entry.data)
  {
    RunInv(run, i);
  }

  /** A request that joined a flight stays with it. */
  predicate With(r: Request, k: nat) {
    !r.pc.Start? && r.pc.flight == k
  }

  lemma StaysWith(s: System, s': System, t: nat, k: nat)
    requires Step(s, s') && t < |s.requests| && With(s.requests[t], k)
    ensures t < |s'.requests| && With(s'.requests[t], k)
  {
  }

  lemma {:induction false} StaysWithRun(run: seq<System>, i: nat, j: nat, t: nat, k: nat)
    requires Run(run) && i <= j < |run| && t < |run[i].requests| && With(run[i].requests[t], k)
    ensures t < |run[j].requests| && With(run[j].requests[t], k)
    decreases j - i
  {
    if i < j {
      assert Step(run[i], run[i + 1]);
      StaysWith(run[i], run[i + 1], t, k);
      StaysWithRun(run, i + 1, j, t, k);
    }
  }

  /** Whoever waits for a flight returns what its loader returns, success or failure. */
  lemma WaiterSharesResult(run: seq<System>, i: nat, j: nat, t: nat, u: nat, k: nat)
    requires Run(run) && i <= j < |run| && t < |run[i].requests| && u < |run[i].requests|
    requires run[i].requests[t].pc == Waiting(k) && Flying(run[i].requests[u], k)
    requires t < |run[j].requests| && u < |run[j].requests| && run[j].requests[t].pc.Returned?
    requires run[j].requests[u].pc.Returned?
    ensures run[j].requests[t].pc.result == run[j].requests[u].pc.result
    ensures run[j].requests[t].epoch == run[j].requests[u].epoch
  {
    StaysWithRun(run, i, j, t, k);
    StaysWithRun(run, i, j, u, k);
    RunInv(run, j);
    assert RequestOk(run[j], run[j].requests[t]) && RequestOk(run[j], run[j].requests[u]);
  }

  // ----- progress

  ghost predicate Finished(s: System) {
    forall t :: 0 <= t < |s.requests| ==> s.requests[t].pc.Returned?
  }

  /** No lost wakeup: a waiter can go on, or its flight is in the hands of a request that is not waiting. */
  lemma WaiterHasLoader(s: System, t: nat) returns (u: nat)
    requires Inv(s) && t < |s.requests| && s.requests[t].pc.Waiting?
    ensures u < |s.requests|
    ensures (u == t && s.flights[s.requests[t].pc.flight].closes > 0) || Flying(s.requests[u], s.requests[t].pc.flight)
  {
    var k := s.requests[t].pc.flight;
    assert RequestOk(s, s.requests[t]) && FlightOk(s, k);
    u := t;
    if Aloft(s, k) {
      u :| 0 <= u < |s.requests| && Flying(s.requests[u], k);
    }
  }

  /** No deadlock: while a request is unfinished, some request can take a step. */
  lemma Progress(s: System) returns (t: nat, s': System)
    requires Inv(s) && !Finished(s)
    ensures RequestStep(s, s', t)
  {
    t :| 0 <= t < |s.requests| && !s.requests[t].pc.Returned?;
    if s.requests[t].pc.Waiting? {
      t := WaiterHasLoader(s, t);
    }
    s' := NextOf(s, t);
  }

  lemma NextOf(s: System, t: nat) returns (s': System)
    requires Inv(s) && t < |s.requests| && !s.requests[t].pc.Returned?
    requires s.requests[t].pc.Waiting? ==>
      s.requests[t].pc.flight < |s.flights| && s.flights[s.requests[t].pc.flight].closes > 0
    ensures RequestStep(s, s', t)
  {
    var r := s.requests[t];
    assert RequestOk(s, r);
    match r.pc {
      case Start =>
        s' := if r.epoch in s.cache then Moved(s, t, Returned(s.cache[r.epoch].flight, Some(s.cache[r.epoch].data)))
              else if r.epoch in s.inflight then Moved(s, t, Waiting(s.inflight[r.epoch]))
              else Moved(s, t, Loading(|s.flights|)).(inflight := s.inflight[r.epoch := |s.flights|],
                flights := s.flights + [Flight(r.epoch, None, 0)]);
        assert StartStep(s, s', t);
      case Waiting(k) =>
        s' := Moved(s, t, Returned(k, s.flights[k].result));
        assert WakeStep(s, s', t);
      case Loading(k) =>
        s' := Moved(s, t, Publishing(k, None));
        assert LoadStep(s, s', t);
      case Publishing(k, result) =>
        var cache := if result.Some? then s.cache[r.epoch := Entry(result.value, k)] else s.cache;
        s' := Moved(s, t, Returned(k, result)).(cache := cache, inflight := s.inflight - {r.epoch},
                flights := s.flights[k := Flight(s.flights[k].epoch, result, s.flights[k].closes + 1)]);
        assert PublishStep(s, s', t);
    }
  }

  function Rank(pc: PC): nat {
    match pc
    case Start => 3
    case Loading(_) => 2
    case Publishing(_, _) => 1
    case Waiting(_) => 1
    case Returned(_, _) => 0
  }

  function StepsLeft(requests: seq<Request>): nat {
    if requests == [] then 0 else Rank(requests[0].pc) + StepsLeft(requests[1..])
  }

  lemma {:induction false} StepsUpdate(requests: seq<Request>, t: nat, r: Request)
    requires t < |requests|
    ensures StepsLeft(requests[t := r]) == StepsLeft(requests) - Rank(requests[t].pc) + Rank(r.pc)
  {
    if t > 0 {
      StepsUpdate(requests[1..], t - 1, r);
      assert requests[t := r][1..] == requests[1..][t - 1 := r];
    } else {
      assert requests[t := r][1..] == requests[1..];
    }
  }

  /** Every step of a request brings the end closer, so without new requests everybody returns after at most three steps
      each. */
  lemma StepsFall(s: System, s': System, t: nat)
    requires RequestStep(s, s', t)
    ensures StepsLeft(s'.requests) < StepsLeft(s.requests)
  {
    StepsUpdate(s.requests, t, s'.requests[t]);
    assert s'.requests == s.requests[t := s'.requests[t]];
  }
}
