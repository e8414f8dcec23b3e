/** Concurrent EnsureRange calls as a step system: each step is one critical section or one unlocked load. */
module IndexProtocol {
  import opened Core
  import opened SlotRanges
  import opened Blocks
  import opened CanonicalIndex

  /** Where a caller is. `Waiting` sleeps on the condition variable; `Loading` and `Publishing` own their gap. */
  datatype PC =
    | Check
    | Waiting(slot: uint64)
    | Loading(gap: SlotRange)
    | Publishing(gap: SlotRange, infos: Option<seq<Block>>)
    | Returned(ok: bool)

  datatype Thread = Thread(from: uint64, to: uint64, pc: PC)

  /** `log` is a history variable: the gaps published so far, in order. */
  datatype System = System(
    threads: seq<Thread>,
    loaded: seq<SlotRange>,
    loading: seq<SlotRange>,
    bySlot: map<uint64, Block>,
    byRoot: map<Root, Block>,
    log: seq<SlotRange>)

  predicate Holding(th: Thread, gap: SlotRange) {
    (th.pc.Loading? || th.pc.Publishing?) && th.pc.gap == gap
  }

  predicate Holder(th: Thread) {
    th.pc.Loading? || th.pc.Publishing?
  }

  /** Broadcast: every sleeper goes back to the head of its loop. */
  function Wake(th: Thread): Thread {
    if th.pc.Waiting? then th.(pc := Check) else th
  }

  function Broadcast(threads: seq<Thread>): (r: seq<Thread>)
    ensures |r| == |threads|
  {
    seq(|threads|, i requires 0 <= i < |threads| => Wake(threads[i]))
  }

  ghost predicate Init(s: System) {
    s == System([], [], [], map[], map[], [])
  }

  ghost predicate Arrive(s: System, s': System, from: uint64, to: uint64) {
    s' == s.(threads := s.threads + [Thread(from, to, Check)])
  }

  ghost predicate CheckStep(s: System, s': System, t: nat)
    requires t < |s.threads|
  {
    var th := s.threads[t];
    th.pc.Check? &&
    if th.from > th.to then s' == s.(threads := s.threads[t := th.(pc := Returned(true))])
    else
      (IsDemand(s.loaded, s.loading, th.from, th.to, Satisfied)
        && s' == s.(threads := s.threads[t := th.(pc := Returned(true))]))
      || (exists slot ::
        IsDemand(s.loaded, s.loading, th.from, th.to, Wait(slot))
        && s' == s.(threads := s.threads[t := th.(pc := Waiting(slot))]))
      || (exists gap :: IsDemand(s.loaded, s.loading, th.from, th.to, Load(gap)) && Claim(s, s', t, gap))
  }

  ghost predicate Claim(s: System, s': System, t: nat, gap: SlotRange)
    requires t < |s.threads|
  {
    s' == s.(threads := s.threads[t := s.threads[t].(pc := Loading(gap))], loading := Inserted(s.loading, gap))
  }

  ghost predicate LoadStep(era: Era, s: System, s': System, t: nat)
    requires t < |s.threads|
  {
    var th := s.threads[t];
    th.pc.Loading? &&
    exists infos: Option<seq<Block>> ::
      && ReadResult(era, th.pc.gap, infos)
      && s' == s.(threads := s.threads[t := th.(pc := Publishing(th.pc.gap, infos))])
  }

  /** The contract of LoadRange. */
  ghost predicate ReadResult(era: Era, gap: SlotRange, infos: Option<seq<Block>>) {
    match infos
    case None => exists s: uint64 :: In(gap, s) && era(s).Unreadable?
    case Some(blocks) => BlocksOf(era, gap, blocks)
  }

  ghost predicate PublishStep(s: System, s': System, t: nat)
    requires t < |s.threads|
  {
    var th := s.threads[t];
    && th.pc.Publishing? && th.pc.infos.Some?
    && s' == System(Broadcast(s.threads[t := th.(pc := Check)]),
                    Union(s.loaded, th.pc.gap), Without(s.loading, th.pc.gap),
                    StoreBySlot(s.bySlot, th.pc.infos.value), StoreByRoot(s.byRoot, th.pc.infos.value),
                    s.log + [th.pc.gap])
  }

  ghost predicate WithdrawStep(s: System, s': System, t: nat)
    requires t < |s.threads|
  {
    var th := s.threads[t];
    && th.pc.Publishing? && th.pc.infos.None?
    && s' == s.(threads := Broadcast(s.threads[t := th.(pc := Returned(false))]),
      loading := Without(s.loading, th.pc.gap))
  }

  ghost predicate ThreadStep(era: Era, s: System, s': System, t: nat) {
    t < |s.threads|
      && (CheckStep(s, s', t) || LoadStep(era, s, s', t) || PublishStep(s, s', t) || WithdrawStep(s, s', t))
  }

  /** Some caller takes a step; no new call arrives. */
  ghost predicate CallStep(era: Era, s: System, s': System) {
    exists t: nat :: ThreadStep(era, s, s', t)
  }

  ghost predicate Step(era: Era, s: System, s': System) {
    || (exists from: uint64, to: uint64 :: Arrive(s, s', from, to))
    || CallStep(era, s, s')
  }

  // ----- the invariant

  /** Every loading range has exactly one owner, and nobody owns a range that is not there. */
  ghost predicate Owned(s: System) {
    && (forall t :: 0 <= t < |s.threads| && Holder(s.threads[t]) ==> s.threads[t].pc.gap in s.loading)
    && (forall t, u :: 0 <= t < u < |s.threads| && Holder(s.threads[t]) && Holder(s.threads[u])
          ==> s.threads[t].pc.gap != s.threads[u].pc.gap)
    && (forall g :: g in s.loading ==> exists t :: 0 <= t < |s.threads| && Holding(s.threads[t], g))
  }

  ghost predicate ThreadOk(era: Era, s: System, th: Thread) {
    match th.pc
    case Check => true
    case Waiting(slot) => th.from <= slot <= th.to && exists g :: g in s.loading && In(g, slot)
    case Loading(gap) => th.from <= gap.from <= gap.to <= th.to && gap.to - gap.from < LOAD_CHUNK
    case Publishing(gap, infos) =>
      th.from <= gap.from <= gap.to <= th.to && gap.to - gap.from < LOAD_CHUNK && ReadResult(era, gap, infos)
    case Returned(ok) =>
      if ok then Window(th.from, th.to) <= Slots(s.loaded)
      else exists x: uint64 :: th.from <= x <= th.to && era(x).Unreadable?
  }

  ghost predicate Lists(s: System) {
    Tracked(s.loaded, s.loading)
  }

  /** Each slot was published at most once, and the loaded slots are the published ones. */
  ghost predicate Logged(s: System) {
    && (forall i, j :: 0 <= i < j < |s.log| ==> Span(s.log[i]) !! Span(s.log[j]))
    && Slots(s.log) == Slots(s.loaded)
  }

  ghost predicate Inv(era: Era, s: System) {
    && Lists(s)
    && Owned(s)
    && Agrees(era, Slots(s.loaded), s.bySlot, s.byRoot)
    && Logged(s)
    && (forall t :: 0 <= t < |s.threads| ==> ThreadOk(era, s, s.threads[t]))
  }

  lemma InitInv(era: Era, s: System)
    requires Init(s)
    ensures Inv(era, s)
  {
  }

  lemma CoveredMember(ranges: seq<SlotRange>, x: uint64)
    ensures Covered(ranges, x) <==> exists g :: g in ranges && In(g, x)
  {
    if Covered(ranges, x) {
      var i :| 0 <= i < |ranges| && In(ranges[i], x);
      assert ranges[i] in ranges;
    }
  }

  lemma ArriveKeeps(era: Era, s: System, s': System, from: uint64, to: uint64)
    requires Inv(era, s) && Arrive(s, s', from, to)
    ensures Inv(era, s')
  {
    forall g | g in s'.loading
      ensures exists t :: 0 <= t < |s'.threads| && Holding(s'.threads[t], g)
    {
      var t :| 0 <= t < |s.threads| && Holding(s.threads[t], g);
      assert Holding(s'.threads[t], g);
    }
  }

  /** A thread that holds nothing changes its pc without touching the lists. */
  lemma PassiveKeeps(era: Era, s: System, s': System, t: nat, pc: PC)
    requires Inv(era, s) && t < |s.threads| && s.threads[t].pc.Check? && !pc.Loading? && !pc.Publishing?
    requires s' == s.(threads := s.threads[t := s.threads[t].(pc := pc)])
    requires ThreadOk(era, s, s'.threads[t])
    ensures Inv(era, s')
  {
    forall g | g in s'.loading
      ensures exists u :: 0 <= u < |s'.threads| && Holding(s'.threads[u], g)
    {
      var u :| 0 <= u < |s.threads| && Holding(s.threads[u], g);
      assert Holding(s'.threads[u], g);
    }
    forall u | 0 <= u < |s'.threads|
      ensures ThreadOk(era, s', s'.threads[u])
    {
      assert u != t ==> ThreadOk(era, s, s.threads[u]);
    }
  }

  lemma ClaimKeeps(era: Era, s: System, s': System, t: nat, gap: SlotRange)
    requires Inv(era, s) && t < |s.threads| && s.threads[t].pc.Check? && s.threads[t].from <= s.threads[t].to
    requires IsDemand(s.loaded, s.loading, s.threads[t].from, s.threads[t].to, Load(gap)) && Claim(s, s', t, gap)
    ensures Inv(era, s')
  {
    assert In(gap, gap.from);
    CoveredMember(s.loading, gap.from);
    assert gap !in s.loading;
    InsertedOrdered(s.loading, gap);
    assert Holding(s'.threads[t], gap);
    forall g | g in s'.loading
      ensures exists u :: 0 <= u < |s'.threads| && Holding(s'.threads[u], g)
      ensures Span(g) !! Slots(s'.loaded)
    {
      if g != gap {
        var u :| 0 <= u < |s.threads| && Holding(s.threads[u], g);
        assert Holding(s'.threads[u], g);
      }
    }
    forall u | 0 <= u < |s'.threads|
      ensures ThreadOk(era, s', s'.threads[u])
    {
      assert u != t ==> ThreadOk(era, s, s.threads[u]);
    }
  }

  lemma LoadKeeps(era: Era, s: System, s': System, t: nat)
    requires Inv(era, s) && t < |s.threads| && LoadStep(era, s, s', t)
    ensures Inv(era, s')
  {
    forall g | g in s'.loading
      ensures exists u :: 0 <= u < |s'.threads| && Holding(s'.threads[u], g)
    {
      var u :| 0 <= u < |s.threads| && Holding(s.threads[u], g);
      assert Holding(s'.threads[u], g);
    }
    forall u | 0 <= u < |s'.threads|
      ensures ThreadOk(era, s', s'.threads[u])
    {
      assert ThreadOk(era, s, s.threads[u]);
    }
  }

  /** After a loader lets go of its gap and wakes everybody, the remaining ranges keep their owners. */
  lemma ReleaseKeepsOwners(s: System, s': System, t: nat, pc: PC)
    requires Lists(s) && Owned(s) && t < |s.threads| && s.threads[t].pc.Publishing? && !pc.Loading? && !pc.Publishing?
    requires s'.threads == Broadcast(s.threads[t := s.threads[t].(pc := pc)])
    requires s'.loading == Without(s.loading, s.threads[t].pc.gap)
    ensures Owned(s') && Ordered(s'.loading)
    ensures forall g :: g in s'.loading <==> g in s.loading && g != s.threads[t].pc.gap
  {
    WithoutOrdered(s.loading, s.threads[t].pc.gap);
    HoldersAfterRelease(s, s', t, pc);
    forall g | g in s'.loading
      ensures exists u :: 0 <= u < |s'.threads| && Holding(s'.threads[u], g)
    {
      var u :| 0 <= u < |s.threads| && Holding(s.threads[u], g);
      assert Holding(s'.threads[u], g);
    }
  }

  lemma HoldersAfterRelease(s: System, s': System, t: nat, pc: PC)
    requires t < |s.threads| && !pc.Loading? && !pc.Publishing?
    requires s'.threads == Broadcast(s.threads[t := s.threads[t].(pc := pc)])
    ensures |s'.threads| == |s.threads| && !Holder(s'.threads[t])
    ensures forall u :: 0 <= u < |s.threads| && u != t && Holder(s.threads[u]) ==> s'.threads[u] == s.threads[u]
    ensures forall u :: 0 <= u < |s.threads| && Holder(s'.threads[u]) ==> u != t && s'.threads[u] == s.threads[u]
  {
  }

  lemma WithdrawKeeps(era: Era, s: System, s': System, t: nat)
    requires Inv(era, s) && t < |s.threads| && WithdrawStep(s, s', t)
    ensures Inv(era, s')
  {
    ReleaseKeepsOwners(s, s', t, Returned(false));
    assert ThreadOk(era, s, s.threads[t]);
    forall u | 0 <= u < |s'.threads|
      ensures ThreadOk(era, s', s'.threads[u])
    {
      assert ThreadOk(era, s, s.threads[u]);
    }
  }

  lemma PublishKeeps(era: Era, s: System, s': System, t: nat)
    requires ValidEra(era) && Inv(era, s) && t < |s.threads| && PublishStep(s, s', t)
    ensures Inv(era, s')
    ensures Slots(s'.loaded) == Slots(s.loaded) + Span(s.threads[t].pc.gap)
  {
    var gap := s.threads[t].pc.gap;
    ReleaseKeepsOwners(s, s', t, Check);
    UnionNormal(s.loaded, gap);
    assert ThreadOk(era, s, s.threads[t]);
    StoreAgrees(era, Slots(s.loaded), s.bySlot, s.byRoot, gap, s.threads[t].pc.infos.value);
    ReleaseTracked(s.loaded, s'.loaded, s.loading, gap);
    PublishKeepsLog(s, s', gap);
    forall u | 0 <= u < |s'.threads|
      ensures ThreadOk(era, s', s'.threads[u])
    {
      assert ThreadOk(era, s, s.threads[u]);
    }
  }

  lemma PublishKeepsLog(s: System, s': System, gap: SlotRange)
    requires Logged(s) && Span(gap) !! Slots(s.loaded)
    requires Slots(s'.loaded) == Slots(s.loaded) + Span(gap) && s'.log == s.log + [gap]
    ensures Logged(s')
  {
    SlotsAppend(s.log, gap);
    forall i | 0 <= i < |s.log|
      ensures Span(s.log[i]) !! Span(gap)
    {
      assert forall x: uint64 :: In(s.log[i], x) ==> x in Slots(s.log);
    }
  }

  /** Every interleaving keeps the invariant. */
  lemma StepKeeps(era: Era, s: System, s': System)
    requires ValidEra(era) && Inv(era, s) && Step(era, s, s')
    ensures Inv(era, s')
    ensures Slots(s.loaded) <= Slots(s'.loaded)
  {
    if from: uint64, to: uint64 :| Arrive(s, s', from, to) {
      ArriveKeeps(era, s, s', from, to);
    } else {
      var t: nat :| ThreadStep(era, s, s', t);
      ThreadStepKeeps(era, s, s', t);
    }
  }

  lemma ThreadStepKeeps(era: Era, s: System, s': System, t: nat)
    requires ValidEra(era) && Inv(era, s) && ThreadStep(era, s, s', t)
    ensures Inv(era, s')
    ensures Slots(s.loaded) <= Slots(s'.loaded)
  {
    var th := s.threads[t];
    if CheckStep(s, s', t) {
      if th.from > th.to {
        PassiveKeeps(era, s, s', t, Returned(true));
      } else if IsDemand(s.loaded, s.loading, th.from, th.to, Satisfied)
        && s' == s.(threads := s.threads[t := th.(pc := Returned(true))]) {
        PassiveKeeps(era, s, s', t, Returned(true));
      } else if slot :|
        IsDemand(s.loaded, s.loading, th.from, th.to, Wait(slot))
        && s' == s.(threads := s.threads[t := th.(pc := Waiting(slot))]) {
        CoveredMember(s.loading, slot);
        PassiveKeeps(era, s, s', t, Waiting(slot));
      } else {
        var gap :| IsDemand(s.loaded, s.loading, th.from, th.to, Load(gap)) && Claim(s, s', t, gap);
        ClaimKeeps(era, s, s', t, gap);
      }
    } else if LoadStep(era, s, s', t) {
      LoadKeeps(era, s, s', t);
    } else if PublishStep(s, s', t) {
      PublishKeeps(era, s, s', t);
    } else {
      WithdrawKeeps(era, s, s', t);
    }
  }

  // ----- whole runs

  ghost predicate Run(era: Era, run: seq<System>) {
    && |run| > 0 && Init(run[0])
    && (forall i :: 0 <= i < |run| - 1 ==> Step(era, run[i], run[i + 1]))
  }

  /** Safety over every run: the invariant holds in each state and nothing loaded is ever lost. */
  lemma {:induction false} RunSafe(era: Era, run: seq<System>, i: nat, j: nat)
    requires ValidEra(era) && Run(era, run) && i <= j < |run|
    ensures Inv(era, run[i]) && Inv(era, run[j])
    ensures Slots(run[i].loaded) <= Slots(run[j].loaded)
    decreases j
  {
    if j == 0 {
      InitInv(era, run[0]);
    } else {
      if i < j {
        RunSafe(era, run, i, j - 1);
      } else {
        RunSafe(era, run, j - 1, j - 1);
      }
      StepKeeps(era, run[j - 1], run[j]);
    }
  }

  /** A nil return at some point of a run: the caller's slots are loaded, agree with the era, and stay so to the end. */
  lemma NilReturnMeansLoaded(era: Era, run: seq<System>, i: nat, j: nat, t: nat)
    requires ValidEra(era) && Run(era, run) && i <= j < |run|
    requires t < |run[i].threads| && run[i].threads[t].pc == Returned(true)
    ensures forall s: uint64 :: run[i].threads[t].from <= s <= run[i].threads[t].to ==>
      && s in Slots(run[j].loaded)
      && !era(s).Unreadable?
      && (s in run[j].bySlot <==> era(s).Present?)
      && (s in run[j].bySlot ==> era(s) == Present(run[j].bySlot[s]))
  {
    RunSafe(era, run, i, j);
    assert ThreadOk(era, run[i], run[i].threads[t]);
    forall s: uint64 | run[i].threads[t].from <= s <= run[i].threads[t].to
      ensures s in Slots(run[j].loaded)
    {
      assert In(SlotRange(run[i].threads[t].from, run[i].threads[t].to), s);
    }
  }

  // ----- progress

  ghost predicate Finished(s: System) {
    forall t :: 0 <= t < |s.threads| ==> s.threads[t].pc.Returned?
  }

  /** A sleeper's slot lies in a range owned by another caller that is awake. */
  lemma WaiterHasLoader(era: Era, s: System, t: nat) returns (u: nat)
    requires Inv(era, s) && t < |s.threads| && s.threads[t].pc.Waiting?
    ensures u < |s.threads| && u != t && Holder(s.threads[u]) && In(s.threads[u].pc.gap, s.threads[t].pc.slot)
  {
    assert ThreadOk(era, s, s.threads[t]);
    var g :| g in s.loading && In(g, s.threads[t].pc.slot);
    u :| 0 <= u < |s.threads| && Holding(s.threads[u], g);
  }

  /** No deadlock and no lost wakeup: while a call is unfinished, some caller can take a step. */
  lemma Progress(era: Era, s: System) returns (t: nat, s': System)
    requires ValidEra(era) && Inv(era, s) && !Finished(s)
    ensures ThreadStep(era, s, s', t)
  {
    t :| 0 <= t < |s.threads| && !s.threads[t].pc.Returned?;
    if s.threads[t].pc.Waiting? {
      t := WaiterHasLoader(era, s, t);
    }
    var th := s.threads[t];
    match th.pc {
      case Check =>
        if th.from > th.to {
          s' := s.(threads := s.threads[t := th.(pc := Returned(true))]);
        } else {
          var d := DemandExists(s.loaded, s.loading, th.from, th.to);
          match d {
            case Satisfied => s' := s.(threads := s.threads[t := th.(pc := Returned(true))]);
            case Wait(slot) => s' := s.(threads := s.threads[t := th.(pc := Waiting(slot))]);
            case Load(gap) =>
              s' := s.(threads := s.threads[t := th.(pc := Loading(gap))], loading := Inserted(s.loading, gap));
              assert Claim(s, s', t, gap);
          }
        }
        assert CheckStep(s, s', t);
      case Loading(gap) =>
        var infos := ReadResultExists(era, gap);
        s' := s.(threads := s.threads[t := th.(pc := Publishing(gap, infos))]);
        assert LoadStep(era, s, s', t);
      case Publishing(gap, infos) =>
        if infos.None? {
          s' := s.(threads := Broadcast(s.threads[t := th.(pc := Returned(false))]),
            loading := Without(s.loading, gap));
          assert WithdrawStep(s, s', t);
        } else {
          s' := System(Broadcast(s.threads[t := th.(pc := Check)]), Union(s.loaded, gap), Without(s.loading, gap),
                       StoreBySlot(s.bySlot, infos.value), StoreByRoot(s.byRoot, infos.value), s.log + [gap]);
          assert PublishStep(s, s', t);
        }
    }
  }

  lemma ReadResultExists(era: Era, gap: SlotRange) returns (infos: Option<seq<Block>>)
    requires ValidEra(era) && gap.from <= gap.to
    ensures ReadResult(era, gap, infos)
  {
    var found: seq<Block> := [];
    var next: int := gap.from;
    while next <= gap.to
      invariant gap.from <= next <= gap.to + 1
      invariant forall s: uint64 :: gap.from <= s < next ==> !era(s).Unreadable?
      invariant forall b :: b in found ==> gap.from <= b.slot < next && era(b.slot) == Present(b)
      invariant forall s: uint64 :: gap.from <= s < next && era(s).Present? ==> era(s).block in found
    {
      if era(next).Unreadable? {
        assert In(gap, next);
        return None;
      }
      if era(next).Present? {
        found := found + [era(next).block];
      }
      next := next + 1;
    }
    return Some(found);
  }

  // ----- every call returns

  function Rank(pc: PC): nat {
    match pc
    case Check => 3
    case Loading(_) => 2
    case Publishing(_, _) => 1
    case Waiting(_) => 0
    case Returned(_) => 0
  }

  function Ranks(threads: seq<Thread>): nat {
    if threads == [] then 0 else Rank(threads[0].pc) + Ranks(threads[1..])
  }

  function Live(threads: seq<Thread>): nat {
    if threads == [] then 0 else (if threads[0].pc.Returned? then 0 else 1) + Live(threads[1..])
  }

  lemma {:induction false} CountsUpdate(threads: seq<Thread>, t: nat, th: Thread)
    requires t < |threads|
    ensures Ranks(threads[t := th]) == Ranks(threads) - Rank(threads[t].pc) + Rank(th.pc)
    ensures Live(threads[t := th]) ==
      Live(threads) - (if threads[t].pc.Returned? then 0 else 1) + (if th.pc.Returned? then 0 else 1)
  {
    if t > 0 {
      CountsUpdate(threads[1..], t - 1, th);
      assert threads[t := th][1..] == threads[1..][t - 1 := th];
    } else {
      assert threads[0 := th][1..] == threads[1..];
    }
  }

  lemma {:induction false} CountsBroadcast(threads: seq<Thread>)
    ensures Ranks(Broadcast(threads)) <= 3 * |threads| && Live(Broadcast(threads)) == Live(threads)
  {
    if threads != [] {
      CountsBroadcast(threads[1..]);
      assert Broadcast(threads)[1..] == Broadcast(threads[1..]);
    }
  }

  /** Slots not loaded yet, anywhere. */
  ghost function Open(s: System): set<uint64> {
    Window(0, MAX_UINT64) - Slots(s.loaded)
  }

  /** A bound on the steps left: a broadcast may reset every caller, but only after a slot is loaded or a call ends. */
  ghost function StepsLeft(s: System): nat {
    Work(s) * (3 * |s.threads| + 1) + Ranks(s.threads)
  }

  lemma Lexicographic(a: nat, a': nat, n: nat, r: nat, r': nat)
    requires (a' < a && r' <= 3 * n) || (a' <= a && r' < r)
    ensures a' * (3 * n + 1) + r' < a * (3 * n + 1) + r
  {
    var k := 3 * n + 1;
    if a' < a {
      Monotone(a' + 1, a, k);
      assert (a' + 1) * k == a' * k + k;
    } else {
      assert a' == a;
    }
  }

  lemma Monotone(x: nat, y: nat, k: nat)
    requires x <= y
    ensures x * k <= y * k
  {
    assert (y - x) * k >= 0;
    assert y * k == x * k + (y - x) * k;
  }

  lemma FewerElements(small: set<uint64>, large: set<uint64>, x: uint64)
    requires small <= large && x in large && x !in small
    ensures |small| < |large|
  {
    assert large == small + (large - small) && x in large - small;
  }

  /** What is left to do outside the callers' own loops: slots to load and calls to end. */
  ghost function Work(s: System): nat {
    |Open(s)| + Live(s.threads)
  }

  lemma StepsFall(s: System, s': System)
    requires |s'.threads| == |s.threads|
    requires (Work(s') < Work(s) && Ranks(s'.threads) <= 3 * |s.threads|)
      || (Work(s') <= Work(s) && Ranks(s'.threads) < Ranks(s.threads))
    ensures StepsLeft(s') < StepsLeft(s)
  {
    Lexicographic(Work(s), Work(s'), |s.threads|, Ranks(s.threads), Ranks(s'.threads));
  }

  lemma WorkOrRank(era: Era, s: System, s': System, t: nat)
    requires ValidEra(era) && Inv(era, s) && ThreadStep(era, s, s', t)
    ensures |s'.threads| == |s.threads|
    ensures (Work(s') < Work(s) && Ranks(s'.threads) <= 3 * |s.threads|)
      || (Work(s') <= Work(s) && Ranks(s'.threads) < Ranks(s.threads))
  {
    if PublishStep(s, s', t) {
      PublishCloses(era, s, s', t);
    } else if WithdrawStep(s, s', t) {
      WithdrawEndsCall(s, s', t);
    } else {
      QuietStep(era, s, s', t);
    }
  }

  lemma PublishCloses(era: Era, s: System, s': System, t: nat)
    requires ValidEra(era) && Inv(era, s) && t < |s.threads| && PublishStep(s, s', t)
    ensures |s'.threads| == |s.threads| && Live(s'.threads) == Live(s.threads)
    ensures |Open(s')| < |Open(s)| && Ranks(s'.threads) <= 3 * |s.threads|
  {
    var th := s.threads[t];
    assert ThreadOk(era, s, th);
    CountsUpdate(s.threads, t, th.(pc := Check));
    CountsBroadcast(s.threads[t := th.(pc := Check)]);
    OpenShrinks(s, s', th.pc.gap);
  }

  lemma OpenShrinks(s: System, s': System, gap: SlotRange)
    requires Lists(s) && gap in s.loading && gap.from <= gap.to && s'.loaded == Union(s.loaded, gap)
    ensures |Open(s')| < |Open(s)|
  {
    UnionNormal(s.loaded, gap);
    SpanHasFrom(gap);
    RemovalShrinks(Window(0, MAX_UINT64), Slots(s.loaded), Span(gap), gap.from);
  }

  lemma SpanHasFrom(gap: SlotRange)
    requires gap.from <= gap.to
    ensures gap.from in Span(gap) && gap.from in Window(0, MAX_UINT64)
  {
  }

  lemma RemovalShrinks(all: set<uint64>, taken: set<uint64>, more: set<uint64>, x: uint64)
    requires x in all && x in more && x !in taken
    ensures |all - (taken + more)| < |all - taken|
  {
    FewerElements(all - (taken + more), all - taken, x);
  }

  lemma WithdrawEndsCall(s: System, s': System, t: nat)
    requires t < |s.threads| && WithdrawStep(s, s', t)
    ensures |s'.threads| == |s.threads| && Live(s'.threads) < Live(s.threads)
    ensures Open(s') == Open(s) && Ranks(s'.threads) <= 3 * |s.threads|
  {
    var th := s.threads[t];
    CountsUpdate(s.threads, t, th.(pc := Returned(false)));
    CountsBroadcast(s.threads[t := th.(pc := Returned(false))]);
  }

  /** A step that neither publishes nor withdraws only moves its own caller, towards its next action. */
  lemma QuietStep(era: Era, s: System, s': System, t: nat)
    requires t < |s.threads| && (CheckStep(s, s', t) || LoadStep(era, s, s', t))
    ensures |s'.threads| == |s.threads| && Live(s'.threads) <= Live(s.threads)
    ensures Open(s') == Open(s) && Ranks(s'.threads) < Ranks(s.threads)
  {
    CountsUpdate(s.threads, t, s'.threads[t]);
    assert s'.threads == s.threads[t := s'.threads[t]];
  }

  /** A run without new calls that starts in a reachable state. */
  ghost predicate ClosedRun(era: Era, run: seq<System>) {
    && |run| > 0 && Inv(era, run[0])
    && (forall i :: 0 <= i < |run| - 1 ==> CallStep(era, run[i], run[i + 1]))
  }

  /** Every schedule is finite: once calls stop arriving, only StepsLeft more steps are possible. */
  lemma {:induction false} SchedulesAreFinite(era: Era, run: seq<System>)
    requires ValidEra(era) && ClosedRun(era, run)
    ensures |run| - 1 + StepsLeft(run[|run| - 1]) <= StepsLeft(run[0])
    ensures Inv(era, run[|run| - 1])
    decreases |run|
  {
    if |run| > 1 {
      SchedulesAreFinite(era, run[..|run| - 1]);
      CallStepDecreases(era, run[|run| - 2], run[|run| - 1]);
    }
  }

  /** Every step of a caller, whichever one runs, brings the system closer to the end. */
  lemma CallStepDecreases(era: Era, s: System, s': System)
    requires ValidEra(era) && Inv(era, s) && CallStep(era, s, s')
    ensures Inv(era, s') && StepsLeft(s') < StepsLeft(s)
  {
    var t: nat :| ThreadStep(era, s, s', t);
    ThreadStepKeeps(era, s, s', t);
    WorkOrRank(era, s, s', t);
    StepsFall(s, s');
  }

  /** A schedule that has not returned every call can go on, so a schedule that runs as long as it can returns them
      all. */
  lemma UnfinishedGoesOn(era: Era, run: seq<System>) returns (next: System)
    requires ValidEra(era) && ClosedRun(era, run) && !Finished(run[|run| - 1])
    ensures ClosedRun(era, run + [next])
  {
    SchedulesAreFinite(era, run);
    var t;
    t, next := Progress(era, run[|run| - 1]);
    var longer := run + [next];
    forall i | 0 <= i < |longer| - 1
      ensures CallStep(era, longer[i], longer[i + 1])
    {
      if i < |run| - 1 {
        assert CallStep(era, run[i], run[i + 1]);
      }
    }
  }

  /** A published gap was never published before. */
  lemma NoSlotPublishedTwice(era: Era, run: seq<System>, i: nat, j: nat, t: nat, u: nat)
    requires ValidEra(era) && Run(era, run) && i < j < |run| - 1
    requires t < |run[i].threads| && PublishStep(run[i], run[i + 1], t)
    requires u < |run[j].threads| && PublishStep(run[j], run[j + 1], u)
    ensures Span(run[i].threads[t].pc.gap) !! Span(run[j].threads[u].pc.gap)
  {
    hide Slots, Span, Agrees, ThreadOk, Lists, Owned, Logged, ValidEra, Step;
    RunSafe(era, run, i, j);
    RunSafe(era, run, i + 1, j);
    PublishedStays(run[i], run[i + 1], t);
    OwnedIsOpen(run[j], u);
    Apart(Span(run[i].threads[t].pc.gap), Span(run[j].threads[u].pc.gap), Slots(run[i + 1].loaded),
      Slots(run[j].loaded));
  }

  lemma PublishedStays(s: System, s': System, t: nat)
    requires t < |s.threads| && PublishStep(s, s', t) && Logged(s')
    ensures Span(s.threads[t].pc.gap) <= Slots(s'.loaded)
  {
    var gap := s.threads[t].pc.gap;
    assert s'.log[|s.log|] == gap;
    forall x | x in Span(gap)
      ensures x in Slots(s'.log)
    {
      assert In(s'.log[|s.log|], x);
    }
  }

  lemma OwnedIsOpen(s: System, u: nat)
    requires u < |s.threads| && s.threads[u].pc.Publishing? && Lists(s) && Owned(s)
    ensures Span(s.threads[u].pc.gap) !! Slots(s.loaded)
  {
    assert s.threads[u].pc.gap in s.loading;
  }

  lemma Apart(a: set<uint64>, b: set<uint64>, early: set<uint64>, late: set<uint64>)
    requires a <= early <= late && b !! late
    ensures a !! b
  {
  }
}
