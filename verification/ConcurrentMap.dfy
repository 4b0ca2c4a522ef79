/** `concurrentMap`: a bounded pool of workers that claim indices one by one, with cooperative
    abort. A step is one turn of a worker's loop, the settling of one call, or the abort. */
module ConcurrentMap {
  import opened Basics

  /** What a call settles to; a thrown error is swallowed. */
  datatype Outcome<+R> = Returned(value: R) | Threw

  datatype Worker = Ready | Awaiting(index: nat) | Finished

  /** `claims` logs the claimed indices in order and `settled` the outcome of each call. */
  datatype State<R> = State(
    count: nat,
    workers: seq<Worker>,
    nextIndex: nat,
    results: seq<Option<R>>,
    aborted: bool,
    claims: seq<nat>,
    settled: map<nat, Outcome<R>>)

  datatype Event<R> = Turn(worker: nat) | SettleCall(worker: nat, outcome: Outcome<R>) | Abort

  /** The pool size; an array cannot have a negative length. */
  function PoolSize(concurrency: int, count: nat): nat {
    if concurrency <= 0 then 0 else Min(concurrency, count)
  }

  function Begin<R>(count: nat, concurrency: int): State<R> {
    State(count, seq(PoolSize(concurrency, count), _ => Ready), 0, seq(count, _ => None), false, [], map[])
  }

  predicate AwaitsCall<R>(s: State<R>, w: nat) {
    w < |s.workers| && s.workers[w].Awaiting? && s.workers[w].index < |s.results|
  }

  predicate Enabled<R>(s: State<R>, e: Event<R>) {
    match e
    case Turn(w) => w < |s.workers| && s.workers[w].Ready?
    case SettleCall(w, _) => AwaitsCall(s, w)
    case Abort => true
  }

  function Take<R>(s: State<R>, e: Event<R>): State<R>
    requires Enabled(s, e)
  {
    match e
    case Turn(w) =>
      if s.nextIndex < s.count && !s.aborted then
        s.(workers := s.workers[w := Awaiting(s.nextIndex)],
           nextIndex := s.nextIndex + 1,
           claims := s.claims + [s.nextIndex])
      else
        s.(workers := s.workers[w := Finished])
    case SettleCall(w, outcome) =>
      var i := s.workers[w].index;
      s.(workers := s.workers[w := Ready],
         results := if outcome.Returned? then s.results[i := Some(outcome.value)] else s.results,
         settled := s.settled[i := outcome])
    case Abort => s.(aborted := true)
  }

  ghost predicate Run<R>(ss: seq<State<R>>, es: seq<Event<R>>, count: nat, concurrency: int) {
    && |ss| == |es| + 1 && ss[0] == Begin(count, concurrency)
    && forall i :: 0 <= i < |es| ==> Enabled(ss[i], es[i]) && ss[i + 1] == Take(ss[i], es[i])
  }

  // ---- the invariant ----

  /** Some worker awaits the call for this index. */
  predicate InFlight<R>(s: State<R>, i: nat) {
    exists w | 0 <= w < |s.workers| :: s.workers[w] == Awaiting(i)
  }

  /** The slot a settled call leaves behind. */
  function Slot<R>(outcome: Outcome<R>): Option<R> {
    if outcome.Returned? then Some(outcome.value) else None
  }

  ghost predicate ClaimsArePrefix<R>(s: State<R>) {
    && s.nextIndex <= s.count && |s.claims| == s.nextIndex
    && forall i :: 0 <= i < |s.claims| ==> s.claims[i] == i
  }

  /** Each claimed call is either in flight with exactly one worker or settled. */
  ghost predicate CallsAccounted<R>(s: State<R>) {
    && (forall w :: 0 <= w < |s.workers| && s.workers[w].Awaiting? ==>
          s.workers[w].index < s.nextIndex && s.workers[w].index !in s.settled)
    && (forall v, w :: 0 <= v < w < |s.workers| && s.workers[v].Awaiting? && s.workers[w].Awaiting? ==>
          s.workers[v].index != s.workers[w].index)
    && (forall i :: i in s.settled ==> i < s.nextIndex)
    && (forall i :: 0 <= i < s.nextIndex ==> i in s.settled || InFlight(s, i))
  }

  ghost predicate SlotsAreOwn<R>(s: State<R>) {
    && |s.results| == s.count
    && forall i :: 0 <= i < s.count ==> s.results[i] == if i in s.settled then Slot(s.settled[i]) else None
  }

  /** A worker leaves only when nothing is left to claim, or after an abort. */
  ghost predicate FinishedOk<R>(s: State<R>) {
    forall w :: 0 <= w < |s.workers| && s.workers[w].Finished? ==> s.nextIndex == s.count || s.aborted
  }

  ghost predicate Valid<R>(s: State<R>) {
    ClaimsArePrefix(s) && CallsAccounted(s) && SlotsAreOwn(s) && FinishedOk(s)
  }

  lemma TurnKeepsCalls<R>(s: State<R>, w: nat)
    requires Valid(s) && Enabled(s, Turn(w))
    ensures CallsAccounted(Take(s, Turn(w)))
  {
    var s' := Take(s, Turn(w));
    forall i | 0 <= i < s'.nextIndex ensures i in s'.settled || InFlight(s', i) {
      if i == s.nextIndex {
        assert s'.workers[w] == Awaiting(i);
      } else if i !in s.settled {
        var v :| 0 <= v < |s.workers| && s.workers[v] == Awaiting(i);
        assert s'.workers[v] == Awaiting(i);
      }
    }
  }

  lemma SettleKeepsCalls<R>(s: State<R>, w: nat, outcome: Outcome<R>)
    requires Valid(s) && Enabled(s, SettleCall(w, outcome))
    ensures CallsAccounted(Take(s, SettleCall(w, outcome)))
  {
    var s' := Take(s, SettleCall(w, outcome));
    forall i | 0 <= i < s'.nextIndex ensures i in s'.settled || InFlight(s', i) {
      if i !in s'.settled {
        var v :| 0 <= v < |s.workers| && s.workers[v] == Awaiting(i);
        assert s'.workers[v] == Awaiting(i);
      }
    }
  }

  lemma StepKeepsValid<R>(s: State<R>, e: Event<R>)
    requires Valid(s) && Enabled(s, e)
    ensures Valid(Take(s, e))
  {
    match e
    case Turn(w) => TurnKeepsCalls(s, w);
    case SettleCall(w, outcome) => SettleKeepsCalls(s, w, outcome);
    case Abort => assert forall i :: InFlight(s, i) ==> InFlight(Take(s, Abort), i);
  }

  lemma {:induction false} RunIsValid<R>(ss: seq<State<R>>, es: seq<Event<R>>, count: nat, concurrency: int, i: nat)
    requires Run(ss, es, count, concurrency) && i < |ss|
    ensures Valid(ss[i]) && ss[i].count == count && |ss[i].workers| == PoolSize(concurrency, count)
  {
    if i > 0 {
      RunIsValid(ss, es, count, concurrency, i - 1);
      StepKeepsValid(ss[i - 1], es[i - 1]);
    }
  }

  // ---- what a run promises ----

  /** Claimed indices are the prefix [0, nextIndex), each claimed once, in order. */
  lemma ClaimsEachIndexOnce<R>(ss: seq<State<R>>, es: seq<Event<R>>, count: nat, concurrency: int, i: nat)
    requires Run(ss, es, count, concurrency) && i < |ss|
    ensures ss[i].claims == seq(ss[i].nextIndex, k => k) && ss[i].nextIndex <= count
  {
    RunIsValid(ss, es, count, concurrency, i);
  }

  /** The indices whose calls are in flight. */
  ghost function Flying(workers: seq<Worker>): set<nat> {
    set w | 0 <= w < |workers| && workers[w].Awaiting? :: workers[w].index
  }

  /** The calls in flight are the claimed unsettled indices: at most `concurrency`, at most one for each
      item, and none without a positive `concurrency`. */
  lemma NeverMoreThanThePool<R>(ss: seq<State<R>>, es: seq<Event<R>>, count: nat, concurrency: int, i: nat)
    requires Run(ss, es, count, concurrency) && i < |ss|
    ensures concurrency >= 0 ==> |Flying(ss[i].workers)| <= concurrency
    ensures concurrency <= 0 ==> Flying(ss[i].workers) == {}
    ensures |Flying(ss[i].workers)| <= count
    ensures forall k: nat :: k in Flying(ss[i].workers) <==> k < ss[i].nextIndex && k !in ss[i].settled
  {
    RunIsValid(ss, es, count, concurrency, i);
    FlyingAtMost(ss[i].workers);
  }

  lemma {:induction false} FlyingAtMost(workers: seq<Worker>)
    ensures |Flying(workers)| <= |workers|
  {
    if workers != [] {
      var n := |workers| - 1;
      FlyingAtMost(workers[..n]);
      FlyingSnoc(workers);
    }
  }

  lemma FlyingSnoc(workers: seq<Worker>)
    requires workers != []
    ensures var n := |workers| - 1;
      Flying(workers) == Flying(workers[..n]) + if workers[n].Awaiting? then {workers[n].index} else {}
  {
    var n := |workers| - 1;
    var last := if workers[n].Awaiting? then {workers[n].index} else {};
    assert Flying(workers) == Flying(workers[..n]) + last;
  }

  /** The state in which the first `n` workers have had their first turn. */
  ghost predicate Started<R>(s: State<R>, count: nat, n: nat) {
    && s.count == count && s.nextIndex == n && !s.aborted && n <= |s.workers|
    && (forall w :: 0 <= w < n ==> s.workers[w] == Awaiting(w))
    && (forall w :: n <= w < |s.workers| ==> s.workers[w] == Ready)
  }

  lemma {:induction false} WorkersStart<R>(count: nat, concurrency: int, n: nat)
    returns (ss: seq<State<R>>, es: seq<Event<R>>)
    requires concurrency >= 1 && n <= concurrency && n <= count
    ensures Run(ss, es, count, concurrency) && Started(ss[|es|], count, n)
  {
    if n == 0 {
      ss, es := [Begin(count, concurrency)], [];
    } else {
      ss, es := WorkersStart(count, concurrency, n - 1);
      RunIsValid(ss, es, count, concurrency, |es|);
      var e: Event<R> := Turn(n - 1);
      var next := Take(ss[|es|], e);
      RunOn(ss, es, count, concurrency, e);
      ss, es := ss + [next], es + [e];
    }
  }

  lemma RunOn<R>(ss: seq<State<R>>, es: seq<Event<R>>, count: nat, concurrency: int, e: Event<R>)
    requires Run(ss, es, count, concurrency) && Enabled(ss[|es|], e)
    ensures Run(ss + [Take(ss[|es|], e)], es + [e], count, concurrency)
  {
  }

  /** The bounds are reached: some run has `concurrency` calls in flight, or one for each item. */
  lemma ThePoolFills<R>(count: nat, concurrency: int) returns (ss: seq<State<R>>, es: seq<Event<R>>)
    requires concurrency >= 1
    ensures Run(ss, es, count, concurrency)
    ensures |Flying(ss[|es|].workers)| == concurrency || |Flying(ss[|es|].workers)| == count
  {
    var n: nat := if concurrency <= count then concurrency else count;
    ss, es := WorkersStart(count, concurrency, n);
    FirstAreFlying(ss[|es|].workers, n);
  }

  lemma FirstAreFlying(workers: seq<Worker>, n: nat)
    requires n <= |workers| && (forall w :: 0 <= w < n ==> workers[w] == Awaiting(w))
    requires forall w :: n <= w < |workers| ==> workers[w] == Ready
    ensures |Flying(workers)| == n
  {
    AllFlying(workers[..n]);
    forall k | k in Flying(workers[..n]) ensures k in Flying(workers) {
      var w :| 0 <= w < n && workers[..n][w].Awaiting? && workers[..n][w].index == k;
      assert workers[w].Awaiting? && workers[w].index == k;
    }
    forall k | k in Flying(workers) ensures k in Flying(workers[..n]) {
      var w :| 0 <= w < |workers| && workers[w].Awaiting? && workers[w].index == k;
      assert workers[..n][w].Awaiting? && workers[..n][w].index == k;
    }
    assert Flying(workers) == Flying(workers[..n]);
  }

  lemma {:induction false} AllFlying(workers: seq<Worker>)
    requires forall w :: 0 <= w < |workers| ==> workers[w] == Awaiting(w)
    ensures |Flying(workers)| == |workers|
    ensures forall k :: k in Flying(workers) ==> k < |workers|
  {
    if workers != [] {
      var n := |workers| - 1;
      AllFlying(workers[..n]);
      FlyingSnoc(workers);
    }
  }

  /** Nothing is claimed once the signal has aborted. */
  lemma {:induction false} NoClaimAfterAbort<R>(ss: seq<State<R>>, es: seq<Event<R>>, count: nat, concurrency: int,
                                                i: nat, j: nat)
    requires Run(ss, es, count, concurrency) && i <= j < |ss| && ss[i].aborted
    ensures ss[j].aborted && ss[j].claims == ss[i].claims && ss[j].nextIndex == ss[i].nextIndex
  {
    if i < j {
      NoClaimAfterAbort(ss, es, count, concurrency, i, j - 1);
    }
  }

  predicate AllFinished<R>(s: State<R>) {
    forall w | 0 <= w < |s.workers| :: s.workers[w].Finished?
  }

  /** When the pool is done every claimed slot holds its own call's result, or nothing if that
      call threw, and no other slot holds anything. */
  lemma EachSlotIsItsOwnResult<R>(ss: seq<State<R>>, es: seq<Event<R>>, count: nat, concurrency: int, i: nat)
    requires Run(ss, es, count, concurrency) && i < |ss| && AllFinished(ss[i])
    ensures |ss[i].results| == count
    ensures forall k :: 0 <= k < count ==>
      if k < ss[i].nextIndex then k in ss[i].settled && ss[i].results[k] == Slot(ss[i].settled[k])
      else ss[i].results[k] == None
  {
    RunIsValid(ss, es, count, concurrency, i);
    var s := ss[i];
    forall k | 0 <= k < s.nextIndex ensures k in s.settled {
      assert !InFlight(s, k);
    }
  }

  /** Without an abort every item is called, exactly when there is a worker to call it. */
  lemma EveryItemIsCalled<R>(ss: seq<State<R>>, es: seq<Event<R>>, count: nat, concurrency: int, i: nat)
    requires Run(ss, es, count, concurrency) && i < |ss| && AllFinished(ss[i]) && !ss[i].aborted
    ensures ss[i].nextIndex == count <==> concurrency >= 1 || count == 0
  {
    RunIsValid(ss, es, count, concurrency, i);
    if concurrency >= 1 && count > 0 {
      assert ss[i].workers[0].Finished?;
    } else {
      NoWorkersNoClaims(ss, es, count, concurrency, i);
    }
  }

  lemma {:induction false} NoWorkersNoClaims<R>(ss: seq<State<R>>, es: seq<Event<R>>, count: nat, concurrency: int,
                                                i: nat)
    requires Run(ss, es, count, concurrency) && i < |ss| && PoolSize(concurrency, count) == 0
    ensures ss[i].nextIndex == 0
  {
    if i > 0 {
      NoWorkersNoClaims(ss, es, count, concurrency, i - 1);
      RunIsValid(ss, es, count, concurrency, i - 1);
    }
  }

  // ---- the pool finishes ----

  function Remaining(worker: Worker): nat {
    match worker
    case Ready => 1
    case Awaiting(_) => 2
    case Finished => 0
  }

  function Work<R>(s: State<R>): int {
    2 * (s.count - s.nextIndex) + Total(Remaining, s.workers)
  }

  /** Each turn and each settled call brings the pool closer to its end, and it can always
      take one of them until every worker has finished. */
  lemma PoolProgresses<R>(ss: seq<State<R>>, es: seq<Event<R>>, count: nat, concurrency: int, i: nat)
    requires Run(ss, es, count, concurrency) && i < |ss|
    ensures Work(ss[i]) >= 0
    ensures i < |es| && !es[i].Abort? ==> Work(ss[i + 1]) < Work(ss[i])
    ensures !AllFinished(ss[i]) ==>
      exists w: nat :: Enabled(ss[i], Turn(w)) || AwaitsCall(ss[i], w)
  {
    RunIsValid(ss, es, count, concurrency, i);
    if i < |es| && !es[i].Abort? {
      var w := es[i].worker;
      TotalAfter(Remaining, ss[i].workers, w, ss[i + 1].workers[w]);
    }
    if !AllFinished(ss[i]) {
      var w :| 0 <= w < |ss[i].workers| && !ss[i].workers[w].Finished?;
      assert Enabled(ss[i], Turn(w)) || AwaitsCall(ss[i], w);
    }
  }

  // ---- the code, over its own fields ----

  /** The variables the workers share; `claims` and `settled` only record what happened. */
  class Pool<R> {
    const results: array<Option<R>>
    var workers: seq<Worker>
    var nextIndex: nat
    var aborted: bool
    ghost var claims: seq<nat>
    ghost var settled: map<nat, Outcome<R>>

    constructor (count: nat, concurrency: int)
      ensures Now() == Begin(count, concurrency) && fresh(results)
    {
      results := new Option<R>[count](_ => None);
      workers := seq(PoolSize(concurrency, count), _ => Ready);
      nextIndex, aborted, claims, settled := 0, false, [], map[];
    }

    ghost function Now(): State<R>
      reads this, results
    {
      State(results.Length, workers, nextIndex, results[..], aborted, claims, settled)
    }

    /** A worker at the top of its loop: claim the next index, or leave. */
    method WorkerTurn(w: nat)
      requires Enabled(Now(), Turn(w))
      modifies this
      ensures Now() == Take(old(Now()), Turn(w))
    {
      if nextIndex >= results.Length || aborted {
        workers := workers[w := Finished];
        return;
      }
      workers := workers[w := Awaiting(nextIndex)];
      claims := claims + [nextIndex];
      nextIndex := nextIndex + 1;
    }

    /** The awaited call settles; a thrown error leaves the slot as it is. */
    method OnSettled(w: nat, outcome: Outcome<R>)
      requires Enabled(Now(), SettleCall(w, outcome))
      modifies this, results
      ensures Now() == Take(old(Now()), SettleCall(w, outcome))
    {
      var i := workers[w].index;
      if outcome.Returned? {
        results[i] := Some(outcome.value);
      }
      workers := workers[w := Ready];
      settled := settled[i := outcome];
    }

    method OnAbort()
      modifies this
      ensures Now() == Take(old(Now()), Abort)
    {
      aborted := true;
    }
  }

  /** Calls have settled as `fn` has them settle. */
  ghost predicate FollowsCalls<R>(s: State<R>, fn: nat -> Outcome<R>) {
    forall i | i in s.settled :: s.settled[i] == fn(i)
  }

  lemma WorkShrinks<R>(s: State<R>, e: Event<R>)
    requires Valid(s) && Enabled(s, e) && !e.Abort?
    ensures Valid(Take(s, e)) && 0 <= Work(Take(s, e)) < Work(s)
  {
    StepKeepsValid(s, e);
    TotalAfter(Remaining, s.workers, e.worker, Take(s, e).workers[e.worker]);
  }

  lemma SlotsAtTheEnd<R>(s: State<R>, fn: nat -> Outcome<R>)
    requires Valid(s) && FollowsCalls(s, fn) && AllFinished(s)
    ensures forall k | 0 <= k < s.count :: s.results[k] == if k < s.nextIndex then Slot(fn(k)) else None
    ensures !s.aborted && s.workers != [] ==> s.nextIndex == s.count
  {
    forall k | 0 <= k < s.nextIndex ensures k in s.settled {
      assert !InFlight(s, k);
    }
    assert s.workers != [] ==> s.workers[0].Finished?;
  }

  /** What the loop below keeps, as values. */
  ghost predicate Running<R>(s: State<R>, fn: nat -> Outcome<R>, count: nat, workers: nat) {
    Valid(s) && FollowsCalls(s, fn) && s.count == count && |s.workers| == workers
  }

  lemma BeginIsRunning<R>(fn: nat -> Outcome<R>, count: nat, concurrency: int)
    ensures Running(Begin(count, concurrency), fn, count, PoolSize(concurrency, count))
  {
  }

  /** An abort uses up one step, every other event some of the work. */
  ghost function StepsLeft<R>(s: State<R>): int {
    Work(s) + if s.aborted then 0 else 1
  }

  lemma EventKeepsRunning<R>(s: State<R>, e: Event<R>, fn: nat -> Outcome<R>, s': State<R>)
    requires Running(s, fn, s.count, |s.workers|) && Enabled(s, e) && s' == Take(s, e)
    requires e.Abort? ==> !s.aborted
    requires e.SettleCall? ==> e.outcome == fn(s.workers[e.worker].index)
    ensures Running(s', fn, s.count, |s.workers|) && 0 <= StepsLeft(s') < StepsLeft(s)
    ensures s'.aborted == (s.aborted || e.Abort?)
  {
    StepKeepsValid(s, e);
    if e.Abort? {
      WorkIsNatural(s);
    } else {
      WorkShrinks(s, e);
    }
  }

  lemma WorkIsNatural<R>(s: State<R>)
    requires Valid(s)
    ensures Work(s) >= 0
  {
  }

  /** One more turn of a worker that has not left, the settling of the call it awaits, or the
      abort of the signal. */
  method Step<R>(pool: Pool<R>, fn: nat -> Outcome<R>, w: nat, abort: bool)
    requires Running(pool.Now(), fn, pool.results.Length, |pool.workers|)
    requires (abort && !pool.aborted) || (w < |pool.workers| && !pool.workers[w].Finished?)
    modifies pool, pool.results
    ensures Running(pool.Now(), fn, pool.results.Length, |old(pool.workers)|)
    ensures 0 <= StepsLeft(pool.Now()) < StepsLeft(old(pool.Now()))
    ensures !abort ==> pool.aborted == old(pool.aborted)
  {
    ghost var before := pool.Now();
    if abort && !pool.aborted {
      pool.OnAbort();
      EventKeepsRunning(before, Abort, fn, pool.Now());
    } else if pool.workers[w].Ready? {
      pool.WorkerTurn(w);
      EventKeepsRunning(before, Turn(w), fn, pool.Now());
    } else {
      var outcome := fn(pool.workers[w].index);
      pool.OnSettled(w, outcome);
      EventKeepsRunning(before, SettleCall(w, outcome), fn, pool.Now());
    }
  }

  /** Any worker may have the next turn, and the signal may abort at any time. */
  method RunWorkers<R>(pool: Pool<R>, fn: nat -> Outcome<R>, signalled: bool)
    requires Running(pool.Now(), fn, pool.results.Length, |pool.workers|) && !pool.aborted
    modifies pool, pool.results
    ensures Running(pool.Now(), fn, pool.results.Length, |old(pool.workers)|) && AllFinished(pool.Now())
    ensures !signalled ==> !pool.aborted
  {
    ghost var workers := |pool.workers|;
    while exists w | 0 <= w < |pool.workers| :: !pool.workers[w].Finished?
      invariant Running(pool.Now(), fn, pool.results.Length, workers)
      invariant !signalled ==> !pool.aborted
      decreases StepsLeft(pool.Now())
    {
      var w :| 0 <= w < |pool.workers| && !pool.workers[w].Finished?;
      var abort: bool := *;
      Step(pool, fn, w, abort && signalled);
    }
  }

  /** Whatever the order in which workers get their turns and calls settle, and whenever the signal
      aborts, the map ends with a prefix of the items called and each result in its own slot. */
  method ConcurrentMap<R>(fn: nat -> Outcome<R>, count: nat, concurrency: int, signalled: bool)
    returns (results: array<Option<R>>, claimed: nat)
    ensures results.Length == count && claimed <= count
    ensures forall k | 0 <= k < count :: results[k] == if k < claimed then Slot(fn(k)) else None
    ensures !signalled && (concurrency >= 1 || count == 0) ==> claimed == count
  {
    var pool := new Pool<R>(count, concurrency);
    BeginIsRunning(fn, count, concurrency);
    RunWorkers(pool, fn, signalled);
    ghost var s := pool.Now();
    SlotsAtTheEnd(s, fn);
    results, claimed := pool.results, pool.nextIndex;
    assert forall k | 0 <= k < count :: results[k] == s.results[k];
  }
}
