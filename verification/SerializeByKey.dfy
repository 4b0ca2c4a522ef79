/** `serializeByKey`: one promise chain per key. A step is one call or one promise reaction;
    reactions may run in any order the promises allow. */
module SerializeByKey {
  import opened Basics

  /** A task waits, runs, has its `run` promise settled either way, has its `settled` promise
      fulfilled, and finally has run its clean-up reaction; `ok` is what its own caller is told. */
  datatype Phase = Queued | Running | Ended(ok: bool) | Settled(ok: bool) | Cleaned(ok: bool)

  /** `tail` is the task whose `settled` promise this one was chained to. */
  datatype Task = Task(key: string, tail: Option<nat>, phase: Phase)

  /** `tasks` in the order of the calls; `chains` names the task whose `settled` promise the
      map holds; `started` logs the starts. */
  datatype State = State(tasks: seq<Task>, chains: map<string, nat>, started: seq<nat>)

  datatype Event =
    | Call(key: string) | Start(task: nat) | End(task: nat, ok: bool) | Settle(task: nat) | CleanUp(task: nat)

  predicate Over(t: Task) {
    t.phase.Settled? || t.phase.Cleaned?
  }

  /** The promise this task was chained to is fulfilled. */
  predicate TailOver(tasks: seq<Task>, t: Task) {
    t.tail.Some? ==> t.tail.value < |tasks| && Over(tasks[t.tail.value])
  }

  predicate Enabled(s: State, e: Event) {
    match e
    case Call(_) => true
    case Start(t) => t < |s.tasks| && s.tasks[t].phase.Queued? && TailOver(s.tasks, s.tasks[t])
    case End(t, _) => t < |s.tasks| && s.tasks[t].phase.Running?
    case Settle(t) => t < |s.tasks| && s.tasks[t].phase.Ended?
    case CleanUp(t) => t < |s.tasks| && s.tasks[t].phase.Settled?
  }

  function To(s: State, t: nat, phase: Phase): State
    requires t < |s.tasks|
  {
    s.(tasks := s.tasks[t := s.tasks[t].(phase := phase)])
  }

  function Take(s: State, e: Event): State
    requires Enabled(s, e)
  {
    match e
    case Call(key) =>
      var tail := if key in s.chains then Some(s.chains[key]) else None;
      s.(tasks := s.tasks + [Task(key, tail, Queued)], chains := s.chains[key := |s.tasks|])
    case Start(t) => To(s, t, Running).(started := s.started + [t])
    case End(t, ok) => To(s, t, Ended(ok))
    case Settle(t) => To(s, t, Settled(s.tasks[t].phase.ok))
    case CleanUp(t) =>
      var key := s.tasks[t].key;
      var s' := To(s, t, Cleaned(s.tasks[t].phase.ok));
      if key in s.chains && s.chains[key] == t then s'.(chains := s.chains - {key}) else s'
  }

  const EMPTY := State([], map[], [])

  /** `ss` are the states passed through, from an empty map, `es` the events between them. */
  ghost predicate Run(ss: seq<State>, es: seq<Event>) {
    && |ss| == |es| + 1 && ss[0] == EMPTY
    && forall i :: 0 <= i < |es| ==> Enabled(ss[i], es[i]) && ss[i + 1] == Take(ss[i], es[i])
  }

  // ---- the invariant ----

  /** Task `i` was called before task `j` under the same key. */
  predicate Before(s: State, i: int, j: int) {
    0 <= i < j < |s.tasks| && s.tasks[i].key == s.tasks[j].key
  }

  /** Another task is queued behind task `i` under its key. */
  predicate HasLater(s: State, i: int) {
    exists j | i < j < |s.tasks| :: Before(s, i, j)
  }

  /** Each task is chained to its predecessor, or had none left to wait for. */
  ghost predicate Chained(s: State) {
    forall i, j :: Before(s, i, j) ==>
      match s.tasks[j].tail
      case None => Over(s.tasks[i])
      case Some(p) => Before(s, p, j) && p >= i
  }

  ghost predicate InOrder(s: State) {
    forall i, j :: Before(s, i, j) && !s.tasks[j].phase.Queued? ==> Over(s.tasks[i])
  }

  /** The map holds the last task of a key that has not cleaned up; a missing key has only
      finished tasks. */
  ghost predicate MapIsTail(s: State) {
    && (forall key :: key in s.chains ==>
          s.chains[key] < |s.tasks| && s.tasks[s.chains[key]].key == key && !s.tasks[s.chains[key]].phase.Cleaned?)
    && (forall i :: 0 <= i < |s.tasks| ==>
          if s.tasks[i].key in s.chains then i <= s.chains[s.tasks[i].key]
          else Over(s.tasks[i]))
  }

  /** A task that has not cleaned up yet and whose key has left the map is not the last one. */
  ghost predicate TailsCleaned(s: State) {
    forall i :: 0 <= i < |s.tasks| && s.tasks[i].phase.Settled? && s.tasks[i].key !in s.chains ==> HasLater(s, i)
  }

  ghost predicate StartsLogged(s: State) {
    && (forall i :: 0 <= i < |s.started| ==> s.started[i] < |s.tasks| && !s.tasks[s.started[i]].phase.Queued?)
    && (forall t :: 0 <= t < |s.tasks| && !s.tasks[t].phase.Queued? ==> t in s.started)
    && (forall i, j :: 0 <= i < j < |s.started| && s.tasks[s.started[i]].key == s.tasks[s.started[j]].key
          ==> s.started[i] < s.started[j])
  }

  ghost predicate TailsKnown(s: State) {
    forall t :: 0 <= t < |s.tasks| && s.tasks[t].tail.Some? ==> Before(s, s.tasks[t].tail.value, t)
  }

  ghost predicate Valid(s: State) {
    Chained(s) && TailsKnown(s) && InOrder(s) && MapIsTail(s) && TailsCleaned(s) && StartsLogged(s)
  }

  lemma CallKeepsValid(s: State, key: string)
    requires Valid(s)
    ensures Valid(Take(s, Call(key)))
  {
    CallKeepsChained(s, key);
    CallKeepsMap(s, key);
    CallKeepsOrder(s, key);
  }

  lemma CallKeepsOrder(s: State, key: string)
    requires InOrder(s) && MapIsTail(s) && TailsKnown(s) && StartsLogged(s)
    ensures var s' := Take(s, Call(key)); InOrder(s') && TailsKnown(s') && StartsLogged(s')
  {
    var s' := Take(s, Call(key));
    forall i, j | Before(s', i, j) && !s'.tasks[j].phase.Queued? ensures Over(s'.tasks[i]) {
      assert Before(s, i, j);
    }
    forall t | 0 <= t < |s'.tasks| && s'.tasks[t].tail.Some? ensures Before(s', s'.tasks[t].tail.value, t) {
      assert t < |s.tasks| ==> Before(s, s.tasks[t].tail.value, t);
    }
  }

  lemma CallKeepsChained(s: State, key: string)
    requires Chained(s) && MapIsTail(s)
    ensures Chained(Take(s, Call(key)))
  {
    var s' := Take(s, Call(key));
    forall i, j | Before(s', i, j)
      ensures match s'.tasks[j].tail case None => Over(s'.tasks[i]) case Some(p) => Before(s', p, j) && p >= i
    {
      assert j < |s.tasks| ==> Before(s, i, j);
    }
  }

  lemma CallKeepsMap(s: State, key: string)
    requires MapIsTail(s) && TailsCleaned(s)
    ensures MapIsTail(Take(s, Call(key))) && TailsCleaned(Take(s, Call(key)))
  {
    var s' := Take(s, Call(key));
    forall i | 0 <= i < |s'.tasks| && s'.tasks[i].phase.Settled? && s'.tasks[i].key !in s'.chains
      ensures HasLater(s', i) {
      var j :| i < j < |s.tasks| && Before(s, i, j);
      assert Before(s', i, j);
    }
  }

  predicate Advances(t: Task, phase: Phase) {
    && (Over(t) ==> phase.Settled? || phase.Cleaned?)
    && (t.phase.Queued? <==> phase.Running?)
    && !phase.Queued?
  }

  lemma AdvanceKeepsChained(s: State, t: nat, phase: Phase)
    requires Chained(s) && TailsKnown(s) && t < |s.tasks| && Advances(s.tasks[t], phase)
    ensures Chained(To(s, t, phase)) && TailsKnown(To(s, t, phase))
  {
    var s' := To(s, t, phase);
    forall i, j | Before(s', i, j)
      ensures match s'.tasks[j].tail case None => Over(s'.tasks[i]) case Some(p) => Before(s', p, j) && p >= i
    {
      assert Before(s, i, j);
    }
  }

  lemma AdvanceKeepsInOrder(s: State, t: nat, phase: Phase)
    requires InOrder(s) && t < |s.tasks| && Advances(s.tasks[t], phase)
    requires s.tasks[t].phase.Queued? ==> forall i :: Before(s, i, t) ==> Over(s.tasks[i])
    ensures InOrder(To(s, t, phase))
  {
    var s' := To(s, t, phase);
    forall i, j | Before(s', i, j) && !s'.tasks[j].phase.Queued? ensures Over(s'.tasks[i]) {
      assert Before(s, i, j);
    }
  }

  lemma AdvanceKeepsMap(s: State, t: nat, phase: Phase)
    requires MapIsTail(s) && t < |s.tasks| && Advances(s.tasks[t], phase)
    requires phase.Cleaned? ==> s.tasks[t].key !in s.chains || s.chains[s.tasks[t].key] != t
    ensures MapIsTail(To(s, t, phase))
  {
  }

  lemma AdvanceKeepsTails(s: State, t: nat, phase: Phase)
    requires MapIsTail(s) && TailsCleaned(s) && t < |s.tasks| && Advances(s.tasks[t], phase)
    requires phase.Settled? ==> s.tasks[t].phase.Ended?
    ensures TailsCleaned(To(s, t, phase))
  {
    var s' := To(s, t, phase);
    forall i | 0 <= i < |s'.tasks| && s'.tasks[i].phase.Settled? && s'.tasks[i].key !in s'.chains
      ensures HasLater(s', i) {
      assert s.tasks[i].phase.Settled?;
      var j :| i < j < |s.tasks| && Before(s, i, j);
      assert Before(s', i, j);
    }
  }

  lemma AdvanceKeepsLog(s: State, t: nat, phase: Phase)
    requires StartsLogged(s) && t < |s.tasks| && !s.tasks[t].phase.Queued? && !phase.Queued?
    ensures StartsLogged(To(s, t, phase))
  {
  }

  lemma EndKeepsValid(s: State, e: Event)
    requires Valid(s) && Enabled(s, e) && (e.End? || e.Settle?)
    ensures Valid(Take(s, e))
  {
    var phase := if e.End? then Ended(e.ok) else Settled(s.tasks[e.task].phase.ok);
    AdvanceKeepsChained(s, e.task, phase);
    AdvanceKeepsInOrder(s, e.task, phase);
    AdvanceKeepsMap(s, e.task, phase);
    AdvanceKeepsTails(s, e.task, phase);
    AdvanceKeepsLog(s, e.task, phase);
  }

  lemma CleanUpKeepsValid(s: State, t: nat)
    requires Valid(s) && Enabled(s, CleanUp(t))
    ensures Valid(Take(s, CleanUp(t)))
  {
    var key, cleaned := s.tasks[t].key, Cleaned(s.tasks[t].phase.ok);
    AdvanceKeepsChained(s, t, cleaned);
    AdvanceKeepsInOrder(s, t, cleaned);
    AdvanceKeepsTails(s, t, cleaned);
    AdvanceKeepsLog(s, t, cleaned);
    if key in s.chains && s.chains[key] == t {
      var s1, s' := To(s, t, cleaned), Take(s, CleanUp(t));
      SameTasks(s1, s');
      DeleteKeepsMap(s, t);
    } else {
      AdvanceKeepsMap(s, t, cleaned);
    }
  }

  lemma SameTasks(s: State, s': State)
    requires s'.tasks == s.tasks && s'.started == s.started
    ensures forall i, j :: Before(s', i, j) <==> Before(s, i, j)
    ensures (Chained(s) ==> Chained(s')) && (TailsKnown(s) ==> TailsKnown(s')) && (InOrder(s) ==> InOrder(s'))
    ensures StartsLogged(s) ==> StartsLogged(s')
  {
  }

  lemma DeleteKeepsMap(s: State, t: nat)
    requires MapIsTail(s) && TailsCleaned(s) && InOrder(s) && Enabled(s, CleanUp(t))
    requires s.tasks[t].key in s.chains && s.chains[s.tasks[t].key] == t
    ensures MapIsTail(Take(s, CleanUp(t))) && TailsCleaned(Take(s, CleanUp(t)))
  {
    var s' := Take(s, CleanUp(t));
    forall i | 0 <= i < |s.tasks| && s.tasks[i].key == s.tasks[t].key
      ensures Over(s'.tasks[i]) && (i < t ==> HasLater(s', i)) {
      assert i < t ==> Before(s, i, t) && Before(s', i, t);
    }
    forall i | 0 <= i < |s'.tasks| && s'.tasks[i].phase.Settled? && s'.tasks[i].key !in s'.chains
      ensures HasLater(s', i) {
      if s'.tasks[i].key != s.tasks[t].key {
        var j :| i < j < |s.tasks| && Before(s, i, j);
        assert Before(s', i, j);
      }
    }
  }

  lemma StartKeepsValid(s: State, t: nat)
    requires Valid(s) && Enabled(s, Start(t))
    ensures Valid(Take(s, Start(t)))
  {
    forall i | Before(s, i, t) ensures Over(s.tasks[i]) {
      ReadyMeansAllOver(s, t, i);
    }
    AdvanceKeepsChained(s, t, Running);
    AdvanceKeepsInOrder(s, t, Running);
    AdvanceKeepsMap(s, t, Running);
    AdvanceKeepsTails(s, t, Running);
    var s1, s' := To(s, t, Running), Take(s, Start(t));
    assert forall i, j :: Before(s', i, j) <==> Before(s1, i, j);
    StartKeepsLog(s, t);
  }

  lemma StartKeepsLog(s: State, t: nat)
    requires StartsLogged(s) && InOrder(s) && Enabled(s, Start(t))
    ensures StartsLogged(Take(s, Start(t)))
  {
    StartComesLast(s, t);
    LogAfterStart(s, t, Take(s, Start(t)));
  }

  lemma StartComesLast(s: State, t: nat)
    requires StartsLogged(s) && InOrder(s) && t < |s.tasks| && s.tasks[t].phase.Queued?
    ensures forall i :: 0 <= i < |s.started| && s.tasks[s.started[i]].key == s.tasks[t].key ==> s.started[i] < t
  {
    forall i | 0 <= i < |s.started| && s.tasks[s.started[i]].key == s.tasks[t].key ensures s.started[i] < t {
      if Before(s, t, s.started[i]) { assert false; }
    }
  }

  lemma LogAfterStart(s: State, t: nat, s': State)
    requires StartsLogged(s) && t < |s.tasks| && s'.started == s.started + [t]
    requires s'.tasks == s.tasks[t := s.tasks[t].(phase := Running)]
    requires forall i :: 0 <= i < |s.started| && s.tasks[s.started[i]].key == s.tasks[t].key ==> s.started[i] < t
    ensures StartsLogged(s')
  {
    assert forall i :: 0 <= i < |s.started| ==> s'.started[i] == s.started[i];
    assert s'.started[|s.started|] == t;
    forall x | 0 <= x < |s'.tasks| && !s'.tasks[x].phase.Queued? ensures x in s'.started {
      assert x == t || x in s.started;
    }
  }

  /** A fulfilled tail means that everything called earlier under the key is over. */
  lemma ReadyMeansAllOver(s: State, t: nat, i: int)
    requires Chained(s) && TailsKnown(s) && InOrder(s) && Enabled(s, Start(t)) && Before(s, i, t)
    ensures Over(s.tasks[i])
  {
    if s.tasks[t].tail.Some? {
      var p := s.tasks[t].tail.value;
      assert Before(s, p, t) && p >= i;
      if i < p {
        assert Before(s, i, p);
      }
    }
  }

  lemma StepKeepsValid(s: State, e: Event)
    requires Valid(s) && Enabled(s, e)
    ensures Valid(Take(s, e))
  {
    match e
    case Call(key) => CallKeepsValid(s, key);
    case Start(t) => StartKeepsValid(s, t);
    case CleanUp(t) => CleanUpKeepsValid(s, t);
    case _ => EndKeepsValid(s, e);
  }

  lemma {:induction false} RunIsValid(ss: seq<State>, es: seq<Event>, i: nat)
    requires Run(ss, es) && i < |ss|
    ensures Valid(ss[i])
  {
    if i > 0 {
      RunIsValid(ss, es, i - 1);
      StepKeepsValid(ss[i - 1], es[i - 1]);
    }
  }

  // ---- what a run promises ----

  /** Under one key tasks run one at a time, and start in the order of the calls, each after
      every earlier one is over, whatever mix of them fails. */
  lemma OneAtATimeInCallOrder(ss: seq<State>, es: seq<Event>, i: nat, a: nat, b: nat)
    requires Run(ss, es) && i < |ss| && Before(ss[i], a, b)
    ensures !ss[i].tasks[b].phase.Queued? ==> Over(ss[i].tasks[a])
    ensures !(ss[i].tasks[a].phase.Running? && ss[i].tasks[b].phase.Running?)
    ensures forall x, y :: 0 <= x < y < |ss[i].started| ==> !(ss[i].started[x] == b && ss[i].started[y] == a)
  {
    RunIsValid(ss, es, i);
  }

  /** A waiting task can start exactly when the earlier tasks of its own key are over: neither
      other keys nor failures make it wait. */
  lemma StartsExactlyWhenItsKeyIsFree(ss: seq<State>, es: seq<Event>, i: nat, t: nat)
    requires Run(ss, es) && i < |ss| && t < |ss[i].tasks| && ss[i].tasks[t].phase.Queued?
    ensures Enabled(ss[i], Start(t)) <==> forall a :: Before(ss[i], a, t) ==> Over(ss[i].tasks[a])
  {
    RunIsValid(ss, es, i);
    if Enabled(ss[i], Start(t)) {
      forall a | Before(ss[i], a, t) ensures Over(ss[i].tasks[a]) {
        ReadyMeansAllOver(ss[i], t, a);
      }
    }
  }

  /** A clean-up deletes the map entry exactly when no later task is queued behind it. */
  lemma DeletesExactlyTheDrainedTail(ss: seq<State>, es: seq<Event>, i: nat, t: nat)
    requires Run(ss, es) && i < |ss| && Enabled(ss[i], CleanUp(t))
    ensures var s, s' := ss[i], Take(ss[i], CleanUp(t));
      s'.chains == if HasLater(s, t) then s.chains else s.chains - {s.tasks[t].key}
    ensures !HasLater(ss[i], t) ==> ss[i].tasks[t].key in ss[i].chains
  {
    RunIsValid(ss, es, i);
    var s := ss[i];
    var key := s.tasks[t].key;
    if key in s.chains && t < s.chains[key] {
      assert Before(s, t, s.chains[key]);
    }
  }

  /** What the caller of the task has been told. */
  function Told(task: Task): Option<bool> {
    match task.phase
    case Ended(ok) => Some(ok)
    case Settled(ok) => Some(ok)
    case Cleaned(ok) => Some(ok)
    case _ => None
  }

  predicate IsTold(s: State, t: nat, ok: bool) {
    t < |s.tasks| && Told(s.tasks[t]) == Some(ok)
  }

  lemma StepTells(s: State, e: Event, t: nat, ok: bool)
    requires Enabled(s, e)
    ensures IsTold(Take(s, e), t, ok) <==> IsTold(s, t, ok) || e == End(t, ok)
  {
  }

  /** Each caller is told how its own task ended, and nothing else, whatever becomes of the others. */
  lemma {:induction false} EachCallerIsToldItsOwn(ss: seq<State>, es: seq<Event>, i: nat, t: nat, ok: bool)
    requires Run(ss, es) && i < |ss|
    ensures IsTold(ss[i], t, ok) <==> exists k :: 0 <= k < i && es[k] == End(t, ok)
  {
    if i > 0 {
      EachCallerIsToldItsOwn(ss, es, i - 1, t, ok);
      StepTells(ss[i - 1], es[i - 1], t, ok);
    }
  }

  // ---- every chain drains ----

  function Remaining(task: Task): nat {
    match task.phase
    case Queued => 4
    case Running => 3
    case Ended(_) => 2
    case Settled(_) => 1
    case Cleaned(_) => 0
  }

  function Work(tasks: seq<Task>): nat {
    Total(Remaining, tasks)
  }

  lemma StepDoesOneUnit(s: State, e: Event)
    requires Enabled(s, e) && !e.Call?
    ensures Work(Take(s, e).tasks) == Work(s.tasks) - 1
  {
    var t := e.task;
    TotalAfter(Remaining, s.tasks, t, Take(s, e).tasks[t]);
  }

  /** Without further calls a run is over after exactly as many steps as there is work. */
  lemma {:induction false} DrainsInWorkSteps(ss: seq<State>, es: seq<Event>, i: nat, j: nat)
    requires Run(ss, es) && i <= j < |ss| && forall k :: i <= k < j ==> !es[k].Call?
    ensures Work(ss[j].tasks) == Work(ss[i].tasks) - (j - i)
  {
    if i < j {
      DrainsInWorkSteps(ss, es, i, j - 1);
      StepDoesOneUnit(ss[j - 1], es[j - 1]);
    }
  }

  /** Nothing can happen but a further call. */
  ghost predicate Stuck(s: State) {
    forall e :: Enabled(s, e) ==> e.Call?
  }

  /** A run stops only when every task has run and been cleaned up, and the map is empty. */
  lemma StopsOnlyWhenDrained(ss: seq<State>, es: seq<Event>, i: nat)
    requires Run(ss, es) && i < |ss| && Stuck(ss[i])
    ensures (forall t :: 0 <= t < |ss[i].tasks| ==> ss[i].tasks[t].phase.Cleaned? && t in ss[i].started)
    ensures ss[i].chains == map[]
  {
    RunIsValid(ss, es, i);
    StuckIsDrained(ss[i]);
  }

  lemma StuckIsDrained(s: State)
    requires Valid(s) && Stuck(s)
    ensures (forall t :: 0 <= t < |s.tasks| ==> s.tasks[t].phase.Cleaned? && t in s.started)
    ensures s.chains == map[]
  {
    StuckMeansCleaned(s, |s.tasks|);
  }

  lemma {:induction false} StuckMeansCleaned(s: State, n: nat)
    requires TailsKnown(s) && Stuck(s) && n <= |s.tasks|
    ensures forall t :: 0 <= t < n ==> s.tasks[t].phase.Cleaned?
  {
    if n > 0 {
      StuckMeansCleaned(s, n - 1);
      var task := s.tasks[n - 1];
      assert task.tail.Some? ==> Before(s, task.tail.value, n - 1);
      assert !Enabled(s, Start(n - 1)) && !Enabled(s, End(n - 1, true)) && !Enabled(s, Settle(n - 1));
      assert !Enabled(s, CleanUp(n - 1));
    }
  }

  // ---- the code, over the caller's own map ----

  /** The map and the promises chained through it, updated in place. */
  class Chains {
    var chains: map<string, nat>
    var tasks: seq<Task>
    ghost var started: seq<nat>

    constructor ()
      ensures Now() == EMPTY
    {
      chains, tasks, started := map[], [], [];
    }

    ghost function Now(): State
      reads this
    {
      State(tasks, chains, started)
    }

    /** `serializeByKey`: chain behind the tail the map holds, and become that tail. */
    method SerializeByKey(key: string) returns (task: nat)
      modifies this
      ensures Now() == Take(old(Now()), Call(key)) && task == |old(tasks)|
    {
      task := |tasks|;
      var tail := if key in chains then Some(chains[key]) else None;
      tasks := tasks + [Task(key, tail, Queued)];
      chains := chains[key := task];
    }

    method Start(task: nat)
      requires Enabled(Now(), Event.Start(task))
      modifies this
      ensures Now() == Take(old(Now()), Event.Start(task))
    {
      tasks, started := tasks[task := tasks[task].(phase := Running)], started + [task];
    }

    method End(task: nat, ok: bool)
      requires Enabled(Now(), Event.End(task, ok))
      modifies this
      ensures Now() == Take(old(Now()), Event.End(task, ok))
    {
      tasks := tasks[task := tasks[task].(phase := Ended(ok))];
    }

    method Settle(task: nat)
      requires Enabled(Now(), Event.Settle(task))
      modifies this
      ensures Now() == Take(old(Now()), Event.Settle(task))
    {
      tasks := tasks[task := tasks[task].(phase := Settled(tasks[task].phase.ok))];
    }

    /** The clean-up reaction: leave the entry alone if a later call has replaced it. */
    method OnSettled(task: nat)
      requires Enabled(Now(), CleanUp(task))
      modifies this
      ensures Now() == Take(old(Now()), CleanUp(task))
    {
      var key := tasks[task].key;
      if key in chains && chains[key] == task {
        chains := chains - {key};
      }
      tasks := tasks[task := tasks[task].(phase := Cleaned(tasks[task].phase.ok))];
    }
  }
  // ---- a whole run ----

  predicate Reacts(tasks: seq<Task>, t: nat) {
    t < |tasks| && !tasks[t].phase.Cleaned? && (tasks[t].phase.Queued? ==> TailOver(tasks, tasks[t]))
  }

  function Reaction(tasks: seq<Task>, t: nat, ok: bool): Event
    requires Reacts(tasks, t)
  {
    match tasks[t].phase
    case Queued => Start(t)
    case Running => End(t, ok)
    case Ended(_) => Settle(t)
    case _ => CleanUp(t)
  }

  /** The next reaction of a task; a task that runs ends as `succeeds` says. */
  method React(chains: Chains, t: nat, succeeds: nat -> bool)
    requires Reacts(chains.tasks, t)
    modifies chains
    ensures chains.Now() == Take(old(chains.Now()), Reaction(old(chains.tasks), t, succeeds(t)))
  {
    var phase := chains.tasks[t].phase;
    if phase.Queued? {
      chains.Start(t);
    } else if phase.Running? {
      chains.End(t, succeeds(t));
    } else if phase.Ended? {
      chains.Settle(t);
    } else {
      chains.OnSettled(t);
    }
  }

  /** The tasks were called for these keys, in this order. */
  predicate CalledFor(tasks: seq<Task>, keys: seq<string>) {
    |tasks| <= |keys| && forall t | 0 <= t < |tasks| :: tasks[t].key == keys[t]
  }

  /** Nobody has been told anything but how its task ends. */
  predicate ToldRight(tasks: seq<Task>, succeeds: nat -> bool) {
    forall t | 0 <= t < |tasks| :: Told(tasks[t]) == None || Told(tasks[t]) == Some(succeeds(t))
  }

  lemma ReactionTellsRight(s: State, t: nat, succeeds: nat -> bool, s': State)
    requires Reacts(s.tasks, t) && s' == Take(s, Reaction(s.tasks, t, succeeds(t))) && ToldRight(s.tasks, succeeds)
    ensures ToldRight(s'.tasks, succeeds)
  {
  }

  lemma ReactionKeeps(s: State, t: nat, succeeds: nat -> bool, keys: seq<string>, s': State)
    requires Valid(s) && Reacts(s.tasks, t) && s' == Take(s, Reaction(s.tasks, t, succeeds(t)))
    requires CalledFor(s.tasks, keys)
    ensures Valid(s') && CalledFor(s'.tasks, keys) && |s'.tasks| == |s.tasks| && Work(s'.tasks) < Work(s.tasks)
  {
    var e := Reaction(s.tasks, t, succeeds(t));
    StepKeepsValid(s, e);
    StepDoesOneUnit(s, e);
    StepKeepsCalls(s, e, s');
    CalledStill(s.tasks, keys, t, s'.tasks[t]);
  }

  lemma StepKeepsCalls(s: State, e: Event, s': State)
    requires Enabled(s, e) && !e.Call? && s' == Take(s, e)
    ensures s'.tasks == s.tasks[e.task := s'.tasks[e.task]] && s'.tasks[e.task].key == s.tasks[e.task].key
  {
  }

  lemma CallKeeps(s: State, keys: seq<string>, s': State)
    requires Valid(s) && CalledFor(s.tasks, keys) && |s.tasks| < |keys| && s' == Take(s, Call(keys[|s.tasks|]))
    ensures Valid(s') && CalledFor(s'.tasks, keys) && |s'.tasks| == |s.tasks| + 1
  {
    CallKeepsValid(s, keys[|s.tasks|]);
    CalledOnce(s.tasks, keys, s'.tasks[|s.tasks|]);
  }

  lemma CalledOnce(tasks: seq<Task>, keys: seq<string>, task: Task)
    requires CalledFor(tasks, keys) && |tasks| < |keys| && task.key == keys[|tasks|]
    ensures CalledFor(tasks + [task], keys)
  {
  }

  lemma CalledStill(tasks: seq<Task>, keys: seq<string>, t: nat, task: Task)
    requires CalledFor(tasks, keys) && t < |tasks| && task.key == tasks[t].key
    ensures CalledFor(tasks[t := task], keys)
  {
  }

  lemma NothingReactsAtTheEnd(s: State, keys: seq<string>, succeeds: nat -> bool)
    requires Valid(s) && CalledFor(s.tasks, keys) && |s.tasks| == |keys| && ToldRight(s.tasks, succeeds)
    requires !exists t | 0 <= t < |s.tasks| :: Reacts(s.tasks, t)
    ensures s.chains == map[]
    ensures forall t | 0 <= t < |keys| :: s.tasks[t] == Task(keys[t], s.tasks[t].tail, Cleaned(succeeds(t)))
    ensures RanInOrder(s.started, keys)
  {
    forall e | Enabled(s, e) ensures e.Call? {
      assert e.Call? || Reacts(s.tasks, e.task);
    }
    StuckIsDrained(s);
  }

  /** Every call's task was started exactly once, and those of one key in the order of the calls. */
  ghost predicate RanInOrder(started: seq<nat>, keys: seq<string>) {
    && Distinct(started) && (forall t: nat :: t < |keys| ==> t in started)
    && (forall x :: 0 <= x < |started| ==> started[x] < |keys|)
    && forall x, y :: 0 <= x < y < |started| && keys[started[x]] == keys[started[y]] ==> started[x] < started[y]
  }

  /** However calls and reactions interleave and whichever tasks fail, every task runs once, the
      tasks of a key run in the order of their calls, each caller is told how its own task ended,
      and the map is empty in the end. */
  method SerializeAll(keys: seq<string>, succeeds: nat -> bool) returns (chains: Chains)
    ensures fresh(chains) && chains.chains == map[] && |chains.tasks| == |keys|
    ensures forall t | 0 <= t < |keys| :: chains.tasks[t] == Task(keys[t], chains.tasks[t].tail, Cleaned(succeeds(t)))
    ensures RanInOrder(chains.started, keys)
  {
    chains := new Chains();
    while |chains.tasks| < |keys| || exists t | 0 <= t < |chains.tasks| :: Reacts(chains.tasks, t)
      invariant fresh(chains) && Valid(chains.Now())
      invariant CalledFor(chains.tasks, keys) && ToldRight(chains.tasks, succeeds)
      decreases |keys| - |chains.tasks|, Work(chains.tasks)
    {
      ghost var before := chains.Now();
      var callNext: bool := *;
      if |chains.tasks| < |keys| && (callNext || !exists t | 0 <= t < |chains.tasks| :: Reacts(chains.tasks, t)) {
        var _ := chains.SerializeByKey(keys[|chains.tasks|]);
        CallKeeps(before, keys, chains.Now());
      } else {
        var t: nat :| t < |chains.tasks| && Reacts(chains.tasks, t);
        React(chains, t, succeeds);
        ReactionTellsRight(before, t, succeeds, chains.Now());
        ReactionKeeps(before, t, succeeds, keys, chains.Now());
      }
    }
    NothingReactsAtTheEnd(chains.Now(), keys, succeeds);
  }
}
