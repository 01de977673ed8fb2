/** Without new work the asynchronous task protocol comes to rest: every step uses up some of
    a finite amount, whatever the dispatcher answers and however the steps interleave. */
module AsyncDrain {
  import opened AsyncCreature
  import opened AsyncBucket
  import opened AsyncProtocol
  import opened AsyncCarriers
  import opened AsyncPlaces
  import opened AsyncPlaceSteps
  import opened AsyncTheorems

  // ---- What is left to do ----

  /** An execution of `c` will queue it once more. */
  predicate Leftover(s: State, c: CreatureId) {
    c in s.creatures && (s.creatures[c].tasking.tasks != [] || s.creatures[c].tasking.deferred != {})
  }

  /** Entries of a background bucket weigh more, since they may still migrate. */
  function Entries(n: nat, k: Key): nat { if k.visible then 7 * n else 16 * n }

  const PUSH_WEIGHT: nat := 20

  /** A run that consumed something may put entries back and reschedule. */
  function RunWeight(pending: seq<CreatureId>, consumed: bool, reschedule: bool): nat {
    if consumed then (if pending == [] then 4 else 5)
    else if pending == [] && reschedule then 4
    else 1
  }

  function WorkWeight(s: State, w: Work): nat {
    match w
    case NoWork => 0
    case Executing(c, _, _, phase) => (if phase.InTasks? then 2 else 1) + if Leftover(s, c) then PUSH_WEIGHT else 0
  }

  function AgentWeight(s: State, a: Agent): nat {
    match a
    case Idle => 0
    case Pushing(_, k) => Entries(1, k) + 4
    case Submitting(_) => 3
    case Event(_) => 2
    case RollingBack(_) => 1
    case Releasing(rejected) => |rejected|
    case Running(k, pending, consumed, reschedule, work) =>
      Entries(|pending|, k) + RunWeight(pending, consumed, reschedule) + WorkWeight(s, work)
  }

  function AgentSum(s: State, agents: seq<Agent>): nat {
    if agents == [] then 0
    else AgentSum(s, agents[..|agents| - 1]) + AgentWeight(s, agents[|agents| - 1])
  }

  function QueueWeight(buckets: map<Key, Bucket>, k: Key): nat {
    if k in buckets then Entries(|buckets[k].queue|, k) else 0
  }

  /** The entries of the first `n` pairs of buckets. */
  function QueueSum(buckets: map<Key, Bucket>, n: nat): nat {
    if n == 0 then 0
    else QueueSum(buckets, n - 1) + QueueWeight(buckets, Key(n - 1, false)) + QueueWeight(buckets, Key(n - 1, true))
  }

  function LeftToDo(s: State): nat { QueueSum(s.buckets, BUCKET_RESERVE) + AgentSum(s, s.agents) }

  /** The steps that bring no new task or flag, and take no empty slice of a bucket. */
  predicate NoNewWork(st: Step) { !st.Give? && !st.Flip? && (st.Take? ==> st.limit > 0) }

  /** The steps of the protocol itself, other than the tasks. */
  predicate IsMove(st: Step) { !st.Spawn? && !st.Expire? && !st.SetActive? && !st.Give? && !st.Flip? && !st.RunTask? }

  // ---- Sums ----

  ghost predicate NoMoreLeftover(s: State, t: State) { forall c :: Leftover(t, c) ==> Leftover(s, c) }

  lemma {:induction false} SumFalls(s: State, t: State, agents: seq<Agent>)
    requires NoMoreLeftover(s, t)
    ensures AgentSum(t, agents) <= AgentSum(s, agents)
  {
    if agents != [] { SumFalls(s, t, agents[..|agents| - 1]); }
  }

  /** One agent changes; the others weigh no more than before. */
  lemma {:induction false} SumStep(s: State, t: State, agents: seq<Agent>, i: nat, a: Agent)
    requires i < |agents| && NoMoreLeftover(s, t)
    ensures AgentSum(t, agents[i := a]) + AgentWeight(s, agents[i]) <= AgentSum(s, agents) + AgentWeight(t, a)
    decreases |agents|
  {
    var front, n := agents[..|agents| - 1], |agents| - 1;
    if i == n {
      assert agents[i := a][..n] == front;
      SumFalls(s, t, front);
    } else {
      assert agents[i := a][..n] == front[i := a];
      SumStep(s, t, front, i, a);
    }
  }

  lemma SumMore(s: State, agents: seq<Agent>, a: Agent)
    ensures AgentSum(s, agents + [a]) == AgentSum(s, agents) + AgentWeight(s, a)
  {
    assert (agents + [a])[..|agents|] == agents;
  }

  lemma {:induction false} QueueSumSame(a: map<Key, Bucket>, b: map<Key, Bucket>, n: nat)
    requires forall k :: QueueWeight(a, k) == QueueWeight(b, k) || k.index >= n
    ensures QueueSum(a, n) == QueueSum(b, n)
  {
    if n > 0 { QueueSumSame(a, b, n - 1); }
  }

  lemma {:induction false} QueueSumStep(a: map<Key, Bucket>, b: map<Key, Bucket>, n: nat, k: Key)
    requires k.index < n && forall m :: m != k ==> QueueWeight(a, m) == QueueWeight(b, m)
    ensures QueueSum(b, n) + QueueWeight(a, k) == QueueSum(a, n) + QueueWeight(b, k)
  {
    if k.index == n - 1 {
      QueueSumSame(a, b, n - 1);
    } else {
      QueueSumStep(a, b, n - 1, k);
    }
  }

  // ---- Every move leaves less to do ----

  /** Agent `i` becomes `a`, at most one more agent comes, and one bucket changes. */
  lemma Less(s: State, t: State, i: nat, a: Agent, more: seq<Agent>, k: Key)
    requires i < |s.agents| && t.agents == s.agents[i := a] + more && |more| <= 1
    requires ValidKey(k) && NoMoreLeftover(s, t)
    requires forall m :: m != k ==> QueueWeight(s.buckets, m) == QueueWeight(t.buckets, m)
    requires
      AgentWeight(t, a) + (if more == [] then 0 else AgentWeight(t, more[0])) + QueueWeight(t.buckets, k)
      < AgentWeight(s, s.agents[i]) + QueueWeight(s.buckets, k)
    ensures LeftToDo(t) < LeftToDo(s)
  {
    SumStep(s, t, s.agents, i, a);
    QueueSumStep(s.buckets, t.buckets, BUCKET_RESERVE, k);
    if more == [] {
      assert t.agents == s.agents[i := a];
    } else {
      assert more == [more[0]];
      SumMore(t, s.agents[i := a], more[0]);
    }
  }

  lemma BucketStepLess(s: State, st: Step)
    requires WellKeyed(s) && Enabled(s, st) && NoNewWork(st)
    requires st.Push? || st.Rollback? || st.Take? || st.PutBack?
    ensures LeftToDo(Next(s, st)) < LeftToDo(s)
  {
    var t, k := Next(s, st), s.agents[st.i].key;
    assert KeysOk(s.agents[st.i]);
    assert t.creatures == s.creatures;
    assert t.agents == s.agents[st.i := t.agents[st.i]] + [];
    Less(s, t, st.i, t.agents[st.i], [], k);
  }

  lemma CarryStepLess(s: State, st: Step)
    requires WellKeyed(s) && Enabled(s, st) && (st.Answer? || st.FinishRun?)
    ensures LeftToDo(Next(s, st)) < LeftToDo(s)
  {
    var t := Next(s, st);
    assert KeysOk(s.agents[st.i]);
    assert t.agents == s.agents[st.i := t.agents[st.i]] + [];
    Less(s, t, st.i, t.agents[st.i], [], s.agents[st.i].key);
  }

  lemma ReleaseLess(s: State, i: nat)
    requires Enabled(s, Release(i))
    ensures LeftToDo(Next(s, Release(i))) < LeftToDo(s)
  {
    var t := Next(s, Release(i));
    assert t.agents == s.agents[i := t.agents[i]] + [];
    Less(s, t, i, t.agents[i], [], Key(0, false));
  }

  lemma FinishTasksLess(s: State, i: nat)
    requires Enabled(s, FinishTasks(i))
    ensures LeftToDo(Next(s, FinishTasks(i))) < LeftToDo(s)
  {
    var t := Next(s, FinishTasks(i));
    assert t.agents == s.agents[i := t.agents[i]] + [];
    Less(s, t, i, t.agents[i], [], Key(0, false));
  }

  lemma EndExecuteLess(s: State, i: nat, visible: bool)
    requires Enabled(s, EndExecute(i, visible))
    ensures LeftToDo(Next(s, EndExecute(i, visible))) < LeftToDo(s)
  {
    var t := Next(s, EndExecute(i, visible));
    var a := s.agents[i].(work := NoWork);
    var more := t.agents[|s.agents|..];
    assert t.agents == s.agents[i := a] + more;
    Less(s, t, i, a, more, Key(0, false));
  }

  lemma BeginLess(s: State, i: nat, visible: bool)
    requires Enabled(s, Consume(i, visible))
    requires Live(s, s.agents[i].pending[0]) && (s.agents[i].key.visible || !visible)
    ensures LeftToDo(Next(s, Consume(i, visible))) < LeftToDo(s)
  {
    var t := Next(s, Consume(i, visible));
    assert t.agents == s.agents[i := t.agents[i]] + [];
    Less(s, t, i, t.agents[i], [], Key(0, false));
  }

  lemma PassLess(s: State, i: nat, visible: bool)
    requires Enabled(s, Consume(i, visible))
    requires !Live(s, s.agents[i].pending[0]) || (!s.agents[i].key.visible && visible)
    ensures LeftToDo(Next(s, Consume(i, visible))) < LeftToDo(s)
  {
    var t := Next(s, Consume(i, visible));
    var more := t.agents[|s.agents|..];
    assert t.agents == s.agents[i := t.agents[i]] + more;
    Less(s, t, i, t.agents[i], more, Key(0, false));
  }

  lemma ConsumeLess(s: State, i: nat, visible: bool)
    requires Enabled(s, Consume(i, visible))
    ensures LeftToDo(Next(s, Consume(i, visible))) < LeftToDo(s)
  {
    if Live(s, s.agents[i].pending[0]) && (s.agents[i].key.visible || !visible) {
      BeginLess(s, i, visible);
    } else {
      PassLess(s, i, visible);
    }
  }

  lemma MoveLess(s: State, st: Step)
    requires WellKeyed(s) && Enabled(s, st) && NoNewWork(st) && IsMove(st)
    ensures LeftToDo(Next(s, st)) < LeftToDo(s)
  {
    if st.Push? || st.Rollback? || st.Take? || st.PutBack? { BucketStepLess(s, st); }
    else if st.Answer? || st.FinishRun? { CarryStepLess(s, st); }
    else if st.Release? { ReleaseLess(s, st.i); }
    else if st.FinishTasks? { FinishTasksLess(s, st.i); }
    else if st.EndExecute? { EndExecuteLess(s, st.i, st.visible); }
    else { ConsumeLess(s, st.i, st.visible); }
  }

  /** A creature that appears, expires or changes its activity leaves as much to do. */
  lemma WorldStepNoMore(s: State, st: Step)
    requires Enabled(s, st) && (st.Spawn? || st.Expire? || st.SetActive?)
    ensures LeftToDo(Next(s, st)) <= LeftToDo(s)
  {
    SumFalls(s, Next(s, st), s.agents);
  }

  lemma RunTaskNoMore(s: State, i: nat)
    requires Enabled(s, RunTask(i))
    ensures LeftToDo(Next(s, RunTask(i))) <= LeftToDo(s)
    ensures TasksAhead(Next(s, RunTask(i)).agents) < TasksAhead(s.agents)
  {
    var t := Next(s, RunTask(i));
    SumStep(s, t, s.agents, i, t.agents[i]);
    TasksAheadStep(s.agents, i, t.agents[i]);
  }

  // ---- Runs ----

  predicate Quiet(steps: seq<Step>) { forall k :: 0 <= k < |steps| ==> NoNewWork(steps[k]) }

  function Moves(steps: seq<Step>): nat {
    if steps == [] then 0 else (if IsMove(steps[0]) then 1 else 0) + Moves(steps[1..])
  }

  /** A run without new work makes only as many moves as there was left to do at its start:
      the protocol cannot go round in circles. */
  lemma {:induction false} MovesBounded(s: State, steps: seq<Step>)
    requires Inv(s) && Runs(s, steps) && Quiet(steps)
    ensures Moves(steps) + LeftToDo(After(s, steps)) <= LeftToDo(s)
    decreases |steps|
  {
    if steps != [] {
      var st := steps[0];
      InvStep(s, st);
      if IsMove(st) { MoveLess(s, st); }
      else if st.RunTask? { RunTaskNoMore(s, st.i); }
      else { WorldStepNoMore(s, st); }
      MovesBounded(Next(s, st), steps[1..]);
    }
  }

  function TasksAhead(agents: seq<Agent>): nat {
    if agents == [] then 0
    else TasksAhead(agents[..|agents| - 1]) + Current(agents[|agents| - 1])
  }

  function Current(a: Agent): nat { if a.Running? && a.work.Executing? then |a.work.current| else 0 }

  lemma {:induction false} TasksAheadStep(agents: seq<Agent>, i: nat, a: Agent)
    requires i < |agents|
    ensures TasksAhead(agents[i := a]) + Current(agents[i]) == TasksAhead(agents) + Current(a)
    decreases |agents|
  {
    var front, n := agents[..|agents| - 1], |agents| - 1;
    if i == n {
      assert agents[i := a][..n] == front;
    } else {
      assert agents[i := a][..n] == front[i := a];
      TasksAheadStep(front, i, a);
    }
  }

  /** An own step leaves less to do, or as much but fewer tasks ahead. */
  lemma OwnStepLess(s: State, i: nat)
    requires Inv(s) && i < |s.agents| && !Finished?(s.agents[i])
    ensures Enabled(s, OwnStep(s, i)) && NoNewWork(OwnStep(s, i))
    ensures
      var t := Next(s, OwnStep(s, i));
      || LeftToDo(t) < LeftToDo(s)
      || (LeftToDo(t) <= LeftToDo(s) && TasksAhead(t.agents) < TasksAhead(s.agents))
  {
    OwnStepEnabled(s, i);
    var st := OwnStep(s, i);
    if st.RunTask? { RunTaskNoMore(s, i); } else { MoveLess(s, st); }
  }

  ghost predicate AllFinished(s: State) { forall i :: 0 <= i < |s.agents| ==> Finished?(s.agents[i]) }

  lemma RunsFirst(s: State, st: Step, rest: seq<Step>)
    requires Enabled(s, st) && NoNewWork(st) && Runs(Next(s, st), rest) && Quiet(rest)
    ensures Runs(s, [st] + rest) && Quiet([st] + rest) && After(s, [st] + rest) == After(Next(s, st), rest)
  {
    assert ([st] + rest)[1..] == rest;
  }

  /** The agents, each taking its own steps, bring the protocol to rest. */
  lemma {:induction false} RunToRest(s: State) returns (steps: seq<Step>)
    requires Inv(s)
    ensures Runs(s, steps) && Quiet(steps) && AllFinished(After(s, steps))
    decreases LeftToDo(s), TasksAhead(s.agents)
  {
    if AllFinished(s) {
      steps := [];
    } else {
      var i :| 0 <= i < |s.agents| && !Finished?(s.agents[i]);
      var st := OwnStep(s, i);
      OwnStepLess(s, i);
      InvStep(s, st);
      var rest := RunToRest(Next(s, st));
      RunsFirst(s, st, rest);
      steps := [st] + rest;
    }
  }

  lemma {:induction false} RunsOn(s: State, a: seq<Step>, b: seq<Step>)
    requires Runs(s, a) && Runs(After(s, a), b)
    ensures Runs(s, a + b) && After(s, a + b) == After(After(s, a), b)
    decreases |a|
  {
    if a == [] {
      assert a + b == b;
    } else {
      assert (a + b)[1..] == a[1..] + b;
      RunsOn(Next(s, a[0]), a[1..], b);
    }
  }

  /** From every reachable state the protocol can come to rest without new work, and then all
      buckets are empty and nothing is marked as running. */
  lemma WorkDrains(s: State) returns (steps: seq<Step>)
    requires Reachable(s)
    ensures Runs(s, steps) && Quiet(steps)
    ensures
      var t := After(s, steps);
      && AllFinished(t)
      && (forall k :: ValidKey(k) ==> k in t.buckets && t.buckets[k] == EMPTY)
      && (forall c :: Live(t, c) ==> AsyncTaskRunning !in t.creatures[c].tasking.flags)
  {
    ReachableInv(s);
    steps := RunToRest(s);
    var s0, before :| Init(s0) && Runs(s0, before) && After(s0, before) == s;
    RunsOn(s0, before, steps);
    assert Reachable(After(s, steps));
    QuiescentMeansDrained(After(s, steps));
  }
}
