/** What a creature is owed: its tasks in order, and the flags raised since its last batch. */
module AsyncHistory {
  import opened AsyncCreature
  import opened AsyncBucket
  import opened AsyncProtocol
  import opened AsyncPlaces
  import opened AsyncPlaceSteps

  /** The tasks behind finished entries. */
  function Names(done: seq<Finished>): (r: seq<Task>)
    ensures |r| == |done|
  {
    seq(|done|, k requires 0 <= k < |done| => done[k].t)
  }

  predicate AllRan(done: seq<Finished>) { forall k :: 0 <= k < |done| ==> done[k].ran }

  predicate Settled(t: Tasking, h: History) {
    && AsyncTaskRunning !in h.owed
    && (t.executing ==> t.deferred == h.owed)
    && (!t.executing ==>
          && t.deferred == {}
          && t.flags - {AsyncTaskRunning} == h.owed
          && h.given == Names(h.done) + t.tasks
          && (t.tasks != [] || h.owed != {} ==> AsyncTaskRunning in t.flags || h.refused))
    && (!h.faltered ==> AllRan(h.done))
  }

  predicate WorkSettled(w: Work, t: Tasking, h: History)
    requires w.Executing?
  {
    && h.given == Names(h.done) + w.current + t.tasks
    && (w.phase.InHook? ==> w.current == [])
  }

  ghost predicate HistoryInv(s: State) {
    && (forall c :: Live(s, c) && c in s.log ==> Settled(s.creatures[c].tasking, s.log[c]))
    && (forall i: nat, c :: ExecutesAt(s, i, c) && c in s.creatures && c in s.log ==>
          WorkSettled(s.agents[i].work, s.creatures[c].tasking, s.log[c]))
  }

  /** Nothing about creature `x` that the invariant speaks of changes. */
  ghost predicate Untouched(s: State, t: State, x: CreatureId) {
    && (Live(t, x) ==> Live(s, x))
    && (x in t.creatures && x in s.creatures ==> t.creatures[x].tasking == s.creatures[x].tasking)
    && (x in t.log && x in s.log ==> t.log[x] == s.log[x])
    && (forall i: nat :: ExecutesAt(t, i, x) ==> ExecutesAt(s, i, x) && t.agents[i].work == s.agents[i].work)
  }

  lemma OthersUntouched(s: State, t: State, c: CreatureId)
    requires HistoryInv(s) && PlaceInv(s)
    requires forall x :: x != c ==> Untouched(s, t, x)
    requires c in t.creatures && c in t.log
    requires Live(t, c) ==> Settled(t.creatures[c].tasking, t.log[c])
    requires forall i: nat :: ExecutesAt(t, i, c) ==> WorkSettled(t.agents[i].work, t.creatures[c].tasking, t.log[c])
    ensures HistoryInv(t)
  {
    forall x | Live(t, x) && x in t.log ensures Settled(t.creatures[x].tasking, t.log[x]) {
      if x != c { assert Untouched(s, t, x); }
    }
    forall i: nat, x | ExecutesAt(t, i, x) && x in t.creatures && x in t.log
      ensures WorkSettled(t.agents[i].work, t.creatures[x].tasking, t.log[x])
    {
      if x != c { assert Untouched(s, t, x) && ExecutesAt(s, i, x); }
    }
  }

  lemma AllUntouched(s: State, t: State)
    requires HistoryInv(s) && PlaceInv(s)
    requires forall x :: Untouched(s, t, x)
    ensures HistoryInv(t)
  {
    forall x | Live(t, x) && x in t.log ensures Settled(t.creatures[x].tasking, t.log[x]) {
      assert Untouched(s, t, x);
    }
    forall i: nat, x | ExecutesAt(t, i, x) && x in t.creatures && x in t.log
      ensures WorkSettled(t.agents[i].work, t.creatures[x].tasking, t.log[x])
    {
      assert Untouched(s, t, x) && ExecutesAt(s, i, x);
    }
  }

  lemma QuietStep(s: State, st: Step)
    requires HistoryInv(s) && PlaceInv(s) && Enabled(s, st)
    requires
      || st.Push? || st.Rollback? || st.Take? || st.PutBack? || st.Answer? || st.FinishRun?
      || st.Expire? || st.SetActive?
    ensures HistoryInv(Next(s, st))
  {
    var t := Next(s, st);
    forall x ensures Untouched(s, t, x) { }
    AllUntouched(s, t);
  }

  lemma SpawnHistory(s: State, c: CreatureId)
    requires HistoryInv(s) && PlaceInv(s) && Enabled(s, Spawn(c))
    ensures HistoryInv(Next(s, Spawn(c)))
  {
    var t := Next(s, Spawn(c));
    assert forall i: nat :: ExecutesAt(t, i, c) ==> ExecutesAt(s, i, c);
    OthersUntouched(s, t, c);
  }

  /** What giving a task or flipping a flag leaves alone. */
  lemma GiveFlipFrame(s: State, st: Step)
    requires Enabled(s, st) && (st.Give? || st.Flip?)
    ensures
      var t := Next(s, st);
      && (forall x :: x != st.c ==> Untouched(s, t, x))
      && (forall i: nat :: ExecutesAt(t, i, st.c) ==> ExecutesAt(s, i, st.c) && t.agents[i].work == s.agents[i].work)
  {
  }

  lemma GiveHistory(s: State, c: CreatureId, task: Task, visible: bool)
    requires HistoryInv(s) && PlaceInv(s) && Enabled(s, Give(c, task, visible))
    ensures HistoryInv(Next(s, Give(c, task, visible)))
  {
    GiveFlipFrame(s, Give(c, task, visible));
    OthersUntouched(s, Next(s, Give(c, task, visible)), c);
  }

  lemma FlipHistory(s: State, c: CreatureId, f: Flag, v: bool, visible: bool)
    requires HistoryInv(s) && PlaceInv(s) && Enabled(s, Flip(c, f, v, visible))
    ensures HistoryInv(Next(s, Flip(c, f, v, visible)))
  {
    GiveFlipFrame(s, Flip(c, f, v, visible));
    OthersUntouched(s, Next(s, Flip(c, f, v, visible)), c);
  }

  lemma ReleaseHistory(s: State, i: nat)
    requires HistoryInv(s) && PlaceInv(s) && Enabled(s, Release(i))
    ensures HistoryInv(Next(s, Release(i)))
  {
    var t := Next(s, Release(i));
    var c := s.agents[i].rejected[0];
    if Live(s, c) {
      NotExecuting(s, i, c);
      forall j: nat ensures !ExecutesAt(t, j, c) {
        assert ExecutesAt(t, j, c) ==> ExecutesAt(s, j, c);
      }
      OthersUntouched(s, t, c);
    } else {
      forall x ensures Untouched(s, t, x) { }
      AllUntouched(s, t);
    }
  }

  lemma RunTaskHistory(s: State, i: nat)
    requires HistoryInv(s) && PlaceInv(s) && Enabled(s, RunTask(i))
    ensures HistoryInv(Next(s, RunTask(i)))
  {
    var t := Next(s, RunTask(i));
    var w, c := s.agents[i].work, s.agents[i].work.c;
    assert ExecutesAt(s, i, c) && OnePlaceOf(s, c);
    OnlyExecutor(s, i, c);
    assert Names(t.log[c].done) == Names(s.log[c].done) + [w.current[0]];
    assert Names(s.log[c].done) + w.current == Names(t.log[c].done) + t.agents[i].work.current;
    forall j: nat | ExecutesAt(t, j, c)
      ensures WorkSettled(t.agents[j].work, t.creatures[c].tasking, t.log[c])
    {
      assert ExecutesAt(s, j, c) && j == i;
    }
    OthersUntouched(s, t, c);
  }

  lemma FinishTasksHistory(s: State, i: nat)
    requires HistoryInv(s) && PlaceInv(s) && Enabled(s, FinishTasks(i))
    ensures HistoryInv(Next(s, FinishTasks(i)))
  {
    var t := Next(s, FinishTasks(i));
    var c := s.agents[i].work.c;
    assert ExecutesAt(s, i, c) && OnePlaceOf(s, c);
    OnlyExecutor(s, i, c);
    forall j: nat | ExecutesAt(t, j, c)
      ensures WorkSettled(t.agents[j].work, t.creatures[c].tasking, t.log[c])
    {
      assert ExecutesAt(s, j, c) && j == i;
    }
    OthersUntouched(s, t, c);
  }

  lemma EndExecuteHistory(s: State, i: nat, visible: bool)
    requires HistoryInv(s) && PlaceInv(s) && Enabled(s, EndExecute(i, visible))
    ensures HistoryInv(Next(s, EndExecute(i, visible)))
  {
    var t := Next(s, EndExecute(i, visible));
    var c := s.agents[i].work.c;
    assert ExecutesAt(s, i, c);
    EndExecuteWork(s, i, visible);
    assert t.log[c].given == Names(t.log[c].done) + t.creatures[c].tasking.tasks;
    OthersUntouched(s, t, c);
  }

  lemma AllDroppedNames(tasks: seq<Task>)
    ensures Names(AllDropped(tasks)) == tasks
  {
  }

  lemma PassHistory(s: State, i: nat, visible: bool)
    requires HistoryInv(s) && PlaceInv(s) && Enabled(s, Consume(i, visible))
    requires !Live(s, s.agents[i].pending[0]) || (!s.agents[i].key.visible && visible)
    ensures HistoryInv(Next(s, Consume(i, visible)))
  {
    var t := Next(s, Consume(i, visible));
    forall x ensures Untouched(s, t, x) { }
    AllUntouched(s, t);
  }

  /** What the start of an execution leaves alone. */
  lemma BeginFrame(s: State, i: nat, visible: bool)
    requires Enabled(s, Consume(i, visible))
    requires Live(s, s.agents[i].pending[0]) && (s.agents[i].key.visible || !visible)
    ensures
      var t, c := Next(s, Consume(i, visible)), s.agents[i].pending[0];
      && c in t.creatures && c in t.log && ExecutesAt(t, i, c) && |t.agents| == |s.agents|
      && (forall j :: 0 <= j < |s.agents| && j != i ==> t.agents[j] == s.agents[j])
      && (forall x :: x != c ==> Untouched(s, t, x))
  {
  }

  /** What the executing run and its creature are owed at the start. */
  lemma BeginSettles(s: State, i: nat, visible: bool)
    requires Enabled(s, Consume(i, visible))
    requires Live(s, s.agents[i].pending[0]) && (s.agents[i].key.visible || !visible)
    requires
      var c := s.agents[i].pending[0];
      Settled(s.creatures[c].tasking, s.log[c]) && !s.creatures[c].tasking.executing
    ensures
      var t, c := Next(s, Consume(i, visible)), s.agents[i].pending[0];
      && c in t.creatures && c in t.log && ExecutesAt(t, i, c)
      && Settled(t.creatures[c].tasking, t.log[c])
      && WorkSettled(t.agents[i].work, t.creatures[c].tasking, t.log[c])
  {
    var c := s.agents[i].pending[0];
    var h, tasks := s.log[c], s.creatures[c].tasking.tasks;
    if s.creatures[c].active {
      assert Names(h.done) + tasks + [] == h.given;
    } else {
      AllDroppedNames(tasks);
      assert Names(h.done + AllDropped(tasks)) == Names(h.done) + tasks;
      assert h.given + [] + [] == h.given;
    }
  }

  lemma BeginHistory(s: State, i: nat, visible: bool)
    requires HistoryInv(s) && PlaceInv(s) && Enabled(s, Consume(i, visible))
    requires Live(s, s.agents[i].pending[0]) && (s.agents[i].key.visible || !visible)
    ensures HistoryInv(Next(s, Consume(i, visible)))
  {
    var t := Next(s, Consume(i, visible));
    var c := s.agents[i].pending[0];
    NotExecuting(s, i, c);
    BeginFrame(s, i, visible);
    BeginSettles(s, i, visible);
    forall j: nat | ExecutesAt(t, j, c)
      ensures WorkSettled(t.agents[j].work, t.creatures[c].tasking, t.log[c])
    {
      assert j != i ==> ExecutesAt(s, j, c);
    }
    OthersUntouched(s, t, c);
  }

  lemma HistoryInit(s: State)
    requires Init(s)
    ensures HistoryInv(s)
  {
  }

  lemma CreatureHistory(s: State, st: Step)
    requires HistoryInv(s) && PlaceInv(s) && Enabled(s, st)
    requires st.Spawn? || st.Give? || st.Flip?
    ensures HistoryInv(Next(s, st))
  {
    if st.Spawn? { SpawnHistory(s, st.c); }
    else if st.Give? { GiveHistory(s, st.c, st.t, st.visible); }
    else { FlipHistory(s, st.c, st.f, st.v, st.visible); }
  }

  lemma ExecutionHistory(s: State, st: Step)
    requires HistoryInv(s) && PlaceInv(s) && Enabled(s, st)
    requires st.Release? || st.RunTask? || st.FinishTasks? || st.EndExecute?
    ensures HistoryInv(Next(s, st))
  {
    if st.Release? { ReleaseHistory(s, st.i); }
    else if st.RunTask? { RunTaskHistory(s, st.i); }
    else if st.FinishTasks? { FinishTasksHistory(s, st.i); }
    else { EndExecuteHistory(s, st.i, st.visible); }
  }

  lemma ConsumeHistory(s: State, i: nat, visible: bool)
    requires HistoryInv(s) && PlaceInv(s) && Enabled(s, Consume(i, visible))
    ensures HistoryInv(Next(s, Consume(i, visible)))
  {
    if !Live(s, s.agents[i].pending[0]) || (!s.agents[i].key.visible && visible) {
      PassHistory(s, i, visible);
    } else {
      BeginHistory(s, i, visible);
    }
  }

  lemma HistoryStep(s: State, st: Step)
    requires HistoryInv(s) && PlaceInv(s) && Enabled(s, st)
    ensures HistoryInv(Next(s, st))
  {
    if st.Spawn? || st.Give? || st.Flip? { CreatureHistory(s, st); }
    else if st.Release? || st.RunTask? || st.FinishTasks? || st.EndExecute? { ExecutionHistory(s, st); }
    else if st.Consume? { ConsumeHistory(s, st.i, st.visible); }
    else { QuietStep(s, st); }
  }
}
