/** The promises of the asynchronous task protocol, over every run. */
module AsyncTheorems {
  import opened AsyncCreature
  import opened AsyncBucket
  import opened AsyncProtocol
  import opened AsyncCarriers
  import opened AsyncPlaces
  import opened AsyncPlaceSteps
  import opened AsyncHistory

  ghost predicate Inv(s: State) { CarrierInv(s) && PlaceInv(s) && HistoryInv(s) }

  lemma InvStep(s: State, st: Step)
    requires Inv(s) && Enabled(s, st)
    ensures Inv(Next(s, st))
  {
    CarrierStep(s, st);
    PlaceStep(s, st);
    HistoryStep(s, st);
  }

  lemma {:induction false} InvAlongRun(s: State, steps: seq<Step>)
    requires Inv(s) && Runs(s, steps)
    ensures Inv(After(s, steps))
    decreases |steps|
  {
    if steps != [] {
      InvStep(s, steps[0]);
      InvAlongRun(Next(s, steps[0]), steps[1..]);
    }
  }

  lemma ReachableInv(s: State)
    requires Reachable(s)
    ensures Inv(s)
  {
    var s0, steps :| Init(s0) && Runs(s0, steps) && After(s0, steps) == s;
    CarrierInit(s0);
    PlaceInit(s0);
    HistoryInit(s0);
    InvAlongRun(s0, steps);
  }

  /** A bucket is scheduled exactly when some agent carries it, never two of them do, and a
      bucket that holds an entry has its carrier. */
  lemma ScheduledIffOneCarrier(s: State, k: Key)
    requires Reachable(s) && ValidKey(k)
    ensures k in s.buckets
    ensures s.buckets[k].scheduled <==> exists i: nat :: CarriesAt(s, i, k)
    ensures forall i: nat, j: nat :: CarriesAt(s, i, k) && CarriesAt(s, j, k) ==> i == j
    ensures s.buckets[k].queue != [] ==> exists i: nat :: CarriesAt(s, i, k)
  {
    ReachableInv(s);
    if s.buckets[k].scheduled { assert HasCarrier(s, k); }
  }

  /** A live creature has its running bit raised exactly when it stands at one place, which
      it does once; while it executes, that place is the run that executes it. */
  lemma RunningIffOnePlace(s: State, c: CreatureId)
    requires Reachable(s) && Live(s, c)
    ensures AsyncTaskRunning in s.creatures[c].tasking.flags <==> exists p :: At(s, p, c) == 1
    ensures forall p :: At(s, p, c) <= 1
    ensures forall p, q :: At(s, p, c) > 0 && At(s, q, c) > 0 ==> p == q
    ensures s.creatures[c].tasking.executing <==> exists i: nat :: ExecutesAt(s, i, c)
    ensures forall i: nat :: ExecutesAt(s, i, c) ==> At(s, Hand(i), c) == 1
  {
    ReachableInv(s);
    assert OnePlaceOf(s, c);
    forall i: nat | ExecutesAt(s, i, c) ensures At(s, Hand(i), c) == 1 {
      HeldIsPlaced(s, i, c);
    }
    if Placed(s, c) { var p :| At(s, p, c) > 0; assert At(s, p, c) == 1; }
    if p :| At(s, p, c) == 1 { assert Placed(s, c); }
  }

  /** The tasks of the batch that runs creature `c` now, if any. */
  function CurrentTasks(s: State, i: nat, c: CreatureId): seq<Task> {
    if ExecutesAt(s, i, c) then s.agents[i].work.current else []
  }

  /** Every task given to a creature that never faltered has run, in the order given and
      once, or is still held: in the executing batch, or in the creature's vector. */
  lemma TasksRunInOrderOrAreHeld(s: State, c: CreatureId)
    requires Reachable(s) && Live(s, c) && c in s.log && !s.log[c].faltered
    ensures AllRan(s.log[c].done)
    ensures exists i: nat ::
      s.log[c].given == Names(s.log[c].done) + CurrentTasks(s, i, c) + s.creatures[c].tasking.tasks
  {
    ReachableInv(s);
    assert Settled(s.creatures[c].tasking, s.log[c]);
    if s.creatures[c].tasking.executing {
      var i: nat :| ExecutesAt(s, i, c);
      assert CurrentTasks(s, i, c) == s.agents[i].work.current;
      assert WorkSettled(s.agents[i].work, s.creatures[c].tasking, s.log[c]);
    } else {
      var i: nat := |s.agents|;
      assert CurrentTasks(s, i, c) == [];
      assert Names(s.log[c].done) + CurrentTasks(s, i, c) == Names(s.log[c].done);
    }
  }

  /** A live creature outside an execution that has tasks or flags left over is queued, or
      the dispatcher refused its bucket since it was last sent. */
  lemma WorkIsQueuedOrRefused(s: State, c: CreatureId)
    requires Reachable(s) && Live(s, c) && c in s.log
    requires !s.creatures[c].tasking.executing
    requires s.creatures[c].tasking.tasks != [] || s.creatures[c].tasking.flags - {AsyncTaskRunning} != {}
    ensures (exists p :: At(s, p, c) == 1) || s.log[c].refused
  {
    ReachableInv(s);
    assert Settled(s.creatures[c].tasking, s.log[c]);
    if AsyncTaskRunning in s.creatures[c].tasking.flags { RunningIffOnePlace(s, c); }
  }

  /** A batch starts with exactly the flags raised and not cleared since the previous batch
      started, although the flag byte was overwritten in between. */
  lemma BatchStartsWithOwedFlags(s: State, i: nat, visible: bool)
    requires Reachable(s) && Enabled(s, Consume(i, visible))
    requires Live(s, s.agents[i].pending[0]) && (s.agents[i].key.visible || !visible)
    ensures
      var t, c := Next(s, Consume(i, visible)), s.agents[i].pending[0];
      ExecutesAt(t, i, c) && t.agents[i].work.batchFlags == s.log[c].owed && t.log[c].owed == {}
  {
    ReachableInv(s);
    var c := s.agents[i].pending[0];
    NotExecuting(s, i, c);
    assert Settled(s.creatures[c].tasking, s.log[c]);
  }

  /** `st` neither clears flag `f` of creature `c` nor starts a batch of `c`. */
  predicate Spares(s: State, st: Step, c: CreatureId, f: Flag)
    requires Enabled(s, st)
  {
    && !(st.Flip? && st.c == c && st.f == f && !st.v)
    && !(st.Consume? && s.agents[st.i].pending[0] == c && (s.agents[st.i].key.visible || !st.visible))
  }

  predicate SparesAll(s: State, steps: seq<Step>, c: CreatureId, f: Flag)
    requires Runs(s, steps)
    decreases |steps|
  {
    steps == [] || (Spares(s, steps[0], c, f) && SparesAll(Next(s, steps[0]), steps[1..], c, f))
  }

  lemma OwedAfterConsume(s: State, i: nat, visible: bool, c: CreatureId, f: Flag)
    requires s.log.Keys == s.creatures.Keys
    requires Enabled(s, Consume(i, visible)) && Spares(s, Consume(i, visible), c, f)
    requires c in s.log && f in s.log[c].owed
    ensures c in Next(s, Consume(i, visible)).log && f in Next(s, Consume(i, visible)).log[c].owed
  {
  }

  lemma OwedAfterStep(s: State, st: Step, c: CreatureId, f: Flag)
    requires s.log.Keys == s.creatures.Keys && Enabled(s, st) && Spares(s, st, c, f)
    requires c in s.log && f in s.log[c].owed
    ensures c in Next(s, st).log && f in Next(s, st).log[c].owed
  {
    if st.Consume? { OwedAfterConsume(s, st.i, st.visible, c, f); }
  }

  lemma {:induction false} OwedPersists(s: State, steps: seq<Step>, c: CreatureId, f: Flag)
    requires Inv(s) && Runs(s, steps) && SparesAll(s, steps, c, f)
    requires c in s.log && f in s.log[c].owed
    ensures c in After(s, steps).log && f in After(s, steps).log[c].owed
    decreases |steps|
  {
    if steps != [] {
      InvStep(s, steps[0]);
      OwedAfterStep(s, steps[0], c, f);
      OwedPersists(Next(s, steps[0]), steps[1..], c, f);
    }
  }

  lemma OwedStartsBatch(s: State, i: nat, visible: bool, f: Flag)
    requires Inv(s) && Enabled(s, Consume(i, visible))
    requires Live(s, s.agents[i].pending[0]) && (s.agents[i].key.visible || !visible)
    requires f in s.log[s.agents[i].pending[0]].owed
    ensures
      var t, c := Next(s, Consume(i, visible)), s.agents[i].pending[0];
      ExecutesAt(t, i, c) && f in t.agents[i].work.batchFlags
  {
    var c := s.agents[i].pending[0];
    NotExecuting(s, i, c);
    assert Settled(s.creatures[c].tasking, s.log[c]);
  }

  /** The state after creature `c` raised flag `f` and then `steps` ran. */
  ghost predicate RaisedThen(s: State, c: CreatureId, f: Flag, v: bool, steps: seq<Step>, u: State) {
    && Enabled(s, Flip(c, f, true, v))
    && var s1 := Next(s, Flip(c, f, true, v));
    Runs(s1, steps) && SparesAll(s1, steps, c, f) && After(s1, steps) == u
  }

  /** A flag raised, in or out of an execution, is in the next batch that starts, unless it
      is cleared again before that. */
  lemma RaisedFlagReachesNextBatch(
      s: State, c: CreatureId, f: Flag, v: bool, steps: seq<Step>, u: State, i: nat, visible: bool)
    requires Reachable(s) && RaisedThen(s, c, f, v, steps, u)
    requires Enabled(u, Consume(i, visible)) && u.agents[i].pending[0] == c
    requires Live(u, c) && (u.agents[i].key.visible || !visible)
    ensures
      var t := Next(u, Consume(i, visible));
      ExecutesAt(t, i, c) && f in t.agents[i].work.batchFlags
  {
    ReachableInv(s);
    var s1 := Next(s, Flip(c, f, true, v));
    InvStep(s, Flip(c, f, true, v));
    OwedPersists(s1, steps, c, f);
    InvAlongRun(s1, steps);
    OwedStartsBatch(u, i, visible, f);
  }

  /** The step agent `i` itself takes next, when it is not finished. */
  function OwnStep(s: State, i: nat): Step
    requires i < |s.agents|
  {
    match s.agents[i]
    case Pushing(_, _) => Push(i)
    case Submitting(_) => Answer(i, true)
    case RollingBack(_) => Rollback(i)
    case Releasing(_) => Release(i)
    case Event(_) => Take(i, 1)
    case Running(_, pending, _, _, NoWork) => if pending != [] then Consume(i, false) else FinishRun(i)
    case Running(_, _, _, _, Executing(_, current, _, InTasks)) => if current != [] then RunTask(i) else FinishTasks(i)
    case Running(_, _, _, _, Executing(_, _, _, InHook)) => EndExecute(i, false)
    case Idle => Push(i)
  }

  predicate Finished?(a: Agent) { a.Idle? || a == Releasing([]) }

  lemma OwnStepEnabled(s: State, i: nat)
    requires Inv(s) && i < |s.agents| && !Finished?(s.agents[i])
    ensures Enabled(s, OwnStep(s, i))
  {
    if s.agents[i].Running? && s.agents[i].work.Executing? {
      assert ExecutesAt(s, i, s.agents[i].work.c);
    }
    assert KeysOk(s.agents[i]);
  }

  /** No agent ever waits for another one. */
  lemma AgentsNeverBlock(s: State, i: nat)
    requires Reachable(s) && i < |s.agents| && !Finished?(s.agents[i])
    ensures Enabled(s, OwnStep(s, i))
  {
    ReachableInv(s);
    OwnStepEnabled(s, i);
  }

  /** Once every agent is finished nothing is left anywhere: all buckets are empty and
      unscheduled, no live creature is marked as running or executes, and whatever work a
      live creature still holds was refused by the dispatcher. */
  lemma QuiescentMeansDrained(s: State)
    requires Reachable(s)
    requires forall i :: 0 <= i < |s.agents| ==> Finished?(s.agents[i])
    ensures forall k :: ValidKey(k) ==> k in s.buckets && s.buckets[k] == EMPTY
    ensures forall c :: Live(s, c) ==>
      && AsyncTaskRunning !in s.creatures[c].tasking.flags && !s.creatures[c].tasking.executing
      && c in s.log && (s.creatures[c].tasking.tasks != [] || s.creatures[c].tasking.flags != {} ==> s.log[c].refused)
  {
    ReachableInv(s);
    forall k | ValidKey(k) ensures k in s.buckets && s.buckets[k] == EMPTY {
      assert forall i: nat :: !CarriesAt(s, i, k);
    }
    forall p, c ensures At(s, p, c) == 0 {
      assert Contents(s, p) == [];
    }
    forall c | Live(s, c)
      ensures AsyncTaskRunning !in s.creatures[c].tasking.flags && !s.creatures[c].tasking.executing
      ensures c in s.log
      ensures s.creatures[c].tasking.tasks != [] || s.creatures[c].tasking.flags != {} ==> s.log[c].refused
    {
      assert Settled(s.creatures[c].tasking, s.log[c]);
      assert forall i: nat :: !ExecutesAt(s, i, c);
    }
  }
}
