/** Every step of the protocol keeps `PlaceInv`. */
module AsyncPlaceSteps {
  import opened AsyncCreature
  import opened AsyncBucket
  import opened AsyncProtocol
  import opened AsyncPlaces

  /** No creature's protocol fields change and nobody starts or stops executing. */
  ghost predicate Undisturbed(s: State, t: State) {
    && t.creatures.Keys == s.creatures.Keys == t.log.Keys
    && (forall c :: c in s.creatures ==> t.creatures[c].tasking == s.creatures[c].tasking)
    && (forall c :: Live(t, c) <==> Live(s, c))
    && (forall i: nat, c :: ExecutesAt(t, i, c) <==> ExecutesAt(s, i, c))
  }

  lemma UndisturbedKeeps(s: State, t: State)
    requires PlaceInv(s) && Undisturbed(s, t) && OnePlace(t)
    requires forall c :: Placed(t, c) <==> Placed(s, c)
    ensures PlaceInv(t)
  {
    forall c | Live(t, c) && t.creatures[c].tasking.executing
      ensures exists i: nat :: ExecutesAt(t, i, c)
    {
      assert Live(s, c);
      var i: nat :| ExecutesAt(s, i, c);
      assert ExecutesAt(t, i, c);
    }
  }

  lemma AgentsAlike(s: State, t: State, i: nat)
    requires i < |s.agents| <= |t.agents|
    requires forall j :: 0 <= j < |s.agents| && j != i ==> t.agents[j] == s.agents[j]
    requires forall j, c :: |s.agents| <= j < |t.agents| ==> !ExecutesAt(t, j, c)
    requires forall c :: ExecutesAt(t, i, c) <==> ExecutesAt(s, i, c)
    ensures forall j: nat, c :: ExecutesAt(t, j, c) <==> ExecutesAt(s, j, c)
  {
  }

  lemma BucketStep(s: State, st: Step)
    requires PlaceInv(s) && Enabled(s, st) && (st.Push? || st.Rollback? || st.Take? || st.PutBack?)
    ensures PlaceInv(Next(s, st))
  {
    var t := Next(s, st);
    BucketStepMoves(s, st);
    MoveKeeps(s, t, Hand(st.i), Queue(s.agents[st.i].key));
    AgentsAlike(s, t, st.i);
    UndisturbedKeeps(s, t);
  }

  lemma QuietAgentStep(s: State, st: Step)
    requires PlaceInv(s) && Enabled(s, st) && (st.Answer? || st.FinishRun? || st.RunTask?)
    ensures PlaceInv(Next(s, st))
  {
    var t := Next(s, st);
    SameContents(s, t);
    SameKeeps(s, t);
    AgentsAlike(s, t, st.i);
    UndisturbedKeeps(s, t);
  }

  lemma SpawnStep(s: State, c: CreatureId)
    requires PlaceInv(s) && Enabled(s, Spawn(c))
    ensures PlaceInv(Next(s, Spawn(c)))
  {
    var t := Next(s, Spawn(c));
    SameContents(s, t);
    SameKeeps(s, t);
    assert forall i: nat, x :: ExecutesAt(t, i, x) <==> ExecutesAt(s, i, x);
    assert forall x :: x != c ==> (Live(t, x) <==> Live(s, x));
    forall x | Live(t, x) && t.creatures[x].tasking.executing ensures exists i: nat :: ExecutesAt(t, i, x) {
      var i: nat :| ExecutesAt(s, i, x);
      assert ExecutesAt(t, i, x);
    }
  }

  lemma ExpireStep(s: State, c: CreatureId)
    requires PlaceInv(s) && Enabled(s, Expire(c))
    ensures PlaceInv(Next(s, Expire(c)))
  {
    var t := Next(s, Expire(c));
    SameContents(s, t);
    SameKeeps(s, t);
    assert forall i: nat, x :: ExecutesAt(t, i, x) <==> ExecutesAt(s, i, x);
    assert forall x :: Live(t, x) <==> Live(s, x) && x != c;
    forall x | Live(t, x) && t.creatures[x].tasking.executing ensures exists i: nat :: ExecutesAt(t, i, x) {
      var i: nat :| ExecutesAt(s, i, x);
      assert ExecutesAt(t, i, x);
    }
  }

  lemma SetActiveStep(s: State, c: CreatureId, active: bool)
    requires PlaceInv(s) && Enabled(s, SetActive(c, active))
    ensures PlaceInv(Next(s, SetActive(c, active)))
  {
    var t := Next(s, SetActive(c, active));
    SameContents(s, t);
    SameKeeps(s, t);
    UndisturbedKeeps(s, t);
  }

  /** One creature's fields change, and its running bit agrees with the new places. */
  lemma OneCreatureChanges(s: State, t: State, c: CreatureId)
    requires OnePlace(t) && ExecutingMeansHeld(s) && RunningMeansPlaced(s) && PlacesKnown(s)
    requires Live(s, c) && Live(t, c)
    requires t.creatures.Keys == s.creatures.Keys == t.log.Keys
    requires forall x :: x in s.creatures && x != c ==> t.creatures[x] == s.creatures[x]
    requires forall x :: x != c ==> (Placed(t, x) <==> Placed(s, x))
    requires AsyncTaskRunning in t.creatures[c].tasking.flags <==> Placed(t, c)
    requires AsyncTaskRunning !in t.creatures[c].tasking.deferred
    requires t.creatures[c].tasking.executing <==> exists i: nat :: ExecutesAt(t, i, c)
    requires forall i: nat, x :: x != c ==> (ExecutesAt(t, i, x) <==> ExecutesAt(s, i, x))
    ensures PlaceInv(t)
  {
    forall x | Live(t, x) && t.creatures[x].tasking.executing ensures exists i: nat :: ExecutesAt(t, i, x) {
      if x != c {
        assert Live(s, x);
        var i: nat :| ExecutesAt(s, i, x);
        assert ExecutesAt(t, i, x);
      }
    }
  }

  /** Storing the outcome of an operation that did not execute the creature. */
  lemma StoreKeeps(s: State, c: CreatureId, o: Outcome, visible: bool)
    requires PlaceInv(s) && Live(s, c)
    requires o.creature.executing == s.creatures[c].tasking.executing
    requires AsyncTaskRunning !in o.creature.deferred
    requires o.send ==> AsyncTaskRunning !in s.creatures[c].tasking.flags && AsyncTaskRunning in o.creature.flags
    requires !o.send ==> (AsyncTaskRunning in o.creature.flags <==> AsyncTaskRunning in s.creatures[c].tasking.flags)
    ensures PlaceInv(Store(s, c, o, visible))
  {
    var t := Store(s, c, o, visible);
    if o.send {
      AppendAdds(s, t, c, KeyOf(c, visible));
      AddKeeps(s, t, Hand(|s.agents|), c);
    } else {
      SameContents(s, t);
      SameKeeps(s, t);
    }
    assert forall i: nat, x :: ExecutesAt(t, i, x) <==> ExecutesAt(s, i, x);
    OneCreatureChanges(s, t, c);
  }

  lemma HistoryKeeps(s: State, c: CreatureId, h: History)
    requires PlaceInv(s) && c in s.log
    ensures PlaceInv(SetHistory(s, c, h))
  {
    var t := SetHistory(s, c, h);
    SameContents(s, t);
    SameKeeps(s, t);
    UndisturbedKeeps(s, t);
  }

  lemma GiveStep(s: State, c: CreatureId, task: Task, visible: bool)
    requires PlaceInv(s) && Enabled(s, Give(c, task, visible))
    ensures PlaceInv(Next(s, Give(c, task, visible)))
  {
    var h := s.log[c].(given := s.log[c].given + [task]);
    HistoryKeeps(s, c, h);
    StoreKeeps(SetHistory(s, c, h), c, AddTask(s.creatures[c].tasking, task), visible);
  }

  lemma FlipStep(s: State, c: CreatureId, f: Flag, v: bool, visible: bool)
    requires PlaceInv(s) && Enabled(s, Flip(c, f, v, visible))
    ensures PlaceInv(Next(s, Flip(c, f, v, visible)))
  {
    var owed := s.log[c].owed;
    var h := s.log[c].(owed := if v then owed + {f} else owed - {f});
    HistoryKeeps(s, c, h);
    StoreKeeps(SetHistory(s, c, h), c, SetFlag(s.creatures[c].tasking, f, v), visible);
  }

  lemma ReleaseStep(s: State, i: nat)
    requires PlaceInv(s) && Enabled(s, Release(i))
    ensures PlaceInv(Next(s, Release(i)))
  {
    var t := Next(s, Release(i));
    var c := s.agents[i].rejected[0];
    LetGo(s, t, i, c);
    DropKeeps(s, t, Hand(i), c);
    AgentsAlike(s, t, i);
    if Live(s, c) {
      NotExecuting(s, i, c);
      assert forall j: nat :: !ExecutesAt(s, j, c);
      OneCreatureChanges(s, t, c);
    } else {
      forall x | Live(t, x) && t.creatures[x].tasking.executing ensures exists j: nat :: ExecutesAt(t, j, x) {
        var j: nat :| ExecutesAt(s, j, x);
        assert ExecutesAt(t, j, x);
      }
    }
  }

  lemma OnlyExecutor(s: State, i: nat, c: CreatureId)
    requires OnePlaceOf(s, c) && ExecutesAt(s, i, c)
    ensures Placed(s, c)
    ensures forall j: nat :: ExecutesAt(s, j, c) ==> j == i
  {
    HeldIsPlaced(s, i, c);
    forall j: nat | ExecutesAt(s, j, c) ensures j == i {
      HeldIsPlaced(s, j, c);
    }
  }

  lemma FinishTasksPlaces(s: State, i: nat)
    requires OnePlace(s) && Enabled(s, FinishTasks(i))
    ensures
      var t := Next(s, FinishTasks(i));
      && OnePlace(t)
      && (forall x :: Placed(t, x) <==> Placed(s, x))
      && (forall j: nat, x :: ExecutesAt(t, j, x) <==> ExecutesAt(s, j, x))
  {
    var t := Next(s, FinishTasks(i));
    SameContents(s, t);
    SameKeeps(s, t);
    AgentsAlike(s, t, i);
  }

  lemma FinishTasksStep(s: State, i: nat)
    requires PlaceInv(s) && Enabled(s, FinishTasks(i))
    ensures PlaceInv(Next(s, FinishTasks(i)))
  {
    var c := s.agents[i].work.c;
    assert ExecutesAt(s, i, c);
    assert OnePlaceOf(s, c);
    OnlyExecutor(s, i, c);
    FinishTasksPlaces(s, i);
    OneCreatureChanges(s, Next(s, FinishTasks(i)), c);
  }

  lemma EndExecutePlaces(s: State, i: nat, visible: bool)
    requires OnePlace(s) && Enabled(s, EndExecute(i, visible))
    ensures
      var t, c := Next(s, EndExecute(i, visible)), s.agents[i].work.c;
      && OnePlace(t)
      && (forall x :: x != c ==> (Placed(t, x) <==> Placed(s, x)))
      && (Placed(t, c) <==> EndExecution(s.creatures[c].tasking).send)
  {
    var t := Next(s, EndExecute(i, visible));
    var a := s.agents[i];
    var c := a.work.c;
    var m := SetAgent(s, i, a.(work := NoWork));
    LetGo(s, m, i, c);
    DropKeeps(s, m, Hand(i), c);
    if EndExecution(s.creatures[c].tasking).send {
      AppendAdds(m, t, c, KeyOf(c, visible));
      AddKeeps(m, t, Hand(|m.agents|), c);
    } else {
      SameContents(m, t);
      SameKeeps(m, t);
    }
  }

  lemma EndExecuteWork(s: State, i: nat, visible: bool)
    requires OnePlace(s) && Enabled(s, EndExecute(i, visible))
    ensures
      var t, c := Next(s, EndExecute(i, visible)), s.agents[i].work.c;
      && (forall j: nat :: !ExecutesAt(t, j, c))
      && (forall j: nat, x :: x != c ==> (ExecutesAt(t, j, x) <==> ExecutesAt(s, j, x)))
  {
    var t, c := Next(s, EndExecute(i, visible)), s.agents[i].work.c;
    assert ExecutesAt(s, i, c) && OnePlaceOf(s, c);
    OnlyExecutor(s, i, c);
    forall j: nat ensures !ExecutesAt(t, j, c) {
      assert ExecutesAt(t, j, c) ==> j != i && ExecutesAt(s, j, c);
    }
  }

  lemma EndExecuteStep(s: State, i: nat, visible: bool)
    requires PlaceInv(s) && Enabled(s, EndExecute(i, visible))
    ensures PlaceInv(Next(s, EndExecute(i, visible)))
  {
    var c := s.agents[i].work.c;
    assert ExecutesAt(s, i, c);
    EndExecutePlaces(s, i, visible);
    EndExecuteWork(s, i, visible);
    OneCreatureChanges(s, Next(s, EndExecute(i, visible)), c);
  }

  lemma SkipStep(s: State, i: nat, visible: bool)
    requires PlaceInv(s) && Enabled(s, Consume(i, visible)) && !Live(s, s.agents[i].pending[0])
    ensures PlaceInv(Next(s, Consume(i, visible)))
  {
    var t := Next(s, Consume(i, visible));
    LetGo(s, t, i, s.agents[i].pending[0]);
    DropKeeps(s, t, Hand(i), s.agents[i].pending[0]);
    AgentsAlike(s, t, i);
    forall x | Live(t, x) && t.creatures[x].tasking.executing ensures exists j: nat :: ExecutesAt(t, j, x) {
      var j: nat :| ExecutesAt(s, j, x);
      assert ExecutesAt(t, j, x);
    }
  }

  /** A migration takes the creature out of the slice and hands it to a new pusher. */
  lemma MigratePlaces(s: State, i: nat)
    requires OnePlace(s) && Enabled(s, Consume(i, true))
    requires Live(s, s.agents[i].pending[0]) && !s.agents[i].key.visible
    ensures OnePlace(Next(s, Consume(i, true)))
    ensures forall x :: Placed(Next(s, Consume(i, true)), x) <==> Placed(s, x)
  {
    var t := Next(s, Consume(i, true));
    var a := s.agents[i];
    var c := a.pending[0];
    var m := SetAgent(s, i, a.(pending := a.pending[1..], consumed := true));
    LetGo(s, m, i, c);
    DropKeeps(s, m, Hand(i), c);
    AppendAdds(m, t, c, KeyOf(c, true));
    AddKeeps(m, t, Hand(|m.agents|), c);
    HeldIsPlaced(s, i, c);
  }

  lemma MigrateStep(s: State, i: nat)
    requires PlaceInv(s) && Enabled(s, Consume(i, true))
    requires Live(s, s.agents[i].pending[0]) && !s.agents[i].key.visible
    ensures PlaceInv(Next(s, Consume(i, true)))
  {
    var t := Next(s, Consume(i, true));
    MigratePlaces(s, i);
    AgentsAlike(s, t, i);
    UndisturbedKeeps(s, t);
  }

  /** What the run that begins to execute holds stays the same, and it alone changes. */
  lemma BeginHolds(s: State, i: nat, visible: bool)
    requires Enabled(s, Consume(i, visible))
    requires Live(s, s.agents[i].pending[0]) && (s.agents[i].key.visible || !visible)
    ensures
      var t, c := Next(s, Consume(i, visible)), s.agents[i].pending[0];
      && t.buckets == s.buckets && |t.agents| == |s.agents| && ExecutesAt(t, i, c)
      && Held(t.agents[i]) == Held(s.agents[i]) && s.agents[i].work == NoWork
      && (forall j :: 0 <= j < |s.agents| && j != i ==> t.agents[j] == s.agents[j])
  {
  }

  lemma OneExecutorMore(s: State, t: State, i: nat, c: CreatureId)
    requires |t.agents| == |s.agents| && i < |s.agents| && s.agents[i].Running? && s.agents[i].work == NoWork
    requires ExecutesAt(t, i, c) && forall j :: 0 <= j < |s.agents| && j != i ==> t.agents[j] == s.agents[j]
    ensures forall j: nat, x :: x != c ==> (ExecutesAt(t, j, x) <==> ExecutesAt(s, j, x))
  {
  }

  lemma BeginPlaces(s: State, i: nat, visible: bool)
    requires OnePlace(s) && Enabled(s, Consume(i, visible))
    requires Live(s, s.agents[i].pending[0]) && (s.agents[i].key.visible || !visible)
    ensures
      var t, c := Next(s, Consume(i, visible)), s.agents[i].pending[0];
      && OnePlace(t)
      && (forall x :: Placed(t, x) <==> Placed(s, x)) && Placed(t, c)
      && ExecutesAt(t, i, c)
      && (forall j: nat, x :: x != c ==> (ExecutesAt(t, j, x) <==> ExecutesAt(s, j, x)))
  {
    var t := Next(s, Consume(i, visible));
    BeginHolds(s, i, visible);
    OneExecutorMore(s, t, i, s.agents[i].pending[0]);
    SameContents(s, t);
    SameKeeps(s, t);
    HeldIsPlaced(s, i, s.agents[i].pending[0]);
  }

  lemma BeginStep(s: State, i: nat, visible: bool)
    requires PlaceInv(s) && Enabled(s, Consume(i, visible))
    requires Live(s, s.agents[i].pending[0]) && (s.agents[i].key.visible || !visible)
    ensures PlaceInv(Next(s, Consume(i, visible)))
  {
    BeginPlaces(s, i, visible);
    OneCreatureChanges(s, Next(s, Consume(i, visible)), s.agents[i].pending[0]);
  }

  lemma ConsumeStep(s: State, i: nat, visible: bool)
    requires PlaceInv(s) && Enabled(s, Consume(i, visible))
    ensures PlaceInv(Next(s, Consume(i, visible)))
  {
    if !Live(s, s.agents[i].pending[0]) {
      SkipStep(s, i, visible);
    } else if !s.agents[i].key.visible && visible {
      MigrateStep(s, i);
    } else {
      BeginStep(s, i, visible);
    }
  }

  lemma CreatureStep(s: State, st: Step)
    requires PlaceInv(s) && Enabled(s, st)
    requires st.Spawn? || st.Expire? || st.SetActive? || st.Give? || st.Flip?
    ensures PlaceInv(Next(s, st))
  {
    if st.Spawn? { SpawnStep(s, st.c); }
    else if st.Expire? { ExpireStep(s, st.c); }
    else if st.SetActive? { SetActiveStep(s, st.c, st.active); }
    else if st.Give? { GiveStep(s, st.c, st.t, st.visible); }
    else { FlipStep(s, st.c, st.f, st.v, st.visible); }
  }

  lemma WorkStep(s: State, st: Step)
    requires PlaceInv(s) && Enabled(s, st)
    requires st.Release? || st.FinishTasks? || st.EndExecute? || st.Consume?
    ensures PlaceInv(Next(s, st))
  {
    if st.Release? { ReleaseStep(s, st.i); }
    else if st.FinishTasks? { FinishTasksStep(s, st.i); }
    else if st.EndExecute? { EndExecuteStep(s, st.i, st.visible); }
    else { ConsumeStep(s, st.i, st.visible); }
  }

  lemma PlaceStep(s: State, st: Step)
    requires PlaceInv(s) && Enabled(s, st)
    ensures PlaceInv(Next(s, st))
  {
    if st.Spawn? || st.Expire? || st.SetActive? || st.Give? || st.Flip? {
      CreatureStep(s, st);
    } else if st.Release? || st.FinishTasks? || st.EndExecute? || st.Consume? {
      WorkStep(s, st);
    } else if st.Push? || st.Rollback? || st.Take? || st.PutBack? {
      BucketStep(s, st);
    } else {
      QuietAgentStep(s, st);
    }
  }
}
