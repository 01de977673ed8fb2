/** With a dispatcher that accepts, every task given to a creature that stays in the game has
    run once the protocol is at rest; and work stays in the lane of its visibility. */
module AsyncDelivery {
  import opened AsyncCreature
  import opened AsyncBucket
  import opened AsyncProtocol
  import opened AsyncPlaces
  import opened AsyncHistory
  import opened AsyncTheorems
  import opened AsyncDrain

  // ---- Refusals come from the dispatcher ----

  predicate Accepting(steps: seq<Step>) { forall k :: 0 <= k < |steps| && steps[k].Answer? ==> steps[k].accepted }

  /** Nobody was refused, and nobody rolls anything back. */
  ghost predicate Unrefused(s: State) {
    && (forall i :: 0 <= i < |s.agents| ==> !s.agents[i].RollingBack? && !s.agents[i].Releasing?)
    && (forall c :: c in s.log ==> !s.log[c].refused)
  }

  lemma AcceptedStep(s: State, st: Step)
    requires Unrefused(s) && Enabled(s, st) && (st.Answer? ==> st.accepted)
    ensures Unrefused(Next(s, st))
  {
    if st.Consume? { AcceptedConsume(s, st.i, st.visible); }
    else if st.Push? || st.Answer? || st.Take? || st.PutBack? || st.FinishRun? { AcceptedMove(s, st); }
  }

  lemma AcceptedMove(s: State, st: Step)
    requires Unrefused(s) && Enabled(s, st) && (st.Answer? ==> st.accepted)
    requires st.Push? || st.Answer? || st.Take? || st.PutBack? || st.FinishRun?
    ensures Unrefused(Next(s, st))
  {
  }

  lemma AcceptedConsume(s: State, i: nat, visible: bool)
    requires Unrefused(s) && Enabled(s, Consume(i, visible))
    ensures Unrefused(Next(s, Consume(i, visible)))
  {
  }

  lemma {:induction false} AcceptedRun(s: State, steps: seq<Step>)
    requires Unrefused(s) && Runs(s, steps) && Accepting(steps)
    ensures Unrefused(After(s, steps))
    decreases |steps|
  {
    if steps != [] {
      AcceptedStep(s, steps[0]);
      AcceptedRun(Next(s, steps[0]), steps[1..]);
    }
  }

  // ---- Batches are dropped only of creatures found removed or dead ----

  predicate StaysActive(steps: seq<Step>, c: CreatureId) {
    forall k :: 0 <= k < |steps| ==> steps[k] != SetActive(c, false)
  }

  /** Creature `c` has been in the game all along. */
  predicate Healthy(s: State, c: CreatureId) {
    (c in s.creatures ==> s.creatures[c].active) && (c in s.log ==> !s.log[c].faltered)
  }

  lemma HealthyStep(s: State, st: Step, c: CreatureId)
    requires Healthy(s, c) && Enabled(s, st) && st != SetActive(c, false)
    ensures Healthy(Next(s, st), c)
  {
  }

  lemma {:induction false} HealthyRun(s: State, steps: seq<Step>, c: CreatureId)
    requires Healthy(s, c) && Runs(s, steps) && StaysActive(steps, c)
    ensures Healthy(After(s, steps), c)
    decreases |steps|
  {
    if steps != [] {
      HealthyStep(s, steps[0], c);
      HealthyRun(Next(s, steps[0]), steps[1..], c);
    }
  }

  // ---- The tasks given are those of the steps ----

  function GivenTo(steps: seq<Step>, c: CreatureId): seq<Task> {
    if steps == [] then []
    else (if steps[0].Give? && steps[0].c == c then [steps[0].t] else []) + GivenTo(steps[1..], c)
  }

  function GivenSoFar(s: State, c: CreatureId): seq<Task> { if c in s.log then s.log[c].given else [] }

  lemma GivenStep(s: State, st: Step, c: CreatureId)
    requires s.log.Keys == s.creatures.Keys && Enabled(s, st)
    ensures GivenSoFar(Next(s, st), c) == GivenSoFar(s, c) + GivenTo([st], c)
  {
    assert GivenTo([st][1..], c) == [];
  }

  lemma KeysStep(s: State, st: Step)
    requires s.log.Keys == s.creatures.Keys && Enabled(s, st)
    ensures Next(s, st).log.Keys == Next(s, st).creatures.Keys
  {
  }

  lemma GivenFirst(steps: seq<Step>, c: CreatureId)
    requires steps != []
    ensures GivenTo(steps, c) == GivenTo([steps[0]], c) + GivenTo(steps[1..], c)
  {
    assert [steps[0]][1..] == [];
  }

  lemma {:induction false} GivenRun(s: State, steps: seq<Step>, c: CreatureId)
    requires s.log.Keys == s.creatures.Keys && Runs(s, steps)
    ensures GivenSoFar(After(s, steps), c) == GivenSoFar(s, c) + GivenTo(steps, c)
    decreases |steps|
  {
    if steps != [] {
      GivenStep(s, steps[0], c);
      GivenFirst(steps, c);
      KeysStep(s, steps[0]);
      GivenRun(Next(s, steps[0]), steps[1..], c);
    }
  }

  lemma StartInv(s0: State)
    requires Init(s0)
    ensures Reachable(s0) && Inv(s0) && Unrefused(s0)
  {
    assert Runs(s0, []) && After(s0, []) == s0;
    ReachableInv(s0);
  }

  /** Over every run in which the dispatcher accepts and creature `c` stays in the game: once all
      agents are finished, the tasks given to `c` along the run have all run, in that order and
      once each, and no flag is owed. */
  lemma EveryTaskRuns(s0: State, steps: seq<Step>, c: CreatureId)
    requires Init(s0) && Runs(s0, steps) && Accepting(steps) && StaysActive(steps, c)
    requires AllFinished(After(s0, steps)) && Live(After(s0, steps), c)
    ensures
      var t := After(s0, steps);
      && c in t.log && AllRan(t.log[c].done) && Names(t.log[c].done) == GivenTo(steps, c)
      && t.log[c].owed == {} && t.creatures[c].tasking.flags == {}
  {
    var t := After(s0, steps);
    StartInv(s0);
    AcceptedRun(s0, steps);
    HealthyRun(s0, steps, c);
    GivenRun(s0, steps, c);
    assert Reachable(t);
    QuiescentMeansDrained(t);
    ReachableInv(t);
    assert !t.log[c].refused;
    assert Settled(t.creatures[c].tasking, t.log[c]);
    assert GivenSoFar(s0, c) == [] && [] + GivenTo(steps, c) == GivenTo(steps, c);
    assert Names(t.log[c].done) + [] == t.log[c].given;
  }

  // ---- Lanes ----

  /** In every step that looks, creatures are seen as `visible`. */
  predicate SeenAs(st: Step, visible: bool) {
    st.Give? || st.Flip? || st.Consume? || st.EndExecute? ==> st.visible == visible
  }

  predicate AllSeenAs(steps: seq<Step>, visible: bool) { forall k :: 0 <= k < |steps| ==> SeenAs(steps[k], visible) }

  predicate AgentInLane(a: Agent, visible: bool) {
    a.Pushing? || a.Submitting? || a.Event? || a.RollingBack? || a.Running? ==> a.key.visible == visible
  }

  /** The other lane is empty and nobody works on it. */
  ghost predicate InLane(s: State, visible: bool) {
    && (forall k :: k in s.buckets && k.visible != visible ==> s.buckets[k] == EMPTY)
    && (forall i :: 0 <= i < |s.agents| ==> AgentInLane(s.agents[i], visible))
  }

  lemma LaneConsume(s: State, i: nat, visible: bool)
    requires InLane(s, visible) && Enabled(s, Consume(i, visible))
    ensures InLane(Next(s, Consume(i, visible)), visible)
  {
    assert AgentInLane(s.agents[i], visible);
  }

  lemma LaneStep(s: State, st: Step, visible: bool)
    requires InLane(s, visible) && Enabled(s, st) && SeenAs(st, visible)
    ensures InLane(Next(s, st), visible)
  {
    if st.Consume? {
      LaneConsume(s, st.i, visible);
    } else if st.Push? || st.Rollback? || st.Take? || st.PutBack? {
      LaneBucket(s, st, visible);
    } else if !(st.Spawn? || st.Expire? || st.SetActive? || st.Give? || st.Flip?) {
      assert AgentInLane(s.agents[st.i], visible);
    }
  }

  lemma LaneBucket(s: State, st: Step, visible: bool)
    requires InLane(s, visible) && Enabled(s, st) && (st.Push? || st.Rollback? || st.Take? || st.PutBack?)
    ensures InLane(Next(s, st), visible)
  {
    assert AgentInLane(s.agents[st.i], visible);
  }

  /** While creatures are seen as visible, the background lane is never used, and the other way
      round. */
  lemma {:induction false} RunStaysInLane(s: State, steps: seq<Step>, visible: bool)
    requires InLane(s, visible) && Runs(s, steps) && AllSeenAs(steps, visible)
    ensures InLane(After(s, steps), visible)
    decreases |steps|
  {
    if steps != [] {
      LaneStep(s, steps[0], visible);
      RunStaysInLane(Next(s, steps[0]), steps[1..], visible);
    }
  }
}
