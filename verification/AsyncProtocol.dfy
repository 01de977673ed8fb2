/** The asynchronous task protocol as a state machine. One step is one lock section, one
    dispatcher answer, or one piece of work between two of those; steps of different
    threads interleave freely. */
module AsyncProtocol {
  import opened AsyncCreature
  import opened AsyncBucket

  const BUCKET_RESERVE: nat := 32

  datatype Key = Key(index: nat, visible: bool)

  predicate ValidKey(k: Key) { k.index < BUCKET_RESERVE }

  function KeyOf(c: CreatureId, visible: bool): Key { Key(c % BUCKET_RESERVE, visible) }

  datatype Phase = InTasks | InHook

  /** What a run is doing with the creature it took last. */
  datatype Work =
    | NoWork
    | Executing(c: CreatureId, current: seq<Task>, batchFlags: set<Flag>, phase: Phase)

  /** A thread of control. A nested call of `enqueueAsyncTask` gets an agent of its own. */
  datatype Agent =
    | Idle
    | Pushing(c: CreatureId, key: Key)           // in enqueueAsyncTask, before its lock
    | Submitting(key: Key)                       // `scheduled` raised, dispatcher not yet asked
    | Event(key: Key)                            // accepted by the dispatcher, not yet run
    | RollingBack(key: Key)                      // refused by the dispatcher, before the lock
    | Releasing(rejected: seq<CreatureId>)       // after that lock
    | Running(key: Key, pending: seq<CreatureId>, consumed: bool, reschedule: bool, work: Work)

  datatype Creature = Creature(live: bool, active: bool, tasking: Tasking)

  datatype Finished = Finished(t: Task, ran: bool)

  /** What happened to a creature so far; no step reads it. `owed` holds the flags raised
      and not cleared since the last execution began, `refused` is set by a rollback until
      the creature is sent again, `faltered` once an execution found it removed or dead. */
  datatype History = History(given: seq<Task>, done: seq<Finished>, owed: set<Flag>, refused: bool, faltered: bool)

  const UNTOUCHED := History([], [], {}, false, false)

  datatype State = State(
    buckets: map<Key, Bucket>,
    creatures: map<CreatureId, Creature>,
    agents: seq<Agent>,
    log: map<CreatureId, History>)

  datatype Step =
    | Spawn(c: CreatureId)
    | Expire(c: CreatureId)
    | SetActive(c: CreatureId, active: bool)
    | Give(c: CreatureId, t: Task, visible: bool)
    | Flip(c: CreatureId, f: Flag, v: bool, visible: bool)
    | Push(i: nat)
    | Answer(i: nat, accepted: bool)
    | Rollback(i: nat)
    | Release(i: nat)
    | Take(i: nat, limit: nat)
    | Consume(i: nat, visible: bool)
    | RunTask(i: nat)
    | FinishTasks(i: nat)
    | EndExecute(i: nat, visible: bool)
    | PutBack(i: nat)
    | FinishRun(i: nat)

  predicate Live(s: State, c: CreatureId) { c in s.creatures && s.creatures[c].live }

  ghost predicate Init(s: State) {
    && (forall k :: k in s.buckets <==> ValidKey(k))
    && (forall k :: k in s.buckets ==> s.buckets[k] == EMPTY)
    && s.creatures == map[] && s.agents == [] && s.log == map[]
  }

  /** Agent `a` executes a creature, in the given phase. */
  predicate InPhase(a: Agent, phase: Phase) { a.Running? && a.work.Executing? && a.work.phase == phase }

  /** Agent `a` is a run between two creatures. */
  predicate Between(a: Agent) { a.Running? && a.work.NoWork? }

  predicate AgentEnabled(s: State, a: Agent, st: Step) {
    match st
    case Push(_) => a.Pushing? && a.key in s.buckets
    case Answer(_, _) => a.Submitting?
    case Rollback(_) => a.RollingBack? && a.key in s.buckets
    case Release(_) => a.Releasing? && a.rejected != []
    case Take(_, _) => a.Event? && a.key in s.buckets
    case Consume(_, _) => Between(a) && a.pending != []
    case RunTask(_) => InPhase(a, InTasks) && a.work.current != [] && a.work.c in s.log
    case FinishTasks(_) => InPhase(a, InTasks) && a.work.current == [] && a.work.c in s.creatures
    case EndExecute(_, _) => InPhase(a, InHook) && a.work.c in s.creatures && a.work.c in s.log
    case PutBack(_) => Between(a) && a.pending != [] && a.consumed && a.key in s.buckets
    case FinishRun(_) => Between(a) && a.pending == []
    case _ => true
  }

  predicate Enabled(s: State, st: Step) {
    match st
    case Spawn(c) => c !in s.creatures
    case Expire(c) => Live(s, c) && !s.creatures[c].tasking.executing
    case SetActive(c, _) => Live(s, c)
    case Give(c, _, _) => Live(s, c) && c in s.log
    case Flip(c, f, _, _) => Live(s, c) && c in s.log && f != AsyncTaskRunning
    case _ => st.i < |s.agents| && AgentEnabled(s, s.agents[st.i], st)
                && (forall c :: c in s.creatures ==> c in s.log)
  }

  /** Stores the outcome of a creature operation; a creature that is due gets a pusher. */
  function Store(s: State, c: CreatureId, o: Outcome, visible: bool): State
    requires c in s.creatures && c in s.log
  {
    var s1 := s.(creatures := s.creatures[c := s.creatures[c].(tasking := o.creature)]);
    if o.send then
      s1.(agents := s.agents + [Pushing(c, KeyOf(c, visible))], log := s.log[c := s.log[c].(refused := false)])
    else
      s1
  }

  function SetAgent(s: State, i: nat, a: Agent): State
    requires i < |s.agents|
  {
    s.(agents := s.agents[i := a])
  }

  function SetHistory(s: State, c: CreatureId, h: History): State {
    s.(log := s.log[c := h])
  }

  function AllDropped(tasks: seq<Task>): seq<Finished> {
    seq(|tasks|, k requires 0 <= k < |tasks| => Finished(tasks[k], false))
  }

  /** A run takes the next creature of its slice: an expired one is skipped, a background
      creature that became visible migrates, any other begins to execute. */
  function ConsumeNext(s: State, i: nat, visible: bool): State
    requires Enabled(s, Consume(i, visible))
  {
    var a := s.agents[i];
    var c := a.pending[0];
    var a1 := a.(pending := a.pending[1..], consumed := true);
    if !Live(s, c) then
      SetAgent(s, i, a1)
    else if !a.key.visible && visible then
      var s1 := SetAgent(s, i, a1);
      s1.(agents := s1.agents + [Pushing(c, KeyOf(c, true))])
    else
      var cr := s.creatures[c];
      var batch := TakeBatch(cr.tasking);
      var h := s.log[c];
      var s1 := s.(creatures := s.creatures[c := cr.(tasking := BeginExecution(cr.tasking))]);
      if cr.active then
        SetHistory(SetAgent(s1, i, a1.(work := Executing(c, batch.tasks, batch.flags, InTasks))), c, h.(owed := {}))
      else
        SetHistory(SetAgent(s1, i, a1.(work := Executing(c, [], batch.flags, InHook))), c,
                   h.(owed := {}, done := h.done + AllDropped(batch.tasks), faltered := true))
  }

  function ReleaseNext(s: State, i: nat): State
    requires Enabled(s, Release(i))
  {
    var a := s.agents[i];
    var c := a.rejected[0];
    var s1 := SetAgent(s, i, Releasing(a.rejected[1..]));
    if Live(s, c) then
      var cleared := ClearFlag(s.creatures[c].tasking, AsyncTaskRunning);
      s1.(creatures := s.creatures[c := s.creatures[c].(tasking := cleared)],
          log := s.log[c := s.log[c].(refused := true)])
    else
      s1
  }

  function Next(s: State, st: Step): State
    requires Enabled(s, st)
  {
    match st
    case Spawn(c) =>
      s.(creatures := s.creatures[c := Creature(true, true, IDLE)], log := s.log[c := UNTOUCHED])
    case Expire(c) =>
      s.(creatures := s.creatures[c := s.creatures[c].(live := false)])
    case SetActive(c, active) =>
      s.(creatures := s.creatures[c := s.creatures[c].(active := active)])
    case Give(c, t, visible) =>
      var s1 := SetHistory(s, c, s.log[c].(given := s.log[c].given + [t]));
      Store(s1, c, AddTask(s.creatures[c].tasking, t), visible)
    case Flip(c, f, v, visible) =>
      var owed := s.log[c].owed;
      var s1 := SetHistory(s, c, s.log[c].(owed := if v then owed + {f} else owed - {f}));
      Store(s1, c, SetFlag(s.creatures[c].tasking, f, v), visible)
    case Push(i) =>
      var Pushing(c, k) := s.agents[i];
      var b := s.buckets[k];
      SetAgent(s, i, if b.scheduled then Idle else Submitting(k)).(buckets := s.buckets[k := Enqueue(b, c)])
    case Answer(i, accepted) =>
      var k := s.agents[i].key;
      SetAgent(s, i, if accepted then Event(k) else RollingBack(k))
    case Rollback(i) =>
      var k := s.agents[i].key;
      SetAgent(s, i, Releasing(s.buckets[k].queue)).(buckets := s.buckets[k := EMPTY])
    case Release(i) =>
      ReleaseNext(s, i)
    case Take(i, limit) =>
      var k := s.agents[i].key;
      var b := AfterSlice(s.buckets[k], limit);
      SetAgent(s, i, Running(k, Slice(s.buckets[k], limit), false, b.scheduled, NoWork)).(buckets := s.buckets[k := b])
    case Consume(i, visible) =>
      ConsumeNext(s, i, visible)
    case RunTask(i) =>
      var a := s.agents[i];
      var h := s.log[a.work.c];
      SetHistory(SetAgent(s, i, a.(work := a.work.(current := a.work.current[1..]))), a.work.c,
                 h.(done := h.done + [Finished(a.work.current[0], true)]))
    case FinishTasks(i) =>
      var a := s.agents[i];
      var cr := s.creatures[a.work.c];
      SetAgent(s, i, a.(work := a.work.(phase := InHook))).(
        creatures := s.creatures[a.work.c := cr.(tasking := RestoreBatchFlags(cr.tasking, a.work.batchFlags))])
    case EndExecute(i, visible) =>
      var a := s.agents[i];
      Store(SetAgent(s, i, a.(work := NoWork)), a.work.c, EndExecution(s.creatures[a.work.c].tasking), visible)
    case PutBack(i) =>
      var a := s.agents[i];
      var b := s.buckets[a.key];
      SetAgent(s, i, a.(pending := [], reschedule := a.reschedule || !b.scheduled)).(
        buckets := s.buckets[a.key := Requeue(b, a.pending)])
    case FinishRun(i) =>
      var a := s.agents[i];
      SetAgent(s, i, if a.reschedule then Submitting(a.key) else Idle)
  }

  /** The run of a list of steps; `Runs` says that every step of it is enabled in turn. */
  predicate Runs(s: State, steps: seq<Step>)
    decreases |steps|
  {
    steps == [] || (Enabled(s, steps[0]) && Runs(Next(s, steps[0]), steps[1..]))
  }

  function After(s: State, steps: seq<Step>): State
    requires Runs(s, steps)
    decreases |steps|
  {
    if steps == [] then s else After(Next(s, steps[0]), steps[1..])
  }

  ghost predicate Reachable(s: State) {
    exists s0, steps :: Init(s0) && Runs(s0, steps) && After(s0, steps) == s
  }
}
