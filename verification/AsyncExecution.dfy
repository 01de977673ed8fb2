/** The steps of one execution, taken in a row, do to a creature what `executeAsyncTasks` does. */
module AsyncExecution {
  import opened AsyncCreature
  import opened AsyncBucket
  import opened AsyncProtocol
  import opened AsyncDrain

  /** Gameplay code only changes the flags of the batch, never the running bit. */
  predicate ActsOk(acts: seq<Act>) {
    forall k :: 0 <= k < |acts| ==> (acts[k].Set? ==> acts[k].f != AsyncTaskRunning)
  }

  /** The step that an act of a task of creature `c` is. */
  function ActStep(c: CreatureId, a: Act): Step {
    match a
    case Add(t) => Give(c, t, false)
    case Set(f, v) => Flip(c, f, v, false)
  }

  function ActSteps(c: CreatureId, acts: seq<Act>): seq<Step> {
    if acts == [] then [] else [ActStep(c, acts[0])] + ActSteps(c, acts[1..])
  }

  /** Each task runs and does what its script says. */
  function TaskSteps(i: nat, c: CreatureId, script: Task -> seq<Act>, tasks: seq<Task>): seq<Step> {
    if tasks == [] then []
    else [RunTask(i)] + ActSteps(c, script(tasks[0])) + TaskSteps(i, c, script, tasks[1..])
  }

  /** Run `i` executes live creature `c`, and every creature has its history. */
  predicate Ready(s: State, i: nat, c: CreatureId) {
    && i < |s.agents| && s.agents[i].Running? && s.agents[i].work.Executing? && s.agents[i].work.c == c
    && Live(s, c) && s.creatures[c].tasking.executing && s.log.Keys == s.creatures.Keys
  }

  /** Between `s` and `t` only creature `c` changed, to `after`; its history of finished tasks
      grew by `ran`. */
  predicate OnlyCreature(s: State, t: State, c: CreatureId, after: Tasking, ran: seq<Finished>) {
    && c in s.creatures && c in s.log && c in t.log && t.log.Keys == s.log.Keys
    && t.buckets == s.buckets
    && t.creatures == s.creatures[c := s.creatures[c].(tasking := after)]
    && t.log[c].done == s.log[c].done + ran
    && t.log[c].faltered == s.log[c].faltered
  }

  lemma ActsRun(s: State, i: nat, c: CreatureId, a: Act)
    requires Ready(s, i, c) && ActsOk([a])
    ensures Enabled(s, ActStep(c, a))
    ensures
      var t := Next(s, ActStep(c, a));
      && Ready(t, i, c) && t.agents == s.agents
      && OnlyCreature(s, t, c, Apply(s.creatures[c].tasking, a).creature, [])
  {
    assert [a][0] == a;
  }

  /** The acts of a piece of gameplay code, step by step. */
  lemma {:induction false} ActStepsRun(s: State, i: nat, c: CreatureId, acts: seq<Act>)
    requires Ready(s, i, c) && ActsOk(acts)
    ensures Runs(s, ActSteps(c, acts))
    ensures
      var t := After(s, ActSteps(c, acts));
      && Ready(t, i, c) && t.agents == s.agents
      && OnlyCreature(s, t, c, ApplyAll(s.creatures[c].tasking, acts), [])
    decreases |acts|
  {
    if acts == [] {
      assert s.creatures == s.creatures[c := s.creatures[c].(tasking := s.creatures[c].tasking)];
    } else {
      assert ActsOk([acts[0]]) && ActsOk(acts[1..]);
      ActsRun(s, i, c, acts[0]);
      var t := Next(s, ActStep(c, acts[0]));
      ActStepsRun(t, i, c, acts[1..]);
      assert ActSteps(c, acts)[1..] == ActSteps(c, acts[1..]);
    }
  }

  function AllRanTasks(tasks: seq<Task>): seq<Finished> {
    seq(|tasks|, k requires 0 <= k < |tasks| => Finished(tasks[k], true))
  }

  function WithWork(s: State, i: nat, w: Work): seq<Agent>
    requires i < |s.agents| && s.agents[i].Running?
  {
    s.agents[i := s.agents[i].(work := w)]
  }

  /** One task of the batch: it counts as run, and its script takes effect. */
  lemma OneTaskRuns(s: State, i: nat, c: CreatureId, script: Task -> seq<Act>)
    requires Ready(s, i, c) && s.agents[i].work.phase == InTasks && s.agents[i].work.current != []
    requires ActsOk(script(s.agents[i].work.current[0]))
    ensures
      var w := s.agents[i].work;
      var steps := [RunTask(i)] + ActSteps(c, script(w.current[0]));
      && Runs(s, steps)
      && var t := After(s, steps);
         var done := ApplyAll(s.creatures[c].tasking, script(w.current[0]));
         && Ready(t, i, c) && t.agents == WithWork(s, i, w.(current := w.current[1..]))
         && OnlyCreature(s, t, c, done, [Finished(w.current[0], true)])
  {
    var w := s.agents[i].work;
    var acts := script(w.current[0]);
    var u := Next(s, RunTask(i));
    ActStepsRun(u, i, c, acts);
    var steps := [RunTask(i)] + ActSteps(c, acts);
    assert steps[1..] == ActSteps(c, acts);
  }

  /** The tasks of the batch, one after the other. */
  lemma {:induction false} TaskStepsRun(s: State, i: nat, c: CreatureId, script: Task -> seq<Act>, tasks: seq<Task>)
    requires Ready(s, i, c) && s.agents[i].work.phase == InTasks && s.agents[i].work.current == tasks
    requires forall k :: 0 <= k < |tasks| ==> ActsOk(script(tasks[k]))
    ensures Runs(s, TaskSteps(i, c, script, tasks))
    ensures
      var t := After(s, TaskSteps(i, c, script, tasks));
      && Ready(t, i, c) && t.agents == WithWork(s, i, s.agents[i].work.(current := []))
      && OnlyCreature(s, t, c, ApplyAll(s.creatures[c].tasking, Effects(script, tasks)), AllRanTasks(tasks))
    decreases |tasks|
  {
    if tasks == [] {
      assert s.creatures == s.creatures[c := s.creatures[c].(tasking := s.creatures[c].tasking)];
      assert WithWork(s, i, s.agents[i].work.(current := [])) == s.agents;
    } else {
      var first := [RunTask(i)] + ActSteps(c, script(tasks[0]));
      OneTaskRuns(s, i, c, script);
      var u := After(s, first);
      var rest := TaskSteps(i, c, script, tasks[1..]);
      TaskStepsRun(u, i, c, script, tasks[1..]);
      RunsOn(s, first, rest);
      ApplyAllConcat(s.creatures[c].tasking, script(tasks[0]), Effects(script, tasks[1..]));
      var one := ApplyAll(s.creatures[c].tasking, script(tasks[0]));
      var all := ApplyAll(s.creatures[c].tasking, Effects(script, tasks));
      OnlyThen(s, u, After(u, rest), c, one, all, [Finished(tasks[0], true)], AllRanTasks(tasks[1..]));
      assert [Finished(tasks[0], true)] + AllRanTasks(tasks[1..]) == AllRanTasks(tasks);
    }
  }

  // ---- A whole execution ----

  function HookSteps(i: nat, c: CreatureId, hook: seq<Act>): seq<Step> { [FinishTasks(i)] + ActSteps(c, hook) }

  /** The steps between the start of an execution and its end. */
  function InnerSteps(i: nat, c: CreatureId, active: bool, script: Task -> seq<Act>, hook: seq<Act>, tasks: seq<Task>)
    : seq<Step>
  {
    if active then TaskSteps(i, c, script, tasks) + HookSteps(i, c, hook) else []
  }

  /** A run may begin to execute creature `c`. */
  predicate Begins(s: State, i: nat, c: CreatureId, visible: bool) {
    && Enabled(s, Consume(i, visible)) && s.agents[i].pending[0] == c
    && Live(s, c) && s.log.Keys == s.creatures.Keys && (s.agents[i].key.visible || !visible)
  }

  /** The creature at the start of its execution: the fields are swapped out, and an inactive
      creature goes straight to the end, its tasks dropped. */
  lemma BeginRuns(s: State, i: nat, c: CreatureId, visible: bool)
    requires Begins(s, i, c, visible)
    ensures Ready(Next(s, Consume(i, visible)), i, c) && Begun(s, Next(s, Consume(i, visible)), i, c)
  {
  }

  /** Between `s` and `t` run `i` began to execute creature `c`. */
  predicate Begun(s: State, t: State, i: nat, c: CreatureId) {
    && i < |s.agents| && s.agents[i].Running? && s.agents[i].pending != []
    && c in s.creatures && c in s.log && c in t.log
    && var cr, a := s.creatures[c], s.agents[i].(pending := s.agents[i].pending[1..], consumed := true);
       var batch := TakeBatch(cr.tasking);
       && t.buckets == s.buckets && t.log.Keys == s.log.Keys
       && t.creatures == s.creatures[c := cr.(tasking := BeginExecution(cr.tasking))]
       && t.agents == s.agents[i :=
            a.(work := if cr.active then Executing(c, batch.tasks, batch.flags, InTasks)
                       else Executing(c, [], batch.flags, InHook))]
       && t.log[c].done == s.log[c].done + (if cr.active then [] else AllDropped(batch.tasks))
       && t.log[c].faltered == (s.log[c].faltered || !cr.active)
  }

  /** Between `s` and `t` run `i` went through the inside of an execution of creature `c`. */
  predicate Inside(s: State, t: State, i: nat, c: CreatureId, active: bool, script: Task -> seq<Act>, hook: seq<Act>) {
    if !active then t == s
    else
      && i < |s.agents| && s.agents[i].Running? && s.agents[i].work.Executing? && c in s.creatures
      && var w := s.agents[i].work;
         var done := ApplyAll(s.creatures[c].tasking, Effects(script, w.current));
         && t.agents == WithWork(s, i, w.(current := [], phase := InHook))
         && OnlyCreature(s, t, c, ApplyAll(RestoreBatchFlags(done, w.batchFlags), hook), AllRanTasks(w.current))
  }

  /** Between `s` and `t` run `i` ended the execution of creature `c`. */
  predicate Ended(s: State, t: State, i: nat, c: CreatureId, after: bool) {
    && i < |s.agents| && s.agents[i].Running? && c in s.creatures
    && var o := EndExecution(s.creatures[c].tasking);
       && OnlyCreature(s, t, c, o.creature, [])
       && t.agents == WithWork(s, i, NoWork) + (if o.send then [Pushing(c, KeyOf(c, after))] else [])
  }

  /** The flags the hook starts with are the running bit and those of the batch, whatever the
      tasks did to the flag byte. */
  lemma HookFlags(s: State, i: nat, c: CreatureId)
    requires Ready(s, i, c) && Enabled(s, FinishTasks(i))
    ensures
      var t, flags := Next(s, FinishTasks(i)), s.agents[i].work.batchFlags;
      && Ready(t, i, c) && t.agents == WithWork(s, i, s.agents[i].work.(phase := InHook))
      && t.creatures[c].tasking.flags == {AsyncTaskRunning} + flags
      && OnlyCreature(s, t, c, RestoreBatchFlags(s.creatures[c].tasking, flags), [])
  {
  }

  lemma OnlyThen(
      s: State, u: State, t: State, c: CreatureId, x: Tasking, y: Tasking, a: seq<Finished>, b: seq<Finished>)
    requires OnlyCreature(s, u, c, x, a) && OnlyCreature(u, t, c, y, b)
    ensures OnlyCreature(s, t, c, y, a + b)
  {
    assert s.log[c].done + a + b == s.log[c].done + (a + b);
  }

  /** The second half: the flags are restored, and the hook takes effect. */
  lemma HookRuns(s: State, i: nat, c: CreatureId, hook: seq<Act>)
    requires Ready(s, i, c) && s.agents[i].work.phase == InTasks && s.agents[i].work.current == [] && ActsOk(hook)
    ensures
      var w, steps := s.agents[i].work, HookSteps(i, c, hook);
      && Runs(s, steps)
      && var t := After(s, steps);
         && Ready(t, i, c) && t.agents == WithWork(s, i, w.(phase := InHook))
         && OnlyCreature(s, t, c, ApplyAll(RestoreBatchFlags(s.creatures[c].tasking, w.batchFlags), hook), [])
  {
    HookFlags(s, i, c);
    var u := Next(s, FinishTasks(i));
    ActStepsRun(u, i, c, hook);
    var steps := HookSteps(i, c, hook);
    assert steps[1..] == ActSteps(c, hook);
    var restored := RestoreBatchFlags(s.creatures[c].tasking, s.agents[i].work.batchFlags);
    OnlyThen(s, u, After(s, steps), c, restored, ApplyAll(restored, hook), [], []);
  }

  /** The inside of an execution of an active creature. */
  lemma InnerRuns(s: State, i: nat, c: CreatureId, script: Task -> seq<Act>, hook: seq<Act>)
    requires Ready(s, i, c) && s.agents[i].work.phase == InTasks && ActsOk(hook)
    requires forall k :: 0 <= k < |s.agents[i].work.current| ==> ActsOk(script(s.agents[i].work.current[k]))
    ensures
      var steps := InnerSteps(i, c, true, script, hook, s.agents[i].work.current);
      && Runs(s, steps)
      && Ready(After(s, steps), i, c) && After(s, steps).agents[i].work.phase == InHook
      && Inside(s, After(s, steps), i, c, true, script, hook)
  {
    var w := s.agents[i].work;
    var tasks, rest := TaskSteps(i, c, script, w.current), HookSteps(i, c, hook);
    TaskStepsRun(s, i, c, script, w.current);
    var u := After(s, tasks);
    HookRuns(u, i, c, hook);
    RunsOn(s, tasks, rest);
    InsideJoins(s, u, After(u, rest), i, c, script, hook);
  }

  /** The tasks and the hook put together. */
  lemma InsideJoins(
      s: State, u: State, t: State, i: nat, c: CreatureId, script: Task -> seq<Act>, hook: seq<Act>)
    requires Ready(s, i, c) && Ready(u, i, c)
    requires u.agents == WithWork(s, i, s.agents[i].work.(current := []))
    requires
      var tasks := s.agents[i].work.current;
      OnlyCreature(s, u, c, ApplyAll(s.creatures[c].tasking, Effects(script, tasks)), AllRanTasks(tasks))
    requires t.agents == WithWork(u, i, u.agents[i].work.(phase := InHook))
    requires
      var restored := RestoreBatchFlags(u.creatures[c].tasking, u.agents[i].work.batchFlags);
      OnlyCreature(u, t, c, ApplyAll(restored, hook), [])
    ensures Inside(s, t, i, c, true, script, hook)
  {
    var w := s.agents[i].work;
    var done := ApplyAll(s.creatures[c].tasking, Effects(script, w.current));
    var end := ApplyAll(RestoreBatchFlags(done, w.batchFlags), hook);
    OnlyThen(s, u, t, c, done, end, AllRanTasks(w.current), []);
    assert AllRanTasks(w.current) + [] == AllRanTasks(w.current);
  }

  /** The end of an execution. */
  lemma EndRuns(s: State, i: nat, c: CreatureId, visible: bool)
    requires Ready(s, i, c) && s.agents[i].work.phase == InHook
    ensures Enabled(s, EndExecute(i, visible))
    ensures Ended(s, Next(s, EndExecute(i, visible)), i, c, visible)
  {
    var t, o := Next(s, EndExecute(i, visible)), EndExecution(s.creatures[c].tasking);
    if !o.send { assert t.agents == WithWork(s, i, NoWork) + []; }
  }

  function ExecutionSteps(
      s: State, i: nat, c: CreatureId, visible: bool, script: Task -> seq<Act>, hook: seq<Act>, after: bool): seq<Step>
    requires c in s.creatures
  {
    var cr := s.creatures[c];
    [Consume(i, visible)] + InnerSteps(i, c, cr.active, script, hook, cr.tasking.tasks) + [EndExecute(i, after)]
  }

  /** What `executeAsyncTasks` makes of creature `c`. */
  function Executed(s: State, c: CreatureId, script: Task -> seq<Act>, hook: seq<Act>): Outcome
    requires c in s.creatures
  {
    Execute(s.creatures[c].tasking, s.creatures[c].active, script, hook)
  }

  /** Between `s` and `t` run `i` executed creature `c` with this outcome: the creature is as the
      outcome says and is pushed exactly if it is due, and all of its batch is finished, as run
      exactly when the creature is active. */
  predicate Executes(s: State, t: State, i: nat, c: CreatureId, o: Outcome, after: bool)
    requires i < |s.agents| && s.agents[i].Running? && s.agents[i].pending != [] && c in s.creatures && c in s.log
  {
    var cr, a := s.creatures[c], s.agents[i];
    var finished := if cr.active then AllRanTasks(cr.tasking.tasks) else AllDropped(cr.tasking.tasks);
    && t.buckets == s.buckets && t.creatures == s.creatures[c := cr.(tasking := o.creature)]
    && t.agents == s.agents[i := a.(pending := a.pending[1..], consumed := true, work := NoWork)]
                   + (if o.send then [Pushing(c, KeyOf(c, after))] else [])
    && c in t.log
    && t.log[c].done == s.log[c].done + finished
    && t.log[c].faltered == (s.log[c].faltered || !cr.active)
  }

  /** The steps of an execution, taken by the machine one by one, are the execution that the
      creature's own method performs: the tasks of the batch run, in order, exactly when the
      creature is neither removed nor dead. */
  lemma ExecutionRefines(
      s: State, i: nat, c: CreatureId, visible: bool, script: Task -> seq<Act>, hook: seq<Act>, after: bool)
    requires Begins(s, i, c, visible) && ActsOk(hook)
    requires forall k :: 0 <= k < |s.creatures[c].tasking.tasks| ==> ActsOk(script(s.creatures[c].tasking.tasks[k]))
    ensures
      var steps := ExecutionSteps(s, i, c, visible, script, hook, after);
      Runs(s, steps) && Executes(s, After(s, steps), i, c, Executed(s, c, script, hook), after)
  {
    var cr := s.creatures[c];
    var inner := InnerSteps(i, c, cr.active, script, hook, cr.tasking.tasks);
    var u := Next(s, Consume(i, visible));
    BeginRuns(s, i, c, visible);
    if cr.active { InnerRuns(u, i, c, script, hook); }
    var v := After(u, inner);
    EndRuns(v, i, c, after);
    RunsBetween(s, Consume(i, visible), inner, EndExecute(i, after));
    ExecutesJoins(s, u, v, Next(v, EndExecute(i, after)), i, c, script, hook, after);
  }

  lemma RunsBetween(s: State, first: Step, inner: seq<Step>, last: Step)
    requires Enabled(s, first) && Runs(Next(s, first), inner) && Enabled(After(Next(s, first), inner), last)
    ensures Runs(s, [first] + inner + [last])
    ensures After(s, [first] + inner + [last]) == Next(After(Next(s, first), inner), last)
  {
    var u := Next(s, first);
    assert [last][1..] == [];
    RunsOn(u, inner, [last]);
    assert ([first] + inner + [last])[1..] == inner + [last];
  }

  /** The parts of an execution put together. */
  lemma ExecutesJoins(
      s: State, u: State, v: State, t: State, i: nat, c: CreatureId,
      script: Task -> seq<Act>, hook: seq<Act>, after: bool)
    requires Begun(s, u, i, c) && Inside(u, v, i, c, s.creatures[c].active, script, hook) && Ended(v, t, i, c, after)
    ensures Executes(s, t, i, c, Executed(s, c, script, hook), after)
  {
    assert WithWork(v, i, NoWork) == WithWork(u, i, NoWork);
  }
}
