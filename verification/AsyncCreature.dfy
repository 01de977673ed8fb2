/** The per-creature half of the asynchronous task protocol: the flag byte, the deferred
    flag byte, the `executing` marker and the task vector of a creature. */
module AsyncCreature {

  /** The bits of the creature's flag byte. */
  datatype Flag =
    | AsyncTaskRunning
    | UpdateTargetList
    | UpdateIdleStatus
    | Pathfinder
    | OnThink
    | TargetRanking
    | CombatIntention

  /** A callable handed to `addAsyncTask`, known by its identity. */
  type Task = nat

  /** The fields of a creature that the protocol reads and writes. A flag byte is the set
      of its raised bits. */
  datatype Tasking = Tasking(flags: set<Flag>, deferred: set<Flag>, executing: bool, tasks: seq<Task>)

  const IDLE := Tasking({}, {}, false, [])

  /** What `sendAsyncTasks` does to the creature: raise the running bit unless it is
      already raised. `send` tells whether the creature has to be queued. */
  datatype Outcome = Outcome(creature: Tasking, send: bool)

  function Send(c: Tasking): Outcome {
    if AsyncTaskRunning in c.flags then Outcome(c, false)
    else Outcome(c.(flags := c.flags + {AsyncTaskRunning}), true)
  }

  function AddTask(c: Tasking, t: Task): Outcome {
    var c1 := c.(tasks := c.tasks + [t]);
    if !c1.executing && AsyncTaskRunning !in c1.flags then Send(c1) else Outcome(c1, false)
  }

  function RaiseFlag(c: Tasking, f: Flag): Outcome {
    var c1 := c.(flags := c.flags + {f});
    if c.executing && f != AsyncTaskRunning then Outcome(c1.(deferred := c.deferred + {f}), false)
    else if AsyncTaskRunning !in c.flags then Send(c1)
    else Outcome(c1, false)
  }

  function ClearFlag(c: Tasking, f: Flag): Tasking {
    c.(flags := c.flags - {f}, deferred := if c.executing then c.deferred - {f} else c.deferred)
  }

  function SetFlag(c: Tasking, f: Flag, v: bool): Outcome {
    if v then RaiseFlag(c, f) else Outcome(ClearFlag(c, f), false)
  }

  /** The batch an execution works on: the swapped-out tasks and the flags of its start. */
  datatype Batch = Batch(tasks: seq<Task>, flags: set<Flag>)

  function TakeBatch(c: Tasking): Batch {
    Batch(c.tasks, c.flags - {AsyncTaskRunning})
  }

  function BeginExecution(c: Tasking): Tasking {
    c.(tasks := [], deferred := {}, executing := true)
  }

  /** The overwrite of the flag byte between the tasks and the `onExecuteAsyncTasks` hook. */
  function RestoreBatchFlags(c: Tasking, batchFlags: set<Flag>): Tasking {
    c.(flags := {AsyncTaskRunning} + batchFlags)
  }

  function EndExecution(c: Tasking): Outcome {
    var c1 := c.(executing := false, deferred := {}, flags := c.deferred);
    if c1.tasks != [] || c.deferred != {} then Send(c1) else Outcome(c1.(flags := {}), false)
  }

  /** What a piece of gameplay code may do to a creature while it runs. */
  datatype Act = Add(t: Task) | Set(f: Flag, v: bool)

  function Apply(c: Tasking, a: Act): Outcome {
    match a
    case Add(t) => AddTask(c, t)
    case Set(f, v) => SetFlag(c, f, v)
  }

  function ApplyAll(c: Tasking, acts: seq<Act>): Tasking
    decreases |acts|
  {
    if acts == [] then c else ApplyAll(Apply(c, acts[0]).creature, acts[1..])
  }

  /** Everything the tasks of a batch do, one task after the other. */
  function Effects(script: Task -> seq<Act>, tasks: seq<Task>): seq<Act> {
    if tasks == [] then [] else script(tasks[0]) + Effects(script, tasks[1..])
  }

  /** A whole execution: swap out, run the tasks, restore the flags, run the hook, close.
      `active` is the answer of the removed-or-dead check. */
  function Execute(c: Tasking, active: bool, script: Task -> seq<Act>, hook: seq<Act>): Outcome {
    var batch := TakeBatch(c);
    var c1 := BeginExecution(c);
    if active then
      var c2 := ApplyAll(c1, Effects(script, batch.tasks));
      EndExecution(ApplyAll(RestoreBatchFlags(c2, batch.flags), hook))
    else
      EndExecution(c1)
  }

  lemma {:induction false} ApplyAllConcat(c: Tasking, a: seq<Act>, b: seq<Act>)
    ensures ApplyAll(c, a + b) == ApplyAll(ApplyAll(c, a), b)
    decreases |a|
  {
    if a == [] {
      assert a + b == b;
    } else {
      assert (a + b)[1..] == a[1..] + b;
      ApplyAllConcat(Apply(c, a[0]).creature, a[1..], b);
    }
  }

  lemma {:induction false} EffectsConcat(script: Task -> seq<Act>, a: seq<Task>, b: seq<Task>)
    ensures Effects(script, a + b) == Effects(script, a) + Effects(script, b)
    decreases |a|
  {
    if a == [] {
      assert a + b == b;
    } else {
      assert (a + b)[1..] == a[1..] + b;
      EffectsConcat(script, a[1..], b);
    }
  }

  /** The mutable object: the source's fields and its methods on them. Queueing the creature
      in a bucket is the caller's step; the methods report that it is due. */
  class CreatureTasks {
    var flags: set<Flag>
    var deferred: set<Flag>
    var executing: bool
    var tasks: seq<Task>

    ghost function View(): Tasking reads this { Tasking(flags, deferred, executing, tasks) }

    constructor ()
      ensures View() == IDLE
    {
      flags, deferred, executing, tasks := {}, {}, false, [];
    }

    method SendAsyncTasks() returns (send: bool)
      modifies this
      ensures Outcome(View(), send) == Send(old(View()))
    {
      if AsyncTaskRunning in flags {
        return false;
      }
      flags := flags + {AsyncTaskRunning};
      return true;
    }

    method AddAsyncTask(t: Task) returns (send: bool)
      modifies this
      ensures Outcome(View(), send) == AddTask(old(View()), t)
    {
      tasks := tasks + [t];
      send := false;
      if !executing && AsyncTaskRunning !in flags {
        send := SendAsyncTasks();
      }
    }

    method SetAsyncTaskFlag(f: Flag, v: bool) returns (send: bool)
      modifies this
      ensures Outcome(View(), send) == SetFlag(old(View()), f, v)
    {
      send := false;
      if v {
        var alreadyScheduled := AsyncTaskRunning in flags;
        flags := flags + {f};
        if executing && f != AsyncTaskRunning {
          deferred := deferred + {f};
          return;
        }
        if !alreadyScheduled {
          send := SendAsyncTasks();
        }
      } else {
        flags := flags - {f};
        if executing {
          deferred := deferred - {f};
        }
      }
    }

    /** Runs a piece of gameplay code against this creature. */
    method RunActs(acts: seq<Act>)
      modifies this
      ensures View() == ApplyAll(old(View()), acts)
    {
      var k := 0;
      while k < |acts|
        invariant k <= |acts|
        invariant ApplyAll(View(), acts[k..]) == ApplyAll(old(View()), acts)
      {
        var sent;
        match acts[k] {
          case Add(t) => sent := AddAsyncTask(t);
          case Set(f, v) => sent := SetAsyncTaskFlag(f, v);
        }
        assert acts[k..][1..] == acts[k + 1..];
        k := k + 1;
      }
    }

    method ExecuteAsyncTasks(active: bool, script: Task -> seq<Act>, hook: seq<Act>) returns (send: bool)
      modifies this
      ensures Outcome(View(), send) == Execute(old(View()), active, script, hook)
    {
      var currentTasks := tasks;
      tasks := [];
      var currentFlags := flags - {AsyncTaskRunning};
      deferred := {};
      executing := true;
      if active {
        ghost var begun := View();
        var k := 0;
        while k < |currentTasks|
          invariant k <= |currentTasks|
          invariant View() == ApplyAll(begun, Effects(script, currentTasks[..k]))
        {
          RunActs(script(currentTasks[k]));
          ApplyAllConcat(begun, Effects(script, currentTasks[..k]), script(currentTasks[k]));
          EffectsConcat(script, currentTasks[..k], [currentTasks[k]]);
          assert currentTasks[..k + 1] == currentTasks[..k] + [currentTasks[k]];
          assert Effects(script, [currentTasks[k]]) == script(currentTasks[k]);
          k := k + 1;
        }
        assert currentTasks[..k] == currentTasks;
        flags := {AsyncTaskRunning} + currentFlags;
        RunActs(hook);
      }
      executing := false;
      var deferredFlags := deferred;
      deferred := {};
      flags := deferredFlags;
      send := false;
      if tasks != [] || deferredFlags != {} {
        send := SendAsyncTasks();
      } else {
        flags := {};
      }
    }
  }
}
