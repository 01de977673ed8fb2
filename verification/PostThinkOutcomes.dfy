/** Which admitted ids are executed and which are cancelled: those that an accepted run takes
    out of the queue, and those that a refused submitter drains. */
module PostThinkOutcomes {
  import opened PostThinkQueue
  import opened PostThinkTheorems

  /** What the runs of the queue took out, over a run of steps. */
  function Taken(s: State, steps: seq<Step>): seq<Ticket>
    requires Runs(s, steps)
    decreases |steps|
  {
    if steps == [] then [] else TakenBy(s, steps[0]) + Taken(Next(s, steps[0]), steps[1..])
  }

  function TakenBy(s: State, st: Step): seq<Ticket> {
    if st.Take? then s.queue[..BatchSize(s.queue, s.batchLimit)] else []
  }

  /** What refused submitters drained, over a run of steps. */
  function Drained(s: State, steps: seq<Step>): seq<Ticket>
    requires Runs(s, steps)
    decreases |steps|
  {
    if steps == [] then [] else DrainedBy(s, steps[0]) + Drained(Next(s, steps[0]), steps[1..])
  }

  function DrainedBy(s: State, st: Step): seq<Ticket> { if st.Cancel? then s.queue else [] }

  // ---- What is taken is executed, what is drained is cancelled ----

  /** How often ticket `x` was executed or is about to be. */
  function Execution(s: State, x: Ticket): nat { multiset(s.executed)[x] + Sum(s.agents, Executing(x)) }

  function Cancellation(s: State, x: Ticket): nat { multiset(s.cancelled)[x] + Sum(s.agents, Cancelling(x)) }

  lemma AdmitOutcome(s: State, id: nat, x: Ticket)
    ensures Execution(Next(s, Admit(id)), x) == Execution(s, x)
    ensures Cancellation(Next(s, Admit(id)), x) == Cancellation(s, x)
  {
    var t := Next(s, Admit(id));
    assert t.executed == s.executed && t.cancelled == s.cancelled;
    AdmitSum(s, id, Executing(x));
    AdmitSum(s, id, Cancelling(x));
  }

  lemma AdmitSum(s: State, id: nat, m: Measure)
    requires m.Executing? || m.Cancelling?
    ensures Sum(Next(s, Admit(id)).agents, m) == Sum(s.agents, m)
  {
    var a := Reserved(Ticket(|s.admitted|, id));
    SumAppend(s.agents, a, m);
    assert Weight(a, m) == 0;
  }

  lemma HandleOutcome(s: State, i: nat, x: Ticket)
    requires Enabled(s, Handle(i))
    ensures Execution(Next(s, Handle(i)), x) == Execution(s, x)
    ensures Cancellation(Next(s, Handle(i)), x) == Cancellation(s, x)
  {
    var a := s.agents[i];
    SumStep(s, Handle(i), Executing(x));
    SumStep(s, Handle(i), Cancelling(x));
    assert a.ids == [a.ids[0]] + a.ids[1..];
    assert multiset(a.ids)[x] == multiset([a.ids[0]])[x] + multiset(a.ids[1..])[x];
  }

  lemma StepOutcome(s: State, st: Step, x: Ticket)
    requires Enabled(s, st)
    ensures Execution(Next(s, st), x) == Execution(s, x) + multiset(TakenBy(s, st))[x]
    ensures Cancellation(Next(s, st), x) == Cancellation(s, x) + multiset(DrainedBy(s, st))[x]
  {
    if st.Admit? {
      AdmitOutcome(s, st.monsterId, x);
    } else if st.Handle? {
      HandleOutcome(s, st.i, x);
    } else {
      SumStep(s, st, Executing(x));
      SumStep(s, st, Cancelling(x));
    }
  }

  lemma {:induction false} RunOutcome(s: State, steps: seq<Step>, x: Ticket)
    requires Runs(s, steps)
    ensures Execution(After(s, steps), x) == Execution(s, x) + multiset(Taken(s, steps))[x]
    ensures Cancellation(After(s, steps), x) == Cancellation(s, x) + multiset(Drained(s, steps))[x]
    decreases |steps|
  {
    if steps != [] {
      StepOutcome(s, steps[0], x);
      RunOutcome(Next(s, steps[0]), steps[1..], x);
    }
  }

  /** At rest, the ids executed are exactly those that runs of the queue took out, and the ids
      cancelled exactly those that refused submitters drained, each as often. */
  lemma FateOfEveryId(s0: State, steps: seq<Step>, x: Ticket)
    requires Init(s0) && Runs(s0, steps)
    requires forall i :: 0 <= i < |After(s0, steps).agents| ==> Over(After(s0, steps).agents[i])
    ensures multiset(After(s0, steps).executed)[x] == multiset(Taken(s0, steps))[x]
    ensures multiset(After(s0, steps).cancelled)[x] == multiset(Drained(s0, steps))[x]
  {
    RunOutcome(s0, steps, x);
    IdleSum(After(s0, steps).agents, Executing(x));
    IdleSum(After(s0, steps).agents, Cancelling(x));
  }

  // ---- Who runs and who drains ----

  /** An agent that rolls back was refused, one that runs the queue was accepted. */
  lemma {:induction false} AnsweredBefore(s: State, steps: seq<Step>, i: nat)
    requires Runs(s, steps) && i < |After(s, steps).agents|
    ensures After(s, steps).agents[i].RollingBack? ==>
      (i < |s.agents| && s.agents[i].RollingBack?) || Answer(i, false) in steps
    ensures After(s, steps).agents[i].Event? ==>
      (i < |s.agents| && s.agents[i].Event?) || Answer(i, true) in steps
    decreases |steps|
  {
    if steps != [] {
      AnsweredBefore(Next(s, steps[0]), steps[1..], i);
    }
  }

  predicate NobodyIs(s: State, accepted: bool) {
    forall i :: 0 <= i < |s.agents| ==> if accepted then !s.agents[i].Event? else !s.agents[i].RollingBack?
  }

  predicate AllAnswered(steps: seq<Step>, accepted: bool) {
    forall k :: 0 <= k < |steps| && steps[k].Answer? ==> steps[k].accepted == accepted
  }

  lemma {:induction false} OnlyAccepted(s: State, steps: seq<Step>)
    requires Runs(s, steps) && AllAnswered(steps, true) && NobodyIs(s, false)
    ensures Drained(s, steps) == []
    decreases |steps|
  {
    if steps != [] {
      assert AllAnswered([steps[0]], true);
      OnlyAccepted(Next(s, steps[0]), steps[1..]);
    }
  }

  lemma {:induction false} OnlyRefused(s: State, steps: seq<Step>)
    requires Runs(s, steps) && AllAnswered(steps, false) && NobodyIs(s, true)
    ensures Taken(s, steps) == []
    decreases |steps|
  {
    if steps != [] {
      assert AllAnswered([steps[0]], false);
      OnlyRefused(Next(s, steps[0]), steps[1..]);
    }
  }

  lemma EmptyIfNothing(s: seq<Ticket>)
    requires forall x :: multiset(s)[x] == 0
    ensures s == []
  {
    FirstCounts(s);
  }

  lemma FirstCounts(s: seq<Ticket>)
    ensures s != [] ==> multiset(s)[s[0]] > 0
  {
    if s != [] { assert s[0] in multiset(s); }
  }

  /** While the dispatcher has refused nothing, nothing is cancelled; and once such a run is at
      rest, every admitted id was executed, unless its push threw. */
  lemma AcceptedMeansExecuted(s0: State, steps: seq<Step>)
    requires Init(s0) && Runs(s0, steps) && AllAnswered(steps, true)
    ensures After(s0, steps).cancelled == []
    ensures (forall i :: 0 <= i < |After(s0, steps).agents| ==> Over(After(s0, steps).agents[i])) ==>
      var t := After(s0, steps);
      forall x :: multiset(t.executed)[x] + multiset(t.thrown)[x] == multiset(t.admitted)[x]
  {
    var t := After(s0, steps);
    OnlyAccepted(s0, steps);
    forall x ensures multiset(t.cancelled)[x] == 0 { RunOutcome(s0, steps, x); }
    EmptyIfNothing(t.cancelled);
    if forall i :: 0 <= i < |t.agents| ==> Over(t.agents[i]) {
      assert Reachable(t);
      QuiescentMeansHandled(t);
    }
  }

  /** While the dispatcher has accepted nothing, nothing is executed; and once such a run is at
      rest, every admitted id was cancelled, unless its push threw. */
  lemma RefusedMeansCancelled(s0: State, steps: seq<Step>)
    requires Init(s0) && Runs(s0, steps) && AllAnswered(steps, false)
    ensures After(s0, steps).executed == []
    ensures (forall i :: 0 <= i < |After(s0, steps).agents| ==> Over(After(s0, steps).agents[i])) ==>
      var t := After(s0, steps);
      forall x :: multiset(t.cancelled)[x] + multiset(t.thrown)[x] == multiset(t.admitted)[x]
  {
    var t := After(s0, steps);
    OnlyRefused(s0, steps);
    forall x ensures multiset(t.executed)[x] == 0 { RunOutcome(s0, steps, x); }
    EmptyIfNothing(t.executed);
    if forall i :: 0 <= i < |t.agents| ==> Over(t.agents[i]) {
      assert Reachable(t);
      QuiescentMeansHandled(t);
    }
  }

  // ---- Admission ----

  /** An id is turned away exactly when the whole capacity is out: waiting, reserved, or popped
      and not yet released. */
  lemma AdmittedIff(s: State, id: nat)
    requires Reachable(s)
    ensures
      var t := Next(s, Admit(id));
      if |s.queue| + Sum(s.agents, Debt) < CAPACITY then
        && t.admitted == s.admitted + [Ticket(|s.admitted|, id)]
        && t.agents == s.agents + [Reserved(Ticket(|s.admitted|, id))]
      else t == s
  {
    AdmissionIsExact(s);
  }

  // ---- The queue is first in, first out ----

  function Pushed(s: State, steps: seq<Step>): seq<Ticket>
    requires Runs(s, steps)
    decreases |steps|
  {
    if steps == [] then []
    else (if steps[0].Push? then [s.agents[steps[0].i].t] else []) + Pushed(Next(s, steps[0]), steps[1..])
  }

  /** What left the queue, taken or drained. */
  function Left(s: State, steps: seq<Step>): seq<Ticket>
    requires Runs(s, steps)
    decreases |steps|
  {
    if steps == [] then []
    else TakenBy(s, steps[0]) + DrainedBy(s, steps[0]) + Left(Next(s, steps[0]), steps[1..])
  }

  lemma QueueStep(s: State, st: Step)
    requires Enabled(s, st)
    ensures s.queue + (if st.Push? then [s.agents[st.i].t] else []) ==
            TakenBy(s, st) + DrainedBy(s, st) + Next(s, st).queue
  {
  }

  /** Over any run, ids leave the queue in the order in which they were pushed. */
  lemma {:induction false} FirstInFirstOut(s: State, steps: seq<Step>)
    requires Runs(s, steps)
    ensures s.queue + Pushed(s, steps) == Left(s, steps) + After(s, steps).queue
    decreases |steps|
  {
    if steps != [] {
      var t := Next(s, steps[0]);
      QueueStep(s, steps[0]);
      FirstInFirstOut(t, steps[1..]);
      var here := if steps[0].Push? then [s.agents[steps[0].i].t] else [];
      InOrder(s.queue, here, Pushed(t, steps[1..]), TakenBy(s, steps[0]) + DrainedBy(s, steps[0]), t.queue,
              Left(t, steps[1..]), After(s, steps).queue);
    }
  }

  lemma InOrder<T>(q: seq<T>, here: seq<T>, more: seq<T>, out: seq<T>, mid: seq<T>, left: seq<T>, end: seq<T>)
    requires q + here == out + mid && mid + more == left + end
    ensures q + (here + more) == out + left + end
  {
    assert q + (here + more) == (q + here) + more == out + (mid + more);
  }
}
