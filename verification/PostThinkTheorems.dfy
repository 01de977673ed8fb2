/** Admission accounting and exactly-once handling of the post-think queue, over every run. */
module PostThinkTheorems {
  import opened PostThinkQueue

  /** The admissions an agent still has to give back by itself. */
  function Owes(a: Agent): nat {
    match a
    case Reserved(_) => 1
    case Working(left, _, _, _) => left
    case _ => 0
  }

  function Holds(a: Agent): seq<Ticket> {
    match a
    case Reserved(t) => [t]
    case Working(_, ids, _, _) => ids
    case _ => []
  }

  /** What is summed over the agents: admissions owed, or copies held of one ticket, all of
      them or those about to be executed or cancelled. */
  datatype Measure = Debt | Copies(t: Ticket) | Executing(t: Ticket) | Cancelling(t: Ticket)

  function Weight(a: Agent, m: Measure): nat {
    match m
    case Debt => Owes(a)
    case Copies(t) => multiset(Holds(a))[t]
    case Executing(t) => if a.Working? && !a.cancel then multiset(a.ids)[t] else 0
    case Cancelling(t) => if a.Working? && a.cancel then multiset(a.ids)[t] else 0
  }

  function Sum(agents: seq<Agent>, m: Measure): nat {
    if agents == [] then 0 else Sum(agents[..|agents| - 1], m) + Weight(agents[|agents| - 1], m)
  }

  lemma {:induction false} SumUpdate(agents: seq<Agent>, i: nat, a: Agent, m: Measure)
    requires i < |agents|
    ensures Sum(agents[i := a], m) + Weight(agents[i], m) == Sum(agents, m) + Weight(a, m)
    ensures Sum(agents, m) >= Weight(agents[i], m)
  {
    var n := |agents| - 1;
    if i == n {
      assert agents[i := a][..n] == agents[..n];
    } else {
      assert agents[i := a][..n] == agents[..n][i := a];
      SumUpdate(agents[..n], i, a, m);
    }
  }

  lemma SumAppend(agents: seq<Agent>, a: Agent, m: Measure)
    ensures Sum(agents + [a], m) == Sum(agents, m) + Weight(a, m)
  {
    assert (agents + [a])[..|agents|] == agents;
  }

  /** How a step changes a sum: only the weight of the agent that moves counts. */
  lemma SumStep(s: State, st: Step, m: Measure)
    requires Enabled(s, st) && !st.Admit?
    ensures
      var t := Next(s, st);
      |t.agents| == |s.agents| &&
      Sum(t.agents, m) + Weight(s.agents[st.i], m) == Sum(s.agents, m) + Weight(t.agents[st.i], m)
    ensures Sum(s.agents, m) >= Weight(s.agents[st.i], m)
  {
    SumUpdate(s.agents, st.i, Next(s, st).agents[st.i], m);
  }

  ghost predicate Accounted(s: State) {
    && s.reserved == |s.queue| + Sum(s.agents, Debt)
    && s.reserved <= CAPACITY
  }

  /** How often ticket `x` stands in the queue or in one of the logs. */
  function Resting(s: State, x: Ticket): nat {
    multiset(s.queue)[x] + multiset(s.executed)[x] + multiset(s.cancelled)[x] + multiset(s.thrown)[x]
  }

  /** The same, with the hands of the agents. */
  function Whereabouts(s: State, x: Ticket): nat { Resting(s, x) + Sum(s.agents, Copies(x)) }

  ghost predicate Partitioned(s: State) {
    && (forall x :: Whereabouts(s, x) == multiset(s.admitted)[x])
    && (forall k :: 0 <= k < |s.admitted| ==> s.admitted[k].number == k)
  }

  predicate Carries(a: Agent) {
    a.Submitting? || a.Event? || a.RollingBack? || (a.Working? && a.reschedule)
  }

  ghost predicate SingleCarrier(s: State) {
    && (s.scheduled <==> exists i :: 0 <= i < |s.agents| && Carries(s.agents[i]))
    && (forall i, j ::
          0 <= i < |s.agents| && 0 <= j < |s.agents| && Carries(s.agents[i]) && Carries(s.agents[j]) ==> i == j)
    && (s.queue != [] ==> s.scheduled)
  }

  lemma AccountedQueueStep(s: State, st: Step)
    requires Accounted(s) && Enabled(s, st) && (st.Push? || st.Take? || st.Cancel?)
    ensures Accounted(Next(s, st))
  {
    SumStep(s, st, Debt);
    if st.Take? {
      assert |Next(s, st).queue| + BatchSize(s.queue, s.batchLimit) == |s.queue|;
    }
  }

  lemma AccountedReleaseStep(s: State, st: Step)
    requires Accounted(s) && Enabled(s, st) && (st.Release? || st.Throw?)
    ensures Accounted(Next(s, st))
  {
    SumStep(s, st, Debt);
  }

  lemma AccountedStep(s: State, st: Step)
    requires Accounted(s) && Enabled(s, st)
    ensures Accounted(Next(s, st))
  {
    if st.Admit? {
      SumAppend(s.agents, Reserved(Ticket(|s.admitted|, st.monsterId)), Debt);
    } else if st.Push? || st.Take? || st.Cancel? {
      AccountedQueueStep(s, st);
    } else if st.Release? || st.Throw? {
      AccountedReleaseStep(s, st);
    } else {
      SumStep(s, st, Debt);
    }
  }

  /** What leaves the hand of the moving agent comes to rest, and the other way round. */
  ghost predicate HandedOver(s: State, st: Step, x: Ticket)
    requires Enabled(s, st) && !st.Admit?
  {
    var t := Next(s, st);
    Resting(t, x) + multiset(Holds(t.agents[st.i]))[x] == Resting(s, x) + multiset(Holds(s.agents[st.i]))[x]
  }

  lemma QueueHandOver(s: State, st: Step, x: Ticket)
    requires Enabled(s, st) && (st.Push? || st.Take? || st.Cancel?)
    ensures HandedOver(s, st, x)
  {
    var t := Next(s, st);
    if st.Take? {
      assert s.queue == Holds(t.agents[st.i]) + t.queue;
    }
  }

  lemma ThrowHandOver(s: State, i: nat, x: Ticket)
    requires Enabled(s, Throw(i))
    ensures HandedOver(s, Throw(i), x)
  {
    assert Holds(s.agents[i]) == [s.agents[i].t] && Holds(Next(s, Throw(i)).agents[i]) == [];
  }

  lemma HandleHandOver(s: State, i: nat, x: Ticket)
    requires Enabled(s, Handle(i))
    ensures HandedOver(s, Handle(i), x)
  {
    assert Holds(s.agents[i]) == [s.agents[i].ids[0]] + Holds(Next(s, Handle(i)).agents[i]);
  }

  lemma QuietHandOver(s: State, st: Step, x: Ticket)
    requires Enabled(s, st) && (st.Answer? || st.Release? || st.Finish?)
    ensures HandedOver(s, st, x)
  {
  }

  lemma WhereaboutsStep(s: State, st: Step, x: Ticket)
    requires Enabled(s, st) && !st.Admit?
    ensures Whereabouts(Next(s, st), x) == Whereabouts(s, x)
  {
    SumStep(s, st, Copies(x));
    if st.Push? || st.Take? || st.Cancel? {
      QueueHandOver(s, st, x);
    } else if st.Throw? {
      ThrowHandOver(s, st.i, x);
    } else if st.Handle? {
      HandleHandOver(s, st.i, x);
    } else {
      QuietHandOver(s, st, x);
    }
    assert HandedOver(s, st, x);
  }

  lemma PartitionedStep(s: State, st: Step)
    requires Partitioned(s) && Enabled(s, st)
    ensures Partitioned(Next(s, st))
  {
    forall x ensures Whereabouts(Next(s, st), x) == multiset(Next(s, st).admitted)[x] {
      if st.Admit? {
        SumAppend(s.agents, Reserved(Ticket(|s.admitted|, st.monsterId)), Copies(x));
      } else {
        WhereaboutsStep(s, st, x);
      }
      assert Whereabouts(s, x) == multiset(s.admitted)[x];
    }
  }

  /** Agent `i` changes, in step with the flag; the others stay. */
  lemma CarrierUpdate(s: State, t: State, i: nat)
    requires SingleCarrier(s) && i < |s.agents| == |t.agents| && t.agents == s.agents[i := t.agents[i]]
    requires Carries(t.agents[i]) ==> t.scheduled && (Carries(s.agents[i]) || !s.scheduled)
    requires !Carries(t.agents[i]) ==> t.scheduled == (s.scheduled && !Carries(s.agents[i]))
    requires t.queue != [] ==> t.scheduled
    ensures SingleCarrier(t)
  {
    assert forall j :: 0 <= j < |s.agents| && j != i ==> t.agents[j] == s.agents[j];
    if t.scheduled && !Carries(t.agents[i]) {
      var j :| 0 <= j < |s.agents| && Carries(s.agents[j]);
      assert Carries(t.agents[j]);
    }
  }

  lemma CarrierAdmit(s: State, id: nat)
    requires SingleCarrier(s)
    ensures SingleCarrier(Next(s, Admit(id)))
  {
    var t := Next(s, Admit(id));
    if i :| 0 <= i < |s.agents| && Carries(s.agents[i]) { assert Carries(t.agents[i]); }
    assert forall i :: 0 <= i < |t.agents| && Carries(t.agents[i]) ==> i < |s.agents| && Carries(s.agents[i]);
  }

  lemma CarrierQueueStep(s: State, st: Step)
    requires SingleCarrier(s) && Enabled(s, st) && (st.Push? || st.Take? || st.Cancel?)
    ensures SingleCarrier(Next(s, st))
  {
    CarrierUpdate(s, Next(s, st), st.i);
  }

  lemma CarrierStep(s: State, st: Step)
    requires SingleCarrier(s) && Enabled(s, st)
    ensures SingleCarrier(Next(s, st))
  {
    if st.Admit? {
      CarrierAdmit(s, st.monsterId);
    } else if st.Push? || st.Take? || st.Cancel? {
      CarrierQueueStep(s, st);
    } else {
      assert Next(s, st).queue == s.queue && Next(s, st).scheduled == s.scheduled;
      CarrierUpdate(s, Next(s, st), st.i);
    }
  }

  ghost predicate Inv(s: State) { s.batchLimit > 0 && Accounted(s) && Partitioned(s) && SingleCarrier(s) }

  lemma {:induction false} InvAlongRun(s: State, steps: seq<Step>)
    requires Inv(s) && Runs(s, steps)
    ensures Inv(After(s, steps))
    decreases |steps|
  {
    if steps != [] {
      AccountedStep(s, steps[0]);
      PartitionedStep(s, steps[0]);
      CarrierStep(s, steps[0]);
      InvAlongRun(Next(s, steps[0]), steps[1..]);
    }
  }

  lemma ReachableInv(s: State)
    requires Reachable(s)
    ensures Inv(s)
  {
    var s0, steps :| Init(s0) && Runs(s0, steps) && After(s0, steps) == s;
    InvAlongRun(s0, steps);
  }

  /** The counter is the queue, plus what was reserved and not yet pushed, plus what was
      popped and not yet released; it stays within the capacity. */
  lemma AdmissionIsExact(s: State)
    requires Reachable(s)
    ensures s.reserved == |s.queue| + Sum(s.agents, Debt) <= CAPACITY
  {
    ReachableInv(s);
  }

  /** Every `release` of a run finds something to release, so no assertion fires. */
  lemma EveryReleaseSucceeds(s: State, st: Step)
    requires Reachable(s) && Enabled(s, st) && (st.Release? || st.Throw?)
    ensures ReleaseOne(s.reserved).ok
  {
    ReachableInv(s);
    SumStep(s, st, Debt);
  }

  /** An admitted ticket is in exactly one place: waiting, executed, cancelled or thrown. */
  lemma EachTicketHandledOnce(s: State, k: nat)
    requires Reachable(s) && k < |s.admitted|
    ensures
      var t := s.admitted[k];
      multiset(s.queue)[t] + Sum(s.agents, Copies(t))
      + multiset(s.executed)[t] + multiset(s.cancelled)[t] + multiset(s.thrown)[t] == 1
  {
    ReachableInv(s);
    var t := s.admitted[k];
    assert Whereabouts(s, t) == multiset(s.admitted)[t];
    var before, after := s.admitted[..k], s.admitted[k + 1..];
    assert s.admitted == before + [t] + after;
    assert t !in before && t !in after;
  }

  /** The queue is scheduled exactly when one agent will drain it. */
  lemma ScheduledIffOneCarrier(s: State)
    requires Reachable(s)
    ensures s.scheduled <==> exists i :: 0 <= i < |s.agents| && Carries(s.agents[i])
    ensures forall i, j ::
      0 <= i < |s.agents| && 0 <= j < |s.agents| && Carries(s.agents[i]) && Carries(s.agents[j]) ==> i == j
    ensures s.queue != [] ==> s.scheduled
  {
    ReachableInv(s);
  }

  predicate Over(a: Agent) { a.Idle? }

  lemma {:induction false} IdleSum(agents: seq<Agent>, m: Measure)
    requires forall i :: 0 <= i < |agents| ==> Over(agents[i])
    ensures Sum(agents, m) == 0
  {
    if agents != [] {
      IdleSum(agents[..|agents| - 1], m);
    }
  }

  /** When every agent is over, every admitted ticket was executed, cancelled or thrown, and
      the whole capacity is free again. */
  lemma QuiescentMeansHandled(s: State)
    requires Reachable(s)
    requires forall i :: 0 <= i < |s.agents| ==> Over(s.agents[i])
    ensures s.queue == [] && !s.scheduled && s.reserved == 0
    ensures forall x ::
      multiset(s.executed)[x] + multiset(s.cancelled)[x] + multiset(s.thrown)[x] == multiset(s.admitted)[x]
  {
    ReachableInv(s);
    IdleSum(s.agents, Debt);
    forall x
      ensures multiset(s.executed)[x] + multiset(s.cancelled)[x] + multiset(s.thrown)[x] == multiset(s.admitted)[x]
    {
      IdleSum(s.agents, Copies(x));
      assert Whereabouts(s, x) == multiset(s.admitted)[x];
    }
    assert forall i :: 0 <= i < |s.agents| ==> !Carries(s.agents[i]);
  }
}
