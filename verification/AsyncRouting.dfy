/** A creature only ever stands in its own pair of buckets, and a run of the background bucket
    hands a creature that became visible to the visible one. */
module AsyncRouting {
  import opened AsyncCreature
  import opened AsyncBucket
  import opened AsyncProtocol

  predicate AllOf(cs: seq<CreatureId>, k: Key) { forall j :: 0 <= j < |cs| ==> cs[j] % BUCKET_RESERVE == k.index }

  predicate AgentRouted(a: Agent) {
    match a
    case Pushing(c, k) => c % BUCKET_RESERVE == k.index
    case Running(k, pending, _, _, work) =>
      AllOf(pending, k) && (work.Executing? ==> work.c % BUCKET_RESERVE == k.index)
    case _ => true
  }

  ghost predicate Routed(s: State) {
    && (forall k :: k in s.buckets ==> AllOf(s.buckets[k].queue, k))
    && (forall i :: 0 <= i < |s.agents| ==> AgentRouted(s.agents[i]))
  }

  lemma RoutedInit(s: State)
    requires Init(s)
    ensures Routed(s)
  {
  }

  lemma BucketStepRouted(s: State, st: Step)
    requires Routed(s) && Enabled(s, st) && (st.Push? || st.Rollback? || st.Take? || st.PutBack?)
    ensures Routed(Next(s, st))
  {
    assert AgentRouted(s.agents[st.i]);
    assert AllOf(s.buckets[s.agents[st.i].key].queue, s.agents[st.i].key);
  }

  lemma ConsumeRouted(s: State, i: nat, visible: bool)
    requires Routed(s) && Enabled(s, Consume(i, visible))
    ensures Routed(Next(s, Consume(i, visible)))
  {
    assert AgentRouted(s.agents[i]);
  }

  lemma OtherStepRouted(s: State, st: Step)
    requires Routed(s) && Enabled(s, st) && !(st.Push? || st.Rollback? || st.Take? || st.PutBack? || st.Consume?)
    ensures Routed(Next(s, st))
  {
  }

  lemma {:induction false} RunRouted(s: State, steps: seq<Step>)
    requires Routed(s) && Runs(s, steps)
    ensures Routed(After(s, steps))
    decreases |steps|
  {
    if steps != [] {
      var st := steps[0];
      if st.Push? || st.Rollback? || st.Take? || st.PutBack? {
        BucketStepRouted(s, st);
      } else if st.Consume? {
        ConsumeRouted(s, st.i, st.visible);
      } else {
        OtherStepRouted(s, st);
      }
      RunRouted(Next(s, st), steps[1..]);
    }
  }

  /** Every entry of a bucket, in every reachable state, is of a creature of that bucket. */
  lemma EntriesAreRouted(s: State, k: Key, j: nat)
    requires Reachable(s) && k in s.buckets && j < |s.buckets[k].queue|
    ensures s.buckets[k].queue[j] % BUCKET_RESERVE == k.index
  {
    var s0, steps :| Init(s0) && Runs(s0, steps) && After(s0, steps) == s;
    RoutedInit(s0);
    RunRouted(s0, steps);
    assert AllOf(s.buckets[k].queue, k);
  }

  /** A live creature that a background run finds visible is not executed there: it goes, as
      it is, to the visible bucket with the index of the run's own. */
  lemma VisibleMigrates(s: State, i: nat)
    requires Reachable(s) && Enabled(s, Consume(i, true))
    requires Live(s, s.agents[i].pending[0]) && !s.agents[i].key.visible
    ensures
      var t, c, k := Next(s, Consume(i, true)), s.agents[i].pending[0], s.agents[i].key;
      && t.agents == s.agents[i := s.agents[i].(pending := s.agents[i].pending[1..], consumed := true)]
                     + [Pushing(c, Key(k.index, true))]
      && t.creatures == s.creatures && t.buckets == s.buckets
  {
    var s0, steps :| Init(s0) && Runs(s0, steps) && After(s0, steps) == s;
    RunRouted(s0, steps);
    assert AgentRouted(s.agents[i]);
  }
}
