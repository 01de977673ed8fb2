/** A bucket is `scheduled` exactly when one carrier exists that will drain it or roll it
    back, and it is empty when there is none. */
module AsyncCarriers {
  import opened AsyncCreature
  import opened AsyncBucket
  import opened AsyncProtocol

  /** The agents that carry the `scheduled` flag of bucket `k`. */
  predicate Carries(a: Agent, k: Key) {
    match a
    case Submitting(key) => key == k
    case Event(key) => key == k
    case RollingBack(key) => key == k
    case Running(key, _, _, reschedule, _) => key == k && reschedule
    case _ => false
  }

  predicate CarriesAt(s: State, i: nat, k: Key) { i < |s.agents| && Carries(s.agents[i], k) }

  ghost predicate HasCarrier(s: State, k: Key) { exists i: nat :: CarriesAt(s, i, k) }

  predicate KeysOk(a: Agent) {
    match a
    case Pushing(_, k) => ValidKey(k)
    case Submitting(k) => ValidKey(k)
    case Event(k) => ValidKey(k)
    case RollingBack(k) => ValidKey(k)
    case Running(k, _, _, _, _) => ValidKey(k)
    case _ => true
  }

  ghost predicate WellKeyed(s: State) {
    && (forall k :: k in s.buckets <==> ValidKey(k))
    && (forall i :: 0 <= i < |s.agents| ==> KeysOk(s.agents[i]))
  }

  ghost predicate SingleCarrier(s: State) {
    && (forall k :: k in s.buckets && s.buckets[k].scheduled ==> HasCarrier(s, k))
    && (forall i: nat, k :: CarriesAt(s, i, k) ==> k in s.buckets && s.buckets[k].scheduled)
    && (forall i: nat, j: nat, k :: CarriesAt(s, i, k) && CarriesAt(s, j, k) ==> i == j)
    && (forall k :: k in s.buckets && !s.buckets[k].scheduled ==> s.buckets[k].queue == [])
  }

  ghost predicate CarrierInv(s: State) { WellKeyed(s) && SingleCarrier(s) }

  lemma CarrierInit(s: State)
    requires Init(s)
    ensures CarrierInv(s)
  {
  }

  lemma CreatureStepKeyed(s: State, st: Step)
    requires WellKeyed(s) && Enabled(s, st)
    requires st.Spawn? || st.Expire? || st.SetActive? || st.Give? || st.Flip?
    ensures WellKeyed(Next(s, st))
  {
  }

  lemma BucketStepKeyed(s: State, st: Step)
    requires WellKeyed(s) && Enabled(s, st)
    requires st.Push? || st.Answer? || st.Rollback? || st.Take? || st.PutBack? || st.FinishRun?
    ensures WellKeyed(Next(s, st))
  {
    assert KeysOk(s.agents[st.i]) && KeysOk(Next(s, st).agents[st.i]);
  }

  lemma ConsumeKeyed(s: State, i: nat, visible: bool)
    requires WellKeyed(s) && Enabled(s, Consume(i, visible))
    ensures WellKeyed(Next(s, Consume(i, visible)))
  {
    assert KeysOk(s.agents[i]);
  }

  lemma RunStepKeyed(s: State, st: Step)
    requires WellKeyed(s) && Enabled(s, st) && (st.Release? || st.RunTask? || st.FinishTasks? || st.EndExecute?)
    ensures WellKeyed(Next(s, st))
  {
    assert KeysOk(s.agents[st.i]) && KeysOk(Next(s, st).agents[st.i]);
  }

  /** The carriers of every bucket are those of before, except at agent `i`, and `i` is in
      step with the flag of its own bucket. */
  lemma CarrierUpdate(s: State, t: State, i: nat, k: Key)
    requires SingleCarrier(s)
    requires i < |s.agents| <= |t.agents|
    requires forall j :: 0 <= j < |s.agents| && j != i ==> t.agents[j] == s.agents[j]
    requires forall j, m :: |s.agents| <= j < |t.agents| ==> !Carries(t.agents[j], m)
    requires forall m :: m != k ==> !Carries(s.agents[i], m) && !Carries(t.agents[i], m)
    requires t.buckets.Keys == s.buckets.Keys && k in s.buckets
    requires forall m :: m in s.buckets && m != k ==> t.buckets[m] == s.buckets[m]
    requires Carries(s.agents[i], k) || Carries(t.agents[i], k) || t.buckets[k].scheduled == s.buckets[k].scheduled
    requires Carries(t.agents[i], k) ==> t.buckets[k].scheduled && (Carries(s.agents[i], k) || !s.buckets[k].scheduled)
    requires !Carries(t.agents[i], k) && Carries(s.agents[i], k) ==> !t.buckets[k].scheduled
    requires !t.buckets[k].scheduled ==> t.buckets[k].queue == []
    ensures SingleCarrier(t)
  {
    forall m | m in t.buckets && t.buckets[m].scheduled
      ensures HasCarrier(t, m)
    {
      if m == k && Carries(t.agents[i], k) {
        assert CarriesAt(t, i, k);
      } else {
        var j: nat :| CarriesAt(s, j, m);
        assert CarriesAt(t, j, m);
      }
    }
    forall j: nat, m | CarriesAt(t, j, m)
      ensures m in t.buckets && t.buckets[m].scheduled
    {
      if j != i {
        assert CarriesAt(s, j, m);
        if m == k && Carries(s.agents[i], k) { assert CarriesAt(s, i, k); }
      }
    }
    forall j: nat, l: nat, m | CarriesAt(t, j, m) && CarriesAt(t, l, m)
      ensures j == l
    {
      if j != i && l != i {
        assert CarriesAt(s, j, m) && CarriesAt(s, l, m);
      } else if j != l {
        var o := if j == i then l else j;
        assert CarriesAt(s, o, m);
        if Carries(s.agents[i], k) { assert CarriesAt(s, i, k); }
      }
    }
  }

  /** Steps that leave the buckets alone and keep what each agent carries. */
  lemma CarrierFrame(s: State, t: State)
    requires SingleCarrier(s)
    requires |s.agents| <= |t.agents| && t.buckets == s.buckets
    requires forall j, k :: 0 <= j < |s.agents| ==> Carries(t.agents[j], k) == Carries(s.agents[j], k)
    requires forall j, k :: |s.agents| <= j < |t.agents| ==> !Carries(t.agents[j], k)
    ensures SingleCarrier(t)
  {
    forall j: nat, k ensures CarriesAt(t, j, k) == CarriesAt(s, j, k) {
    }
    forall k | k in t.buckets && t.buckets[k].scheduled ensures HasCarrier(t, k) {
      var j: nat :| CarriesAt(s, j, k);
      assert CarriesAt(t, j, k);
    }
  }

  lemma CreatureFrameStep(s: State, st: Step)
    requires CarrierInv(s) && Enabled(s, st)
    requires st.Spawn? || st.Expire? || st.SetActive? || st.Give? || st.Flip?
    ensures CarrierInv(Next(s, st))
  {
    CreatureStepKeyed(s, st);
    CarrierFrame(s, Next(s, st));
  }

  lemma ConsumeFrameStep(s: State, i: nat, visible: bool)
    requires CarrierInv(s) && Enabled(s, Consume(i, visible))
    ensures CarrierInv(Next(s, Consume(i, visible)))
  {
    ConsumeKeyed(s, i, visible);
    CarrierFrame(s, Next(s, Consume(i, visible)));
  }

  lemma RunFrameStep(s: State, st: Step)
    requires CarrierInv(s) && Enabled(s, st) && (st.Release? || st.RunTask? || st.FinishTasks? || st.EndExecute?)
    ensures CarrierInv(Next(s, st))
  {
    RunStepKeyed(s, st);
    CarrierFrame(s, Next(s, st));
  }

  lemma CarrierBucketStep(s: State, st: Step)
    requires CarrierInv(s) && Enabled(s, st)
    requires st.Push? || st.Rollback? || st.Take? || st.PutBack?
    ensures CarrierInv(Next(s, st))
  {
    BucketStepKeyed(s, st);
    var k := s.agents[st.i].key;
    if Carries(s.agents[st.i], k) { assert CarriesAt(s, st.i, k); }
    CarrierUpdate(s, Next(s, st), st.i, k);
  }

  lemma CarrierDispatchStep(s: State, st: Step)
    requires CarrierInv(s) && Enabled(s, st)
    requires st.Answer? || st.FinishRun?
    ensures CarrierInv(Next(s, st))
  {
    BucketStepKeyed(s, st);
    var k := s.agents[st.i].key;
    if Carries(s.agents[st.i], k) { assert CarriesAt(s, st.i, k); }
    CarrierUpdate(s, Next(s, st), st.i, k);
  }

  lemma CarrierStep(s: State, st: Step)
    requires CarrierInv(s) && Enabled(s, st)
    ensures CarrierInv(Next(s, st))
  {
    if st.Push? || st.Rollback? || st.Take? || st.PutBack? {
      CarrierBucketStep(s, st);
    } else if st.Answer? || st.FinishRun? {
      CarrierDispatchStep(s, st);
    } else if st.Consume? {
      ConsumeFrameStep(s, st.i, st.visible);
    } else if st.Release? || st.RunTask? || st.FinishTasks? || st.EndExecute? {
      RunFrameStep(s, st);
    } else {
      CreatureFrameStep(s, st);
    }
  }
}
