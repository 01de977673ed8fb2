/** Every creature occupies at most one place: an entry of a bucket, or an entry in the hands
    of one agent. A live creature occupies one exactly while `AsyncTaskRunning` is raised. */
module AsyncPlaces {
  import opened AsyncCreature
  import opened AsyncBucket
  import opened AsyncProtocol

  datatype Place = Queue(k: Key) | Hand(i: nat)

  /** The references an agent holds outside every bucket. */
  function Held(a: Agent): seq<CreatureId> {
    match a
    case Pushing(c, _) => [c]
    case Releasing(rejected) => rejected
    case Running(_, pending, _, _, work) => if work.Executing? then [work.c] + pending else pending
    case _ => []
  }

  function Contents(s: State, p: Place): seq<CreatureId> {
    match p
    case Queue(k) => if k in s.buckets then s.buckets[k].queue else []
    case Hand(i) => if i < |s.agents| then Held(s.agents[i]) else []
  }

  /** How many entries of creature `c` stand at place `p`. */
  function At(s: State, p: Place, c: CreatureId): nat { multiset(Contents(s, p))[c] }

  ghost predicate Placed(s: State, c: CreatureId) { exists p :: At(s, p, c) > 0 }

  ghost predicate OnePlaceOf(s: State, c: CreatureId) {
    && (forall p :: At(s, p, c) <= 1)
    && (forall p, q :: At(s, p, c) > 0 && At(s, q, c) > 0 ==> p == q)
  }

  ghost predicate OnePlace(s: State) { forall c :: OnePlaceOf(s, c) }

  predicate ExecutesAt(s: State, i: nat, c: CreatureId) {
    i < |s.agents| && s.agents[i].Running? && s.agents[i].work.Executing? && s.agents[i].work.c == c
  }

  ghost predicate RunningMeansPlaced(s: State) {
    forall c :: Live(s, c) ==> (AsyncTaskRunning in s.creatures[c].tasking.flags <==> Placed(s, c))
  }

  ghost predicate ExecutingMeansHeld(s: State) {
    && (forall c :: Live(s, c) && s.creatures[c].tasking.executing ==> exists i: nat :: ExecutesAt(s, i, c))
    && (forall i: nat, c :: ExecutesAt(s, i, c) ==> Live(s, c) && s.creatures[c].tasking.executing)
    && (forall c :: c in s.creatures ==> AsyncTaskRunning !in s.creatures[c].tasking.deferred)
  }

  ghost predicate PlacesKnown(s: State) {
    && s.log.Keys == s.creatures.Keys
    && (forall c :: Placed(s, c) ==> c in s.creatures)
  }

  ghost predicate PlaceInv(s: State) {
    OnePlace(s) && RunningMeansPlaced(s) && ExecutingMeansHeld(s) && PlacesKnown(s)
  }

  // ---- Three ways in which a step changes the places ----

  ghost predicate SameElsewhere(s: State, t: State, p: Place, q: Place) {
    forall r, c :: r != p && r != q ==> At(t, r, c) == At(s, r, c)
  }

  /** Entries move between `p` and `q`, none appears and none is lost. */
  ghost predicate Moves(s: State, t: State, p: Place, q: Place) {
    && p != q && SameElsewhere(s, t, p, q)
    && (forall c :: At(t, p, c) + At(t, q, c) == At(s, p, c) + At(s, q, c))
  }

  /** The one entry of `x` at `p` goes. */
  ghost predicate Drops(s: State, t: State, p: Place, x: CreatureId) {
    && SameElsewhere(s, t, p, p)
    && (forall c :: At(t, p, c) + (if c == x then 1 else 0) == At(s, p, c))
  }

  /** A first entry of `x` appears at `p`. */
  ghost predicate Adds(s: State, t: State, p: Place, x: CreatureId) {
    && SameElsewhere(s, t, p, p)
    && (forall c :: At(t, p, c) == At(s, p, c) + (if c == x then 1 else 0))
  }

  ghost predicate SamePlaces(s: State, t: State) { forall p, c :: At(t, p, c) == At(s, p, c) }

  /** The same, for the counts `f` and `g` of one creature before and after. */
  lemma MoveOne(f: Place -> nat, g: Place -> nat, p: Place, q: Place)
    requires forall r :: f(r) <= 1
    requires forall r, u :: f(r) > 0 && f(u) > 0 ==> r == u
    requires p != q && g(p) + g(q) == f(p) + f(q)
    requires forall r :: r != p && r != q ==> g(r) == f(r)
    ensures forall r :: g(r) <= 1
    ensures forall r, u :: g(r) > 0 && g(u) > 0 ==> r == u
    ensures (exists r :: g(r) > 0) <==> (exists r :: f(r) > 0)
  {
    assert f(p) == 0 || f(q) == 0;
    assert g(p) > 0 || g(q) > 0 <==> f(p) > 0 || f(q) > 0;
    if r :| g(r) > 0 {
      assert f(r) > 0 || f(p) > 0 || f(q) > 0;
    }
    if r :| f(r) > 0 {
      assert g(r) > 0 || g(p) > 0 || g(q) > 0;
    }
    forall r, u | g(r) > 0 && g(u) > 0 ensures r == u {
      assert f(r) > 0 || r == p || r == q;
      assert f(u) > 0 || u == p || u == q;
    }
  }

  lemma MoveFor(s: State, t: State, p: Place, q: Place, c: CreatureId)
    requires OnePlaceOf(s, c) && Moves(s, t, p, q)
    ensures OnePlaceOf(t, c)
    ensures Placed(t, c) <==> Placed(s, c)
  {
    var f := r => At(s, r, c);
    var g := r => At(t, r, c);
    assert forall r :: f(r) == At(s, r, c) <= 1;
    assert forall r :: g(r) == At(t, r, c);
    assert forall r :: r != p && r != q ==> g(r) == f(r);
    MoveOne(f, g, p, q);
    forall r ensures At(t, r, c) <= 1 { assert g(r) <= 1; }
    forall r, u | At(t, r, c) > 0 && At(t, u, c) > 0 ensures r == u { assert g(r) > 0 && g(u) > 0; }
    if Placed(s, c) { var r :| At(s, r, c) > 0; assert f(r) > 0; var u :| g(u) > 0; assert At(t, u, c) > 0; }
    if Placed(t, c) { var r :| At(t, r, c) > 0; assert g(r) > 0; var u :| f(u) > 0; assert At(s, u, c) > 0; }
  }

  lemma MoveKeeps(s: State, t: State, p: Place, q: Place)
    requires OnePlace(s) && Moves(s, t, p, q)
    ensures OnePlace(t)
    ensures forall c :: Placed(t, c) <==> Placed(s, c)
  {
    forall c ensures OnePlaceOf(t, c) && (Placed(t, c) <==> Placed(s, c)) {
      assert OnePlaceOf(s, c);
      MoveFor(s, t, p, q, c);
    }
  }

  lemma DropFor(s: State, t: State, p: Place, x: CreatureId, c: CreatureId)
    requires OnePlaceOf(s, c) && Drops(s, t, p, x)
    ensures OnePlaceOf(t, c)
    ensures Placed(t, c) <==> Placed(s, c) && c != x
  {
    assert At(t, p, c) + (if c == x then 1 else 0) == At(s, p, c);
    assert forall r :: r != p ==> At(t, r, c) == At(s, r, c);
    if c == x {
      assert forall r :: r != p ==> At(s, r, c) == 0;
      assert forall r :: At(t, r, c) == 0;
    } else {
      assert forall r :: At(t, r, c) == At(s, r, c);
    }
  }

  lemma DropKeeps(s: State, t: State, p: Place, x: CreatureId)
    requires OnePlace(s) && Drops(s, t, p, x)
    ensures OnePlace(t)
    ensures forall c :: Placed(t, c) <==> Placed(s, c) && c != x
  {
    forall c ensures OnePlaceOf(t, c) && (Placed(t, c) <==> Placed(s, c) && c != x) {
      assert OnePlaceOf(s, c);
      DropFor(s, t, p, x, c);
    }
  }

  lemma AddFor(s: State, t: State, p: Place, x: CreatureId, c: CreatureId)
    requires OnePlaceOf(s, c) && Adds(s, t, p, x) && !Placed(s, x)
    ensures OnePlaceOf(t, c)
    ensures Placed(t, c) <==> Placed(s, c) || c == x
  {
    assert At(t, p, c) == At(s, p, c) + (if c == x then 1 else 0);
    assert forall r :: r != p ==> At(t, r, c) == At(s, r, c);
    if c == x {
      assert forall r :: At(s, r, c) == 0;
      assert At(t, p, c) > 0;
    } else {
      assert forall r :: At(t, r, c) == At(s, r, c);
    }
  }

  lemma AddKeeps(s: State, t: State, p: Place, x: CreatureId)
    requires OnePlace(s) && Adds(s, t, p, x) && !Placed(s, x)
    ensures OnePlace(t)
    ensures forall c :: Placed(t, c) <==> Placed(s, c) || c == x
  {
    forall c ensures OnePlaceOf(t, c) && (Placed(t, c) <==> Placed(s, c) || c == x) {
      assert OnePlaceOf(s, c);
      AddFor(s, t, p, x, c);
    }
  }

  lemma SameKeeps(s: State, t: State)
    requires OnePlace(s) && SamePlaces(s, t)
    ensures OnePlace(t)
    ensures forall c :: Placed(t, c) <==> Placed(s, c)
  {
    forall c ensures OnePlaceOf(t, c) && (Placed(t, c) <==> Placed(s, c)) {
      assert OnePlaceOf(s, c);
      if Placed(s, c) { var r :| At(s, r, c) > 0; assert At(t, r, c) > 0; }
      if Placed(t, c) { var r :| At(t, r, c) > 0; assert At(s, r, c) > 0; }
    }
  }

  /** `Hand(|s.agents|)` is where a new pusher stands. */
  lemma AppendAdds(s: State, t: State, x: CreatureId, k: Key)
    requires t.buckets == s.buckets && t.agents == s.agents + [Pushing(x, k)]
    ensures Adds(s, t, Hand(|s.agents|), x)
  {
    forall r, c ensures At(t, r, c) == At(s, r, c) + (if c == x && r == Hand(|s.agents|) then 1 else 0) {
      if r == Hand(|s.agents|) {
        assert Contents(t, r) == [x];
      } else {
        assert Contents(t, r) == Contents(s, r);
      }
    }
  }

  /** Only agent `i` and bucket `k` change what they hold. */
  lemma OnlyTwoChange(s: State, t: State, i: nat, k: Key)
    requires i < |s.agents| && |t.agents| == |s.agents|
    requires forall j :: 0 <= j < |s.agents| && j != i ==> t.agents[j] == s.agents[j]
    requires t.buckets.Keys == s.buckets.Keys
    requires forall m :: m in s.buckets && m != k ==> t.buckets[m] == s.buckets[m]
    ensures SameElsewhere(s, t, Hand(i), Queue(k))
  {
    forall r, c | r != Hand(i) && r != Queue(k) ensures At(t, r, c) == At(s, r, c) {
      assert Contents(t, r) == Contents(s, r);
    }
  }

  lemma PlaceInit(s: State)
    requires Init(s)
    ensures PlaceInv(s)
  {
    forall p, c ensures At(s, p, c) == 0 {
      assert Contents(s, p) == [];
    }
    forall c ensures OnePlaceOf(s, c) { }
  }

  ghost function Both(s: State, i: nat, k: Key): multiset<CreatureId> {
    multiset(Contents(s, Hand(i))) + multiset(Contents(s, Queue(k)))
  }

  lemma PushConserves(s: State, i: nat)
    requires Enabled(s, Push(i))
    ensures Both(Next(s, Push(i)), i, s.agents[i].key) == Both(s, i, s.agents[i].key)
  {
    var t, k := Next(s, Push(i)), s.agents[i].key;
    assert t.buckets[k].queue == s.buckets[k].queue + Held(s.agents[i]);
    assert Held(t.agents[i]) == [];
  }

  lemma RollbackConserves(s: State, i: nat)
    requires Enabled(s, Rollback(i))
    ensures Both(Next(s, Rollback(i)), i, s.agents[i].key) == Both(s, i, s.agents[i].key)
  {
    var t, k := Next(s, Rollback(i)), s.agents[i].key;
    assert t.buckets[k].queue == [] && Held(t.agents[i]) == s.buckets[k].queue;
  }

  lemma TakeConserves(s: State, i: nat, limit: nat)
    requires Enabled(s, Take(i, limit))
    ensures Both(Next(s, Take(i, limit)), i, s.agents[i].key) == Both(s, i, s.agents[i].key)
  {
    var t, k := Next(s, Take(i, limit)), s.agents[i].key;
    assert Held(s.agents[i]) == [];
    assert Contents(s, Queue(k)) == Contents(t, Hand(i)) + Contents(t, Queue(k));
  }

  lemma PutBackConserves(s: State, i: nat)
    requires Enabled(s, PutBack(i))
    ensures Both(Next(s, PutBack(i)), i, s.agents[i].key) == Both(s, i, s.agents[i].key)
  {
    var t, k := Next(s, PutBack(i)), s.agents[i].key;
    assert t.buckets[k].queue == Held(s.agents[i]) + s.buckets[k].queue;
    assert Held(t.agents[i]) == [];
  }

  /** The four bucket steps move entries between one agent and one bucket. */
  lemma BucketStepMoves(s: State, st: Step)
    requires Enabled(s, st) && (st.Push? || st.Rollback? || st.Take? || st.PutBack?)
    ensures Moves(s, Next(s, st), Hand(st.i), Queue(s.agents[st.i].key))
  {
    var t := Next(s, st);
    var i := st.i;
    var k := s.agents[i].key;
    OnlyTwoChange(s, t, i, k);
    assert Both(t, i, k) == Both(s, i, k) by {
      if st.Push? { PushConserves(s, i); }
      else if st.Rollback? { RollbackConserves(s, i); }
      else if st.Take? { TakeConserves(s, i, st.limit); }
      else { PutBackConserves(s, i); }
    }
    forall c ensures At(t, Hand(i), c) + At(t, Queue(k), c) == At(s, Hand(i), c) + At(s, Queue(k), c) {
      assert Both(t, i, k)[c] == Both(s, i, k)[c];
    }
  }

  // ---- Each step keeps the invariant ----

  lemma SameContents(s: State, t: State)
    requires t.buckets == s.buckets && |t.agents| == |s.agents|
    requires forall i :: 0 <= i < |s.agents| ==> Held(t.agents[i]) == Held(s.agents[i])
    ensures SamePlaces(s, t)
  {
    forall p, c ensures At(t, p, c) == At(s, p, c) {
      assert Contents(t, p) == Contents(s, p);
    }
  }

  /** Agent `i` lets go of the first entry it holds. */
  lemma LetGo(s: State, t: State, i: nat, x: CreatureId)
    requires t.buckets == s.buckets && |t.agents| == |s.agents| && i < |s.agents|
    requires forall j :: 0 <= j < |s.agents| && j != i ==> t.agents[j] == s.agents[j]
    requires Held(s.agents[i]) == [x] + Held(t.agents[i])
    ensures Drops(s, t, Hand(i), x)
  {
    forall r, c | r != Hand(i) ensures At(t, r, c) == At(s, r, c) {
      assert Contents(t, r) == Contents(s, r);
    }
    forall c ensures At(t, Hand(i), c) + (if c == x then 1 else 0) == At(s, Hand(i), c) {
      assert multiset(Held(s.agents[i])) == multiset{x} + multiset(Held(t.agents[i]));
    }
  }

  lemma HeldIsPlaced(s: State, i: nat, c: CreatureId)
    requires i < |s.agents| && c in Held(s.agents[i])
    ensures At(s, Hand(i), c) > 0 && Placed(s, c)
  {
    assert c in Contents(s, Hand(i));
  }

  /** Nobody else executes a creature that agent `i` holds but does not execute. */
  lemma NotExecuting(s: State, i: nat, c: CreatureId)
    requires PlaceInv(s) && i < |s.agents| && c in Held(s.agents[i]) && !ExecutesAt(s, i, c) && Live(s, c)
    ensures !s.creatures[c].tasking.executing
  {
    if s.creatures[c].tasking.executing {
      var j: nat :| ExecutesAt(s, j, c);
      HeldIsPlaced(s, i, c);
      assert OnePlaceOf(s, c);
      HeldIsPlaced(s, j, c);
      assert false;
    }
  }
}
