/** The teleport rate guard: a burst window, a sustained window and a block period for every
    tracked thing. Times are milliseconds. */
module TeleportGuard {

  const SPAM_WINDOW_MS: nat := 1000
  const SPAM_LIMIT: nat := 10
  const SPAM_BLOCK_MS: nat := 1000
  const SUSTAINED_WINDOW_MS: nat := 10000
  const SUSTAINED_LIMIT: nat := 30
  const SUSTAINED_BLOCK_MS: nat := 5000
  const STATE_TTL_MS: nat := 60000
  const LOG_INITIAL_DELAY_MS: nat := 1000
  const LOG_MAX_DELAY_MS: nat := 60000
  const MAX_TRACKED_THINGS: nat := 4096

  datatype LogState = LogState(blockedEvents: nat, suppressed: nat, next: nat, delay: nat)

  datatype State = State(
    windowStart: nat, windowCount: nat,
    sustainedStart: nat, sustainedCount: nat,
    blockedUntil: nat, lastSeen: nat, log: LogState)

  const UNSEEN := State(0, 0, 0, 0, 0, 0, LogState(0, 0, 0, LOG_INITIAL_DELAY_MS))

  /** A fixed window: it restarts when it is unused or over, otherwise it counts on. */
  datatype Window = Window(start: nat, count: nat)

  function Tick(w: Window, length: nat, now: nat): Window {
    if w.start == 0 || w.start + length <= now then Window(now, 1) else Window(w.start, w.count + 1)
  }

  function Burst(s: State): Window { Window(s.windowStart, s.windowCount) }

  function Sustained(s: State): Window { Window(s.sustainedStart, s.sustainedCount) }

  datatype Verdict = Verdict(state: State, blocked: bool)

  /** `shouldBlockTeleportRate` on the state of one key. */
  function Check(s: State, now: nat): Verdict {
    var s1 := s.(lastSeen := now);
    if s.blockedUntil > now then Verdict(s1, true)
    else
      var b := Tick(Burst(s), SPAM_WINDOW_MS, now);
      var u := Tick(Sustained(s), SUSTAINED_WINDOW_MS, now);
      var s2 := s1.(
        windowStart := b.start, windowCount := b.count, sustainedStart := u.start, sustainedCount := u.count);
      var exceededSustained := u.count > SUSTAINED_LIMIT;
      if b.count > SPAM_LIMIT || exceededSustained then
        Verdict(s2.(blockedUntil := now + if exceededSustained then SUSTAINED_BLOCK_MS else SPAM_BLOCK_MS), true)
      else
        Verdict(s2, false)
  }

  /** What a caller is told to log: nothing, or how many events there were and how many of
      them since the last log. */
  datatype Snapshot = Snapshot(shouldLog: bool, blockedEvents: nat, suppressedLogs: nat)

  const SILENT := Snapshot(false, 0, 0)

  datatype Note = Note(state: State, snapshot: Snapshot)

  /** `recordTeleportGuardBlock` on the state of one key: only the log bookkeeping moves. */
  function Record(s: State, now: nat): Note {
    var l := s.log.(blockedEvents := s.log.blockedEvents + 1);
    if l.next > now then
      Note(s.(lastSeen := now, log := l.(suppressed := l.suppressed + 1)), SILENT)
    else
      var delay := if l.delay * 2 <= LOG_MAX_DELAY_MS then l.delay * 2 else LOG_MAX_DELAY_MS;
      Note(s.(lastSeen := now, log := LogState(l.blockedEvents, 0, now + l.delay, delay)),
           Snapshot(true, l.blockedEvents, l.suppressed))
  }

  type Guards = map<nat, State>

  predicate Expired(s: State, now: nat) { s.lastSeen + STATE_TTL_MS <= now }

  function Unexpired(g: Guards, now: nat): set<nat> { set k | k in g && !Expired(g[k], now) }

  /** What pruning leaves: everything while the table is small; otherwise all that has not
      expired, cut down to what the table holds, whichever entries that drops. */
  predicate Pruned(g: Guards, p: Guards, now: nat) {
    if |g| <= MAX_TRACKED_THINGS then p == g
    else
      && p.Keys <= Unexpired(g, now)
      && (forall k :: k in p ==> p[k] == g[k])
      && (if |Unexpired(g, now)| <= MAX_TRACKED_THINGS then p.Keys == Unexpired(g, now) else |p| == MAX_TRACKED_THINGS)
  }

  function Get(g: Guards, key: nat): State { if key in g then g[key] else UNSEEN }

  lemma OneLess(g: Guards, k: nat)
    requires k in g
    ensures |g - {k}| == |g| - 1
  {
    assert g.Keys == (g - {k}).Keys + {k};
    assert |g.Keys| == |(g - {k}).Keys| + 1;
  }

  /** The guard table; its lock makes every method one step. */
  class GuardTable {
    var guards: Guards

    constructor ()
      ensures guards == map[]
    {
      guards := map[];
    }

    /** The first loop of the pruning: what has expired goes. */
    method DropExpired(now: nat)
      modifies this
      ensures guards.Keys == Unexpired(old(guards), now)
      ensures forall k :: k in guards ==> guards[k] == old(guards)[k]
    {
      ghost var unexpired := Unexpired(guards, now);
      var left := guards.Keys;
      while left != {}
        invariant left <= guards.Keys && unexpired <= guards.Keys <= unexpired + left
        invariant forall k :: k in guards ==> k in old(guards) && guards[k] == old(guards)[k]
        decreases |left|
      {
        var k :| k in left;
        left := left - {k};
        if Expired(guards[k], now) {
          guards := guards - {k};
        }
      }
      assert guards.Keys == unexpired;
    }

    /** The second loop: while the table is too large, any entry goes. */
    method Shrink()
      modifies this
      ensures guards.Keys <= old(guards).Keys && forall k :: k in guards ==> guards[k] == old(guards)[k]
      ensures |old(guards)| <= MAX_TRACKED_THINGS ==> guards == old(guards)
      ensures |old(guards)| > MAX_TRACKED_THINGS ==> |guards| == MAX_TRACKED_THINGS
    {
      while |guards| > MAX_TRACKED_THINGS
        invariant guards.Keys <= old(guards).Keys
        invariant forall k :: k in guards ==> guards[k] == old(guards)[k]
        invariant |old(guards)| <= MAX_TRACKED_THINGS ==> guards == old(guards)
        invariant |old(guards)| > MAX_TRACKED_THINGS ==> |guards| >= MAX_TRACKED_THINGS
        decreases |guards|
      {
        assert guards.Keys != {};
        var k :| k in guards;
        OneLess(guards, k);
        guards := guards - {k};
      }
    }

    method Prune(now: nat)
      modifies this
      ensures Pruned(old(guards), guards, now)
    {
      if |guards| <= MAX_TRACKED_THINGS {
        return;
      }
      DropExpired(now);
      assert |guards.Keys| == |guards|;
      Shrink();
    }

    method ShouldBlock(key: nat, now: nat) returns (blocked: bool)
      modifies this
      ensures exists p :: Pruned(old(guards), p, now)
                && guards == p[key := Check(Get(p, key), now).state]
                && blocked == Check(Get(p, key), now).blocked
    {
      Prune(now);
      ghost var p := guards;
      var s := Get(guards, key);
      ghost var s0 := s;
      s := s.(lastSeen := now);
      if s.blockedUntil > now {
        guards := guards[key := s];
        return true;
      }
      var exceededBurst := false;
      if s.windowStart == 0 || s.windowStart + SPAM_WINDOW_MS <= now {
        s := s.(windowStart := now, windowCount := 1);
      } else {
        s := s.(windowCount := s.windowCount + 1);
        exceededBurst := s.windowCount > SPAM_LIMIT;
      }
      var exceededSustained := false;
      if s.sustainedStart == 0 || s.sustainedStart + SUSTAINED_WINDOW_MS <= now {
        s := s.(sustainedStart := now, sustainedCount := 1);
      } else {
        s := s.(sustainedCount := s.sustainedCount + 1);
        exceededSustained := s.sustainedCount > SUSTAINED_LIMIT;
      }
      blocked := exceededBurst || exceededSustained;
      if blocked {
        s := s.(blockedUntil := now + if exceededSustained then SUSTAINED_BLOCK_MS else SPAM_BLOCK_MS);
      }
      guards := guards[key := s];
      assert Verdict(s, blocked) == Check(s0, now);
    }

    /** A recorded block moves the log bookkeeping of its key, and the time it was seen, but
        neither its windows nor its block; the other entries only pruning can touch. */
    method RecordBlock(key: nat, now: nat) returns (snapshot: Snapshot)
      modifies this
      ensures exists p :: Pruned(old(guards), p, now)
                && guards == p[key := Record(Get(p, key), now).state] && snapshot == Record(Get(p, key), now).snapshot
      ensures forall k :: k in guards && k != key ==> k in old(guards) && guards[k] == old(guards)[k]
      ensures key in guards && guards[key].lastSeen == now
      ensures |old(guards)| <= MAX_TRACKED_THINGS ==> SameWindows(guards[key], Get(old(guards), key))
    {
      Prune(now);
      ghost var p := guards;
      var s := Get(guards, key);
      ghost var s0 := s;
      s := s.(lastSeen := now, log := s.log.(blockedEvents := s.log.blockedEvents + 1));
      if s.log.next > now {
        s := s.(log := s.log.(suppressed := s.log.suppressed + 1));
        guards := guards[key := s];
        snapshot := SILENT;
      } else {
        snapshot := Snapshot(true, s.log.blockedEvents, s.log.suppressed);
        s := s.(log := s.log.(suppressed := 0));
        s := s.(log := s.log.(next := now + s.log.delay));
        var doubled := s.log.delay * 2;
        s := s.(log := s.log.(delay := if doubled <= LOG_MAX_DELAY_MS then doubled else LOG_MAX_DELAY_MS));
        guards := guards[key := s];
      }
      assert Note(s, snapshot) == Record(s0, now);
      assert guards == p[key := Record(Get(p, key), now).state];
    }
  }

  predicate SameWindows(a: State, b: State) {
    Burst(a) == Burst(b) && Sustained(a) == Sustained(b) && a.blockedUntil == b.blockedUntil
  }
}
