/** Sliding-window bounds of the teleport guard over whole runs of the guard table. */
module TeleportGuardTheorems {
  import opened TeleportGuard

  // ---- What two consecutive fixed windows admit ----

  /** An admitted teleport: when, in which window, and as the how-manieth attempt in it. */
  datatype Admission = Admission(time: nat, start: nat, pos: nat)

  predicate Linked(a: Admission, b: Admission, length: nat) {
    && a.time <= b.time
    && ((b.start == a.start && b.pos > a.pos) || (b.start >= a.start + length && b.start >= a.time))
  }

  predicate Chain(log: seq<Admission>, limit: nat, length: nat) {
    && (forall i :: 0 <= i < |log| ==>
          1 <= log[i].pos <= limit && log[i].start <= log[i].time && (log[i].pos == 1 ==> log[i].start == log[i].time))
    && (forall i :: 0 <= i < |log| - 1 ==> Linked(log[i], log[i + 1], length))
  }

  lemma {:induction false} ChainApart(log: seq<Admission>, limit: nat, length: nat, i: nat, j: nat)
    requires Chain(log, limit, length) && length > 0 && i < j < |log|
    ensures log[i].time <= log[j].time
    ensures log[j].start == log[i].start ==> log[j].pos >= log[i].pos + (j - i)
    ensures log[j].start != log[i].start ==> log[j].start >= log[i].start + length && log[j].start >= log[i].time
    decreases j - i
  {
    assert Linked(log[j - 1], log[j], length);
    if j - 1 > i {
      ChainApart(log, limit, length, i, j - 1);
    }
  }

  /** A span of one window length holds at most twice the limit less one admissions. */
  lemma TwoWindowBound(log: seq<Admission>, limit: nat, length: nat, i: nat)
    requires Chain(log, limit, length) && length > 0 && limit > 0
    requires i + 2 * limit - 1 < |log|
    ensures log[i + 2 * limit - 1].time >= log[i].time + length
  {
    var last := i + 2 * limit - 1;
    if log[i].pos == 1 {
      var a := i + limit;
      ChainApart(log, limit, length, i, a);
      if a < last { ChainApart(log, limit, length, a, last); }
    } else {
      var a := i + limit - 1;
      if a > i { ChainApart(log, limit, length, i, a); }
      ChainApart(log, limit, length, a, last);
    }
  }

  /** The window `w` continues the chain of what it admitted. */
  predicate Continues(log: seq<Admission>, w: Window, length: nat, now: nat) {
    if log == [] then true
    else
      var a := log[|log| - 1];
      && w.start > 0 && a.time <= now
      && ((w.start == a.start && w.count >= a.pos) || (w.start >= a.start + length && w.start >= a.time))
  }

  predicate WindowOk(w: Window, now: nat) {
    w.start <= now && (w.start > 0 ==> w.count >= 1)
  }

  lemma TickContinues(log: seq<Admission>, w: Window, limit: nat, length: nat, before: nat, now: nat)
    requires Chain(log, limit, length) && Continues(log, w, length, before) && WindowOk(w, before)
    requires before <= now && now > 0 && length > 0
    ensures
      var t := Tick(w, length, now);
      && WindowOk(t, now) && Continues(log, t, length, now)
      && (t.count == 1 ==> t.start == now)
      && (log != [] && t.start == log[|log| - 1].start ==> t.count > log[|log| - 1].pos)
  {
  }

  lemma TickAdmits(log: seq<Admission>, w: Window, limit: nat, length: nat, before: nat, now: nat)
    requires Chain(log, limit, length) && Continues(log, w, length, before) && WindowOk(w, before)
    requires before <= now && now > 0 && length > 0 && Tick(w, length, now).count <= limit
    ensures
      var t := Tick(w, length, now);
      var log' := log + [Admission(now, t.start, t.count)];
      Chain(log', limit, length) && Continues(log', t, length, now)
  {
    TickContinues(log, w, limit, length, before, now);
    var t := Tick(w, length, now);
    var log' := log + [Admission(now, t.start, t.count)];
    forall i | 0 <= i < |log'| - 1 ensures Linked(log'[i], log'[i + 1], length) {
      if i < |log| - 1 { assert Linked(log[i], log[i + 1], length); }
    }
  }

  // ---- The counters stay small ----

  /** The counters are within their bounds, and a block outlasts the window that caused it. */
  predicate CountsOk(s: State) {
    && s.windowCount <= SPAM_LIMIT + 1
    && (s.windowCount == SPAM_LIMIT + 1 ==> s.blockedUntil >= s.windowStart + SPAM_WINDOW_MS)
    && s.sustainedCount <= SUSTAINED_LIMIT + 2
    && (s.sustainedCount == SUSTAINED_LIMIT + 1 ==> s.blockedUntil >= s.sustainedStart + SUSTAINED_BLOCK_MS)
    && (s.sustainedCount == SUSTAINED_LIMIT + 2 ==> s.blockedUntil >= s.sustainedStart + SUSTAINED_WINDOW_MS)
  }

  /** What is kept about one window and the admissions `log` it saw. */
  predicate Tracks(log: seq<Admission>, w: Window, limit: nat, length: nat, now: nat) {
    WindowOk(w, now) && Chain(log, limit, length) && Continues(log, w, length, now)
  }

  /** Everything kept about one key whose admissions so far are `b` and `u`, as the burst and
      the sustained window saw them. */
  predicate KeyOk(s: State, b: seq<Admission>, u: seq<Admission>, now: nat) {
    && CountsOk(s)
    && Tracks(b, Burst(s), SPAM_LIMIT, SPAM_WINDOW_MS, now)
    && Tracks(u, Sustained(s), SUSTAINED_LIMIT, SUSTAINED_WINDOW_MS, now)
  }

  lemma CheckKeepsCounts(s: State, before: nat, now: nat)
    requires CountsOk(s) && WindowOk(Burst(s), before) && WindowOk(Sustained(s), before) && before <= now
    ensures CountsOk(Check(s, now).state)
  {
  }

  /** The admissions after one attempt: one more when the attempt passes. */
  function Extended(log: seq<Admission>, w: Window, length: nat, now: nat, passes: bool): seq<Admission> {
    if passes then var t := Tick(w, length, now); log + [Admission(now, t.start, t.count)] else log
  }

  lemma TracksOn(log: seq<Admission>, w: Window, limit: nat, length: nat, before: nat, now: nat, passes: bool)
    requires Tracks(log, w, limit, length, before) && before <= now && now > 0 && length > 0
    requires passes ==> Tick(w, length, now).count <= limit
    ensures Tracks(Extended(log, w, length, now, passes), Tick(w, length, now), limit, length, now)
  {
    TickContinues(log, w, limit, length, before, now);
    if passes { TickAdmits(log, w, limit, length, before, now); }
  }

  /** An attempt that comes during a block leaves the state alone; any other ticks both windows. */
  lemma CheckTicks(s: State, now: nat)
    ensures s.blockedUntil > now ==>
      Check(s, now).blocked && Burst(Check(s, now).state) == Burst(s) && Sustained(Check(s, now).state) == Sustained(s)
    ensures s.blockedUntil <= now ==>
      var v := Check(s, now);
      && Burst(v.state) == Tick(Burst(s), SPAM_WINDOW_MS, now)
      && Sustained(v.state) == Tick(Sustained(s), SUSTAINED_WINDOW_MS, now)
      && (!v.blocked ==> Burst(v.state).count <= SPAM_LIMIT && Sustained(v.state).count <= SUSTAINED_LIMIT)
  {
  }

  lemma TracksLater(log: seq<Admission>, w: Window, limit: nat, length: nat, before: nat, now: nat)
    requires Tracks(log, w, limit, length, before) && before <= now
    ensures Tracks(log, w, limit, length, now)
  {
  }

  lemma CheckKeepsKey(s: State, b: seq<Admission>, u: seq<Admission>, before: nat, now: nat)
    returns (b': seq<Admission>, u': seq<Admission>)
    requires KeyOk(s, b, u, before) && before <= now && now > 0
    ensures KeyOk(Check(s, now).state, b', u', now)
    ensures Times(b') == Times(b) + (if Check(s, now).blocked then [] else [now])
    ensures Times(u') == Times(u) + (if Check(s, now).blocked then [] else [now])
  {
    if s.blockedUntil > now {
      BlockedKeepsKey(s, b, u, before, now);
      b', u' := b, u;
    } else {
      b', u' := OpenKeepsKey(s, b, u, before, now);
    }
  }

  lemma BlockedKeepsKey(s: State, b: seq<Admission>, u: seq<Admission>, before: nat, now: nat)
    requires KeyOk(s, b, u, before) && before <= now && s.blockedUntil > now
    ensures KeyOk(Check(s, now).state, b, u, now) && Check(s, now).blocked
  {
    CheckKeepsCounts(s, before, now);
    CheckTicks(s, now);
    TracksLater(b, Burst(s), SPAM_LIMIT, SPAM_WINDOW_MS, before, now);
    TracksLater(u, Sustained(s), SUSTAINED_LIMIT, SUSTAINED_WINDOW_MS, before, now);
  }

  lemma OpenKeepsKey(s: State, b: seq<Admission>, u: seq<Admission>, before: nat, now: nat)
    returns (b': seq<Admission>, u': seq<Admission>)
    requires KeyOk(s, b, u, before) && before <= now && now > 0 && s.blockedUntil <= now
    ensures KeyOk(Check(s, now).state, b', u', now)
    ensures Times(b') == Times(b) + (if Check(s, now).blocked then [] else [now])
    ensures Times(u') == Times(u) + (if Check(s, now).blocked then [] else [now])
  {
    CheckKeepsCounts(s, before, now);
    CheckTicks(s, now);
    var passes := !Check(s, now).blocked;
    TracksOn(b, Burst(s), SPAM_LIMIT, SPAM_WINDOW_MS, before, now, passes);
    TracksOn(u, Sustained(s), SUSTAINED_LIMIT, SUSTAINED_WINDOW_MS, before, now, passes);
    b' := Extended(b, Burst(s), SPAM_WINDOW_MS, now, passes);
    u' := Extended(u, Sustained(s), SUSTAINED_WINDOW_MS, now, passes);
    ExtendedTimes(b, Burst(s), SPAM_WINDOW_MS, now, passes);
    ExtendedTimes(u, Sustained(s), SUSTAINED_WINDOW_MS, now, passes);
  }

  lemma ExtendedTimes(log: seq<Admission>, w: Window, length: nat, now: nat, passes: bool)
    ensures Times(Extended(log, w, length, now, passes)) == Times(log) + (if passes then [now] else [])
  {
  }

  function Times(log: seq<Admission>): (r: seq<nat>)
    ensures |r| == |log| && forall i :: 0 <= i < |log| ==> r[i] == log[i].time
  {
    seq(|log|, i requires 0 <= i < |log| => log[i].time)
  }

  // ---- Runs of the whole table ----

  datatype Event = Checked(key: nat, now: nat, blocked: bool) | Recorded(key: nat, now: nat)

  /** One locked call: pruning leaves `p`, then the entry of the event's key moves. */
  predicate Moves(p: Guards, e: Event, g': Guards) {
    match e
    case Checked(k, now, blocked) =>
      g' == p[k := Check(Get(p, k), now).state] && blocked == Check(Get(p, k), now).blocked
    case Recorded(k, now) => g' == p[k := Record(Get(p, k), now).state]
  }

  /** A run: the tables before each event and after the last one, and what each pruning left.
      Times are positive and do not go back. */
  predicate Run(tables: seq<Guards>, pruned: seq<Guards>, events: seq<Event>) {
    && |tables| == |events| + 1 && |pruned| == |events| && tables[0] == map[]
    && (forall i :: 0 <= i < |events| ==>
          && events[i].now > 0
          && Pruned(tables[i], pruned[i], events[i].now) && Moves(pruned[i], events[i], tables[i + 1]))
    && (forall i :: 0 <= i < |events| - 1 ==> events[i].now <= events[i + 1].now)
  }

  predicate NeverEvicted(tables: seq<Guards>, pruned: seq<Guards>, key: nat)
    requires |tables| == |pruned| + 1
  {
    forall i :: 0 <= i < |pruned| && key in tables[i] ==> key in pruned[i]
  }

  /** The times at which `key` was let through. */
  function Admitted(events: seq<Event>, key: nat): seq<nat> {
    if events == [] then []
    else
      var e := events[|events| - 1];
      Admitted(events[..|events| - 1], key) + Passed(e, key)
  }

  function LastTime(events: seq<Event>): nat {
    if events == [] then 0 else events[|events| - 1].now
  }

  /** What event `e` adds to the admitted times of `key`. */
  function Passed(e: Event, key: nat): seq<nat> {
    if e.Checked? && e.key == key && !e.blocked then [e.now] else []
  }

  lemma EventKeepsKey(
      p: Guards, e: Event, g': Guards, key: nat, b: seq<Admission>, u: seq<Admission>, before: nat)
    returns (b': seq<Admission>, u': seq<Admission>)
    requires KeyOk(Get(p, key), b, u, before) && before <= e.now && e.now > 0 && Moves(p, e, g')
    requires Times(b) == Times(u)
    ensures KeyOk(Get(g', key), b', u', e.now)
    ensures Times(b') == Times(u') == Times(b) + Passed(e, key)
  {
    b', u' := b, u;
    if e.Checked? && e.key == key {
      b', u' := CheckKeepsKey(Get(p, key), b, u, before, e.now);
    }
  }

  /** A run without its last event is a run. */
  lemma RunPrefix(tables: seq<Guards>, pruned: seq<Guards>, events: seq<Event>, key: nat)
    requires events != [] && Run(tables, pruned, events) && NeverEvicted(tables, pruned, key)
    ensures
      var n := |events| - 1;
      && Run(tables[..n + 1], pruned[..n], events[..n])
      && NeverEvicted(tables[..n + 1], pruned[..n], key)
  {
  }

  /** The last event of a run, at a key that is never evicted. */
  lemma RunLast(tables: seq<Guards>, pruned: seq<Guards>, events: seq<Event>, key: nat)
    requires events != [] && Run(tables, pruned, events) && NeverEvicted(tables, pruned, key)
    ensures
      var n := |events| - 1;
      && LastTime(events[..n]) <= events[n].now && events[n].now > 0
      && Moves(pruned[n], events[n], tables[n + 1])
      && Get(pruned[n], key) == Get(tables[n], key)
  {
    var n := |events| - 1;
    assert Pruned(tables[n], pruned[n], events[n].now);
  }

  lemma {:induction false} RunKeepsKey(tables: seq<Guards>, pruned: seq<Guards>, events: seq<Event>, key: nat)
    returns (b: seq<Admission>, u: seq<Admission>)
    requires Run(tables, pruned, events) && NeverEvicted(tables, pruned, key)
    ensures KeyOk(Get(tables[|events|], key), b, u, LastTime(events))
    ensures Times(b) == Times(u) == Admitted(events, key)
    decreases |events|
  {
    if events == [] {
      b, u := [], [];
    } else {
      var n := |events| - 1;
      RunPrefix(tables, pruned, events, key);
      RunLast(tables, pruned, events, key);
      b, u := RunKeepsKey(tables[..n + 1], pruned[..n], events[..n], key);
      b, u := EventKeepsKey(pruned[n], events[n], tables[n + 1], key, b, u, LastTime(events[..n]));
    }
  }

  /** For a key that is never evicted, any 20th admission is a second after the first, and
      any 60th ten seconds: a half-open span of one second holds at most 19, one of ten
      seconds at most 59. */
  lemma SlidingWindowBounds(tables: seq<Guards>, pruned: seq<Guards>, events: seq<Event>, key: nat, i: nat)
    requires Run(tables, pruned, events) && NeverEvicted(tables, pruned, key)
    ensures i + 19 < |Admitted(events, key)| ==> Admitted(events, key)[i + 19] >= Admitted(events, key)[i] + 1000
    ensures i + 59 < |Admitted(events, key)| ==> Admitted(events, key)[i + 59] >= Admitted(events, key)[i] + 10000
  {
    var b, u := RunKeepsKey(tables, pruned, events, key);
    if i + 19 < |b| { TwoWindowBound(b, SPAM_LIMIT, SPAM_WINDOW_MS, i); }
    if i + 59 < |u| { TwoWindowBound(u, SUSTAINED_LIMIT, SUSTAINED_WINDOW_MS, i); }
  }

  /** The counters of such a key never leave their range, so 16 bits are plenty. */
  lemma CountersStaySmall(tables: seq<Guards>, pruned: seq<Guards>, events: seq<Event>, key: nat)
    requires Run(tables, pruned, events) && NeverEvicted(tables, pruned, key)
    ensures Get(tables[|events|], key).windowCount <= 11
    ensures Get(tables[|events|], key).sustainedCount <= 32
  {
    var b, u := RunKeepsKey(tables, pruned, events, key);
  }

  // ---- The bounds are met ----

  /** The state of one key after checks at the given times. */
  function CheckAll(s: State, times: seq<nat>): State {
    if times == [] then s else Check(CheckAll(s, times[..|times| - 1]), times[|times| - 1]).state
  }

  predicate AllAdmitted(s: State, times: seq<nat>) {
    forall i :: 0 <= i < |times| ==> !Check(CheckAll(s, times[..i]), times[i]).blocked
  }

  function At(now: nat, n: nat): seq<nat> { seq(n, _ => now) }

  /** The state after `n` checks at one time that all pass. */
  function AfterVolley(s: State, now: nat, n: nat): State {
    if n == 0 then s
    else
      var b, u := Tick(Burst(s), SPAM_WINDOW_MS, now), Tick(Sustained(s), SUSTAINED_WINDOW_MS, now);
      s.(windowStart := b.start, windowCount := b.count + n - 1,
         sustainedStart := u.start, sustainedCount := u.count + n - 1, lastSeen := now)
  }

  predicate RoomFor(s: State, now: nat, n: nat) {
    && s.blockedUntil <= now && now > 0
    && Tick(Burst(s), SPAM_WINDOW_MS, now).count + n <= SPAM_LIMIT + 1
    && Tick(Sustained(s), SUSTAINED_WINDOW_MS, now).count + n <= SUSTAINED_LIMIT + 1
  }

  lemma VolleyStep(s: State, now: nat, n: nat)
    requires RoomFor(s, now, n + 1)
    ensures Check(AfterVolley(s, now, n), now) == Verdict(AfterVolley(s, now, n + 1), false)
  {
  }

  /** `n` checks at one time, all within both limits, all pass. */
  lemma {:induction false} Volley(s: State, now: nat, n: nat)
    requires RoomFor(s, now, n)
    ensures AllAdmitted(s, At(now, n)) && CheckAll(s, At(now, n)) == AfterVolley(s, now, n)
  {
    if n > 0 {
      var times, prefix := At(now, n), At(now, n - 1);
      assert times[..n - 1] == prefix;
      Volley(s, now, n - 1);
      VolleyStep(s, now, n - 1);
      forall i | 0 <= i < n ensures !Check(CheckAll(s, times[..i]), times[i]).blocked {
        if i < n - 1 { assert times[..i] == prefix[..i] && times[i] == prefix[i]; }
      }
    }
  }

  lemma {:induction false} CheckAllConcat(s: State, a: seq<nat>, b: seq<nat>)
    ensures CheckAll(s, a + b) == CheckAll(CheckAll(s, a), b)
    decreases |b|
  {
    if b == [] {
      assert a + b == a;
    } else {
      assert (a + b)[..|a + b| - 1] == a + b[..|b| - 1];
      CheckAllConcat(s, a, b[..|b| - 1]);
    }
  }

  lemma AllAdmittedConcat(s: State, a: seq<nat>, b: seq<nat>)
    requires AllAdmitted(s, a) && AllAdmitted(CheckAll(s, a), b)
    ensures AllAdmitted(s, a + b)
  {
    forall i | 0 <= i < |a + b| ensures !Check(CheckAll(s, (a + b)[..i]), (a + b)[i]).blocked {
      if i < |a| {
        assert (a + b)[..i] == a[..i];
      } else {
        assert (a + b)[..i] == a + b[..i - |a|];
        CheckAllConcat(s, a, b[..i - |a|]);
        assert !Check(CheckAll(CheckAll(s, a), b[..i - |a|]), b[i - |a|]).blocked;
      }
    }
  }

  lemma ThenVolley(s: State, times: seq<nat>, now: nat, n: nat)
    requires AllAdmitted(s, times) && RoomFor(CheckAll(s, times), now, n)
    ensures AllAdmitted(s, times + At(now, n))
    ensures CheckAll(s, times + At(now, n)) == AfterVolley(CheckAll(s, times), now, n)
  {
    Volley(CheckAll(s, times), now, n);
    AllAdmittedConcat(s, times, At(now, n));
    CheckAllConcat(s, times, At(now, n));
  }

  /** Nineteen teleports within one second, after a first one just before it. */
  lemma NineteenInASecond()
    ensures AllAdmitted(UNSEEN, [] + At(1, 1) + At(1000, 9) + At(1001, 10))
  {
    ThenVolley(UNSEEN, [], 1, 1);
    ThenVolley(UNSEEN, [] + At(1, 1), 1000, 9);
    ThenVolley(UNSEEN, [] + At(1, 1) + At(1000, 9), 1001, 10);
  }

  /** Fifty-nine teleports within ten seconds, from 7001 to 12001, after a first one. */
  lemma FiftyNineInTenSeconds()
    ensures AllAdmitted(UNSEEN,
      [] + At(1, 1) + At(7001, 10) + At(8001, 10) + At(9001, 9) + At(10001, 10) + At(11001, 10) + At(12001, 10))
  {
    var t1 := [] + At(1, 1);
    ThenVolley(UNSEEN, [], 1, 1);
    ThenVolley(UNSEEN, t1, 7001, 10);
    var t2 := t1 + At(7001, 10);
    ThenVolley(UNSEEN, t2, 8001, 10);
    var t3 := t2 + At(8001, 10);
    ThenVolley(UNSEEN, t3, 9001, 9);
    var t4 := t3 + At(9001, 9);
    ThenVolley(UNSEEN, t4, 10001, 10);
    var t5 := t4 + At(10001, 10);
    ThenVolley(UNSEEN, t5, 11001, 10);
    ThenVolley(UNSEEN, t5 + At(11001, 10), 12001, 10);
  }

  // ---- What is logged ----

  /** Recording a block never changes what the guard decides later. */
  lemma RecordNeverDecides(s: State, at: nat, now: nat)
    ensures SameWindows(Record(s, at).state, s)
    ensures Check(Record(s, at).state, now).blocked == Check(s, now).blocked
    ensures SameWindows(Check(Record(s, at).state, now).state, Check(s, now).state)
  {
  }

  function RecordAll(s: State, times: seq<nat>): State
    decreases |times|
  {
    if times == [] then s else RecordAll(Record(s, times[0]).state, times[1..])
  }

  /** What is logged when blocks are recorded at these times, and when. */
  function Logged(s: State, times: seq<nat>): seq<Snapshot>
    decreases |times|
  {
    if times == [] then []
    else
      var n := Record(s, times[0]);
      (if n.snapshot.shouldLog then [n.snapshot] else []) + Logged(n.state, times[1..])
  }

  function LogTimes(s: State, times: seq<nat>): seq<nat>
    decreases |times|
  {
    if times == [] then []
    else
      var n := Record(s, times[0]);
      (if n.snapshot.shouldLog then [times[0]] else []) + LogTimes(n.state, times[1..])
  }

  /** The events that some logs report: their own, and those suppressed before. */
  function Reported(logs: seq<Snapshot>): nat {
    if logs == [] then 0 else 1 + logs[0].suppressedLogs + Reported(logs[1..])
  }

  /** Every recorded block is reported by exactly one log, or still counted as suppressed. */
  lemma {:induction false} LogsAccountForEvents(s: State, times: seq<nat>)
    ensures Reported(Logged(s, times)) + RecordAll(s, times).log.suppressed == s.log.suppressed + |times|
    ensures RecordAll(s, times).log.blockedEvents == s.log.blockedEvents + |times|
    decreases |times|
  {
    if times != [] {
      var n := Record(s, times[0]);
      LogsAccountForEvents(n.state, times[1..]);
      var rest := Logged(n.state, times[1..]);
      assert ([n.snapshot] + rest)[1..] == rest && [] + rest == rest;
    }
  }

  /** The pause after the `n`-th log. */
  function Pause(n: nat): nat {
    if n == 0 then LOG_INITIAL_DELAY_MS
    else if Pause(n - 1) * 2 <= LOG_MAX_DELAY_MS then Pause(n - 1) * 2 else LOG_MAX_DELAY_MS
  }

  /** Between consecutive times lies at least the pause after the `n`-th log, and so on. */
  predicate Spaced(times: seq<nat>, n: nat)
    decreases |times|
  {
    |times| <= 1 || (times[1] >= times[0] + Pause(n) && Spaced(times[1..], n + 1))
  }

  /** Logs of one key come at growing distances: each pause doubles, up to the longest. */
  lemma {:induction false} LogsBackOff(s: State, times: seq<nat>, n: nat)
    requires s.log.delay == Pause(n)
    ensures Spaced(LogTimes(s, times), n)
    ensures LogTimes(s, times) != [] ==> LogTimes(s, times)[0] >= s.log.next
    decreases |times|
  {
    if times != [] {
      var note := Record(s, times[0]);
      var rest := LogTimes(note.state, times[1..]);
      if note.snapshot.shouldLog {
        LogsBackOff(note.state, times[1..], n + 1);
        assert ([times[0]] + rest)[1..] == rest;
      } else {
        LogsBackOff(note.state, times[1..], n);
        assert [] + rest == rest;
      }
    }
  }

  // ---- When it blocks, and for how long ----

  /** Outside a block an attempt passes exactly when it is within both limits of its windows. */
  lemma PassesIff(s: State, now: nat)
    requires s.blockedUntil <= now
    ensures !Check(s, now).blocked <==>
      Tick(Burst(s), SPAM_WINDOW_MS, now).count <= 10 && Tick(Sustained(s), SUSTAINED_WINDOW_MS, now).count <= 30
  {
  }

  /** A block that begins at `now` lasts five seconds if the sustained limit is exceeded, one
      second if only the burst limit is; until then nothing passes. */
  lemma BlockLasts(s: State, now: nat, later: nat)
    requires s.blockedUntil <= now <= later && Check(s, now).blocked
    ensures
      var v := Check(s, now);
      var length := if Tick(Sustained(s), SUSTAINED_WINDOW_MS, now).count > 30 then 5000 else 1000;
      && v.state.blockedUntil == now + length
      && (later < now + length ==> Check(v.state, later).blocked)
  {
  }

  /** Once a burst block is over the next attempt passes, unless the sustained limit forbids it:
      the burst window is over by then. */
  lemma BurstBlockEnds(s: State, now: nat, later: nat)
    requires WindowOk(Burst(s), now) && now > 0 && s.blockedUntil <= now && Check(s, now).blocked
    requires Tick(Sustained(s), SUSTAINED_WINDOW_MS, now).count <= 30 && later >= now + 1000
    ensures
      var t := Check(s, now).state;
      !Check(t, later).blocked <==> Tick(Sustained(t), SUSTAINED_WINDOW_MS, later).count <= 30
  {
    assert Tick(Burst(Check(s, now).state), SPAM_WINDOW_MS, later).count == 1;
  }

  /** A record logs exactly when the pause since the last log is over; then the next pause is
      twice as long, up to a minute. */
  lemma LogsWhenDue(s: State, now: nat, later: nat)
    requires Record(s, now).snapshot.shouldLog
    ensures
      var t := Record(s, now).state;
      && (Record(t, later).snapshot.shouldLog <==> later >= now + s.log.delay)
      && t.log.delay == (if s.log.delay * 2 <= 60000 then s.log.delay * 2 else 60000)
      && Record(s, now).snapshot.blockedEvents == s.log.blockedEvents + 1
  {
  }

  // ---- What pruning keeps ----

  /** A key seen in the last minute stays as it is while no more than 4096 such keys are
      tracked; in a larger table every other key goes, and 4096 keys remain at most. */
  lemma PruneKeepsRecent(g: Guards, p: Guards, now: nat, key: nat)
    requires Pruned(g, p, now)
    ensures key in g && now < g[key].lastSeen + 60000 && |set k | k in g && now < g[k].lastSeen + 60000| <= 4096 ==>
      key in p && p[key] == g[key]
    ensures |g| <= 4096 ==> p == g
    ensures |g| > 4096 && key in p ==> key in g && p[key] == g[key] && now < g[key].lastSeen + 60000
    ensures |p| <= 4096
  {
    assert (set k | k in g && now < g[k].lastSeen + 60000) == Unexpired(g, now);
    assert |p.Keys| == |p|;
  }
}
