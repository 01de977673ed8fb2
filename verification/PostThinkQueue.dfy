/** One monster post-think queue (the visible or the background one): its admission counter,
    its id queue and its `scheduled` flag, as interleaved steps. */
module PostThinkQueue {

  const CAPACITY: nat := 16384

  /** One admission of a monster id; the number tells admissions of the same id apart. */
  datatype Ticket = Ticket(number: nat, monsterId: nat)

  datatype Counted = Counted(reserved: nat, ok: bool)

  /** `DispatcherAdmissionCounter`. */
  function TryReserve(reserved: nat, capacity: nat): Counted {
    if reserved < capacity then Counted(reserved + 1, true) else Counted(reserved, false)
  }

  function ReleaseOne(reserved: nat): Counted {
    if reserved > 0 then Counted(reserved - 1, true) else Counted(reserved, false)
  }

  function BatchSize(queue: seq<Ticket>, limit: nat): (n: nat)
    ensures n <= |queue| && n <= limit && (n == |queue| || n == limit)
  {
    if |queue| <= limit then |queue| else limit
  }

  /** The mutable queue object; every method is one lock section or one counter operation. */
  class MonsterPostThinkQueue {
    var monsterIds: seq<Ticket>
    var reserved: nat
    var scheduled: bool

    constructor ()
      ensures monsterIds == [] && reserved == 0 && !scheduled
    {
      monsterIds, reserved, scheduled := [], 0, false;
    }

    method Reserve() returns (ok: bool)
      modifies this`reserved
      ensures Counted(reserved, ok) == TryReserve(old(reserved), CAPACITY)
      ensures ok <==> old(reserved) < CAPACITY
      ensures reserved == old(reserved) + (if ok then 1 else 0)
    {
      ok := false;
      if reserved < CAPACITY {
        reserved := reserved + 1;
        ok := true;
      }
    }

    method Release() returns (ok: bool)
      modifies this`reserved
      ensures Counted(reserved, ok) == ReleaseOne(old(reserved))
      ensures ok <==> old(reserved) > 0
      ensures reserved == old(reserved) - (if ok then 1 else 0)
    {
      ok := false;
      if reserved > 0 {
        reserved := reserved - 1;
        ok := true;
      }
    }

    method Push(t: Ticket) returns (shouldSchedule: bool)
      modifies this`monsterIds, this`scheduled
      ensures monsterIds == old(monsterIds) + [t] && scheduled
      ensures shouldSchedule == !old(scheduled)
    {
      shouldSchedule := false;
      monsterIds := monsterIds + [t];
      if !scheduled {
        scheduled := true;
        shouldSchedule := true;
      }
    }

    method TakeBatch(batchLimit: nat) returns (batch: seq<Ticket>, shouldReschedule: bool)
      modifies this`monsterIds, this`scheduled
      ensures batch == old(monsterIds)[..BatchSize(old(monsterIds), batchLimit)]
      ensures monsterIds == old(monsterIds)[BatchSize(old(monsterIds), batchLimit)..]
      ensures scheduled == shouldReschedule == (monsterIds != [])
    {
      var batchSize := BatchSize(monsterIds, batchLimit);
      batch := [];
      var index := 0;
      while index < batchSize
        invariant index <= batchSize
        invariant batch == old(monsterIds)[..index]
        invariant monsterIds == old(monsterIds)[index..]
      {
        batch := batch + [monsterIds[0]];
        monsterIds := monsterIds[1..];
        index := index + 1;
      }
      shouldReschedule := monsterIds != [];
      scheduled := shouldReschedule;
    }

    method Drain() returns (batch: seq<Ticket>)
      modifies this`monsterIds, this`scheduled
      ensures batch == old(monsterIds) && monsterIds == [] && !scheduled
    {
      batch := monsterIds;
      monsterIds := [];
      scheduled := false;
    }

    /** The release loops after a batch left the queue; each release has to succeed. */
    method ReleaseBatch(count: nat)
      requires count <= reserved
      modifies this`reserved
      ensures reserved == old(reserved) - count
    {
      var index := 0;
      while index < count
        invariant index <= count && reserved == old(reserved) - index
      {
        var released := Release();
        assert released;
        index := index + 1;
      }
    }
  }

  datatype Agent =
    | Idle
    | Reserved(t: Ticket)                       // admitted, not yet pushed
    | Submitting                                // `scheduled` raised, dispatcher not yet asked
    | Event                                     // accepted by the dispatcher, not yet run
    | RollingBack                               // refused by the dispatcher, before the lock
    | Working(left: nat, ids: seq<Ticket>, cancel: bool, reschedule: bool)
      // a batch taken out: `left` releases to make, then `ids` to execute or to cancel

  datatype State = State(
    batchLimit: nat,
    reserved: nat,
    queue: seq<Ticket>,
    scheduled: bool,
    agents: seq<Agent>,
    admitted: seq<Ticket>,     // every ticket ever admitted
    executed: seq<Ticket>,
    cancelled: seq<Ticket>,
    thrown: seq<Ticket>)       // released because the push threw

  datatype Step =
    | Admit(monsterId: nat)
    | Push(i: nat)
    | Throw(i: nat)
    | Answer(i: nat, accepted: bool)
    | Take(i: nat)
    | Cancel(i: nat)
    | Release(i: nat)
    | Handle(i: nat)
    | Finish(i: nat)

  predicate Init(s: State) {
    && s.batchLimit > 0 && s.reserved == 0 && s.queue == [] && !s.scheduled && s.agents == []
    && s.admitted == [] && s.executed == [] && s.cancelled == [] && s.thrown == []
  }

  predicate Enabled(s: State, st: Step) {
    match st
    case Admit(_) => true
    case _ =>
      && st.i < |s.agents|
      && var a := s.agents[st.i];
      match st
      case Push(_) => a.Reserved?
      case Throw(_) => a.Reserved?
      case Answer(_, _) => a.Submitting?
      case Take(_) => a.Event?
      case Cancel(_) => a.RollingBack?
      case Release(_) => a.Working? && a.left > 0
      case Handle(_) => a.Working? && a.left == 0 && a.ids != []
      case Finish(_) => a.Working? && a.left == 0 && a.ids == []
      case Admit(_) => true
  }

  function Next(s: State, st: Step): State
    requires Enabled(s, st)
  {
    match st
    case Admit(id) =>
      var c := TryReserve(s.reserved, CAPACITY);
      if c.ok then
        var t := Ticket(|s.admitted|, id);
        s.(reserved := c.reserved, agents := s.agents + [Reserved(t)], admitted := s.admitted + [t])
      else
        s
    case Push(i) =>
      s.(queue := s.queue + [s.agents[i].t], scheduled := true,
         agents := s.agents[i := if s.scheduled then Idle else Submitting])
    case Throw(i) =>
      s.(reserved := ReleaseOne(s.reserved).reserved, agents := s.agents[i := Idle],
         thrown := s.thrown + [s.agents[i].t])
    case Answer(i, accepted) =>
      s.(agents := s.agents[i := if accepted then Event else RollingBack])
    case Take(i) =>
      var n := BatchSize(s.queue, s.batchLimit);
      var rest := s.queue[n..];
      s.(queue := rest, scheduled := rest != [], agents := s.agents[i := Working(n, s.queue[..n], false, rest != [])])
    case Cancel(i) =>
      s.(queue := [], scheduled := false, agents := s.agents[i := Working(|s.queue|, s.queue, true, false)])
    case Release(i) =>
      var a := s.agents[i];
      s.(reserved := ReleaseOne(s.reserved).reserved, agents := s.agents[i := a.(left := a.left - 1)])
    case Handle(i) =>
      var a := s.agents[i];
      var s1 := s.(agents := s.agents[i := a.(ids := a.ids[1..])]);
      if a.cancel then s1.(cancelled := s.cancelled + [a.ids[0]]) else s1.(executed := s.executed + [a.ids[0]])
    case Finish(i) =>
      s.(agents := s.agents[i := if s.agents[i].reschedule then Submitting else Idle])
  }

  predicate Runs(s: State, steps: seq<Step>)
    decreases |steps|
  {
    steps == [] || (Enabled(s, steps[0]) && Runs(Next(s, steps[0]), steps[1..]))
  }

  function After(s: State, steps: seq<Step>): State
    requires Runs(s, steps)
    decreases |steps|
  {
    if steps == [] then s else After(Next(s, steps[0]), steps[1..])
  }

  ghost predicate Reachable(s: State) {
    exists s0, steps :: Init(s0) && Runs(s0, steps) && After(s0, steps) == s
  }
}
