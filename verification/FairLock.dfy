/**
 The FIFO-fair WAL file lock: tickets are dealt at a caller's first poll, a
 release reserves the lock for the queue head, and a cancelled waiter leaves
 the queue or passes its reservation on.
 */
module FairLock {
  import opened Wrappers

  /** A task that polls; its waker is named by the task. */
  type Task = nat

  datatype Waiter = Waiter(ticket: nat, waker: Task)

  datatype Lock = Lock(held: bool, reservedFor: Option<nat>, nextTicket: nat, queue: seq<Waiter>)

  const FREE := Lock(false, None, 0, [])

  // --- One transition of the lock ----------------------------------------------

  /** Give the lock up: reserve it for the queue head, who is woken. */
  function Released(l: Lock): (Lock, Option<Task>) {
    if l.reservedFor == None && l.queue != [] then
      (l.(held := false, reservedFor := Some(l.queue[0].ticket), queue := l.queue[1..]), Some(l.queue[0].waker))
    else
      (l.(held := false), None)
  }

  datatype Polled = Polled(lock: Lock, ticket: Option<nat>, ready: bool)

  function AfterPoll(l: Lock, ticket: Option<nat>, task: Task): Polled {
    match ticket
    case None =>
      if !l.held && l.reservedFor == None && l.queue == [] then
        Polled(l.(held := true), None, true)
      else
        Polled(l.(nextTicket := l.nextTicket + 1, queue := l.queue + [Waiter(l.nextTicket, task)]),
               Some(l.nextTicket), false)
    case Some(t) =>
      if l.reservedFor == Some(t) then
        Polled(l.(reservedFor := None, held := true), None, true)
      else
        Polled(l.(queue := Refreshed(l.queue, t, task)), ticket, false)
  }

  /** The place of ticket `t`, or the queue's length. */
  function PlaceOf(queue: seq<Waiter>, t: nat): (i: nat)
    ensures i <= |queue|
    ensures i < |queue| ==> queue[i].ticket == t
    ensures forall j :: 0 <= j < i ==> queue[j].ticket != t
  {
    if queue == [] || queue[0].ticket == t then 0 else 1 + PlaceOf(queue[1..], t)
  }

  /** A spurious poll replaces the stored waker and keeps the place. */
  function Refreshed(queue: seq<Waiter>, t: nat, task: Task): (q: seq<Waiter>) {
    var i := PlaceOf(queue, t);
    if i < |queue| then queue[i := Waiter(t, task)] else queue
  }

  function AfterCancel(l: Lock, ticket: Option<nat>): (Lock, Option<Task>) {
    match ticket
    case None => (l, None)
    case Some(t) =>
      if l.reservedFor == Some(t) then
        var l' := l.(reservedFor := None);
        if l.held then (l', None) else Released(l')
      else
        (l.(queue := Without(l.queue, t)), None)
  }

  function Without(queue: seq<Waiter>, t: nat): (q: seq<Waiter>)
    ensures forall w :: w in q <==> w in queue && w.ticket != t
  {
    if queue == [] then []
    else if queue[0].ticket == t then Without(queue[1..], t)
    else [queue[0]] + Without(queue[1..], t)
  }

  // --- The lock object ---------------------------------------------------------

  class FairMutex {
    var held: bool
    var reservedFor: Option<nat>
    var nextTicket: nat
    var queue: seq<Waiter>

    function View(): Lock
      reads this
    {
      Lock(held, reservedFor, nextTicket, queue)
    }

    constructor ()
      ensures View() == FREE
    {
      held, reservedFor, nextTicket, queue := false, None, 0, [];
    }

    method Release() returns (woken: Option<Task>)
      modifies this
      ensures (View(), woken) == Released(old(View()))
    {
      held := false;
      woken := None;
      if reservedFor == None && queue != [] {
        var head := queue[0];
        queue := queue[1..];
        reservedFor := Some(head.ticket);
        woken := Some(head.waker);
      }
    }

    /** One poll of a lock future; `ticket` is the future's own field. */
    method Poll(ticket: Option<nat>, task: Task) returns (ticket': Option<nat>, ready: bool)
      modifies this
      ensures Polled(View(), ticket', ready) == AfterPoll(old(View()), ticket, task)
    {
      match ticket
      case None =>
        if !held && reservedFor == None && queue == [] {
          held := true;
          return None, true;
        }
        var mine := nextTicket;
        nextTicket := nextTicket + 1;
        queue := queue + [Waiter(mine, task)];
        return Some(mine), false;
      case Some(t) =>
        if reservedFor == Some(t) {
          reservedFor := None;
          held := true;
          return None, true;
        }
        var i := 0;
        while i < |queue| && queue[i].ticket != t
          invariant 0 <= i <= |queue|
          invariant forall j :: 0 <= j < i ==> queue[j].ticket != t
          invariant View() == old(View())
        {
          i := i + 1;
        }
        assert i == PlaceOf(queue, t);
        if i < |queue| {
          queue := queue[i := Waiter(t, task)];
        }
        return ticket, false;
    }

    /** Dropping a lock future that has not become a guard. */
    method Cancel(ticket: Option<nat>) returns (woken: Option<Task>)
      modifies this
      ensures (View(), woken) == AfterCancel(old(View()), ticket)
    {
      woken := None;
      match ticket
      case None =>
      case Some(t) =>
        if reservedFor == Some(t) {
          reservedFor := None;
          if !held {
            woken := Release();
          }
        } else {
          queue := Without(queue, t);
        }
    }
  }

  // --- Runs --------------------------------------------------------------------

  /** What a task has: a future never polled, a queued or reserved ticket, or the guard. */
  datatype Role = Fresh | Waiting(ticket: nat) | Holding

  /** The lock, its tasks, and the tasks that have an undelivered wake-up. */
  datatype System = System(lock: Lock, tasks: map<Task, Role>, awake: set<Task>)

  datatype Step =
    | Call(task: Task)    // take a lock future
    | Poll(task: Task)    // poll it, spuriously or not
    | Cancel(task: Task)  // drop it
    | Unlock(task: Task)  // drop the guard

  const START := System(FREE, map[], {})

  function TicketOf(role: Role): Option<nat> {
    if role.Waiting? then Some(role.ticket) else None
  }

  function Woken(awake: set<Task>, wake: Option<Task>): set<Task> {
    if wake.Some? then awake + {wake.value} else awake
  }

  /** A step that its task cannot take changes nothing. */
  function Next(s: System, step: Step): System {
    var c := step.task;
    match step
    case Call(_) =>
      if c in s.tasks then s else s.(tasks := s.tasks[c := Fresh])
    case Poll(_) =>
      if c !in s.tasks || s.tasks[c].Holding? then s
      else
        var p := AfterPoll(s.lock, TicketOf(s.tasks[c]), c);
        System(p.lock,
               s.tasks[c := if p.ready then Holding else Waiting(p.ticket.value)],
               s.awake - {c})
    case Cancel(_) =>
      if c !in s.tasks || s.tasks[c].Holding? then s
      else
        var (lock, wake) := AfterCancel(s.lock, TicketOf(s.tasks[c]));
        System(lock, s.tasks - {c}, Woken(s.awake - {c}, wake))
    case Unlock(_) =>
      if c !in s.tasks || !s.tasks[c].Holding? then s
      else
        var (lock, wake) := Released(s.lock);
        System(lock, s.tasks - {c}, Woken(s.awake, wake))
  }

  function Run(s: System, steps: seq<Step>): System
    decreases |steps|
  {
    if steps == [] then s else Run(Next(s, steps[0]), steps[1..])
  }

  // --- What every step keeps -----------------------------------------------------

  predicate Increasing(queue: seq<Waiter>) {
    forall i, j :: 0 <= i < j < |queue| ==> queue[i].ticket < queue[j].ticket
  }

  /** Tickets grow along the queue, stay above a reservation and below the next. */
  predicate Ordered(l: Lock) {
    && Increasing(l.queue)
    && (forall w :: w in l.queue ==> w.ticket < l.nextTicket)
    && (l.reservedFor.Some? ==> l.reservedFor.value < l.nextTicket)
    && (l.reservedFor.Some? ==> forall w :: w in l.queue ==> l.reservedFor.value < w.ticket)
  }

  /** Never held and reserved at once; waiters only behind a holder or a reservation. */
  predicate Handed(l: Lock) {
    && !(l.held && l.reservedFor.Some?)
    && (l.queue != [] ==> l.held || l.reservedFor.Some?)
  }

  predicate AtMostOneGuard(s: System) {
    forall a, b :: a in s.tasks && b in s.tasks && s.tasks[a].Holding? && s.tasks[b].Holding? ==> a == b
  }

  /** The lock says held exactly when some task has the guard. */
  predicate GuardAgrees(s: System) {
    && (s.lock.held ==> exists c :: c in s.tasks && s.tasks[c].Holding?)
    && (forall c :: c in s.tasks && s.tasks[c].Holding? ==> s.lock.held)
  }

  /** A queued entry's waker is the task that waits with its ticket, and conversely. */
  predicate TicketsAgree(s: System) {
    && (forall w :: w in s.lock.queue ==> w.waker in s.tasks && s.tasks[w.waker] == Waiting(w.ticket))
    && (forall c :: c in s.tasks && s.tasks[c].Waiting? ==>
         s.lock.reservedFor == Some(s.tasks[c].ticket) || Waiter(s.tasks[c].ticket, c) in s.lock.queue)
  }

  /** A reservation has exactly one claimant, and its wake-up is still to be acted on. */
  predicate ReservationIsClaimable(s: System) {
    s.lock.reservedFor.Some? ==>
      && (exists c :: c in s.tasks && s.tasks[c] == Waiting(s.lock.reservedFor.value) && c in s.awake)
      && (forall a, b :: a in s.tasks && b in s.tasks && s.tasks[a] == s.tasks[b] == Waiting(s.lock.reservedFor.value)
            ==> a == b)
  }

  predicate Inv(s: System) {
    && Ordered(s.lock)
    && Handed(s.lock)
    && AtMostOneGuard(s)
    && GuardAgrees(s)
    && TicketsAgree(s)
    && ReservationIsClaimable(s)
  }

  /** The lock of a task that gave up the guard, or a reservation, without a successor in place. */
  lemma InvReleased(s: System, lock: Lock)
    requires Ordered(lock) && lock.reservedFor == None && AtMostOneGuard(s) && GuardAgrees(s)
    requires forall c :: c in s.tasks ==> !s.tasks[c].Holding?
    requires TicketsAgree(s.(lock := lock))
    ensures var (l, wake) := Released(lock); Inv(System(l, s.tasks, Woken(s.awake, wake)))
  {
    var (l, wake) := Released(lock);
    var s' := System(l, s.tasks, Woken(s.awake, wake));
    if lock.queue != [] {
      var head := lock.queue[0];
      assert s'.tasks[head.waker] == Waiting(l.reservedFor.value) && head.waker in s'.awake;
      forall c | c in s'.tasks && s'.tasks[c].Waiting? && s'.tasks[c].ticket != head.ticket
        ensures Waiter(s'.tasks[c].ticket, c) in l.queue
      {
        assert Waiter(s'.tasks[c].ticket, c) in lock.queue;
      }
    }
  }

  /** Other tasks keep their roles, so a guard and a claimant among them stay in place. */
  lemma OthersKeepGuardAndClaim(s: System, s': System, c: Task)
    requires Inv(s) && c in s.tasks && !s.tasks[c].Holding?
    requires forall d :: d in s.tasks && d != c ==> d in s'.tasks && s'.tasks[d] == s.tasks[d]
    requires s.awake - {c} <= s'.awake
    ensures s.lock.held ==> exists h :: h in s'.tasks && s'.tasks[h].Holding?
    ensures s.lock.reservedFor.Some? && s.tasks[c] != Waiting(s.lock.reservedFor.value) ==>
              exists r :: r in s'.tasks && s'.tasks[r] == Waiting(s.lock.reservedFor.value) && r in s'.awake
  {
    if s.lock.held {
      var h :| h in s.tasks && s.tasks[h].Holding?;
      assert s'.tasks[h].Holding?;
    }
    if s.lock.reservedFor.Some? && s.tasks[c] != Waiting(s.lock.reservedFor.value) {
      var r :| r in s.tasks && s.tasks[r] == Waiting(s.lock.reservedFor.value) && r in s.awake;
      assert s'.tasks[r] == Waiting(s.lock.reservedFor.value) && r in s'.awake;
    }
  }

  lemma InvQueued(s: System, c: Task, s': System)
    requires Inv(s) && c in s.tasks && s.tasks[c].Fresh? && s' == Next(s, Poll(c)) && s'.tasks[c].Waiting?
    ensures Inv(s')
  {
    OthersKeepGuardAndClaim(s, s', c);
    assert s'.lock.queue == s.lock.queue + [Waiter(s.lock.nextTicket, c)];
  }

  lemma InvTaken(s: System, c: Task, s': System)
    requires Inv(s) && c in s.tasks && s.tasks[c].Fresh? && s' == Next(s, Poll(c)) && !s'.tasks[c].Waiting?
    ensures Inv(s')
  {
    OthersKeepGuardAndClaim(s, s', c);
    assert s'.lock.queue == s.lock.queue;
  }

  lemma InvFirstPoll(s: System, c: Task)
    requires Inv(s) && c in s.tasks && s.tasks[c].Fresh?
    ensures Inv(Next(s, Poll(c)))
  {
    var s' := Next(s, Poll(c));
    if s'.tasks[c].Waiting? {
      InvQueued(s, c, s');
    } else {
      InvTaken(s, c, s');
    }
  }

  lemma InvClaimed(s: System, c: Task, s': System)
    requires Inv(s) && c in s.tasks && s.tasks[c].Waiting? && s.lock.reservedFor == Some(s.tasks[c].ticket)
    requires s' == Next(s, Poll(c))
    ensures Inv(s')
  {
    OthersKeepGuardAndClaim(s, s', c);
    assert s'.tasks[c].Holding?;
  }

  /** A poll of a waiter whose turn has not come changes nothing but its waker. */
  lemma InvLaterPoll(s: System, c: Task)
    requires Inv(s) && c in s.tasks && s.tasks[c].Waiting?
    ensures Inv(Next(s, Poll(c)))
  {
    var s' := Next(s, Poll(c));
    var t := s.tasks[c].ticket;
    if s.lock.reservedFor == Some(t) {
      InvClaimed(s, c, s');
    } else {
      OthersKeepGuardAndClaim(s, s', c);
      assert Waiter(t, c) in s.lock.queue;
      assert s'.lock == s.lock;
      assert s'.tasks == s.tasks;
    }
  }

  lemma InvCancel(s: System, c: Task)
    requires Inv(s) && c in s.tasks && !s.tasks[c].Holding?
    ensures Inv(Next(s, Cancel(c)))
  {
    var s' := Next(s, Cancel(c));
    if s.tasks[c].Waiting? && s.lock.reservedFor == Some(s.tasks[c].ticket) {
      var lock := s.lock.(reservedFor := None);
      InvReleased(System(lock, s.tasks - {c}, s.awake - {c}), lock);
    } else {
      OthersKeepGuardAndClaim(s, s', c);
      if s.tasks[c].Waiting? {
        WithoutIncreasing(s.lock.queue, s.tasks[c].ticket);
      }
    }
  }

  lemma {:induction false} WithoutIncreasing(queue: seq<Waiter>, t: nat)
    requires Increasing(queue)
    ensures Increasing(Without(queue, t))
  {
    if queue != [] {
      WithoutIncreasing(queue[1..], t);
    }
  }

  lemma InvUnlock(s: System, c: Task)
    requires Inv(s) && c in s.tasks && s.tasks[c].Holding?
    ensures Inv(Next(s, Unlock(c)))
  {
    InvReleased(s.(tasks := s.tasks - {c}, lock := s.lock.(held := false)), s.lock.(held := false));
  }

  lemma InvCall(s: System, c: Task)
    requires Inv(s)
    ensures Inv(Next(s, Call(c)))
  {
    var s' := Next(s, Call(c));
    if s.lock.held {
      var h :| h in s.tasks && s.tasks[h].Holding?;
      assert s'.tasks[h].Holding?;
    }
    if s.lock.reservedFor.Some? {
      var r :| r in s.tasks && s.tasks[r] == Waiting(s.lock.reservedFor.value) && r in s.awake;
      assert s'.tasks[r] == Waiting(s.lock.reservedFor.value) && r in s'.awake;
    }
  }

  lemma InvNext(s: System, step: Step)
    requires Inv(s)
    ensures Inv(Next(s, step))
  {
    var c := step.task;
    match step
    case Call(_) => InvCall(s, c);
    case Poll(_) =>
      if c in s.tasks && s.tasks[c].Fresh? {
        InvFirstPoll(s, c);
      } else if c in s.tasks && s.tasks[c].Waiting? {
        InvLaterPoll(s, c);
      }
    case Cancel(_) => if c in s.tasks && !s.tasks[c].Holding? { InvCancel(s, c); }
    case Unlock(_) => if c in s.tasks && s.tasks[c].Holding? { InvUnlock(s, c); }
  }

  /** Mutual exclusion and no stranded lock, in every run of calls, polls, cancellations and unlocks. */
  lemma {:induction false} InvRun(s: System, steps: seq<Step>)
    requires Inv(s)
    ensures Inv(Run(s, steps))
    decreases |steps|
  {
    if steps != [] {
      InvNext(s, steps[0]);
      InvRun(Next(s, steps[0]), steps[1..]);
    }
  }

  lemma EveryRunIsSafe(steps: seq<Step>)
    ensures Inv(Run(START, steps))
  {
    InvRun(START, steps);
  }

  // --- First come, first served ----------------------------------------------------

  /** A task that became the holder, and the ticket it redeemed, if it had one. */
  datatype Grant = Grant(task: Task, ticket: Option<nat>)

  function GrantOf(s: System, step: Step): Option<Grant> {
    var c := step.task;
    if c in s.tasks && !s.tasks[c].Holding? && c in Next(s, step).tasks && Next(s, step).tasks[c].Holding?
    then Some(Grant(c, TicketOf(s.tasks[c]))) else None
  }

  function Grants(s: System, steps: seq<Step>): seq<Grant>
    decreases |steps|
  {
    if steps == [] then []
    else
      var rest := Grants(Next(s, steps[0]), steps[1..]);
      var g := GrantOf(s, steps[0]);
      if g.Some? then [g.value] + rest else rest
  }

  function CountBelow(queue: seq<Waiter>, t: nat): nat {
    if queue == [] then 0 else (if queue[0].ticket < t then 1 else 0) + CountBelow(queue[1..], t)
  }

  /** The live waiters ahead of ticket `t`: those queued before it, and a reservation before it. */
  function Ahead(l: Lock, t: nat): nat {
    CountBelow(l.queue, t) + if l.reservedFor.Some? && l.reservedFor.value < t then 1 else 0
  }

  predicate Waits(s: System, c: Task, t: nat) {
    c in s.tasks && s.tasks[c] == Waiting(t)
  }

  lemma {:induction false} CountBelowAppend(queue: seq<Waiter>, w: Waiter, t: nat)
    ensures CountBelow(queue + [w], t) == CountBelow(queue, t) + if w.ticket < t then 1 else 0
  {
    if queue != [] {
      assert (queue + [w])[1..] == queue[1..] + [w];
      CountBelowAppend(queue[1..], w, t);
    }
  }

  lemma {:induction false} CountBelowWithout(queue: seq<Waiter>, u: nat, t: nat)
    ensures CountBelow(Without(queue, u), t) <= CountBelow(queue, t)
  {
    if queue != [] {
      CountBelowWithout(queue[1..], u, t);
    }
  }

  lemma FirstPollShrinks(s: System, d: Task, c: Task, t: nat)
    requires Inv(s) && Waits(s, c, t) && Waits(Next(s, Poll(d)), c, t) && d in s.tasks && s.tasks[d].Fresh?
    ensures Ahead(Next(s, Poll(d)).lock, t) + (if GrantOf(s, Poll(d)).Some? then 1 else 0) <= Ahead(s.lock, t)
  {
    if Next(s, Poll(d)).tasks[d].Waiting? {
      CountBelowAppend(s.lock.queue, Waiter(s.lock.nextTicket, d), t);
    }
  }

  lemma LaterPollShrinks(s: System, d: Task, c: Task, t: nat)
    requires Inv(s) && Waits(s, c, t) && Waits(Next(s, Poll(d)), c, t) && d in s.tasks && s.tasks[d].Waiting?
    ensures Ahead(Next(s, Poll(d)).lock, t) + (if GrantOf(s, Poll(d)).Some? then 1 else 0) <= Ahead(s.lock, t)
  {
    if s.lock.reservedFor != Some(s.tasks[d].ticket) {
      InvLaterPoll(s, d);
      assert Refreshed(s.lock.queue, s.tasks[d].ticket, d) == s.lock.queue;
    }
  }

  lemma PollShrinks(s: System, d: Task, c: Task, t: nat)
    requires Inv(s) && Waits(s, c, t) && Waits(Next(s, Poll(d)), c, t) && d in s.tasks
    ensures Ahead(Next(s, Poll(d)).lock, t) + (if GrantOf(s, Poll(d)).Some? then 1 else 0) <= Ahead(s.lock, t)
  {
    if s.tasks[d].Fresh? {
      FirstPollShrinks(s, d, c, t);
    } else if s.tasks[d].Waiting? {
      LaterPollShrinks(s, d, c, t);
    }
  }

  lemma CancelShrinks(s: System, d: Task, c: Task, t: nat)
    requires Inv(s) && Waits(s, c, t) && Waits(Next(s, Cancel(d)), c, t) && d in s.tasks
    ensures Ahead(Next(s, Cancel(d)).lock, t) <= Ahead(s.lock, t)
  {
    if s.tasks[d].Waiting? {
      CountBelowWithout(s.lock.queue, s.tasks[d].ticket, t);
    }
  }

  /** A grant while `c` waits goes to the claimant, which is ahead of it. */
  lemma GrantIsAhead(s: System, step: Step, c: Task, t: nat)
    requires Inv(s) && Waits(s, c, t) && Waits(Next(s, step), c, t) && GrantOf(s, step).Some?
    ensures var g := GrantOf(s, step).value;
            g.ticket.Some? && g.ticket == s.lock.reservedFor && g.ticket.value < t && Waits(s, g.task, g.ticket.value)
  {
  }

  /** While `c` waits with `t`, no step puts anyone ahead of it and every grant uses one up. */
  lemma AheadShrinks(s: System, step: Step, c: Task, t: nat)
    requires Inv(s) && Waits(s, c, t) && Waits(Next(s, step), c, t)
    ensures Ahead(Next(s, step).lock, t) + (if GrantOf(s, step).Some? then 1 else 0) <= Ahead(s.lock, t)
    ensures GrantOf(s, step).Some? ==>
              var g := GrantOf(s, step).value;
              g.ticket.Some? && g.ticket == s.lock.reservedFor && g.ticket.value < t && Waits(s, g.task, g.ticket.value)
  {
    if GrantOf(s, step).Some? {
      GrantIsAhead(s, step, c, t);
    }
    if step.task in s.tasks {
      match step
      case Call(_) =>
      case Poll(d) => PollShrinks(s, d, c, t);
      case Cancel(d) => CancelShrinks(s, d, c, t);
      case Unlock(_) =>
    }
  }

  lemma TicketStaysGone(s: System, step: Step, c: Task, t: nat)
    requires Inv(s) && t < s.lock.nextTicket && !Waits(s, c, t)
    ensures t < Next(s, step).lock.nextTicket && !Waits(Next(s, step), c, t)
  {
  }

  /** A redeemed or abandoned ticket never comes back: later tickets are higher. */
  lemma {:induction false} TicketsAreNotReissued(s: System, steps: seq<Step>, c: Task, t: nat)
    requires Inv(s) && t < s.lock.nextTicket && !Waits(s, c, t)
    ensures !Waits(Run(s, steps), c, t)
    decreases |steps|
  {
    if steps != [] {
      InvNext(s, steps[0]);
      TicketStaysGone(s, steps[0], c, t);
      TicketsAreNotReissued(Next(s, steps[0]), steps[1..], c, t);
    }
  }

  /** Grants made in ticket order to tasks that wait in `s` with a ticket between `lo` and `t`. */
  predicate InTicketOrder(s: System, grants: seq<Grant>, lo: int, t: nat) {
    && (forall g :: g in grants ==> g.ticket.Some? && lo < g.ticket.value < t && Waits(s, g.task, g.ticket.value))
    && (forall i, j :: 0 <= i < j < |grants| ==>
          grants[i].ticket.Some? && grants[j].ticket.Some? && grants[i].ticket.value < grants[j].ticket.value)
  }

  /**
   While a task waits, only tasks that were ahead of it when the run began are
   granted the lock, each once and in ticket order, so their number is bounded by
   the live waiters that were ahead.
   */
  lemma {:induction false} NoOvertaking(s: System, steps: seq<Step>, c: Task, t: nat)
    requires Inv(s) && Waits(s, c, t) && Waits(Run(s, steps), c, t)
    ensures InTicketOrder(s, Grants(s, steps), -1, t)
    ensures |Grants(s, steps)| + Ahead(Run(s, steps).lock, t) <= Ahead(s.lock, t)
    decreases |steps|
  {
    if steps != [] {
      var s' := Next(s, steps[0]);
      InvNext(s, steps[0]);
      if !Waits(s', c, t) {
        TicketsAreNotReissued(s', steps[1..], c, t);
        assert false;
      }
      AheadShrinks(s, steps[0], c, t);
      NoOvertaking(s', steps[1..], c, t);
      OrderCarriesBack(s, steps[0], Grants(s', steps[1..]), c, t);
    }
  }

  lemma OrderCarriesBack(s: System, step: Step, rest: seq<Grant>, c: Task, t: nat)
    requires Inv(s) && Waits(s, c, t) && Waits(Next(s, step), c, t)
    requires InTicketOrder(Next(s, step), rest, -1, t)
    ensures InTicketOrder(s, rest, if GrantOf(s, step).Some? then GrantOf(s, step).value.ticket.value else -1, t)
    ensures GrantOf(s, step).Some? ==> InTicketOrder(s, [GrantOf(s, step).value] + rest, -1, t)
  {
    AheadShrinks(s, step, c, t);
    forall g | g in rest
      ensures Waits(s, g.task, g.ticket.value)
    {
      assert Waits(Next(s, step), g.task, g.ticket.value);
    }
  }

  /** The grants still to come before `t`, each a poll and an unlock. */
  function Distance(s: System, t: nat): nat {
    2 * Ahead(s.lock, t) + if s.lock.held then 1 else 0
  }

  /** The holder unlocks: the waiter is one grant's half closer. */
  lemma UnlockActs(s: System, h: Task, c: Task, t: nat)
    requires Inv(s) && Waits(s, c, t) && s.lock.held && h in s.tasks && s.tasks[h].Holding?
    ensures Waits(Next(s, Unlock(h)), c, t) && Distance(Next(s, Unlock(h)), t) < Distance(s, t)
  {
    AheadShrinks(s, Unlock(h), c, t);
  }

  /** The claimant polls: it is the waiter itself, or one grant fewer is left before it. */
  lemma ClaimActs(s: System, r: Task, c: Task, t: nat)
    requires Inv(s) && Waits(s, c, t) && !s.lock.held && s.lock.reservedFor.Some?
    requires r in s.tasks && s.tasks[r] == Waiting(s.lock.reservedFor.value)
    ensures r in Next(s, Poll(r)).tasks && Next(s, Poll(r)).tasks[r].Holding?
    ensures r != c ==> Waits(Next(s, Poll(r)), c, t) && Distance(Next(s, Poll(r)), t) < Distance(s, t)
  {
    if r != c {
      AheadShrinks(s, Poll(r), c, t);
    }
  }

  lemma NextToAct(s: System, c: Task, t: nat) returns (step: Step)
    requires Inv(s) && Waits(s, c, t)
    ensures Inv(Next(s, step))
    ensures step == Poll(c) ==> c in Next(s, step).tasks && Next(s, step).tasks[c].Holding?
    ensures step != Poll(c) ==> Waits(Next(s, step), c, t) && Distance(Next(s, step), t) < Distance(s, t)
  {
    if s.lock.held {
      var h :| h in s.tasks && s.tasks[h].Holding?;
      step := Unlock(h);
      UnlockActs(s, h, c, t);
    } else {
      var r :| r in s.tasks && s.tasks[r] == Waiting(s.lock.reservedFor.value) && r in s.awake;
      step := Poll(r);
      ClaimActs(s, r, c, t);
    }
    InvNext(s, step);
  }

  /** From every reachable state a waiter is reached by unlocking and by polling claimants. */
  lemma Progress(s: System, c: Task, t: nat) returns (steps: seq<Step>)
    requires Inv(s) && Waits(s, c, t)
    ensures c in Run(s, steps).tasks && Run(s, steps).tasks[c].Holding?
    ensures |steps| <= Distance(s, t) + 1
    decreases Distance(s, t)
  {
    var step := NextToAct(s, c, t);
    if step == Poll(c) {
      steps := [step];
      assert Run(s, steps) == Run(Next(s, step), []);
    } else {
      var rest := Progress(Next(s, step), c, t);
      steps := [step] + rest;
      assert steps[1..] == rest;
    }
  }
}
