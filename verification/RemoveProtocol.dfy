/**
 Concurrent calls of `Manager.Remove`, one atomic step at a time. Each call looks
 its task up, fetches or creates the task's mutex in `removeLocks`, locks it,
 checks the task is still there, removes it from the driver and from the manager,
 and on the way out unlocks and deletes the lock entry, although other calls may
 still wait on the old mutex.
 */
module RemoveProtocol {
  import opened Wrappers

  type TaskId = string
  type Mutex = nat

  datatype Outcome = Removed | NotFound | Failed

  /** Where a call is: each value names the last thing it did. */
  datatype Pc =
    | Calling
    | LookedUp
    | Locking(mu: Mutex)
    | Holding(mu: Mutex)
    | Checked(mu: Mutex)
    | DriverRemoved(mu: Mutex)
    | Told(mu: Mutex)
    | Detached(mu: Mutex)
    | Unlocking(mu: Mutex, out: Outcome)
    | Forgetting(out: Outcome)
    | Returned(out: Outcome)

  datatype Call = Call(task: TaskId, pc: Pc)

  /** `made` counts the mutexes created, `held` maps a locked mutex to the call holding it. */
  datatype State = State(
    tasks: set<TaskId>, locks: map<TaskId, Mutex>, made: nat, held: map<Mutex, nat>, calls: seq<Call>)

  /** One step: the call that moves, and whether the driver or store call in it fails. */
  datatype Event = Event(call: nat, fails: bool)

  function Move(s: State, i: nat, pc: Pc): State
    requires i < |s.calls|
  {
    s.(calls := s.calls[i := s.calls[i].(pc := pc)])
  }

  /** The state after a step; None when the call is blocked, has returned, or does not exist. */
  function Next(s: State, e: Event): Option<State> {
    if e.call >= |s.calls| then None
    else
      var i := e.call;
      var t := s.calls[i].task;
      match s.calls[i].pc
      case Calling => Some(Move(s, i, if t in s.tasks then LookedUp else Returned(NotFound)))
      case LookedUp =>
        if t in s.locks then Some(Move(s, i, Locking(s.locks[t])))
        else Some(Move(s.(locks := s.locks[t := s.made], made := s.made + 1), i, Locking(s.made)))
      case Locking(mu) =>
        if mu in s.held then None
        else Some(Move(s.(held := s.held[mu := i]), i, Holding(mu)))
      case Holding(mu) => Some(Move(s, i, if t in s.tasks then Checked(mu) else Unlocking(mu, NotFound)))
      case Checked(mu) => Some(Move(s, i, if e.fails then Unlocking(mu, Failed) else DriverRemoved(mu)))
      case DriverRemoved(mu) => Some(Move(s, i, if e.fails then Unlocking(mu, Failed) else Told(mu)))
      case Told(mu) => Some(Move(s.(tasks := s.tasks - {t}), i, Detached(mu)))
      case Detached(mu) => Some(Move(s, i, Unlocking(mu, if e.fails then Failed else Removed)))
      case Unlocking(mu, out) => Some(Move(s.(held := s.held - {mu}), i, Forgetting(out)))
      case Forgetting(out) => Some(Move(s.(locks := s.locks - {t}), i, Returned(out)))
      case Returned(_) => None
  }

  /** A run: the state after all events, None if one of them was not enabled. */
  function Run(s: State, events: seq<Event>): Option<State>
    decreases |events|
  {
    if events == [] then Some(s)
    else
      match Next(s, events[0])
      case None => None
      case Some(s1) => Run(s1, events[1..])
  }

  /** A driver failure in a call on `t` while the task is still in the manager. */
  predicate EarlyFailure(s: State, e: Event, t: TaskId) {
    && e.fails && e.call < |s.calls| && s.calls[e.call].task == t
    && (s.calls[e.call].pc.Checked? || s.calls[e.call].pc.DriverRemoved?)
  }

  /** No call on `t` fails early in the run; calls on other tasks may. */
  predicate NoEarlyFailure(s: State, events: seq<Event>, t: TaskId)
    decreases |events|
  {
    events != [] ==>
      && !EarlyFailure(s, events[0], t)
      && (Next(s, events[0]).Some? ==> NoEarlyFailure(Next(s, events[0]).value, events[1..], t))
  }

  predicate NoFailure(events: seq<Event>) {
    forall k | 0 <= k < |events| :: !events[k].fails
  }

  /** No call has started and no lock exists. */
  predicate Initial(s: State) {
    s.locks == map[] && s.held == map[] && forall i | 0 <= i < |s.calls| :: s.calls[i].pc == Calling
  }

  /** The call has taken its task out of the manager. */
  predicate Won(pc: Pc) {
    || pc.Detached?
    || (pc.Unlocking? && pc.out != NotFound)
    || (pc.Forgetting? && pc.out != NotFound)
    || (pc.Returned? && pc.out != NotFound)
  }

  predicate Owns(pc: Pc) {
    pc.Holding? || pc.Checked? || pc.DriverRemoved? || pc.Told? || pc.Detached? || pc.Unlocking?
  }

  predicate Inside(pc: Pc) {
    pc.Checked? || pc.DriverRemoved? || pc.Told?
  }

  /** A call holds the mutex it thinks it holds. */
  predicate HoldsOwn(s: State, i: nat)
    requires i < |s.calls|
  {
    var pc := s.calls[i].pc;
    Owns(pc) ==> pc.mu in s.held && s.held[pc.mu] == i
  }

  /** The phase of a call fits whether its task is there, and while it is, its mutex is the one in the table. */
  predicate PhaseFits(s: State, i: nat)
    requires i < |s.calls|
  {
    var t, pc := s.calls[i].task, s.calls[i].pc;
    && (t in s.tasks ==>
          && (pc.Calling? || pc.LookedUp? || pc.Locking? || pc.Holding? || Inside(pc))
          && (!pc.Calling? && !pc.LookedUp? ==> t in s.locks && s.locks[t] == pc.mu))
    && (t !in s.tasks ==> !Inside(pc))
  }

  ghost predicate AllHoldOwn(s: State) {
    forall i | 0 <= i < |s.calls| :: HoldsOwn(s, i)
  }

  /**
   The invariant of a task: all calls hold their mutexes, those on it are in a fitting phase,
   and no two of them have won.
   */
  ghost predicate Inv(s: State, t: TaskId) {
    && AllHoldOwn(s)
    && (forall i | 0 <= i < |s.calls| && s.calls[i].task == t :: PhaseFits(s, i))
    && (forall i, j | 0 <= i < j < |s.calls| && s.calls[i].task == t && s.calls[j].task == t ::
          !(Won(s.calls[i].pc) && Won(s.calls[j].pc)))
  }

  lemma InitialInv(s: State, t: TaskId)
    requires Initial(s)
    ensures Inv(s, t)
  {
  }

  /** Mutexes exclude each other whatever fails. */
  lemma StepKeepsOwn(s: State, e: Event)
    requires AllHoldOwn(s) && Next(s, e).Some?
    ensures AllHoldOwn(Next(s, e).value)
  {
    assert HoldsOwn(s, e.call);
    var s1 := Next(s, e).value;
    forall j | 0 <= j < |s1.calls| ensures HoldsOwn(s1, j) {
      assert HoldsOwn(s, j);
    }
  }

  /** Two calls inside the protected section of one task would hold one mutex. */
  lemma OneInside(s: State, i: nat, j: nat)
    requires i < |s.calls| && Inv(s, s.calls[i].task) && j < |s.calls| && i != j
    requires s.calls[i].task == s.calls[j].task && s.calls[i].task in s.tasks
    requires Inside(s.calls[i].pc)
    ensures !Inside(s.calls[j].pc) && !s.calls[j].pc.Holding?
  {
    assert HoldsOwn(s, i) && HoldsOwn(s, j) && PhaseFits(s, i) && PhaseFits(s, j);
  }

  lemma MoverKept(s: State, e: Event, t: TaskId)
    requires Inv(s, t) && Next(s, e).Some? && !EarlyFailure(s, e, t) && s.calls[e.call].task == t
    ensures PhaseFits(Next(s, e).value, e.call)
  {
    assert PhaseFits(s, e.call);
  }

  lemma OthersKept(s: State, e: Event, t: TaskId, j: nat)
    requires Inv(s, t) && Next(s, e).Some? && !EarlyFailure(s, e, t)
    requires j < |s.calls| && j != e.call && s.calls[j].task == t
    ensures PhaseFits(Next(s, e).value, j)
  {
    assert PhaseFits(s, j);
    if s.calls[e.call].task == t {
      assert PhaseFits(s, e.call);
      if s.calls[e.call].pc.Told? {
        OneInside(s, e.call, j);
      }
    }
  }

  lemma WinsAlone(s: State, e: Event, t: TaskId, j: nat)
    requires Inv(s, t) && Next(s, e).Some? && !EarlyFailure(s, e, t)
    requires j < |s.calls| && j != e.call && s.calls[j].task == s.calls[e.call].task == t && Won(s.calls[j].pc)
    ensures !Won(Next(s, e).value.calls[e.call].pc)
  {
    assert PhaseFits(s, e.call) && PhaseFits(s, j);
    assert !Won(s.calls[e.call].pc);
  }

  lemma {:induction false} StepKeepsInv(s: State, e: Event, t: TaskId)
    requires Inv(s, t) && Next(s, e).Some? && !EarlyFailure(s, e, t)
    ensures Inv(Next(s, e).value, t)
  {
    hide HoldsOwn, PhaseFits, Won;
    StepKeepsOwn(s, e);
    var s1 := Next(s, e).value;
    forall j | 0 <= j < |s1.calls| && s1.calls[j].task == t ensures PhaseFits(s1, j) {
      if j == e.call { MoverKept(s, e, t); } else { OthersKept(s, e, t, j); }
    }
    forall i, j | 0 <= i < j < |s1.calls| && s1.calls[i].task == t && s1.calls[j].task == t
      ensures !(Won(s1.calls[i].pc) && Won(s1.calls[j].pc))
    {
      if i == e.call && Won(s.calls[j].pc) { WinsAlone(s, e, t, j); }
      if j == e.call && Won(s.calls[i].pc) { WinsAlone(s, e, t, i); }
    }
  }

  /** The invariant holds along every run without an early failure of a call on the task. */
  lemma {:induction false} RunKeepsInv(s: State, events: seq<Event>, t: TaskId)
    requires Inv(s, t) && NoEarlyFailure(s, events, t) && Run(s, events).Some?
    ensures Inv(Run(s, events).value, t)
    decreases |events|
  {
    if events != [] {
      StepKeepsInv(s, events[0], t);
      RunKeepsInv(Next(s, events[0]).value, events[1..], t);
    }
  }

  /**
   Any number of concurrent Remove calls, in every interleaving: as long as no driver
   call for a task fails before it is detached, no two calls remove it, whatever happens
   to other tasks.
   */
  lemma AtMostOneRemoves(s: State, events: seq<Event>, t: TaskId, i: nat, j: nat)
    requires Initial(s) && NoEarlyFailure(s, events, t) && Run(s, events).Some?
    requires i < j < |Run(s, events).value.calls|
    ensures var calls := Run(s, events).value.calls;
      calls[i].task == t && calls[j].task == t ==> !(Won(calls[i].pc) && Won(calls[j].pc))
  {
    InitialInv(s, t);
    RunKeepsInv(s, events, t);
  }

  // ---- Exactly one, when nothing fails ----------------------------------------

  /** Without failures a call ends in Removed or NotFound, and a missing task was won by somebody. */
  ghost predicate Clean(s0: State, s: State) {
    && |s.calls| == |s0.calls|
    && (forall i | 0 <= i < |s.calls| :: s.calls[i].task == s0.calls[i].task)
    && (forall i | 0 <= i < |s.calls| :: CleanPc(s.calls[i].pc))
    && (forall i | 0 <= i < |s.calls| :: GaveUp(s.calls[i].pc) ==> s.calls[i].task !in s.tasks)
    && (forall t | t in s0.tasks && t !in s.tasks ::
          exists i :: 0 <= i < |s.calls| && s.calls[i].task == t && Won(s.calls[i].pc))
  }

  predicate CleanPc(pc: Pc) {
    (pc.Unlocking? || pc.Forgetting? || pc.Returned?) ==> pc.out != Failed
  }

  predicate GaveUp(pc: Pc) {
    (pc.Unlocking? || pc.Forgetting? || pc.Returned?) && pc.out == NotFound
  }

  /** A task that goes missing was won by the call that moved. */
  lemma MissingWasWon(s: State, e: Event, t: TaskId)
    requires Next(s, e).Some? && t in s.tasks && t !in Next(s, e).value.tasks
    ensures var c := Next(s, e).value.calls[e.call]; c.task == t && Won(c.pc)
  {
  }

  lemma WinsStay(s: State, e: Event, k: nat)
    requires Next(s, e).Some? && k < |s.calls| && Won(s.calls[k].pc)
    ensures Won(Next(s, e).value.calls[k].pc)
  {
  }

  lemma MoverClean(s0: State, s: State, e: Event)
    requires Clean(s0, s) && Next(s, e).Some? && !e.fails
    ensures var s1 := Next(s, e).value;
      && |s1.calls| == |s.calls| && s1.tasks <= s.tasks
      && (forall j | 0 <= j < |s.calls| :: s1.calls[j].task == s.calls[j].task)
      && (forall j | 0 <= j < |s.calls| && j != e.call :: s1.calls[j] == s.calls[j])
      && CleanPc(s1.calls[e.call].pc)
      && (GaveUp(s1.calls[e.call].pc) ==> s1.calls[e.call].task !in s1.tasks)
  {
    assert CleanPc(s.calls[e.call].pc);
  }

  lemma StepKeepsClean(s0: State, s: State, e: Event)
    requires Clean(s0, s) && Next(s, e).Some? && !e.fails
    ensures Clean(s0, Next(s, e).value)
  {
    var s1 := Next(s, e).value;
    MoverClean(s0, s, e);
    hide Next, Won;
    forall t | t in s0.tasks && t !in s1.tasks
      ensures exists k :: 0 <= k < |s1.calls| && s1.calls[k].task == t && Won(s1.calls[k].pc)
    {
      if t in s.tasks {
        MissingWasWon(s, e, t);
        assert s1.calls[e.call].task == t;
      } else {
        var k :| 0 <= k < |s.calls| && s.calls[k].task == t && Won(s.calls[k].pc);
        WinsStay(s, e, k);
        assert s1.calls[k].task == t;
      }
    }
  }

  lemma {:induction false} RunKeepsClean(s0: State, s: State, events: seq<Event>)
    requires Clean(s0, s) && NoFailure(events) && Run(s, events).Some?
    ensures Clean(s0, Run(s, events).value) && forall t :: NoEarlyFailure(s, events, t)
    decreases |events|
  {
    if events != [] {
      assert !events[0].fails;
      StepKeepsClean(s0, s, events[0]);
      RunKeepsClean(s0, Next(s, events[0]).value, events[1..]);
    }
  }

  /** All calls have returned. */
  predicate Quiet(s: State) {
    forall i | 0 <= i < |s.calls| :: s.calls[i].pc.Returned?
  }

  /**
   With drivers that do not fail, once all calls have returned: of the calls on a
   task that was there at least one, and so exactly one, returned the removed task,
   and every other call returned ErrTaskNotFound.
   */
  lemma ExactlyOneRemoves(s: State, events: seq<Event>, t: TaskId) returns (winner: nat)
    requires Initial(s) && NoFailure(events) && Run(s, events).Some? && Quiet(Run(s, events).value)
    requires t in s.tasks && exists k :: 0 <= k < |s.calls| && s.calls[k].task == t
    ensures var calls := Run(s, events).value.calls;
      && |calls| == |s.calls|
      && winner < |calls| && calls[winner] == Call(t, Returned(Removed))
      && forall j | 0 <= j < |calls| && calls[j].task == t && j != winner :: calls[j].pc == Returned(NotFound)
  {
    assert Clean(s, s);
    RunKeepsClean(s, s, events);
    InitialInv(s, t);
    RunKeepsInv(s, events, t);
    winner := QuietWinner(s, Run(s, events).value, t);
  }

  lemma QuietWinner(s0: State, s: State, t: TaskId) returns (winner: nat)
    requires Inv(s, t) && Clean(s0, s) && Quiet(s)
    requires t in s0.tasks && exists k :: 0 <= k < |s0.calls| && s0.calls[k].task == t
    ensures winner < |s.calls| && s.calls[winner] == Call(t, Returned(Removed))
    ensures forall j | 0 <= j < |s.calls| && s.calls[j].task == t && j != winner :: s.calls[j].pc == Returned(NotFound)
  {
    var k :| 0 <= k < |s0.calls| && s0.calls[k].task == t;
    assert s.calls[k].task == t && s.calls[k].pc.Returned? && PhaseFits(s, k);
    assert t !in s.tasks;
    winner :| 0 <= winner < |s.calls| && s.calls[winner].task == t && Won(s.calls[winner].pc);
    assert CleanPc(s.calls[winner].pc) && s.calls[winner].pc.Returned?;
    forall j | 0 <= j < |s.calls| && s.calls[j].task == t && j != winner
      ensures s.calls[j].pc == Returned(NotFound)
    {
      assert CleanPc(s.calls[j].pc) && s.calls[j].pc.Returned?;
    }
  }

  // ---- What one failing driver call allows --------------------------------------

  /** Appends one enabled step to a run. */
  lemma {:induction false} Extend(s0: State, events: seq<Event>, e: Event)
    requires Run(s0, events).Some? && Next(Run(s0, events).value, e).Some?
    ensures Run(s0, events + [e]) == Next(Run(s0, events).value, e)
    decreases |events|
  {
    if events == [] {
      assert [] + [e] == [e] && [e][1..] == [];
      assert Run(s0, [e]) == Run(Next(s0, e).value, []);
    } else {
      assert (events + [e])[0] == events[0] && (events + [e])[1..] == events[1..] + [e];
      Extend(Next(s0, events[0]).value, events[1..], e);
    }
  }

  /** Call `i` takes one step in a run. */
  lemma Step(s0: State, events: seq<Event>, s: State, e: Event) returns (more: seq<Event>, s1: State)
    requires Run(s0, events) == Some(s) && Next(s, e).Some?
    ensures Next(s, e) == Some(s1) && Run(s0, more) == Some(s1)
  {
    Extend(s0, events, e);
    more, s1 := events + [e], Next(s, e).value;
  }

  /** Only call `i` has moved, to `pc`. */
  predicate Moved(s: State, s1: State, i: nat, pc: Pc) {
    && i < |s.calls| == |s1.calls|
    && s1.calls[i] == Call(s.calls[i].task, pc)
    && forall j | 0 <= j < |s.calls| && j != i :: s1.calls[j] == s.calls[j]
  }

  /** A new call finds its task and fetches or creates the mutex. */
  lemma Arrives(s0: State, events: seq<Event>, s: State, i: nat) returns (more: seq<Event>, s1: State)
    requires Run(s0, events) == Some(s) && i < |s.calls| && s.calls[i].pc == Calling && s.calls[i].task in s.tasks
    ensures Run(s0, more) == Some(s1) && s1.tasks == s.tasks && s1.held == s.held
    ensures var t := s.calls[i].task;
      if t in s.locks then Moved(s, s1, i, Locking(s.locks[t])) && s1.locks == s.locks && s1.made == s.made
      else Moved(s, s1, i, Locking(s.made)) && s1.locks == s.locks[t := s.made] && s1.made == s.made + 1
  {
    more, s1 := Step(s0, events, s, Event(i, false));
    more, s1 := Step(s0, more, s1, Event(i, false));
  }

  /** A waiting call gets a free mutex and finds its task still there. */
  lemma Enters(s0: State, events: seq<Event>, s: State, i: nat) returns (more: seq<Event>, s1: State)
    requires Run(s0, events) == Some(s) && i < |s.calls| && s.calls[i].task in s.tasks
    requires s.calls[i].pc.Locking? && s.calls[i].pc.mu !in s.held
    ensures Run(s0, more) == Some(s1) && Moved(s, s1, i, Checked(s.calls[i].pc.mu))
    ensures s1 == s.(held := s.held[s.calls[i].pc.mu := i], calls := s1.calls)
  {
    more, s1 := Step(s0, events, s, Event(i, false));
    more, s1 := Step(s0, more, s1, Event(i, false));
  }

  /** A call on its way out unlocks and deletes the lock entry of its task. */
  lemma Leaves(s0: State, events: seq<Event>, s: State, i: nat) returns (more: seq<Event>, s1: State)
    requires Run(s0, events) == Some(s) && i < |s.calls| && s.calls[i].pc.Unlocking?
    ensures Run(s0, more) == Some(s1) && Moved(s, s1, i, Returned(s.calls[i].pc.out))
    ensures s1 == s.(held := s.held - {s.calls[i].pc.mu}, locks := s.locks - {s.calls[i].task}, calls := s1.calls)
  {
    more, s1 := Step(s0, events, s, Event(i, false));
    more, s1 := Step(s0, more, s1, Event(i, false));
  }

  /** The driver fails a call, which unlocks and deletes the lock entry of its task. */
  lemma FailsOut(s0: State, events: seq<Event>, s: State, i: nat) returns (more: seq<Event>, s1: State)
    requires Run(s0, events) == Some(s) && i < |s.calls| && s.calls[i].pc.Checked?
    ensures Run(s0, more) == Some(s1) && Moved(s, s1, i, Returned(Failed))
    ensures s1 == s.(held := s.held - {s.calls[i].pc.mu}, locks := s.locks - {s.calls[i].task}, calls := s1.calls)
  {
    more, s1 := Step(s0, events, s, Event(i, true));
    more, s1 := Leaves(s0, more, s1, i);
  }

  /** A call inside the protected section removes the task from the driver. */
  lemma Tells(s0: State, events: seq<Event>, s: State, i: nat) returns (more: seq<Event>, s1: State)
    requires Run(s0, events) == Some(s) && i < |s.calls| && s.calls[i].pc.Checked?
    ensures Run(s0, more) == Some(s1) && Moved(s, s1, i, Told(s.calls[i].pc.mu)) && s1 == s.(calls := s1.calls)
  {
    more, s1 := Step(s0, events, s, Event(i, false));
    more, s1 := Step(s0, more, s1, Event(i, false));
  }

  /** It detaches the task and returns it. */
  lemma Finishes(s0: State, events: seq<Event>, s: State, i: nat) returns (more: seq<Event>, s1: State)
    requires Run(s0, events) == Some(s) && i < |s.calls| && s.calls[i].pc.Told?
    ensures Run(s0, more) == Some(s1) && Moved(s, s1, i, Returned(Removed))
  {
    more, s1 := Step(s0, events, s, Event(i, false));
    more, s1 := Step(s0, more, s1, Event(i, false));
    more, s1 := Leaves(s0, more, s1, i);
  }

  /**
   Failures matter. From every initial state with three
   calls on one task there is a run in which the driver fails one of them and the
   other two both return the removed task: the second waits on the mutex of the
   first, which unlocks it and deletes the lock entry, so the third makes a new one.
   */
  lemma FailureLetsTwoRemove(s0: State, a: nat, b: nat, c: nat) returns (events: seq<Event>)
    requires Initial(s0) && a < b < c < |s0.calls|
    requires s0.calls[a].task == s0.calls[b].task == s0.calls[c].task && s0.calls[a].task in s0.tasks
    ensures Run(s0, events).Some? && !NoEarlyFailure(s0, events, s0.calls[a].task)
    ensures var calls := Run(s0, events).value.calls;
      && |calls| == |s0.calls| && calls[b].task == calls[c].task == s0.calls[a].task
      && calls[b].pc == Returned(Removed) && calls[c].pc == Returned(Removed)
  {
    hide Next;
    events := [];
    var s := s0;
    events, s := Arrives(s0, events, s, a);
    events, s := Enters(s0, events, s, a);
    events, s := Arrives(s0, events, s, b);
    events, s := FailsOut(s0, events, s, a);
    events, s := Enters(s0, events, s, b);
    events, s := Arrives(s0, events, s, c);
    events, s := Enters(s0, events, s, c);
    events, s := Tells(s0, events, s, b);
    events, s := Tells(s0, events, s, c);
    events, s := Finishes(s0, events, s, b);
    events, s := Finishes(s0, events, s, c);
    var t := s0.calls[a].task;
    if NoEarlyFailure(s0, events, t) {
      AtMostOneRemoves(s0, events, t, b, c);
      assert false;
    }
  }

  // ---- How many calls it takes -------------------------------------------------------

  /** The call has detached the task and not failed since: it will return it, or has. */
  predicate Succeeds(pc: Pc) {
    || pc.Detached?
    || ((pc.Unlocking? || pc.Forgetting? || pc.Returned?) && pc.out == Removed)
  }

  predicate FailedOut(pc: Pc) {
    (pc.Unlocking? || pc.Forgetting? || pc.Returned?) && pc.out == Failed
  }

  ghost predicate OneSucceeds(s: State, t: TaskId) {
    forall i, j | 0 <= i < j < |s.calls| && s.calls[i].task == t && s.calls[j].task == t ::
      !(Succeeds(s.calls[i].pc) && Succeeds(s.calls[j].pc))
  }

  /** In every run, with any failures, at most one call removes the task. */
  ghost predicate AtMostOne(s: State, t: TaskId) {
    forall events | Run(s, events).Some? :: OneSucceeds(Run(s, events).value, t)
  }

  ghost predicate ThreeCalls(s: State, t: TaskId) {
    exists a, b, c :: 0 <= a < b < c < |s.calls| && s.calls[a].task == t && s.calls[b].task == t && s.calls[c].task == t
  }

  /** Either nobody has failed on the task, and its invariant holds, or somebody has. */
  ghost predicate InvOrFailed(s: State, t: TaskId) {
    && AllHoldOwn(s)
    && (Inv(s, t) || exists i :: 0 <= i < |s.calls| && s.calls[i].task == t && FailedOut(s.calls[i].pc))
  }

  lemma SameTasks(s: State, e: Event)
    requires Next(s, e).Some?
    ensures var calls := Next(s, e).value.calls;
      |calls| == |s.calls| && forall i | 0 <= i < |s.calls| :: calls[i].task == s.calls[i].task
  {
  }

  lemma FailureStays(s: State, e: Event, i: nat)
    requires Next(s, e).Some? && i < |s.calls| && FailedOut(s.calls[i].pc)
    ensures FailedOut(Next(s, e).value.calls[i].pc)
  {
  }

  lemma EarlyFailureFails(s: State, e: Event, t: TaskId)
    requires Next(s, e).Some? && EarlyFailure(s, e, t)
    ensures FailedOut(Next(s, e).value.calls[e.call].pc)
  {
  }

  lemma StepKeepsOrFails(s: State, e: Event, t: TaskId)
    requires InvOrFailed(s, t) && Next(s, e).Some?
    ensures InvOrFailed(Next(s, e).value, t)
    ensures ThreeCalls(Next(s, e).value, t) ==> ThreeCalls(s, t)
  {
    StepKeepsOwn(s, e);
    SameTasks(s, e);
    hide Next, Inv, AllHoldOwn, FailedOut;
    var s1 := Next(s, e).value;
    if Inv(s, t) {
      if EarlyFailure(s, e, t) {
        EarlyFailureFails(s, e, t);
        assert s1.calls[e.call].task == t;
      } else {
        StepKeepsInv(s, e, t);
      }
    } else {
      var i :| 0 <= i < |s.calls| && s.calls[i].task == t && FailedOut(s.calls[i].pc);
      FailureStays(s, e, i);
      assert s1.calls[i].task == t;
    }
  }

  lemma {:induction false} RunKeepsOrFails(s: State, events: seq<Event>, t: TaskId)
    requires InvOrFailed(s, t) && Run(s, events).Some?
    ensures InvOrFailed(Run(s, events).value, t)
    ensures ThreeCalls(Run(s, events).value, t) ==> ThreeCalls(s, t)
    decreases |events|
  {
    if events != [] {
      StepKeepsOrFails(s, events[0], t);
      RunKeepsOrFails(Next(s, events[0]).value, events[1..], t);
    }
  }

  /** When somebody has failed and two others succeed, there are three calls. */
  lemma TwoAndAFailure(s: State, t: TaskId, i: nat, j: nat)
    requires !Inv(s, t) && InvOrFailed(s, t)
    requires i < j < |s.calls| && s.calls[i].task == t && s.calls[j].task == t
    requires Succeeds(s.calls[i].pc) && Succeeds(s.calls[j].pc)
    ensures ThreeCalls(s, t)
  {
    var k :| 0 <= k < |s.calls| && s.calls[k].task == t && FailedOut(s.calls[k].pc);
    var a, b, c := if k < i then k else i, if k < i then i else if k < j then k else j, if k < j then j else k;
    assert 0 <= a < b < c < |s.calls| && s.calls[a].task == t && s.calls[b].task == t && s.calls[c].task == t;
  }

  lemma FewCallsOneSucceeds(s: State, t: TaskId)
    requires InvOrFailed(s, t) && !ThreeCalls(s, t)
    ensures OneSucceeds(s, t)
  {
    hide ThreeCalls, InvOrFailed;
    forall i, j | 0 <= i < j < |s.calls| && s.calls[i].task == t && s.calls[j].task == t
      ensures !(Succeeds(s.calls[i].pc) && Succeeds(s.calls[j].pc))
    {
      if !Inv(s, t) && Succeeds(s.calls[i].pc) && Succeeds(s.calls[j].pc) {
        TwoAndAFailure(s, t, i, j);
      }
    }
  }

  /**
   The exact condition, which a caller can count: whatever drivers and stores do, at most
   one of the concurrent calls removes a task in every interleaving if and only if no
   three of the calls name it.
   */
  lemma AtMostOneExactly(s: State, t: TaskId)
    requires Initial(s) && t in s.tasks
    ensures AtMostOne(s, t) <==> !ThreeCalls(s, t)
  {
    if ThreeCalls(s, t) {
      var a, b, c :| 0 <= a < b < c < |s.calls| && s.calls[a].task == t && s.calls[b].task == t && s.calls[c].task == t;
      var events := FailureLetsTwoRemove(s, a, b, c);
      var s1 := Run(s, events).value;
      assert Succeeds(s1.calls[b].pc) && Succeeds(s1.calls[c].pc);
      assert !OneSucceeds(s1, t);
    } else {
      InitialInv(s, t);
      forall events | Run(s, events).Some? ensures OneSucceeds(Run(s, events).value, t) {
        RunKeepsOrFails(s, events, t);
        FewCallsOneSucceeds(Run(s, events).value, t);
      }
    }
  }
}
