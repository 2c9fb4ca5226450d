/**
 The workers of one HTTP download. Start spawns a worker with a fresh context and
 stores its cancel function; Pause, Remove, a low-speed stop and the deferred exit of
 any worker call the stored cancel. All of them run under the driver's mutex, so a
 history is a sequence of whole calls, and a worker may outlive the Pause that
 cancelled it, exiting after a later Start.
 */
module WorkerLifecycle {
  import opened Wrappers

  /**
   The driver's record of the task. Worker `c` runs under context `c`; `cancelled[c]`
   tells whether that context was cancelled, `exited` holds the workers that returned.
   */
  datatype Life = Life(
    known: bool, running: bool, paused: bool, removed: bool,
    cancel: Option<nat>, cancelled: seq<bool>, exited: set<nat>)

  datatype Op = Start | Pause | Remove | LowSpeed(worker: nat) | Exit(worker: nat) | Purge

  const ADDED := Life(true, false, false, false, None, [], {})

  predicate Live(s: Life, c: nat) {
    c < |s.cancelled| && !s.cancelled[c]
  }

  /** Calling the stored cancel function, if there is one. */
  function Cancelled(s: Life): Life {
    if s.cancel.Some? && s.cancel.value < |s.cancelled| then s.(cancelled := s.cancelled[s.cancel.value := true]) else s
  }

  predicate Working(s: Life, w: nat) {
    w < |s.cancelled| && w !in s.exited
  }

  /** A worker acts only while it runs, and the manager purges only removed tasks. */
  predicate Enabled(s: Life, op: Op) {
    match op
    case LowSpeed(w) => Working(s, w)
    case Exit(w) => Working(s, w)
    case Purge => s.removed
    case _ => true
  }

  function Apply(s: Life, op: Op): Life {
    match op
    case Start =>
      if !s.known || s.removed || s.running then s
      else s.(running := true, paused := false, cancel := Some(|s.cancelled|), cancelled := s.cancelled + [false])
    case Pause =>
      if !s.known || s.removed then s
      else Cancelled(s).(running := false, paused := true, cancel := None)
    case Remove =>
      if !s.known then s
      else Cancelled(s).(running := false, removed := true, cancel := None)
    case LowSpeed(_) => if !s.known || s.removed then s else Cancelled(s)
    case Exit(w) =>
      if !s.known then s.(exited := s.exited + {w})
      else Cancelled(s).(running := false, cancel := None, exited := s.exited + {w})
    case Purge => s.(known := false)
  }

  /** The outcome of Start, Pause and Remove: ErrTaskNotFound or success. */
  predicate Found(s: Life, op: Op) {
    s.known && (op.Remove? || !s.removed)
  }

  predicate EnabledRun(s: Life, ops: seq<Op>)
    decreases |ops|
  {
    ops != [] ==> Enabled(s, ops[0]) && EnabledRun(Apply(s, ops[0]), ops[1..])
  }

  function Run(s: Life, ops: seq<Op>): Life
    decreases |ops|
  {
    if ops == [] then s else Run(Apply(s, ops[0]), ops[1..])
  }

  /** The driver's state of a task, updated in place. */
  class TaskState {
    var known: bool
    var running: bool
    var paused: bool
    var removed: bool
    var cancel: Option<nat>
    var cancelled: seq<bool>
    var exited: set<nat>

    function Abs(): Life
      reads this
    {
      Life(known, running, paused, removed, cancel, cancelled, exited)
    }

    constructor Add()
      ensures Abs() == ADDED
    {
      known, running, paused, removed := true, false, false, false;
      cancel, cancelled, exited := None, [], {};
    }

    method CallCancel()
      modifies `cancelled
      ensures Abs() == Cancelled(old(Abs()))
    {
      if cancel.Some? && cancel.value < |cancelled| {
        cancelled := cancelled[cancel.value := true];
      }
    }

    method StartDownload() returns (found: bool)
      modifies this
      ensures Abs() == Apply(old(Abs()), Start) && found == Found(old(Abs()), Start)
    {
      if !known || removed {
        return false;
      }
      if running {
        return true;
      }
      cancel := Some(|cancelled|);
      cancelled := cancelled + [false];
      running := true;
      paused := false;
      return true;
    }

    method PauseDownload() returns (found: bool)
      modifies this
      ensures Abs() == Apply(old(Abs()), Pause) && found == Found(old(Abs()), Pause)
    {
      if !known || removed {
        return false;
      }
      paused := true;
      CallCancel();
      cancel := None;
      running := false;
      return true;
    }

    method RemoveDownload() returns (found: bool)
      modifies this
      ensures Abs() == Apply(old(Abs()), Remove) && found == Found(old(Abs()), Remove)
    {
      if !known {
        return false;
      }
      removed := true;
      CallCancel();
      cancel := None;
      running := false;
      return true;
    }

    /** The part of `advanceProgress` that stops a slow download. */
    method StopSlow(w: nat)
      modifies this
      ensures Abs() == Apply(old(Abs()), LowSpeed(w))
    {
      if !known || removed {
        return;
      }
      CallCancel();
    }

    /** The deferred function of `download`. */
    method WorkerExit(w: nat)
      modifies this
      ensures Abs() == Apply(old(Abs()), Exit(w))
    {
      if known {
        running := false;
        CallCancel();
        cancel := None;
      }
      exited := exited + {w};
    }
  }

  // ---- One live worker -----------------------------------------------------------

  /** The only context that can be live is the stored one, and there is none unless running is set. */
  ghost predicate Inv(s: Life) {
    && (forall c: nat | Live(s, c) :: s.cancel == Some(c))
    && (!s.running ==> s.cancel == None)
    && (s.cancel.Some? ==> s.cancel.value < |s.cancelled|)
    && (s.removed ==> !s.running)
    && (!s.known ==> s.removed)
  }

  lemma ApplyKeepsInv(s: Life, op: Op)
    requires Inv(s) && Enabled(s, op)
    ensures Inv(Apply(s, op))
  {
    var s1 := Apply(s, op);
    forall c: nat | Live(s1, c) ensures s1.cancel == Some(c) {
      if c < |s.cancelled| { assert Live(s, c); }
    }
  }

  lemma {:induction false} RunKeepsInv(s: Life, ops: seq<Op>)
    requires Inv(s) && EnabledRun(s, ops)
    ensures Inv(Run(s, ops))
    decreases |ops|
  {
    if ops != [] {
      ApplyKeepsInv(s, ops[0]);
      RunKeepsInv(Apply(s, ops[0]), ops[1..]);
    }
  }

  /**
   In every history of a task, stale workers exiting after a restart included, at most
   one context is live, it is the one whose cancel is stored, and none is unless the
   task is marked running; after Remove none is.
   */
  lemma OneLiveWorker(ops: seq<Op>, c: nat, d: nat)
    requires EnabledRun(ADDED, ops)
    ensures var s := Run(ADDED, ops);
      && (Live(s, c) && Live(s, d) ==> c == d)
      && (Live(s, c) ==> s.cancel == Some(c) && s.running && !s.removed)
  {
    RunKeepsInv(ADDED, ops);
  }

  // ---- How long a pause lasts ------------------------------------------------------

  lemma {:induction false} StaysStopped(s: Life, ops: seq<Op>)
    requires s.paused && !s.running && EnabledRun(s, ops) && forall k | 0 <= k < |ops| :: !ops[k].Start?
    ensures Run(s, ops).paused && !Run(s, ops).running
    decreases |ops|
  {
    if ops != [] {
      StaysStopped(Apply(s, ops[0]), ops[1..]);
    }
  }

  /** A paused task is marked paused and not running from the Pause on, whatever its workers do, until a Start. */
  lemma PauseLasts(s: Life, ops: seq<Op>)
    requires Found(s, Pause) && EnabledRun(Apply(s, Pause), ops) && forall k | 0 <= k < |ops| :: !ops[k].Start?
    ensures Run(Apply(s, Pause), ops).paused && !Run(Apply(s, Pause), ops).running
  {
    StaysStopped(Apply(s, Pause), ops);
  }

  /** A Start that finds the task stopped marks it running and not paused, with a new live worker. */
  lemma StartResumes(s: Life)
    requires Inv(s) && Found(s, Start) && !s.running
    ensures var s1 := Apply(s, Start);
      s1.running && !s1.paused && Live(s1, |s.cancelled|) && s1.cancel == Some(|s.cancelled|)
  {
  }

  // ---- How long a started worker lives ---------------------------------------------

  /** The operations that cancel whatever worker is live. */
  predicate Stops(op: Op) {
    op.Pause? || op.Remove? || op.LowSpeed? || op.Exit?
  }

  predicate NoneStops(ops: seq<Op>) {
    forall k | 0 <= k < |ops| :: !Stops(ops[k])
  }

  /** A cancelled context stays cancelled. */
  lemma {:induction false} DeadStaysDead(s: Life, ops: seq<Op>, c: nat)
    requires c < |s.cancelled| && !Live(s, c)
    ensures !Live(Run(s, ops), c)
    decreases |ops|
  {
    if ops != [] {
      assert s.cancelled[c] && Apply(s, ops[0]).cancelled[c];
      DeadStaysDead(Apply(s, ops[0]), ops[1..], c);
    }
  }

  /**
   A live worker stays live through a history exactly when nothing in it is a Pause, a
   Remove, a low-speed stop or a worker exit: in particular, the exit of any other
   worker of the task ends it.
   */
  lemma {:induction false} LiveUntilStopped(s: Life, ops: seq<Op>, c: nat)
    requires Inv(s) && EnabledRun(s, ops) && Live(s, c)
    ensures Live(Run(s, ops), c) <==> NoneStops(ops)
    decreases |ops|
  {
    if ops != [] {
      var s1 := Apply(s, ops[0]);
      ApplyKeepsInv(s, ops[0]);
      if Stops(ops[0]) {
        assert !Live(s1, c);
        DeadStaysDead(s1, ops[1..], c);
      } else {
        LiveUntilStopped(s1, ops[1..], c);
        assert ops == [ops[0]] + ops[1..];
        assert NoneStops(ops) <==> NoneStops(ops[1..]);
      }
    }
  }

  /** Nobody pauses, removes or stops the task, and worker `c` does not return. */
  predicate Undisturbed(ops: seq<Op>, c: nat) {
    forall k | 0 <= k < |ops| :: !ops[k].Pause? && !ops[k].Remove? && !ops[k].LowSpeed? && ops[k] != Exit(c)
  }

  lemma {:induction false} AloneStays(s: Life, ops: seq<Op>, c: nat)
    requires Inv(s) && Live(s, c) && EnabledRun(s, ops) && Undisturbed(ops, c)
    requires forall w: nat | Working(s, w) :: w == c
    ensures Live(Run(s, ops), c)
    decreases |ops|
  {
    if ops != [] {
      assert ops[0] != Exit(c);
      assert Apply(s, ops[0]) == s;
      assert forall k | 0 <= k < |ops| - 1 :: ops[1..][k] == ops[k + 1];
      AloneStays(s, ops[1..], c);
    }
  }

  /**
   A live worker goes on until it is itself stopped or done, in every history, if and only if
   no other worker of the task is still running.
   */
  lemma LivesItsOwnLife(s: Life, c: nat)
    requires Inv(s) && Live(s, c)
    ensures (forall ops | EnabledRun(s, ops) && Undisturbed(ops, c) :: Live(Run(s, ops), c))
       <==> (forall w: nat | Working(s, w) :: w == c)
  {
    if forall w: nat | Working(s, w) :: w == c {
      forall ops | EnabledRun(s, ops) && Undisturbed(ops, c) ensures Live(Run(s, ops), c) {
        AloneStays(s, ops, c);
      }
    } else {
      var w: nat :| Working(s, w) && w != c;
      var ops := [Exit(w)];
      assert s.cancel == Some(c) && s.known;
      assert ops[1..] == [];
      var s1 := Apply(s, Exit(w));
      assert !Live(s1, c);
      assert Run(s1, []) == s1 && EnabledRun(s1, []);
      assert Run(s, ops) == Run(s1, []) && EnabledRun(s, ops);
      assert Undisturbed(ops, c) && !Live(Run(s, ops), c);
    }
  }

  /**
   What can be checked before a Start that is to spawn a worker: the worker lives until it is
   itself stopped or done, if and only if no earlier worker of the task is still running.
   */
  lemma RestartLastsExactly(s: Life)
    requires Inv(s) && Found(s, Start) && !s.running
    ensures var s1, c := Apply(s, Start), |s.cancelled|;
      && Live(s1, c)
      && ((forall ops | EnabledRun(s1, ops) && Undisturbed(ops, c) :: Live(Run(s1, ops), c))
          <==> (forall w: nat :: !Working(s, w)))
  {
    var s1, c := Apply(s, Start), |s.cancelled|;
    ApplyKeepsInv(s, Start);
    LivesItsOwnLife(s1, c);
    forall w: nat ensures Working(s, w) ==> Working(s1, w) && w != c {
    }
    forall w: nat | Working(s1, w) && w != c ensures Working(s, w) {
    }
  }

  /**
   What that means for a restart: Start, Pause, Start leave worker 1 live; the late exit
   of worker 0 then cancels it and marks the task as not running, with no Pause asked for.
   */
  lemma StaleExitStopsRestart()
    ensures var s := Run(ADDED, [Start, Pause, Start]);
      && Live(s, 1) && s.running && Working(s, 0)
      && var s1 := Apply(s, Exit(0)); !Live(s1, 1) && !s1.running && !s1.paused && Working(s1, 1)
  {
    var a := Apply(ADDED, Start);
    var b := Apply(a, Pause);
    assert [Start, Pause, Start][1..] == [Pause, Start] && [Pause, Start][1..] == [Start] && [Start][1..] == [];
    assert Run(ADDED, [Start, Pause, Start]) == Run(b, [Start]) == Apply(b, Start);
  }
}
