/**
 The scheduler as a state machine: every change of the manager's task map is one event.
 A history of events says what the drivers reported and what the manager decided; the
 theorems hold after every event of every history.
 */
module Scheduler {
  import opened Tasks
  import opened Sorting
  import opened Text
  import opened Queue

  /** What a driver's `TellStatus` returns; an empty id of the group or a zero time leaves the manager's own. */
  datatype Report = Report(id: Id, gid: string, status: Status, created: int)

  datatype State = State(tasks: TaskMap, max: int, stoppedTotal: nat)

  datatype Event =
    | Insert(id: Id, task: Task)
    | Started(report: Report)
    | Synced(report: Report)
    | Detached(id: Id)
    | Reordered(ids: seq<Id>, now: int)
    | Limit(max: int)

  /** The task a report leaves: what it leaves open is kept. */
  function Merged(existing: Task, r: Report): Task {
    Task(if r.gid == "" then existing.gid else r.gid, r.status, if r.created == 0 then existing.created else r.created)
  }

  /** `storeTask`: counts a task that stops, and merges the report into it. */
  function Stored(s: State, r: Report): State {
    if r.id in s.tasks then
      var stops := !IsStopped(s.tasks[r.id].status) && IsStopped(r.status);
      State(s.tasks[r.id := Merged(s.tasks[r.id], r)], s.max, s.stoppedTotal + if stops then 1 else 0)
    else s.(tasks := s.tasks[r.id := Task(r.gid, r.status, r.created)])
  }

  function Apply(s: State, e: Event): State {
    match e
    case Insert(id, t) => s.(tasks := s.tasks[id := t])
    case Started(r) => Stored(s, r)
    case Synced(r) => Stored(s, r)
    case Detached(id) => s.(tasks := s.tasks - {id})
    case Reordered(ids, now) => s.(tasks := Stamp(s.tasks, ids, QueueBase(now, |ids|)))
    case Limit(n) => s.(max := n)
  }

  /** The state after a history. */
  function Run(s: State, log: seq<Event>): State {
    if log == [] then s else Apply(Run(s, log[..|log| - 1]), log[|log| - 1])
  }

  /** The report leaves the creation time to the manager, or gives the manager's own. */
  predicate KeepsTime(s: State, r: Report) {
    r.created == 0 || (r.id in s.tasks && r.created == s.tasks[r.id].created)
  }

  /**
   What the drivers promise. A report is on a task the manager has. One that follows a
   successful Start is not waiting; any other never makes a task active, nor waiting again.
   */
  ghost predicate Legal(s: State, e: Event) {
    match e
    case Insert(_, _) => true
    case Started(r) => r.id in s.tasks && KeepsTime(s, r) && r.status != Waiting
    case Synced(r) =>
      && r.id in s.tasks && KeepsTime(s, r)
      && (r.status == Active ==> s.tasks[r.id].status == Active)
      && (r.status == Waiting ==> s.tasks[r.id].status == Waiting)
    case Detached(id) => id in s.tasks
    case Reordered(ids, _) => Lists(ids, QueuedIds(s.tasks))
    case Limit(n) => n > 0
  }

  /** The manager starts a task only into a free slot, adds none that is active, and does not lower the limit. */
  predicate Within(s: State, e: Event) {
    match e
    case Insert(_, t) => t.status != Active
    case Started(_) => NumActive(s.tasks) < s.max
    case Limit(n) => n >= s.max
    case _ => true
  }

  ghost predicate AllLegal(s: State, log: seq<Event>) {
    forall k | 0 <= k < |log| :: Legal(Run(s, log[..k]), log[k])
  }

  /** History `log` continues `was`, staying within the slots. */
  ghost predicate Extends(s: State, was: seq<Event>, log: seq<Event>) {
    was <= log && forall k | |was| <= k < |log| :: Within(Run(s, log[..k]), log[k])
  }

  // ---- Counting -----------------------------------------------------------------------

  function Ids(ts: TaskMap, of: set<Status>): set<Id> {
    set id | id in ts && ts[id].status in of
  }

  function NumActive(ts: TaskMap): nat { |Ids(ts, {Active})| }

  const QUEUED: set<Status> := {Waiting, Paused}
  const STOPPED: set<Status> := {Complete, Errored, Removed}

  function NumStopped(ts: TaskMap): nat { |Ids(ts, STOPPED)| }

  lemma PutIds(ts: TaskMap, id: Id, t: Task, of: set<Status>)
    ensures Ids(ts[id := t], of) == if t.status in of then Ids(ts, of) + {id} else Ids(ts, of) - {id}
    ensures |Ids(ts[id := t], of)|
         == |Ids(ts, of)| - (if id in Ids(ts, of) then 1 else 0) + (if t.status in of then 1 else 0)
  {
    var a, b := Ids(ts, of), Ids(ts[id := t], of);
    assert b == if t.status in of then a + {id} else a - {id};
    if id in a {
      assert a == (a - {id}) + {id};
    }
  }

  lemma DropIds(ts: TaskMap, id: Id, of: set<Status>)
    ensures |Ids(ts - {id}, of)| <= |Ids(ts, of)|
  {
    assert Ids(ts - {id}, of) == Ids(ts, of) - {id};
  }

  lemma StampIds(ts: TaskMap, ids: seq<Id>, base: int, of: set<Status>)
    requires NoDup(ids)
    ensures Ids(Stamp(ts, ids, base), of) == Ids(ts, of)
  {
    StampKeepsQueued(ts, ids, base);
    StampFacts(ts, ids, base);
  }

  lemma StatusGroups(s: Status)
    ensures s == Active || s in QUEUED || s in STOPPED
  {
  }

  /** The three counts of the global statistics are all the tasks. */
  lemma CountsAddUp(ts: TaskMap)
    ensures NumActive(ts) + |Ids(ts, QUEUED)| + NumStopped(ts) == |ts|
  {
    var a, q, x := Ids(ts, {Active}), Ids(ts, QUEUED), Ids(ts, STOPPED);
    forall id ensures id in ts <==> id in a || id in q || id in x {
      if id in ts {
        StatusGroups(ts[id].status);
      }
    }
    assert ts.Keys == a + (q + x);
    assert |a + (q + x)| == |a| + |q + x| && |q + x| == |q| + |x|;
  }

  // ---- The limit --------------------------------------------------------------------------

  predicate IsActive(ts: TaskMap, id: Id) {
    id in ts && ts[id].status == Active
  }

  lemma ActiveAfterPut(ts: TaskMap, id: Id, t: Task)
    ensures NumActive(ts[id := t])
         == NumActive(ts) - (if IsActive(ts, id) then 1 else 0) + (if t.status == Active then 1 else 0)
  {
    PutIds(ts, id, t, {Active});
  }

  lemma ActiveAfterReport(s: State, r: Report)
    ensures NumActive(Stored(s, r).tasks)
         == NumActive(s.tasks) - (if IsActive(s.tasks, r.id) then 1 else 0) + (if r.status == Active then 1 else 0)
    ensures Stored(s, r).max == s.max
  {
    ActiveAfterPut(s.tasks, r.id, Stored(s, r).tasks[r.id]);
    hide NumActive;
  }

  lemma ActiveAfterRest(s: State, e: Event)
    requires Legal(s, e) && (e.Detached? || e.Reordered? || e.Limit?)
    ensures NumActive(Apply(s, e).tasks) <= NumActive(s.tasks)
    ensures !e.Limit? ==> Apply(s, e).max == s.max
    ensures e.Limit? ==> Apply(s, e).tasks == s.tasks
  {
    hide Stamp;
    match e
    case Detached(id) => DropIds(s.tasks, id, {Active});
    case Reordered(ids, now) => StampIds(s.tasks, ids, QueueBase(now, |ids|), {Active});
    case _ =>
  }

  /** The change in the number of active tasks, event by event. */
  lemma ActiveAfter(s: State, e: Event)
    requires Legal(s, e)
    ensures var n, m := NumActive(s.tasks), NumActive(Apply(s, e).tasks);
      match e
      case Insert(id, t) => m == n - (if IsActive(s.tasks, id) then 1 else 0) + (if t.status == Active then 1 else 0)
      case Started(r) => m == n - (if IsActive(s.tasks, r.id) then 1 else 0) + (if r.status == Active then 1 else 0)
      case Limit(_) => m == n
      case _ => m <= n
    ensures Apply(s, e).max == if e.Limit? then e.max else s.max
  {
    match e
    case Insert(id, t) => ActiveAfterPut(s.tasks, id, t);
    case Started(r) => ActiveAfterReport(s, r);
    case Synced(r) => ActiveAfterReport(s, r);
    case _ => ActiveAfterRest(s, e);
    hide NumActive, Stamp, Stored;
  }

  /**
   A legal event keeps the number of active tasks within the limit exactly when it is not the
   start of one more task at a full house, nor a limit below the active tasks.
   */
  lemma KeepsLimitExactly(s: State, e: Event)
    requires Legal(s, e) && NumActive(s.tasks) <= s.max
    ensures NumActive(Apply(s, e).tasks) <= Apply(s, e).max <==>
      match e
      case Insert(id, t) => t.status != Active || IsActive(s.tasks, id) || NumActive(s.tasks) < s.max
      case Started(r) => r.status != Active || IsActive(s.tasks, r.id) || NumActive(s.tasks) < s.max
      case Limit(n) => n >= NumActive(s.tasks)
      case _ => true
  {
    ActiveAfter(s, e);
    hide NumActive, Apply, Legal, IsActive;
  }

  /**
   What a caller can check before a start without looking for a slot: it keeps the limit,
   whatever the driver will report, if and only if the task is active already or a slot is free.
   */
  lemma StartKeepsLimitExactly(s: State, id: Id)
    requires id in s.tasks && NumActive(s.tasks) <= s.max
    ensures (forall r: Report | r.id == id && Legal(s, Started(r)) :: NumActive(Apply(s, Started(r)).tasks) <= s.max)
       <==> IsActive(s.tasks, id) || NumActive(s.tasks) < s.max
  {
    forall r: Report | r.id == id && Legal(s, Started(r))
      ensures NumActive(Apply(s, Started(r)).tasks) <= s.max
         <==> r.status != Active || IsActive(s.tasks, id) || NumActive(s.tasks) < s.max
    {
      KeepsLimitExactly(s, Started(r));
    }
    assert Legal(s, Started(Report(id, "", Active, 0)));
    hide NumActive, Apply, Legal, IsActive;
  }

  /** A legal event within the slots leaves the number of active tasks no larger than it was, or within the limit. */
  lemma WithinStep(s: State, e: Event, bound: nat)
    requires Legal(s, e) && Within(s, e) && (NumActive(s.tasks) <= bound || NumActive(s.tasks) <= s.max)
    ensures NumActive(Apply(s, e).tasks) <= bound || NumActive(Apply(s, e).tasks) <= Apply(s, e).max
    ensures Apply(s, e).max >= s.max
  {
    ActiveAfter(s, e);
    hide NumActive, Apply, Legal, IsActive;
  }

  /**
   In every history that stays within the slots, whatever the drivers report, the active
   tasks never exceed the limit, or what they were at the start.
   */
  lemma {:induction false} LimitHolds(s: State, was: seq<Event>, log: seq<Event>)
    requires AllLegal(s, log) && Extends(s, was, log)
    ensures var a, b := Run(s, was), Run(s, log);
      && (NumActive(b.tasks) <= NumActive(a.tasks) || NumActive(b.tasks) <= b.max)
      && b.max >= a.max
    decreases |log|
  {
    if was != log {
      hide Run, Apply, Legal, Within;
      var n := |log| - 1;
      PrefixLegal(s, log, n);
      ExtendsPrefix(s, was, log);
      RunLast(s, log);
      LimitHolds(s, was, log[..n]);
      WithinStep(Run(s, log[..n]), log[n], NumActive(Run(s, was).tasks));
    }
  }

  lemma ExtendsPrefix(s: State, was: seq<Event>, log: seq<Event>)
    requires Extends(s, was, log) && was != log
    ensures Extends(s, was, log[..|log| - 1]) && Within(Run(s, log[..|log| - 1]), log[|log| - 1])
  {
    var n := |log| - 1;
    forall k | |was| <= k < n ensures log[..n][..k] == log[..k] {
    }
  }

  lemma RunLast(s: State, log: seq<Event>)
    requires log != []
    ensures Run(s, log) == Apply(Run(s, log[..|log| - 1]), log[|log| - 1])
  {
  }

  lemma PrefixLegal(s: State, log: seq<Event>, n: nat)
    requires AllLegal(s, log) && n <= |log|
    ensures AllLegal(s, log[..n])
  {
    forall k | 0 <= k < n ensures log[..n][..k] == log[..k] {
    }
  }

  // ---- The counter of stopped tasks -----------------------------------------------------------

  /** The tasks that were running before and are stopped after. */
  function NewlyStopped(a: TaskMap, b: TaskMap): set<Id> {
    set id | id in a && id in b && !IsStopped(a[id].status) && IsStopped(b[id].status)
  }

  /** How many times a task was seen to stop in a history, tasks put in place from outside aside. */
  function Stops(s: State, log: seq<Event>): nat {
    if log == [] then 0
    else
      var n := |log| - 1;
      var before := Run(s, log[..n]);
      Stops(s, log[..n]) + if log[n].Insert? then 0 else |NewlyStopped(before.tasks, Apply(before, log[n]).tasks)|
  }

  function StoppedInserts(log: seq<Event>): nat {
    if log == [] then 0
    else
      var n := |log| - 1;
      StoppedInserts(log[..n]) + if log[n].Insert? && IsStopped(log[n].task.status) then 1 else 0
  }

  lemma StoppedStep(s: State, e: Event)
    requires Legal(s, e)
    ensures var t := Apply(s, e);
      && t.stoppedTotal == s.stoppedTotal + (if e.Insert? then 0 else |NewlyStopped(s.tasks, t.tasks)|)
      && NumStopped(t.tasks) <= NumStopped(s.tasks) + (t.stoppedTotal - s.stoppedTotal)
           + (if e.Insert? && IsStopped(e.task.status) then 1 else 0)
  {
    hide Stamp;
    var t := Apply(s, e);
    match e
    case Insert(id, x) => PutIds(s.tasks, id, x, STOPPED);
    case Started(r) => StoppedByReport(s, r);
    case Synced(r) => StoppedByReport(s, r);
    case Detached(id) =>
      DropIds(s.tasks, id, STOPPED);
      assert NewlyStopped(s.tasks, t.tasks) == {};
    case Reordered(ids, now) =>
      StampIds(s.tasks, ids, QueueBase(now, |ids|), STOPPED);
      StampKeepsQueued(s.tasks, ids, QueueBase(now, |ids|));
      assert NewlyStopped(s.tasks, t.tasks) == {};
    case Limit(_) => assert NewlyStopped(s.tasks, t.tasks) == {};
  }

  lemma StoppedByReport(s: State, r: Report)
    requires r.id in s.tasks
    ensures |NewlyStopped(s.tasks, Stored(s, r).tasks)| == Stored(s, r).stoppedTotal - s.stoppedTotal
    ensures NumStopped(Stored(s, r).tasks) <= NumStopped(s.tasks) + (Stored(s, r).stoppedTotal - s.stoppedTotal)
  {
    PutIds(s.tasks, r.id, Stored(s, r).tasks[r.id], STOPPED);
    var x := NewlyStopped(s.tasks, Stored(s, r).tasks);
    assert x == if !IsStopped(s.tasks[r.id].status) && IsStopped(r.status) then {r.id} else {};
  }

  /** In every history the counter is the number of tasks seen to stop, and bounds those that are stopped now. */
  lemma {:induction false} CounterCountsStops(s: State, log: seq<Event>)
    requires AllLegal(s, log)
    ensures Run(s, log).stoppedTotal == s.stoppedTotal + Stops(s, log)
    ensures NumStopped(Run(s, log).tasks) <= NumStopped(s.tasks) + Stops(s, log) + StoppedInserts(log)
  {
    if log != [] {
      var n := |log| - 1;
      PrefixLegal(s, log, n);
      CounterCountsStops(s, log[..n]);
      StoppedStep(Run(s, log[..n]), log[n]);
    }
  }

  // ---- What reports leave alone -----------------------------------------------------------------

  ghost predicate OnlySyncs(was: seq<Event>, log: seq<Event>) {
    was <= log && forall k | |was| <= k < |log| :: log[k].Synced?
  }

  lemma RefreshedActive(a: TaskMap, b: TaskMap)
    requires Refreshed(a, b)
    ensures NumActive(b) <= NumActive(a)
  {
    var x, y := Ids(a, {Active}), Ids(b, {Active});
    assert y <= x;
    assert x == y + (x - y);
  }

  /** Refreshing tasks makes none of them active or waiting, and keeps their ids and times. */
  ghost predicate Refreshed(a: TaskMap, b: TaskMap) {
    && b.Keys == a.Keys
    && forall id | id in a ::
         && b[id].created == a[id].created
         && (b[id].status == Active ==> a[id].status == Active)
         && (b[id].status == Waiting ==> a[id].status == Waiting)
  }

  lemma {:induction false} SyncsRefresh(s: State, was: seq<Event>, log: seq<Event>)
    requires AllLegal(s, log) && OnlySyncs(was, log)
    ensures Refreshed(Run(s, was).tasks, Run(s, log).tasks) && Run(s, was).max == Run(s, log).max
    ensures Extends(s, was, log)
    decreases |log|
  {
    if was != log {
      var n := |log| - 1;
      PrefixLegal(s, log, n);
      assert log[..n][..|was|] == was && log[..|log| - 1] == log[..n];
      SyncsRefresh(s, was, log[..n]);
      assert Legal(Run(s, log[..n]), log[n]);
    }
  }

  /** Neither a reordering nor an insertion in its place touches the task; other tasks may come and go. */
  ghost predicate Undisturbed(log: seq<Event>, id: Id) {
    forall k | 0 <= k < |log| :: !log[k].Reordered? && !(log[k].Insert? && log[k].id == id)
  }

  /**
   A task keeps its creation time, and does not return once it is gone, unless the queue is
   reordered or a task put in its place.
   */
  lemma {:induction false} TimesStay(s: State, log: seq<Event>, id: Id)
    requires AllLegal(s, log) && Undisturbed(log, id)
    ensures id in Run(s, log).tasks ==> id in s.tasks && Run(s, log).tasks[id].created == s.tasks[id].created
  {
    if log != [] {
      var n := |log| - 1;
      PrefixLegal(s, log, n);
      TimesStay(s, log[..n], id);
      assert Legal(Run(s, log[..n]), log[n]);
      hide Run, AllLegal, Undisturbed;
    }
  }

  /** `x` stands before `y` in the queue. */
  ghost predicate Precedes(q: seq<Id>, x: Id, y: Id) {
    exists i, j :: 0 <= i < j < |q| && q[i] == x && q[j] == y
  }

  /** Two queued tasks stand in the order of their times and ids. */
  lemma PrecedesIs(ts: TaskMap, x: Id, y: Id)
    requires x in QueuedIds(ts) && y in QueuedIds(ts) && x != y
    ensures Precedes(OrderedQueue(ts), x, y) <==> Earlier(ts, x, y)
  {
    var q := OrderedQueue(ts);
    QueueFacts(ts);
    hide OrderedQueue, Sorted, Earlier;
    assert x in q && y in q;
    var k :| 0 <= k < |q| && q[k] == x;
    var m :| 0 <= m < |q| && q[m] == y;
    if Earlier(ts, x, y) {
      ComesFirst(ts, q, k, m);
    }
    if Precedes(q, x, y) {
      var i, j :| 0 <= i < j < |q| && q[i] == x && q[j] == y;
      SortedSays(ts, q, i, j);
    }
  }

  /**
   Adding, starting, refreshing and removing tasks never reorders the others: of two tasks
   queued before and after such a history, the one that was first is first still.
   */
  lemma {:induction false} QueueOrderStays(s: State, log: seq<Event>, x: Id, y: Id)
    requires AllLegal(s, log) && Undisturbed(log, x) && Undisturbed(log, y)
    requires x in QueuedIds(s.tasks) && y in QueuedIds(s.tasks)
    requires x in QueuedIds(Run(s, log).tasks) && y in QueuedIds(Run(s, log).tasks)
    ensures Precedes(OrderedQueue(s.tasks), x, y) <==> Precedes(OrderedQueue(Run(s, log).tasks), x, y)
  {
    TimesStay(s, log, x);
    TimesStay(s, log, y);
    var now := Run(s, log).tasks;
    hide Run, AllLegal, Undisturbed, StrLe, OrderedQueue;
    if x == y {
      NeverBeforeItself(s.tasks, x);
      NeverBeforeItself(now, x);
    } else {
      PrecedesIs(s.tasks, x, y);
      PrecedesIs(now, x, y);
      hide Precedes;
    }
  }

  lemma NeverBeforeItself(ts: TaskMap, x: Id)
    ensures !Precedes(OrderedQueue(ts), x, x)
  {
    QueueFacts(ts);
  }

  /** No task of the state and no event of the history has a time after `latest`. */
  ghost predicate TimesBy(s: State, log: seq<Event>, latest: int) {
    && (forall id | id in s.tasks :: s.tasks[id].created <= latest)
    && forall k | 0 <= k < |log| ::
         && (log[k].Insert? ==> log[k].task.created <= latest)
         && (log[k].Reordered? ==> log[k].now <= latest)
  }

  lemma TimeStep(s: State, e: Event, latest: int)
    requires Legal(s, e) && (forall id | id in s.tasks :: s.tasks[id].created <= latest)
    requires (e.Insert? ==> e.task.created <= latest) && (e.Reordered? ==> e.now <= latest)
    ensures forall id | id in Apply(s, e).tasks :: Apply(s, e).tasks[id].created <= latest
  {
    if e.Reordered? {
      var base := QueueBase(e.now, |e.ids|);
      StampFacts(s.tasks, e.ids, base);
      forall id | id in Apply(s, e).tasks ensures Apply(s, e).tasks[id].created <= latest {
        if id in e.ids {
          StampBelow(s.tasks, e.ids, e.now, id);
        }
      }
    }
  }

  lemma {:induction false} TimesBounded(s: State, log: seq<Event>, latest: int)
    requires AllLegal(s, log) && TimesBy(s, log, latest)
    ensures forall id | id in Run(s, log).tasks :: Run(s, log).tasks[id].created <= latest
  {
    if log != [] {
      var n := |log| - 1;
      PrefixLegal(s, log, n);
      assert forall k | 0 <= k < n :: log[..n][k] == log[k];
      TimesBounded(s, log[..n], latest);
      TimeStep(Run(s, log[..n]), log[n], latest);
      RunLast(s, log);
      hide Run, Apply;
    }
  }

  /**
   The queue is first come, first served over whole histories: after any history none of
   whose times is after its own, a task put in queued stands at the end, if and only if
   no queued task with exactly its time has a larger id.
   */
  lemma NewTaskJoinsLast(s: State, log: seq<Event>, id: Id, t: Task)
    requires AllLegal(s, log) && TimesBy(s, log, t.created) && IsQueued(t.status)
    requires id !in QueuedIds(Run(s, log).tasks)
    ensures var ts := Run(s, log).tasks;
      (OrderedQueue(Run(s, log + [Insert(id, t)]).tasks) == OrderedQueue(ts) + [id])
      <==> (forall q | q in QueuedIds(ts) && ts[q].created == t.created :: StrLe(q, id))
  {
    TimesBounded(s, log, t.created);
    RunAppend(s, log, Insert(id, t));
    JoinsLast(Run(s, log).tasks, id, t);
    hide Run, AllLegal, TimesBy, OrderedQueue, StrLe;
  }

  lemma SortedSays(ts: TaskMap, q: seq<Id>, i: nat, j: nat)
    requires Sorted(EarlierIn(ts), q) && i < j < |q|
    ensures Earlier(ts, q[i], q[j])
  {
    assert EarlierIn(ts)(q[i], q[j]);
  }

  lemma EarlierAntisymmetric(ts: TaskMap, a: Id, b: Id)
    requires Earlier(ts, a, b) && Earlier(ts, b, a)
    ensures a == b
  {
    if CreatedOf(ts, a) == CreatedOf(ts, b) {
      StrLeAntisymmetric(a, b);
    }
  }

  lemma ComesFirst(ts: TaskMap, q: seq<Id>, k: nat, m: nat)
    requires Sorted(EarlierIn(ts), q) && NoDup(q) && k < |q| && m < |q| && k != m
    requires Earlier(ts, q[k], q[m])
    ensures k < m
  {
    if m < k {
      SortedSays(ts, q, m, k);
      EarlierAntisymmetric(ts, q[k], q[m]);
    }
  }

  lemma QueueFacts(ts: TaskMap)
    ensures Sorted(EarlierIn(ts), OrderedQueue(ts)) && Lists(OrderedQueue(ts), QueuedIds(ts))
  {
  }

  // ---- When a new time survives -------------------------------------------------------------------

  /** A task keeps the time it was given exactly under a report with no time, or with that one. */
  lemma StampSurvivesExactly(s: State, r: Report)
    requires r.id in s.tasks
    ensures Stored(s, r).tasks[r.id].created == s.tasks[r.id].created <==> KeepsTime(s, r)
  {
  }

  /** The state after the reports are stored one after the other. */
  function StoredAll(s: State, reports: seq<Report>): State {
    if reports == [] then s else Stored(StoredAll(s, reports[..|reports| - 1]), reports[|reports| - 1])
  }

  /** Reports that give every queued task the time it had before. */
  predicate OldTimes(s: State, xs: seq<Id>, reports: seq<Report>) {
    && |reports| == |xs|
    && forall k | 0 <= k < |xs| ::
         && xs[k] in s.tasks && s.tasks[xs[k]].created != 0
         && reports[k] == Report(xs[k], "", s.tasks[xs[k]].status, s.tasks[xs[k]].created)
  }

  lemma {:induction false} OldTimesReturn(s: State, t: State, xs: seq<Id>, reports: seq<Report>)
    requires OldTimes(s, xs, reports) && t.tasks.Keys == s.tasks.Keys
    requires forall id | id in s.tasks :: t.tasks[id] == s.tasks[id].(created := t.tasks[id].created)
    ensures StoredAll(t, reports).tasks.Keys == s.tasks.Keys
    ensures forall id | id in s.tasks ::
      StoredAll(t, reports).tasks[id] == if id in xs then s.tasks[id] else t.tasks[id]
  {
    if xs != [] {
      var n := |xs| - 1;
      OldTimesReturn(s, t, xs[..n], reports[..n]);
      assert xs == xs[..n] + [xs[n]];
    }
  }

  /**
   A reordering undone: when the drivers report every queued task with the time it had before,
   as they do with restored tasks, storing the reports brings the old task map back, and with
   it the old queue.
   */
  lemma ReorderingUndone(s: State, xs: seq<Id>, now: int, reports: seq<Report>)
    requires Lists(xs, QueuedIds(s.tasks)) && OldTimes(s, xs, reports)
    ensures StoredAll(Apply(s, Reordered(xs, now)), reports).tasks == s.tasks
  {
    var base := QueueBase(now, |xs|);
    var t := Apply(s, Reordered(xs, now));
    StampKeepsQueued(s.tasks, xs, base);
    StampFacts(s.tasks, xs, base);
    hide Stamp;
    OldTimesReturn(s, t, xs, reports);
    hide StoredAll;
  }

  // ---- When refreshing leaves no slot free ------------------------------------------------------

  /** No slot is free, or nothing waits. */
  predicate Conserved(s: State) {
    NumActive(s.tasks) >= s.max || Ids(s.tasks, {Waiting}) == {}
  }

  lemma {:induction false} AllFail(s: State) returns (log: seq<Event>)
    ensures OnlySyncs([], log) && AllLegal(s, log)
    ensures NumActive(Run(s, log).tasks) == 0 && Ids(Run(s, log).tasks, {Waiting}) == Ids(s.tasks, {Waiting})
    ensures Run(s, log).max == s.max
    decreases NumActive(s.tasks)
  {
    if NumActive(s.tasks) == 0 {
      log := [];
      EmptyHistory(s);
    } else {
      var id :| id in Ids(s.tasks, {Active});
      var r := Report(id, "", Errored, 0);
      var s1 := Stored(s, r);
      ActiveAfterReport(s, r);
      WaitingAfterStop(s, r);
      var rest := AllFail(s1);
      hide NumActive, Ids, Stored;
      log := [Synced(r)] + rest;
      RunFirst(s, Synced(r), rest);
    }
  }

  lemma EmptyHistory(s: State)
    ensures Run(s, []) == s && OnlySyncs([], []) && AllLegal(s, [])
  {
  }

  lemma WaitingAfterStop(s: State, r: Report)
    requires r.id in s.tasks && s.tasks[r.id].status != Waiting && r.status != Waiting
    ensures Ids(Stored(s, r).tasks, {Waiting}) == Ids(s.tasks, {Waiting})
  {
  }

  /** A history from its first event on. */
  lemma {:induction false} RunFirst(s: State, e: Event, rest: seq<Event>)
    requires Legal(s, e) && AllLegal(Apply(s, e), rest)
    ensures Run(s, [e] + rest) == Run(Apply(s, e), rest) && AllLegal(s, [e] + rest)
    decreases |rest|
  {
    if rest == [] {
      EmptyHistory(s);
      EmptyHistory(Apply(s, e));
      LegalAppend(s, [], e);
      RunAppend(s, [], e);
      assert [e] + rest == [] + [e];
    } else {
      var n := |rest| - 1;
      PrefixLegal(Apply(s, e), rest, n);
      RunFirst(s, e, rest[..n]);
      assert Legal(Run(Apply(s, e), rest[..n]), rest[n]);
      LegalAppend(s, [e] + rest[..n], rest[n]);
      RunAppend(s, [e] + rest[..n], rest[n]);
      RunLast(Apply(s, e), rest);
      hide Run, AllLegal, Apply;
      assert [e] + rest == [e] + rest[..n] + [rest[n]];
    }
  }

  /**
   From a state where no slot is free or nothing waits, every legal refreshing, whatever it
   reports, leaves it so if and only if nothing waits.
   */
  lemma {:induction false} RefreshConservesExactly(s: State)
    requires Conserved(s) && s.max > 0
    ensures (forall log | OnlySyncs([], log) && AllLegal(s, log) :: Conserved(Run(s, log)))
       <==> Ids(s.tasks, {Waiting}) == {}
  {
    if Ids(s.tasks, {Waiting}) == {} {
      forall log | OnlySyncs([], log) && AllLegal(s, log) ensures Conserved(Run(s, log)) {
        EmptyHistory(s);
        SyncsRefresh(s, [], log);
        NoneWaits(s.tasks, Run(s, log).tasks);
        hide Run, AllLegal, NumActive, Ids;
      }
    } else {
      var log := AllFail(s);
      hide Run, AllLegal, NumActive, Ids;
      assert !Conserved(Run(s, log));
    }
  }

  lemma NoneWaits(a: TaskMap, b: TaskMap)
    requires Refreshed(a, b) && Ids(a, {Waiting}) == {}
    ensures Ids(b, {Waiting}) == {}
  {
    assert Ids(b, {Waiting}) <= Ids(a, {Waiting});
  }

  // ---- Two histories ------------------------------------------------------------------------------

  /** A manager with one slot, a task "a" active in it and a task "b" behind. */
  function TwoTasks(b: Status): TaskMap {
    map["a" := Task("1", Active, 1), "b" := Task("2", b, 2)]
  }

  function TwoTasksLog(): seq<Event> {
    [Insert("a", Task("1", Waiting, 1)), Started(Report("a", "", Active, 0)), Insert("b", Task("2", Waiting, 2))]
  }

  lemma Reaches(s: State, log: seq<Event>, t: State, e: Event, t': State)
    requires AllLegal(s, log) && Extends(s, [], log) && Run(s, log) == t
    requires Legal(t, e) && Within(t, e) && Apply(t, e) == t'
    ensures AllLegal(s, log + [e]) && Extends(s, [], log + [e]) && Run(s, log + [e]) == t'
  {
    OneMore(s, log, e);
  }

  lemma FreeAtFirst(t: Task)
    requires t.status != Active
    ensures NumActive(map[]) == 0 && NumActive(map["a" := t]) == 0
  {
    assert Ids(map[], {Active}) == {} && Ids(map["a" := t], {Active}) == {};
  }

  lemma NothingYet(s: State)
    ensures AllLegal(s, []) && Extends(s, [], []) && Run(s, []) == s
  {
  }

  lemma TwoTasksReached()
    ensures var s := State(map[], 1, 0);
      && AllLegal(s, TwoTasksLog()) && Extends(s, [], TwoTasksLog())
      && Run(s, TwoTasksLog()) == State(TwoTasks(Waiting), 1, 0)
  {
    hide Run, AllLegal, Extends, NumActive;
    var a, b := Task("1", Waiting, 1), Task("2", Waiting, 2);
    var s, t := State(map[], 1, 0), State(map["a" := a], 1, 0);
    var u := State(map["a" := a.(status := Active)], 1, 0);
    var e0, e1, e2 := Insert("a", a), Started(Report("a", "", Active, 0)), Insert("b", b);
    FreeAtFirst(a);
    NothingYet(s);
    Reaches(s, [], s, e0, t);
    Reaches(s, [] + [e0], t, e1, u);
    Reaches(s, [] + [e0] + [e1], u, e2, State(TwoTasks(Waiting), 1, 0));
    assert [] + [e0] + [e1] + [e2] == TwoTasksLog();
  }

  /** A full house with a paused task is reached within the slots; unpausing the task breaks the limit. */
  lemma UnpauseBreaksLimit()
    ensures var s, log := State(map[], 1, 0), TwoTasksLog() + [Synced(Report("b", "", Paused, 0))];
      var t := Run(s, log);
      && AllLegal(s, log) && Extends(s, [], log)
      && t.tasks == TwoTasks(Paused) && NumActive(t.tasks) == t.max == 1
      && var e := Started(Report("b", "", Active, 0)); Legal(t, e) && NumActive(Apply(t, e).tasks) == 2
  {
    TwoTasksReached();
    OneActive(Paused);
    var s, t := State(map[], 1, 0), State(TwoTasks(Paused), 1, 0);
    OneMore(s, TwoTasksLog(), Synced(Report("b", "", Paused, 0)));
    ActiveAfterReport(t, Report("b", "", Active, 0));
    hide Run, AllLegal, Extends, NumActive;
  }

  lemma OneActive(b: Status)
    requires b != Active
    ensures NumActive(TwoTasks(b)) == 1
  {
    assert Ids(TwoTasks(b), {Active}) == {"a"};
  }

  /**
   From an empty manager a history within the slots is reached whose last event is the report
   that the active task ended in an error; a slot is free then, and a task waits.
   */
  lemma ErrorLeavesSlotFree()
    ensures var s, log := State(map[], 1, 0), TwoTasksLog() + [Synced(Report("a", "", Errored, 0))];
      var t := Run(s, log);
      && AllLegal(s, log) && Extends(s, [], log)
      && NumActive(t.tasks) == 0 < t.max && Ids(t.tasks, {Waiting}) == {"b"}
  {
    TwoTasksReached();
    OneActive(Waiting);
    var s, t, r := State(map[], 1, 0), State(TwoTasks(Waiting), 1, 0), Report("a", "", Errored, 0);
    OneMore(s, TwoTasksLog(), Synced(r));
    ActiveAfterReport(t, r);
    assert Ids(Stored(t, r).tasks, {Waiting}) == {"b"};
    hide Run, AllLegal, Extends, NumActive, Ids;
  }

  // ---- Histories grow ------------------------------------------------------------------------------

  lemma RunAppend(s: State, log: seq<Event>, e: Event)
    ensures Run(s, log + [e]) == Apply(Run(s, log), e)
  {
    assert (log + [e])[..|log|] == log;
  }

  lemma LegalAppend(s: State, log: seq<Event>, e: Event)
    requires AllLegal(s, log) && Legal(Run(s, log), e)
    ensures AllLegal(s, log + [e])
  {
    forall k | 0 <= k < |log| + 1 ensures Legal(Run(s, (log + [e])[..k]), (log + [e])[k]) {
      assert (log + [e])[..k] == if k < |log| then log[..k] else log;
    }
  }

  lemma ExtendsAppend(s: State, log: seq<Event>, e: Event)
    requires Within(Run(s, log), e)
    ensures Extends(s, log, log + [e])
  {
    assert (log + [e])[..|log|] == log;
  }

  /** A history grows by one legal event within the slots. */
  lemma OneMore(s: State, log: seq<Event>, e: Event)
    requires AllLegal(s, log) && Extends(s, [], log) && Legal(Run(s, log), e) && Within(Run(s, log), e)
    ensures AllLegal(s, log + [e]) && Extends(s, [], log + [e])
    ensures Run(s, log + [e]) == Apply(Run(s, log), e)
  {
    RunAppend(s, log, e);
    LegalAppend(s, log, e);
    ExtendsAppend(s, log, e);
    ExtendsTrans(s, [], log, log + [e]);
  }

  lemma ExtendsSelf(s: State, log: seq<Event>)
    ensures Extends(s, log, log)
  {
  }

  lemma ExtendsTrans(s: State, a: seq<Event>, b: seq<Event>, c: seq<Event>)
    requires Extends(s, a, b) && Extends(s, b, c)
    ensures Extends(s, a, c)
  {
    forall k | |a| <= k < |c| ensures Within(Run(s, c[..k]), c[k]) {
      if k < |b| {
        assert c[..k] == b[..k];
      }
    }
  }

  /** The history is that of reports alone since. */
  ghost predicate OnlyReports(was: seq<Event>, log: seq<Event>) {
    was <= log && forall k | |was| <= k < |log| :: log[k].Synced? || log[k].Started?
  }

  lemma OnlyReportsTrans(a: seq<Event>, b: seq<Event>, c: seq<Event>)
    requires OnlyReports(a, b) && OnlyReports(b, c)
    ensures OnlyReports(a, c)
  {
  }

  lemma NoReports(log: seq<Event>)
    ensures OnlyReports(log, log)
  {
  }

  lemma SyncsAreReports(a: seq<Event>, b: seq<Event>)
    requires OnlySyncs(a, b)
    ensures OnlyReports(a, b)
  {
  }

  lemma NoSyncs(log: seq<Event>)
    ensures OnlySyncs(log, log)
  {
  }

  lemma OnlySyncsTrans(a: seq<Event>, b: seq<Event>, c: seq<Event>)
    requires OnlySyncs(a, b) && OnlySyncs(b, c)
    ensures OnlySyncs(a, c)
  {
  }
}
