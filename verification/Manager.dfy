/**
 The manager and its driver. Every operation appends what it does to the history of
 `Scheduler`, so the theorems there hold after each of them; each contract says in
 addition what the operation itself achieves.
 */
module Manager {
  import opened Wrappers
  import opened Tasks
  import opened Sorting
  import opened Text
  import opened Numbers
  import opened Queue
  import opened Scheduler

  type Error = QueueError

  /** A call of the manager that asks a driver to do something. */
  datatype Command = StartCmd(id: Id) | PauseCmd(id: Id) | RemoveCmd(id: Id)

  /** Nothing but starts was asked for since. */
  ghost predicate OnlyStarts(was: seq<Command>, now: seq<Command>) {
    was <= now && forall k | |was| <= k < |now| :: now[k].StartCmd?
  }

  function Starts(ids: seq<Id>): seq<Command> {
    seq(|ids|, i requires 0 <= i < |ids| => StartCmd(ids[i]))
  }

  lemma StartsSnoc(was: seq<Command>, ids: seq<Id>, id: Id)
    ensures was + Starts(ids + [id]) == was + Starts(ids) + [StartCmd(id)]
    ensures OnlyStarts(was, was + Starts(ids)) && OnlyStarts(was, was + Starts(ids + [id]))
  {
    assert Starts(ids + [id]) == Starts(ids) + [StartCmd(id)];
  }

  lemma NoStarts(was: seq<Command>)
    ensures was + Starts([]) == was && OnlyStarts(was, was)
  {
    assert was + Starts([]) == was;
  }

  lemma OnlyStartsTrans(a: seq<Command>, b: seq<Command>, c: seq<Command>)
    requires OnlyStarts(a, b) && OnlyStarts(b, c)
    ensures OnlyStarts(a, c)
  {
  }

  function Pauses(ids: seq<Id>): seq<Command> {
    seq(|ids|, i requires 0 <= i < |ids| => PauseCmd(ids[i]))
  }

  lemma PausesSnoc(was: seq<Command>, ids: seq<Id>, i: nat)
    requires i < |ids|
    ensures was + Pauses(ids[..i + 1]) == was + Pauses(ids[..i]) + [PauseCmd(ids[i])]
  {
    assert Pauses(ids[..i + 1]) == Pauses(ids[..i]) + [PauseCmd(ids[i])];
  }

  lemma NoPauses(was: seq<Command>)
    ensures was + Pauses([]) == was
  {
  }

  /** The status of each of the tasks was asked for since. */
  ghost predicate Asked(was: seq<Id>, now: seq<Id>, ids: set<Id>) {
    was <= now && forall id | id in ids :: id in now[|was|..]
  }

  function Members(ids: seq<Id>): set<Id> {
    set x | x in ids
  }

  lemma InOrder(ids: seq<Id>, of: set<Id>)
    requires Lists(ids, of) && Sorted(StrLe, ids)
    ensures ids == SortedKeys(of) && Members(ids) == of
    ensures forall i | 0 <= i < |ids| :: ids[i] in of
  {
    SortedKeysUnique(ids, of);
    forall i | 0 <= i < |ids| ensures ids[i] in of {
      assert ids[i] in ids;
    }
  }

  lemma NoneAsked(was: seq<Id>)
    ensures Asked(was, was, Members([]))
  {
  }

  lemma AskedOneMore(a: seq<Id>, b: seq<Id>, c: seq<Id>, ids: seq<Id>, i: nat)
    requires i < |ids| && Asked(a, b, Members(ids[..i])) && Asked(b, c, {ids[i]})
    ensures Asked(a, c, Members(ids[..i + 1]))
  {
    AskedMore(a, b, c, Members(ids[..i]), {ids[i]});
    assert ids[..i + 1] == ids[..i] + [ids[i]];
    assert Members(ids[..i + 1]) == Members(ids[..i]) + {ids[i]};
  }

  lemma AskedMore(a: seq<Id>, b: seq<Id>, c: seq<Id>, ids: set<Id>, more: set<Id>)
    requires Asked(a, b, ids) && Asked(b, c, more)
    ensures Asked(a, c, ids + more) && Asked(a, c, ids)
  {
    assert c[|a|..] == b[|a|..] + c[|b|..];
  }

  /**
   A protocol driver: anything may happen in it, within these promises. It remembers the
   status it last reported for a task, and which tasks it started since; only a start makes
   a task active, a started task is reported, and not as waiting, and nothing returns to
   waiting. Its reports leave the creation time to the manager. Three ghost fields list what
   it was asked to do and about which tasks, and the new tasks it made.
   */
  class Driver {
    var reported: map<Id, Status>
    var started: set<Id>
    ghost var commands: seq<Command>
    ghost var asked: seq<Id>
    ghost var offers: seq<Report>

    constructor ()
      ensures reported == map[] && started == {} && offers == []
    {
      reported, started := map[], {};
      commands, asked, offers := [], [], [];
    }

    function Seen(id: Id): Status
      reads this
    {
      if id in reported then reported[id] else Waiting
    }

    method Add() returns (r: Result<Report, Error>)
      modifies this`reported, this`started, this`offers
      ensures r.Ok? ==> offers == old(offers) + [r.value]
      ensures r.Ok? ==>
        && r.value.id != "" && r.value.status != Active
        && reported == old(reported)[r.value.id := r.value.status] && started == old(started) - {r.value.id}
      ensures r.Err? ==> unchanged(this)
    {
      r := *;
      if r.Ok? && (r.value.id == "" || r.value.status == Active) {
        r := Err(DriverFailed);
      }
      if r.Ok? {
        reported := reported[r.value.id := r.value.status];
        started := started - {r.value.id};
        offers := offers + [r.value];
      }
    }

    method Start(id: Id) returns (err: Option<Error>)
      modifies this`started, this`commands
      ensures commands == old(commands) + [StartCmd(id)]
      ensures started == if err.None? then old(started) + {id} else old(started)
    {
      err := *;
      if err.None? {
        started := started + {id};
      }
      commands := commands + [StartCmd(id)];
    }

    method Pause(id: Id) returns (err: Option<Error>)
      modifies this`commands
      ensures commands == old(commands) + [PauseCmd(id)]
    {
      err := *;
      commands := commands + [PauseCmd(id)];
    }

    method Remove(id: Id) returns (err: Option<Error>)
      modifies this`commands
      ensures commands == old(commands) + [RemoveCmd(id)]
    {
      err := *;
      commands := commands + [RemoveCmd(id)];
    }

    method TellStatus(id: Id) returns (r: Result<Report, Error>)
      modifies this`reported, this`started, this`asked
      ensures asked == old(asked) + [id]
      ensures started == old(started) - {id}
      ensures id in old(started) ==> r.Ok?
      ensures r.Ok? ==>
        && r.value.id == id && r.value.created == 0
        && reported == old(reported)[id := r.value.status]
        && (r.value.status == Active ==> id in old(started) || old(Seen(id)) == Active)
        && (r.value.status == Waiting ==> id !in old(started) && old(Seen(id)) == Waiting)
      ensures r.Err? ==> reported == old(reported)
    {
      r := *;
      var before, justStarted := Seen(id), id in started;
      if r.Ok? && (r.value.id != id || r.value.created != 0
                   || (r.value.status == Active && !justStarted && before != Active)
                   || (r.value.status == Waiting && (justStarted || before != Waiting))) {
        r := Err(DriverFailed);
      }
      if !r.Ok? && justStarted {
        r := Ok(Report(id, "", Active, 0));
      }
      started := started - {id};
      asked := asked + [id];
      if r.Ok? {
        reported := reported[id := r.value.status];
      }
    }
  }

  /** What Add is asked for; `pause` is the `pause` option, `newGID` the group id drawn if nobody gives one. */
  datatype AddTaskInput = AddTaskInput(gid: string, queuePosition: int, pause: bool, newGID: string)

  /** The task that enters the map for a driver's new one; what the driver leaves open Add fills in. */
  function AddedTask(input: AddTaskInput, offer: Report, now: int): Task {
    var gid := if input.gid != "" then input.gid else if offer.gid == "" then input.newGID else offer.gid;
    Task(gid, offer.status, if offer.created == 0 then now else offer.created)
  }

  datatype GlobalStat = GlobalStat(numActive: nat, numWaiting: nat, numStopped: nat, numStoppedTotal: nat)

  /** The tasks with one of the given statuses, as a loop over a listing of the map counts them. */
  function CountIn(ts: TaskMap, ids: seq<Id>, of: set<Status>): nat {
    if ids == [] then 0
    else
      var last := ids[|ids| - 1];
      CountIn(ts, ids[..|ids| - 1], of) + if last in ts && ts[last].status in of then 1 else 0
  }

  lemma {:induction false} CountInIs(ts: TaskMap, ids: seq<Id>, of: set<Status>)
    requires NoDup(ids)
    ensures CountIn(ts, ids, of) == |set id | id in ids && id in ts && ts[id].status in of|
  {
    var here := set id | id in ids && id in ts && ts[id].status in of;
    if ids != [] {
      var n := |ids| - 1;
      CountInIs(ts, ids[..n], of);
      var front := set id | id in ids[..n] && id in ts && ts[id].status in of;
      assert ids == ids[..n] + [ids[n]] && ids[n] !in ids[..n];
      assert here == if ids[n] in ts && ts[ids[n]].status in of then front + {ids[n]} else front;
    } else {
      assert here == {};
    }
  }

  lemma CountInAll(ts: TaskMap, ids: seq<Id>, of: set<Status>)
    requires Lists(ids, ts.Keys)
    ensures CountIn(ts, ids, of) == |Ids(ts, of)|
  {
    CountInIs(ts, ids, of);
    assert (set id | id in ids && id in ts && ts[id].status in of) == Ids(ts, of);
  }

  lemma CountInStep(ts: TaskMap, ids: seq<Id>, i: nat, of: set<Status>)
    requires i < |ids|
    ensures CountIn(ts, ids[..i + 1], of)
         == CountIn(ts, ids[..i], of) + if ids[i] in ts && ts[ids[i]].status in of then 1 else 0
  {
    assert ids[..i + 1][..i] == ids[..i];
  }

  /** One task of the map is replaced, its creation time kept. */
  ghost predicate Touched(a: TaskMap, b: TaskMap, id: Id) {
    id in a && id in b && b == a[id := b[id]] && b[id].created == a[id].created
  }

  lemma ReportTouches(s: State, r: Report)
    requires r.id in s.tasks && r.created == 0
    ensures Touched(s.tasks, Stored(s, r).tasks, r.id) && Stored(s, r).tasks[r.id].status == r.status
    ensures Stored(s, r).max == s.max
  {
  }

  function WaitingIds(ts: TaskMap): set<Id> {
    Ids(ts, {Waiting})
  }

  class Manager {
    var tasks: TaskMap
    var maxConcurrent: int
    var startPaused: bool
    var numStoppedTotal: nat
    const driver: Driver
    const hasStore: bool

    ghost const init: State
    ghost var log: seq<Event>

    function Now(): State
      reads this
    {
      State(tasks, maxConcurrent, numStoppedTotal)
    }

    /** The state is what the history makes of the initial state, and the history is legal. */
    ghost predicate Told()
      reads this
    {
      Now() == Run(init, log) && AllLegal(init, log)
    }

    /** Between operations the driver has reported what the manager stores, and starts nothing. */
    ghost predicate Valid()
      reads this, driver
    {
      Told() && driver.started == {} && forall id | id in tasks :: driver.Seen(id) == tasks[id].status
    }

    constructor (maxConcurrent: int, startPaused: bool, driver: Driver, hasStore: bool)
      requires driver.started == {}
      ensures Valid() && fresh(this) && this.driver == driver && log == []
      ensures tasks == map[] && numStoppedTotal == 0
      ensures this.maxConcurrent == if maxConcurrent <= 0 then 1 else maxConcurrent
      ensures init == Now()
    {
      var limit := if maxConcurrent <= 0 then 1 else maxConcurrent;
      this.maxConcurrent := limit;
      this.tasks := map[];
      this.startPaused := startPaused;
      this.numStoppedTotal := 0;
      this.driver := driver;
      this.hasStore := hasStore;
      this.log := [];
      this.init := State(map[], limit, 0);
    }

    // ---- Reading the map ---------------------------------------------------------------

    method ShouldStartImmediately() returns (free: bool)
      ensures free <==> NumActive(tasks) < maxConcurrent
    {
      var ids := Collect(tasks.Keys);
      var active := 0;
      for i := 0 to |ids|
        invariant active == CountIn(tasks, ids[..i], {Active})
      {
        CountInStep(tasks, ids, i, {Active});
        if tasks[ids[i]].status == Active {
          active := active + 1;
        }
      }
      assert ids[..|ids|] == ids;
      CountInAll(tasks, ids, {Active});
      return active < maxConcurrent;
    }

    method GetGlobalStat() returns (stat: GlobalStat)
      ensures stat == GlobalStat(NumActive(tasks), |Ids(tasks, QUEUED)|, NumStopped(tasks), numStoppedTotal)
      ensures stat.numActive + stat.numWaiting + stat.numStopped == |tasks|
    {
      var ids := Collect(tasks.Keys);
      var active, waiting, stopped := 0, 0, 0;
      for i := 0 to |ids|
        invariant active == CountIn(tasks, ids[..i], {Active})
        invariant waiting == CountIn(tasks, ids[..i], QUEUED)
        invariant stopped == CountIn(tasks, ids[..i], STOPPED)
      {
        CountInStep(tasks, ids, i, {Active});
        CountInStep(tasks, ids, i, QUEUED);
        CountInStep(tasks, ids, i, STOPPED);
        match tasks[ids[i]].status
        case Active => active := active + 1;
        case Waiting => waiting := waiting + 1;
        case Paused => waiting := waiting + 1;
        case _ => stopped := stopped + 1;
      }
      assert ids[..|ids|] == ids;
      CountInAll(tasks, ids, {Active});
      CountInAll(tasks, ids, QUEUED);
      CountInAll(tasks, ids, STOPPED);
      CountsAddUp(tasks);
      return GlobalStat(active, waiting, stopped, numStoppedTotal);
    }

    /** The waiting task to start next; among equally old ones, any. */
    method NextWaitingTaskID() returns (next: Option<Id>)
      ensures next.None? <==> WaitingIds(tasks) == {}
      ensures next.Some? ==> IsNext(tasks, next.value)
    {
      var ids := Collect(tasks.Keys);
      next := None;
      for i := 0 to |ids|
        invariant next.None? ==> forall id | id in ids[..i] :: tasks[id].status != Waiting
        invariant next.Some? ==>
          && next.value in tasks && tasks[next.value].status == Waiting
          && forall id | id in ids[..i] && tasks[id].status == Waiting :: tasks[next.value].created <= tasks[id].created
      {
        assert ids[..i + 1] == ids[..i] + [ids[i]];
        if tasks[ids[i]].status == Waiting && (next.None? || tasks[ids[i]].created < tasks[next.value].created) {
          next := Some(ids[i]);
        }
      }
      assert ids[..|ids|] == ids;
      if next.Some? {
        assert next.value in WaitingIds(tasks);
      }
    }

    /** `lookupByGID`: some task of the group id, if there is one. */
    method LookupByGID(gid: string) returns (found: Option<Id>)
      ensures IsTaskOf(tasks, gid, found)
    {
      var ids := Collect(tasks.Keys);
      for i := 0 to |ids|
        invariant forall j | 0 <= j < i :: tasks[ids[j]].gid != gid
      {
        if tasks[ids[i]].gid == gid {
          return Some(ids[i]);
        }
      }
      return None;
    }

    /** `snapshotTaskIDsByStatus`: in the order of the ids. */
    method SnapshotTaskIDsByStatus(allowed: set<Status>) returns (ids: seq<Id>)
      ensures Lists(ids, Ids(tasks, allowed)) && Sorted(StrLe, ids)
    {
      ids := ListSorted(Ids(tasks, allowed));
    }

    // ---- One report -----------------------------------------------------------------------

    method StoreTask(updated: Report, ghost e: Event) returns (stored: Task)
      requires Told() && (e == Started(updated) || e == Synced(updated)) && Legal(Now(), e)
      modifies this`tasks, this`numStoppedTotal, this`log
      ensures Told() && log == old(log) + [e]
      ensures Now() == Stored(old(Now()), updated) && stored == tasks[updated.id]
    {
      RunAppend(init, log, e);
      LegalAppend(init, log, e);
      assert Apply(Now(), e) == Stored(Now(), updated);
      hide Run, AllLegal, Legal, Apply;
      var stops;
      stored, stops := MergeTask(updated);
      if stops {
        numStoppedTotal := numStoppedTotal + 1;
      }
      tasks := tasks[updated.id := stored];
      log := log + [e];
    }

    /** The first half of `storeTask`: the task to be stored, and whether it stops with it. */
    method MergeTask(updated: Report) returns (cloned: Task, stops: bool)
      ensures updated.id in tasks ==> cloned == Merged(tasks[updated.id], updated)
      ensures updated.id !in tasks ==> cloned == Task(updated.gid, updated.status, updated.created)
      ensures stops <==> updated.id in tasks && !IsStopped(tasks[updated.id].status) && IsStopped(updated.status)
    {
      cloned, stops := Task(updated.gid, updated.status, updated.created), false;
      if updated.id in tasks {
        var existing := tasks[updated.id];
        if !IsStopped(existing.status) && IsStopped(cloned.status) {
          stops := true;
        }
        if cloned.gid == "" {
          cloned := cloned.(gid := existing.gid);
        }
        if cloned.created == 0 {
          cloned := cloned.(created := existing.created);
        }
      }
    }

    method StartTaskByID(id: Id) returns (err: Option<Error>)
      requires Valid()
      modifies this`tasks, this`numStoppedTotal, this`log
      modifies driver`reported, driver`started, driver`commands, driver`asked
      ensures Valid()
      ensures id !in old(tasks) ==> err == Some(TaskNotFound)
      ensures err.Some? ==> log == old(log) && Now() == old(Now())
      ensures err.None? ==> |log| == |old(log)| + 1 && old(log) <= log && log[|log| - 1].Started?
      ensures err.None? ==> Touched(old(tasks), tasks, id) && tasks[id].status != Waiting
      ensures NumActive(tasks) <= NumActive(old(tasks)) + (if IsActive(old(tasks), id) then 0 else 1)
      ensures err.None? && NumActive(old(tasks)) < maxConcurrent ==> Extends(init, old(log), log)
      ensures driver.commands == old(driver.commands) + if id in old(tasks) then [StartCmd(id)] else []
      ensures old(driver.asked) <= driver.asked
    {
      hide Run, AllLegal, NumActive;
      if id !in tasks {
        return Some(TaskNotFound);
      }
      err := driver.Start(id);
      if err.Some? {
        return;
      }
      var told := driver.TellStatus(id);
      var updated := told.value;
      ReportTouches(Now(), updated);
      ActiveAfterReport(Now(), updated);
      if NumActive(tasks) < maxConcurrent {
        ExtendsAppend(init, log, Started(updated));
      }
      var _ := StoreTask(updated, Started(updated));
      return None;
    }

    method SyncTaskByID(id: Id) returns (r: Result<Task, Error>)
      requires Valid()
      modifies this`tasks, this`numStoppedTotal, this`log
      modifies driver`reported, driver`started, driver`commands, driver`asked
      ensures Valid() && OnlySyncs(old(log), log)
      ensures id !in old(tasks) ==> r == Err(TaskNotFound)
      ensures r.Err? ==> Now() == old(Now()) && log == old(log)
      ensures log == old(log) || (|log| == |old(log)| + 1 && log[|old(log)|].report.id == id)
      ensures log == old(log) ==> tasks == old(tasks)
      ensures id in old(tasks) ==> Touched(old(tasks), tasks, id) && Refreshed(old(tasks), tasks)
      ensures r.Ok? ==> id in tasks && r.value == tasks[id]
      ensures driver.commands == old(driver.commands)
      ensures driver.asked == old(driver.asked) + if id in old(tasks) then [id] else []
    {
      hide Run, AllLegal;
      if id !in tasks {
        return Err(TaskNotFound);
      }
      var told := driver.TellStatus(id);
      match told {
        case Err(e) =>
          if e == TaskNotFound {
            return Ok(tasks[id]);
          }
          return Err(e);
        case Ok(updated) =>
          ReportTouches(Now(), updated);
          var stored := StoreTask(updated, Synced(updated));
          return Ok(stored);
      }
    }

    /** `startTaskByID` with the `tellStatusByID` that follows it everywhere; an error of the latter is ignored. */
    method StartAndTell(id: Id) returns (err: Option<Error>)
      requires Valid()
      modifies this`tasks, this`numStoppedTotal, this`log
      modifies driver`reported, driver`started, driver`commands, driver`asked
      ensures Valid() && OnlyReports(old(log), log)
      ensures id !in old(tasks) ==> err == Some(TaskNotFound)
      ensures err.Some? ==> log == old(log) && Now() == old(Now())
      ensures err.None? ==> Touched(old(tasks), tasks, id) && tasks[id].status != Waiting
      ensures err.None? && NumActive(old(tasks)) < maxConcurrent ==> Extends(init, old(log), log)
      ensures driver.commands == old(driver.commands) + if id in old(tasks) then [StartCmd(id)] else []
      ensures old(driver.asked) <= driver.asked
    {
      hide Run, AllLegal, NumActive, Extends;
      err := StartTaskByID(id);
      if err.Some? {
        return;
      }
      ghost var before := log;
      var _ := SyncTaskByID(id);
      SyncsRefresh(init, before, log);
      if NumActive(old(tasks)) < maxConcurrent {
        ExtendsTrans(init, old(log), before, log);
      }
    }

    /** `SaveSession`: every task is refreshed on the way; the store may refuse. */
    method SaveSession() returns (err: Option<Error>)
      requires Valid()
      modifies this`tasks, this`numStoppedTotal, this`log
      modifies driver`reported, driver`started, driver`commands, driver`asked
      ensures Valid() && OnlySyncs(old(log), log)
      ensures Refreshed(old(tasks), tasks)
      ensures Extends(init, old(log), log)
      ensures err.None? || err == Some(StoreFailed)
      ensures !hasStore ==> err.None? && log == old(log)
      ensures driver.commands == old(driver.commands)
      ensures Asked(old(driver.asked), driver.asked, if hasStore then old(tasks).Keys else {})
    {
      hide Run, AllLegal;
      SyncsRefresh(init, log, log);
      if !hasStore {
        return None;
      }
      var ids := SnapshotTaskIDsByStatus({Waiting, Active, Paused, Complete, Errored, Removed});
      for i := 0 to |ids|
        invariant Valid() && OnlySyncs(old(log), log) && tasks.Keys == old(tasks).Keys
        invariant driver.commands == old(driver.commands)
        invariant old(driver.asked) <= driver.asked && driver.asked[|old(driver.asked)|..] == ids[..i]
      {
        assert ids[i] in ids;
        var _ := SyncTaskByID(ids[i]);
        assert ids[..i + 1] == ids[..i] + [ids[i]];
      }
      assert ids[..|ids|] == ids;
      SyncsRefresh(init, old(log), log);
      var failed: bool := *;
      return if failed then Some(StoreFailed) else None;
    }

    // ---- The slots ---------------------------------------------------------------------------

    /**
     `fillSlots`. `started` lists the tasks it started and `full` is where in the history its
     loop ended: unless a driver failed, no slot was free then or nothing waited. The started
     tasks are the oldest waiting ones, started from the oldest on.
     */
    method FillSlots() returns (err: Option<Error>, ghost started: seq<Id>, ghost full: nat)
      requires Valid()
      modifies this`tasks, this`numStoppedTotal, this`log
      modifies driver`reported, driver`started, driver`commands, driver`asked
      ensures Valid() && Extends(init, old(log), log) && OnlyReports(old(log), log)
      ensures full <= |log| && old(log) <= log[..full] && OnlySyncs(log[..full], log)
      ensures SlotsFilled(old(tasks), Run(init, log[..full]).tasks, started)
      ensures FillAt(init, log, |old(log)|, full, started)
      ensures err.None? ==> WorkConserved(init, log, full)
      ensures Filled(old(tasks), tasks)
      ensures OnlyStarts(old(driver.commands), driver.commands)
      ensures err.None? ==> driver.commands == old(driver.commands) + Starts(started)
      ensures old(driver.asked) <= driver.asked
    {
      hide Run, AllLegal, NumActive, SlotsFilled, Extends, Filled, Starts, OnlyStarts;
      var startedAny;
      err, startedAny, started := FillLoop();
      full := |log|;
      assert log[..full] == log && log[..|old(log)|] == old(log);
      NoSyncs(log);
      SlotsFilledKeeps(old(tasks), tasks, started);
      if err.None? && startedAny {
        ghost var before, was := log, tasks;
        err := SaveSession();
        ExtendsTrans(init, old(log), before, log);
        assert log[..full] == before && log[..|old(log)|] == old(log);
        FilledThenRefreshed(old(tasks), was, tasks);
      }
    }

    /** The loop of `fillSlots`. */
    method FillLoop() returns (err: Option<Error>, startedAny: bool, ghost started: seq<Id>)
      requires Valid()
      modifies this`tasks, this`numStoppedTotal, this`log
      modifies driver`reported, driver`started, driver`commands, driver`asked
      ensures Valid() && Extends(init, old(log), log) && OnlyReports(old(log), log)
      ensures SlotsFilled(old(tasks), tasks, started) && (err.None? ==> (startedAny <==> started != []))
      ensures err.None? ==> NumActive(tasks) >= maxConcurrent || WaitingIds(tasks) == {}
      ensures OnlyStarts(old(driver.commands), driver.commands)
      ensures err.None? ==> driver.commands == old(driver.commands) + Starts(started)
      ensures old(driver.asked) <= driver.asked
    {
      hide Run, AllLegal, NumActive, SlotsFilled, Extends, Refreshed, Touched, Starts, OnlyStarts, OnlyReports;
      NoStarts(driver.commands);
      NoReports(log);
      SlotsUnfilled(tasks);
      ExtendsSelf(init, log);
      started, startedAny, err := [], false, None;
      while true
        invariant Valid() && Extends(init, old(log), log) && OnlyReports(old(log), log) && err.None?
        invariant SlotsFilled(old(tasks), tasks, started)
        invariant startedAny <==> started != []
        invariant driver.commands == old(driver.commands) + Starts(started) && old(driver.asked) <= driver.asked
        decreases WaitingIds(tasks)
      {
        StartsSnoc(old(driver.commands), started, "");
        var free := ShouldStartImmediately();
        if !free {
          break;
        }
        var next := NextWaitingTaskID();
        if next.None? {
          break;
        }
        ghost var before, was := log, tasks;
        StartsSnoc(old(driver.commands), started, next.value);
        err := StartAndTell(next.value);
        if err.Some? {
          return;
        }
        ExtendsTrans(init, old(log), before, log);
        OnlyReportsTrans(old(log), before, log);
        OneMoreStarted(old(tasks), was, tasks, started, next.value);
        startedAny := true;
        started := started + [next.value];
      }
    }

    // ---- The queue ------------------------------------------------------------------------------

    /** `applyQueueOrder`, task by task. */
    method ApplyQueueOrder(ids: seq<Id>, now: int)
      requires Valid() && Lists(ids, QueuedIds(tasks))
      modifies this`tasks, this`log
      ensures Valid() && log == old(log) + [Reordered(ids, now)]
      ensures Now() == Apply(old(Now()), Reordered(ids, now))
    {
      hide Run, AllLegal;
      RunAppend(init, log, Reordered(ids, now));
      LegalAppend(init, log, Reordered(ids, now));
      ghost var first := tasks;
      var base := QueueBase(now, |ids|);
      for i := 0 to |ids|
        invariant tasks == Stamp(first, ids[..i], base) && log == old(log)
      {
        assert ids[..i + 1][..i] == ids[..i];
        if ids[i] in tasks {
          tasks := tasks[ids[i] := tasks[ids[i]].(created := base + i * MILLISECOND)];
        }
      }
      assert ids[..|ids|] == ids;
      StampKeepsQueued(first, ids, base);
      StampFacts(first, ids, base);
      log := log + [Reordered(ids, now)];
    }

    /** `insertTaskAtQueuePosition`; `who` is the task meant. */
    method InsertTaskAtQueuePosition(gid: string, position: int, now: int)
      returns (err: Option<Error>, ghost who: Option<Id>)
      requires Valid()
      modifies this`tasks, this`log
      ensures Valid() && old(log) <= log && Extends(init, old(log), log) && maxConcurrent == old(maxConcurrent)
      ensures err == (if who.None? then Some(TaskNotFound) else None) && IsTaskOf(old(tasks), gid, who)
      ensures who.None? || !IsQueued(old(tasks)[who.value].status) ==> log == old(log) && tasks == old(tasks)
      ensures who.Some? && IsQueued(old(tasks)[who.value].status) ==>
        var others := |OrderedQueue(old(tasks))| - 1;
        others >= 0 && QueueMoved(old(tasks), tasks, who.value, InsertionPlace(position, others))
      ensures Restamped(old(tasks), tasks)
      ensures log == old(log)
        || (|log| == |old(log)| + 1 && old(log) <= log && log[|old(log)|].Reordered? && log[|old(log)|].now == now)
    {
      hide Run, AllLegal, OrderedQueue, QueueMoved, Extends, MovesOnly;
      ExtendsSelf(init, log);
      var found := LookupByGID(gid);
      who := found;
      if found.None? {
        return Some(TaskNotFound), who;
      }
      if !IsQueued(tasks[found.value].status) {
        return None, who;
      }
      var queue := OrderedQueueTaskIDs(tasks);
      QueueLists(tasks);
      assert found.value in QueuedIds(tasks);
      var reordered := InsertedOrder(queue, found.value, position);
      InsertedMoves(tasks, found.value, position, reordered, now);
      ExtendsAppend(init, log, Reordered(reordered, now));
      ApplyQueueOrder(reordered, now);
      return None, who;
    }

    /**
     `ChangePosition`. `who` is the task meant and `moved` where in the history the queue had
     its new order; after that the session is saved. The task lands at the returned index
     when it moves back or stays, one place short of it when it moves forward.
     */
    method ChangePosition(gid: string, pos: int, how: string, now: int)
      returns (index: int, err: Option<Error>, ghost who: Option<Id>, ghost from: nat, ghost moved: nat)
      requires Valid()
      modifies this`tasks, this`numStoppedTotal, this`log
      modifies driver`reported, driver`started, driver`commands, driver`asked
      ensures Valid() && Extends(init, old(log), log)
      ensures moved <= |log| && old(log) <= log[..moved] && OnlySyncs(log[..moved], log)
      ensures IsTaskOf(old(tasks), gid, who) && (who.None? ==> err == Some(TaskNotFound))
      ensures who.Some? && !IsQueued(old(tasks)[who.value].status) ==> err == Some(NotInQueue)
      ensures who.Some? && IsQueued(old(tasks)[who.value].status) ==>
        Repositioned(old(tasks), who.value, pos, how, index, err, from, Run(init, log[..moved]).tasks)
      ensures err.Some? && err != Some(StoreFailed) ==> index == 0 && log == old(log)
      ensures driver.commands == old(driver.commands)
      ensures MoveReports(log, |old(log)|, now)
    {
      hide Run, AllLegal, OrderedQueue, QueueMoved, Extends;
      from, moved := 0, |log|;
      ExtendsSelf(init, log);
      assert log[..moved] == log;
      var found := LookupByGID(gid);
      who := found;
      if found.None? {
        return 0, Some(TaskNotFound), who, from, moved;
      }
      if !IsQueued(tasks[found.value].status) {
        return 0, Some(NotInQueue), who, from, moved;
      }
      var queue := OrderedQueueTaskIDs(tasks);
      var current := FindInQueue(queue, found.value);
      from := current;
      var resolved := ResolveQueueIndex(current, |queue|, pos, how);
      if resolved.Err? {
        return 0, Some(resolved.error), who, from, moved;
      }
      index := resolved.value;
      MoveInQueue(queue, found.value, current, index, now);
      moved := |log|;
      ghost var before := log;
      assert log[..moved] == log;
      err := SaveSession();
      StillMoveReports(before, log, |old(log)|, now);
      ExtendsTrans(init, old(log), before, log);
      assert log[..moved] == before;
    }

    method FindInQueue(queue: seq<Id>, id: Id) returns (current: nat)
      requires queue == OrderedQueue(tasks) && id in tasks && IsQueued(tasks[id].status)
      ensures current < |queue| && queue[current] == id
    {
      assert id in QueuedIds(tasks);
      current := 0;
      while queue[current] != id
        invariant 0 <= current < |queue| && forall j | 0 <= j < current :: queue[j] != id
        decreases |queue| - current
      {
        current := current + 1;
      }
    }

    /** The reordering of `ChangePosition`; nothing when the task is there already. */
    method MoveInQueue(queue: seq<Id>, id: Id, current: nat, index: nat, now: int)
      requires Valid() && queue == OrderedQueue(tasks)
      requires current < |queue| && queue[current] == id && index < |queue|
      modifies this`tasks, this`log
      ensures Valid() && old(log) <= log && Extends(init, old(log), log)
      ensures QueueMoved(old(tasks), tasks, id, Landing(current, index))
      ensures MoveReports(log, |old(log)|, now)
    {
      hide Run, AllLegal, OrderedQueue, QueueMoved, Extends;
      ExtendsSelf(init, log);
      if index == current {
        NotMoved(tasks, id, current);
        return;
      }
      var reordered := ReorderQueueIDs(queue, current, index);
      QueueLists(tasks);
      StampMoves(tasks, id, current, reordered, Landing(current, index), now);
      MovesOnlyLists(queue, current, reordered, Landing(current, index), QueuedIds(tasks));
      ExtendsAppend(init, log, Reordered(reordered, now));
      ApplyQueueOrder(reordered, now);
    }

    // ---- The operations ---------------------------------------------------------------------------

    /** The pause of one task, as Pause and Add with a pause make it. */
    method PauseOne(id: Id) returns (r: Result<Task, Error>)
      requires Valid() && id in tasks
      modifies this`tasks, this`numStoppedTotal, this`log
      modifies driver`reported, driver`started, driver`commands, driver`asked
      ensures Valid() && OnlySyncs(old(log), log) && Extends(init, old(log), log)
      ensures Touched(old(tasks), tasks, id) && Refreshed(old(tasks), tasks)
      ensures r.Ok? ==> r.value == tasks[id] && |log| == |old(log)| + 1 && log[|old(log)|].report.id == id
      ensures r.Err? ==> Now() == old(Now()) && log == old(log)
      ensures driver.commands == old(driver.commands) + [PauseCmd(id)]
    {
      hide Run, AllLegal;
      ExtendsSelf(init, log);
      var err := driver.Pause(id);
      if err.Some? {
        return Err(err.value);
      }
      var told := driver.TellStatus(id);
      if !told.Ok? {
        return Err(told.error);
      }
      ReportTouches(Now(), told.value);
      ExtendsAppend(init, log, Synced(told.value));
      var stored := StoreTask(told.value, Synced(told.value));
      return Ok(stored);
    }

    /**
     `Add`. The first thing that happens is that the new task `t` enters the map; by `entered` it,
     or rather `placed`, a task of its group id, stands at the queue position asked for; without
     one it stands last, if no queued task has a later time, or the same and a larger id. A
     new task that is to be paused, or finds no free slot, is not active at the end; one that
     finds a free slot is started, or the call fails.
     */
    method Add(input: AddTaskInput, now: int)
      returns (r: Result<Task, Error>, ghost id: Id, ghost t: Task, ghost placed: Id, ghost entered: nat)
      requires Valid()
      modifies this`tasks, this`numStoppedTotal, this`log
      modifies driver
      ensures Valid() && old(log) <= log && Extends(init, old(log), log)
      ensures r.Ok? ==> id in tasks && tasks[id] == r.value
      ensures r.Ok? ==> tasks.Keys == old(tasks).Keys + {id}
      ensures r.Ok? ==>
        && |old(log)| < entered <= |log| && log[|old(log)|] == Event.Insert(id, t)
        && QueuePlace(old(tasks)[id := t], Run(init, log[..entered]).tasks, t.gid, placed, input.queuePosition)
      ensures log == old(log) <==> driver.offers == old(driver.offers)
      ensures log != old(log) ==>
        && |driver.offers| == |old(driver.offers)| + 1 && old(driver.offers) <= driver.offers
        && var offer := driver.offers[|old(driver.offers)|];
           && id == offer.id && t == AddedTask(input, offer, now) && (offer.created == 0 ==> t.created == now)
           && t.status == offer.status && (input.gid != "" ==> t.gid == input.gid)
           && (input.gid == "" && offer.gid != "" ==> t.gid == offer.gid)
           && old(log) < log && log[|old(log)|] == Event.Insert(id, t) && AddReports(log, |old(log)| + 1, now)
      ensures r.Ok? && input.queuePosition < 0 && IsQueued(t.status) && id !in QueuedIds(old(tasks)) ==>
        (OrderedQueue(Run(init, log[..entered]).tasks) == OrderedQueue(old(tasks)) + [id]
         <==> forall q | q in QueuedIds(old(tasks)) :: IsBefore(old(tasks), q, id, t.created))
      ensures r.Ok? && id !in old(tasks) ==>
        if startPaused || input.pause || NumActive(old(tasks)) >= maxConcurrent
        then r.value.status != Active
        else r.value.status != Waiting
      ensures r.Ok? && id !in old(tasks) ==>
        driver.commands == old(driver.commands) +
          if startPaused || input.pause then [PauseCmd(id)]
          else if NumActive(old(tasks)) < maxConcurrent then [StartCmd(id)]
          else []
    {
      hide Run, AllLegal, NumActive, Extends, AddReports, OrderedQueue, IsBefore, QueuePlace, QueuedIds;
      ExtendsSelf(init, log);
      id, placed, entered := "", "", 0;
      var item, task := NewTask(input, now);
      t := task;
      if !item.Ok? {
        r := Err(item.error);
        return;
      }
      id := item.value.id;
      r, placed, entered := AddNew(item.value.id, task, input, now);
    }

    /** Add from the driver's new task on. */
    method AddNew(id: Id, t: Task, input: AddTaskInput, now: int)
      returns (r: Result<Task, Error>, ghost placed: Id, ghost entered: nat)
      requires Told() && driver.started == {} && driver.Seen(id) == t.status && t.status != Active
      requires forall x | x in tasks && x != id :: driver.Seen(x) == tasks[x].status
      modifies this`tasks, this`numStoppedTotal, this`log
      modifies driver`reported, driver`started, driver`commands, driver`asked
      ensures Valid() && Extends(init, old(log), log)
      ensures old(log) + [Event.Insert(id, t)] <= log && AddReports(log, |old(log)| + 1, now)
      ensures r.Ok? ==> id in tasks && tasks[id] == r.value && tasks.Keys == old(tasks).Keys + {id}
      ensures r.Ok? ==>
        && |old(log)| < entered <= |log|
        && QueuePlace(old(tasks)[id := t], Run(init, log[..entered]).tasks, t.gid, placed, input.queuePosition)
      ensures r.Ok? && input.queuePosition < 0 && IsQueued(t.status) && id !in QueuedIds(old(tasks)) ==>
        (OrderedQueue(Run(init, log[..entered]).tasks) == OrderedQueue(old(tasks)) + [id]
         <==> forall q | q in QueuedIds(old(tasks)) :: IsBefore(old(tasks), q, id, t.created))
      ensures r.Ok? && id !in old(tasks) ==>
        if startPaused || input.pause || NumActive(old(tasks)) >= maxConcurrent
        then r.value.status != Active
        else r.value.status != Waiting
      ensures r.Ok? && id !in old(tasks) ==>
        driver.commands == old(driver.commands) +
          if startPaused || input.pause then [PauseCmd(id)]
          else if NumActive(old(tasks)) < maxConcurrent then [StartCmd(id)]
          else []
    {
      hide Run, AllLegal, NumActive, Extends, Restamped, AddReports, OnlyReports, Told;
      hide OrderedQueue, IsBefore, QueuePlace, QueuedIds;
      var err;
      err, placed := Enter(id, t, input.queuePosition, now);
      entered := |log|;
      ghost var after, ts := log, tasks;
      assert log[..entered] == after;
      EnteredIsInactive(old(tasks), id, t, tasks);
      LastWithoutPosition(old(tasks), id, t, tasks, placed, input.queuePosition, err);
      if err.None? {
        err := PauseOrStartAndSave(id, startPaused || input.pause);
        ExtendsTrans(init, old(log), after, log);
        StillAddReports(after, log, |old(log)| + 1, now);
        assert log[..entered] == after;
      }
      r := if err.Some? then Err(err.value) else Ok(tasks[id]);
    }

    /** The driver's new task, and what Add makes of it. */
    method NewTask(input: AddTaskInput, now: int) returns (item: Result<Report, Error>, t: Task)
      requires Valid()
      modifies driver`reported, driver`started, driver`offers
      ensures driver.offers == old(driver.offers) + if item.Ok? then [item.value] else []
      ensures item.Err? ==> driver.reported == old(driver.reported) && driver.started == old(driver.started)
      ensures item.Ok? ==>
        && t == AddedTask(input, item.value, now) && t.status != Active && driver.started == {}
        && driver.Seen(item.value.id) == t.status
        && forall x | x in tasks && x != item.value.id :: driver.Seen(x) == tasks[x].status
    {
      t := Task("", Waiting, 0);
      item := driver.Add();
      if !item.Ok? {
        return;
      }
      var gid, createdAt := item.value.gid, item.value.created;
      if input.gid != "" {
        gid := input.gid;
      } else if gid == "" {
        gid := input.newGID;
      }
      if createdAt == 0 {
        createdAt := now;
      }
      t := Task(gid, item.value.status, createdAt);
    }

    /** The end of Add: the task is paused or started, and the session saved. */
    method PauseOrStartAndSave(id: Id, pause: bool) returns (err: Option<Error>)
      requires Valid() && id in tasks
      modifies this`tasks, this`numStoppedTotal, this`log
      modifies driver`reported, driver`started, driver`commands, driver`asked
      ensures Valid() && OnlyReports(old(log), log) && Extends(init, old(log), log) && tasks.Keys == old(tasks).Keys
      ensures err.None? ==>
        if pause || NumActive(old(tasks)) >= maxConcurrent
        then tasks[id].status == Active ==> old(tasks)[id].status == Active
        else tasks[id].status != Waiting
      ensures driver.commands == old(driver.commands) +
        if pause then [PauseCmd(id)] else if NumActive(old(tasks)) < maxConcurrent then [StartCmd(id)] else []
    {
      hide Run, AllLegal, NumActive, Extends, OnlyReports;
      err := PauseOrStart(id, pause);
      if err.None? {
        ghost var before := log;
        err := SaveSession();
        SyncsAreReports(before, log);
        OnlyReportsTrans(old(log), before, log);
        ExtendsTrans(init, old(log), before, log);
      }
    }

    /** The second half of Add: the task is paused, or started when a slot is free. */
    method PauseOrStart(id: Id, pause: bool) returns (err: Option<Error>)
      requires Valid() && id in tasks
      modifies this`tasks, this`numStoppedTotal, this`log
      modifies driver`reported, driver`started, driver`commands, driver`asked
      ensures Valid() && OnlyReports(old(log), log) && Extends(init, old(log), log) && tasks.Keys == old(tasks).Keys
      ensures err.None? ==>
        if pause || NumActive(old(tasks)) >= maxConcurrent
        then tasks[id].status == Active ==> old(tasks)[id].status == Active
        else tasks[id].status != Waiting
      ensures driver.commands == old(driver.commands) +
        if pause then [PauseCmd(id)] else if NumActive(old(tasks)) < maxConcurrent then [StartCmd(id)] else []
    {
      hide Run, AllLegal, NumActive, Extends;
      ExtendsSelf(init, log);
      NoReports(log);
      if pause {
        var paused := PauseOne(id);
        SyncsAreReports(old(log), log);
        return if paused.Err? then Some(paused.error) else None;
      }
      var free := ShouldStartImmediately();
      if !free {
        return None;
      }
      err := StartAndTell(id);
    }

    /** The first half of Add: the new task enters the map, and the queue where it is asked to. */
    method Enter(id: Id, t: Task, position: int, now: int) returns (err: Option<Error>, ghost placed: Id)
      requires Told() && driver.started == {} && driver.Seen(id) == t.status && t.status != Active
      requires forall x | x in tasks && x != id :: driver.Seen(x) == tasks[x].status
      modifies this`tasks, this`log
      ensures Valid() && Extends(init, old(log), log)
      ensures old(log) + [Event.Insert(id, t)] <= log && AddReports(log, |old(log)| + 1, now)
      ensures Run(init, log).tasks == tasks
      ensures Restamped(old(tasks)[id := t], tasks)
      ensures err.None? ==> QueuePlace(old(tasks)[id := t], tasks, t.gid, placed, position)
    {
      hide Run, AllLegal, Extends, OrderedQueue, QueueMoved;
      Insert(id, t);
      err, placed := None, id;
      if position >= 0 {
        ghost var before := log;
        var e, who := InsertTaskAtQueuePosition(t.gid, position, now);
        err := e;
        if who.Some? {
          placed := who.value;
        }
        ExtendsTrans(init, old(log), before, log);
      }
    }

    /** The new task enters the map. */
    method Insert(id: Id, t: Task)
      requires Told() && driver.started == {} && driver.Seen(id) == t.status && t.status != Active
      requires forall x | x in tasks && x != id :: driver.Seen(x) == tasks[x].status
      modifies this`tasks, this`log
      ensures Valid() && log == old(log) + [Event.Insert(id, t)] && tasks == old(tasks)[id := t]
      ensures Extends(init, old(log), log)
    {
      hide Run, AllLegal;
      RunAppend(init, log, Event.Insert(id, t));
      LegalAppend(init, log, Event.Insert(id, t));
      ExtendsAppend(init, log, Event.Insert(id, t));
      tasks := tasks[id := t];
      log := log + [Event.Insert(id, t)];
    }

    /**
     `Pause`. The first thing that happens is the report on the paused task; later, from `at` on,
     the slots are filled. A task the driver reports paused stays so while others are started.
     */
    method Pause(gid: string)
      returns (r: Result<Task, Error>, ghost who: Option<Id>, ghost at: nat, ghost full: nat, ghost started: seq<Id>)
      requires Valid()
      modifies this`tasks, this`numStoppedTotal, this`log
      modifies driver`reported, driver`started, driver`commands, driver`asked
      ensures Valid() && Extends(init, old(log), log) && OnlyReports(old(log), log) && tasks.Keys == old(tasks).Keys
      ensures IsTaskOf(old(tasks), gid, who) && (who.None? ==> r == Err(TaskNotFound) && log == old(log))
      ensures who.Some? ==> OnlyStarts(old(driver.commands) + [PauseCmd(who.value)], driver.commands)
      ensures r.Ok? ==> who.Some? && old(log) < log && log[|old(log)|].Synced? && log[|old(log)|].report.id == who.value
      ensures r.Ok? ==> |old(log)| < at && FillAt(init, log, at, full, started) && WorkConserved(init, log, full)
      ensures r.Ok? ==> driver.commands == old(driver.commands) + [PauseCmd(who.value)] + Starts(started)
      ensures r.Ok? && IsPausedOrStopped(r.value.status) ==>
        tasks[who.value].status != Active && tasks[who.value].status != Waiting
    {
      hide Run, AllLegal, SlotsFilled, WorkConserved, Extends, FillAt;
      ExtendsSelf(init, log);
      NoSyncs(log);
      at, full, started := |log|, |log|, [];
      var found := LookupByGID(gid);
      who := found;
      if found.None? {
        r := Err(TaskNotFound);
        return;
      }
      r := PauseOne(found.value);
      SyncsAreReports(old(log), log);
      if r.Err? {
        return;
      }
      ghost var before := log;
      var err;
      err, at, full, started := SaveAndFill();
      ExtendsTrans(init, old(log), before, log);
      OnlyReportsTrans(old(log), before, log);
      if err.Some? {
        r := Err(err.value);
      }
    }

    /** The end of Pause and Remove: the session is saved, then, from `at` on, the slots are filled. */
    method SaveAndFill() returns (err: Option<Error>, ghost at: nat, ghost full: nat, ghost started: seq<Id>)
      requires Valid()
      modifies this`tasks, this`numStoppedTotal, this`log
      modifies driver`reported, driver`started, driver`commands, driver`asked
      ensures Valid() && Extends(init, old(log), log) && OnlyReports(old(log), log) && Filled(old(tasks), tasks)
      ensures err.None? ==> |old(log)| <= at && FillAt(init, log, at, full, started) && WorkConserved(init, log, full)
      ensures OnlyStarts(old(driver.commands), driver.commands)
      ensures err.None? ==> driver.commands == old(driver.commands) + Starts(started)
    {
      hide Run, AllLegal, SlotsFilled, WorkConserved, Extends, FillAt;
      at, full, started := |log|, |log|, [];
      err := SaveSession();
      SyncsAreReports(old(log), log);
      if err.None? {
        ghost var before := log;
        at := |log|;
        err, started, full := FillSlots();
        ExtendsTrans(init, old(log), before, log);
        OnlyReportsTrans(old(log), before, log);
      }
    }

    /** `PauseAll`: nothing is started, so no task becomes active. */
    method PauseAll() returns (err: Option<Error>)
      requires Valid()
      modifies this`tasks, this`numStoppedTotal, this`log
      modifies driver`reported, driver`started, driver`commands, driver`asked
      ensures Valid() && OnlySyncs(old(log), log) && Extends(init, old(log), log)
      ensures Refreshed(old(tasks), tasks)
      ensures err.None? ==>
        driver.commands == old(driver.commands) + Pauses(SortedKeys(Ids(old(tasks), {Active, Waiting})))
    {
      hide Run, AllLegal, Extends, Pauses, OnlySyncs, Asked;
      NoPauses(driver.commands);
      NoSyncs(log);
      var ids := SnapshotTaskIDsByStatus({Active, Waiting});
      for i := 0 to |ids|
        invariant Valid() && OnlySyncs(old(log), log) && Refreshed(old(tasks), tasks)
        invariant driver.commands == old(driver.commands) + Pauses(ids[..i])
      {
        ghost var before := log;
        assert ids[i] in ids && ids[i] in Ids(old(tasks), {Active, Waiting});
        PausesSnoc(old(driver.commands), ids, i);
        err := PauseTaskByID(ids[i]);
        OnlySyncsTrans(old(log), before, log);
        if err.Some? && err.value != TaskNotFound {
          SyncsRefresh(init, old(log), log);
          return;
        }
      }
      assert ids[..|ids|] == ids;
      SortedKeysUnique(ids, Ids(old(tasks), {Active, Waiting}));
      ghost var before := log;
      err := SaveSession();
      OnlySyncsTrans(old(log), before, log);
      SyncsRefresh(init, old(log), log);
    }

    /** `pauseTaskByID` for a task that is there. */
    method PauseTaskByID(id: Id) returns (err: Option<Error>)
      requires Valid() && id in tasks
      modifies this`tasks, this`numStoppedTotal, this`log
      modifies driver`reported, driver`started, driver`commands, driver`asked
      ensures Valid() && OnlySyncs(old(log), log) && Refreshed(old(tasks), tasks)
      ensures driver.commands == old(driver.commands) + [PauseCmd(id)]
    {
      hide Run, AllLegal, Extends, OnlySyncs, Asked;
      var paused := PauseOne(id);
      if paused.Err? {
        return Some(paused.error);
      }
      ghost var before := log;
      err := SaveSession();
      OnlySyncsTrans(old(log), before, log);
    }

    /** `Remove`, run alone: the task is gone, and from `at` on the slots are filled, or nothing has changed. */
    method Remove(gid: string)
      returns (r: Result<Report, Error>, ghost who: Option<Id>, ghost at: nat, ghost full: nat, ghost started: seq<Id>)
      requires Valid()
      modifies this`tasks, this`numStoppedTotal, this`log
      modifies driver`reported, driver`started, driver`commands, driver`asked
      ensures Valid() && old(log) <= log && Extends(init, old(log), log)
      ensures IsTaskOf(old(tasks), gid, who) && (who.None? ==> r == Err(TaskNotFound))
      ensures who.Some? ==> OnlyStarts(old(driver.commands) + [RemoveCmd(who.value)], driver.commands)
      ensures r.Ok? ==> who == Some(r.value.id) && r.value.id !in tasks
      ensures r.Ok? ==> |old(log)| < at && FillAt(init, log, at, full, started) && WorkConserved(init, log, full)
      ensures r.Ok? ==> driver.commands == old(driver.commands) + [RemoveCmd(r.value.id)] + Starts(started)
      ensures if who.Some? && who.value !in tasks
        then tasks.Keys == old(tasks).Keys - {who.value}
        else log == old(log) && tasks == old(tasks)
      ensures log == old(log) || (who.Some? && OnlyReports(old(log) + [Detached(who.value)], log))
    {
      hide Run, AllLegal, SlotsFilled, WorkConserved, Extends, FillAt;
      ExtendsSelf(init, log);
      at, full, started := |log|, |log|, [];
      var found := LookupByGID(gid);
      who := found;
      if found.None? {
        r := Err(TaskNotFound);
        return;
      }
      var err := driver.Remove(found.value);
      if err.Some? {
        r := Err(err.value);
        return;
      }
      var told := driver.TellStatus(found.value);
      if !told.Ok? {
        r := Err(told.error);
        return;
      }
      DetachTask(found.value);
      ghost var before := log;
      err, at, full, started := SaveAndFill();
      ExtendsTrans(init, old(log), before, log);
      r := if err.Some? then Err(err.value) else Ok(told.value);
    }

    /** The deletion in `detachTask`; the driver may have reported on the task since it was last stored. */
    method DetachTask(id: Id)
      requires Told() && driver.started == {} && id in tasks
      requires forall x | x in tasks && x != id :: driver.Seen(x) == tasks[x].status
      modifies this`tasks, this`log
      ensures Valid() && log == old(log) + [Detached(id)] && tasks == old(tasks) - {id}
      ensures Extends(init, old(log), log)
    {
      hide Run, AllLegal;
      RunAppend(init, log, Detached(id));
      LegalAppend(init, log, Detached(id));
      ExtendsAppend(init, log, Detached(id));
      tasks := tasks - {id};
      log := log + [Detached(id)];
    }

    /**
     `SyncActive`. The tasks active at first are refreshed one after the other, in the order of
     their ids, the `i`-th between `marks[i]` and `marks[i + 1]` of the history: when it is
     complete then, the slots are filled right away, and otherwise nothing else happens. So
     something is filled if and only if one of these tasks is complete at some point from the
     call on; a task that ended in an error does not count.
     */
    method SyncActive() returns (err: Option<Error>, ghost filled: bool, ghost marks: seq<nat>, ghost fills: seq<Fill>)
      requires Valid()
      modifies this`tasks, this`numStoppedTotal, this`log
      modifies driver`reported, driver`started, driver`commands, driver`asked
      ensures Valid() && Extends(init, old(log), log) && OnlyReports(old(log), log) && tasks.Keys == old(tasks).Keys
      ensures OnlyStarts(old(driver.commands), driver.commands)
      ensures err.None? ==> Asked(old(driver.asked), driver.asked, Ids(old(tasks), {Active}))
      ensures err.None? ==>
        var ids := SortedKeys(Ids(old(tasks), {Active}));
        && FilledInTurn(init, |old(log)|, log, marks, ids, fills)
        && driver.commands == old(driver.commands) + StartsOf(fills)
      ensures filled <==> FoundComplete(init, log, |old(log)|, Ids(old(tasks), {Active}))
      ensures !filled ==> OnlySyncs(old(log), log) && driver.commands == old(driver.commands)
      ensures !filled ==> forall id | id in old(tasks) && old(tasks)[id].status != Active :: tasks[id] == old(tasks)[id]
    {
      hide Run, AllLegal, Extends, OnlyStarts, Asked, FilledInTurn, StartsOf, OnlyReports, FoundComplete, OnlySyncs;
      var ids := SnapshotTaskIDsByStatus({Active});
      InOrder(ids, Ids(tasks, {Active}));
      err, filled, marks, fills := SyncEach(ids);
    }

    /** What a step is judged by: the history, the tasks, and what the driver was asked. */
    ghost function Sight(): View
      reads this, driver
    {
      View(log, tasks, driver.commands, driver.asked)
    }

    /** The loop of SyncActive. */
    method SyncEach(ids: seq<Id>)
      returns (err: Option<Error>, ghost filled: bool, ghost marks: seq<nat>, ghost fills: seq<Fill>)
      requires Valid() && forall i | 0 <= i < |ids| :: ids[i] in Ids(tasks, {Active})
      modifies this`tasks, this`numStoppedTotal, this`log
      modifies driver`reported, driver`started, driver`commands, driver`asked
      ensures Valid()
      ensures Sequel(init, old(Sight()), Sight(), filled)
      ensures err.None? ==> InTurn(init, old(Sight()), Sight(), ids, marks, fills)
    {
      NothingDone(init, Sight());
      assert forall i | 0 <= i < |ids| :: ids[i] in tasks;
      hide Sequel, InTurn, Looked, Turn, Ids;
      filled, marks, fills, err := false, [|log|], [], None;
      for i := 0 to |ids|
        invariant Valid() && err.None? && tasks.Keys == old(tasks).Keys
        invariant Sequel(init, old(Sight()), Sight(), filled)
        invariant InTurn(init, old(Sight()), Sight(), ids[..i], marks, fills)
      {
        ghost var before := Sight();
        var e, refilled, fill := SyncAndRefill(ids[i]);
        err := e;
        SequelOneMore(init, old(Sight()), before, Sight(), filled, refilled, fill, ids[i]);
        filled := filled || refilled;
        if err.Some? {
          return;
        }
        InTurnOneMore(init, old(Sight()), before, Sight(), ids, i, marks, fills, fill);
        marks, fills := marks + [|log|], fills + [fill];
      }
      assert ids[..|ids|] == ids;
    }

    /** One active task in SyncActive: refreshed, and the slots filled when it is complete. */
    method SyncAndRefill(id: Id) returns (err: Option<Error>, ghost refilled: bool, ghost fill: Fill)
      requires Valid() && id in tasks
      modifies this`tasks, this`numStoppedTotal, this`log
      modifies driver`reported, driver`started, driver`commands, driver`asked
      ensures Valid() && tasks.Keys == old(tasks).Keys
      ensures Looked(init, old(Sight()), Sight(), refilled, fill, id)
      ensures err.None? ==> Turn(init, old(Sight()), Sight(), fill, id)
    {
      hide Run, AllLegal, Extends, WorkConserved, OnlyStarts, SlotsFilled, FillAt, OnlyReports, Starts;
      NoStarts(driver.commands);
      refilled, fill, err := false, Fill(|log|, |log|, []), None;
      var updated := SyncTaskByID(id);
      SyncsRefresh(init, old(log), log);
      SyncsAreReports(old(log), log);
      fill := Fill(|log|, |log|, []);
      assert log[..|log|] == log;
      if updated.Err? {
        err := Some(updated.error);
        return;
      }
      if updated.value.status == Complete {
        ghost var before, asked := log, driver.asked;
        refilled := true;
        ghost var started, full;
        err, started, full := FillSlots();
        fill := Fill(|before|, full, started);
        assert log[..|log|] == log && log[..|before|] == before;
        ExtendsTrans(init, old(log), before, log);
        OnlyReportsTrans(old(log), before, log);
        AskedMore(old(driver.asked), asked, driver.asked, {id}, {});
      }
    }

    /** `Unpause`: the task is started whether or not a slot is free. */
    method Unpause(gid: string) returns (r: Result<Task, Error>, ghost who: Option<Id>)
      requires Valid()
      modifies this`tasks, this`numStoppedTotal, this`log
      modifies driver`reported, driver`started, driver`commands, driver`asked
      ensures Valid() && old(log) <= log && tasks.Keys == old(tasks).Keys
      ensures IsTaskOf(old(tasks), gid, who) && (who.None? ==> r == Err(TaskNotFound) && log == old(log))
      ensures r.Ok? ==> who.Some? && tasks[who.value].status != Waiting
      ensures who.Some? ==> driver.commands == old(driver.commands) + [StartCmd(who.value)]
      ensures who.Some? && (IsActive(old(tasks), who.value) || NumActive(old(tasks)) < maxConcurrent) ==>
        NumActive(tasks) <= NumActive(old(tasks)) || NumActive(tasks) <= maxConcurrent
      ensures NumActive(old(tasks)) < maxConcurrent || log == old(log) ==> Extends(init, old(log), log)
    {
      hide Run, AllLegal, Extends, NumActive;
      ExtendsSelf(init, log);
      var found := LookupByGID(gid);
      who := found;
      if found.None? {
        return Err(TaskNotFound), who;
      }
      var err := StartTaskByID(found.value);
      if err.Some? {
        return Err(err.value), who;
      }
      ghost var before, was := log, tasks;
      r := SyncTaskByID(found.value);
      if r.Ok? {
        err := SaveSession();
        if err.Some? {
          r := Err(err.value);
        }
      }
      SyncsRefresh(init, before, log);
      RefreshedActive(was, tasks);
      if NumActive(old(tasks)) < maxConcurrent {
        ExtendsTrans(init, old(log), before, log);
      }
    }

    /** `max-concurrent-downloads` among the global options: a positive number replaces the limit. */
    method ChangeMaxConcurrent(parsed: int)
      requires Valid()
      modifies this`maxConcurrent, this`log
      ensures Valid() && log == old(log) + if parsed > 0 then [Limit(parsed)] else []
      ensures maxConcurrent == if parsed > 0 then parsed else old(maxConcurrent)
      ensures maxConcurrent >= old(maxConcurrent) ==> Extends(init, old(log), log)
    {
      hide Run, AllLegal;
      ExtendsSelf(init, log);
      if parsed > 0 {
        RunAppend(init, log, Limit(parsed));
        LegalAppend(init, log, Limit(parsed));
        maxConcurrent := parsed;
        log := log + [Limit(parsed)];
      }
    }
  }

  predicate IsPausedOrStopped(s: Status) {
    s == Paused || IsStopped(s)
  }

  /** From `at` to `full` the slots were filled with the tasks `started`; since then tasks were only refreshed. */
  ghost predicate FillAt(s: State, log: seq<Event>, at: nat, full: nat, started: seq<Id>) {
    && at <= full <= |log| && OnlySyncs(log[..full], log)
    && SlotsFilled(Run(s, log[..at]).tasks, Run(s, log[..full]).tasks, started)
  }

  /** The task is complete at the point `k` of the history. */
  ghost predicate CompleteAt(s: State, log: seq<Event>, k: nat, id: Id) {
    && k <= |log|
    && var ts := Run(s, log[..k]).tasks;
       id in ts && ts[id].status == Complete
  }

  /** One of the tasks is complete at some point of the history from `from` on. */
  ghost predicate FoundComplete(s: State, log: seq<Event>, from: nat, ids: set<Id>) {
    exists k: nat, id :: from <= k && id in ids && CompleteAt(s, log, k, id)
  }

  lemma CompleteStays(s: State, a: seq<Event>, b: seq<Event>, k: nat, id: Id)
    requires CompleteAt(s, a, k, id) && a <= b
    ensures CompleteAt(s, b, k, id)
  {
    assert b[..k] == a[..k];
  }

  lemma FoundNow(s: State, log: seq<Event>, from: nat, ids: set<Id>, k: nat, id: Id)
    requires from <= k && id in ids && CompleteAt(s, log, k, id)
    ensures FoundComplete(s, log, from, ids)
  {
  }

  lemma FoundStays(s: State, a: seq<Event>, b: seq<Event>, from: nat, ids: set<Id>)
    requires FoundComplete(s, a, from, ids) && a <= b
    ensures FoundComplete(s, b, from, ids)
  {
    var k: nat, id :| from <= k && id in ids && CompleteAt(s, a, k, id);
    CompleteStays(s, a, b, k, id);
  }

  lemma NoneFound(s: State, log: seq<Event>, ts: TaskMap, ids: set<Id>)
    requires Run(s, log).tasks == ts && forall id | id in ids :: id in ts && ts[id].status != Complete
    ensures !FoundComplete(s, log, |log|, ids)
  {
    forall k: nat, id | |log| <= k && id in ids ensures !CompleteAt(s, log, k, id) {
      if k == |log| { assert log[..k] == log; }
    }
  }

  /** At most one more event, after which none of the tasks is complete. */
  lemma NotFoundStep(s: State, a: seq<Event>, b: seq<Event>, from: nat, ids: set<Id>, ts: TaskMap)
    requires !FoundComplete(s, a, from, ids) && a <= b && |b| <= |a| + 1
    requires Run(s, b).tasks == ts && forall id | id in ids :: id in ts && ts[id].status != Complete
    ensures !FoundComplete(s, b, from, ids)
  {
    forall k: nat, id | from <= k && id in ids ensures !CompleteAt(s, b, k, id) {
      if k == |b| {
        assert b[..k] == b;
      } else if k <= |a| {
        assert b[..k] == a[..k];
        assert !CompleteAt(s, a, k, id);
      }
    }
  }

  /** One filling of the slots: where in the history it begins, where its loop ends, and what it starts. */
  datatype Fill = Fill(at: nat, full: nat, started: seq<Id>)

  /**
   Between `from` and `to` in the history the task is refreshed, which ends at `fill.at`, and
   then the slots are filled when it is complete, and nothing happens otherwise.
   */
  ghost predicate RefreshedAndFilled(s: State, log: seq<Event>, from: nat, to: nat, id: Id, fill: Fill) {
    && from <= fill.at <= to <= |log|
    && (fill.at == from || (fill.at == from + 1 && log[from].Synced? && log[from].report.id == id))
    && if CompleteAt(s, log, fill.at, id)
       then FillAt(s, log[..to], fill.at, fill.full, fill.started) && WorkConserved(s, log[..to], fill.full)
       else to == fill.at && fill.started == []
  }

  lemma RefreshedAndFilledStays(s: State, a: seq<Event>, b: seq<Event>, from: nat, to: nat, id: Id, fill: Fill)
    requires RefreshedAndFilled(s, a, from, to, id, fill) && a <= b
    ensures RefreshedAndFilled(s, b, from, to, id, fill)
  {
    assert b[..to] == a[..to] && b[..fill.at] == a[..fill.at];
    hide FillAt, WorkConserved;
  }

  /** From `from` on each task is refreshed and, where it is due, the slots are filled; `marks` are the seams. */
  ghost predicate FilledInTurn(s: State, from: nat, log: seq<Event>, marks: seq<nat>, ids: seq<Id>, fills: seq<Fill>) {
    && |fills| == |ids| && |marks| == |ids| + 1 && marks[0] == from && marks[|ids|] == |log|
    && forall i | 0 <= i < |ids| :: RefreshedAndFilled(s, log, marks[i], marks[i + 1], ids[i], fills[i])
  }

  lemma NoneInTurn(s: State, log: seq<Event>)
    ensures FilledInTurn(s, |log|, log, [|log|], [], [])
  {
  }

  lemma OneMoreInTurn(
    s: State, from: nat, a: seq<Event>, b: seq<Event>,
    marks: seq<nat>, ids: seq<Id>, i: nat, fills: seq<Fill>, fill: Fill)
    requires i < |ids| && FilledInTurn(s, from, a, marks, ids[..i], fills) && a <= b
    requires RefreshedAndFilled(s, b, |a|, |b|, ids[i], fill)
    ensures FilledInTurn(s, from, b, marks + [|b|], ids[..i + 1], fills + [fill])
  {
    hide RefreshedAndFilled;
    var more, all := marks + [|b|], fills + [fill];
    forall j | 0 <= j < i + 1 ensures RefreshedAndFilled(s, b, more[j], more[j + 1], ids[..i + 1][j], all[j]) {
      if j < i {
        RefreshedAndFilledStays(s, a, b, marks[j], marks[j + 1], ids[j], fills[j]);
      }
    }
  }

  /** The starts of several fillings. */
  function StartsOf(fills: seq<Fill>): seq<Command> {
    if fills == [] then [] else StartsOf(fills[..|fills| - 1]) + Starts(fills[|fills| - 1].started)
  }

  lemma NoFills(was: seq<Command>)
    ensures was + StartsOf([]) == was
  {
  }

  lemma OneMoreFill(was: seq<Command>, fills: seq<Fill>, fill: Fill)
    ensures was + StartsOf(fills + [fill]) == was + StartsOf(fills) + Starts(fill.started)
  {
    assert (fills + [fill])[..|fills|] == fills;
    hide Starts;
  }

  datatype View = View(log: seq<Event>, tasks: TaskMap, commands: seq<Command>, asked: seq<Id>)

  /**
   What one look at an active task does: it is found complete at `fill.at`, or at most
   refreshed and not complete after that, and nothing is asked of the driver but its status.
   */
  ghost predicate Looked(s: State, a: View, b: View, found: bool, fill: Fill, id: Id) {
    && a.log <= b.log && Run(s, b.log).tasks == b.tasks && b.tasks.Keys == a.tasks.Keys
    && Extends(s, a.log, b.log) && OnlyReports(a.log, b.log) && OnlyStarts(a.commands, b.commands)
    && (found ==> |a.log| <= fill.at && CompleteAt(s, b.log, fill.at, id))
    && (!found ==> OnlySyncs(a.log, b.log) && |b.log| <= |a.log| + 1 && b.commands == a.commands)
    && (!found ==> b.tasks == a.tasks || (Touched(a.tasks, b.tasks, id) && b.tasks[id].status != Complete))
  }

  /** The task's turn in SyncActive, ended without an error. */
  ghost predicate Turn(s: State, a: View, b: View, fill: Fill, id: Id) {
    && a.log <= b.log && RefreshedAndFilled(s, b.log, |a.log|, |b.log|, id, fill)
    && b.commands == a.commands + Starts(fill.started) && Asked(a.asked, b.asked, {id})
  }

  /**
   From `a` to `b` SyncActive stays within the slots, and `filled` tells whether a task active
   in `a` was found complete; if not, only such tasks were refreshed.
   */
  ghost predicate Sequel(s: State, a: View, b: View, filled: bool) {
    var actives := Ids(a.tasks, {Active});
    && a.log <= b.log && b.tasks.Keys == a.tasks.Keys
    && Extends(s, a.log, b.log) && OnlyReports(a.log, b.log) && OnlyStarts(a.commands, b.commands)
    && (filled <==> FoundComplete(s, b.log, |a.log|, actives))
    && (!filled ==>
          && OnlySyncs(a.log, b.log) && b.commands == a.commands
          && (forall id | id in actives :: id in b.tasks && b.tasks[id].status != Complete)
          && (forall id | id in a.tasks && id !in actives :: id in b.tasks && b.tasks[id] == a.tasks[id]))
  }

  /** The turns of the tasks, one after the other. */
  ghost predicate InTurn(s: State, a: View, b: View, ids: seq<Id>, marks: seq<nat>, fills: seq<Fill>) {
    && FilledInTurn(s, |a.log|, b.log, marks, ids, fills)
    && b.commands == a.commands + StartsOf(fills) && Asked(a.asked, b.asked, Members(ids))
  }

  lemma NothingDone(s: State, a: View)
    requires Run(s, a.log).tasks == a.tasks
    ensures Sequel(s, a, a, false) && InTurn(s, a, a, [], [|a.log|], [])
  {
    NoneFound(s, a.log, a.tasks, Ids(a.tasks, {Active}));
    NoneInTurn(s, a.log);
    NoStarts(a.commands);
    NoFills(a.commands);
    NoneAsked(a.asked);
    hide FoundComplete, FilledInTurn;
  }

  lemma SequelOneMore(s: State, a: View, b: View, c: View, filled: bool, found: bool, fill: Fill, id: Id)
    requires Sequel(s, a, b, filled) && id in Ids(a.tasks, {Active}) && Looked(s, b, c, found, fill, id)
    ensures Sequel(s, a, c, filled || found)
  {
    ExtendsTrans(s, a.log, b.log, c.log);
    OnlyReportsTrans(a.log, b.log, c.log);
    OnlyStartsTrans(a.commands, b.commands, c.commands);
    hide FoundComplete, CompleteAt, Run, Extends, OnlyReports, OnlyStarts;
    var actives := Ids(a.tasks, {Active});
    if found {
      FoundNow(s, c.log, |a.log|, actives, fill.at, id);
    } else if filled {
      FoundStays(s, b.log, c.log, |a.log|, actives);
    } else {
      NotFoundStep(s, b.log, c.log, |a.log|, actives, c.tasks);
      OnlySyncsTrans(a.log, b.log, c.log);
    }
  }

  lemma InTurnOneMore(
    s: State, a: View, b: View, c: View, ids: seq<Id>, i: nat, marks: seq<nat>, fills: seq<Fill>, fill: Fill)
    requires i < |ids| && InTurn(s, a, b, ids[..i], marks, fills) && Turn(s, b, c, fill, ids[i])
    ensures InTurn(s, a, c, ids[..i + 1], marks + [|c.log|], fills + [fill])
  {
    OneMoreInTurn(s, |a.log|, b.log, c.log, marks, ids, i, fills, fill);
    OneMoreFill(a.commands, fills, fill);
    AskedOneMore(a.asked, b.asked, c.asked, ids, i);
    hide FilledInTurn, RefreshedAndFilled, StartsOf, Starts, Asked, Members;
  }

  lemma QueueLists(ts: TaskMap)
    ensures Lists(OrderedQueue(ts), QueuedIds(ts))
  {
  }

  lemma InsertedMoves(ts: TaskMap, id: Id, position: int, reordered: seq<Id>, now: int)
    requires id in QueuedIds(ts)
    requires forall k | 0 <= k < |OrderedQueue(ts)| && OrderedQueue(ts)[k] == id ::
      MovesOnly(OrderedQueue(ts), k, reordered, InsertionPlace(position, |OrderedQueue(ts)| - 1))
    ensures OrderedQueue(ts) != [] && Lists(reordered, QueuedIds(ts))
    ensures var ts' := Stamp(ts, reordered, QueueBase(now, |reordered|));
      QueueMoved(ts, ts', id, InsertionPlace(position, |OrderedQueue(ts)| - 1)) && Restamped(ts, ts')
  {
    QueueLists(ts);
    var queue := OrderedQueue(ts);
    var from :| 0 <= from < |queue| && queue[from] == id;
    var place := InsertionPlace(position, |queue| - 1);
    hide OrderedQueue, MovesOnly, Stamp, QueueMoved, Restamped, QueuedIds, InsertionPlace;
    StampMoves(ts, id, from, reordered, place, now);
    MovesOnlyLists(queue, from, reordered, place, QueuedIds(ts));
    StampRestamps(ts, reordered, QueueBase(now, |reordered|));
  }

  lemma StampRestamps(ts: TaskMap, ids: seq<Id>, base: int)
    requires Lists(ids, QueuedIds(ts))
    ensures Restamped(ts, Stamp(ts, ids, base))
  {
    StampKeepsQueued(ts, ids, base);
    StampFacts(ts, ids, base);
    hide Stamp;
    forall id | id in ts && !IsQueued(ts[id].status) ensures id !in ids {
      assert id !in QueuedIds(ts);
    }
  }

  /** What `ChangePosition` answers for a queued task, and the queue it leaves before the session is saved. */
  ghost predicate Repositioned(
    ts: TaskMap, id: Id, pos: int, how: string, index: int, err: Option<Error>, from: nat, ts': TaskMap)
  {
    var queue := OrderedQueue(ts);
    && from < |queue| && queue[from] == id
    && match ResolveQueueIndex(from, |queue|, pos, how)
       case Err(e) => err == Some(e)
       case Ok(i) =>
         && i >= 0 && index == i && (err.None? || err == Some(StoreFailed))
         && QueueMoved(ts, ts', id, Landing(from, i))
  }

  /** A task of the group id, or none when no task has it. */
  ghost predicate IsTaskOf(ts: TaskMap, gid: string, who: Option<Id>) {
    match who
    case Some(id) => id in ts && ts[id].gid == gid
    case None => forall id | id in ts :: ts[id].gid != gid
  }

  /** Only tasks that were waiting have become active. */
  ghost predicate Filled(first: TaskMap, now: TaskMap) {
    && now.Keys == first.Keys
    && forall id | id in first ::
         && (now[id].status == Active ==> first[id].status == Active || first[id].status == Waiting)
         && (now[id].status == Waiting ==> first[id].status == Waiting)
  }

  lemma FilledThenRefreshed(a: TaskMap, b: TaskMap, c: TaskMap)
    requires Filled(a, b) && Refreshed(b, c)
    ensures Filled(a, c)
  {
  }

  /** At `full` in the history no slot was free or nothing waited; since then tasks were only refreshed. */
  ghost predicate WorkConserved(s: State, log: seq<Event>, full: nat) {
    && full <= |log| && OnlySyncs(log[..full], log)
    && Conserved(Run(s, log[..full]))
  }

  /** A reordering of the queue changes times of queued tasks only. */
  ghost predicate Restamped(a: TaskMap, b: TaskMap) {
    && b.Keys == a.Keys
    && forall id | id in a ::
         b[id].status == a[id].status && b[id].gid == a[id].gid && (!IsQueued(a[id].status) ==> b[id] == a[id])
  }

  /** `placed`, a task of the group id, is moved to the position if it is queued; a negative one moves nothing. */
  ghost predicate QueuePlace(ts: TaskMap, ts': TaskMap, gid: string, placed: Id, position: int) {
    if position < 0 then ts' == ts
    else
      && placed in ts && ts[placed].gid == gid
      && if IsQueued(ts[placed].status)
         then OrderedQueue(ts) != [] && QueueMoved(ts, ts', placed, InsertionPlace(position, |OrderedQueue(ts)| - 1))
         else ts' == ts
  }

  /** Without a position a new queued task stands last if and only if all queued tasks come before it by time and id. */
  lemma LastWithoutPosition(
    was: TaskMap, id: Id, t: Task, now: TaskMap, placed: Id, position: int, err: Option<Error>)
    requires err.None? ==> QueuePlace(was[id := t], now, t.gid, placed, position)
    ensures err.None? && position < 0 && IsQueued(t.status) && id !in QueuedIds(was) ==>
      (OrderedQueue(now) == OrderedQueue(was) + [id]
       <==> forall q | q in QueuedIds(was) :: IsBefore(was, q, id, t.created))
  {
    if IsQueued(t.status) && id !in QueuedIds(was) {
      JoinsLast(was, id, t);
    }
    hide OrderedQueue, IsBefore, QueuedIds;
  }

  /** From `from` on ChangePosition adds at most one reordering, at its own time, and then refreshes. */
  ghost predicate MoveReports(log: seq<Event>, from: nat, now: int) {
    forall k | from <= k < |log| :: log[k].Synced? || (k == from && log[k].Reordered? && log[k].now == now)
  }

  lemma StillMoveReports(a: seq<Event>, b: seq<Event>, from: nat, now: int)
    requires MoveReports(a, from, now) && OnlySyncs(a, b)
    ensures MoveReports(b, from, now)
  {
  }

  /** From `from` on Add adds at most one reordering, at its own time, and then reports. */
  ghost predicate AddReports(log: seq<Event>, from: nat, now: int) {
    forall k | from <= k < |log| ::
      log[k].Synced? || log[k].Started? || (k == from && log[k].Reordered? && log[k].now == now)
  }

  lemma StillAddReports(a: seq<Event>, b: seq<Event>, from: nat, now: int)
    requires AddReports(a, from, now) && OnlyReports(a, b)
    ensures AddReports(b, from, now) && a <= b
  {
  }

  lemma EnteredIsInactive(was: TaskMap, id: Id, t: Task, now: TaskMap)
    requires Restamped(was[id := t], now) && t.status != Active
    ensures now.Keys == was.Keys + {id} && now[id].status != Active
    ensures id !in was ==> NumActive(now) == NumActive(was)
  {
    if id !in was {
      assert Ids(now, {Active}) == Ids(was, {Active});
    }
  }

  /** Where the loop of `fillSlots` stands: `started` were the oldest of the tasks waiting at first, in order. */
  ghost predicate SlotsFilled(first: TaskMap, now: TaskMap, started: seq<Id>) {
    && Filled(first, now) && (forall id | id in first :: now[id].created == first[id].created)
    && WaitingIds(now) == WaitingIds(first) - (set x | x in started)
    && NoDup(started) && (forall id | id in started :: id in WaitingIds(first))
    && (forall i, j | 0 <= i < j < |started| :: CreatedOf(first, started[i]) <= CreatedOf(first, started[j]))
    && (forall id, w | id in started && w in WaitingIds(now) :: CreatedOf(first, id) <= CreatedOf(first, w))
  }

  lemma SlotsFilledKeeps(first: TaskMap, now: TaskMap, started: seq<Id>)
    requires SlotsFilled(first, now, started)
    ensures Filled(first, now)
  {
  }

  lemma SlotsUnfilled(ts: TaskMap)
    ensures SlotsFilled(ts, ts, [])
  {
  }

  lemma OneMoreStarted(first: TaskMap, was: TaskMap, now: TaskMap, started: seq<Id>, id: Id)
    requires SlotsFilled(first, was, started) && IsNext(was, id)
    requires Touched(was, now, id) && now[id].status != Waiting
    ensures SlotsFilled(first, now, started + [id]) && WaitingIds(now) < WaitingIds(was)
  {
    assert id in WaitingIds(was);
    assert WaitingIds(now) == WaitingIds(was) - {id};
    var more := started + [id];
    assert (set x | x in more) == (set x | x in started) + {id};
  }

  // ---- Whole runs -----------------------------------------------------------------------------

  datatype Request =
    | AddRequest(input: AddTaskInput)
    | PauseRequest(gid: string)
    | PauseAllRequest
    | RemoveRequest(gid: string)
    | SyncRequest
    | PositionRequest(gid: string, pos: int, how: string)
    | LimitRequest(max: int)

  /** The limit after some requests. */
  function LimitAfter(requests: seq<Request>, initial: int): int {
    if requests == [] then initial
    else
      var last := requests[|requests| - 1];
      if last.LimitRequest? && last.max > 0 then last.max else LimitAfter(requests[..|requests| - 1], initial)
  }

  /** No request lowers the limit. */
  predicate NeverLowered(requests: seq<Request>, initial: int) {
    forall k | 0 <= k < |requests| && requests[k].LimitRequest? ::
      requests[k].max <= 0 || requests[k].max >= LimitAfter(requests[..k], initial)
  }

  /**
   What the events `log[from..to]` of a history tell of a request served at the time `now`, and
   the error it ended with: only its own kinds of events are there, in their order, on the
   task it names, and a success leaves its mark.
   */
  ghost predicate Answered(
    s: State, log: seq<Event>, from: nat, to: nat,
    request: Request, now: int, err: Option<Error>, offer: Option<Report>)
  {
    && from <= to <= |log|
    && (offer.Some? ==> request.AddRequest?)
    && var ts := Run(s, log[..from]).tasks;
       match request
       case AddRequest(input) =>
         && (err.None? ==> from < to) && (from < to <==> offer.Some?)
         && (from < to ==>
               && log[from] == Event.Insert(offer.value.id, AddedTask(input, offer.value, now))
               && AddReports(log[..to], from + 1, now))
       case PauseRequest(gid) =>
         && (err.None? ==> from < to && log[from].Synced? && IsTaskOf(ts, gid, Some(log[from].report.id)))
         && OnlyReports(log[..from], log[..to])
       case PauseAllRequest => OnlySyncs(log[..from], log[..to])
       case RemoveRequest(gid) =>
         && (err.None? ==> from < to)
         && (from < to ==>
               && log[from].Detached? && IsTaskOf(ts, gid, Some(log[from].id))
               && OnlyReports(log[..from + 1], log[..to]))
       case SyncRequest => OnlyReports(log[..from], log[..to])
       case PositionRequest(_, _, _) => MoveReports(log[..to], from, now)
       case LimitRequest(n) => err.None? && log[from..to] == if n > 0 then [Limit(n)] else []
  }

  lemma AnsweredStays(
    s: State, a: seq<Event>, b: seq<Event>, from: nat, to: nat,
    request: Request, now: int, err: Option<Error>, offer: Option<Report>)
    requires Answered(s, a, from, to, request, now, err, offer) && a <= b
    ensures Answered(s, b, from, to, request, now, err, offer)
  {
    assert b[..to] == a[..to] && b[..from] == a[..from] && b[from..to] == a[from..to];
    if from < to {
      assert b[..from + 1] == a[..from + 1];
    }
  }

  /** The new tasks the drivers made, request by request. */
  function Made(offers: seq<Option<Report>>): seq<Report> {
    if offers == [] then []
    else
      var last := offers[|offers| - 1];
      Made(offers[..|offers| - 1]) + if last.Some? then [last.value] else []
  }

  lemma MadeOneMore(offers: seq<Option<Report>>, offer: Option<Report>)
    ensures Made(offers + [offer]) == Made(offers) + if offer.Some? then [offer.value] else []
  {
    assert (offers + [offer])[..|offers|] == offers;
  }

  /**
   A manager that serves any requests but Unpause, none of which lowers the limit, one after
   the other: its history is the answers to them, the `i`-th between `marks[i]` and
   `marks[i + 1]`. At every point of the history, within operations too and whatever the
   drivers report, the active tasks are within the limit. The counter is the number of tasks
   seen to stop, and no fewer than the tasks stopped now unless a driver added stopped ones.
   */
  method Serve(requests: seq<Request>, times: seq<int>, maxConcurrent: int, startPaused: bool, hasStore: bool)
    returns (m: Manager, errors: seq<Option<Error>>, ghost marks: seq<nat>, ghost offers: seq<Option<Report>>)
    requires |times| == |requests|
    requires NeverLowered(requests, if maxConcurrent <= 0 then 1 else maxConcurrent)
    ensures m.Valid() && m.init == State(map[], if maxConcurrent <= 0 then 1 else maxConcurrent, 0)
    ensures |offers| == |requests| && m.driver.offers == Made(offers)
    ensures |errors| == |requests| && |marks| == |requests| + 1 && marks[0] == 0 && marks[|requests|] == |m.log|
    ensures forall i | 0 <= i < |requests| ::
      Answered(m.init, m.log, marks[i], marks[i + 1], requests[i], times[i], errors[i], offers[i])
    ensures forall k | 0 <= k <= |m.log| :: var s := Run(m.init, m.log[..k]); NumActive(s.tasks) <= s.max
    ensures m.numStoppedTotal == Stops(m.init, m.log)
    ensures NumStopped(m.tasks) <= m.numStoppedTotal + StoppedInserts(m.log)
  {
    hide Run, AllLegal, Extends, Answered;
    var driver := new Driver();
    m := new Manager(maxConcurrent, startPaused, driver, hasStore);
    ghost var initial := m.maxConcurrent;
    ExtendsSelf(m.init, []);
    errors, marks, offers := [], [0], [];
    for i := 0 to |requests|
      invariant m.Valid() && Extends(m.init, [], m.log)
      invariant m.maxConcurrent == LimitAfter(requests[..i], initial)
      invariant fresh(m) && m.driver == driver && fresh(driver)
      invariant |offers| == i && driver.offers == Made(offers)
      invariant |errors| == i && |marks| == i + 1 && marks[0] == 0 && marks[i] == |m.log|
      invariant forall j | 0 <= j < i ::
        Answered(m.init, m.log, marks[j], marks[j + 1], requests[j], times[j], errors[j], offers[j])
    {
      ghost var before := m.log;
      assert requests[..i + 1][..i] == requests[..i];
      ghost var made := driver.offers;
      var err, offer := ServeOne(m, requests[i], times[i]);
      ExtendsTrans(m.init, [], before, m.log);
      forall j | 0 <= j < i
        ensures Answered(m.init, m.log, marks[j], marks[j + 1], requests[j], times[j], errors[j], offers[j])
      {
        AnsweredStays(
          m.init, before, m.log, marks[j], marks[j + 1], requests[j], times[j], errors[j], offers[j]);
      }
      MadeOneMore(offers, offer);
      offers := offers + [offer];
      errors, marks := errors + [err], marks + [|m.log|];
    }
    assert requests[..|requests|] == requests;
    EmptyRun(m.init);
    forall k | 0 <= k <= |m.log| ensures var s := Run(m.init, m.log[..k]); NumActive(s.tasks) <= s.max {
      LimitAtEveryPoint(m.init, m.log, k);
    }
    CounterCountsStops(m.init, m.log);
    NoneStopped();
  }

  lemma NoneStopped()
    ensures NumStopped(map[]) == 0
  {
    assert Ids(map[], STOPPED) == {};
  }

  method ServeOne(m: Manager, request: Request, now: int) returns (err: Option<Error>, ghost offer: Option<Report>)
    requires m.Valid()
    requires request.LimitRequest? ==> request.max <= 0 || request.max >= m.maxConcurrent
    modifies m`tasks, m`numStoppedTotal, m`log, m`maxConcurrent, m.driver
    ensures m.Valid() && Extends(m.init, old(m.log), m.log) && old(m.log) <= m.log
    ensures m.maxConcurrent == if request.LimitRequest? && request.max > 0 then request.max else old(m.maxConcurrent)
    ensures m.driver.offers == old(m.driver.offers) + if offer.Some? then [offer.value] else []
    ensures Answered(m.init, m.log, |old(m.log)|, |m.log|, request, now, err, offer)
  {
    hide Run, AllLegal, Extends, WorkConserved, SlotsFilled, OrderedQueue, QueueMoved;
    hide Repositioned, FillAt, FoundComplete, QueuePlace;
    err, offer := None, None;
    ghost var made := m.driver.offers;
    match request {
      case AddRequest(input) =>
        var r, _, _, _, _ := m.Add(input, now);
        if m.driver.offers != made {
          offer := Some(m.driver.offers[|made|]);
        }
        err := if r.Err? then Some(r.error) else None;
      case PauseRequest(gid) =>
        var r, _, _, _, _ := m.Pause(gid);
        err := if r.Err? then Some(r.error) else None;
      case PauseAllRequest => err := m.PauseAll();
      case RemoveRequest(gid) =>
        var r, _, _, _, _ := m.Remove(gid);
        err := if r.Err? then Some(r.error) else None;
      case SyncRequest =>
        var e, _, _, _ := m.SyncActive();
        err := e;
      case PositionRequest(gid, pos, how) =>
        var _, e, _, _, _ := m.ChangePosition(gid, pos, how, now);
        err := e;
      case LimitRequest(n) => m.ChangeMaxConcurrent(n);
    }
    assert m.log[..|m.log|] == m.log && m.log[..|old(m.log)|] == old(m.log);
  }

  /**
   SyncActive at a full house of one: when all it finds is that the active task ended in an
   error, it starts nothing, and leaves the slot free while the other task waits.
   */
  method SyncAfterError(m: Manager)
    requires m.Valid() && m.tasks == TwoTasks(Waiting) && m.maxConcurrent == 1
    modifies m`tasks, m`numStoppedTotal, m`log, m.driver
    ensures m.Valid() && old(m.log) <= m.log
    ensures m.log == old(m.log) + [Synced(Report("a", "", Errored, 0))] ==>
      && NumActive(m.tasks) == 0 < m.maxConcurrent && WaitingIds(m.tasks) == {"b"}
      && m.driver.commands == old(m.driver.commands)
  {
    hide Run, AllLegal, FoundComplete, CompleteAt, NumActive;
    var r := Report("a", "", Errored, 0);
    ghost var was, ts := m.log, m.tasks;
    var _, _, _, _ := m.SyncActive();
    if m.log == was + [Synced(r)] {
      RunAppend(m.init, was, Synced(r));
      var t := State(TwoTasks(Waiting), 1, Run(m.init, was).stoppedTotal);
      ActiveAfterReport(t, r);
      OneActive(Waiting);
      NoneFound(m.init, was, ts, {"a"});
      NotFoundStep(m.init, was, m.log, |was|, {"a"}, m.tasks);
      assert Ids(TwoTasks(Waiting), {Active}) == {"a"};
      assert WaitingIds(m.tasks) == {"b"};
    }
  }

  lemma EmptyRun(s: State)
    ensures Run(s, []) == s
  {
  }

  lemma LimitAtEveryPoint(s: State, log: seq<Event>, k: nat)
    requires AllLegal(s, log) && Extends(s, [], log) && k <= |log|
    requires s.tasks == map[] && s.max > 0
    ensures NumActive(Run(s, log[..k]).tasks) <= Run(s, log[..k]).max
  {
    PrefixLegal(s, log, k);
    assert forall j | 0 <= j < k :: log[..k][..j] == log[..j];
    LimitHolds(s, [], log[..k]);
    assert Ids(s.tasks, {Active}) == {};
    EmptyRun(s);
  }
}
