/**
 The download queue. There is no list: the order of the queue is the order of the
 creation times of its tasks, and a reordering rewrites those times. Times are whole
 nanoseconds since Go's zero time.
 */
module Queue {
  import opened Wrappers
  import opened Sorting
  import opened Text
  import opened Tasks
  import opened Numbers

  type Id = string

  datatype Task = Task(gid: string, status: Status, created: int)

  type TaskMap = map<Id, Task>

  predicate IsQueued(s: Status) {
    s == Waiting || s == Paused
  }

  function QueuedIds(ts: TaskMap): set<Id> {
    set id | id in ts && IsQueued(ts[id].status)
  }

  function CreatedOf(ts: TaskMap, id: Id): int {
    if id in ts then ts[id].created else 0
  }

  /** The comparison of `orderedQueueTaskIDs`: by creation time, then by id. */
  predicate Earlier(ts: TaskMap, a: Id, b: Id) {
    CreatedOf(ts, a) < CreatedOf(ts, b) || (CreatedOf(ts, a) == CreatedOf(ts, b) && StrLe(a, b))
  }

  function EarlierIn(ts: TaskMap): (Id, Id) -> bool {
    (a, b) => Earlier(ts, a, b)
  }

  lemma EarlierIsTotalOrder(ts: TaskMap)
    ensures TotalOrder(EarlierIn(ts))
  {
    StrLeIsTotalOrder();
    var le := EarlierIn(ts);
    forall a, b, c | le(a, b) && le(b, c) ensures le(a, c) {
      assert StrLe(a, b) && StrLe(b, c) ==> StrLe(a, c);
    }
    forall a, b ensures le(a, b) || le(b, a) {
      assert StrLe(a, b) || StrLe(b, a);
    }
    forall a, b | le(a, b) && le(b, a) ensures a == b {
      assert StrLe(a, b) && StrLe(b, a);
    }
  }

  /** The queue as a list. */
  ghost function OrderedQueue(ts: TaskMap): (q: seq<Id>)
    ensures Sorted(EarlierIn(ts), q) && Lists(q, QueuedIds(ts))
  {
    EarlierIsTotalOrder(ts);
    SortedListing(EarlierIn(ts), QueuedIds(ts))
  }

  lemma OrderedQueueUnique(ts: TaskMap, q: seq<Id>)
    requires Sorted(EarlierIn(ts), q) && Lists(q, QueuedIds(ts))
    ensures q == OrderedQueue(ts)
  {
    EarlierIsTotalOrder(ts);
    SortedListingUnique(EarlierIn(ts), q, OrderedQueue(ts), QueuedIds(ts));
  }

  /** `orderedQueueTaskIDs`. */
  method OrderedQueueTaskIDs(ts: TaskMap) returns (out: seq<Id>)
    ensures out == OrderedQueue(ts)
  {
    var ids := Collect(ts.Keys);
    var candidates: seq<Id> := [];
    for i := 0 to |ids|
      invariant NoDup(candidates)
      invariant forall x :: x in candidates <==> x in ids[..i] && IsQueued(ts[x].status)
    {
      assert ids[i] !in ids[..i];
      if IsQueued(ts[ids[i]].status) {
        candidates := candidates + [ids[i]];
      }
      assert ids[..i + 1] == ids[..i] + [ids[i]];
    }
    assert ids[..|ids|] == ids;
    assert Lists(candidates, QueuedIds(ts));
    EarlierIsTotalOrder(ts);
    SortLists(EarlierIn(ts), candidates, QueuedIds(ts));
    out := Sort(EarlierIn(ts), candidates);
    OrderedQueueUnique(ts, out);
  }

  // ---- Rewriting the times ------------------------------------------------------------

  /** The tasks after the `i`-th id of `ids` got the time `base` plus `i` milliseconds, one after the other. */
  function Stamp(ts: TaskMap, ids: seq<Id>, base: int): TaskMap {
    if ids == [] then ts
    else
      var k := |ids| - 1;
      var rest := Stamp(ts, ids[..k], base);
      if ids[k] in rest then rest[ids[k] := rest[ids[k]].(created := base + k * MILLISECOND)] else rest
  }

  /** The time from which `applyQueueOrder` counts. */
  function QueueBase(now: int, n: nat): int {
    now - (n + 1) * SECOND
  }

  lemma {:induction false} StampFacts(ts: TaskMap, ids: seq<Id>, base: int)
    requires NoDup(ids)
    ensures var r := Stamp(ts, ids, base);
      && r.Keys == ts.Keys
      && (forall id | id in ts && id !in ids :: r[id] == ts[id])
      && (forall k | 0 <= k < |ids| && ids[k] in ts :: r[ids[k]] == ts[ids[k]].(created := base + k * MILLISECOND))
  {
    if ids != [] {
      var k := |ids| - 1;
      StampFacts(ts, ids[..k], base);
      assert ids == ids[..k] + [ids[k]];
      assert ids[k] !in ids[..k];
    }
  }

  lemma StampKeepsQueued(ts: TaskMap, ids: seq<Id>, base: int)
    requires NoDup(ids)
    ensures QueuedIds(Stamp(ts, ids, base)) == QueuedIds(ts)
    ensures var r := Stamp(ts, ids, base);
      forall id | id in ts :: id in r && r[id] == ts[id].(created := r[id].created)
  {
    StampFacts(ts, ids, base);
    forall id | id in ts ensures Stamp(ts, ids, base)[id] == ts[id].(created := Stamp(ts, ids, base)[id].created) {
      if id in ids {
        var k :| 0 <= k < |ids| && ids[k] == id;
      }
    }
  }

  /**
   The times refine a list: rewriting the times by any ordering of the queued ids makes
   that ordering the queue, and changes nothing else of any task.
   */
  lemma {:induction false} OrderApplied(ts: TaskMap, xs: seq<Id>, now: int)
    requires Lists(xs, QueuedIds(ts))
    ensures var r := Stamp(ts, xs, QueueBase(now, |xs|));
      && OrderedQueue(r) == xs
      && r.Keys == ts.Keys
      && forall id | id in ts :: r[id].status == ts[id].status && r[id].gid == ts[id].gid
           && (id !in xs ==> r[id] == ts[id])
  {
    var r := Stamp(ts, xs, QueueBase(now, |xs|));
    StampFacts(ts, xs, QueueBase(now, |xs|));
    StampKeepsQueued(ts, xs, QueueBase(now, |xs|));
    hide Stamp, StrLe;
    forall k | 0 <= k < |xs| ensures xs[k] in ts && CreatedOf(r, xs[k]) == QueueBase(now, |xs|) + k * MILLISECOND {
      assert xs[k] in xs;
    }
    assert Sorted(EarlierIn(r), xs);
    OrderedQueueUnique(r, xs);
  }

  /** What `nextWaitingTaskID` may return: a waiting task that none precedes in time. */
  ghost predicate IsNext(ts: TaskMap, id: Id) {
    && id in ts && ts[id].status == Waiting
    && forall other | other in ts && ts[other].status == Waiting :: ts[id].created <= ts[other].created
  }

  /** The first waiting id of a list. */
  function FirstWaiting(ts: TaskMap, xs: seq<Id>): Option<Id> {
    if xs == [] then None
    else if xs[0] in ts && ts[xs[0]].status == Waiting then Some(xs[0])
    else FirstWaiting(ts, xs[1..])
  }

  ghost predicate FirstAt(ts: TaskMap, xs: seq<Id>, k: nat) {
    && k < |xs| && xs[k] in ts && ts[xs[k]].status == Waiting
    && forall j | 0 <= j < k && xs[j] in ts :: ts[xs[j]].status != Waiting
  }

  lemma {:induction false} FirstWaitingIs(ts: TaskMap, xs: seq<Id>)
    ensures var f := FirstWaiting(ts, xs);
      && (f.None? ==> forall x | x in xs && x in ts :: ts[x].status != Waiting)
      && (f.Some? ==> exists k: nat :: FirstAt(ts, xs, k) && xs[k] == f.value)
  {
    if xs != [] {
      FirstWaitingIs(ts, xs[1..]);
      if xs[0] in ts && ts[xs[0]].status == Waiting {
        assert FirstAt(ts, xs, 0);
      } else {
        var f := FirstWaiting(ts, xs[1..]);
        if f.Some? {
          var k: nat :| FirstAt(ts, xs[1..], k) && xs[1..][k] == f.value;
          assert xs[k + 1] == f.value;
          forall j | 0 <= j < k + 1 && xs[j] in ts ensures ts[xs[j]].status != Waiting {
            if j > 0 { assert xs[1..][j - 1] == xs[j]; }
          }
          assert FirstAt(ts, xs, k + 1);
        }
      }
    }
  }

  /** After a reordering the task to start next is the first waiting one of the list, and no other. */
  lemma NextInOrder(ts: TaskMap, xs: seq<Id>, now: int, id: Id)
    requires Lists(xs, QueuedIds(ts))
    ensures IsNext(Stamp(ts, xs, QueueBase(now, |xs|)), id) <==> FirstWaiting(ts, xs) == Some(id)
  {
    var base := QueueBase(now, |xs|);
    var r := Stamp(ts, xs, base);
    StampFacts(ts, xs, base);
    StampKeepsQueued(ts, xs, base);
    FirstWaitingIs(ts, xs);
    hide Stamp, FirstWaiting;
    var f := FirstWaiting(ts, xs);
    forall w | w in ts && ts[w].status == Waiting ensures w in QueuedIds(ts) && w in xs {
    }
    if f.Some? {
      var k: nat :| FirstAt(ts, xs, k) && xs[k] == f.value;
      forall other | other in r && r[other].status == Waiting
        ensures other == f.value || r[f.value].created < r[other].created {
        assert ts[other].status == Waiting;
        assert other in QueuedIds(ts);
        var m :| 0 <= m < |xs| && xs[m] == other;
        assert m >= k;
        assert r[xs[k]].created == base + k * MILLISECOND && r[xs[m]].created == base + m * MILLISECOND;
      }
    }
  }

  lemma ListsMore(xs: seq<Id>, ids: set<Id>, id: Id)
    requires Lists(xs, ids) && id !in ids
    ensures Lists(xs + [id], ids + {id})
  {
  }

  /** The task `q` comes before a task `id` with the time `created`: it is older, or as old with the smaller id. */
  predicate IsBefore(ts: TaskMap, q: Id, id: Id, created: int) {
    CreatedOf(ts, q) < created || (CreatedOf(ts, q) == created && StrLe(q, id))
  }

  /** A new queued task joins at the end if and only if every queued task is older, or as old with a smaller id. */
  lemma {:induction false} JoinsLast(ts: TaskMap, id: Id, t: Task)
    requires IsQueued(t.status) && id !in QueuedIds(ts)
    ensures OrderedQueue(ts[id := t]) == OrderedQueue(ts) + [id]
       <==> forall q | q in QueuedIds(ts) :: IsBefore(ts, q, id, t.created)
  {
    if forall q | q in QueuedIds(ts) :: IsBefore(ts, q, id, t.created) {
      JoinsIfBefore(ts, id, t);
    } else if OrderedQueue(ts[id := t]) == OrderedQueue(ts) + [id] {
      BeforeIfJoined(ts, id, t);
    }
    hide OrderedQueue, IsBefore;
  }

  lemma JoinsIfBefore(ts: TaskMap, id: Id, t: Task)
    requires IsQueued(t.status) && id !in QueuedIds(ts)
    requires forall q | q in QueuedIds(ts) :: IsBefore(ts, q, id, t.created)
    ensures OrderedQueue(ts[id := t]) == OrderedQueue(ts) + [id]
  {
    var xs := OrderedQueue(ts);
    assert QueuedIds(ts[id := t]) == QueuedIds(ts) + {id};
    ListsMore(xs, QueuedIds(ts), id);
    AddedSorted(ts, xs, id, t);
    OrderedQueueUnique(ts[id := t], xs + [id]);
    hide OrderedQueue, IsBefore, Sorted;
  }

  lemma BeforeIfJoined(ts: TaskMap, id: Id, t: Task)
    requires id !in QueuedIds(ts) && OrderedQueue(ts[id := t]) == OrderedQueue(ts) + [id]
    ensures forall q | q in QueuedIds(ts) :: IsBefore(ts, q, id, t.created)
  {
    hide StrLe;
    var all, xs := ts[id := t], OrderedQueue(ts);
    var ys := xs + [id];
    forall q | q in QueuedIds(ts) ensures IsBefore(ts, q, id, t.created) {
      assert q in xs;
      var k :| 0 <= k < |xs| && xs[k] == q;
      assert EarlierIn(all)(ys[k], ys[|xs|]);
    }
  }

  lemma AddedSorted(ts: TaskMap, xs: seq<Id>, id: Id, t: Task)
    requires Sorted(EarlierIn(ts), xs) && id !in xs && forall q | q in xs :: IsBefore(ts, q, id, t.created)
    ensures Sorted(EarlierIn(ts[id := t]), xs + [id])
  {
    hide StrLe;
    var all, ys := ts[id := t], xs + [id];
    forall i, j | 0 <= i < j < |ys| ensures EarlierIn(all)(ys[i], ys[j]) {
      assert ys[i] in xs;
      if j < |xs| {
        assert ys[j] in xs && EarlierIn(ts)(xs[i], xs[j]);
      }
    }
  }

  lemma StampBelow(ts: TaskMap, xs: seq<Id>, now: int, id: Id)
    requires NoDup(xs) && id in xs && id in ts
    ensures id in Stamp(ts, xs, QueueBase(now, |xs|)) && Stamp(ts, xs, QueueBase(now, |xs|))[id].created < now
  {
    StampFacts(ts, xs, QueueBase(now, |xs|));
    hide Stamp;
    var k :| 0 <= k < |xs| && xs[k] == id;
  }

  /** A task that joins at or after the time of a reordering comes last in the queue. */
  lemma {:induction false} LaterComesLast(ts: TaskMap, xs: seq<Id>, now: int, id: Id, t: Task)
    requires Lists(xs, QueuedIds(ts)) && id !in ts && IsQueued(t.status) && t.created >= now
    ensures OrderedQueue(Stamp(ts, xs, QueueBase(now, |xs|))[id := t]) == xs + [id]
  {
    var r := Stamp(ts, xs, QueueBase(now, |xs|));
    OrderApplied(ts, xs, now);
    StampKeepsQueued(ts, xs, QueueBase(now, |xs|));
    forall q | q in QueuedIds(r) ensures IsBefore(r, q, id, t.created) {
      StampBelow(ts, xs, now, q);
    }
    hide Stamp;
    JoinsLast(r, id, t);
  }

  // ---- Moving within a list ----------------------------------------------------------------

  function Without(xs: seq<Id>, k: nat): seq<Id>
    requires k < |xs|
  {
    xs[..k] + xs[k + 1..]
  }

  function Placed(xs: seq<Id>, k: nat, x: Id): seq<Id>
    requires k <= |xs|
  {
    xs[..k] + [x] + xs[k..]
  }

  /** The same list with one element elsewhere: the others keep their order. */
  ghost predicate MovesOnly(xs: seq<Id>, from: nat, ys: seq<Id>, to: nat) {
    && from < |xs| && to < |ys| && ys[to] == xs[from]
    && Without(ys, to) == Without(xs, from)
  }

  lemma MovesOnlyPermutes(xs: seq<Id>, from: nat, ys: seq<Id>, to: nat)
    requires MovesOnly(xs, from, ys, to)
    ensures multiset(ys) == multiset(xs) && |ys| == |xs|
  {
    assert xs == xs[..from] + [xs[from]] + xs[from + 1..];
    assert ys == ys[..to] + [ys[to]] + ys[to + 1..];
    assert multiset(xs) == multiset(Without(xs, from)) + multiset{xs[from]};
    assert multiset(ys) == multiset(Without(ys, to)) + multiset{ys[to]};
  }

  lemma MovesOnlyLists(xs: seq<Id>, from: nat, ys: seq<Id>, to: nat, ids: set<Id>)
    requires MovesOnly(xs, from, ys, to) && Lists(xs, ids)
    ensures Lists(ys, ids)
  {
    MovesOnlyPermutes(xs, from, ys, to);
    ListsMultiset(xs, ids);
    MultisetLists(ys, ids);
  }

  /** Where `reorderQueueIDs` puts the element: one place short when it moves forward. */
  function Landing(from: nat, to: nat): nat {
    if to > from then to - 1 else to
  }

  /** `reorderQueueIDs`, editing its copy step by step. */
  method ReorderQueueIDs(queue: seq<Id>, from: nat, to: nat) returns (out: seq<Id>)
    requires queue == [] || (from < |queue| && to < |queue|)
    ensures queue == [] ==> out == []
    ensures queue != [] ==> MovesOnly(queue, from, out, Landing(from, to))
  {
    out := queue;
    if from == to || |queue| == 0 {
      return;
    }
    var moved := out[from];
    out := out[..from] + out[from + 1..];
    var toIdx := to;
    if toIdx > from {
      toIdx := toIdx - 1;
    }
    ghost var rest := out;
    out := out[..toIdx] + ([moved] + out[toIdx..]);
    assert Without(out, toIdx) == rest;
  }

  /** A backward move lands where it is sent; a forward move lands one place before it, for one place nowhere new. */
  lemma LandsShort(queue: seq<Id>, from: nat, to: nat, out: seq<Id>)
    requires NoDup(queue) && to < |queue| && MovesOnly(queue, from, out, Landing(from, to))
    ensures out[to] == queue[from] <==> to <= from
    ensures to == from + 1 ==> out == queue
  {
    MovesOnlyPermutes(queue, from, out, Landing(from, to));
    var rest := Without(queue, from);
    assert out == Placed(rest, Landing(from, to), queue[from]) by {
      var l := Landing(from, to);
      assert out == out[..l] + [out[l]] + out[l + 1..];
      assert rest[..l] == out[..l] && rest[l..] == out[l + 1..];
    }
    if to > from {
      assert out[to] == rest[to - 1] == queue[to];
    }
  }

  /** A filter that drops one id. */
  function Others(queue: seq<Id>, id: Id): seq<Id> {
    if queue == [] then []
    else
      var rest := Others(queue[..|queue| - 1], id);
      if queue[|queue| - 1] != id then rest + [queue[|queue| - 1]] else rest
  }

  lemma {:induction false} OthersOf(queue: seq<Id>, id: Id)
    requires NoDup(queue)
    ensures id !in queue ==> Others(queue, id) == queue
    ensures forall k | 0 <= k < |queue| && queue[k] == id :: Others(queue, id) == Without(queue, k)
  {
    if queue != [] {
      var n := |queue| - 1;
      assert queue == queue[..n] + [queue[n]];
      OthersOf(queue[..n], id);
      assert queue[n] !in queue[..n];
      forall k | 0 <= k < |queue| && queue[k] == id ensures Others(queue, id) == Without(queue, k) {
        if k < n {
          assert queue[..n][k] == id && queue[n] != id;
          assert queue[..n][k + 1..] + [queue[n]] == queue[k + 1..];
          assert Without(queue, k) == Without(queue[..n], k) + [queue[n]];
        } else {
          assert queue[k + 1..] == [] && queue[..k] == queue[..n];
          assert Without(queue, k) == queue[..n];
        }
      }
    }
  }

  /** The place where an insertion at `position` ends up among `others` tasks. */
  function InsertionPlace(position: int, others: nat): nat {
    if position < 0 || position > others then others else position
  }

  /** The reordering of `insertTaskAtQueuePosition`. */
  method InsertedOrder(queue: seq<Id>, id: Id, position: int) returns (out: seq<Id>)
    requires NoDup(queue) && id in queue
    ensures |out| == |queue|
    ensures forall k | 0 <= k < |queue| && queue[k] == id ::
      MovesOnly(queue, k, out, InsertionPlace(position, |queue| - 1))
  {
    var filtered: seq<Id> := [];
    for i := 0 to |queue|
      invariant filtered == Others(queue[..i], id)
    {
      if queue[i] != id {
        filtered := filtered + [queue[i]];
      }
      assert queue[..i + 1][..i] == queue[..i];
    }
    assert queue[..|queue|] == queue;
    OthersOf(queue, id);
    var at := position;
    if at < 0 {
      at := |filtered|;
    }
    if at > |filtered| {
      at := |filtered|;
    }
    out := filtered[..at] + ([id] + filtered[at..]);
    forall k | 0 <= k < |queue| && queue[k] == id
      ensures MovesOnly(queue, k, out, InsertionPlace(position, |queue| - 1))
    {
      assert out[..at] == filtered[..at] && out[at + 1..] == filtered[at..];
      assert Without(out, at) == filtered;
    }
  }

  // ---- Positions -------------------------------------------------------------------------------

  /** Addition of the program's 64-bit integers. */
  function Wrap64(x: int): int {
    (x - MIN_INT64) % TWO_64 + MIN_INT64
  }

  function UpperChar(c: char): char {
    if 'a' <= c <= 'z' then ((c as int) - 32) as char else c
  }

  /** `strings.ToUpper`, on the ASCII letters. */
  function Upper(s: string): string {
    seq(|s|, i requires 0 <= i < |s| => UpperChar(s[i]))
  }

  datatype QueueError = TaskNotFound | NotInQueue | UnknownMode(how: string) | DriverFailed | StoreFailed

  function ClampQueueIndex(index: int, queueLen: int): int {
    if queueLen <= 0 then 0
    else if index < 0 then 0
    else if index >= queueLen then queueLen - 1
    else index
  }

  function ResolveQueueIndex(current: int, queueLen: int, pos: int, how: string): (r: Result<int, QueueError>)
    ensures r.Ok? ==> 0 <= r.value && (r.value < queueLen || r.value == 0)
    ensures r.Ok? <==> Upper(TrimSpace(how)) in {"", "POS_SET", "POS_CUR", "POS_END"}
  {
    var mode := Upper(TrimSpace(how));
    if mode == "" || mode == "POS_SET" then Ok(ClampQueueIndex(pos, queueLen))
    else if mode == "POS_CUR" then Ok(ClampQueueIndex(Wrap64(current + pos), queueLen))
    else if mode == "POS_END" then Ok(ClampQueueIndex(Wrap64(Wrap64(queueLen - 1) + pos), queueLen))
    else Err(UnknownMode(how))
  }

  /** The position meant by a request: from the front, from where the task is, or from the end. */
  function Meant(current: nat, queueLen: nat, pos: int, mode: string): int {
    if mode == "POS_CUR" then current + pos else if mode == "POS_END" then queueLen - 1 + pos else pos
  }

  /**
   The resolved index is the place in the queue nearest to the position meant, exactly
   when the sum does not leave the 64-bit integers or the queue has one place only;
   a sum that does falls at the front of the queue.
   */
  lemma ResolvesToNearest(current: nat, queueLen: nat, pos: int, how: string)
    requires current < queueLen <= MAX_INT64 && IsInt64(pos)
    requires Upper(TrimSpace(how)) in {"", "POS_SET", "POS_CUR", "POS_END"}
    ensures var m := Meant(current, queueLen, pos, Upper(TrimSpace(how)));
      var r := ResolveQueueIndex(current, queueLen, pos, how).value;
      && ((forall k | 0 <= k < queueLen :: Distance(r, m) <= Distance(k, m)) <==> m <= MAX_INT64 || queueLen == 1)
      && (m > MAX_INT64 ==> r == 0)
  {
    WrapIs(current + pos);
    WrapIs(queueLen - 1);
    WrapIs(queueLen - 1 + pos);
    hide Wrap64, Upper, TrimSpace;
    var m := Meant(current, queueLen, pos, Upper(TrimSpace(how)));
    var r := ResolveQueueIndex(current, queueLen, pos, how).value;
    if m > MAX_INT64 {
      assert r == 0;
      if queueLen > 1 {
        assert Distance(1, m) < Distance(0, m);
      }
    }
  }

  lemma WrapIs(x: int)
    requires MIN_INT64 <= x <= MAX_INT64 + MAX_INT64
    ensures Wrap64(x) == if x <= MAX_INT64 then x else x - TWO_64
  {
  }

  function Distance(a: int, b: int): nat {
    if a < b then b - a else a - b
  }

  // ---- Whole operations on the task map --------------------------------------------------------

  /** The tasks after one task of the queue is moved: the new queue is the old with that task moved, at `to`. */
  ghost predicate QueueMoved(ts: TaskMap, ts': TaskMap, id: Id, to: nat) {
    && ts'.Keys == ts.Keys
    && (forall x | x in ts ::
          && ts'[x].status == ts[x].status && ts'[x].gid == ts[x].gid
          && (!IsQueued(ts[x].status) ==> ts'[x] == ts[x]))
    && exists from :: 0 <= from < |OrderedQueue(ts)| && OrderedQueue(ts)[from] == id
         && MovesOnly(OrderedQueue(ts), from, OrderedQueue(ts'), to)
  }

  lemma {:induction false} StampMoves(ts: TaskMap, id: Id, from: nat, xs: seq<Id>, to: nat, now: int)
    requires from < |OrderedQueue(ts)| && OrderedQueue(ts)[from] == id
    requires MovesOnly(OrderedQueue(ts), from, xs, to)
    ensures QueueMoved(ts, Stamp(ts, xs, QueueBase(now, |xs|)), id, to)
    ensures OrderedQueue(Stamp(ts, xs, QueueBase(now, |xs|))) == xs
  {
    MovesOnlyLists(OrderedQueue(ts), from, xs, to, QueuedIds(ts));
    OrderApplied(ts, xs, now);
    hide Stamp, OrderedQueue;
    forall x | x in ts && !IsQueued(ts[x].status) ensures x !in xs {
      assert x !in QueuedIds(ts);
    }
  }

  lemma NotMoved(ts: TaskMap, id: Id, from: nat)
    requires from < |OrderedQueue(ts)| && OrderedQueue(ts)[from] == id
    ensures QueueMoved(ts, ts, id, from)
  {
  }
}
