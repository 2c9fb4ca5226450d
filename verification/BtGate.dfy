/**
 The data gate of a torrent: whether the torrent library may download and upload,
 driven by Start, Pause, option changes, the seed policy, the pause after metadata and
 the rate limit loop with its two token buckets.
 */
module BtGate {
  import opened Wrappers
  import opened RateLimit

  /** The last sample of the rate limit loop. */
  datatype Sample = Sample(read: int, written: int)

  datatype Torrent = Torrent(
    started: bool, paused: bool, removed: bool, seedStopped: bool,
    downLimit: Option<Bucket>, upLimit: Option<Bucket>,
    downThrottled: bool, upThrottled: bool, sample: Option<Sample>,
    downAllowed: bool, upAllowed: bool)

  /** The limiter of a rate: none without a positive one. */
  function Limiter(rate: int, now: real): Option<Bucket> {
    if rate <= 0 then None else Some(Full(rate, now))
  }

  function Added(downRate: int, upRate: int, now: real): Torrent {
    Torrent(false, false, false, false, Limiter(downRate, now), Limiter(upRate, now), false, false, None, false, false)
  }

  datatype GateOp =
    | Start
    | Pause
    | SetLimits(downRate: int, upRate: int, now: real)
    | Tick(read: int, written: int, now: real)
    | SeedStop
    | PauseAfterMetadata
    | Remove

  function Delta(later: int, earlier: int): int {
    if later < earlier then 0 else later - earlier
  }

  /** The verdict of one limiter in one tick: its bucket, throttled or not, and whether the gate is set to anything. */
  datatype Verdict = Verdict(limit: Option<Bucket>, throttled: bool, gate: Option<bool>)

  /** `enforceDownloadRateLimit` and `enforceUploadRateLimit`. */
  function Enforce(limit: Option<Bucket>, throttled: bool, delta: int, now: real): Verdict {
    if limit.None? then Verdict(None, false, if throttled then Some(true) else None)
    else
      var (b, paid) := if delta > 0 then Consume(limit.value, delta, now) else (limit.value, true);
      if !paid then Verdict(Some(b), true, if throttled then None else Some(false))
      else if throttled then
        var (b1, affords) := Afford(b, 1, now);
        if affords then Verdict(Some(b1), false, Some(true)) else Verdict(Some(b1), true, None)
      else Verdict(Some(b), false, None)
  }

  function Gate(now: bool, change: Option<bool>): bool {
    if change.Some? then change.value else now
  }

  function ApplyOp(s: Torrent, op: GateOp): Torrent {
    if s.removed then s
    else
      match op
      case Start =>
        s.(started := true, paused := false, downThrottled := false, upThrottled := false, sample := None,
           upAllowed := true, downAllowed := true)
      case Pause => s.(paused := true, downAllowed := false, upAllowed := false)
      case SetLimits(down, up, now) =>
        var open := s.started && !s.paused;
        s.(downLimit := Limiter(down, now), upLimit := Limiter(up, now),
           downThrottled := false, upThrottled := false, sample := None,
           downAllowed := s.downAllowed || open, upAllowed := s.upAllowed || open)
      case Tick(read, written, now) =>
        if !s.started || s.paused then s
        else if s.sample.None? then s.(sample := Some(Sample(read, written)))
        else
          var d := Enforce(s.downLimit, s.downThrottled, Delta(read, s.sample.value.read), now);
          var u := Enforce(s.upLimit, s.upThrottled, Delta(written, s.sample.value.written), now);
          s.(sample := Some(Sample(read, written)),
             downLimit := d.limit, downThrottled := d.throttled, downAllowed := Gate(s.downAllowed, d.gate),
             upLimit := u.limit, upThrottled := u.throttled, upAllowed := Gate(s.upAllowed, u.gate))
      case SeedStop => if s.seedStopped then s else s.(seedStopped := true, upAllowed := false)
      case PauseAfterMetadata => s.(paused := true, started := false, downAllowed := false, upAllowed := false)
      case Remove => s.(removed := true, started := false, paused := false)
  }

  function RunOps(s: Torrent, ops: seq<GateOp>): Torrent
    decreases |ops|
  {
    if ops == [] then s else RunOps(ApplyOp(s, ops[0]), ops[1..])
  }

  // ---- The driver's record, updated in place -----------------------------------------

  /** The torrent of the library, seen as its two permissions. */
  class LibTorrent {
    var downAllowed: bool
    var upAllowed: bool

    constructor ()
      ensures !downAllowed && !upAllowed
    {
      downAllowed, upAllowed := false, false;
    }
  }

  function BucketOf(l: ByteLimiter?): Option<Bucket>
    reads l
  {
    if l == null then None else Some(l.State())
  }

  class TorrentState {
    var started: bool
    var paused: bool
    var removed: bool
    var seedStopped: bool
    var downloadLimiter: ByteLimiter?
    var uploadLimiter: ByteLimiter?
    var rateLimitPausedDL: bool
    var rateLimitPausedUL: bool
    var sample: Option<Sample>
    const torrent: LibTorrent

    ghost predicate Valid()
      reads this
    {
      downloadLimiter != null ==> downloadLimiter != uploadLimiter
    }

    function Abs(): Torrent
      reads this, torrent, downloadLimiter, uploadLimiter
    {
      Torrent(started, paused, removed, seedStopped, BucketOf(downloadLimiter), BucketOf(uploadLimiter),
        rateLimitPausedDL, rateLimitPausedUL, sample, torrent.downAllowed, torrent.upAllowed)
    }

    constructor Add(downRate: int, upRate: int, now: real)
      ensures Valid() && fresh(torrent) && Abs() == Added(downRate, upRate, now)
    {
      started, paused, removed, seedStopped := false, false, false, false;
      rateLimitPausedDL, rateLimitPausedUL, sample := false, false, None;
      downloadLimiter, uploadLimiter := null, null;
      torrent := new LibTorrent();
      new;
      ApplyRateLimiters(downRate, upRate, now);
    }

    /** `applyBTRateLimiters`. */
    method ApplyRateLimiters(downRate: int, upRate: int, now: real)
      modifies this`downloadLimiter, this`uploadLimiter, this`rateLimitPausedDL, this`rateLimitPausedUL
      ensures Valid()
      ensures fresh(downloadLimiter) || downloadLimiter == null
      ensures fresh(uploadLimiter) || uploadLimiter == null
      ensures Abs() == old(Abs()).(
        downLimit := Limiter(downRate, now), upLimit := Limiter(upRate, now),
        downThrottled := old(rateLimitPausedDL) && downRate > 0, upThrottled := old(rateLimitPausedUL) && upRate > 0)
    {
      downloadLimiter := NewByteLimiter(downRate, now);
      uploadLimiter := NewByteLimiter(upRate, now);
      if downloadLimiter == null {
        rateLimitPausedDL := false;
      }
      if uploadLimiter == null {
        rateLimitPausedUL := false;
      }
    }

    method StartTorrent() returns (found: bool)
      modifies this, torrent
      ensures removed == old(removed)
      ensures Abs() == ApplyOp(old(Abs()), Start) && found == !old(removed)
      ensures downloadLimiter == old(downloadLimiter) && uploadLimiter == old(uploadLimiter)
    {
      if removed {
        return false;
      }
      started := true;
      paused := false;
      rateLimitPausedDL := false;
      rateLimitPausedUL := false;
      sample := None;
      torrent.upAllowed := true;
      torrent.downAllowed := true;
      return true;
    }

    method PauseTorrent() returns (found: bool)
      modifies this, torrent
      ensures removed == old(removed)
      ensures Abs() == ApplyOp(old(Abs()), Pause) && found == !old(removed)
      ensures downloadLimiter == old(downloadLimiter) && uploadLimiter == old(uploadLimiter)
    {
      if removed {
        return false;
      }
      paused := true;
      torrent.downAllowed := false;
      torrent.upAllowed := false;
      return true;
    }

    /** `ChangeOption`: first `pause`, then the limits. */
    method ChangeOption(pause: Option<bool>, limits: Option<(int, int)>, now: real) returns (found: bool)
      requires Valid()
      modifies this, torrent
      ensures Valid()
      ensures Abs() == RunOps(old(Abs()), OptionOps(pause, limits, now))
      ensures found == (!old(removed) || (pause.None? && limits.None?))
    {
      hide ApplyOp, RunOps, OptionOps;
      ghost var s0 := Abs();
      OptionOpsRun(s0, pause, limits, now);
      if pause.Some? {
        found := false;
        if pause.value {
          found := PauseTorrent();
        } else {
          found := StartTorrent();
        }
        if !found {
          RemovedStays(s0, OptionOps(pause, limits, now));
          assert Abs() == s0 by { RemovedStep(s0, if pause.value then Pause else Start); }
          return;
        }
      }
      if limits.Some? {
        found := ChangeLimits(limits.value.0, limits.value.1, now);
        return;
      }
      return true;
    }

    method ChangeLimits(downRate: int, upRate: int, now: real) returns (found: bool)
      modifies this, torrent
      ensures removed == old(removed)
      ensures found ==> Valid()
      ensures Abs() == ApplyOp(old(Abs()), SetLimits(downRate, upRate, now)) && found == !old(removed)
      ensures !found ==> downloadLimiter == old(downloadLimiter) && uploadLimiter == old(uploadLimiter)
    {
      if removed {
        return false;
      }
      ApplyRateLimiters(downRate, upRate, now);
      rateLimitPausedDL := false;
      rateLimitPausedUL := false;
      sample := None;
      if started && !paused {
        torrent.downAllowed := true;
        torrent.upAllowed := true;
      }
      return true;
    }

    /** One task in one round of `enforceTaskRateLimits`. */
    method EnforceRateLimits(read: int, written: int, now: real)
      requires Valid()
      modifies this, torrent, downloadLimiter, uploadLimiter
      ensures Valid() && downloadLimiter == old(downloadLimiter) && uploadLimiter == old(uploadLimiter)
      ensures Abs() == ApplyOp(old(Abs()), Tick(read, written, now))
    {
      if removed || !started || paused {
        return;
      }
      if sample.None? {
        sample := Some(Sample(read, written));
        return;
      }
      var deltaRead, deltaWrite := Delta(read, sample.value.read), Delta(written, sample.value.written);
      sample := Some(Sample(read, written));
      EnforceDownload(deltaRead, now);
      EnforceUpload(deltaWrite, now);
    }

    method EnforceDownload(deltaRead: int, now: real)
      requires Valid()
      modifies this`rateLimitPausedDL, torrent`downAllowed, downloadLimiter
      ensures var v := Enforce(old(BucketOf(downloadLimiter)), old(rateLimitPausedDL), deltaRead, now);
        && BucketOf(downloadLimiter) == v.limit && rateLimitPausedDL == v.throttled
        && torrent.downAllowed == Gate(old(torrent.downAllowed), v.gate)
    {
      hide Consume, Afford, Refill;
      if downloadLimiter == null {
        if rateLimitPausedDL {
          rateLimitPausedDL := false;
          torrent.downAllowed := true;
        }
        return;
      }
      if deltaRead > 0 {
        var paid := TryConsume(downloadLimiter, deltaRead, now);
        if !paid {
          if !rateLimitPausedDL {
            rateLimitPausedDL := true;
            torrent.downAllowed := false;
          }
          return;
        }
      }
      if rateLimitPausedDL {
        var affords := CanAfford(downloadLimiter, 1, now);
        if affords {
          rateLimitPausedDL := false;
          torrent.downAllowed := true;
        }
      }
    }

    method EnforceUpload(deltaWrite: int, now: real)
      requires Valid()
      modifies this`rateLimitPausedUL, torrent`upAllowed, uploadLimiter
      ensures var v := Enforce(old(BucketOf(uploadLimiter)), old(rateLimitPausedUL), deltaWrite, now);
        && BucketOf(uploadLimiter) == v.limit && rateLimitPausedUL == v.throttled
        && torrent.upAllowed == Gate(old(torrent.upAllowed), v.gate)
    {
      hide Consume, Afford, Refill;
      if uploadLimiter == null {
        if rateLimitPausedUL {
          rateLimitPausedUL := false;
          torrent.upAllowed := true;
        }
        return;
      }
      if deltaWrite > 0 {
        var paid := TryConsume(uploadLimiter, deltaWrite, now);
        if !paid {
          if !rateLimitPausedUL {
            rateLimitPausedUL := true;
            torrent.upAllowed := false;
          }
          return;
        }
      }
      if rateLimitPausedUL {
        var affords := CanAfford(uploadLimiter, 1, now);
        if affords {
          rateLimitPausedUL := false;
          torrent.upAllowed := true;
        }
      }
    }

    /** `EnforceSeedPolicy`, given its decision to stop. */
    method StopSeeding()
      modifies this`seedStopped, torrent`upAllowed
      ensures Abs() == ApplyOp(old(Abs()), SeedStop)
    {
      if removed || seedStopped {
        return;
      }
      seedStopped := true;
      torrent.upAllowed := false;
    }

    method MetadataReceived()
      modifies this`paused, this`started, torrent
      ensures Abs() == ApplyOp(old(Abs()), PauseAfterMetadata)
    {
      if !removed {
        paused := true;
        started := false;
        torrent.downAllowed := false;
        torrent.upAllowed := false;
      }
    }

    method RemoveTorrent()
      modifies this`removed, this`started, this`paused
      ensures Abs() == ApplyOp(old(Abs()), Remove)
    {
      if !removed {
        removed := true;
        started := false;
        paused := false;
      }
    }
  }

  /** An option change as the operations it amounts to. */
  function OptionOps(pause: Option<bool>, limits: Option<(int, int)>, now: real): seq<GateOp> {
    (if pause.None? then [] else if pause.value then [Pause] else [Start])
    + (if limits.None? then [] else [SetLimits(limits.value.0, limits.value.1, now)])
  }

  /** Nothing happens to a removed torrent. */
  lemma {:induction false} RemovedStays(s: Torrent, ops: seq<GateOp>)
    requires s.removed
    ensures RunOps(s, ops) == s
    decreases |ops|
  {
    if ops != [] {
      RemovedStays(s, ops[1..]);
    }
  }

  lemma RemovedStep(s: Torrent, op: GateOp)
    requires s.removed
    ensures ApplyOp(s, op) == s
  {
  }

  lemma OptionOpsRun(s: Torrent, pause: Option<bool>, limits: Option<(int, int)>, now: real)
    ensures var s1 := if pause.None? then s else ApplyOp(s, if pause.value then Pause else Start);
      RunOps(s, OptionOps(pause, limits, now))
        == if limits.None? then s1 else ApplyOp(s1, SetLimits(limits.value.0, limits.value.1, now))
  {
    hide ApplyOp;
    var ops := OptionOps(pause, limits, now);
    if pause.Some? && limits.Some? {
      var s1 := ApplyOp(s, ops[0]);
      assert ops[1..] == [ops[1]] && ops[1..][1..] == [];
      assert RunOps(s, ops) == RunOps(s1, [ops[1]]);
      assert RunOps(s1, [ops[1]]) == RunOps(ApplyOp(s1, ops[1]), []);
    } else if ops != [] {
      assert ops[1..] == [];
      assert RunOps(s, ops) == RunOps(ApplyOp(s, ops[0]), []);
    }
  }

  // ---- The gate invariant ----------------------------------------------------------------

  predicate GateInv(s: Torrent) {
    && (!s.removed ==>
         && (s.downAllowed <==> s.started && !s.paused && !s.downThrottled)
         && (s.upAllowed ==> s.started && !s.paused && !s.upThrottled)
         && (!s.seedStopped ==> (s.upAllowed <==> s.started && !s.paused && !s.upThrottled)))
    && (s.downThrottled ==> s.downLimit.Some?)
    && (s.upThrottled ==> s.upLimit.Some?)
  }

  lemma ApplyKeepsInv(s: Torrent, op: GateOp)
    requires GateInv(s)
    ensures GateInv(ApplyOp(s, op))
  {
  }

  /**
   In every history of a torrent from its Add on: unless removed, it may download exactly
   when it is started, not paused and not throttled by its limit, and it may upload only
   then, and exactly then as long as its seeding was never stopped.
   */
  lemma {:induction false} GateFollowsState(s: Torrent, ops: seq<GateOp>)
    requires GateInv(s)
    ensures GateInv(RunOps(s, ops))
    decreases |ops|
  {
    if ops != [] {
      ApplyKeepsInv(s, ops[0]);
      GateFollowsState(ApplyOp(s, ops[0]), ops[1..]);
    }
  }

  lemma AddedGate(downRate: int, upRate: int, now: real, ops: seq<GateOp>)
    ensures var s := RunOps(Added(downRate, upRate, now), ops);
      !s.removed ==>
        && (s.downAllowed <==> s.started && !s.paused && !s.downThrottled)
        && (s.upAllowed ==> s.started && !s.paused && !s.upThrottled)
        && (!s.seedStopped ==> (s.upAllowed <==> s.started && !s.paused && !s.upThrottled))
  {
    GateFollowsState(Added(downRate, upRate, now), ops);
  }

  /** Bytes moved before a Start or a change of limits are never charged: the next tick only takes a sample. */
  lemma FirstTickIsFree(s: Torrent, op: GateOp, read: int, written: int, now: real)
    requires op.Start? || op.SetLimits?
    requires !s.removed && (op.SetLimits? ==> s.started && !s.paused)
    ensures var s1 := ApplyOp(s, op);
      ApplyOp(s1, Tick(read, written, now)) == s1.(sample := Some(Sample(read, written)))
  {
  }

  // ---- What a limit does ----------------------------------------------------------------------

  /** A limiter holding `t` after its refill throttles when it cannot pay, or was throttled and has not a byte left. */
  lemma EnforceExactly(b: Bucket, throttled: bool, delta: int, now: real)
    requires Sound(b) && b.lastFill <= now && delta >= 0
    ensures var v, t := Enforce(Some(b), throttled, delta, now), Refill(b, now).tokens;
      && (v.throttled <==> delta as real > t || (throttled && t - delta as real < 1.0))
      && (v.gate == if v.throttled == throttled then None else Some(!v.throttled))
      && v.limit.Some? && Sound(v.limit.value) && v.limit.value.rate == b.rate && v.limit.value.lastFill <= now
      && Refill(v.limit.value, now).tokens == if delta as real <= t then t - delta as real else t
  {
    RefillSound(b, now);
    RefillAgain(b, now);
    if delta > 0 && delta as real <= Refill(b, now).tokens {
      FreshlyRefilled(Refill(b, now).(tokens := Refill(b, now).tokens - delta as real), now);
    }
    hide Refill;
  }

  lemma RefillAgain(b: Bucket, now: real)
    requires Sound(b) && b.lastFill <= now
    ensures Refill(Refill(b, now), now) == Refill(b, now)
  {
    RefillSound(b, now);
  }

  lemma FreshlyRefilled(b: Bucket, now: real)
    requires b.lastFill == now
    ensures Refill(b, now) == b
  {
  }

  /** A torrent the rate limit loop looks at, with a sample taken. */
  predicate Metered(s: Torrent) {
    !s.removed && s.started && !s.paused && s.sample.Some?
  }

  predicate Ready(limit: Option<Bucket>, now: real) {
    limit.Some? && Sound(limit.value) && limit.value.lastFill <= now
  }

  /**
   A tick on a torrent with a download limit, by what the bucket holds then and the bytes read
   since the sample: it may not download after if and only if the bytes cannot be paid, or it
   was throttled and not a byte is left. What is paid leaves the bucket, and the sample is the
   present counters.
   */
  lemma TickThrottlesDownload(s: Torrent, read: int, written: int, now: real)
    requires GateInv(s) && Metered(s) && Ready(s.downLimit, now)
    ensures var s1 := ApplyOp(s, Tick(read, written, now));
      var t, d := Refill(s.downLimit.value, now).tokens, Delta(read, s.sample.value.read) as real;
      && (s1.downThrottled <==> d > t || (s.downThrottled && t - d < 1.0))
      && (s1.downAllowed <==> !s1.downThrottled)
      && Ready(s1.downLimit, now) && s1.downLimit.value.rate == s.downLimit.value.rate
      && Refill(s1.downLimit.value, now).tokens == (if d <= t then t - d else t)
      && s1.sample == Some(Sample(read, written)) && Metered(s1)
  {
    EnforceExactly(s.downLimit.value, s.downThrottled, Delta(read, s.sample.value.read), now);
    hide Enforce, Refill;
  }

  /** The same for upload, which a tick allows only by lifting the throttle. */
  lemma TickThrottlesUpload(s: Torrent, read: int, written: int, now: real)
    requires GateInv(s) && Metered(s) && Ready(s.upLimit, now)
    ensures var s1 := ApplyOp(s, Tick(read, written, now));
      var t, d := Refill(s.upLimit.value, now).tokens, Delta(written, s.sample.value.written) as real;
      && (s1.upThrottled <==> d > t || (s.upThrottled && t - d < 1.0))
      && (s1.upAllowed <==> !s1.upThrottled && (s.upAllowed || s.upThrottled))
      && Ready(s1.upLimit, now) && s1.upLimit.value.rate == s.upLimit.value.rate
      && Refill(s1.upLimit.value, now).tokens == (if d <= t then t - d else t)
      && s1.sample == Some(Sample(read, written)) && Metered(s1)
  {
    EnforceExactly(s.upLimit.value, s.upThrottled, Delta(written, s.sample.value.written), now);
    hide Enforce, Refill;
  }

  /** New limits are fresh and full, one for each positive rate, and a running torrent is allowed both ways at once. */
  lemma LimitsTakeEffect(s: Torrent, downRate: int, upRate: int, now: real)
    requires !s.removed
    ensures var s1 := ApplyOp(s, SetLimits(downRate, upRate, now));
      && (downRate > 0 ==> s1.downLimit == Some(Bucket(downRate, downRate as real, now)))
      && (upRate > 0 ==> s1.upLimit == Some(Bucket(upRate, upRate as real, now)))
      && (downRate <= 0 ==> s1.downLimit == None) && (upRate <= 0 ==> s1.upLimit == None)
      && !s1.downThrottled && !s1.upThrottled && s1.sample == None
      && (s.started && !s.paused ==> s1.downAllowed && s1.upAllowed)
  {
  }

  /** A direction without a limit is left alone by every tick. */
  lemma TickWithoutLimit(s: Torrent, read: int, written: int, now: real)
    requires GateInv(s) && Metered(s)
    ensures var s1 := ApplyOp(s, Tick(read, written, now));
      && (s.downLimit.None? ==> s1.downAllowed == s.downAllowed && !s1.downThrottled && s1.downLimit.None?)
      && (s.upLimit.None? ==> s1.upAllowed == s.upAllowed && !s1.upThrottled && s1.upLimit.None?)
  {
  }

  lemma SecondHoldsByte(b: Bucket, now: real)
    requires Sound(b) && b.lastFill + 1.0 <= now
    ensures Refill(b, now).tokens >= 1.0
  {
    GainGrows(b.rate, 1.0, now - b.lastFill);
    GainFacts(b.rate, 1.0);
    hide Gain;
  }

  /** A throttled torrent that moves nothing more is allowed again by any tick a second after the last refill. */
  lemma ThrottleLifts(s: Torrent, read: int, written: int, now: real)
    requires GateInv(s) && Metered(s)
    ensures var s1 := ApplyOp(s, Tick(read, written, now));
      && (s.downThrottled && Ready(s.downLimit, now - 1.0) && read == s.sample.value.read ==> s1.downAllowed)
      && (s.upThrottled && Ready(s.upLimit, now - 1.0) && written == s.sample.value.written ==> s1.upAllowed)
  {
    if s.downThrottled && Ready(s.downLimit, now - 1.0) && read == s.sample.value.read {
      SecondHoldsByte(s.downLimit.value, now);
      TickThrottlesDownload(s, read, written, now);
    }
    if s.upThrottled && Ready(s.upLimit, now - 1.0) && written == s.sample.value.written {
      SecondHoldsByte(s.upLimit.value, now);
      TickThrottlesUpload(s, read, written, now);
    }
    hide ApplyOp, Refill, GateInv;
  }

  // ---- How long a seed stop lasts -----------------------------------------------------------

  predicate Ticks(ops: seq<GateOp>) {
    forall k | 0 <= k < |ops| :: ops[k].Tick?
  }

  /** Without an upload limit no ticks allow upload again, whatever they count. */
  lemma {:induction false} NoLimitNoUpload(s: Torrent, ops: seq<GateOp>)
    requires GateInv(s) && s.upLimit.None? && !s.upAllowed && Ticks(ops)
    ensures !RunOps(s, ops).upAllowed
    decreases |ops|
  {
    if ops != [] {
      assert ops[0].Tick?;
      ApplyKeepsInv(s, ops[0]);
      NoLimitNoUpload(ApplyOp(s, ops[0]), ops[1..]);
    }
  }

  /** Ticks while nothing is uploaded: the written counter stands at `w`, and the clock does not go back from `from`. */
  predicate Still(ops: seq<GateOp>, w: int, from: real)
    decreases |ops|
  {
    ops != [] ==>
      ops[0].Tick? && ops[0].written == w && ops[0].now >= from && Still(ops[1..], w, ops[0].now)
  }

  /** A running torrent whose upload is withheld. */
  predicate Withheld(s: Torrent, now: real) {
    && GateInv(s) && !s.removed && s.started && !s.paused && !s.upAllowed
    && (s.upLimit.Some? ==> Sound(s.upLimit.value) && s.upLimit.value.lastFill <= now)
  }

  /** No upload limit, or not throttled by it and able to pay at `now` for what was written since the last sample. */
  predicate Settled(s: Torrent, w: int, now: real) {
    || s.upLimit.None?
    || (&& !s.upThrottled
        && (s.sample.None? || Delta(w, s.sample.value.written) as real <= Refill(s.upLimit.value, now).tokens))
  }

  lemma LaterHoldsMore(b: Bucket, from: real, now: real)
    requires Sound(b) && b.lastFill <= from <= now
    ensures Refill(b, from).tokens <= Refill(b, now).tokens && Sound(Refill(b, now)) && Refill(b, now).lastFill <= now
  {
    RefillSound(b, from);
    RefillTwice(b, from, now);
    RefillSound(Refill(b, from), now);
    hide Refill;
  }

  /** What can be paid is paid, and leaves the gate alone. */
  lemma PaidInPeace(b: Bucket, delta: int, from: real, now: real)
    requires Sound(b) && b.lastFill <= from <= now && 0 <= delta && delta as real <= Refill(b, from).tokens
    ensures var v := Enforce(Some(b), false, delta, now);
      !v.throttled && v.gate.None? && v.limit.Some? && Sound(v.limit.value) && v.limit.value.lastFill <= now
  {
    LaterHoldsMore(b, from, now);
    hide Refill;
  }

  lemma StillStep(s: Torrent, op: GateOp, w: int, from: real)
    requires Withheld(s, from) && Settled(s, w, from)
    requires op.Tick? && op.written == w && op.now >= from
    ensures Withheld(ApplyOp(s, op), op.now) && Settled(ApplyOp(s, op), w, op.now)
  {
    var s1 := ApplyOp(s, op);
    ApplyKeepsInv(s, op);
    if s.upLimit.Some? {
      if s.sample.Some? {
        PaidInPeace(s.upLimit.value, Delta(w, s.sample.value.written), from, op.now);
      }
      hide Enforce;
      LaterHoldsMore(s1.upLimit.value, op.now, op.now);
    }
  }

  lemma {:induction false} SettledStays(s: Torrent, ops: seq<GateOp>, w: int, from: real)
    requires Withheld(s, from) && Settled(s, w, from) && Still(ops, w, from)
    ensures !RunOps(s, ops).upAllowed
    decreases |ops|
  {
    if ops != [] {
      StillStep(s, ops[0], w, from);
      SettledStays(ApplyOp(s, ops[0]), ops[1..], w, ops[0].now);
    }
  }

  /** A second later any bucket affords a byte. */
  lemma SecondLater(b: Bucket, now: real)
    requires Sound(b) && b.lastFill + 1.0 <= now
    ensures Afford(b, 1, now).1
  {
    RefillSound(b, now);
    GainGrows(b.rate, 1.0, now - b.lastFill);
    GainFacts(b.rate, 1.0);
    hide Gain;
  }

  /** A throttled torrent, or one that cannot pay, is throttled or released by a tick. */
  lemma UnsettledTick(s: Torrent, w: int, from: real)
    requires Withheld(s, from) && !Settled(s, w, from)
    ensures var s1 := ApplyOp(s, Tick(0, w, from));
      && !s1.removed && s1.started && !s1.paused && s1.sample == Some(Sample(0, w)) && (s1.upThrottled || s1.upAllowed)
      && s1.upLimit.Some? && Sound(s1.upLimit.value) && s1.upLimit.value.lastFill <= from
  {
    var b := s.upLimit.value;
    LaterHoldsMore(b, from, from);
    hide Refill;
    if s.sample.Some? {
      UnpaidOrReleased(b, s.upThrottled, Delta(w, s.sample.value.written), from);
    }
    hide Enforce;
  }

  lemma UnpaidOrReleased(b: Bucket, throttled: bool, delta: int, now: real)
    requires Sound(b) && b.lastFill <= now && (throttled || delta as real > Refill(b, now).tokens)
    ensures var v := Enforce(Some(b), throttled, delta, now);
      && (v.throttled || v.gate == Some(true))
      && v.limit.Some? && Sound(v.limit.value) && v.limit.value.lastFill <= now
  {
    LaterHoldsMore(b, now, now);
    if delta > 0 && Consume(b, delta, now).1 {
      LaterHoldsMore(Consume(b, delta, now).0, now, now);
    }
    hide Refill;
  }

  /** A second after, nothing more to pay, the throttle is lifted. */
  lemma ReleasedLater(s: Torrent, w: int, from: real)
    requires !s.removed && s.started && !s.paused && s.sample == Some(Sample(0, w)) && (s.upThrottled || s.upAllowed)
    requires s.upLimit.Some? && Sound(s.upLimit.value) && s.upLimit.value.lastFill <= from
    ensures ApplyOp(s, Tick(0, w, from + 1.0)).upAllowed
  {
    SecondLater(s.upLimit.value, from + 1.0);
    hide Afford;
  }

  /**
   While nothing is uploaded the rate limit loop leaves a seed stop alone, if and only if at
   the stop the torrent has no upload limit, or is not throttled by it and can pay for what it
   wrote since the last sample. Otherwise two ticks allow upload again.
   */
  lemma SeedStopLasts(s: Torrent, w: int, from: real)
    requires Withheld(s, from) && s.seedStopped
    ensures (forall ops | Still(ops, w, from) :: !RunOps(s, ops).upAllowed) <==> Settled(s, w, from)
  {
    if Settled(s, w, from) {
      forall ops | Still(ops, w, from) ensures !RunOps(s, ops).upAllowed {
        SettledStays(s, ops, w, from);
      }
    } else {
      var ops := UndoSeedStop(s, w, from);
      assert Still(ops, w, from) && RunOps(s, ops).upAllowed;
    }
  }

  lemma {:induction false} UndoSeedStop(s: Torrent, w: int, from: real) returns (ops: seq<GateOp>)
    requires Withheld(s, from) && !Settled(s, w, from)
    ensures Still(ops, w, from) && RunOps(s, ops).upAllowed
  {
    var t0, t1 := Tick(0, w, from), Tick(0, w, from + 1.0);
    UnsettledTick(s, w, from);
    ReleasedLater(ApplyOp(s, t0), w, from);
    hide ApplyOp, Settled, Withheld;
    TwoTicks(s, t0, t1);
    ops := [t0, t1];
    assert ops[1..] == [t1] && [t1][1..] == [];
    assert Still([], w, from + 1.0) && Still([t1], w, from);
  }

  lemma TwoTicks(s: Torrent, t0: GateOp, t1: GateOp)
    ensures RunOps(s, [t0, t1]) == ApplyOp(ApplyOp(s, t0), t1)
  {
    assert [t0, t1][1..] == [t1] && [t1][1..] == [];
    var s1 := ApplyOp(s, t0);
    hide ApplyOp;
    assert RunOps(s1, [t1]) == RunOps(ApplyOp(s1, t1), []);
  }

  /**
   A stop that does not last: a torrent with an upload limit of ten bytes a second is added,
   started, and throttled for eleven bytes; the stop of its seeding withholds the upload, and a
   second later the loop allows it again, though nothing was written since.
   */
  lemma ThrottledStopUndone()
    ensures var s3 := RunOps(Added(0, 10, 0.0), [Start, Tick(0, 0, 0.0), Tick(0, 11, 0.0), SeedStop]);
      && Withheld(s3, 0.0) && s3.seedStopped && !Settled(s3, 11, 0.0)
      && ApplyOp(s3, Tick(0, 11, 1.0)).upAllowed
  {
    var a := Added(0, 10, 0.0);
    var t0, t1 := Tick(0, 0, 0.0), Tick(0, 11, 0.0);
    var s0 := ApplyOp(a, Start);
    var s1 := ApplyOp(s0, t0);
    var s2 := ApplyOp(s1, t1);
    var s3 := ApplyOp(s2, SeedStop);
    assert s3 == Torrent(true, false, false, true, None, Some(Bucket(10, 10.0, 0.0)),
                         false, true, Some(Sample(0, 11)), true, false);
    ReleasedLater(s3, 11, 0.0);
    hide ApplyOp;
    FourOps(a, Start, t0, t1, SeedStop);
  }

  lemma FourOps(s: Torrent, a: GateOp, b: GateOp, c: GateOp, d: GateOp)
    ensures RunOps(s, [a, b, c, d]) == ApplyOp(ApplyOp(ApplyOp(ApplyOp(s, a), b), c), d)
  {
    assert [a, b, c, d][1..] == [b, c, d] && [b, c, d][1..] == [c, d];
    TwoTicks(ApplyOp(ApplyOp(s, a), b), c, d);
    hide ApplyOp;
    assert RunOps(ApplyOp(s, a), [b, c, d]) == RunOps(ApplyOp(ApplyOp(s, a), b), [c, d]);
  }
}
