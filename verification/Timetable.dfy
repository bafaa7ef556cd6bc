/** The timetable of homesoc/scheduler.py and the one worker that serves it.  Jobs are numbered in
    the order they were given, which is the order `_next_job` looks at them.  Times are
    microseconds since the epoch; the local clock is a fixed offset from it. */
module Timetable {
  import opened Options
  import opened Sequences

  const SECOND := 1_000_000
  const HOUR := 3600 * SECOND
  const DAY := 24 * HOUR

  datatype Job = Job(intervalSec: int, runAtStart: bool, atHour: Option<int>, budgetSec: Option<int>)

  type JobId = nat

  predicate ManualOnly(job: Job) { job.intervalSec <= 0 && job.atHour.None? }

  function Clamped(hour: int): int { if hour < 0 then 0 else if hour > 23 then 23 else hour }

  function NextLocalHour(hour: int, now: int, offset: int): int {
    var local := now + offset;
    var target := local - local % DAY + Clamped(hour) * HOUR;
    (if target <= local then target + DAY else target) - offset
  }

  predicate IsLocalHour(t: int, hour: int, offset: int) { (t + offset) % DAY == Clamped(hour) * HOUR }

  /** Two moments less than a day apart that show one time of day are one moment. */
  lemma OnceADay(a: int, b: int)
    requires a % DAY == b % DAY && -DAY < a - b < DAY
    ensures a == b
  {
    var x, y := a / DAY, b / DAY;
    assert a == DAY * x + a % DAY && b == DAY * y + b % DAY;
    assert a - b == DAY * (x - y);
  }

  lemma TimeOfDay(x: int, c: int)
    requires 0 <= c < DAY
    ensures (DAY * x + c) % DAY == c
  {
  }

  lemma HourOfDay(local: int, hour: int)
    ensures (local - local % DAY + Clamped(hour) * HOUR) % DAY == Clamped(hour) * HOUR
    ensures (local - local % DAY + Clamped(hour) * HOUR + DAY) % DAY == Clamped(hour) * HOUR
  {
    var x := local / DAY;
    assert local - local % DAY == DAY * x;
    TimeOfDay(x, Clamped(hour) * HOUR);
    TimeOfDay(x + 1, Clamped(hour) * HOUR);
  }

  /** It is the first moment strictly after `now` at which the local clock shows the hour. */
  lemma NextLocalHourIsNext(hour: int, now: int, offset: int)
    ensures now < NextLocalHour(hour, now, offset) <= now + DAY
    ensures IsLocalHour(NextLocalHour(hour, now, offset), hour, offset)
    ensures forall t :: now < t < NextLocalHour(hour, now, offset) ==> !IsLocalHour(t, hour, offset)
  {
    var next := NextLocalHour(hour, now, offset);
    HourOfDay(now + offset, hour);
    assert now < next <= now + DAY;
    forall t | now < t < next && IsLocalHour(t, hour, offset) ensures false {
      OnceADay(t + offset, next + offset);
    }
  }

  function InitialNextRun(job: Job, now: int, offset: int): Option<int> {
    if ManualOnly(job) then None
    else if job.atHour.Some? then Some(NextLocalHour(job.atHour.value, now, offset))
    else if job.runAtStart then Some(now)
    else Some(now + job.intervalSec * SECOND)
  }

  function NextAfterRun(job: Job, now: int, offset: int): Option<int> {
    if ManualOnly(job) then None
    else if job.atHour.Some? then Some(NextLocalHour(job.atHour.value, now, offset))
    else Some(now + job.intervalSec * SECOND)
  }

  /** A finished job is never due again at the moment it finished. */
  lemma StrictlyLater(job: Job, now: int, offset: int)
    ensures NextAfterRun(job, now, offset).Some? ==> NextAfterRun(job, now, offset).value > now
    ensures NextAfterRun(job, now, offset).None? <==> ManualOnly(job)
  {
    if job.atHour.Some? {
      NextLocalHourIsNext(job.atHour.value, now, offset);
    }
  }

  /** When a job is due, in microseconds: by hand only, never; at an hour, within a day, as the local
      clock shows that hour; else its interval's seconds after it finished, and at the start either at
      once or an interval later. */
  lemma DueWhen(job: Job, now: int, offset: int)
    ensures job.intervalSec <= 0 && job.atHour.None? ==>
              NextAfterRun(job, now, offset) == None && InitialNextRun(job, now, offset) == None
    ensures job.intervalSec > 0 && job.atHour.None? ==>
              && NextAfterRun(job, now, offset) == Some(now + job.intervalSec * 1_000_000)
              && InitialNextRun(job, now, offset)
                 == Some(if job.runAtStart then now else now + job.intervalSec * 1_000_000)
    ensures job.atHour.Some? ==>
              var h, next := job.atHour.value, NextAfterRun(job, now, offset);
              && next == InitialNextRun(job, now, offset) && next.Some?
              && now < next.value <= now + 86_400_000_000
              && (next.value + offset) % 86_400_000_000
                 == (if h < 0 then 0 else if h > 23 then 23 else h) * 3_600_000_000
  {
    if job.atHour.Some? {
      NextLocalHourIsNext(job.atHour.value, now, offset);
    }
  }

  // ---- choosing ----

  type Times = seq<Option<int>>

  /** `i` is the job with the earliest time, the first of several. */
  ghost predicate Soonest(times: Times, i: JobId) {
    && i < |times| && times[i].Some?
    && (forall j :: 0 <= j < |times| && times[j].Some? ==> times[i].value <= times[j].value)
    && (forall j :: 0 <= j < i && times[j].Some? ==> times[i].value < times[j].value)
  }

  ghost predicate Due(times: Times, i: JobId, now: int) {
    i < |times| && times[i].Some? && times[i].value <= now
  }

  // ---- one worker, many rounds ----

  /** One round of the worker: a job, from the queue or the timetable, with when it began and ended. */
  datatype Service = Service(job: JobId, queued: bool, began: int, ended: int)

  function AfterService(jobs: seq<Job>, times: Times, s: Service, offset: int): Times
    requires |jobs| == |times| && s.job < |jobs|
  {
    times[s.job := NextAfterRun(jobs[s.job], s.ended, offset)]
  }

  /** Rounds one worker can go through from `clock`: a queued request whenever there is one, else
      the soonest job if it is due. */
  ghost predicate Served(jobs: seq<Job>, times: Times, clock: int, rounds: seq<Service>, offset: int)
    requires |jobs| == |times|
    decreases rounds
  {
    rounds == [] ||
    var s := rounds[0];
    && s.job < |jobs| && clock <= s.began <= s.ended
    && (s.queued || (Soonest(times, s.job) && times[s.job].value <= s.began))
    && Served(jobs, AfterService(jobs, times, s, offset), s.ended, rounds[1..], offset)
  }

  lemma OneServed(jobs: seq<Job>, times: Times, clock: int, s: Service, offset: int)
    requires |jobs| == |times| && s.job < |jobs| && clock <= s.began <= s.ended
    requires s.queued || (Soonest(times, s.job) && times[s.job].value <= s.began)
    ensures Served(jobs, times, clock, [s], offset)
  {
    assert [s][1..] == [];
  }

  /** The jobs the timetable started, in order. */
  function TimetableRuns(rounds: seq<Service>): seq<JobId> {
    if rounds == [] then []
    else (if rounds[0].queued then [] else [rounds[0].job]) + TimetableRuns(rounds[1..])
  }

  ghost predicate Unserved(rounds: seq<Service>, w: JobId) { forall s :: s in rounds ==> s.job != w }

  /** The jobs that may still go before a waiting job. */
  ghost function Ahead(times: Times, w: JobId): set<JobId>
    requires w < |times| && times[w].Some?
  {
    set j | 0 <= j < |times| && j != w && times[j].Some? && times[j].value <= times[w].value
  }

  /** While a job waits, due, the timetable starts only jobs that were ahead of it, each at most
      once: a finished job comes back strictly later than the waiting one. */
  lemma {:induction false} OnlyThoseAhead(jobs: seq<Job>, times: Times, clock: int, rounds: seq<Service>, w: JobId,
                                          offset: int)
    requires |jobs| == |times| && Due(times, w, clock)
    requires Served(jobs, times, clock, rounds, offset) && Unserved(rounds, w)
    ensures Distinct(TimetableRuns(rounds))
    ensures forall j :: j in TimetableRuns(rounds) ==> j in Ahead(times, w)
    decreases rounds
  {
    if rounds != [] {
      var s := rounds[0];
      assert s in rounds;
      StrictlyLater(jobs[s.job], s.ended, offset);
      var next := AfterService(jobs, times, s, offset);
      assert Ahead(next, w) == Ahead(times, w) - {s.job};
      assert forall r :: r in rounds[1..] ==> r in rounds;
      OnlyThoseAhead(jobs, next, s.ended, rounds[1..], w, offset);
    }
  }

  lemma {:induction false} DistinctWithin(s: seq<JobId>, bag: set<JobId>)
    requires Distinct(s) && forall j :: j in s ==> j in bag
    ensures |s| <= |bag|
  {
    if s != [] {
      assert s[0] in bag;
      assert forall j :: j in s[1..] ==> j in s;
      DistinctWithin(s[1..], bag - {s[0]});
    }
  }

  function Ids(n: nat): (ids: set<JobId>)
    ensures |ids| == n && forall j :: j in ids <==> 0 <= j < n
  {
    if n == 0 then {} else Ids(n - 1) + {n - 1}
  }

  lemma {:induction false} Smaller(a: set<JobId>, b: set<JobId>)
    requires a <= b
    ensures |a| <= |b|
  {
    if a != {} {
      var x :| x in a;
      Smaller(a - {x}, b - {x});
    }
  }

  /** No starvation: before a due job of `n` starts, the timetable starts at most `n - 1` jobs, none
      of them twice; everything else served meanwhile was asked for through the queue. */
  lemma BoundedWaiting(jobs: seq<Job>, times: Times, clock: int, rounds: seq<Service>, w: JobId, offset: int)
    requires |jobs| == |times| && Due(times, w, clock)
    requires Served(jobs, times, clock, rounds, offset) && Unserved(rounds, w)
    ensures Distinct(TimetableRuns(rounds)) && |TimetableRuns(rounds)| <= |Ahead(times, w)| <= |jobs| - 1
  {
    OnlyThoseAhead(jobs, times, clock, rounds, w, offset);
    DistinctWithin(TimetableRuns(rounds), Ahead(times, w));
    Smaller(Ahead(times, w), Ids(|times|) - {w});
  }

  // ---- the scheduler object ----

  const JOB_OVERRUN_SEC := 1800

  function OverrunAfter(job: Job): int {
    if job.budgetSec.None? then JOB_OVERRUN_SEC
    else if job.budgetSec.value > 0 then job.budgetSec.value else 0
  }

  /** `round(..., 1)`: tenths of a second, ties to even. */
  function Tenths(micros: int): int { Nearest(micros / 100_000, micros % 100_000) }

  function Nearest(q: int, r: int): int { if r < 50_000 || (r == 50_000 && q % 2 == 0) then q else q + 1 }

  lemma NearestOver(q: int, r: int, even: int)
    requires 0 <= r < 100_000 && even % 2 == 0
    ensures Nearest(q, r) > even <==> q > even || (q == even && r > 50_000)
  {
  }

  lemma TensAreEven(n: int)
    ensures 10 * n % 2 == 0
  {
    assert 10 * n == 2 * (5 * n);
  }

  /** So a job counts as past its budget once it is past by more than a twentieth of a second. */
  lemma OverrunExactly(micros: int, budget: int)
    ensures Tenths(micros) > 10 * budget <==> micros > budget * SECOND + 50_000
  {
    TensAreEven(budget);
    NearestOver(micros / 100_000, micros % 100_000, 10 * budget);
  }

  class Scheduler {
    const jobs: seq<Job>
    var queue: seq<JobId>
    var queued: seq<bool>
    var nextRun: Times
    var runningSince: seq<Option<int>>
    var reported: seq<bool>
    var runs: seq<nat>
    var locked: seq<bool>         // who holds a job's lock executes it

    ghost predicate Valid()
      reads this
    {
      && |queued| == |nextRun| == |runningSince| == |reported| == |runs| == |locked| == |jobs|
      && (forall k :: 0 <= k < |queue| ==> queue[k] < |jobs|)
      && (forall i, j :: 0 <= i < j < |queue| ==> queue[i] != queue[j])
      && (forall i :: 0 <= i < |jobs| ==> (queued[i] <==> i in queue))
      && (forall i :: 0 <= i < |jobs| && runningSince[i].Some? ==> locked[i])
    }

    constructor (jobs: seq<Job>)
      ensures Valid() && this.jobs == jobs && queue == []
      ensures forall i :: 0 <= i < |jobs| ==> nextRun[i].None? && runningSince[i].None?
    {
      this.jobs := jobs;
      queue := [];
      queued := seq(|jobs|, _ => false);
      nextRun := seq(|jobs|, _ => None);
      runningSince := seq(|jobs|, _ => None);
      reported := seq(|jobs|, _ => false);
      runs := seq(|jobs|, _ => 0);
      locked := seq(|jobs|, _ => false);
    }

    /** `start`: every job gets its first time. */
    method Start(now: int, offset: int)
      requires Valid()
      modifies this`nextRun
      ensures Valid()
      ensures forall i :: 0 <= i < |jobs| ==> nextRun[i] == InitialNextRun(jobs[i], now, offset)
      ensures forall i :: 0 <= i < |jobs| && jobs[i].runAtStart && jobs[i].atHour.None? && jobs[i].intervalSec > 0 ==>
                Due(nextRun, i, now)
    {
      for i := 0 to |jobs|
        invariant Valid()
        invariant forall k :: 0 <= k < i ==> nextRun[k] == InitialNextRun(jobs[k], now, offset)
      {
        nextRun := nextRun[i := InitialNextRun(jobs[i], now, offset)];
      }
    }

    /** `run_now`: with a live worker the request is queued, unless the job runs or is queued already;
        without one it is executed at once, unless somebody holds its lock. */
    method RunNow(i: JobId, alive: bool, began: int, ended: int, offset: int) returns (accepted: bool)
      requires Valid()
      modifies this
      ensures Valid()
      ensures i >= |jobs| ==> !accepted
      ensures i < |jobs| && alive ==> (accepted <==> old(runningSince)[i].None? && i !in old(queue))
      ensures i < |jobs| && !alive ==> (accepted <==> !old(locked)[i])
      ensures queue == if accepted && alive then old(queue) + [i] else old(queue)
      ensures runs == if accepted && !alive then old(runs)[i := old(runs)[i] + 1] else old(runs)
      ensures nextRun == if accepted && !alive then old(nextRun)[i := NextAfterRun(jobs[i], ended, offset)]
                         else old(nextRun)
      ensures locked == old(locked) && runningSince == old(runningSince)
    {
      if i >= |jobs| || runningSince[i].Some? {
        return false;
      }
      if !alive {
        accepted := Execute(i, began, ended, offset);
        return;
      }
      if queued[i] {
        return false;
      }
      queued := queued[i := true];
      queue := queue + [i];
      return true;
    }

    /** One look of `_next_job`: the queue first, then the timetable. */
    method NextJob(now: int) returns (job: Option<JobId>)
      requires Valid()
      modifies this`queue, this`queued
      ensures Valid()
      ensures old(queue) != [] ==> job == Some(old(queue)[0]) && queue == old(queue)[1..]
      ensures old(queue) == [] ==> queue == []
      ensures old(queue) == [] && job.Some? ==> Soonest(nextRun, job.value) && Due(nextRun, job.value, now)
      ensures job.None? <==> old(queue) == [] && forall i :: 0 <= i < |jobs| ==> !Due(nextRun, i, now)
    {
      if queue != [] {
        var i := queue[0];
        assert queue == [i] + queue[1..];
        queue := queue[1..];
        queued := queued[i := false];
        return Some(i);
      }
      var soonest: Option<JobId> := None;
      for i := 0 to |jobs|
        invariant soonest.None? ==> forall k :: 0 <= k < i ==> nextRun[k].None?
        invariant soonest.Some? ==> soonest.value < i && Soonest(nextRun[..i], soonest.value)
      {
        if nextRun[i].Some? && (soonest.None? || nextRun[i].value < nextRun[soonest.value].value) {
          soonest := Some(i);
        }
      }
      assert nextRun[..|jobs|] == nextRun;
      if soonest.Some? && nextRun[soonest.value].value <= now {
        assert Due(nextRun, soonest.value, now);
        return soonest;
      }
      return None;
    }

    /** The start of `_execute`: a lock that is held is not waited for. */
    method Begin(i: JobId, now: int) returns (acquired: bool)
      requires Valid() && i < |jobs|
      modifies this`locked, this`runningSince, this`reported
      ensures Valid()
      ensures acquired <==> !old(locked)[i]
      ensures !acquired ==> locked == old(locked) && runningSince == old(runningSince) && reported == old(reported)
      ensures acquired ==> locked == old(locked)[i := true]
      ensures acquired ==> runningSince == old(runningSince)[i := Some(now)] && reported == old(reported)[i := false]
      ensures acquired ==> !Overrunning(i, now)
    {
      if locked[i] {
        return false;
      }
      locked := locked[i := true];
      runningSince := runningSince[i := Some(now)];
      reported := reported[i := false];
      return true;
    }

    /** Its `finally` block. */
    method Finish(i: JobId, now: int, offset: int)
      requires Valid() && i < |jobs| && locked[i]
      modifies this`runningSince, this`runs, this`nextRun, this`locked
      ensures Valid()
      ensures runningSince == old(runningSince)[i := None] && runs == old(runs)[i := old(runs)[i] + 1]
      ensures nextRun == old(nextRun)[i := NextAfterRun(jobs[i], now, offset)]
      ensures locked == old(locked)[i := false]
      ensures !Due(nextRun, i, now)
    {
      StrictlyLater(jobs[i], now, offset);
      runningSince := runningSince[i := None];
      runs := runs[i := runs[i] + 1];
      nextRun := nextRun[i := NextAfterRun(jobs[i], now, offset)];
      locked := locked[i := false];
    }

    /** `_execute`, the job itself left out: skipped, changing nothing, just when the lock is held;
        else run once more, rescheduled, not due, and with its lock free again. */
    method Execute(i: JobId, began: int, ended: int, offset: int) returns (ran: bool)
      requires Valid() && i < |jobs|
      modifies this`locked, this`runningSince, this`reported, this`runs, this`nextRun
      ensures Valid()
      ensures ran <==> !old(locked)[i]
      ensures locked == old(locked) && runningSince == old(runningSince)
      ensures !ran ==> reported == old(reported) && runs == old(runs) && nextRun == old(nextRun)
      ensures ran ==> runs == old(runs)[i := old(runs)[i] + 1] && !reported[i] && !Due(nextRun, i, ended)
      ensures ran ==> nextRun == old(nextRun)[i := NextAfterRun(jobs[i], ended, offset)]
    {
      ran := Begin(i, began);
      if ran {
        Finish(i, ended, offset);
      }
    }

    /** One round of the worker's loop: a look for a job and, if there is one and its lock is free, its
        execution.  What it does to the timetable is one round of `Served`. */
    method Round(now: int, began: int, ended: int, offset: int) returns (service: Option<Service>)
      requires Valid() && now <= began <= ended
      modifies this
      ensures Valid()
      ensures service.Some? ==>
                var s := service.value;
                && Served(jobs, old(nextRun), now, [s], offset) && nextRun == AfterService(jobs, old(nextRun), s, offset)
                && s.began == began && s.ended == ended && (s.queued <==> old(queue) != [])
                && (s.queued ==> s.job == old(queue)[0])
                && runs == old(runs)[s.job := old(runs)[s.job] + 1]
      ensures service.None? ==> nextRun == old(nextRun) && runs == old(runs)
      ensures service.None? ==>
                || (old(queue) == [] && forall i :: 0 <= i < |jobs| ==> !Due(nextRun, i, now))
                || exists i :: 0 <= i < |jobs| && old(locked)[i]
      ensures queue == if old(queue) == [] then [] else old(queue)[1..]
      ensures locked == old(locked) && runningSince == old(runningSince)
    {
      var asked := queue != [];
      var job := NextJob(now);
      if job.None? {
        return None;
      }
      ghost var times := nextRun;
      var ran := Execute(job.value, began, ended, offset);
      if !ran {
        return None;
      }
      var s := Service(job.value, asked, began, ended);
      OneServed(jobs, times, now, s, offset);
      return Some(s);
    }

    predicate Overrunning(i: JobId, now: int)
      requires Valid() && i < |jobs|
      reads this
    {
      runningSince[i].Some? && Tenths(now - runningSince[i].value) > 10 * OverrunAfter(jobs[i])
    }

    /** `check_overruns`: every job past its budget is reported, once per run. */
    method CheckOverruns(now: int) returns (names: seq<JobId>)
      requires Valid()
      modifies this`reported
      ensures Valid() && Distinct(names)
      ensures forall i :: 0 <= i < |jobs| ==> (i in names <==> Overrunning(i, now) && !old(reported)[i])
      ensures forall i :: i in names ==> i < |jobs|
      ensures forall i :: 0 <= i < |jobs| ==> (reported[i] <==> old(reported)[i] || Overrunning(i, now))
    {
      names := [];
      for i := 0 to |jobs|
        invariant Valid()
        invariant forall k :: 0 <= k < |names| ==> names[k] < i
        invariant Distinct(names)
        invariant forall k :: 0 <= k < i ==> (k in names <==> Overrunning(k, now) && !old(reported)[k])
        invariant forall k :: 0 <= k < |jobs| ==>
                    (reported[k] <==> old(reported)[k] || (k < i && Overrunning(k, now)))
      {
        if !reported[i] && Overrunning(i, now) {
          reported := reported[i := true];
          names := names + [i];
        }
      }
    }
  }
}
