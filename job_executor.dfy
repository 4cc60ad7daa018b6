/**
 * job/job_executor.go: a registry of scheduled jobs, the guard each cron
 * firing applies before running a job, and the enumeration of a schedule's
 * instants in a window. Cron itself is outside: whether it accepts a schedule
 * and its Next function are inputs, and each firing is one sequential step.
 */
module JobExecutor {
  import opened Clock

  /** A Job; `callback` stands for the Function field, the callback, which the model only records as called. */
  datatype Job = Job(id: int, name: string, schedule: string, startDate: Instant, endDate: Instant, callback: nat)

  /** A job's run log in a map of logs; Go reads a missing key as the empty slice. */
  function Log(logs: map<int, seq<Instant>>, id: int): seq<Instant>
  {
    if id in logs then logs[id] else []
  }

  /** The firing guard: both ends of the window are excluded. */
  predicate InWindow(job: Job, now: Instant)
  {
    job.startDate < now < job.endDate
  }

  /** The run logs after the callback registered for `job` fires at `now`. */
  function Fired(logs: map<int, seq<Instant>>, job: Job, now: Instant): (r: map<int, seq<Instant>>)
    ensures InWindow(job, now) ==> Log(r, job.id) == Log(logs, job.id) + [now]
    ensures !InWindow(job, now) ==> r == logs
    ensures forall id :: id != job.id ==> Log(r, id) == Log(logs, id)
  {
    if InWindow(job, now) then logs[job.id := Log(logs, job.id) + [now]] else logs
  }

  class JobExecutor {
    var jobs: map<int, Job>
    var runLog: map<int, seq<Instant>>
    /** The callbacks cron holds, each with the Job value it captured when registered. */
    var entries: seq<Job>
    /** The callbacks run so far, in order. */
    var calls: seq<nat>

    /** Every logged instant lies strictly inside the window of a registered callback of that job. */
    ghost predicate Valid()
      reads this
    {
      forall id, t :: id in runLog && t in runLog[id] ==>
        exists k :: 0 <= k < |entries| && entries[k].id == id && InWindow(entries[k], t)
    }

    /** NewJobExecutor */
    constructor ()
      ensures Valid()
      ensures jobs == map[] && runLog == map[] && entries == [] && calls == []
    {
      jobs := map[];
      runLog := map[];
      entries := [];
      calls := [];
    }

    /**
     * RegisterJob: the job is stored under its ID, replacing any earlier one,
     * before cron is asked to take the schedule; only an accepted schedule adds
     * a callback.
     */
    method RegisterJob(job: Job, scheduleAccepted: bool)
      requires Valid()
      modifies this
      ensures Valid()
      ensures jobs == old(jobs)[job.id := job]
      ensures entries == if scheduleAccepted then old(entries) + [job] else old(entries)
      ensures runLog == old(runLog) && calls == old(calls)
    {
      jobs := jobs[job.id := job];
      if scheduleAccepted {
        entries := entries + [job];
        assert forall k :: 0 <= k < |old(entries)| ==> entries[k] == old(entries)[k];
      }
    }

    /** Cron fires callback k at `now`: inside the window the job runs and `now` is logged. */
    method Fire(k: nat, now: Instant)
      requires Valid() && k < |entries|
      modifies this
      ensures jobs == old(jobs) && entries == old(entries)
      ensures Valid()
      ensures runLog == Fired(old(runLog), entries[k], now)
      ensures calls == if InWindow(entries[k], now) then old(calls) + [entries[k].callback] else old(calls)
    {
      var job := entries[k];
      if job.startDate < now && now < job.endDate {
        calls := calls + [job.callback];
        ghost var before := runLog;
        runLog := runLog[job.id := Log(runLog, job.id) + [now]];
        forall id, t | id in runLog && t in runLog[id]
          ensures exists j :: 0 <= j < |entries| && entries[j].id == id && InWindow(entries[j], t)
        {
          if id == job.id && t !in Log(before, job.id) {
            assert t == now;
            assert entries[k].id == id && InWindow(entries[k], t);
          }
        }
      }
    }
  }

  /** The instants from t on, each the Next of the one before, that fall before `end`. */
  function Instances(next: Instant -> Instant, t: Instant, end: Instant): seq<Instant>
    requires forall u :: next(u) > u
    decreases end - t
  {
    if t < end then [t] + Instances(next, next(t), end) else []
  }

  /** The enumeration lists every step from t while before `end`, strictly increasing. */
  lemma {:induction false} InstancesSpec(next: Instant -> Instant, t: Instant, end: Instant)
    requires forall u :: next(u) > u
    ensures var r := Instances(next, t, end);
      (r == [] <==> t >= end)
      && (r != [] ==> r[0] == t && next(r[|r| - 1]) >= end)
      && (forall i :: 0 <= i < |r| ==> t <= r[i] < end)
      && (forall i :: 0 < i < |r| ==> r[i] == next(r[i - 1]) && r[i - 1] < r[i])
    decreases end - t
  {
    if t < end {
      InstancesSpec(next, next(t), end);
      var rest := Instances(next, next(t), end);
      assert Instances(next, t, end) == [t] + rest;
    }
  }

  /**
   * CalculateJobInstances: nothing for a schedule cron cannot parse; otherwise
   * Next(start), Next(Next(start)), ... while before `endDate`.
   */
  method CalculateJobInstances(parsed: bool, next: Instant -> Instant, startDate: Instant, endDate: Instant)
    returns (instances: seq<Instant>)
    requires forall u :: next(u) > u
    ensures !parsed ==> instances == []
    ensures parsed ==> instances == Instances(next, next(startDate), endDate)
  {
    instances := [];
    if !parsed {
      return;
    }
    var t := next(startDate);
    while t < endDate
      invariant instances + Instances(next, t, endDate) == Instances(next, next(startDate), endDate)
      decreases endDate - t
    {
      instances := instances + [t];
      t := next(t);
    }
  }

  /** Consequently every computed instant is after the start and before the end, in increasing order. */
  lemma InstancesBetween(next: Instant -> Instant, startDate: Instant, endDate: Instant)
    requires forall u :: next(u) > u
    ensures var r := Instances(next, next(startDate), endDate);
      (forall i :: 0 <= i < |r| ==> startDate < r[i] < endDate)
      && (forall i, j :: 0 <= i < j < |r| ==> r[i] < r[j])
  {
    var r := Instances(next, next(startDate), endDate);
    InstancesSpec(next, next(startDate), endDate);
    forall i, j | 0 <= i < j < |r| ensures r[i] < r[j] {
      Increasing(r, i, j);
    }
  }

  lemma {:induction false} Increasing(r: seq<Instant>, i: nat, j: nat)
    requires forall k :: 0 < k < |r| ==> r[k - 1] < r[k]
    requires i < j < |r|
    ensures r[i] < r[j]
    decreases j - i
  {
    if i + 1 < j { Increasing(r, i + 1, j); }
  }
}
