/**
 * The collection scheduler: a process-wide single service object holding an
 * interval scheduler with at most one job, `news_collection`, and the
 * callback that job runs. The scheduler library is modelled by its state
 * (running or not, and its jobs); its timers are not modelled, so the next
 * run time of a job is supplied by whoever schedules it.
 */
module SchedulerService {
  import opened Wrappers

  const JobId := "news_collection"

  /** An interval job: its period in minutes and the next time it fires. */
  datatype Job = Job(intervalMinutes: int, nextRunTime: string)

  /** An interval scheduler object: whether it is running, and its jobs by id. */
  datatype Scheduler = Scheduler(running: bool, jobs: map<string, Job>)

  const NewScheduler := Scheduler(false, map[])

  /** What a collection run reports instead of raising. */
  datatype RunOutcome = NoCallback | Completed | Failed(error: string)

  /** The outcome of running the callback `cb`, which either returns or raises with a message. */
  function Outcome(cb: Option<() -> Result<(), string>>): (r: RunOutcome)
    ensures cb.None? <==> r == NoCallback
    ensures cb.Some? && cb.value().Ok? ==> r == Completed
    ensures cb.Some? && cb.value().Err? ==> r == Failed(cb.value().error)
  {
    match cb
    case None => NoCallback
    case Some(f) =>
      match f()
      case Ok(_) => Completed
      case Err(e) => Failed(e)
  }

  class SchedulerService {
    var scheduler: Option<Scheduler>
    var callback: Option<() -> Result<(), string>>
    /** How many scheduler objects have been created so far. */
    var created: nat

    /** There is a scheduler; its only job is `news_collection`, which exists whenever it runs. */
    ghost predicate Valid()
      reads this
    {
      scheduler.Some? &&
      (forall id :: id in scheduler.value.jobs ==> id == JobId) &&
      (scheduler.value.running ==> JobId in scheduler.value.jobs)
    }

    /** The first construction: a fresh, stopped scheduler and no callback. */
    constructor()
      ensures Valid() && scheduler == Some(NewScheduler) && callback.None? && created == 1
    {
      scheduler := Some(NewScheduler);
      callback := None;
      created := 1;
    }

    /** `is_running` */
    function IsRunning(): (r: bool)
      reads this
      ensures r <==> scheduler.Some? && scheduler.value.running
    {
      scheduler.Some? && scheduler.value.running
    }

    /** `get_next_run`: nothing unless the scheduler runs, then the job's next fire time. */
    function GetNextRun(): (r: Option<string>)
      reads this
      ensures !IsRunning() ==> r.None?
      ensures IsRunning() && JobId in scheduler.value.jobs ==> r == Some(scheduler.value.jobs[JobId].nextRunTime)
    {
      if !IsRunning() then None
      else if JobId in scheduler.value.jobs then Some(scheduler.value.jobs[JobId].nextRunTime)
      else None
    }

    /** `set_collect_callback` */
    method SetCollectCallback(cb: () -> Result<(), string>)
      modifies this`callback
      ensures callback == Some(cb)
    {
      callback := Some(cb);
    }

    /**
     * `start`: a running scheduler is shut down and replaced by a new one; the
     * job is added (replacing an old one) and the scheduler started. When
     * starting raises (`startOk` false) the error is only logged.
     */
    method Start(intervalMinutes: int, nextRun: string, startOk: bool)
      requires Valid()
      modifies this`scheduler, this`created
      ensures Valid()
      ensures scheduler == Some(Scheduler(startOk, map[JobId := Job(intervalMinutes, nextRun)]))
      ensures created == if old(IsRunning()) then old(created) + 1 else old(created)
    {
      if scheduler.value.running {
        scheduler := Some(NewScheduler);
        created := created + 1;
      }
      var s := scheduler.value;
      assert s.jobs.Keys <= {JobId};
      var jobs := s.jobs[JobId := Job(intervalMinutes, nextRun)];
      assert jobs == map[JobId := Job(intervalMinutes, nextRun)];
      scheduler := Some(Scheduler(startOk, jobs));
    }

    /** `stop`: shuts a running scheduler down and keeps its job; otherwise nothing happens. */
    method Stop()
      requires Valid()
      modifies this`scheduler
      ensures Valid() && !IsRunning()
      ensures !old(IsRunning()) ==> scheduler == old(scheduler)
      ensures scheduler.value.jobs == old(scheduler.value.jobs)
    {
      if scheduler.Some? && scheduler.value.running {
        scheduler := Some(Scheduler(false, scheduler.value.jobs));
      }
    }

    /** `update_interval`: reschedules the job of a running scheduler; otherwise nothing happens. */
    method UpdateInterval(intervalMinutes: int, nextRun: string)
      requires Valid()
      modifies this`scheduler
      ensures Valid()
      ensures !old(IsRunning()) ==> scheduler == old(scheduler)
      ensures old(IsRunning()) ==>
                scheduler == Some(Scheduler(true, map[JobId := Job(intervalMinutes, nextRun)]))
    {
      if scheduler.Some? && scheduler.value.running {
        var jobs := scheduler.value.jobs[JobId := Job(intervalMinutes, nextRun)];
        assert jobs == map[JobId := Job(intervalMinutes, nextRun)];
        scheduler := Some(Scheduler(true, jobs));
      }
    }

    /** `_run_collection`: runs the callback if one is set; a failure is reported, never raised. */
    method RunCollection() returns (outcome: RunOutcome)
      ensures callback.None? ==> outcome == NoCallback
      ensures callback.Some? && callback.value().Ok? ==> outcome == Completed
      ensures callback.Some? && callback.value().Err? ==> outcome == Failed(callback.value().error)
    {
      if callback.None? {
        return NoCallback;
      }
      var f := callback.value;
      var answer := f();
      if answer.Ok? {
        outcome := Completed;
      } else {
        outcome := Failed(answer.error);
      }
    }

    /** `run_now`: the same as a scheduled run. */
    method RunNow() returns (outcome: RunOutcome)
      ensures outcome == Outcome(callback)
    {
      outcome := RunCollection();
    }
  }

  /** The class attribute `_instance`: where `SchedulerService()` keeps its one object. */
  class Registry {
    var instance: SchedulerService?

    constructor()
      ensures instance == null
    {
      instance := null;
    }

    /** `SchedulerService()`: the first call creates the object and its scheduler, later calls return it. */
    method Get() returns (s: SchedulerService)
      modifies this`instance
      ensures instance == s
      ensures old(instance) != null ==> s == old(instance)
      ensures old(instance) == null ==>
                fresh(s) && s.Valid() && s.scheduler == Some(NewScheduler) && s.callback.None?
    {
      if instance == null {
        instance := new SchedulerService();
      }
      s := instance;
    }

    /** Every construction yields the same object. */
    method GetTwice() returns (a: SchedulerService, b: SchedulerService)
      modifies this`instance
      ensures a == b && instance == a
    {
      a := Get();
      b := Get();
    }
  }

  /** Starting twice leaves one job, with the second interval, and a running scheduler. */
  method StartTwice(svc: SchedulerService, first: int, second: int, t1: string, t2: string)
    requires svc.Valid()
    modifies svc
    ensures svc.Valid() && svc.IsRunning()
    ensures svc.scheduler.value.jobs == map[JobId := Job(second, t2)]
    ensures svc.GetNextRun() == Some(t2)
  {
    svc.Start(first, t1, true);
    svc.Start(second, t2, true);
  }
}
