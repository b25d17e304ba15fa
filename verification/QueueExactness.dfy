/**
  Exactly when the queue's counters tell the truth.

  A counter goes wrong at the moment a reaped lease, or the second finish of a skipped job,
  lowers it while it is above zero. What follows shows that this is the only way, for the global
  counter and for each tenant's.
 */
module QueueExactness {
  import opened Common
  import opened QueueModel
  import opened QueueProofs
  import opened QueueInvariant

  /** The global counter for None, a tenant's for Some. */
  function Counted(s: State, who: Option<string>): nat {
    if who.None? then s.slots.inflight else Count(s.slots.byTenant, who.value)
  }

  ghost function ReallyRunning(s: State, who: Option<string>): nat {
    if who.None? then |s.jobs.running| else |RunningOf(s.jobs.running, who.value)|
  }

  /** How often the counter has fallen without a run ending. */
  function Lost(s: State, who: Option<string>): nat {
    if who.None? then s.slots.lost else Count(s.slots.lostByTenant, who.value)
  }

  ghost predicate Exact(s: State, who: Option<string>) {
    Counted(s, who) == ReallyRunning(s, who)
  }

  ghost predicate ExactThroughout(cfg: Config, s: State, acts: seq<Action>, who: Option<string>)
    requires Takes(cfg, s, acts)
    decreases |acts|
  {
    Exact(s, who) && (acts == [] || ExactThroughout(cfg, Step(cfg, s, acts[0]), acts[1..], who))
  }

  // ---------- what the scheduler does to the balance ----------

  ghost function Balance(s: State, who: Option<string>): int {
    ReallyRunning(s, who) - Counted(s, who) - Lost(s, who)
  }

  lemma StartKeepsBalance(cfg: Config, s: State, index: nat, who: Option<string>)
    requires Core(cfg, s) && Allowed(cfg, s, StartFresh(index))
    ensures var r := ApplyStart(cfg, s, index); Balance(r, who) == Balance(s, who) && Lost(r, who) == Lost(s, who)
  {
    hide Counters, EffectsOnce, Attempts;
    var job := s.queue[index];
    NotRunning(s.queue, s.jobs, index);
    if who.None? {
      AddTo(s.jobs.running, job.id, job);
    } else {
      RunningWith(s.jobs.running, job, who.value);
    }
  }

  lemma SkipKeepsBalance(cfg: Config, s: State, index: nat, who: Option<string>)
    requires Core(cfg, s) && index < |s.queue|
    ensures var r := ApplySkip(cfg, s, index); Balance(r, who) == Balance(s, who) && Lost(r, who) == Lost(s, who)
  {
    hide Core;
    DequeuedIsNotRunning(cfg, s, index);
    TakenAndFreed(s.slots, Tenant(s.queue[index]), who);
  }

  lemma DequeuedIsNotRunning(cfg: Config, s: State, index: nat)
    requires Core(cfg, s) && index < |s.queue|
    ensures EndJob(s.jobs, s.queue[index].id, SkippedDuplicate).running == s.jobs.running
  {
    hide Counters, EffectsOnce, Attempts, Ledger;
    SkipKeepsRunning(s.queue, s.jobs, index);
  }

  lemma TakenAndFreed(c: Slots, tenant: string, who: Option<string>)
    ensures var r := FreeSlot(TakeSlot(c, tenant), tenant);
            && r.inflight == c.inflight && r.lost == c.lost && r.lostByTenant == c.lostByTenant
            && (who.Some? ==> Count(r.byTenant, who.value) == Count(c.byTenant, who.value))
  {
  }

  lemma SecondFinishKeepsBalance(s: State, tenant: string, taskId: string, who: Option<string>)
    ensures var r := Release(s.(slots := CountSkip(s.slots, tenant)), tenant, taskId);
            Balance(r, who) == Balance(s, who) && Lost(r, who) >= Lost(s, who)
  {
  }

  lemma MoveKeepsBalance(cfg: Config, s: State, m: Move, who: Option<string>)
    requires Core(cfg, s) && Allowed(cfg, s, m)
    ensures Balance(Apply(cfg, s, m), who) == Balance(s, who) && Lost(Apply(cfg, s, m), who) >= Lost(s, who)
  {
    hide Core, ApplyStart, ApplySkip, Release;
    match m
    case ReapLeases =>
    case SettleFlag =>
    case StartFresh(index) => StartKeepsBalance(cfg, s, index, who);
    case SkipDuplicate(index) => SkipKeepsBalance(cfg, s, index, who);
    case FinishTwice(tenant, taskId) => SecondFinishKeepsBalance(s, tenant, taskId, who);
  }

  lemma PassKeepsBalance(cfg: Config, s: State, who: Option<string>)
    requires Core(cfg, s)
    ensures var r := MaybeRunJobs(cfg, s); Balance(r, who) == Balance(s, who) && Lost(r, who) >= Lost(s, who)
  {
    hide Core, Balance, Lost;
    var p := (t: State) => Core(cfg, t) && Balance(t, who) == Balance(s, who) && Lost(t, who) >= Lost(s, who);
    forall t, m | p(t) && Allowed(cfg, t, m) ensures p(Apply(cfg, t, m)) {
      CoreKeptByMove(cfg, t, m);
      MoveKeepsBalance(cfg, t, m, who);
    }
    SchedulerKeeps(cfg, p, s);
  }

  // ---------- steps ----------

  /** Taking a run out of the running jobs and giving its slot back. */
  lemma ReleaseKeepsBalance(s: State, id: nat, jobs: Jobs, marks: Marks, who: Option<string>)
    requires id in s.jobs.running && jobs.running == s.jobs.running - {id}
    ensures var job := s.jobs.running[id];
            var r := Release(s.(jobs := jobs, marks := marks), Tenant(job), job.taskId);
            Lost(r, who) == Lost(s, who) && (Exact(s, who) ==> Balance(r, who) == Balance(s, who))
  {
    RemoveFrom(s.jobs.running, id);
    if who.Some? {
      RunningWithout(s.jobs.running, id, who.value);
      var job := s.jobs.running[id];
      if who.value == Tenant(job) {
        assert id in RunningOf(s.jobs.running, who.value);
      }
    }
  }

  lemma EndKeepsBalance(cfg: Config, s: State, id: nat, outcome: Outcome, who: Option<string>)
    requires Core(cfg, s) && id in s.jobs.running
    ensures var job := s.jobs.running[id];
            var r := FinishJob(cfg, s.(jobs := EndJob(s.jobs, id, outcome), marks := MarksAfter(s.marks, job, outcome)),
                               Tenant(job), job.taskId);
            Lost(r, who) >= Lost(s, who) && (Exact(s, who) ==> Balance(r, who) == Balance(s, who))
  {
    hide Core, MaybeRunJobs, Balance, Exact, Lost;
    var job := s.jobs.running[id];
    var jobs, marks := EndJob(s.jobs, id, outcome), MarksAfter(s.marks, job, outcome);
    EndKeepsCore(cfg, s, id, outcome);
    ReleaseKeepsBalance(s, id, jobs, marks, who);
    PassKeepsBalance(cfg, Release(s.(jobs := jobs, marks := marks), Tenant(job), job.taskId), who);
  }

  lemma RetryKeepsBalance(cfg: Config, s: State, id: nat, who: Option<string>)
    requires Core(cfg, s) && id in s.jobs.running && s.jobs.running[id].attempt < cfg.maxAttempts
    ensures var r := DoThrow(cfg, s, s.jobs.running[id]);
            Lost(r, who) >= Lost(s, who) && (Exact(s, who) ==> Balance(r, who) == Balance(s, who))
  {
    hide Core, MaybeRunJobs, Balance, Exact, Lost;
    var job := s.jobs.running[id];
    NotWaiting(cfg, s, id);
    RetryKeepsCore(cfg, s, id);
    ReleaseKeepsBalance(s, id, AwaitRetry(s.jobs, job), Unmark(s.marks, Effect(job)), who);
    PassKeepsBalance(cfg, ClearedForRetry(s, job), who);
    QuietKeepsBalance(MaybeRunJobs(cfg, ClearedForRetry(s, job)), DoThrow(cfg, s, job), who);
  }

  lemma QuietKeepsBalance(s: State, r: State, who: Option<string>)
    requires r.slots == s.slots && r.jobs.running == s.jobs.running
    ensures Lost(r, who) == Lost(s, who) && Balance(r, who) == Balance(s, who)
  {
  }

  lemma StepKeepsBalance(cfg: Config, s: State, a: Action, who: Option<string>)
    requires Inv(cfg, s) && Enabled(s, a)
    ensures var r := Step(cfg, s, a);
            Lost(r, who) >= Lost(s, who) && (Exact(s, who) ==> Balance(r, who) == Balance(s, who))
  {
    hide Core, MaybeRunJobs, Balance, Exact, Lost, Awake, Retries;
    match a
    case MicrotaskFires =>
      var due := s.(microtasks := s.microtasks - 1);
      DueKeepsCore(cfg, s, due);
      QuietKeepsBalance(s, due, who);
      PassKeepsBalance(cfg, due, who);
    case RunSucceeds(id) =>
      NotWaiting(cfg, s, id);
      EndKeepsBalance(cfg, s, id, Completed, who);
    case RunThrows(id) =>
      NotWaiting(cfg, s, id);
      if s.jobs.running[id].attempt < cfg.maxAttempts {
        RetryKeepsBalance(cfg, s, id, who);
      } else {
        EndKeepsBalance(cfg, s, id, DeadLettered, who);
      }
    case TimerFires(id) =>
      EndWaitOnly(cfg, s, id);
      assert s.jobs.running - {id} == s.jobs.running;
      QuietKeepsBalance(s, Step(cfg, s, a), who);
    case _ => QuietKeepsBalance(s, Step(cfg, s, a), who);
  }

  lemma DueKeepsCore(cfg: Config, s: State, due: State)
    requires Core(cfg, s) && due == s.(microtasks := due.microtasks)
    ensures Core(cfg, due)
  {
  }

  lemma {:induction false} LostOnlyGrows(cfg: Config, s: State, acts: seq<Action>, who: Option<string>)
    requires ValidConfig(cfg) && Inv(cfg, s) && Takes(cfg, s, acts)
    ensures Lost(After(cfg, s, acts), who) >= Lost(s, who)
    decreases |acts|
  {
    hide Inv, Lost;
    if acts != [] {
      StepKeepsInv(cfg, s, acts[0]);
      StepKeepsBalance(cfg, s, acts[0], who);
      LostOnlyGrows(cfg, Step(cfg, s, acts[0]), acts[1..], who);
    }
  }

  lemma {:induction false} ExactFromHereIff(cfg: Config, s: State, acts: seq<Action>, who: Option<string>)
    requires ValidConfig(cfg) && Inv(cfg, s) && Takes(cfg, s, acts) && Exact(s, who)
    ensures ExactThroughout(cfg, s, acts, who) <==> Lost(After(cfg, s, acts), who) == Lost(s, who)
    decreases |acts|
  {
    hide Inv, Lost, Counted, ReallyRunning, Step;
    if acts != [] {
      var next := Step(cfg, s, acts[0]);
      StepKeepsInv(cfg, s, acts[0]);
      StepKeepsBalance(cfg, s, acts[0], who);
      LostOnlyGrows(cfg, next, acts[1..], who);
      if Exact(next, who) {
        ExactFromHereIff(cfg, next, acts[1..], who);
      }
    }
  }

  /**
    In every state of a run the global counter is the number of running jobs, exactly when no
    lease was reaped and no job finished a second time while that counter was above zero. A
    tenant's counter likewise, exactly when none of its jobs finished a second time while the
    tenant's counter was above zero.
   */
  lemma CountersExactIff(cfg: Config, acts: seq<Action>, who: Option<string>)
    requires ValidConfig(cfg) && Takes(cfg, Init(), acts)
    ensures ExactThroughout(cfg, Init(), acts, who) <==> Lost(After(cfg, Init(), acts), who) == 0
  {
    InitInv(cfg);
    assert who.Some? ==> RunningOf(map[], who.value) == {};
    ExactFromHereIff(cfg, Init(), acts, who);
  }
}
