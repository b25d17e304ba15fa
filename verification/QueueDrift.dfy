/**
  The limits can really be exceeded: two short runs in which the counters drift, one by a
  duplicate effect and one by a reaped lease. Both exceed the limit by exactly the drift, so
  the bound in `ConcurrencyWithinDrift` cannot be lowered.
 */
module QueueDrift {
  import opened Common
  import opened QueueModel
  import opened QueueProofs
  import QueueGuarantees

  // ---------- running the scheduler by hand ----------

  lemma NothingExpires(cfg: Config, s: State)
    requires forall taskId :: taskId in s.leasedJobs ==> cfg.clock(s.clockReads) - s.leasedJobs[taskId] <= LEASE_TIMEOUT_MS
    ensures Reap(cfg, s) == s.(clockReads := s.clockReads + 1)
  {
    assert Expired(cfg, s) == {};
    assert s.leasedJobs - {} == s.leasedJobs;
  }

  /** One turn of the launch loop: the first queued job is started. */
  lemma LaunchFirst(cfg: Config, s: State)
    requires s.queue != [] && s.slots.inflight < cfg.maxConcurrent && UnderQuota(cfg, s, s.queue[0])
    ensures Launch(cfg, s) == Launch(cfg, StartJob(cfg, s.(queue := s.queue[1..]), s.queue[0]))
  {
    assert FindRunnableFrom(cfg, s, 0) == 0;
    assert Dequeue(s, 0) == s.(queue := s.queue[1..]);
  }

  lemma LaunchDone(cfg: Config, s: State)
    requires s.queue == [] || s.slots.inflight >= cfg.maxConcurrent
    ensures Launch(cfg, s) == s
  {
  }

  /** Starting a job whose effect is fresh, when that fills the only slot. */
  lemma FreshFillsSlot(cfg: Config, s: State, job: Job)
    requires cfg.maxConcurrent == 1 && s.slots.inflight == 0
    requires Effect(job) !in s.marks.completed
    ensures var r := StartJob(cfg, s, job);
            && Launch(cfg, r) == r
            && r.slots.inflight == 1
            && r.queue == s.queue
            && r.jobs == BeginRun(s.jobs, job)
            && r.marks == Mark(s.marks, Effect(job))
            && r.slots.byTenant == s.slots.byTenant[Tenant(job) := Count(s.slots.byTenant, Tenant(job)) + 1]
            && r.slots.skips == s.slots.skips && r.slots.reaps == s.slots.reaps
            && r.leasedJobs.Keys == s.leasedJobs.Keys + {job.taskId}
  {
    LaunchDone(cfg, StartJob(cfg, s, job));
  }

  /** A scheduler pass that finds the only slot free starts the first job if its effect is fresh. */
  lemma PassStartsFirst(cfg: Config, s: State)
    requires cfg.maxConcurrent == 1 && forall n :: cfg.clock(n) == 0
    requires s.slots.inflight == 0 && Count(s.slots.byTenant, "default") == 0
    requires DefaultQuota(cfg) >= 1 && s.quotas.current == map[]
    requires forall taskId :: taskId in s.leasedJobs ==> s.leasedJobs[taskId] == 0
    requires s.queue != [] && Effect(s.queue[0]) !in s.marks.completed && s.queue[0].tenantId == None
    ensures var r := MaybeRunJobs(cfg, s);
            && r.slots.inflight == 1 && Count(r.slots.byTenant, "default") == 1
            && r.queue == s.queue[1..]
            && r.jobs == BeginRun(s.jobs, s.queue[0])
            && r.marks == Mark(s.marks, Effect(s.queue[0]))
            && r.slots.skips == s.slots.skips && r.slots.reaps == s.slots.reaps
            && r.quotas == s.quotas
            && (forall taskId :: taskId in r.leasedJobs ==> r.leasedJobs[taskId] == 0)
  {
    var reaped := s.(clockReads := s.clockReads + 1);
    NothingExpires(cfg, s);
    LaunchFirst(cfg, reaped);
    FreshFillsSlot(cfg, reaped.(queue := s.queue[1..]), s.queue[0]);
  }

  ghost predicate OneSlotFree(cfg: Config, s: State) {
    && cfg.maxConcurrent == 1 && (forall n :: cfg.clock(n) == 0)
    && DefaultQuota(cfg) >= 1 && s.quotas.current == map[]
    && s.slots.inflight == 0 && Count(s.slots.byTenant, "default") == 0
    && (forall taskId :: taskId in s.leasedJobs ==> s.leasedJobs[taskId] == 0)
  }

  /** What the first of a duplicate's two finishes leaves. */
  function FinishedOnce(cfg: Config, s: State, job: Job): State {
    var a := Acquire(cfg, s, job);
    Release(a.(jobs := EndJob(a.jobs, job.id, SkippedDuplicate)), Tenant(job), job.taskId)
  }

  function FinishedTwice(first: State, job: Job): State {
    Release(first.(slots := CountSkip(first.slots, Tenant(job))), Tenant(job), job.taskId)
  }

  lemma DuplicateIsTwoPasses(cfg: Config, s: State, job: Job)
    requires Effect(job) in s.marks.completed
    ensures StartJob(cfg, s, job) ==
            MaybeRunJobs(cfg, FinishedTwice(MaybeRunJobs(cfg, FinishedOnce(cfg, s, job)), job))
  {
    hide MaybeRunJobs;
  }

  /** Starting a duplicate while the only slot is free starts the two jobs behind it. */
  lemma DuplicateStartsTwo(cfg: Config, s: State, job: Job)
    requires OneSlotFree(cfg, s)
    requires job.tenantId == None && Effect(job) in s.marks.completed
    requires |s.queue| == 2 && s.queue[0].tenantId == None && s.queue[1].tenantId == None
    requires Effect(s.queue[0]) !in s.marks.completed && Effect(s.queue[1]) !in s.marks.completed
    requires Effect(s.queue[0]) != Effect(s.queue[1])
    ensures var r := StartJob(cfg, s, job);
            && r.queue == []
            && r.jobs == BeginRun(BeginRun(EndJob(s.jobs, job.id, SkippedDuplicate), s.queue[0]), s.queue[1])
            && r.slots.inflight == 1 && r.slots.skips == s.slots.skips + 1 && r.slots.reaps == s.slots.reaps && r.quotas == s.quotas
  {
    hide MaybeRunJobs, StartJob;
    DuplicateIsTwoPasses(cfg, s, job);
    var once := FinishedOnce(cfg, s, job);
    PassStartsFirst(cfg, once);
    var first := MaybeRunJobs(cfg, once);
    PassStartsFirst(cfg, FinishedTwice(first, job));
  }

  /** A pass that finds the only slot free and a duplicate in front starts the two jobs behind it. */
  lemma PassOverDuplicate(cfg: Config, s: State)
    requires OneSlotFree(cfg, s)
    requires |s.queue| == 3 && forall i :: 0 <= i < 3 ==> s.queue[i].tenantId == None
    requires Effect(s.queue[0]) in s.marks.completed
    requires Effect(s.queue[1]) !in s.marks.completed && Effect(s.queue[2]) !in s.marks.completed
    requires Effect(s.queue[1]) != Effect(s.queue[2])
    ensures var r := MaybeRunJobs(cfg, s);
            var ended := EndJob(s.jobs, s.queue[0].id, SkippedDuplicate);
            && r.jobs == BeginRun(BeginRun(ended, s.queue[1]), s.queue[2])
            && r.slots.inflight == 1 && r.slots.skips == s.slots.skips + 1 && r.slots.reaps == s.slots.reaps && r.quotas == s.quotas
  {
    hide StartJob;
    var reaped := s.(clockReads := s.clockReads + 1);
    NothingExpires(cfg, s);
    LaunchFirst(cfg, reaped);
    DuplicateStartsTwo(cfg, reaped.(queue := s.queue[1..]), s.queue[0]);
    LaunchDone(cfg, StartJob(cfg, reaped.(queue := s.queue[1..]), s.queue[0]));
  }

  const ONE_AT_A_TIME := Config(1, 1, Some(1), 4, (n: nat) => 0)

  function Demo(id: nat, taskId: string, effect: string): Job {
    Job(id, taskId, None, 1, Some(effect))
  }

  const FOUR_JOBS := [
    Enqueue("a", None, Some("x")),
    Enqueue("b", None, Some("x")),
    Enqueue("c", None, Some("y")),
    Enqueue("d", None, Some("z"))
  ]

  function FourQueued(): State {
    Init().(queue := [Demo(0, "a", "x"), Demo(1, "b", "x"), Demo(2, "c", "y"), Demo(3, "d", "z")],
            processing := true, microtasks := 1, jobs := Init().jobs.(nextId := 4))
  }

  lemma EnqueueFour()
    ensures Takes(ONE_AT_A_TIME, Init(), FOUR_JOBS)
    ensures After(ONE_AT_A_TIME, Init(), FOUR_JOBS) == FourQueued()
  {
    var s1 := Step(ONE_AT_A_TIME, Init(), FOUR_JOBS[0]);
    var s2 := Step(ONE_AT_A_TIME, s1, FOUR_JOBS[1]);
    var s3 := Step(ONE_AT_A_TIME, s2, FOUR_JOBS[2]);
    var s4 := Step(ONE_AT_A_TIME, s3, FOUR_JOBS[3]);
    assert s4 == FourQueued();
    AfterOne(ONE_AT_A_TIME, s3, FOUR_JOBS[3..]);
    AfterOne(ONE_AT_A_TIME, s2, FOUR_JOBS[2..]);
    AfterOne(ONE_AT_A_TIME, s1, FOUR_JOBS[1..]);
    AfterOne(ONE_AT_A_TIME, Init(), FOUR_JOBS);
  }

  lemma AfterOne(cfg: Config, s: State, acts: seq<Action>)
    requires acts != [] && Enabled(s, acts[0]) && Takes(cfg, Step(cfg, s, acts[0]), acts[1..])
    ensures Takes(cfg, s, acts)
    ensures After(cfg, s, acts) == After(cfg, Step(cfg, s, acts[0]), acts[1..])
  {
  }

  lemma {:induction false} AfterMore(cfg: Config, s: State, acts: seq<Action>, more: seq<Action>)
    requires Takes(cfg, s, acts) && Takes(cfg, After(cfg, s, acts), more)
    ensures Takes(cfg, s, acts + more)
    ensures After(cfg, s, acts + more) == After(cfg, After(cfg, s, acts), more)
    decreases |acts|
  {
    if acts == [] {
      assert acts + more == more;
    } else {
      assert (acts + more)[1..] == acts[1..] + more;
      AfterMore(cfg, Step(cfg, s, acts[0]), acts[1..], more);
    }
  }

  /** The first pass starts "a"; "b", with the same effect, stays queued behind it. */
  lemma FirstEffectStarts()
    ensures var r := MaybeRunJobs(ONE_AT_A_TIME, FourQueued().(microtasks := 0));
            && r.queue == FourQueued().queue[1..]
            && r.jobs.running == map[0 := Demo(0, "a", "x")]
            && r.marks == Marks({"x"}, [])
            && r.slots.inflight == 1 && Count(r.slots.byTenant, "default") == 1
            && r.slots.skips == 0 && r.slots.reaps == 0 && r.quotas == Init().quotas
            && (forall taskId :: taskId in r.leasedJobs ==> r.leasedJobs[taskId] == 0)
  {
    hide MaybeRunJobs;
    PassStartsFirst(ONE_AT_A_TIME, FourQueued().(microtasks := 0));
  }

  /** When "a" ends, "b" is skipped and finished twice, and "c" and "d" both start. */
  lemma DuplicateStartsBoth(s: State)
    requires s.queue == FourQueued().queue[1..]
    requires s.jobs.running == map[0 := Demo(0, "a", "x")]
    requires s.marks == Marks({"x"}, [])
    requires s.slots.inflight == 1 && Count(s.slots.byTenant, "default") == 1
    requires s.slots.skips == 0 && s.slots.reaps == 0 && s.quotas == Init().quotas
    requires forall taskId :: taskId in s.leasedJobs ==> s.leasedJobs[taskId] == 0
    ensures var r := DoSucceed(ONE_AT_A_TIME, s, Demo(0, "a", "x"));
            && r.jobs.running == map[2 := Demo(2, "c", "y"), 3 := Demo(3, "d", "z")]
            && r.slots.skips == 1 && r.slots.reaps == 0 && r.quotas == Init().quotas
  {
    hide MaybeRunJobs;
    var job := Demo(0, "a", "x");
    var done := s.(jobs := EndJob(s.jobs, 0, Completed), marks := s.marks.(succeeded := s.marks.succeeded + ["x"]));
    var ended := Release(done, Tenant(job), job.taskId);
    PassOverDuplicate(ONE_AT_A_TIME, ended);
    assert MaybeRunJobs(ONE_AT_A_TIME, ended).jobs.running == map[2 := Demo(2, "c", "y"), 3 := Demo(3, "d", "z")];
  }

  /**
    With a limit of one, for all and for each tenant, two runs overlap: "a" and "b" carry the same effect; when "a" ends,
    "b" is skipped and finished twice, and the slot it gave back too often starts a second run.
   */
  lemma DuplicateEffectBreaksTheLimit()
    ensures var acts := FOUR_JOBS + [MicrotaskFires, RunSucceeds(0)];
            && Takes(ONE_AT_A_TIME, Init(), acts)
            && var s := After(ONE_AT_A_TIME, Init(), acts);
            && s.slots.skips == 1 && s.slots.reaps == 0
            && |s.jobs.running| == 2 == ONE_AT_A_TIME.maxConcurrent + s.slots.lost
            && |RunningOf(s.jobs.running, "default")| == 2
            && 2 == QuotaOf(ONE_AT_A_TIME, s.quotas.current, "default") + Count(s.slots.lostByTenant, "default")
  {
    hide MaybeRunJobs, DoSucceed;
    var cfg := ONE_AT_A_TIME;
    EnqueueFour();
    FirstEffectStarts();
    var s5 := MaybeRunJobs(cfg, FourQueued().(microtasks := 0));
    DuplicateStartsBoth(s5);
    AfterOne(cfg, s5, [RunSucceeds(0)]);
    AfterOne(cfg, FourQueued(), [MicrotaskFires, RunSucceeds(0)]);
    AfterMore(cfg, Init(), FOUR_JOBS, [MicrotaskFires, RunSucceeds(0)]);
    var s6 := DoSucceed(cfg, s5, s5.jobs.running[0]);
    assert After(cfg, Init(), FOUR_JOBS + [MicrotaskFires, RunSucceeds(0)]) == s6;
    assert RunningOf(s6.jobs.running, "default") == {2, 3};
    QueueGuarantees.ConcurrencyWithinDrift(cfg, FOUR_JOBS + [MicrotaskFires, RunSucceeds(0)], "default");
  }

  // ---------- a reaped lease ----------

  lemma FreshStart(cfg: Config, s: State, job: Job)
    requires Effect(job) !in s.marks.completed
    ensures var a := Acquire(cfg, s, job);
            StartJob(cfg, s, job) == a.(marks := Mark(a.marks, Effect(job)), jobs := BeginRun(a.jobs, job))
  {
  }

  /** With two slots free, the launch loop starts the first two jobs. */
  lemma LaunchStartsTwo(cfg: Config, s: State)
    requires cfg.maxConcurrent == 2 && s.slots.inflight == 0
    requires cfg.maxConcurrentPerTenant == None && s.quotas.current == map[]
    requires Count(s.slots.byTenant, "default") <= 1
    requires |s.queue| >= 2 && s.queue[0].tenantId == None && s.queue[1].tenantId == None
    requires Effect(s.queue[0]) !in s.marks.completed && Effect(s.queue[1]) !in s.marks.completed
    requires Effect(s.queue[0]) != Effect(s.queue[1])
    ensures var r := Launch(cfg, s);
            && r.queue == s.queue[2..]
            && r.jobs == BeginRun(BeginRun(s.jobs, s.queue[0]), s.queue[1])
            && r.marks == Mark(Mark(s.marks, Effect(s.queue[0])), Effect(s.queue[1]))
            && r.slots.inflight == 2 && Count(r.slots.byTenant, "default") == Count(s.slots.byTenant, "default") + 2
            && r.slots.skips == s.slots.skips && r.slots.reaps == s.slots.reaps
            && r.quotas == s.quotas
            && r.clockReads == s.clockReads + 2
            && r.leasedJobs == s.leasedJobs[s.queue[0].taskId := cfg.clock(s.clockReads)]
                                           [s.queue[1].taskId := cfg.clock(s.clockReads + 1)]
  {
    hide StartJob, Launch;
    LaunchFirst(cfg, s);
    FreshStart(cfg, s.(queue := s.queue[1..]), s.queue[0]);
    var one := StartJob(cfg, s.(queue := s.queue[1..]), s.queue[0]);
    LaunchFirst(cfg, one);
    FreshStart(cfg, one.(queue := one.queue[1..]), one.queue[0]);
    LaunchDone(cfg, StartJob(cfg, one.(queue := one.queue[1..]), one.queue[0]));
  }

  const TWO_AT_A_TIME := Config(1, 2, None, 4, (n: nat) => if n < 3 then 0 else 40000)

  const FOUR_TASKS := [
    Enqueue("a", None, None),
    Enqueue("b", None, None),
    Enqueue("c", None, None),
    Enqueue("d", None, None)
  ]

  function Plain(id: nat, taskId: string): Job {
    Job(id, taskId, None, 1, None)
  }

  function FourTasksQueued(): State {
    Init().(queue := [Plain(0, "a"), Plain(1, "b"), Plain(2, "c"), Plain(3, "d")],
            processing := true, microtasks := 1, jobs := Init().jobs.(nextId := 4))
  }

  lemma EnqueueFourTasks()
    ensures Takes(TWO_AT_A_TIME, Init(), FOUR_TASKS)
    ensures After(TWO_AT_A_TIME, Init(), FOUR_TASKS) == FourTasksQueued()
  {
    var s1 := Step(TWO_AT_A_TIME, Init(), FOUR_TASKS[0]);
    var s2 := Step(TWO_AT_A_TIME, s1, FOUR_TASKS[1]);
    var s3 := Step(TWO_AT_A_TIME, s2, FOUR_TASKS[2]);
    var s4 := Step(TWO_AT_A_TIME, s3, FOUR_TASKS[3]);
    assert s4 == FourTasksQueued();
    AfterOne(TWO_AT_A_TIME, s3, FOUR_TASKS[3..]);
    AfterOne(TWO_AT_A_TIME, s2, FOUR_TASKS[2..]);
    AfterOne(TWO_AT_A_TIME, s1, FOUR_TASKS[1..]);
    AfterOne(TWO_AT_A_TIME, Init(), FOUR_TASKS);
  }

  lemma EffectsDiffer()
    ensures Effect(Plain(0, "a")) == "effect:a" && Effect(Plain(1, "b")) == "effect:b"
    ensures Effect(Plain(2, "c")) == "effect:c" && Effect(Plain(3, "d")) == "effect:d"
    ensures "effect:a" != "effect:b" && "effect:c" != "effect:d"
    ensures "effect:c" !in {"effect:a", "effect:b"} && "effect:d" !in {"effect:a", "effect:b"}
  {
    assert "effect:a"[7] == 'a' && "effect:b"[7] == 'b' && "effect:c"[7] == 'c' && "effect:d"[7] == 'd';
  }

  /** The first pass, at time 0, starts "a" and "b". */
  lemma FirstPass()
    ensures var r := MaybeRunJobs(TWO_AT_A_TIME, FourTasksQueued().(microtasks := 0));
            && r.queue == [Plain(2, "c"), Plain(3, "d")]
            && r.jobs.running == map[0 := Plain(0, "a"), 1 := Plain(1, "b")]
            && r.marks == Marks({"effect:a", "effect:b"}, [])
            && r.slots.inflight == 2 && Count(r.slots.byTenant, "default") == 2
            && r.slots.skips == 0 && r.slots.reaps == 0 && r.quotas == Init().quotas
            && r.clockReads == 3
            && r.leasedJobs == map["a" := 0, "b" := 0]
  {
    var due := FourTasksQueued().(microtasks := 0);
    NothingExpires(TWO_AT_A_TIME, due);
    EffectsDiffer();
    LaunchStartsTwo(TWO_AT_A_TIME, due.(clockReads := 1));
  }

  /** At time 40000 "b" still runs but its lease has expired, so both slots look free. */
  lemma SecondPass(s: State)
    requires s.queue == [Plain(2, "c"), Plain(3, "d")]
    requires s.jobs.running == map[1 := Plain(1, "b")]
    requires s.marks.completed == {"effect:a", "effect:b"}
    requires s.slots.inflight == 1 && Count(s.slots.byTenant, "default") == 1
    requires s.slots.skips == 0 && s.slots.reaps == 0 && s.quotas == Init().quotas
    requires s.clockReads == 3 && s.leasedJobs == map["b" := 0]
    ensures var r := MaybeRunJobs(TWO_AT_A_TIME, s);
            && r.jobs.running == map[1 := Plain(1, "b"), 2 := Plain(2, "c"), 3 := Plain(3, "d")]
            && r.slots.inflight == 2 && r.slots.skips == 0 && r.slots.reaps == 1
  {
    assert Expired(TWO_AT_A_TIME, s) == {"b"};
    EffectsDiffer();
    LaunchStartsTwo(TWO_AT_A_TIME, Reap(TWO_AT_A_TIME, s));
  }

  lemma EndOfFirstTask(s: State)
    requires s.queue == [Plain(2, "c"), Plain(3, "d")]
    requires s.jobs.running == map[0 := Plain(0, "a"), 1 := Plain(1, "b")]
    requires s.marks == Marks({"effect:a", "effect:b"}, [])
    requires s.slots.inflight == 2 && Count(s.slots.byTenant, "default") == 2
    requires s.slots.skips == 0 && s.slots.reaps == 0 && s.quotas == Init().quotas
    requires s.clockReads == 3 && s.leasedJobs == map["a" := 0, "b" := 0]
    ensures var r := DoSucceed(TWO_AT_A_TIME, s, Plain(0, "a"));
            |r.jobs.running| == 3 && r.slots.skips == 0 && r.slots.reaps == 1
  {
    hide MaybeRunJobs;
    var done := s.(jobs := EndJob(s.jobs, 0, Completed),
                   marks := s.marks.(succeeded := s.marks.succeeded + [Effect(Plain(0, "a"))]));
    SecondPass(Release(done, Tenant(Plain(0, "a")), "a"));
  }

  /** With a limit of two, three runs overlap once a long run's lease has been reaped. */
  lemma ReapedLeaseBreaksTheLimit()
    ensures var acts := FOUR_TASKS + [MicrotaskFires, RunSucceeds(0)];
            && Takes(TWO_AT_A_TIME, Init(), acts)
            && var s := After(TWO_AT_A_TIME, Init(), acts);
            && s.slots.skips == 0 && s.slots.reaps == 1
            && |s.jobs.running| == 3 == TWO_AT_A_TIME.maxConcurrent + s.slots.lost
  {
    hide MaybeRunJobs, DoSucceed;
    var cfg := TWO_AT_A_TIME;
    EnqueueFourTasks();
    FirstPass();
    var s5 := MaybeRunJobs(cfg, FourTasksQueued().(microtasks := 0));
    EndOfFirstTask(s5);
    AfterOne(cfg, s5, [RunSucceeds(0)]);
    AfterOne(cfg, FourTasksQueued(), [MicrotaskFires, RunSucceeds(0)]);
    AfterMore(cfg, Init(), FOUR_TASKS, [MicrotaskFires, RunSucceeds(0)]);
    QueueGuarantees.ConcurrencyWithinDrift(cfg, FOUR_TASKS + [MicrotaskFires, RunSucceeds(0)], "default");
  }
}
