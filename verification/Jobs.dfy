/** The controller of long-running Bash jobs (`scripts/claude-workflow-job-controller.js`).

Times are integers, `None` when a timestamp cannot be read. Jobs are values.
*/
module Jobs {
  import opened Counting
  import opened Options

  datatype Status = Running | Completed | TimedOut | Cancelled

  datatype Job = Job(
    id: string,
    command: string,
    startedAt: Option<int>,
    lastHeartbeatAt: Option<int>,
    lastOutput: Option<string>,
    status: Status,
    elapsed: int)

  datatype Notice = Started(job: Job) | Heartbeat(job: Job) | Ended(job: Job)

  /** A normalized observer event; a missing field is `None`. */
  datatype Event = Event(
    name: string,
    toolName: Option<string>,
    toolUseId: Option<string>,
    command: string,
    observedAt: Option<int>,
    lastOutput: Option<string>)

  datatype Config = Config(timeout: int, heartbeatInterval: int)

  /** `active` is the insertion-ordered map of active jobs. */
  datatype State = State(active: seq<Job>, completed: seq<Job>, emitted: seq<Notice>)

  const EMPTY := State([], [], [])
  const MAX_LAST_OUTPUT := 500

  function Truncate(text: Option<string>): Option<string> {
    match text
    case None => None
    case Some(t) => Some(if |t| <= MAX_LAST_OUTPUT then t else t[|t| - MAX_LAST_OUTPUT..])
  }

  /** The id of a Bash tool event, if it is one. */
  function BashId(e: Event): Option<string> {
    if e.toolName == Some("Bash") && e.toolUseId.Some? && e.toolUseId.value != "" then e.toolUseId else None
  }

  predicate Has(jobs: seq<Job>, id: string) {
    exists j | j in jobs :: j.id == id
  }

  function Find(jobs: seq<Job>, id: string): (k: nat)
    requires Has(jobs, id)
    ensures k < |jobs| && jobs[k].id == id
  {
    if jobs[0].id == id then 0
    else
      assert Has(jobs[1..], id);
      1 + Find(jobs[1..], id)
  }

  /** `_active.delete(id)`. */
  function Without(jobs: seq<Job>, id: string): seq<Job> {
    if jobs == [] then []
    else Without(jobs[..|jobs| - 1], id) + if jobs[|jobs| - 1].id == id then [] else [jobs[|jobs| - 1]]
  }

  /** Moves a job that ends from `active` to `completed` and announces it. */
  function End(s: State, job: Job): State {
    State(Without(s.active, job.id), s.completed + [job], s.emitted + [Ended(job)])
  }

  function Elapsed(job: Job, now: Option<int>): int {
    if job.startedAt.Some? && now.Some? then now.value - job.startedAt.value else 0
  }

  function OnStarted(s: State, e: Event, id: string): State {
    if Has(s.active, id) then s
    else
      var job := Job(id, e.command, e.observedAt, e.observedAt, None, Running, 0);
      State(s.active + [job], s.completed, s.emitted + [Started(job)])
  }

  function OnFinished(s: State, e: Event, id: string): State {
    if !Has(s.active, id) then s
    else
      var job := s.active[Find(s.active, id)];
      End(s, job.(status := Completed, elapsed := Elapsed(job, e.observedAt), lastOutput := Truncate(e.lastOutput)))
  }

  function Handle(s: State, e: Event): State {
    var id := BashId(e);
    if id.None? then s
    else if e.name == "tool_started" then OnStarted(s, e, id.value)
    else if e.name == "tool_finished" then OnFinished(s, e, id.value)
    else s
  }

  predicate Expired(cfg: Config, job: Job, now: int) {
    job.startedAt.Some? && now - job.startedAt.value >= cfg.timeout
  }

  function TimeOut(job: Job, now: int): Job { job.(status := TimedOut, elapsed := Elapsed(job, Some(now))) }

  /** The jobs among the first `n` that are past the limit, as they end. */
  function Expiring(cfg: Config, jobs: seq<Job>, now: int): seq<Job> {
    if jobs == [] then []
    else
      var j := jobs[|jobs| - 1];
      Expiring(cfg, jobs[..|jobs| - 1], now) + if Expired(cfg, j, now) then [TimeOut(j, now)] else []
  }

  function Surviving(cfg: Config, jobs: seq<Job>, now: int): seq<Job> {
    if jobs == [] then []
    else
      var j := jobs[|jobs| - 1];
      Surviving(cfg, jobs[..|jobs| - 1], now) + if Expired(cfg, j, now) then [] else [j]
  }

  function EndedNotices(jobs: seq<Job>): seq<Notice> {
    seq(|jobs|, k requires 0 <= k < |jobs| => Ended(jobs[k]))
  }

  function CheckTimeouts(s: State, cfg: Config, now: int): State {
    var gone := Expiring(cfg, s.active, now);
    State(Surviving(cfg, s.active, now), s.completed + gone, s.emitted + EndedNotices(gone))
  }

  predicate Due(cfg: Config, job: Job, now: int) {
    job.lastHeartbeatAt.Some? && now - job.lastHeartbeatAt.value >= cfg.heartbeatInterval
  }

  function Beat(job: Job, now: int): Job { job.(lastHeartbeatAt := Some(now), elapsed := Elapsed(job, Some(now))) }

  function Beaten(cfg: Config, jobs: seq<Job>, now: int): seq<Job> {
    seq(|jobs|, k requires 0 <= k < |jobs| => if Due(cfg, jobs[k], now) then Beat(jobs[k], now) else jobs[k])
  }

  function BeatNotices(cfg: Config, jobs: seq<Job>, now: int): seq<Notice> {
    if jobs == [] then []
    else
      var j := jobs[|jobs| - 1];
      BeatNotices(cfg, jobs[..|jobs| - 1], now) + if Due(cfg, j, now) then [Heartbeat(Beat(j, now))] else []
  }

  function CheckHeartbeats(s: State, cfg: Config, now: int): State {
    s.(active := Beaten(cfg, s.active, now), emitted := s.emitted + BeatNotices(cfg, s.active, now))
  }

  function Cancel(s: State, id: string, now: int): State {
    if !Has(s.active, id) then s
    else
      var job := s.active[Find(s.active, id)];
      End(s, job.(status := Cancelled, elapsed := Elapsed(job, Some(now)), lastOutput := Truncate(job.lastOutput)))
  }

  datatype Op = HandleEvent(event: Event) | Timeouts(now: int) | Heartbeats(now: int) | CancelJob(id: string, now: int)

  function Step(s: State, cfg: Config, op: Op): State {
    match op
    case HandleEvent(e) => Handle(s, e)
    case Timeouts(now) => CheckTimeouts(s, cfg, now)
    case Heartbeats(now) => CheckHeartbeats(s, cfg, now)
    case CancelJob(id, now) => Cancel(s, id, now)
  }

  function After(cfg: Config, ops: seq<Op>): State {
    if ops == [] then EMPTY else Step(After(cfg, ops[..|ops| - 1]), cfg, ops[|ops| - 1])
  }

  // ------------------------------------------------------------------ invariants

  predicate OneEach(jobs: seq<Job>) {
    forall a, b | 0 <= a < b < |jobs| :: jobs[a].id != jobs[b].id
  }

  /** Active jobs run and have no output yet; the others have ended. */
  predicate Sorted(s: State) {
    && OneEach(s.active)
    && (forall j | j in s.active :: j.status == Running && j.lastOutput == None)
    && (forall j | j in s.completed :: j.status != Running)
  }

  /** The jobs whose end was announced, in order. */
  function EndedJobs(emitted: seq<Notice>): seq<Job> {
    if emitted == [] then []
    else EndedJobs(emitted[..|emitted| - 1]) + if emitted[|emitted| - 1].Ended? then [emitted[|emitted| - 1].job] else []
  }

  /** How many starts of `id` were announced. */
  function Starts(emitted: seq<Notice>, id: string): nat {
    if emitted == [] then 0
    else Starts(emitted[..|emitted| - 1], id) + if emitted[|emitted| - 1].Started? && emitted[|emitted| - 1].job.id == id then 1 else 0
  }

  function Count(jobs: seq<Job>, id: string): nat {
    if jobs == [] then 0 else Count(jobs[..|jobs| - 1], id) + if jobs[|jobs| - 1].id == id then 1 else 0
  }

  /** Every start is matched by an active or an ended job, and every end was announced once. */
  ghost predicate Balanced(s: State) {
    && EndedJobs(s.emitted) == s.completed
    && forall id :: Starts(s.emitted, id) == Count(s.active, id) + Count(s.completed, id)
  }

  lemma {:induction false} EndedJobsAppend(a: seq<Notice>, b: seq<Notice>)
    ensures EndedJobs(a + b) == EndedJobs(a) + EndedJobs(b)
  {
    if b == [] { assert a + b == a; }
    else {
      assert (a + b)[..|a + b| - 1] == a + b[..|b| - 1];
      EndedJobsAppend(a, b[..|b| - 1]);
    }
  }

  lemma {:induction false} StartsAppend(a: seq<Notice>, b: seq<Notice>, id: string)
    ensures Starts(a + b, id) == Starts(a, id) + Starts(b, id)
  {
    if b == [] { assert a + b == a; }
    else {
      assert (a + b)[..|a + b| - 1] == a + b[..|b| - 1];
      StartsAppend(a, b[..|b| - 1], id);
    }
  }

  lemma {:induction false} CountAppend(a: seq<Job>, b: seq<Job>, id: string)
    ensures Count(a + b, id) == Count(a, id) + Count(b, id)
  {
    if b == [] { assert a + b == a; }
    else {
      assert (a + b)[..|a + b| - 1] == a + b[..|b| - 1];
      CountAppend(a, b[..|b| - 1], id);
    }
  }

  lemma OneNotice(n: Notice)
    ensures EndedJobs([n]) == if n.Ended? then [n.job] else []
    ensures forall id :: Starts([n], id) == if n.Started? && n.job.id == id then 1 else 0
  {
    assert [n][..0] == [];
  }

  lemma {:induction false} CountIs(jobs: seq<Job>, id: string)
    requires OneEach(jobs)
    ensures Count(jobs, id) == if Has(jobs, id) then 1 else 0
  {
    if jobs != [] {
      var n := |jobs| - 1;
      CountIs(jobs[..n], id);
      if Has(jobs[..n], id) {
        var j :| j in jobs[..n] && j.id == id;
        assert j in jobs;
      }
      if Has(jobs, id) && jobs[n].id != id {
        var j :| j in jobs && j.id == id;
        assert j in jobs[..n];
      }
    }
  }

  lemma CountMore(jobs: seq<Job>, j: Job, id: string)
    ensures Count(jobs + [j], id) == Count(jobs, id) + if j.id == id then 1 else 0
  {
    assert (jobs + [j])[..|jobs + [j]| - 1] == jobs;
  }

  lemma OneEachMore(jobs: seq<Job>, j: Job)
    requires OneEach(jobs) && forall x | x in jobs :: x.id != j.id
    ensures OneEach(jobs + [j])
  {
    assert forall a | 0 <= a < |jobs| :: jobs[a] in jobs;
  }

  lemma {:induction false} WithoutIs(jobs: seq<Job>, id: string)
    ensures forall j :: j in Without(jobs, id) <==> j in jobs && j.id != id
  {
    if jobs != [] {
      WithoutIs(jobs[..|jobs| - 1], id);
      assert jobs == jobs[..|jobs| - 1] + [jobs[|jobs| - 1]];
    }
  }

  lemma {:induction false} WithoutOneEach(jobs: seq<Job>, id: string)
    requires OneEach(jobs)
    ensures OneEach(Without(jobs, id))
  {
    if jobs != [] {
      var n := |jobs| - 1;
      WithoutOneEach(jobs[..n], id);
      WithoutIs(jobs[..n], id);
      if jobs[n].id != id { OneEachMore(Without(jobs[..n], id), jobs[n]); }
    }
  }

  lemma {:induction false} WithoutCount(jobs: seq<Job>, id: string, x: string)
    ensures Count(Without(jobs, id), x) == if x == id then 0 else Count(jobs, x)
  {
    if jobs != [] {
      var n := |jobs| - 1;
      WithoutCount(jobs[..n], id, x);
      var front := Without(jobs[..n], id);
      if jobs[n].id == id {
        assert Without(jobs, id) == front;
      } else {
        CountMore(front, jobs[n], x);
      }
    }
  }

  lemma StartKeeps(s: State, e: Event, id: string)
    requires Sorted(s) && Balanced(s)
    ensures Sorted(OnStarted(s, e, id)) && Balanced(OnStarted(s, e, id))
  {
    if !Has(s.active, id) {
      var job := Job(id, e.command, e.observedAt, e.observedAt, None, Running, 0);
      var after := OnStarted(s, e, id);
      EndedJobsAppend(s.emitted, [Started(job)]);
      OneNotice(Started(job));
      assert forall a | 0 <= a < |s.active| :: s.active[a] in s.active;
      forall x ensures Starts(after.emitted, x) == Count(after.active, x) + Count(after.completed, x) {
        StartsAppend(s.emitted, [Started(job)], x);
        CountAppend(s.active, [job], x);
      }
    }
  }

  lemma EndSorts(s: State, job: Job)
    requires Sorted(s) && job.status != Running
    ensures Sorted(End(s, job))
  {
    hide OneEach, Without;
    WithoutIs(s.active, job.id);
    WithoutOneEach(s.active, job.id);
  }

  lemma EndCountsOf(s: State, job: Job, id: string)
    requires OneEach(s.active) && Has(s.active, job.id)
    requires Starts(s.emitted, id) == Count(s.active, id) + Count(s.completed, id)
    ensures var after := End(s, job); Starts(after.emitted, id) == Count(after.active, id) + Count(after.completed, id)
  {
    hide OneEach, Without, Count, Starts, Has;
    WithoutCount(s.active, job.id, id);
    CountIs(s.active, job.id);
    StartsAppend(s.emitted, [Ended(job)], id);
    OneNotice(Ended(job));
    CountMore(s.completed, job, id);
  }

  lemma EndKeeps(s: State, job: Job)
    requires Sorted(s) && Balanced(s) && Has(s.active, job.id) && job.status != Running
    ensures Sorted(End(s, job)) && Balanced(End(s, job))
  {
    hide OneEach, Without, Count, Starts, Has;
    EndSorts(s, job);
    EndedJobsAppend(s.emitted, [Ended(job)]);
    OneNotice(Ended(job));
    var after := End(s, job);
    forall x ensures Starts(after.emitted, x) == Count(after.active, x) + Count(after.completed, x) {
      EndCountsOf(s, job, x);
    }
  }

  lemma {:induction false} SurvivingIs(cfg: Config, jobs: seq<Job>, now: int)
    ensures forall j :: j in Surviving(cfg, jobs, now) <==> j in jobs && !Expired(cfg, j, now)
  {
    if jobs != [] {
      SurvivingIs(cfg, jobs[..|jobs| - 1], now);
      assert jobs == jobs[..|jobs| - 1] + [jobs[|jobs| - 1]];
    }
  }

  lemma {:induction false} SurvivingOneEach(cfg: Config, jobs: seq<Job>, now: int)
    requires OneEach(jobs)
    ensures OneEach(Surviving(cfg, jobs, now))
  {
    if jobs != [] {
      var n := |jobs| - 1;
      SurvivingOneEach(cfg, jobs[..n], now);
      SurvivingIs(cfg, jobs[..n], now);
      if !Expired(cfg, jobs[n], now) { OneEachMore(Surviving(cfg, jobs[..n], now), jobs[n]); }
    }
  }

  lemma {:induction false} ExpiringIs(cfg: Config, jobs: seq<Job>, now: int)
    ensures forall j | j in Expiring(cfg, jobs, now) ::
              j.status == TimedOut && exists x :: x in jobs && Expired(cfg, x, now) && j == TimeOut(x, now)
    ensures forall x | x in jobs && Expired(cfg, x, now) :: TimeOut(x, now) in Expiring(cfg, jobs, now)
  {
    if jobs != [] {
      var n := |jobs| - 1;
      ExpiringIs(cfg, jobs[..n], now);
      assert jobs == jobs[..n] + [jobs[n]] && jobs[n] in jobs;
    }
  }

  lemma {:induction false} PartsCount(cfg: Config, jobs: seq<Job>, now: int, id: string)
    ensures Count(jobs, id) == Count(Surviving(cfg, jobs, now), id) + Count(Expiring(cfg, jobs, now), id)
  {
    if jobs != [] {
      var n := |jobs| - 1;
      PartsCount(cfg, jobs[..n], now, id);
      var rest, gone := Surviving(cfg, jobs[..n], now), Expiring(cfg, jobs[..n], now);
      if Expired(cfg, jobs[n], now) {
        CountMore(gone, TimeOut(jobs[n], now), id);
        assert Surviving(cfg, jobs, now) == rest;
      } else {
        CountMore(rest, jobs[n], id);
        assert Expiring(cfg, jobs, now) == gone;
      }
    }
  }

  lemma {:induction false} EndedOf(jobs: seq<Job>)
    ensures EndedJobs(EndedNotices(jobs)) == jobs
    ensures forall id :: Starts(EndedNotices(jobs), id) == 0
  {
    if jobs != [] {
      var n := |jobs| - 1;
      EndedOf(jobs[..n]);
      assert EndedNotices(jobs)[..n] == EndedNotices(jobs[..n]);
    }
  }

  lemma TimeoutsKeep(s: State, cfg: Config, now: int)
    requires Sorted(s) && Balanced(s)
    ensures Sorted(CheckTimeouts(s, cfg, now)) && Balanced(CheckTimeouts(s, cfg, now))
  {
    var gone, after := Expiring(cfg, s.active, now), CheckTimeouts(s, cfg, now);
    SurvivingIs(cfg, s.active, now);
    SurvivingOneEach(cfg, s.active, now);
    ExpiringIs(cfg, s.active, now);
    EndedOf(gone);
    EndedJobsAppend(s.emitted, EndedNotices(gone));
    forall x ensures Starts(after.emitted, x) == Count(after.active, x) + Count(after.completed, x) {
      PartsCount(cfg, s.active, now, x);
      StartsAppend(s.emitted, EndedNotices(gone), x);
      CountAppend(s.completed, gone, x);
    }
  }

  lemma {:induction false} BeatsEndNothing(cfg: Config, jobs: seq<Job>, now: int)
    ensures forall n | n in BeatNotices(cfg, jobs, now) :: n.Heartbeat?
  {
    if jobs != [] { BeatsEndNothing(cfg, jobs[..|jobs| - 1], now); }
  }

  lemma {:induction false} OnlyBeats(notices: seq<Notice>, id: string)
    requires forall n | n in notices :: n.Heartbeat?
    ensures EndedJobs(notices) == [] && Starts(notices, id) == 0
  {
    if notices != [] {
      var n := |notices| - 1;
      assert notices[n] in notices && forall x | x in notices[..n] :: x in notices;
      OnlyBeats(notices[..n], id);
    }
  }

  lemma {:induction false} BeatenCount(cfg: Config, jobs: seq<Job>, now: int, id: string)
    ensures Count(Beaten(cfg, jobs, now), id) == Count(jobs, id)
  {
    if jobs != [] {
      var n := |jobs| - 1;
      BeatenCount(cfg, jobs[..n], now, id);
      assert Beaten(cfg, jobs, now)[..n] == Beaten(cfg, jobs[..n], now);
    }
  }

  lemma HeartbeatsKeep(s: State, cfg: Config, now: int)
    requires Sorted(s) && Balanced(s)
    ensures Sorted(CheckHeartbeats(s, cfg, now)) && Balanced(CheckHeartbeats(s, cfg, now))
  {
    var after := CheckHeartbeats(s, cfg, now);
    BeatsEndNothing(cfg, s.active, now);
    OnlyBeats(BeatNotices(cfg, s.active, now), "");
    EndedJobsAppend(s.emitted, BeatNotices(cfg, s.active, now));
    assert s.completed + [] == s.completed;
    assert forall k | 0 <= k < |s.active| :: s.active[k] in s.active;
    forall x ensures Starts(after.emitted, x) == Count(after.active, x) + Count(after.completed, x) {
      OnlyBeats(BeatNotices(cfg, s.active, now), x);
      BeatenCount(cfg, s.active, now, x);
      StartsAppend(s.emitted, BeatNotices(cfg, s.active, now), x);
    }
  }

  lemma StepKeeps(s: State, cfg: Config, op: Op)
    requires Sorted(s) && Balanced(s)
    ensures Sorted(Step(s, cfg, op)) && Balanced(Step(s, cfg, op))
    ensures s.completed <= Step(s, cfg, op).completed
  {
    hide Sorted, Balanced;
    match op
    case HandleEvent(e) =>
      var id := BashId(e);
      if id.Some? {
        StartKeeps(s, e, id.value);
        if Has(s.active, id.value) {
          var job := s.active[Find(s.active, id.value)];
          EndKeeps(s, job.(status := Completed, elapsed := Elapsed(job, e.observedAt), lastOutput := Truncate(e.lastOutput)));
        }
      }
    case Timeouts(now) => TimeoutsKeep(s, cfg, now);
    case Heartbeats(now) => HeartbeatsKeep(s, cfg, now);
    case CancelJob(id, now) =>
      if Has(s.active, id) {
        var job := s.active[Find(s.active, id)];
        EndKeeps(s, job.(status := Cancelled, elapsed := Elapsed(job, Some(now)), lastOutput := Truncate(job.lastOutput)));
      }
  }

  /** In every run, accepted starts of an id are its active plus its finished jobs, and the ends
      announced are exactly the finished jobs, in order. */
  lemma {:induction false} RunKeeps(cfg: Config, ops: seq<Op>)
    ensures Sorted(After(cfg, ops)) && Balanced(After(cfg, ops))
  {
    hide Sorted, Balanced, Step;
    if ops == [] {
      NothingYet();
    } else {
      RunKeeps(cfg, ops[..|ops| - 1]);
      StepKeeps(After(cfg, ops[..|ops| - 1]), cfg, ops[|ops| - 1]);
    }
  }

  lemma NothingYet()
    ensures Sorted(EMPTY) && Balanced(EMPTY)
  {
  }

  /** After a timeout check no active job with a readable start is past the limit, every other
      active job is untouched, and each job past it has ended as timed out. */
  lemma TimeoutsAreExact(s: State, cfg: Config, now: int, job: Job)
    ensures var after := CheckTimeouts(s, cfg, now);
            && (job in after.active <==> job in s.active && !(job.startedAt.Some? && now - job.startedAt.value >= cfg.timeout))
            && (job in s.active && job !in after.active ==>
                  job.(status := TimedOut, elapsed := now - job.startedAt.value) in after.completed[|s.completed|..])
  {
    SurvivingIs(cfg, s.active, now);
    ExpiringIs(cfg, s.active, now);
    if job in s.active && Expired(cfg, job, now) {
      var gone := Expiring(cfg, s.active, now);
      assert TimeOut(job, now) in gone;
      assert (s.completed + gone)[|s.completed|..] == gone;
    }
  }

  function Beats(notices: seq<Notice>, id: string): nat {
    if notices == [] then 0
    else
      var last := notices[|notices| - 1];
      Beats(notices[..|notices| - 1], id) + if last.Heartbeat? && last.job.id == id then 1 else 0
  }

  predicate AnyDue(cfg: Config, jobs: seq<Job>, now: int, id: string) {
    exists j | j in jobs :: j.id == id && j.lastHeartbeatAt.Some? && now >= j.lastHeartbeatAt.value + cfg.heartbeatInterval
  }

  /** Exactly one heartbeat goes out for an active job whose last one is due, none for any other
      id, and with a positive interval none is due after. */
  lemma {:induction false} HeartbeatsAreExact(cfg: Config, jobs: seq<Job>, now: int, id: string)
    requires OneEach(jobs)
    ensures Beats(BeatNotices(cfg, jobs, now), id) == if AnyDue(cfg, jobs, now, id) then 1 else 0
    ensures cfg.heartbeatInterval > 0 ==> forall j | j in Beaten(cfg, jobs, now) :: !Due(cfg, j, now)
  {
    BeatsAreExact(cfg, jobs, now, id);
    if cfg.heartbeatInterval > 0 {
      forall j | j in Beaten(cfg, jobs, now) ensures !Due(cfg, j, now) {
        var k :| 0 <= k < |jobs| && Beaten(cfg, jobs, now)[k] == j;
      }
    }
  }

  lemma {:induction false} BeatsAreExact(cfg: Config, jobs: seq<Job>, now: int, id: string)
    requires OneEach(jobs)
    ensures Beats(BeatNotices(cfg, jobs, now), id) == if AnyDue(cfg, jobs, now, id) then 1 else 0
  {
    hide Due, AnyDue;
    if jobs == [] {
      NoneDue(cfg, jobs, now, id);
    } else {
      var n := |jobs| - 1;
      BeatsAreExact(cfg, jobs[..n], now, id);
      AnyDueGrows(cfg, jobs[..n], now, id, jobs[n]);
      assert jobs == jobs[..n] + [jobs[n]];
      var before := BeatNotices(cfg, jobs[..n], now);
      assert (before + [Heartbeat(Beat(jobs[n], now))])[..|before|] == before && before + [] == before;
      assert Beat(jobs[n], now).id == jobs[n].id;
      if jobs[n].id == id { NoneDue(cfg, jobs[..n], now, id); }
    }
  }

  lemma NoneDue(cfg: Config, jobs: seq<Job>, now: int, id: string)
    requires forall j | j in jobs :: j.id != id
    ensures !AnyDue(cfg, jobs, now, id)
  {
  }

  lemma AnyDueGrows(cfg: Config, jobs: seq<Job>, now: int, id: string, last: Job)
    ensures AnyDue(cfg, jobs + [last], now, id) <==> AnyDue(cfg, jobs, now, id) || (last.id == id && Due(cfg, last, now))
  {
    assert last in jobs + [last];
    assert forall j | j in jobs :: j in jobs + [last];
  }

  // ------------------------------------------------- where each job comes from

  /** Operation `k` is the Bash event that started the job. */
  ghost predicate StartedBy(ops: seq<Op>, k: int, j: Job) {
    && 0 <= k < |ops| && ops[k].HandleEvent? && IsBash(ops[k].event, "tool_started", j.id)
    && j.command == ops[k].event.command && j.startedAt == ops[k].event.observedAt
  }

  predicate IsBash(e: Event, name: string, id: string) {
    e.name == name && e.toolName == Some("Bash") && e.toolUseId == Some(id) && id != ""
  }

  /** The operation ends a running job like this one. */
  predicate Ends(cfg: Config, op: Op, j: Job) {
    match op
    case HandleEvent(e) => IsBash(e, "tool_finished", j.id)
    case Timeouts(now) => j.startedAt.Some? && now >= j.startedAt.value + cfg.timeout
    case CancelJob(id, _) => id == j.id
    case Heartbeats(_) => false
  }

  /** The time between two readable timestamps, else 0. */
  predicate Lasted(elapsed: int, from: Option<int>, to: Option<int>) {
    if from.Some? && to.Some? then from.value + elapsed == to.value else elapsed == 0
  }

  /** `kept` is `text`, or its last 500 characters. */
  ghost predicate LastPart(kept: Option<string>, text: Option<string>) {
    && (kept.Some? <==> text.Some?)
    && (text.Some? && |text.value| <= 500 ==> kept == text)
    && (text.Some? && |text.value| > 500 ==> |kept.value| == 500 && exists front :: text.value == front + kept.value)
  }

  /** What the job says about its end is what the operation that ended it says. */
  ghost predicate Reports(op: Op, j: Job) {
    match op
    case HandleEvent(e) => j.status == Completed && Lasted(j.elapsed, j.startedAt, e.observedAt) && LastPart(j.lastOutput, e.lastOutput)
    case Timeouts(now) => j.status == TimedOut && Lasted(j.elapsed, j.startedAt, Some(now)) && j.lastOutput == None
    case CancelJob(_, now) => j.status == Cancelled && Lasted(j.elapsed, j.startedAt, Some(now)) && j.lastOutput == None
    case Heartbeats(_) => false
  }

  /** An active job was started and not ended since; its heartbeat is its start, or a check since. */
  ghost predicate ActiveStory(cfg: Config, ops: seq<Op>, j: Job) {
    && j.status == Running && j.lastOutput == None
    && exists k :: StartedBy(ops, k, j) && NotEnded(cfg, ops, k, |ops|, j) && Beating(ops, k, j)
  }

  ghost predicate NotEnded(cfg: Config, ops: seq<Op>, k: int, m: int, j: Job) {
    forall i | 0 <= k < i < m <= |ops| :: !Ends(cfg, ops[i], j)
  }

  ghost predicate Beating(ops: seq<Op>, k: int, j: Job) {
    || (j.lastHeartbeatAt == j.startedAt && j.elapsed == 0)
    || exists h, now :: 0 <= k < h < |ops| && ops[h] == Heartbeats(now) && j.lastHeartbeatAt == Some(now) && Lasted(j.elapsed, j.startedAt, Some(now))
  }

  /** A job that ended was started, was ended by the first operation since that could, and tells
      how and when. */
  ghost predicate EndedStory(cfg: Config, ops: seq<Op>, j: Job) {
    exists k, m :: StartedBy(ops, k, j) && EndedBy(cfg, ops, k, m, j)
  }

  ghost predicate EndedBy(cfg: Config, ops: seq<Op>, k: int, m: int, j: Job) {
    0 <= k < m < |ops| && NotEnded(cfg, ops, k, m, j) && Ends(cfg, ops[m], j) && Reports(ops[m], j)
  }

  ghost predicate Truthful(cfg: Config, ops: seq<Op>, s: State) {
    && (forall j | j in s.active :: ActiveStory(cfg, ops, j))
    && (forall j | j in s.completed :: EndedStory(cfg, ops, j))
  }

  /** One more operation leaves the story of an ended job as it is. */
  lemma {:induction false} EndedStays(cfg: Config, ops: seq<Op>, op: Op, j: Job)
    requires EndedStory(cfg, ops, j)
    ensures EndedStory(cfg, ops + [op], j)
  {
    hide Ends, Reports;
    var k, m :| StartedBy(ops, k, j) && EndedBy(cfg, ops, k, m, j);
    assert StartedBy(ops + [op], k, j);
    assert EndedBy(cfg, ops + [op], k, m, j);
  }

  lemma {:induction false} ActiveStays(cfg: Config, ops: seq<Op>, op: Op, j: Job)
    requires ActiveStory(cfg, ops, j) && !Ends(cfg, op, j)
    ensures ActiveStory(cfg, ops + [op], j)
  {
    hide Ends;
    var k :| StartedBy(ops, k, j) && NotEnded(cfg, ops, k, |ops|, j) && Beating(ops, k, j);
    var more := ops + [op];
    assert StartedBy(more, k, j);
    forall i | 0 <= k < i < |more| ensures !Ends(cfg, more[i], j) { if i < |ops| { assert more[i] == ops[i]; } }
    if h, now :| 0 <= k < h < |ops| && ops[h] == Heartbeats(now) && j.lastHeartbeatAt == Some(now) && Lasted(j.elapsed, j.startedAt, Some(now)) {
      assert more[h] == Heartbeats(now);
    }
    assert Beating(more, k, j);
  }

  /** An active job that the operation ends tells so. */
  lemma {:induction false} ActiveEnds(cfg: Config, ops: seq<Op>, op: Op, j: Job, ended: Job)
    requires ActiveStory(cfg, ops, j) && Ends(cfg, op, j) && Reports(op, ended)
    requires ended.id == j.id && ended.command == j.command && ended.startedAt == j.startedAt
    ensures EndedStory(cfg, ops + [op], ended)
  {
    hide Reports;
    var k :| StartedBy(ops, k, j) && NotEnded(cfg, ops, k, |ops|, j) && Beating(ops, k, j);
    var more := ops + [op];
    assert StartedBy(more, k, ended);
    forall i | 0 <= k < i < |ops| ensures !Ends(cfg, more[i], ended) { assert more[i] == ops[i] && !Ends(cfg, ops[i], j); }
    assert EndedBy(cfg, more, k, |ops|, ended);
  }

  lemma {:induction false} ActiveBeats(cfg: Config, ops: seq<Op>, now: int, j: Job)
    requires ActiveStory(cfg, ops, j)
    ensures ActiveStory(cfg, ops + [Heartbeats(now)], Beat(j, now))
  {
    var op := Heartbeats(now);
    var k :| StartedBy(ops, k, j) && NotEnded(cfg, ops, k, |ops|, j) && Beating(ops, k, j);
    var more, b := ops + [op], Beat(j, now);
    assert StartedBy(more, k, b);
    forall i | 0 <= k < i < |more| ensures !Ends(cfg, more[i], b) { if i < |ops| { assert more[i] == ops[i] && !Ends(cfg, ops[i], j); } }
    assert more[|ops|] == Heartbeats(now) && Lasted(b.elapsed, b.startedAt, Some(now));
    assert Beating(more, k, b);
  }

  lemma TruncateKeepsTheEnd(text: Option<string>)
    ensures LastPart(Truncate(text), text)
  {
    if text.Some? && |text.value| > 500 {
      var n := |text.value| - 500;
      assert text.value == text.value[..n] + text.value[n..];
    }
  }

  lemma {:induction false} StartTells(cfg: Config, ops: seq<Op>, s: State, e: Event)
    requires Truthful(cfg, ops, s) && BashId(e).Some? && e.name == "tool_started"
    ensures Truthful(cfg, ops + [HandleEvent(e)], OnStarted(s, e, BashId(e).value))
  {
    hide ActiveStory, EndedStory;
    var op, id := HandleEvent(e), BashId(e).value;
    var after := OnStarted(s, e, id);
    assert "tool_started" != "tool_finished" by { assert "tool_started"[5] != "tool_finished"[5]; }
    forall j | j in after.completed ensures EndedStory(cfg, ops + [op], j) { EndedStays(cfg, ops, op, j); }
    forall j | j in after.active ensures ActiveStory(cfg, ops + [op], j) {
      if j in s.active { ActiveStays(cfg, ops, op, j); } else { FreshStory(cfg, ops, e, j); }
    }
  }

  lemma FreshStory(cfg: Config, ops: seq<Op>, e: Event, j: Job)
    requires BashId(e) == Some(j.id) && e.name == "tool_started"
    requires j == Job(j.id, e.command, e.observedAt, e.observedAt, None, Running, 0)
    ensures ActiveStory(cfg, ops + [HandleEvent(e)], j)
  {
    var more := ops + [HandleEvent(e)];
    assert StartedBy(more, |ops|, j) && NotEnded(cfg, more, |ops|, |more|, j) && Beating(more, |ops|, j);
  }

  /** Ending one job, as a finish event and a cancellation do. */
  lemma {:induction false} EndTells(cfg: Config, ops: seq<Op>, s: State, op: Op, ended: Job)
    requires Truthful(cfg, ops, s) && Has(s.active, ended.id)
    requires var j := s.active[Find(s.active, ended.id)];
             ended.command == j.command && ended.startedAt == j.startedAt && Ends(cfg, op, j)
    requires Reports(op, ended) && forall j | j in s.active && j.id != ended.id :: !Ends(cfg, op, j)
    ensures Truthful(cfg, ops + [op], End(s, ended))
  {
    hide ActiveStory, EndedStory, Ends, Reports;
    var j := s.active[Find(s.active, ended.id)];
    ActiveEnds(cfg, ops, op, j, ended);
    WithoutIs(s.active, ended.id);
    forall c | c in s.completed ensures EndedStory(cfg, ops + [op], c) { EndedStays(cfg, ops, op, c); }
    forall a | a in s.active && a.id != ended.id ensures ActiveStory(cfg, ops + [op], a) { ActiveStays(cfg, ops, op, a); }
  }

  lemma {:induction false} NothingEnds(cfg: Config, ops: seq<Op>, s: State, op: Op)
    requires Truthful(cfg, ops, s) && forall j | j in s.active :: !Ends(cfg, op, j)
    ensures Truthful(cfg, ops + [op], s)
  {
    hide ActiveStory, EndedStory, Ends;
    forall c | c in s.completed ensures EndedStory(cfg, ops + [op], c) { EndedStays(cfg, ops, op, c); }
    forall a | a in s.active ensures ActiveStory(cfg, ops + [op], a) { ActiveStays(cfg, ops, op, a); }
  }

  lemma {:induction false} EventTells(cfg: Config, ops: seq<Op>, s: State, e: Event)
    requires Truthful(cfg, ops, s)
    ensures Truthful(cfg, ops + [HandleEvent(e)], Handle(s, e))
  {
    hide ActiveStory, EndedStory, Truthful, Truncate, LastPart;
    var op, id := HandleEvent(e), BashId(e);
    if id.Some? && e.name == "tool_started" {
      StartTells(cfg, ops, s, e);
    } else if id.Some? && e.name == "tool_finished" && Has(s.active, id.value) {
      var job := s.active[Find(s.active, id.value)];
      TruncateKeepsTheEnd(e.lastOutput);
      EndTells(cfg, ops, s, op, job.(status := Completed, elapsed := Elapsed(job, e.observedAt), lastOutput := Truncate(e.lastOutput)));
    } else {
      assert Handle(s, e) == s;
      assert forall j | j in s.active :: !Ends(cfg, op, j);
      NothingEnds(cfg, ops, s, op);
    }
  }

  lemma {:induction false} CancelTells(cfg: Config, ops: seq<Op>, s: State, id: string, now: int)
    requires Truthful(cfg, ops, s)
    ensures Truthful(cfg, ops + [CancelJob(id, now)], Cancel(s, id, now))
  {
    hide EndedStory;
    var op := CancelJob(id, now);
    if Has(s.active, id) {
      var job := s.active[Find(s.active, id)];
      assert job in s.active;
      NoOutputYet(cfg, ops, job);
      EndTells(cfg, ops, s, op, job.(status := Cancelled, elapsed := Elapsed(job, Some(now)), lastOutput := Truncate(job.lastOutput)));
    } else {
      NothingEnds(cfg, ops, s, op);
    }
  }

  lemma {:induction false} TimeoutsTell(cfg: Config, ops: seq<Op>, s: State, now: int)
    requires Truthful(cfg, ops, s)
    ensures Truthful(cfg, ops + [Timeouts(now)], CheckTimeouts(s, cfg, now))
  {
    hide EndedStory, ActiveStory;
    var op := Timeouts(now);
    SurvivingIs(cfg, s.active, now);
    ExpiringFrom(cfg, s.active, now);
    var after := CheckTimeouts(s, cfg, now);
    forall c | c in after.completed ensures EndedStory(cfg, ops + [op], c) {
      if c in s.completed {
        EndedStays(cfg, ops, op, c);
      } else {
        var j :| j in s.active && Expired(cfg, j, now) && c == TimeOut(j, now);
        assert ActiveStory(cfg, ops, j);
        NoOutputYet(cfg, ops, j);
        ActiveEnds(cfg, ops, op, j, c);
      }
    }
    forall a | a in after.active ensures ActiveStory(cfg, ops + [op], a) { ActiveStays(cfg, ops, op, a); }
  }

  lemma NoOutputYet(cfg: Config, ops: seq<Op>, j: Job)
    requires ActiveStory(cfg, ops, j)
    ensures j.lastOutput == None
  {
  }

  lemma {:induction false} ExpiringFrom(cfg: Config, jobs: seq<Job>, now: int)
    ensures forall c | c in Expiring(cfg, jobs, now) :: exists j :: j in jobs && Expired(cfg, j, now) && c == TimeOut(j, now)
  {
    if jobs != [] {
      var n := |jobs| - 1;
      ExpiringFrom(cfg, jobs[..n], now);
      assert jobs == jobs[..n] + [jobs[n]] && jobs[n] in jobs;
      forall c | c in Expiring(cfg, jobs, now) ensures exists j :: j in jobs && Expired(cfg, j, now) && c == TimeOut(j, now) {
        if c in Expiring(cfg, jobs[..n], now) {
          var j :| j in jobs[..n] && Expired(cfg, j, now) && c == TimeOut(j, now);
          assert j in jobs;
        }
      }
    }
  }

  lemma {:induction false} BeatsTell(cfg: Config, ops: seq<Op>, s: State, now: int)
    requires Truthful(cfg, ops, s)
    ensures Truthful(cfg, ops + [Heartbeats(now)], CheckHeartbeats(s, cfg, now))
  {
    hide EndedStory, ActiveStory;
    var op := Heartbeats(now);
    var after := CheckHeartbeats(s, cfg, now);
    forall c | c in after.completed ensures EndedStory(cfg, ops + [op], c) { EndedStays(cfg, ops, op, c); }
    forall a | a in after.active ensures ActiveStory(cfg, ops + [op], a) {
      var k :| 0 <= k < |after.active| && after.active[k] == a;
      var j := s.active[k];
      assert j in s.active;
      if Due(cfg, j, now) { ActiveBeats(cfg, ops, now, j); } else { ActiveStays(cfg, ops, op, j); }
    }
  }

  /** What an event does: a Bash start leaves its job active, one already active as it was; a Bash
      finish leaves no job of its id active; neither touches another job, and no other event does anything. */
  lemma {:induction false} EventsExactly(s: State, e: Event, id: string)
    ensures IsBash(e, "tool_started", id) ==>
              && Has(Handle(s, e).active, id) && Handle(s, e).completed == s.completed
              && (Has(s.active, id) ==> Handle(s, e) == s)
    ensures IsBash(e, "tool_finished", id) ==>
              && !Has(Handle(s, e).active, id)
              && |Handle(s, e).completed| == |s.completed| + if Has(s.active, id) then 1 else 0
    ensures IsBash(e, e.name, id) ==> forall j: Job | j.id != id :: j in Handle(s, e).active <==> j in s.active
    ensures e.toolName != Some("Bash") || e.toolUseId.None? || e.toolUseId == Some("") || e.name !in {"tool_started", "tool_finished"} ==>
              Handle(s, e) == s
  {
    hide Truncate;
    WithoutIs(s.active, id);
    assert "tool_started" != "tool_finished" by { assert "tool_started"[5] != "tool_finished"[5]; }
    if IsBash(e, "tool_started", id) && !Has(s.active, id) {
      var after := Handle(s, e).active;
      assert after[|s.active|].id == id && after[|s.active|] in after;
    }
  }

  /** In every run each job tells the truth: which event started it and with what command, and for
      an ended one which operation ended it, how long it ran and what it printed last. */
  lemma {:induction false} JobsTellTheTruth(cfg: Config, ops: seq<Op>)
    ensures Truthful(cfg, ops, After(cfg, ops))
  {
    hide Truthful;
    if ops == [] {
      assert Truthful(cfg, ops, EMPTY) by { NoJobsYet(cfg, ops); }
    } else {
      var n := |ops| - 1;
      var before := After(cfg, ops[..n]);
      JobsTellTheTruth(cfg, ops[..n]);
      assert ops == ops[..n] + [ops[n]];
      match ops[n]
      case HandleEvent(e) => EventTells(cfg, ops[..n], before, e);
      case Timeouts(now) => TimeoutsTell(cfg, ops[..n], before, now);
      case Heartbeats(now) => BeatsTell(cfg, ops[..n], before, now);
      case CancelJob(id, now) => CancelTells(cfg, ops[..n], before, id, now);
    }
  }

  lemma NoJobsYet(cfg: Config, ops: seq<Op>)
    ensures Truthful(cfg, ops, EMPTY)
  {
  }

  // ---------------------------------------------------------------------- summary

  datatype Summary = Summary(total: nat, active: nat, completed: nat, timedOut: nat, cancelled: nat, totalWait: int, longest: Option<Job>)

  function WithStatus(jobs: seq<Job>, status: Status): nat {
    if jobs == [] then 0 else WithStatus(jobs[..|jobs| - 1], status) + if jobs[|jobs| - 1].status == status then 1 else 0
  }

  function Wait(jobs: seq<Job>): int {
    if jobs == [] then 0 else Wait(jobs[..|jobs| - 1]) + jobs[|jobs| - 1].elapsed
  }

  /** The first of the jobs that waited longest. */
  function Longest(jobs: seq<Job>): Option<Job> {
    if jobs == [] then None
    else
      var best := Longest(jobs[..|jobs| - 1]);
      if best.None? || jobs[|jobs| - 1].elapsed > best.value.elapsed then Some(jobs[|jobs| - 1]) else best
  }

  function Summarize(s: State): Summary {
    var all := s.completed + s.active;
    Summary(|all|, |s.active|, WithStatus(s.completed, Completed), WithStatus(s.completed, TimedOut),
            WithStatus(s.completed, Cancelled), Wait(all), Longest(all))
  }

  lemma {:induction false} StatusesCover(jobs: seq<Job>)
    requires forall j | j in jobs :: j.status != Running
    ensures WithStatus(jobs, Completed) + WithStatus(jobs, TimedOut) + WithStatus(jobs, Cancelled) == |jobs|
  {
    if jobs != [] {
      var n := |jobs| - 1;
      assert jobs[n] in jobs && forall j | j in jobs[..n] :: j in jobs;
      StatusesCover(jobs[..n]);
    }
  }

  /** Job `k` waited longest, and longer than any before it. */
  predicate FirstLongest(jobs: seq<Job>, k: nat) {
    && k < |jobs| && (forall i | 0 <= i < |jobs| :: jobs[i].elapsed <= jobs[k].elapsed)
    && forall i | 0 <= i < k :: jobs[i].elapsed < jobs[k].elapsed
  }

  lemma {:induction false} LongestIs(jobs: seq<Job>)
    ensures Longest(jobs).None? <==> jobs == []
    ensures Longest(jobs).Some? ==> exists k: nat :: FirstLongest(jobs, k) && Longest(jobs) == Some(jobs[k])
  {
    if jobs != [] {
      var n := |jobs| - 1;
      LongestIs(jobs[..n]);
      if Longest(jobs[..n]).Some? {
        var k: nat :| FirstLongest(jobs[..n], k) && Longest(jobs[..n]) == Some(jobs[..n][k]);
        assert forall i | 0 <= i < n :: jobs[..n][i] == jobs[i];
        assert FirstLongest(jobs, if jobs[n].elapsed > jobs[k].elapsed then n else k);
      } else {
        assert FirstLongest(jobs, n);
      }
    }
  }

  lemma {:induction false} WithStatusIs(jobs: seq<Job>, status: Status)
    ensures WithStatus(jobs, status) == |set k: nat | k < |jobs| && jobs[k].status == status|
  {
    var q := (k: nat) => k < |jobs| && jobs[k].status == status;
    WithStatusBelow(jobs, status, q, |jobs|);
    assert jobs[..|jobs|] == jobs;
    assert (set k: nat | k < |jobs| && jobs[k].status == status) == Among(|jobs|, q);
  }

  lemma {:induction false} WithStatusBelow(jobs: seq<Job>, status: Status, q: nat -> bool, n: nat)
    requires n <= |jobs| && forall k: nat | k < |jobs| :: q(k) <==> jobs[k].status == status
    ensures WithStatus(jobs[..n], status) == |Among(n, q)|
  {
    if n > 0 {
      WithStatusBelow(jobs, status, q, n - 1);
      assert jobs[..n][..n - 1] == jobs[..n - 1];
      AmongNext(n - 1, q);
    }
  }

  /** The waits of two lists add up, and one job adds its own. */
  lemma {:induction false} WaitAdds(a: seq<Job>, b: seq<Job>)
    ensures Wait(a + b) == Wait(a) + Wait(b)
    ensures Wait([]) == 0 && forall j :: Wait([j]) == j.elapsed
  {
    forall j ensures Wait([j]) == j.elapsed { assert [j][..0] == []; }
    if b == [] {
      assert a + b == a;
    } else {
      assert (a + b)[..|a + b| - 1] == a + b[..|b| - 1];
      WaitAdds(a, b[..|b| - 1]);
    }
  }

  /** What the summary says of a controller with these jobs: how many are active and how many
      ended in each way, the total wait, and the first of the longest with ended jobs first. */
  lemma {:induction false} SummaryExactly(s: State)
    ensures var sum, all := Summarize(s), s.completed + s.active;
            && sum.active == |s.active| && sum.total == |all|
            && sum.completed == |set k: nat | k < |s.completed| && s.completed[k].status == Completed|
            && sum.timedOut == |set k: nat | k < |s.completed| && s.completed[k].status == TimedOut|
            && sum.cancelled == |set k: nat | k < |s.completed| && s.completed[k].status == Cancelled|
            && sum.totalWait == Wait(s.completed) + Wait(s.active)
            && (sum.longest.None? <==> all == [])
            && (sum.longest.Some? ==> exists k: nat :: FirstLongest(all, k) && sum.longest == Some(all[k]))
  {
    WithStatusIs(s.completed, Completed);
    WithStatusIs(s.completed, TimedOut);
    WithStatusIs(s.completed, Cancelled);
    WaitAdds(s.completed, s.active);
    LongestIs(s.completed + s.active);
  }

  /** In every run the summary's counts add up to the starts accepted. */
  lemma SummaryAddsUp(cfg: Config, ops: seq<Op>)
    ensures var s := After(cfg, ops);
            var sum := Summarize(s);
            && sum.total == sum.active + sum.completed + sum.timedOut + sum.cancelled
            && sum.total == AllStarts(s.emitted)
  {
    RunKeeps(cfg, ops);
    StatusesCover(After(cfg, ops).completed);
    StartsCount(cfg, ops);
  }

  function AllStarts(emitted: seq<Notice>): nat {
    if emitted == [] then 0 else AllStarts(emitted[..|emitted| - 1]) + if emitted[|emitted| - 1].Started? then 1 else 0
  }

  lemma {:induction false} AllStartsAppend(a: seq<Notice>, b: seq<Notice>)
    ensures AllStarts(a + b) == AllStarts(a) + AllStarts(b)
  {
    if b == [] { assert a + b == a; }
    else {
      assert (a + b)[..|a + b| - 1] == a + b[..|b| - 1];
      AllStartsAppend(a, b[..|b| - 1]);
    }
  }

  lemma OneStart(n: Notice)
    ensures AllStarts([n]) == if n.Started? then 1 else 0
  {
    assert [n][..0] == [];
  }

  lemma {:induction false} WithoutOne(jobs: seq<Job>, id: string)
    requires OneEach(jobs)
    ensures |Without(jobs, id)| + (if Has(jobs, id) then 1 else 0) == |jobs|
  {
    if jobs != [] {
      var n := |jobs| - 1;
      WithoutOne(jobs[..n], id);
      assert jobs == jobs[..n] + [jobs[n]] && jobs[n] in jobs;
      if Has(jobs[..n], id) {
        var j :| j in jobs[..n] && j.id == id;
        assert j in jobs;
      }
      if Has(jobs, id) && jobs[n].id != id {
        var j :| j in jobs && j.id == id;
        assert j in jobs[..n];
      }
    }
  }

  lemma {:induction false} PartsLength(cfg: Config, jobs: seq<Job>, now: int)
    ensures |Surviving(cfg, jobs, now)| + |Expiring(cfg, jobs, now)| == |jobs|
    ensures AllStarts(EndedNotices(Expiring(cfg, jobs, now))) == 0
    ensures AllStarts(BeatNotices(cfg, jobs, now)) == 0
  {
    if jobs != [] {
      var n := |jobs| - 1;
      PartsLength(cfg, jobs[..n], now);
      var gone, beats := Expiring(cfg, jobs[..n], now), BeatNotices(cfg, jobs[..n], now);
      assert EndedNotices(gone + [TimeOut(jobs[n], now)]) == EndedNotices(gone) + [Ended(TimeOut(jobs[n], now))];
      AllStartsAppend(EndedNotices(gone), [Ended(TimeOut(jobs[n], now))]);
      OneStart(Ended(TimeOut(jobs[n], now)));
      AllStartsAppend(beats, [Heartbeat(Beat(jobs[n], now))]);
      OneStart(Heartbeat(Beat(jobs[n], now)));
      assert gone + [] == gone && beats + [] == beats;
    }
  }

  lemma EndCounts(s: State, job: Job)
    requires OneEach(s.active) && Has(s.active, job.id)
    ensures AllStarts(End(s, job).emitted) == AllStarts(s.emitted)
    ensures |End(s, job).active| + |End(s, job).completed| == |s.active| + |s.completed|
  {
    AllStartsAppend(s.emitted, [Ended(job)]);
    OneStart(Ended(job));
    WithoutOne(s.active, job.id);
  }

  lemma StepCounts(s: State, cfg: Config, op: Op)
    requires OneEach(s.active) && AllStarts(s.emitted) == |s.active| + |s.completed|
    ensures var t := Step(s, cfg, op); AllStarts(t.emitted) == |t.active| + |t.completed|
  {
    match op
    case HandleEvent(e) =>
      var id := BashId(e);
      if id.Some? {
        if Has(s.active, id.value) {
          var job := s.active[Find(s.active, id.value)];
          EndCounts(s, job.(status := Completed, elapsed := Elapsed(job, e.observedAt), lastOutput := Truncate(e.lastOutput)));
        } else {
          var job := Job(id.value, e.command, e.observedAt, e.observedAt, None, Running, 0);
          AllStartsAppend(s.emitted, [Started(job)]);
          OneStart(Started(job));
        }
      }
    case Timeouts(now) =>
      PartsLength(cfg, s.active, now);
      AllStartsAppend(s.emitted, EndedNotices(Expiring(cfg, s.active, now)));
    case Heartbeats(now) =>
      PartsLength(cfg, s.active, now);
      AllStartsAppend(s.emitted, BeatNotices(cfg, s.active, now));
    case CancelJob(id, now) =>
      if Has(s.active, id) {
        var job := s.active[Find(s.active, id)];
        EndCounts(s, job.(status := Cancelled, elapsed := Elapsed(job, Some(now)), lastOutput := Truncate(job.lastOutput)));
      }
  }

  lemma {:induction false} StartsCount(cfg: Config, ops: seq<Op>)
    ensures var s := After(cfg, ops); AllStarts(s.emitted) == |s.active| + |s.completed|
  {
    hide Step;
    if ops != [] {
      StartsCount(cfg, ops[..|ops| - 1]);
      RunKeeps(cfg, ops[..|ops| - 1]);
      StepCounts(After(cfg, ops[..|ops| - 1]), cfg, ops[|ops| - 1]);
    }
  }

  // ------------------------------------------------------------------- controller

  /** The controller's maps and lists. */
  class JobController {
    const cfg: Config
    var active: seq<Job>
    var completed: seq<Job>
    var emitted: seq<Notice>

    ghost function Current(): State
      reads this
    {
      State(active, completed, emitted)
    }

    ghost predicate Valid()
      reads this
    {
      Sorted(Current()) && Balanced(Current())
    }

    constructor (cfg: Config)
      ensures Valid() && Current() == EMPTY && this.cfg == cfg
    {
      this.cfg := cfg;
      active, completed, emitted := [], [], [];
    }

    /** `handleEvent`: only Bash tool events with an id count. */
    method HandleBashEvent(e: Event)
      requires Valid()
      modifies this
      ensures Valid() && Current() == Step(old(Current()), cfg, HandleEvent(e))
    {
      hide Sorted, Balanced, Find, Without, Truncate, Elapsed;
      StepKeeps(Current(), cfg, HandleEvent(e));
      if e.toolName != Some("Bash") || e.toolUseId.None? || e.toolUseId.value == "" { return; }
      var id := e.toolUseId.value;
      if e.name == "tool_started" {
        if Has(active, id) { return; }
        var job := Job(id, e.command, e.observedAt, e.observedAt, None, Running, 0);
        active := active + [job];
        emitted := emitted + [Started(job)];
      } else if e.name == "tool_finished" {
        if !Has(active, id) { return; }
        var job := active[Find(active, id)];
        MoveToCompleted(job.(status := Completed, elapsed := Elapsed(job, e.observedAt), lastOutput := Truncate(e.lastOutput)));
      }
    }

    method MoveToCompleted(job: Job)
      modifies this
      ensures Current() == End(old(Current()), job)
    {
      active := Without(active, job.id);
      completed := completed + [job];
      emitted := emitted + [Ended(job)];
    }

    /** `checkTimeouts`: a pass over the active jobs that ends those past the limit. */
    method EndTimedOut(now: int) returns (timedOut: seq<Job>)
      requires Valid()
      modifies this
      ensures Valid() && Current() == Step(old(Current()), cfg, Timeouts(now))
      ensures timedOut == Expiring(cfg, old(active), now)
    {
      hide Sorted, Balanced, Without, Surviving, Expiring, PassAt, End, EndedNotices, CheckTimeouts;
      StepKeeps(Current(), cfg, Timeouts(now));
      ghost var start := Current();
      var jobs := active;
      timedOut := [];
      PassStarts(start, cfg, now);
      for k := 0 to |jobs|
        invariant Current() == PassAt(start, cfg, now, k)
        invariant timedOut == Expiring(cfg, jobs[..k], now)
      {
        PassStep(start, cfg, now, k);
        var job := jobs[k];
        if job.startedAt.Some? && now - job.startedAt.value >= cfg.timeout {
          var ended := job.(status := TimedOut, elapsed := now - job.startedAt.value);
          MoveToCompleted(ended);
          timedOut := timedOut + [ended];
        }
      }
      PassEnds(start, cfg, now);
    }

    /** `checkHeartbeats`: a pass over the active jobs that updates those that are due. */
    method BeatDue(now: int)
      requires Valid()
      modifies this
      ensures Valid() && Current() == Step(old(Current()), cfg, Heartbeats(now))
    {
      hide Sorted, Balanced, Beaten, BeatNotices;
      StepKeeps(Current(), cfg, Heartbeats(now));
      ghost var start := Current();
      var jobs := active;
      BeatsStart(start, cfg, now);
      for k := 0 to |jobs|
        invariant Current() == BeatsAt(start, cfg, now, k)
      {
        BeatsStep(start, cfg, now, k);
        if Due(cfg, jobs[k], now) {
          var beat := Beat(jobs[k], now);
          active := active[k := beat];
          emitted := emitted + [Heartbeat(beat)];
        }
      }
      BeatsEnd(start, cfg, now);
    }

    /** `cancel`: false when the job is not active. */
    method CancelActive(id: string, now: int) returns (found: bool)
      requires Valid()
      modifies this
      ensures Valid() && Current() == Step(old(Current()), cfg, CancelJob(id, now))
      ensures found == Has(old(active), id)
    {
      hide Sorted, Balanced, Find, Without, Truncate, Elapsed;
      StepKeeps(Current(), cfg, CancelJob(id, now));
      if !Has(active, id) { return false; }
      var job := active[Find(active, id)];
      MoveToCompleted(job.(status := Cancelled, elapsed := Elapsed(job, Some(now)), lastOutput := Truncate(job.lastOutput)));
      found := true;
    }
  }

  /** The state while the timeout pass is at active job `k`. */
  function PassAt(s: State, cfg: Config, now: int, k: nat): State
    requires k <= |s.active|
  {
    var gone := Expiring(cfg, s.active[..k], now);
    State(Surviving(cfg, s.active[..k], now) + s.active[k..], s.completed + gone, s.emitted + EndedNotices(gone))
  }

  lemma PassStarts(s: State, cfg: Config, now: int)
    ensures PassAt(s, cfg, now, 0) == s && Expiring(cfg, s.active[..0], now) == []
  {
    assert s.active[..0] == [] && EndedNotices([]) == [];
    assert [] + s.active[0..] == s.active && s.completed + [] == s.completed && s.emitted + [] == s.emitted;
  }

  lemma PassEnds(s: State, cfg: Config, now: int)
    ensures PassAt(s, cfg, now, |s.active|) == CheckTimeouts(s, cfg, now)
    ensures s.active[..|s.active|] == s.active
  {
    assert s.active[..|s.active|] == s.active && s.active[|s.active|..] == [];
    assert Surviving(cfg, s.active, now) + [] == Surviving(cfg, s.active, now);
  }

  lemma PassStep(s: State, cfg: Config, now: int, k: nat)
    requires k < |s.active| && Sorted(s)
    ensures var job := s.active[k];
            PassAt(s, cfg, now, k + 1) == if Expired(cfg, job, now) then End(PassAt(s, cfg, now, k), TimeOut(job, now)) else PassAt(s, cfg, now, k)
    ensures Expiring(cfg, s.active[..k + 1], now) ==
            Expiring(cfg, s.active[..k], now) + if Expired(cfg, s.active[k], now) then [TimeOut(s.active[k], now)] else []
  {
    hide OneEach, Without, Count, Sorted;
    var job, gone := s.active[k], Expiring(cfg, s.active[..k], now);
    PartsStep(cfg, s.active, now, k);
    if Expired(cfg, job, now) {
      assert OneEach(s.active) by { SortedHas(s); }
      DropOne(Surviving(cfg, s.active[..k], now), s.active, k, cfg, now);
    } else {
      assert s.active[k..] == [job] + s.active[k + 1..];
    }
  }

  lemma SortedHas(s: State)
    requires Sorted(s)
    ensures OneEach(s.active)
  {
  }

  lemma PartsStep(cfg: Config, jobs: seq<Job>, now: int, k: nat)
    requires k < |jobs|
    ensures var gone, rest := Expiring(cfg, jobs[..k], now), Surviving(cfg, jobs[..k], now);
            && Expiring(cfg, jobs[..k + 1], now) == (if Expired(cfg, jobs[k], now) then gone + [TimeOut(jobs[k], now)] else gone)
            && Surviving(cfg, jobs[..k + 1], now) == (if Expired(cfg, jobs[k], now) then rest else rest + [jobs[k]])
  {
    assert jobs[..k + 1][..k] == jobs[..k];
  }

  /** The state while the heartbeat pass is at active job `k`. */
  function BeatsAt(s: State, cfg: Config, now: int, k: nat): State
    requires k <= |s.active|
  {
    s.(active := Beaten(cfg, s.active[..k], now) + s.active[k..], emitted := s.emitted + BeatNotices(cfg, s.active[..k], now))
  }

  lemma BeatsStart(s: State, cfg: Config, now: int)
    ensures BeatsAt(s, cfg, now, 0) == s
  {
    assert s.active[..0] == [] && Beaten(cfg, [], now) == [] && BeatNotices(cfg, [], now) == [];
    assert [] + s.active[0..] == s.active && s.emitted + [] == s.emitted;
  }

  lemma BeatsEnd(s: State, cfg: Config, now: int)
    ensures BeatsAt(s, cfg, now, |s.active|) == CheckHeartbeats(s, cfg, now)
  {
    assert s.active[..|s.active|] == s.active;
  }

  lemma BeatsStep(s: State, cfg: Config, now: int, k: nat)
    requires k < |s.active|
    ensures var job, at := s.active[k], BeatsAt(s, cfg, now, k);
            |at.active| == |s.active|
            && BeatsAt(s, cfg, now, k + 1) ==
               if Due(cfg, job, now) then at.(active := at.active[k := Beat(job, now)], emitted := at.emitted + [Heartbeat(Beat(job, now))]) else at
  {
    assert s.active[..k + 1][..k] == s.active[..k];
    var job, at := s.active[k], BeatsAt(s, cfg, now, k);
    assert Beaten(cfg, s.active[..k + 1], now) == Beaten(cfg, s.active[..k], now) + [if Due(cfg, job, now) then Beat(job, now) else job];
  }

  lemma {:induction false} WithoutAppend(a: seq<Job>, b: seq<Job>, id: string)
    ensures Without(a + b, id) == Without(a, id) + Without(b, id)
  {
    if b == [] { assert a + b == a; }
    else {
      assert (a + b)[..|a + b| - 1] == a + b[..|b| - 1];
      WithoutAppend(a, b[..|b| - 1], id);
    }
  }

  lemma {:induction false} WithoutAbsent(jobs: seq<Job>, id: string)
    requires forall k | 0 <= k < |jobs| :: jobs[k].id != id
    ensures Without(jobs, id) == jobs
  {
    if jobs != [] {
      var n := |jobs| - 1;
      WithoutAbsent(jobs[..n], id);
      assert jobs == jobs[..n] + [jobs[n]];
    }
  }

  /** Deleting the job the pass is at leaves the jobs before and after it. */
  lemma DropOne(before: seq<Job>, jobs: seq<Job>, k: nat, cfg: Config, now: int)
    requires k < |jobs| && OneEach(jobs) && before == Surviving(cfg, jobs[..k], now)
    ensures Without(before + jobs[k..], jobs[k].id) == before + jobs[k + 1..]
  {
    hide Surviving, Without, OneEach;
    var id := jobs[k].id;
    OthersDiffer(jobs, k);
    SurvivingIs(cfg, jobs[..k], now);
    assert jobs[k..] == [jobs[k]] + jobs[k + 1..];
    WithoutAppend(before, jobs[k..], id);
    WithoutAppend([jobs[k]], jobs[k + 1..], id);
    WithoutSelf(jobs[k]);
    assert forall i | 0 <= i < |before| :: before[i] in before;
    WithoutAbsent(before, id);
    WithoutAbsent(jobs[k + 1..], id);
  }

  lemma OthersDiffer(jobs: seq<Job>, k: nat)
    requires k < |jobs| && OneEach(jobs)
    ensures forall j | j in jobs[..k] :: j.id != jobs[k].id
    ensures var rest := jobs[k + 1..]; forall i | 0 <= i < |rest| :: rest[i].id != jobs[k].id
  {
  }

  lemma WithoutSelf(j: Job)
    ensures Without([j], j.id) == []
  {
    assert [j][..0] == [];
  }
}
