/** The server's request loop as interleaved steps (`main.rs`, `router.rs`).

The main loop reads a line, spawns a worker and waits for its reply or a timeout.
A worker that timed out keeps running. Write-classified handlers run under one
process-wide mutex. A handler body is a sequence of atomic operations, each an
arbitrary function of what the worker has read so far and of the store, so any
interleaving of reads and writes of different workers is a run of this machine.
*/
module RequestLoop {
  import opened Options
  import opened Protocol

  /** The files under `.handoff/`. */
  type Store = map<string, string>
  /** What a worker has computed so far. */
  type Local = seq<string>

  /** One atomic operation under the lock, and one outside it (which writes nothing). */
  datatype Op = Op(run: (Local, Store) -> (Local, Store))
  datatype Peek = Peek(run: (Local, Store) -> Local)

  /** A tool handler: its context is built before the lock question arises, and a failed
      context (`admitted` false) ends the call. `whole` is the body as a write-classified
      call runs it; `before`, `critical`, `after` is how a read-classified call runs,
      taking the lock itself if it has a critical part. */
  datatype Handler = Handler(
    context: seq<Peek>, admitted: Local -> bool,
    whole: seq<Op>, before: seq<Peek>, critical: Option<seq<Op>>, after: seq<Peek>)

  /** What a worker does for one line. */
  datatype Program = Program(context: seq<Peek>, admitted: Local -> bool, pre: seq<Peek>, locked: Option<seq<Op>>, post: seq<Peek>)

  datatype Server = Server(lines: seq<Line>, handler: nat -> Handler, reply: Local -> Reply, store: Store)

  /** The tool a line calls, when it gets as far as `handle_tools_call` with a name. */
  function ToolOf(line: Line): Option<string> {
    match RequestIn(line)
    case Some(Request("2.0", _, "tools/call", Some(Other(_, name)))) => name
    case _ => None
  }

  function ProgramOf(sv: Server, i: nat): Program
    requires i < |sv.lines|
  {
    var h := sv.handler(i);
    match ToolOf(sv.lines[i])
    case None => Program([], _ => false, [], None, [])
    case Some(name) =>
      if IsWriteTool(name) then Program(h.context, h.admitted, [], Some(h.whole), [])
      else Program(h.context, h.admitted, h.before, h.critical, h.after)
  }

  // -------------------------------------------------------------------- states

  datatype Phase = Context(k: nat) | Pre(k: nat) | Locked(k: nat) | Post(k: nat) | Finished | Dead

  datatype Worker = Worker(phase: Phase, local: Local)

  /** `Ended` at the end of input or a read error, `Broken` after a failed write. */
  datatype Main = Idle | Waiting(i: nat) | Ended | Broken

  /** One acquisition of the mutex: who, with what it had read, and how many operations it has run. */
  datatype Acquisition = Acquisition(request: nat, start: Local, done: nat)

  datatype Output = Output(request: nat, response: Response)

  /** `acquired` and `timedOut` record history; the rest is what the process holds. */
  datatype State = State(
    main: Main, workers: seq<Worker>, holder: Option<nat>, store: Store,
    out: seq<Output>, acquired: seq<Acquisition>, timedOut: set<nat>)

  function Initial(sv: Server): State {
    State(Idle, [], None, sv.store, [], [], {})
  }

  predicate Live(w: Worker) { !w.phase.Finished? && !w.phase.Dead? }

  // --------------------------------------------------------------------- steps

  /** Reads the next line and spawns its worker, or stops at the end of input. */
  predicate ReadLine(sv: Server, s: State, s': State) {
    s.main.Idle? && |s.workers| < |sv.lines|
    && s' == s.(main := Waiting(|s.workers|), workers := s.workers + [Worker(Context(0), [])])
  }

  predicate StopReading(s: State, s': State) {
    s.main.Idle? && s' == s.(main := Ended)
  }

  function Answer(sv: Server, i: nat, w: Worker): Option<Response>
    requires i < |sv.lines|
  {
    ProcessLine(sv.lines[i], sv.reply(w.local))
  }

  /** The reply arrives in time; a failing write ends the loop. */
  predicate Receive(sv: Server, s: State, s': State) {
    s.main.Waiting? && s.main.i < |s.workers| && s.main.i < |sv.lines| && s.workers[s.main.i].phase.Finished?
    && var r := Answer(sv, s.main.i, s.workers[s.main.i]);
       if r.None? then s' == s.(main := Idle)
       else s' == s.(main := Idle, out := s.out + [Output(s.main.i, r.value)]) || s' == s.(main := Broken)
  }

  /** `recv_timeout` gives up: the channel is dropped, the worker is not. */
  predicate Timeout(sv: Server, s: State, s': State) {
    s.main.Waiting? && s.main.i < |sv.lines|
    && var t := s.(main := Idle, timedOut := s.timedOut + {s.main.i});
       s' == t.(out := s.out + [Output(s.main.i, TimeoutResponse(sv.lines[s.main.i]))]) || s' == t.(main := Broken)
  }

  /** The worker panicked; nothing is written. */
  predicate Disconnected(s: State, s': State) {
    s.main.Waiting? && s.main.i < |s.workers| && s.workers[s.main.i].phase.Dead? && s' == s.(main := Idle)
  }

  function SetWorker(s: State, i: nat, w: Worker): State
    requires i < |s.workers|
  {
    s.(workers := s.workers[i := w])
  }

  /** One operation outside the lock, or the end of the worker. */
  predicate RunFree(sv: Server, s: State, i: nat, s': State)
    requires i < |s.workers| && i < |sv.lines|
  {
    var w, p := s.workers[i], ProgramOf(sv, i);
    match w.phase
    case Context(k) =>
      if k < |p.context| then s' == SetWorker(s, i, Worker(Context(k + 1), p.context[k].run(w.local, s.store)))
      else s' == SetWorker(s, i, w.(phase := if p.admitted(w.local) then Pre(0) else Post(|p.post|)))
    case Pre(k) =>
      if k < |p.pre| then s' == SetWorker(s, i, Worker(Pre(k + 1), p.pre[k].run(w.local, s.store)))
      else p.locked.None? && s' == SetWorker(s, i, w.(phase := Post(0)))
    case Post(k) =>
      if k < |p.post| then s' == SetWorker(s, i, Worker(Post(k + 1), p.post[k].run(w.local, s.store)))
      else s' == SetWorker(s, i, w.(phase := Finished))
    case _ => false
  }

  predicate WantsLock(sv: Server, s: State, i: nat)
    requires i < |s.workers| && i < |sv.lines|
  {
    s.workers[i].phase == Pre(|ProgramOf(sv, i).pre|) && ProgramOf(sv, i).locked.Some?
  }

  predicate Acquire(sv: Server, s: State, i: nat, s': State)
    requires i < |s.workers| && i < |sv.lines|
  {
    WantsLock(sv, s, i) && s.holder.None?
    && s' == SetWorker(s, i, s.workers[i].(phase := Locked(0))).(
               holder := Some(i), acquired := s.acquired + [Acquisition(i, s.workers[i].local, 0)])
  }

  /** One operation under the lock, or its release. */
  predicate RunLocked(sv: Server, s: State, i: nat, s': State)
    requires i < |s.workers| && i < |sv.lines|
  {
    var w, p := s.workers[i], ProgramOf(sv, i);
    w.phase.Locked? && p.locked.Some? && s.acquired != []
    && if w.phase.k < |p.locked.value| then
         var (local, store) := p.locked.value[w.phase.k].run(w.local, s.store);
         var n := |s.acquired| - 1;
         s' == SetWorker(s, i, Worker(Locked(w.phase.k + 1), local)).(
                 store := store, acquired := s.acquired[n := s.acquired[n].(done := w.phase.k + 1)])
       else s' == SetWorker(s, i, w.(phase := Post(0))).(holder := None)
  }

  /** A panic ends the worker anywhere; unwinding releases the lock and poisoning is ignored. */
  predicate Panic(s: State, i: nat, s': State)
    requires i < |s.workers|
  {
    Live(s.workers[i])
    && s' == SetWorker(s, i, s.workers[i].(phase := Dead)).(holder := if s.workers[i].phase.Locked? then None else s.holder)
  }

  predicate MainStep(sv: Server, s: State, s': State) {
    ReadLine(sv, s, s') || StopReading(s, s') || Receive(sv, s, s') || Timeout(sv, s, s') || Disconnected(s, s')
  }

  predicate WorkerStep(sv: Server, s: State, i: nat, s': State)
    requires i < |s.workers| && i < |sv.lines|
  {
    RunFree(sv, s, i, s') || Acquire(sv, s, i, s') || RunLocked(sv, s, i, s') || Panic(s, i, s')
  }

  ghost predicate Step(sv: Server, s: State, s': State) {
    MainStep(sv, s, s') || exists i: nat :: i < |s.workers| && i < |sv.lines| && WorkerStep(sv, s, i, s')
  }

  ghost predicate IsRun(sv: Server, run: seq<State>) {
    |run| > 0 && run[0] == Initial(sv) && forall k | 0 <= k < |run| - 1 :: Step(sv, run[k], run[k + 1])
  }

  // ------------------------------------------------------------------ invariant

  /** `recv_timeout` waits for the youngest worker only; every other live worker timed out. */
  ghost predicate MainInv(sv: Server, s: State) {
    && |s.workers| <= |sv.lines|
    && (s.main.Waiting? ==> s.main.i == |s.workers| - 1 && s.main.i !in s.timedOut)
    && (forall i | i in s.timedOut :: i < |s.workers|)
    && (forall i | 0 <= i < |s.workers| && Live(s.workers[i]) :: s.main == Waiting(i) || i in s.timedOut)
  }

  /** The mutex is held exactly by the one worker inside its locked part. */
  ghost predicate LockInv(sv: Server, s: State) {
    && |s.workers| <= |sv.lines|
    && (forall i | 0 <= i < |s.workers| :: s.workers[i].phase.Locked? <==> s.holder == Some(i))
    && (forall i | s.holder == Some(i) ::
          && i < |s.workers| && ProgramOf(sv, i).locked.Some? && s.acquired != []
          && var last := s.acquired[|s.acquired| - 1];
             last.request == i && s.workers[i].phase == Locked(last.done) && last.done <= |ProgramOf(sv, i).locked.value|)
  }

  function OpsOf(sv: Server, i: nat): seq<Op> {
    if i < |sv.lines| && ProgramOf(sv, i).locked.Some? then ProgramOf(sv, i).locked.value else []
  }

  /** A worker before its locked part has not acquired; one past it ran all of it. */
  ghost predicate LogInv(sv: Server, s: State) {
    && (forall a, b | 0 <= a < b < |s.acquired| :: s.acquired[a].request != s.acquired[b].request)
    && (forall a | 0 <= a < |s.acquired| :: Logged(sv, s.workers, s.acquired[a]))
  }

  ghost predicate Logged(sv: Server, workers: seq<Worker>, a: Acquisition) {
    && a.request < |workers| <= |sv.lines| && ProgramOf(sv, a.request).locked.Some?
    && a.done <= |OpsOf(sv, a.request)|
    && var ph := workers[a.request].phase;
       && !ph.Context? && !ph.Pre? && (ph.Locked? ==> ph.k == a.done)
       && (ph.Post? || ph.Finished? ==> a.done == |OpsOf(sv, a.request)|)
  }

  predicate HasAcquired(log: seq<Acquisition>, i: nat) {
    exists a | a in log :: a.request == i
  }

  /** A worker past its locked part took the lock, unless its context was refused. */
  ghost predicate CompleteInv(sv: Server, s: State) {
    && |s.workers| <= |sv.lines|
    && forall i | 0 <= i < |s.workers| :: Completed(sv, s, i)
  }

  predicate Completed(sv: Server, s: State, i: nat)
    requires i < |s.workers| <= |sv.lines|
  {
    var w, p := s.workers[i], ProgramOf(sv, i);
    p.locked.Some? ==>
      && (w.phase.Locked? ==> HasAcquired(s.acquired, i))
      && (w.phase.Post? || w.phase.Finished? ==>
            HasAcquired(s.acquired, i) || (!p.admitted(w.local) && (w.phase.Post? ==> w.phase.k == |p.post|)))
  }

  function RunOps(ops: seq<Op>, local: Local, store: Store): (Local, Store) {
    if ops == [] then (local, store)
    else var before := RunOps(ops[..|ops| - 1], local, store); ops[|ops| - 1].run(before.0, before.1)
  }

  /** What an acquisition alone leaves, run without interruption. */
  function Effect(sv: Server, a: Acquisition, store: Store): (Local, Store)
    requires a.done <= |OpsOf(sv, a.request)|
  {
    RunOps(OpsOf(sv, a.request)[..a.done], a.start, store)
  }

  ghost predicate Bounded(sv: Server, log: seq<Acquisition>) {
    forall k | 0 <= k < |log| :: log[k].done <= |OpsOf(sv, log[k].request)|
  }

  /** The locked parts one after another, in the order in which the lock was taken. */
  ghost function Serial(sv: Server, log: seq<Acquisition>): Store
    requires Bounded(sv, log)
  {
    if log == [] then sv.store else Effect(sv, log[|log| - 1], Serial(sv, log[..|log| - 1])).1
  }

  ghost predicate StoreInv(sv: Server, s: State) {
    && Bounded(sv, s.acquired)
    && s.store == Serial(sv, s.acquired)
    && (forall i | s.holder == Some(i) && s.acquired != [] && i < |s.workers| ::
          s.workers[i].local ==
          Effect(sv, s.acquired[|s.acquired| - 1], Serial(sv, s.acquired[..|s.acquired| - 1])).0)
  }

  /** A younger request overtakes an older one only if the older one timed out. */
  ghost predicate OrderInv(s: State) {
    forall a, b | 0 <= a < b < |s.acquired| && s.acquired[a].request > s.acquired[b].request :: s.acquired[b].request in s.timedOut
  }

  ghost predicate Increasing(out: seq<Output>) {
    forall a, b | 0 <= a < b < |out| :: out[a].request < out[b].request
  }

  /** The answer of request `i`, if any: its own in time, or the timeout's. */
  function Expected(sv: Server, s: State, i: nat): Option<Response>
    requires i < |s.workers| <= |sv.lines|
  {
    if i in s.timedOut then Some(TimeoutResponse(sv.lines[i]))
    else if s.workers[i].phase.Finished? then Answer(sv, i, s.workers[i]) else None
  }

  predicate HasOutput(out: seq<Output>, i: nat, r: Response) {
    Output(i, r) in out
  }

  /** The loop has moved on from line `i`, and it was not this line's answer that failed to be written. */
  predicate DealtWith(s: State, i: nat) {
    s.main != Waiting(i) && !(s.main.Broken? && i + 1 == |s.workers|)
  }

  /** Output is in request order and says of each handled request exactly what is expected. */
  ghost predicate OutInv(sv: Server, s: State) {
    && |s.workers| <= |sv.lines|
    && Increasing(s.out)
    && (forall o | o in s.out :: o.request < |s.workers| && s.main != Waiting(o.request)
                                 && Expected(sv, s, o.request) == Some(o.response))
    && (forall i: nat | i < |s.workers| && DealtWith(s, i) && Expected(sv, s, i).Some? ::
          HasOutput(s.out, i, Expected(sv, s, i).value))
  }

  ghost predicate Inv(sv: Server, s: State) {
    MainInv(sv, s) && LockInv(sv, s) && LogInv(sv, s) && StoreInv(sv, s) && OrderInv(s) && OutInv(sv, s) && CompleteInv(sv, s)
  }

  // ----------------------------------------------------------------- main steps

  /** A step of one worker that keeps the log's requests keeps every other worker complete. */
  lemma OthersComplete(sv: Server, s: State, i: nat, s': State)
    requires CompleteInv(sv, s) && i < |s.workers| == |s'.workers|
    requires forall j | 0 <= j < |s.workers| && j != i :: s'.workers[j] == s.workers[j]
    requires forall j: nat | HasAcquired(s.acquired, j) :: HasAcquired(s'.acquired, j)
    requires Completed(sv, s', i)
    ensures CompleteInv(sv, s')
  {
    forall j | 0 <= j < |s.workers| ensures Completed(sv, s', j) {
      if j != i { assert Completed(sv, s, j); }
    }
  }

  lemma AnsweringKeepsComplete(sv: Server, s: State, s': State)
    requires CompleteInv(sv, s) && s'.workers == s.workers && s'.acquired == s.acquired
    ensures CompleteInv(sv, s')
  {
    forall j | 0 <= j < |s.workers| ensures Completed(sv, s', j) { assert Completed(sv, s, j); }
  }

  lemma ReadLineKeeps(sv: Server, s: State, s': State)
    requires Inv(sv, s) && ReadLine(sv, s, s')
    ensures Inv(sv, s')
  {
    hide ProgramOf, Serial, Effect, TimeoutResponse, Answer;
    forall a | 0 <= a < |s.acquired| ensures Logged(sv, s'.workers, s.acquired[a]) {
      assert Logged(sv, s.workers, s.acquired[a]);
    }
    forall i: nat | i < |s.workers| ensures Expected(sv, s', i) == Expected(sv, s, i) {}
    forall j | 0 <= j < |s'.workers| ensures Completed(sv, s', j) { assert j < |s.workers| ==> Completed(sv, s, j); }
  }

  lemma AppendOutput(sv: Server, s: State, o: Output)
    requires OutInv(sv, s) && s.main == Waiting(o.request) && o.request == |s.workers| - 1
    ensures Increasing(s.out + [o])
  {
    forall k | 0 <= k < |s.out| ensures s.out[k].request < o.request { assert s.out[k] in s.out; }
  }

  /** Answering touches neither workers, lock nor store. */
  lemma AnsweringKeepsLock(sv: Server, s: State, s': State)
    requires LockInv(sv, s) && LogInv(sv, s) && StoreInv(sv, s) && OrderInv(s)
    requires s'.workers == s.workers && s'.holder == s.holder && s'.store == s.store && s'.acquired == s.acquired
    requires s.timedOut <= s'.timedOut
    ensures LockInv(sv, s') && LogInv(sv, s') && StoreInv(sv, s') && OrderInv(s')
  {
  }

  lemma ReceiveKeepsOut(sv: Server, s: State, s': State)
    requires MainInv(sv, s) && OutInv(sv, s) && Receive(sv, s, s')
    ensures OutInv(sv, s')
  {
    var i := s.main.i;
    var r := Answer(sv, i, s.workers[i]);
    forall j: nat | j < |s.workers| ensures Expected(sv, s', j) == Expected(sv, s, j) {}
    if r.Some? {
      var o := Output(i, r.value);
      AppendOutput(sv, s, o);
      assert o in s.out + [o];
      assert forall p | p in s.out :: p in s.out + [o];
    }
  }

  lemma TimeoutKeepsOut(sv: Server, s: State, s': State)
    requires MainInv(sv, s) && OutInv(sv, s) && Timeout(sv, s, s')
    ensures OutInv(sv, s')
  {
    var i := s.main.i;
    var o := Output(i, TimeoutResponse(sv.lines[i]));
    AppendOutput(sv, s, o);
    assert o in s.out + [o];
    assert forall p | p in s.out :: p in s.out + [o];
    forall j: nat | j < |s.workers| && j != i ensures Expected(sv, s', j) == Expected(sv, s, j) {}
  }

  lemma ReceiveKeeps(sv: Server, s: State, s': State)
    requires Inv(sv, s) && Receive(sv, s, s')
    ensures Inv(sv, s')
  {
    hide ProgramOf, Serial, Effect, TimeoutResponse, Answer, OutInv, LockInv, CompleteInv, StoreInv;
    ReceiveKeepsOut(sv, s, s');
    AnsweringKeepsLock(sv, s, s');
    AnsweringKeepsComplete(sv, s, s');
  }

  lemma TimeoutKeeps(sv: Server, s: State, s': State)
    requires Inv(sv, s) && Timeout(sv, s, s')
    ensures Inv(sv, s')
  {
    hide ProgramOf, Serial, Effect, TimeoutResponse, Answer, OutInv, LockInv, CompleteInv, StoreInv;
    TimeoutKeepsOut(sv, s, s');
    AnsweringKeepsLock(sv, s, s');
    AnsweringKeepsComplete(sv, s, s');
  }

  lemma DisconnectedKeeps(sv: Server, s: State, s': State)
    requires Inv(sv, s) && (Disconnected(s, s') || StopReading(s, s'))
    ensures Inv(sv, s')
  {
    hide ProgramOf, Serial, Effect, TimeoutResponse, Answer;
    forall j: nat | j < |s.workers| ensures Expected(sv, s', j) == Expected(sv, s, j) {}
    AnsweringKeepsComplete(sv, s, s');
  }

  // --------------------------------------------------------------- worker steps

  /** A worker step changes one worker that has not finished, so no answer changes. */
  lemma WorkerKeepsOut(sv: Server, s: State, i: nat, s': State)
    requires MainInv(sv, s) && OutInv(sv, s) && i < |s.workers| && Live(s.workers[i])
    requires |s'.workers| == |s.workers| && forall j | 0 <= j < |s.workers| && j != i :: s'.workers[j] == s.workers[j]
    requires s'.main == s.main && s'.out == s.out && s'.timedOut == s.timedOut
    ensures OutInv(sv, s')
    ensures MainInv(sv, s')
  {
    forall j: nat | j < |s.workers| && s.main != Waiting(j) ensures Expected(sv, s', j) == Expected(sv, s, j) {}
  }

  /** A worker outside the lock that stays outside, and does not go back before it. */
  ghost predicate FreeMove(sv: Server, s: State, i: nat, s': State)
    requires i < |s.workers| <= |sv.lines|
  {
    var w, p := s.workers[i].phase, ProgramOf(sv, i);
    && (exists w' :: s' == SetWorker(s, i, w'))
    && Live(s.workers[i]) && !w.Locked? && !s'.workers[i].phase.Locked?
    && (w.Post? ==> s'.workers[i].phase.Post? || s'.workers[i].phase.Finished?)
  }

  lemma RunFreeMoves(sv: Server, s: State, i: nat, s': State)
    requires i < |s.workers| <= |sv.lines| && RunFree(sv, s, i, s')
    ensures FreeMove(sv, s, i, s')
  {
    assert s' == SetWorker(s, i, s'.workers[i]);
  }

  lemma FreeKeepsLock(sv: Server, s: State, i: nat, s': State)
    requires LockInv(sv, s) && i < |s.workers| && FreeMove(sv, s, i, s')
    ensures LockInv(sv, s')
  {
  }

  lemma FreeKeepsLog(sv: Server, s: State, i: nat, s': State)
    requires LogInv(sv, s) && i < |s.workers| <= |sv.lines| && FreeMove(sv, s, i, s')
    ensures LogInv(sv, s')
  {
    forall a | 0 <= a < |s.acquired| ensures Logged(sv, s'.workers, s.acquired[a]) {
      assert Logged(sv, s.workers, s.acquired[a]);
    }
  }

  lemma FreeKeepsStore(sv: Server, s: State, i: nat, s': State)
    requires LockInv(sv, s) && StoreInv(sv, s) && i < |s.workers| && FreeMove(sv, s, i, s')
    ensures StoreInv(sv, s')
  {
  }

  /** Steps outside the lock leave lock, log and store alone. */
  lemma RunFreeKeeps(sv: Server, s: State, i: nat, s': State)
    requires Inv(sv, s) && i < |s.workers| && i < |sv.lines| && RunFree(sv, s, i, s')
    ensures Inv(sv, s')
  {
    RunFreeMoves(sv, s, i, s');
    WorkerKeepsOut(sv, s, i, s');
    FreeKeepsLock(sv, s, i, s');
    FreeKeepsLog(sv, s, i, s');
    FreeKeepsStore(sv, s, i, s');
    assert Completed(sv, s, i);
    OthersComplete(sv, s, i, s');
  }

  lemma AcquireKeepsLog(sv: Server, s: State, i: nat, s': State)
    requires LogInv(sv, s) && i < |s.workers| <= |sv.lines| && Acquire(sv, s, i, s')
    ensures LogInv(sv, s')
  {
    forall a | 0 <= a < |s.acquired| ensures Logged(sv, s'.workers, s.acquired[a]) && s.acquired[a].request != i {
      assert Logged(sv, s.workers, s.acquired[a]);
    }
    assert Logged(sv, s'.workers, s'.acquired[|s.acquired|]);
  }

  lemma AcquireKeepsStore(sv: Server, s: State, i: nat, s': State)
    requires StoreInv(sv, s) && i < |s.workers| <= |sv.lines| && Acquire(sv, s, i, s')
    ensures StoreInv(sv, s')
  {
    var e := Acquisition(i, s.workers[i].local, 0);
    assert s'.acquired[..|s.acquired|] == s.acquired;
    assert Serial(sv, s'.acquired) == Effect(sv, e, Serial(sv, s.acquired)).1;
  }

  lemma AcquireKeepsOrder(sv: Server, s: State, i: nat, s': State)
    requires MainInv(sv, s) && LogInv(sv, s) && OrderInv(s) && i < |s.workers| && Acquire(sv, s, i, s')
    ensures OrderInv(s')
  {
    forall a | 0 <= a < |s.acquired| && s.acquired[a].request > i ensures i in s.timedOut {
      assert Logged(sv, s.workers, s.acquired[a]);
    }
  }

  lemma AcquireKeeps(sv: Server, s: State, i: nat, s': State)
    requires Inv(sv, s) && i < |s.workers| && i < |sv.lines| && Acquire(sv, s, i, s')
    ensures Inv(sv, s')
  {
    WorkerKeepsOut(sv, s, i, s');
    assert LockInv(sv, s');
    AcquireKeepsLog(sv, s, i, s');
    AcquireKeepsStore(sv, s, i, s');
    AcquireKeepsOrder(sv, s, i, s');
    AcquireCompletes(sv, s, i, s');
  }

  lemma AcquireCompletes(sv: Server, s: State, i: nat, s': State)
    requires CompleteInv(sv, s) && i < |s.workers| && Acquire(sv, s, i, s')
    ensures CompleteInv(sv, s')
  {
    var e := Acquisition(i, s.workers[i].local, 0);
    assert e in s'.acquired;
    forall j: nat | HasAcquired(s.acquired, j) ensures HasAcquired(s'.acquired, j) {
      var a :| a in s.acquired && a.request == j;
      assert a in s'.acquired;
    }
    OthersComplete(sv, s, i, s');
  }

  lemma EffectNext(sv: Server, a: Acquisition, store: Store)
    requires a.done < |OpsOf(sv, a.request)|
    ensures Effect(sv, a.(done := a.done + 1), store) ==
            var before := Effect(sv, a, store); OpsOf(sv, a.request)[a.done].run(before.0, before.1)
  {
    var ops := OpsOf(sv, a.request);
    assert ops[..a.done + 1][..a.done] == ops[..a.done];
  }

  lemma LockedKeepsLock(sv: Server, s: State, i: nat, s': State)
    requires LockInv(sv, s) && i < |s.workers| && RunLocked(sv, s, i, s')
    ensures LockInv(sv, s')
  {
    assert s.holder == Some(i);
  }

  lemma LockedKeepsLog(sv: Server, s: State, i: nat, s': State)
    requires LockInv(sv, s) && LogInv(sv, s) && i < |s.workers| && RunLocked(sv, s, i, s')
    ensures LogInv(sv, s')
    ensures |s'.acquired| == |s.acquired| && forall a | 0 <= a < |s.acquired| :: s'.acquired[a].request == s.acquired[a].request
  {
    assert s.holder == Some(i);
    forall a | 0 <= a < |s.acquired| ensures Logged(sv, s'.workers, s'.acquired[a]) && s'.acquired[a].request == s.acquired[a].request {
      assert Logged(sv, s.workers, s.acquired[a]);
    }
  }

  /** One more operation of the last acquisition extends the serial run by just that operation. */
  lemma SerialNext(sv: Server, log: seq<Acquisition>)
    requires Bounded(sv, log) && log != [] && log[|log| - 1].done < |OpsOf(sv, log[|log| - 1].request)|
    ensures var n := |log| - 1;
            var log' := log[n := log[n].(done := log[n].done + 1)];
            var before := Effect(sv, log[n], Serial(sv, log[..n]));
            var after := OpsOf(sv, log[n].request)[log[n].done].run(before.0, before.1);
            && Bounded(sv, log') && log'[..n] == log[..n] && Serial(sv, log) == before.1
            && Effect(sv, log'[n], Serial(sv, log'[..n])) == after && Serial(sv, log') == after.1
  {
    var n := |log| - 1;
    EffectNext(sv, log[n], Serial(sv, log[..n]));
    assert log[n := log[n].(done := log[n].done + 1)][..n] == log[..n];
  }

  lemma OpKeepsStore(sv: Server, s: State, i: nat, s': State)
    requires StoreInv(sv, s) && i < |s.workers| && s.acquired != [] && s.holder == Some(i) == s'.holder
    requires var n := |s.acquired| - 1;
             && s.acquired[n].request == i && s.acquired[n].done < |OpsOf(sv, i)|
             && s'.acquired == s.acquired[n := s.acquired[n].(done := s.acquired[n].done + 1)]
             && |s'.workers| == |s.workers|
             && var r := OpsOf(sv, i)[s.acquired[n].done].run(s.workers[i].local, s.store);
                s'.workers[i].local == r.0 && s'.store == r.1
    ensures StoreInv(sv, s')
  {
    SerialNext(sv, s.acquired);
  }

  lemma LockedKeepsStore(sv: Server, s: State, i: nat, s': State)
    requires LockInv(sv, s) && StoreInv(sv, s) && i < |s.workers| && RunLocked(sv, s, i, s')
    ensures StoreInv(sv, s')
  {
    assert s.holder == Some(i);
    if s.workers[i].phase.k < |ProgramOf(sv, i).locked.value| {
      OpKeepsStore(sv, s, i, s');
    }
  }

  lemma RunLockedKeeps(sv: Server, s: State, i: nat, s': State)
    requires Inv(sv, s) && i < |s.workers| && i < |sv.lines| && RunLocked(sv, s, i, s')
    ensures Inv(sv, s')
  {
    WorkerKeepsOut(sv, s, i, s');
    LockedKeepsLock(sv, s, i, s');
    LockedKeepsLog(sv, s, i, s');
    LockedKeepsStore(sv, s, i, s');
    LockedCompletes(sv, s, i, s');
  }

  lemma LockedCompletes(sv: Server, s: State, i: nat, s': State)
    requires CompleteInv(sv, s) && i < |s.workers| && RunLocked(sv, s, i, s')
    requires |s'.acquired| == |s.acquired| && forall a | 0 <= a < |s.acquired| :: s'.acquired[a].request == s.acquired[a].request
    ensures CompleteInv(sv, s')
  {
    forall j: nat | HasAcquired(s.acquired, j) ensures HasAcquired(s'.acquired, j) {
      var k :| 0 <= k < |s.acquired| && s.acquired[k].request == j;
      assert s'.acquired[k] in s'.acquired;
    }
    assert Completed(sv, s, i);
    OthersComplete(sv, s, i, s');
  }

  lemma PanicKeeps(sv: Server, s: State, i: nat, s': State)
    requires Inv(sv, s) && i < |s.workers| && i < |sv.lines| && Panic(s, i, s')
    ensures Inv(sv, s')
  {
    hide ProgramOf, Serial, Effect, TimeoutResponse, Answer;
    WorkerKeepsOut(sv, s, i, s');
    OthersComplete(sv, s, i, s');
    forall a | 0 <= a < |s.acquired| ensures Logged(sv, s'.workers, s.acquired[a]) {
      assert Logged(sv, s.workers, s.acquired[a]);
    }
  }

  lemma StepKeeps(sv: Server, s: State, s': State)
    requires Inv(sv, s) && Step(sv, s, s')
    ensures Inv(sv, s')
  {
    if ReadLine(sv, s, s') { ReadLineKeeps(sv, s, s'); }
    else if Receive(sv, s, s') { ReceiveKeeps(sv, s, s'); }
    else if Timeout(sv, s, s') { TimeoutKeeps(sv, s, s'); }
    else if Disconnected(s, s') || StopReading(s, s') { DisconnectedKeeps(sv, s, s'); }
    else {
      var i: nat :| i < |s.workers| && i < |sv.lines| && WorkerStep(sv, s, i, s');
      if RunFree(sv, s, i, s') { RunFreeKeeps(sv, s, i, s'); }
      else if Acquire(sv, s, i, s') { AcquireKeeps(sv, s, i, s'); }
      else if RunLocked(sv, s, i, s') { RunLockedKeeps(sv, s, i, s'); }
      else { PanicKeeps(sv, s, i, s'); }
    }
  }

  lemma {:induction false} RunKeeps(sv: Server, run: seq<State>, k: nat)
    requires IsRun(sv, run) && k < |run|
    ensures Inv(sv, run[k])
  {
    if k > 0 {
      RunKeeps(sv, run, k - 1);
      assert Step(sv, run[k - 1], run[k - 1 + 1]);
      StepKeeps(sv, run[k - 1], run[k]);
    }
  }

  // --------------------------------------------------------------- main results

  /** Writes are serializable: no two locked parts overlap, the store is what running them
      one after another in lock-acquisition order leaves, no request takes the lock twice,
      and a worker that finished after taking it ran its whole locked part. */
  lemma {:induction false} WritesSerialize(sv: Server, run: seq<State>, n: nat)
    requires IsRun(sv, run) && n < |run|
    ensures var s := run[n];
            && |s.workers| <= |sv.lines|
            && (forall i, j | 0 <= i < |s.workers| && 0 <= j < |s.workers| && s.workers[i].phase.Locked? && s.workers[j].phase.Locked? :: i == j)
            && Bounded(sv, s.acquired) && s.store == Serial(sv, s.acquired)
            && (forall a, b | 0 <= a < b < |s.acquired| :: s.acquired[a].request != s.acquired[b].request)
            && (forall a | a in s.acquired && a.request < |s.workers| && s.workers[a.request].phase.Finished? :: a.done == |OpsOf(sv, a.request)|)
  {
    RunKeeps(sv, run, n);
    var s := run[n];
    forall a | a in s.acquired && a.request < |s.workers| && s.workers[a.request].phase.Finished?
      ensures a.done == |OpsOf(sv, a.request)|
    {
      assert Logged(sv, s.workers, a);
    }
  }

  /** A write-classified call that finished ran under the lock, or its context was refused. */
  lemma {:induction false} WritesTakeTheLock(sv: Server, run: seq<State>, n: nat, i: nat)
    requires IsRun(sv, run) && n < |run| && i < |run[n].workers| <= |sv.lines| && run[n].workers[i].phase.Finished?
    requires exists id, text, name ::
               RequestIn(sv.lines[i]) == Some(Request("2.0", id, "tools/call", Some(Other(text, Some(name))))) && name !in READ_ONLY_TOOLS
    ensures HasAcquired(run[n].acquired, i) || !sv.handler(i).admitted(run[n].workers[i].local)
  {
    RunKeeps(sv, run, n);
    assert Completed(sv, run[n], i);
  }

  /** Requests overtake one another only past a timeout; without timeouts writes run in
      request order and one worker at a time is live. */
  lemma {:induction false} RequestOrder(sv: Server, run: seq<State>, n: nat)
    requires IsRun(sv, run) && n < |run|
    ensures var s := run[n];
            && (forall a, b | 0 <= a < b < |s.acquired| && s.acquired[a].request > s.acquired[b].request ::
                  s.acquired[b].request in s.timedOut)
            && (s.timedOut == {} ==>
                  && (forall a, b | 0 <= a < b < |s.acquired| :: s.acquired[a].request < s.acquired[b].request)
                  && (forall i, j | 0 <= i < |s.workers| && 0 <= j < |s.workers| && Live(s.workers[i]) && Live(s.workers[j]) :: i == j))
  {
    RunKeeps(sv, run, n);
  }

  /** Worker `i` has no step but a panic. */
  ghost predicate Blocked(sv: Server, s: State, i: nat)
    requires i < |s.workers| && i < |sv.lines|
  {
    forall s' :: !RunFree(sv, s, i, s') && !Acquire(sv, s, i, s') && !RunLocked(sv, s, i, s')
  }

  /** The next state of a worker that is neither finished nor waiting for the lock. */
  function Advance(sv: Server, s: State, i: nat): State
    requires i < |s.workers| && i < |sv.lines|
  {
    var w, p := s.workers[i], ProgramOf(sv, i);
    match w.phase
    case Context(k) =>
      if k < |p.context| then SetWorker(s, i, Worker(Context(k + 1), p.context[k].run(w.local, s.store)))
      else SetWorker(s, i, w.(phase := if p.admitted(w.local) then Pre(0) else Post(|p.post|)))
    case Pre(k) =>
      if k < |p.pre| then SetWorker(s, i, Worker(Pre(k + 1), p.pre[k].run(w.local, s.store)))
      else if p.locked.None? then SetWorker(s, i, w.(phase := Post(0)))
      else SetWorker(s, i, w.(phase := Locked(0))).(
             holder := Some(i), acquired := s.acquired + [Acquisition(i, w.local, 0)])
    case Locked(k) =>
      if p.locked.Some? && s.acquired != [] && k < |p.locked.value| then
        var r := p.locked.value[k].run(w.local, s.store);
        var n := |s.acquired| - 1;
        SetWorker(s, i, Worker(Locked(k + 1), r.0)).(store := r.1, acquired := s.acquired[n := s.acquired[n].(done := k + 1)])
      else SetWorker(s, i, w.(phase := Post(0))).(holder := None)
    case Post(k) =>
      if k < |p.post| then SetWorker(s, i, Worker(Post(k + 1), p.post[k].run(w.local, s.store)))
      else SetWorker(s, i, w.(phase := Finished))
    case _ => s
  }

  /** The line calls a listed tool whose handler takes no lock, or it calls no tool. */
  ghost predicate ReadsWithoutLock(sv: Server, i: nat)
    requires i < |sv.lines|
  {
    match RequestIn(sv.lines[i])
    case None => true
    case Some(request) =>
      || request.version != "2.0" || request.method_ != "tools/call"
      || (request.params.Some? && request.params.value.Other? && request.params.value.name.Some?
          && request.params.value.name.value in READ_ONLY_TOOLS && sv.handler(i).critical.None?)
  }

  /** Nobody waits except for the lock while another worker holds it; in particular a call
      without a locked part never waits. */
  lemma {:induction false} BlockedExactly(sv: Server, run: seq<State>, n: nat, i: nat)
    requires IsRun(sv, run) && n < |run| && i < |run[n].workers| && i < |sv.lines| && Live(run[n].workers[i])
    ensures Blocked(sv, run[n], i) <==> WantsLock(sv, run[n], i) && run[n].holder.Some?
    ensures !Blocked(sv, run[n], i) ==> Step(sv, run[n], Advance(sv, run[n], i))
    ensures ProgramOf(sv, i).locked.None? ==> !Blocked(sv, run[n], i)
    ensures ReadsWithoutLock(sv, i) ==> !Blocked(sv, run[n], i)
  {
    RunKeeps(sv, run, n);
    if !(WantsLock(sv, run[n], i) && run[n].holder.Some?) { CanAdvance(sv, run, n, i); }
  }

  predicate PreAt(sv: Server, s: State, i: nat)
    requires i < |s.workers| && i < |sv.lines|
  {
    s.workers[i].phase.Pre? ==> s.workers[i].phase.k <= |ProgramOf(sv, i).pre|
  }

  lemma StepPreAt(sv: Server, s: State, s': State, i: nat)
    requires Step(sv, s, s') && i < |s'.workers| && i < |sv.lines|
    requires i < |s.workers| ==> PreAt(sv, s, i)
    ensures PreAt(sv, s', i)
  {
    hide ProgramOf, Answer, TimeoutResponse;
  }

  lemma {:induction false} PreInRange(sv: Server, run: seq<State>, n: nat, i: nat)
    requires IsRun(sv, run) && n < |run| && i < |run[n].workers| && i < |sv.lines|
    ensures PreAt(sv, run[n], i)
  {
    hide Step, PreAt;
    if n > 0 {
      assert Step(sv, run[n - 1], run[n - 1 + 1]);
      if i < |run[n - 1].workers| { PreInRange(sv, run, n - 1, i); }
      StepPreAt(sv, run[n - 1], run[n], i);
    }
  }

  lemma CanAdvance(sv: Server, run: seq<State>, n: nat, i: nat)
    requires IsRun(sv, run) && n < |run| && i < |run[n].workers| && i < |sv.lines| && Live(run[n].workers[i])
    requires LockInv(sv, run[n]) && !(WantsLock(sv, run[n], i) && run[n].holder.Some?)
    ensures !Blocked(sv, run[n], i) && Step(sv, run[n], Advance(sv, run[n], i))
  {
    var s := run[n];
    var s' := Advance(sv, s, i);
    PreInRange(sv, run, n, i);
    if s.workers[i].phase.Locked? {
      assert s.holder == Some(i);
      assert RunLocked(sv, s, i, s');
    } else if WantsLock(sv, s, i) {
      assert Acquire(sv, s, i, s');
    } else {
      assert RunFree(sv, s, i, s');
    }
    assert WorkerStep(sv, s, i, s');
  }

  /** The protocol never deadlocks: while some worker is live, some live worker can move. */
  lemma {:induction false} NoDeadlock(sv: Server, run: seq<State>, n: nat, i: nat)
    requires IsRun(sv, run) && n < |run| && i < |run[n].workers| && i < |sv.lines| && Live(run[n].workers[i])
    ensures exists j: nat :: j < |run[n].workers| && j < |sv.lines| && Live(run[n].workers[j])
              && !Blocked(sv, run[n], j) && Step(sv, run[n], Advance(sv, run[n], j))
  {
    RunKeeps(sv, run, n);
    var j := if run[n].holder.Some? then run[n].holder.value else i;
    CanAdvance(sv, run, n, j);
  }

  /** Nothing the surroundings can do is left out: with the loop idle the next line can come, or
      the end of input. While it waits the time can run out; a finished worker's reply can
      arrive; either answer can be written or fail to be; a worker can panic anywhere. */
  lemma {:induction false} EveryOutcomeIsPossible(sv: Server, run: seq<State>, n: nat)
    requires IsRun(sv, run) && n < |run|
    ensures run[n].main == Idle ==>
              && Step(sv, run[n], run[n].(main := Ended))
              && (|run[n].workers| < |sv.lines| ==>
                    Step(sv, run[n], run[n].(main := Waiting(|run[n].workers|), workers := run[n].workers + [Worker(Context(0), [])])))
    ensures forall i: nat | run[n].main == Waiting(i) ::
              var s := run[n];
              var late := s.(main := Idle, timedOut := s.timedOut + {i});
              && i < |s.workers| && i < |sv.lines|
              && Step(sv, s, late.(out := s.out + [Output(i, TimeoutResponse(sv.lines[i]))])) && Step(sv, s, late.(main := Broken))
              && (s.workers[i].phase == Dead ==> Step(sv, s, s.(main := Idle)))
              && (s.workers[i].phase == Finished ==>
                    match ProcessLine(sv.lines[i], sv.reply(s.workers[i].local))
                    case None => Step(sv, s, s.(main := Idle))
                    case Some(r) => Step(sv, s, s.(main := Idle, out := s.out + [Output(i, r)])) && Step(sv, s, s.(main := Broken)))
    ensures forall i: nat | i < |run[n].workers| && run[n].workers[i].phase !in {Finished, Dead} ::
              var s := run[n];
              Step(sv, s, s.(workers := s.workers[i := Worker(Dead, s.workers[i].local)],
                             holder := if s.holder == Some(i) then None else s.holder))
    ensures run[0] == State(Idle, [], None, sv.store, [], [], {})
  {
    hide IsRun, ProgramOf, ProcessLine, TimeoutResponse, LogInv, StoreInv, OrderInv, OutInv, CompleteInv, RunFree, Acquire, RunLocked;
    RunKeeps(sv, run, n);
    FirstState(sv, run);
    var s := run[n];
    forall i: nat | i < |s.workers| && s.workers[i].phase !in {Finished, Dead}
      ensures Step(sv, s, s.(workers := s.workers[i := Worker(Dead, s.workers[i].local)], holder := if s.holder == Some(i) then None else s.holder))
    {
      var s' := s.(workers := s.workers[i := Worker(Dead, s.workers[i].local)], holder := if s.holder == Some(i) then None else s.holder);
      assert Panic(s, i, s');
      assert WorkerStep(sv, s, i, s');
    }
  }

  lemma FirstState(sv: Server, run: seq<State>)
    requires IsRun(sv, run)
    ensures run[0] == State(Idle, [], None, sv.store, [], [], {})
  {
  }

  /** Response discipline: at most one output per line, in request order; a timed-out line
      gets the timeout's answer and never its worker's, any other only its worker's. */
  lemma {:induction false} ResponseDiscipline(sv: Server, run: seq<State>, n: nat)
    requires IsRun(sv, run) && n < |run|
    ensures var s := run[n];
            && |s.workers| <= |sv.lines| && Increasing(s.out)
            && (forall o | o in s.out :: o.request < |s.workers| &&
                  if o.request in s.timedOut then o.response == TimeoutResponse(sv.lines[o.request])
                  else s.workers[o.request].phase.Finished? && Answer(sv, o.request, s.workers[o.request]) == Some(o.response))
            && (forall i: nat | i < |s.workers| && DealtWith(s, i) && Expected(sv, s, i).Some? ::
                  HasOutput(s.out, i, Expected(sv, s, i).value))
  {
    RunKeeps(sv, run, n);
    var s := run[n];
    forall o | o in s.out ensures Expected(sv, s, o.request) == Some(o.response) {}
  }

  /** What an answer says: a timeout exactly when the request timed out. Otherwise the reply of its
      own worker exactly for a readable request of version 2.0, and an error of the two kinds
      exactly for another version and for a line that is no request. */
  lemma {:induction false} OutcomeExactly(sv: Server, run: seq<State>, n: nat, o: Output)
    requires IsRun(sv, run) && n < |run| && o in run[n].out && o.request < |sv.lines|
    ensures var s, request, outcome := run[n], RequestIn(sv.lines[o.request]), o.response.outcome;
            && o.request < |s.workers|
            && (outcome == TimedOut <==> o.request in s.timedOut)
            && (o.request !in s.timedOut ==>
                  && (outcome == Replied(sv.reply(s.workers[o.request].local)) <==> request.Some? && request.value.version == "2.0")
                  && (outcome == InvalidVersion <==> request.Some? && request.value.version != "2.0")
                  && (outcome == ParseError <==> request.None?))
  {
    hide IsRun, RequestOf, ValueId;
    ResponseDiscipline(sv, run, n);
  }

  /** Every answer in time to a readable request with an id carries it. A timeout answer carries
      it exactly when the timeout reads the line as an object, and has a null id otherwise. */
  lemma {:induction false} OutputCarriesId(sv: Server, run: seq<State>, n: nat, o: Output, id: Json)
    requires IsRun(sv, run) && n < |run| && o in run[n].out && o.request < |sv.lines|
    requires RequestId(sv.lines[o.request]) == Some(id)
    ensures o.request !in run[n].timedOut ==> o.response.id == Some(id)
    ensures o.request in run[n].timedOut ==>
              && (o.response.id == Some(id) <==> ReadsAsObject(sv.lines[o.request]))
              && (!ReadsAsObject(sv.lines[o.request]) ==> o.response.id == Some(Null))
  {
    hide IsRun, RequestId, ReadsAsObject, TimeoutResponse, ProcessLine;
    ResponseDiscipline(sv, run, n);
    var s, line := run[n], sv.lines[o.request];
    TimeoutCarriesIdExactly(line, id);
    if o.request !in s.timedOut { SameIdOnBothPaths(line, sv.reply(s.workers[o.request].local)); }
  }

  /** Which lines the loop has dealt with have an answer: those that timed out, and those whose
      worker did not panic and whose reply is not silent. */
  lemma {:induction false} UnansweredExactly(sv: Server, run: seq<State>, n: nat, i: nat)
    requires IsRun(sv, run) && n < |run| && i < |run[n].workers| && i < |sv.lines|
    requires DealtWith(run[n], i)
    ensures var s := run[n];
            (exists o :: o in s.out && o.request == i) <==>
            i in s.timedOut || (!s.workers[i].phase.Dead? && !IsSilent(sv.lines[i], sv.reply(s.workers[i].local)))
  {
    hide IsRun, MainInv, LockInv, LogInv, StoreInv, OrderInv, CompleteInv;
    RunKeeps(sv, run, n);
    OnlyTimedOutLive(sv, run[n], i);
    var s := run[n];
    if o :| o in s.out && o.request == i {
      assert Expected(sv, s, i) == Some(o.response);
    }
    if Expected(sv, s, i).Some? {
      assert Output(i, Expected(sv, s, i).value) in s.out;
    }
  }

  /** Once the loop has moved on, a worker that is still live timed out. */
  lemma OnlyTimedOutLive(sv: Server, s: State, i: nat)
    requires Inv(sv, s) && i < |s.workers| && s.main != Waiting(i)
    ensures i in s.timedOut || s.workers[i].phase.Finished? || s.workers[i].phase.Dead?
  {
  }

  /** An answer lacks an id member exactly when it is a worker's and the line is no readable
      request with a non-null id; the timeout's answer always has one. */
  lemma {:induction false} MissingIdExactly(sv: Server, run: seq<State>, n: nat, o: Output)
    requires IsRun(sv, run) && n < |run| && o in run[n].out && o.request < |sv.lines|
    ensures o.response.id.None? <==> o.request !in run[n].timedOut && RequestId(sv.lines[o.request]).None?
  {
    hide IsRun, RequestId, ValueId, ProcessLine;
    ResponseDiscipline(sv, run, n);
    var s := run[n];
    if o.request !in s.timedOut { SameIdOnBothPaths(sv.lines[o.request], sv.reply(s.workers[o.request].local)); }
  }

  /** What has been written stays written. */
  lemma {:induction false} OutputOnlyGrows(sv: Server, run: seq<State>, n: nat)
    requires IsRun(sv, run) && n + 1 < |run|
    ensures run[n].out <= run[n + 1].out && run[n].timedOut <= run[n + 1].timedOut
  {
    assert Step(sv, run[n], run[n + 1]);
  }
}
