/** The main loop of session-execute: implement, test, review, with rework rounds.

Agents are adversarial: `Agents` gives an arbitrary result for every launch, so a
lemma about all `Agents` is a lemma about all runs. `Run` is the loop as a function
of its state; `RunSession` is the loop itself and returns what `Run` says.
*/
module SessionLoop {
  import opened GateLedger
  import opened JsText
  import opened Options
  import opened Verdicts

  datatype Profile = Express | Standard | Full

  predicate HasTestStage(p: Profile) { p != Express }
  predicate HasReviewStage(p: Profile) { p == Full }
  predicate HasReconcileStage(p: Profile) { p != Express }

  /** `undefined` and `null` are `DevCrashed`. */
  datatype DevResult = DevCrashed | DevText(text: string) | DevObject

  predicate Reported(r: DevResult) {
    match r
    case DevCrashed => false
    case DevText(t) => NonBlank(t)
    case DevObject => true
  }

  predicate AllDevelopersReported(results: seq<DevResult>) {
    results != [] && forall r | r in results :: Reported(r)
  }

  /** `devTasks[i]` are the task ids assigned to developer `i`. */
  datatype Config = Config(profile: Profile, maxRounds: nat, taskIds: seq<string>, devTasks: seq<seq<string>>)

  /** What each launch returns: a developer by (round, index), the others by round. */
  datatype Agents = Agents(dev: (nat, nat) -> DevResult, tester: nat -> AgentResult, reviewer: nat -> AgentResult)

  function EffectiveMaxRounds(cfg: Config): nat {
    if HasTestStage(cfg.profile) || HasReviewStage(cfg.profile) then cfg.maxRounds else 1
  }

  datatype Implement = Implement(round: nat, launched: seq<nat>, results: seq<DevResult>)

  datatype State = State(
    round: nat, passed: bool, stopped: bool,
    devResults: seq<DevResult>, rework: map<string, Note>, followups: seq<Followup>,
    integration: AgentResult, review: AgentResult, reviewRan: bool,
    entries: seq<Entry>, implementLog: seq<Implement>)

  function Initial(cfg: Config): State {
    State(0, false, false, seq(|cfg.devTasks|, _ => DevCrashed), map[], [], Crashed, Crashed, false, [], [])
  }

  predicate Done(cfg: Config, s: State) {
    s.round >= EffectiveMaxRounds(cfg) || s.passed || s.stopped
  }

  // --------------------------------------------------------------- the stages

  predicate HasRework(tasks: seq<string>, rework: map<string, Note>) {
    exists t | t in tasks :: t in rework
  }

  /** All developers in round 1, afterwards those with a task under rework. */
  function DevsToLaunch(cfg: Config, round: nat, rework: map<string, Note>, n: nat): (launch: seq<nat>)
    requires n <= |cfg.devTasks|
    ensures forall i: nat :: i in launch <==> i < n && (round == 1 || HasRework(cfg.devTasks[i], rework))
    ensures forall j, k | 0 <= j < k < |launch| :: launch[j] < launch[k]
  {
    if n == 0 then []
    else
      var rest := DevsToLaunch(cfg, round, rework, n - 1);
      if round == 1 || HasRework(cfg.devTasks[n - 1], rework) then
        assert forall k | 0 <= k < |rest| :: rest[k] in rest;
        rest + [n - 1]
      else rest
  }

  function Relaunch(ag: Agents, round: nat, launch: seq<nat>, earlier: seq<DevResult>): seq<DevResult> {
    seq(|earlier|, i requires 0 <= i < |earlier| => if i in launch then ag.dev(round, i) else earlier[i])
  }

  function ImplementStep(cfg: Config, ag: Agents, s: State): State {
    var r := s.round + 1;
    var launch := DevsToLaunch(cfg, r, s.rework, |cfg.devTasks|);
    var results := Relaunch(ag, r, launch, s.devResults);
    s.(round := r, devResults := results, implementLog := s.implementLog + [Implement(r, launch, results)])
  }

  function SourceName(stage: Stage): string {
    if stage.TestStage? then "integration-tester" else "reviewer"
  }

  /** A failing stage: new notes, and on the last round follow-ups instead of a retry. */
  function FailStep(cfg: Config, s: State, stage: Stage, r: AgentResult): State {
    var s' := s.(rework := ReworkNotes(stage, r, cfg.taskIds, s.round));
    if s.round >= EffectiveMaxRounds(cfg) then
      s'.(followups := s.followups + ExtractUnresolvedFindings(r, SourceName(stage)), passed := true, stopped := true)
    else s'
  }

  function LedgerEntry(s: State, stage: Stage, r: AgentResult, launch: seq<nat>): Entry {
    Entry(s.round, stage, Normalized(stage, r), launch)
  }

  function ReviewStep(cfg: Config, ag: Agents, s: State, launch: seq<nat>): State {
    if !HasReviewStage(cfg.profile) then s.(passed := true)
    else
      var r := ag.reviewer(s.round);
      var s' := s.(review := r, reviewRan := true, entries := s.entries + [LedgerEntry(s, ReviewStage, r, launch)]);
      if IsReviewApproved(r) then s'.(passed := true) else FailStep(cfg, s', ReviewStage, r)
  }

  function TestStep(cfg: Config, ag: Agents, s: State, launch: seq<nat>): State {
    if !HasTestStage(cfg.profile) then ReviewStep(cfg, ag, s, launch)
    else
      var r := ag.tester(s.round);
      var s' := s.(integration := r, entries := s.entries + [LedgerEntry(s, TestStage, r, launch)]);
      if IsIntegrationPassed(r) then ReviewStep(cfg, ag, s', launch) else FailStep(cfg, s', TestStage, r)
  }

  function Round(cfg: Config, ag: Agents, s: State): (s': State)
    ensures s'.round == s.round + 1
  {
    var s1 := ImplementStep(cfg, ag, s);
    if !AllDevelopersReported(s1.devResults) then s1.(stopped := true)
    else if !HasTestStage(cfg.profile) && !HasReviewStage(cfg.profile) then s1.(passed := true, stopped := true)
    else TestStep(cfg, ag, s1, DevsToLaunch(cfg, s1.round, s.rework, |cfg.devTasks|))
  }

  function Run(cfg: Config, ag: Agents, s: State): State
    decreases EffectiveMaxRounds(cfg) - s.round
  {
    if Done(cfg, s) then s else Run(cfg, ag, Round(cfg, ag, s))
  }

  // ------------------------------------------------- what holds after each round

  /** The round in which developer `i` was last launched, as of log position `k`. */
  function LastLaunch(log: seq<Implement>, k: nat, i: nat): nat
    requires k < |log|
  {
    if i in log[k].launched then log[k].round else if k == 0 then 0 else LastLaunch(log, k - 1, i)
  }

  /** Every slot of every logged round is the answer to that developer's last launch. */
  ghost predicate Framed(cfg: Config, ag: Agents, log: seq<Implement>) {
    forall k, i | 0 <= k < |log| && 0 <= i < |cfg.devTasks| ::
      && |log[k].results| == |cfg.devTasks|
      && LastLaunch(log, k, i) >= 1
      && log[k].results[i] == ag.dev(LastLaunch(log, k, i), i)
  }

  ghost predicate LogShape(cfg: Config, ag: Agents, s: State) {
    && |s.devResults| == |cfg.devTasks|
    && |s.implementLog| == s.round
    && (forall k | 0 <= k < s.round :: s.implementLog[k].round == k + 1)
    && (s.round > 0 ==> s.implementLog[s.round - 1].results == s.devResults)
    && Framed(cfg, ag, s.implementLog)
  }

  /** Before the last round ends, every round ended with all reports in and nothing pending. */
  ghost predicate Undecided(cfg: Config, s: State) {
    && !s.passed && !s.stopped && s.followups == []
    && (forall k | 0 <= k < |s.implementLog| :: AllDevelopersReported(s.implementLog[k].results))
    && s.round < EffectiveMaxRounds(cfg)
  }

  lemma {:induction false} LastLaunchPrefix(log: seq<Implement>, e: Implement, k: nat, i: nat)
    requires k < |log|
    ensures LastLaunch(log + [e], k, i) == LastLaunch(log, k, i)
  {
    if i !in log[k].launched && k > 0 { LastLaunchPrefix(log, e, k - 1, i); }
  }

  lemma ImplementFrames(cfg: Config, ag: Agents, s: State)
    requires LogShape(cfg, ag, s)
    ensures LogShape(cfg, ag, ImplementStep(cfg, ag, s))
  {
    var s' := ImplementStep(cfg, ag, s);
    var log, log' := s.implementLog, s'.implementLog;
    forall k, i | 0 <= k < |log'| && 0 <= i < |cfg.devTasks|
      ensures |log'[k].results| == |cfg.devTasks| && LastLaunch(log', k, i) >= 1
      ensures log'[k].results[i] == ag.dev(LastLaunch(log', k, i), i)
    {
      if k < |log| {
        LastLaunchPrefix(log, log'[|log|], k, i);
      } else if i !in log'[k].launched {
        LastLaunchPrefix(log, log'[|log|], k - 1, i);
      }
    }
  }

  lemma RoundFrames(cfg: Config, ag: Agents, s: State)
    requires LogShape(cfg, ag, s)
    ensures LogShape(cfg, ag, Round(cfg, ag, s))
  {
    ImplementFrames(cfg, ag, s);
    RoundKeepsReports(cfg, ag, s);
  }

  /** Testing and review touch no report. */
  lemma RoundKeepsReports(cfg: Config, ag: Agents, s: State)
    ensures Round(cfg, ag, s).devResults == ImplementStep(cfg, ag, s).devResults
    ensures Round(cfg, ag, s).implementLog == ImplementStep(cfg, ag, s).implementLog
  {
  }

  /** How a round can end. */
  lemma RoundDecides(cfg: Config, ag: Agents, s: State)
    requires LogShape(cfg, ag, s) && Undecided(cfg, s)
    ensures var s' := Round(cfg, ag, s);
            && (Done(cfg, s') <==> !Undecided(cfg, s'))
            && (Done(cfg, s') ==> (s'.passed <==> AllDevelopersReported(s'.devResults)))
            && (!Done(cfg, s') ==> AllDevelopersReported(s'.devResults))
  {
    var s' := Round(cfg, ag, s);
    RoundKeepsReports(cfg, ag, s);
    assert s'.implementLog[..s.round] == s.implementLog;
    assert s'.implementLog[s.round].results == s'.devResults;
  }

  // ------------------------------------------------------------- fail-closed

  /** Every active verification stage was affirmative in round `r`. */
  predicate Verified(cfg: Config, ag: Agents, r: nat) {
    && (cfg.profile in {Standard, Full} ==> ag.tester(r).Structured? && ag.tester(r).verdict in {PASS, PASS_WITH_NITS})
    && (cfg.profile == Full ==> ag.reviewer(r).Structured? && ag.reviewer(r).verdict == APPROVE)
  }

  /** The stage that stopped round `r` answered with the other stage's affirmative verdict. */
  predicate SilentStop(cfg: Config, ag: Agents, r: nat) {
    if HasTestStage(cfg.profile) && !IsIntegrationPassed(ag.tester(r)) then Silent(TestStage, ag.tester(r))
    else HasReviewStage(cfg.profile) && !IsReviewApproved(ag.reviewer(r)) && Silent(ReviewStage, ag.reviewer(r))
  }

  predicate Shaped(ag: Agents, r: nat) {
    SchemaShaped(TestStage, ag.tester(r)) && SchemaShaped(ReviewStage, ag.reviewer(r))
  }

  lemma RoundVerdict(cfg: Config, ag: Agents, s: State)
    requires LogShape(cfg, ag, s) && Undecided(cfg, s)
    requires Done(cfg, Round(cfg, ag, s)) && AllDevelopersReported(Round(cfg, ag, s).devResults)
    ensures var s' := Round(cfg, ag, s);
            s'.passed && (s'.followups == [] <==> Verified(cfg, ag, s'.round) || SilentStop(cfg, ag, s'.round))
  {
    var r := s.round + 1;
    RoundKeepsReports(cfg, ag, s);
    if HasTestStage(cfg.profile) && !IsIntegrationPassed(ag.tester(r)) {
      UnresolvedIsSilentExactly(TestStage, ag.tester(r), SourceName(TestStage));
    } else if HasReviewStage(cfg.profile) && !IsReviewApproved(ag.reviewer(r)) {
      UnresolvedIsSilentExactly(ReviewStage, ag.reviewer(r), SourceName(ReviewStage));
    }
  }

  // ------------------------------------------------------------------ ledger

  function VerdictIn(ag: Agents, stage: Stage, r: nat): Verdict {
    Normalized(stage, if stage.TestStage? then ag.tester(r) else ag.reviewer(r))
  }

  /** Each entry tells what its stage said in its round, and a review follows a green test. */
  ghost predicate TrueLedger(cfg: Config, ag: Agents, entries: seq<Entry>, round: nat) {
    && OnePerStage(entries)
    && (forall e | e in entries :: 1 <= e.round <= round && e.verdict == VerdictIn(ag, e.stage, e.round))
    && (forall e | e in entries :: HasTestStage(cfg.profile) && (e.stage == ReviewStage ==> HasReviewStage(cfg.profile)))
    && (forall e | e in entries && e.stage == ReviewStage :: TestedGreen(entries, e.round))
  }

  ghost predicate TestedGreen(entries: seq<Entry>, round: nat) {
    exists t :: t in entries && t.stage == TestStage && t.round == round && Green(t.verdict)
  }

  /** Until the loop is decided, the last gated stage has never been green. */
  ghost predicate NotYetGreen(cfg: Config, entries: seq<Entry>) {
    forall e | e in entries && e.stage == (if HasReviewStage(cfg.profile) then ReviewStage else TestStage) :: !Green(e.verdict)
  }

  ghost predicate AllGreen(cfg: Config, entries: seq<Entry>) {
    NewestGreen(entries, TestStage) && (HasReviewStage(cfg.profile) ==> NewestGreen(entries, ReviewStage))
  }

  /** Appending the newest round's entry settles whether its stage is green. */
  lemma NewestEntry(entries: seq<Entry>, e: Entry)
    requires forall o | o in entries && o.stage == e.stage :: o.round < e.round
    ensures NewestGreen(entries + [e], e.stage) <==> Green(e.verdict)
    ensures forall stage | stage != e.stage :: NewestGreen(entries + [e], stage) <==> NewestGreen(entries, stage)
  {
    var all := entries + [e];
    assert e in all;
    if Green(e.verdict) { assert Latest(all, e); }
    forall stage | stage != e.stage ensures NewestGreen(all, stage) <==> NewestGreen(entries, stage) {
      forall o | o in entries && o.stage == stage ensures Latest(all, o) <==> Latest(entries, o) {}
      assert forall o | o in all && o.stage == stage :: o in entries;
      assert forall o | o in entries :: o in all;
    }
  }

  lemma Record(cfg: Config, ag: Agents, entries: seq<Entry>, r: nat, e: Entry)
    requires TrueLedger(cfg, ag, entries, r) && r >= 1 && e.round == r && e.verdict == VerdictIn(ag, e.stage, r)
    requires forall o | o in entries && o.stage == e.stage :: o.round < r
    requires HasTestStage(cfg.profile)
    requires e.stage == ReviewStage ==> HasReviewStage(cfg.profile) && TestedGreen(entries, r)
    ensures TrueLedger(cfg, ag, entries + [e], r)
  {
    forall o | o in entries + [e] && o.stage == ReviewStage ensures TestedGreen(entries + [e], o.round) {
      assert TestedGreen(entries, o.round);
      var t :| t in entries && t.stage == TestStage && t.round == o.round && Green(t.verdict);
      assert t in entries + [e];
    }
  }

  /** The entries of a round whose developers all reported. */
  function RoundEntries(cfg: Config, ag: Agents, entries: seq<Entry>, r: nat, launch: seq<nat>): seq<Entry> {
    var tested := entries + [Entry(r, TestStage, NormalizeTestVerdict(ag.tester(r)), launch)];
    if IsIntegrationPassed(ag.tester(r)) && HasReviewStage(cfg.profile)
    then tested + [Entry(r, ReviewStage, NormalizeReviewVerdict(ag.reviewer(r)), launch)]
    else tested
  }

  lemma RoundEntriesAre(cfg: Config, ag: Agents, s: State)
    ensures var s1 := ImplementStep(cfg, ag, s);
            Round(cfg, ag, s).entries ==
            if AllDevelopersReported(s1.devResults) && HasTestStage(cfg.profile)
            then RoundEntries(cfg, ag, s.entries, s.round + 1, DevsToLaunch(cfg, s.round + 1, s.rework, |cfg.devTasks|))
            else s.entries
  {
  }

  lemma RecordRound(cfg: Config, ag: Agents, entries: seq<Entry>, r: nat, launch: seq<nat>)
    requires TrueLedger(cfg, ag, entries, r) && HasTestStage(cfg.profile) && NotYetGreen(cfg, entries)
    requires r >= 1 && forall e | e in entries :: e.round < r
    ensures var after := RoundEntries(cfg, ag, entries, r, launch);
            && TrueLedger(cfg, ag, after, r)
            && (AllGreen(cfg, after) <==> Verified(cfg, ag, r))
            && (!Verified(cfg, ag, r) ==> NotYetGreen(cfg, after))
  {
    var t := Entry(r, TestStage, NormalizeTestVerdict(ag.tester(r)), launch);
    var tested := entries + [t];
    Record(cfg, ag, entries, r, t);
    NewestEntry(entries, t);
    if IsIntegrationPassed(ag.tester(r)) && HasReviewStage(cfg.profile) {
      var v := Entry(r, ReviewStage, NormalizeReviewVerdict(ag.reviewer(r)), launch);
      assert t in tested;
      Record(cfg, ag, tested, r, v);
      NewestEntry(tested, v);
    }
  }

  lemma {:induction false} RoundLedger(cfg: Config, ag: Agents, s: State)
    requires LogShape(cfg, ag, s) && Undecided(cfg, s) && TrueLedger(cfg, ag, s.entries, s.round) && NotYetGreen(cfg, s.entries)
    ensures var s' := Round(cfg, ag, s);
            && TrueLedger(cfg, ag, s'.entries, s'.round)
            && (!Done(cfg, s') ==> NotYetGreen(cfg, s'.entries))
            && (Done(cfg, s') && HasTestStage(cfg.profile) ==>
                  (AllGreen(cfg, s'.entries) <==> AllDevelopersReported(s'.devResults) && Verified(cfg, ag, s'.round)))
  {
    RoundKeepsReports(cfg, ag, s);
    RoundEntriesAre(cfg, ag, s);
    if AllDevelopersReported(ImplementStep(cfg, ag, s).devResults) && HasTestStage(cfg.profile) {
      RecordRound(cfg, ag, s.entries, s.round + 1, DevsToLaunch(cfg, s.round + 1, s.rework, |cfg.devTasks|));
    }
  }

  // ----------------------------------------------------------- over whole runs

  /** What every finished run satisfies. */
  ghost predicate Finished(cfg: Config, ag: Agents, s: State) {
    && 1 <= s.round <= EffectiveMaxRounds(cfg)
    && LogShape(cfg, ag, s) && TrueLedger(cfg, ag, s.entries, s.round)
    // not passed: exactly when the last (and only the last) round lacked a usable report
    && (s.passed <==> AllDevelopersReported(s.devResults))
    && (forall k | 0 <= k < s.round - 1 :: AllDevelopersReported(s.implementLog[k].results))
    // passed without follow-ups: exactly when the final round was verified, or silently misreported
    && (s.passed && s.followups == [] <==>
          AllDevelopersReported(s.devResults) && (Verified(cfg, ag, s.round) || SilentStop(cfg, ag, s.round)))
    && (HasTestStage(cfg.profile) ==>
          (AllGreen(cfg, s.entries) <==> AllDevelopersReported(s.devResults) && Verified(cfg, ag, s.round)))
  }

  lemma {:induction false} RunFinishes(cfg: Config, ag: Agents, s: State)
    requires LogShape(cfg, ag, s) && TrueLedger(cfg, ag, s.entries, s.round) && Undecided(cfg, s) && NotYetGreen(cfg, s.entries)
    ensures Finished(cfg, ag, Run(cfg, ag, s))
    decreases EffectiveMaxRounds(cfg) - s.round
  {
    var s' := Round(cfg, ag, s);
    RoundFrames(cfg, ag, s);
    RoundDecides(cfg, ag, s);
    RoundLedger(cfg, ag, s);
    RoundKeepsReports(cfg, ag, s);
    if Done(cfg, s') {
      if AllDevelopersReported(s'.devResults) { RoundVerdict(cfg, ag, s); }
      assert forall k | 0 <= k < s.round :: s'.implementLog[k] == s.implementLog[k];
    } else {
      RunFinishes(cfg, ag, s');
    }
  }

  function RunAll(cfg: Config, ag: Agents): State {
    Run(cfg, ag, Initial(cfg))
  }

  /** The report frame and the only way a session fails. */
  lemma {:induction false} EveryRunFinishes(cfg: Config, ag: Agents)
    requires cfg.maxRounds >= 1
    ensures Finished(cfg, ag, RunAll(cfg, ag))
  {
    RunFinishes(cfg, ag, Initial(cfg));
  }

  /** Rounds `1` to `n - 1` all ended with every report in and a stage that was not affirmative. */
  ghost predicate WentOn(cfg: Config, ag: Agents, s: State, n: nat) {
    && n <= |s.implementLog|
    && forall r | 1 <= r < n :: AllDevelopersReported(s.implementLog[r - 1].results) && !Verified(cfg, ag, r)
  }

  lemma RoundEnds(cfg: Config, ag: Agents, s: State)
    requires LogShape(cfg, ag, s) && Undecided(cfg, s)
    ensures var s' := Round(cfg, ag, s);
            Done(cfg, s') <==>
            s'.round == (if cfg.profile == Express then 1 else cfg.maxRounds)
            || !AllDevelopersReported(s'.devResults) || Verified(cfg, ag, s'.round)
  {
    RoundKeepsReports(cfg, ag, s);
  }

  lemma {:induction false} RunEnds(cfg: Config, ag: Agents, s: State)
    requires LogShape(cfg, ag, s) && Undecided(cfg, s) && WentOn(cfg, ag, s, s.round)
    requires s.round >= 1 ==> !Verified(cfg, ag, s.round)
    ensures var s' := Run(cfg, ag, s);
            && s'.round >= 1 && WentOn(cfg, ag, s', s'.round)
            && (s'.round == (if cfg.profile == Express then 1 else cfg.maxRounds)
                || !AllDevelopersReported(s'.devResults) || Verified(cfg, ag, s'.round))
    decreases EffectiveMaxRounds(cfg) - s.round
  {
    hide Round, Verified, EffectiveMaxRounds;
    var s' := Round(cfg, ag, s);
    RoundFrames(cfg, ag, s);
    RoundDecides(cfg, ag, s);
    RoundEnds(cfg, ag, s);
    RoundKeepsReports(cfg, ag, s);
    assert forall k | 0 <= k < s.round :: s'.implementLog[k] == s.implementLog[k];
    if Done(cfg, s') { assert Run(cfg, ag, s') == s'; } else { RunEnds(cfg, ag, s'); }
  }

  /** How long a session runs: up to its first round that is verified or lacks a report, and
      otherwise exactly `maxRounds` rounds, or one under Express. */
  lemma {:induction false} EndsExactly(cfg: Config, ag: Agents)
    requires cfg.maxRounds >= 1
    ensures var s := RunAll(cfg, ag);
            && 1 <= s.round <= (if cfg.profile == Express then 1 else cfg.maxRounds)
            && WentOn(cfg, ag, s, s.round)
            && (s.round == (if cfg.profile == Express then 1 else cfg.maxRounds)
                || !AllDevelopersReported(s.devResults) || Verified(cfg, ag, s.round))
  {
    RunEnds(cfg, ag, Initial(cfg));
    EveryRunFinishes(cfg, ag);
  }

  /** Nothing came back from the developer, or a text of white space only. */
  predicate NoReport(r: DevResult) {
    r.DevCrashed? || (r.DevText? && forall c | c in r.text :: IsSpace(c))
  }

  lemma ReportedExactly(results: seq<DevResult>)
    ensures AllDevelopersReported(results) <==> results != [] && forall i | 0 <= i < |results| :: !NoReport(results[i])
  {
    assert forall r :: Reported(r) <==> !NoReport(r);
  }

  /** A session fails exactly when it has no developers or in some round one left no report. */
  lemma {:induction false} FailsExactlyOnMissingReport(cfg: Config, ag: Agents)
    requires cfg.maxRounds >= 1
    ensures var s := RunAll(cfg, ag);
            !s.passed <==>
            || cfg.devTasks == []
            || exists k, i :: 0 <= k < |s.implementLog| && 0 <= i < |s.implementLog[k].results| && NoReport(s.implementLog[k].results[i])
  {
    hide NoReport, Reported, AllDevelopersReported;
    EveryRunFinishes(cfg, ag);
    var s := RunAll(cfg, ag);
    assert s.implementLog[s.round - 1].results == s.devResults;
    forall k | 0 <= k < |s.implementLog| {
      ReportedExactly(s.implementLog[k].results);
    }
  }

  /** With schema-shaped results, passing without follow-ups means the final round was verified. */
  lemma {:induction false} FailClosed(cfg: Config, ag: Agents)
    requires cfg.maxRounds >= 1 && Shaped(ag, RunAll(cfg, ag).round)
    ensures var s := RunAll(cfg, ag);
            s.passed && s.followups == [] <==> AllDevelopersReported(s.devResults) && Verified(cfg, ag, s.round)
  {
    EveryRunFinishes(cfg, ag);
  }

  /** Without the schema it fails open: a tester that answers APPROVE passes the last round. */
  lemma {:induction false} FailOpenWithoutSchema()
    ensures var cfg := Config(Standard, 1, ["t1"], [["t1"]]);
            var ag := Agents((r, i) => DevObject, r => Structured(APPROVE, [], ""), r => Crashed);
            var s := RunAll(cfg, ag);
            s.passed && s.followups == [] && !Verified(cfg, ag, s.round)
  {
    var cfg := Config(Standard, 1, ["t1"], [["t1"]]);
    var ag := Agents((r, i) => DevObject, r => Structured(APPROVE, [], ""), r => Crashed);
    var s1 := Round(cfg, ag, Initial(cfg));
    assert 0 in DevsToLaunch(cfg, 1, map[], 1);
    assert s1.devResults == [DevObject];
    assert Done(cfg, s1);
    assert Run(cfg, ag, s1) == s1;
  }

  /** What a session leaves open: nothing when its last round was verified or lacked a report, and
      otherwise what the stage that stopped it found, under that stage's name. */
  ghost predicate LeavesOpen(cfg: Config, ag: Agents, s: State) {
    s.followups ==
      if !AllDevelopersReported(s.devResults) || Verified(cfg, ag, s.round) then []
      else if !IsIntegrationPassed(ag.tester(s.round)) then ExtractUnresolvedFindings(ag.tester(s.round), "integration-tester")
      else ExtractUnresolvedFindings(ag.reviewer(s.round), "reviewer")
  }

  /** The results kept for the report: the tester's of the last round, the reviewer's of the last
      round that reached it. */
  ghost predicate LastResults(cfg: Config, ag: Agents, s: State) {
    && (s.reviewRan <==> exists e :: e in s.entries && e.stage == ReviewStage)
    && (cfg.profile in {Standard, Full} && s.round >= 1 && AllDevelopersReported(s.devResults) ==> s.integration == ag.tester(s.round))
    && (s.reviewRan ==> exists e :: e in s.entries && e.stage == ReviewStage && s.review == ag.reviewer(e.round)
                                    && forall o | o in s.entries && o.stage == ReviewStage :: o.round <= e.round)
  }

  lemma {:induction false} RoundLeaves(cfg: Config, ag: Agents, s: State)
    requires Undecided(cfg, s) && LogShape(cfg, ag, s)
    ensures Done(cfg, Round(cfg, ag, s)) ==> LeavesOpen(cfg, ag, Round(cfg, ag, s))
  {
    hide ExtractUnresolvedFindings, ReworkNotes;
    RoundKeepsReports(cfg, ag, s);
    assert s.followups + ExtractUnresolvedFindings(ag.tester(s.round + 1), "integration-tester") == ExtractUnresolvedFindings(ag.tester(s.round + 1), "integration-tester");
    assert s.followups + ExtractUnresolvedFindings(ag.reviewer(s.round + 1), "reviewer") == ExtractUnresolvedFindings(ag.reviewer(s.round + 1), "reviewer");
  }

  lemma {:induction false} RoundKeepsResults(cfg: Config, ag: Agents, s: State)
    requires Undecided(cfg, s) && LastResults(cfg, ag, s) && forall e | e in s.entries :: e.round <= s.round
    ensures LastResults(cfg, ag, Round(cfg, ag, s))
    ensures forall e | e in Round(cfg, ag, s).entries :: e.round <= s.round + 1
  {
    hide ReworkNotes, ExtractUnresolvedFindings, DevsToLaunch, Relaunch, NormalizeTestVerdict, NormalizeReviewVerdict, AllDevelopersReported, EffectiveMaxRounds;
    var s' := Round(cfg, ag, s);
    var r := s.round + 1;
    RoundKeepsReports(cfg, ag, s);
    RoundEntriesAre(cfg, ag, s);
    var reached := AllDevelopersReported(s'.devResults) && cfg.profile == Full && IsIntegrationPassed(ag.tester(r));
    if reached {
      var e := s'.entries[|s'.entries| - 1];
      assert e in s'.entries && e.stage == ReviewStage && e.round == r;
    } else {
      assert forall e | e in s'.entries && e.stage == ReviewStage :: e in s.entries;
      assert forall e | e in s.entries :: e in s'.entries;
      assert s'.reviewRan == s.reviewRan && s'.review == s.review;
    }
  }

  lemma {:induction false} RunLeaves(cfg: Config, ag: Agents, s: State)
    requires LogShape(cfg, ag, s) && Undecided(cfg, s) && LastResults(cfg, ag, s) && forall e | e in s.entries :: e.round <= s.round
    ensures LeavesOpen(cfg, ag, Run(cfg, ag, s)) && LastResults(cfg, ag, Run(cfg, ag, s))
    decreases EffectiveMaxRounds(cfg) - s.round
  {
    hide LeavesOpen, LastResults, Round;
    var s' := Round(cfg, ag, s);
    RoundFrames(cfg, ag, s);
    RoundDecides(cfg, ag, s);
    RoundLeaves(cfg, ag, s);
    RoundKeepsResults(cfg, ag, s);
    if Done(cfg, s') { assert Run(cfg, ag, s') == s'; } else { RunLeaves(cfg, ag, s'); }
  }

  lemma {:induction false} EndsWithItsFindings(cfg: Config, ag: Agents)
    requires cfg.maxRounds >= 1
    ensures LeavesOpen(cfg, ag, RunAll(cfg, ag)) && LastResults(cfg, ag, RunAll(cfg, ag))
  {
    RunLeaves(cfg, ag, Initial(cfg));
  }

  function GatedStages(p: Profile): nat {
    if p == Full then 2 else if p == Standard then 1 else 0
  }

  /** `reusable_greens` reaches the number of gated stages exactly on convergence. */
  lemma {:induction false} GreensMeanConverged(cfg: Config, ag: Agents)
    requires cfg.maxRounds >= 1 && cfg.profile != Express && Shaped(ag, RunAll(cfg, ag).round)
    ensures var s := RunAll(cfg, ag);
            CountReusable(s.entries, s.entries) == GatedStages(cfg.profile) <==> s.passed && s.followups == []
  {
    EveryRunFinishes(cfg, ag);
    var s := RunAll(cfg, ag);
    ReusableCountsStages(s.entries);
  }

  // ------------------------------------------------------------ wasted rework

  ghost predicate EveryTaskOwned(cfg: Config) {
    cfg.taskIds != [] && forall t | t in cfg.taskIds :: exists i :: 0 <= i < |cfg.devTasks| && t in cfg.devTasks[i]
  }

  lemma NoneLaunched(launch: seq<nat>)
    ensures launch == [] <==> forall i: nat :: i !in launch
  {
    if launch != [] { assert launch[0] in launch; }
  }

  /** A retry relaunches some developer unless what failed was a crashed reviewer. */
  lemma {:induction false} RetryRelaunches(cfg: Config, ag: Agents, s: State)
    requires EveryTaskOwned(cfg) && Undecided(cfg, s) && !Done(cfg, Round(cfg, ag, s))
    ensures var s' := Round(cfg, ag, s);
            DevsToLaunch(cfg, s'.round + 1, s'.rework, |cfg.devTasks|) == []
            <==> IsIntegrationPassed(ag.tester(s'.round)) && ag.reviewer(s'.round).Crashed?
  {
    var s' := Round(cfg, ag, s);
    var stage := if IsIntegrationPassed(ag.tester(s'.round)) then ReviewStage else TestStage;
    var r := if stage.TestStage? then ag.tester(s'.round) else ag.reviewer(s'.round);
    assert s'.rework == ReworkNotes(stage, r, cfg.taskIds, s'.round);
    IntegrationNotesReachSomebody(ag.tester(s'.round), cfg.taskIds, s'.round);
    ReviewNotesReachSomebody(ag.reviewer(s'.round), cfg.taskIds, s'.round);
    NotesNameOnlyTasks(stage, r, cfg.taskIds, s'.round);
    var launch := DevsToLaunch(cfg, s'.round + 1, s'.rework, |cfg.devTasks|);
    if s'.rework != map[] {
      var t :| t in s'.rework;
      var i :| 0 <= i < |cfg.devTasks| && t in cfg.devTasks[i];
      assert HasRework(cfg.devTasks[i], s'.rework);
      assert i in launch;
    } else {
      assert forall i: nat | i < |cfg.devTasks| :: !HasRework(cfg.devTasks[i], s'.rework);
      assert launch == [] by { NoneLaunched(launch); }
    }
  }

  /** The reviewer crashes after a passed test: round 2 starts with nobody to launch. */
  lemma {:induction false} CrashedReviewWastesARound()
    ensures var cfg := Config(Full, 2, ["t1"], [["t1"]]);
            var ag := Agents((r, i) => DevObject, r => Structured(PASS, [], ""), r => Crashed);
            var s := RunAll(cfg, ag);
            s.round == 2 && |s.implementLog| == 2 && s.implementLog[1].launched == []
  {
    var cfg := Config(Full, 2, ["t1"], [["t1"]]);
    var ag := Agents((r, i) => DevObject, r => Structured(PASS, [], ""), r => Crashed);
    var s0 := Initial(cfg);
    var s1 := Round(cfg, ag, s0);
    assert 0 in DevsToLaunch(cfg, 1, map[], 1);
    assert s1.devResults == [DevObject];
    assert !Done(cfg, s1);
    var s2 := Round(cfg, ag, s1);
    assert s1.rework == map[] by { ReviewNotesReachSomebody(Crashed, cfg.taskIds, 1); }
    var launch := DevsToLaunch(cfg, 2, s1.rework, 1);
    assert launch == [] by { NoneLaunched(launch); }
    assert s2.devResults == [DevObject];
    assert Done(cfg, s2);
    assert Run(cfg, ag, s2) == s2;
  }

  // ------------------------------------------------------ selective relaunch

  /** The notes left by round `r`, whose test or review failed. */
  function NotesAfter(cfg: Config, ag: Agents, r: nat): map<string, Note> {
    if IsIntegrationPassed(ag.tester(r)) then ReworkNotes(ReviewStage, ag.reviewer(r), cfg.taskIds, r)
    else ReworkNotes(TestStage, ag.tester(r), cfg.taskIds, r)
  }

  /** Round 1 launches everybody; a later round exactly the developers with a task
      the previous round's failing verdict left a note for. */
  ghost predicate Selective(cfg: Config, ag: Agents, log: seq<Implement>) {
    forall k, i: nat {:trigger i in log[k].launched} | 0 <= k < |log| ::
      i in log[k].launched <==> i < |cfg.devTasks| && (k == 0 || HasRework(cfg.devTasks[i], NotesAfter(cfg, ag, k)))
  }

  lemma RoundSelects(cfg: Config, ag: Agents, s: State)
    requires Selective(cfg, ag, s.implementLog) && |s.implementLog| == s.round
    requires s.round >= 1 ==> s.rework == NotesAfter(cfg, ag, s.round)
    ensures var s' := Round(cfg, ag, s); Selective(cfg, ag, s'.implementLog) && |s'.implementLog| == s'.round
  {
    hide NotesAfter, HasRework, Round;
    RoundKeepsReports(cfg, ag, s);
    var log := Round(cfg, ag, s).implementLog;
    assert forall k | 0 <= k < s.round :: log[k] == s.implementLog[k];
  }

  lemma RoundLeavesNotes(cfg: Config, ag: Agents, s: State)
    requires !s.stopped && !s.passed && !Done(cfg, Round(cfg, ag, s))
    ensures var s' := Round(cfg, ag, s); s'.rework == NotesAfter(cfg, ag, s'.round) && !s'.stopped && !s'.passed
  {
    hide ReworkNotes, IsIntegrationPassed;
    var s' := Round(cfg, ag, s);
    assert HasTestStage(cfg.profile);
  }

  lemma {:induction false} RunSelects(cfg: Config, ag: Agents, s: State)
    requires Selective(cfg, ag, s.implementLog) && |s.implementLog| == s.round && !s.stopped && !s.passed
    requires s.round >= 1 ==> s.rework == NotesAfter(cfg, ag, s.round)
    ensures Selective(cfg, ag, Run(cfg, ag, s).implementLog)
    decreases EffectiveMaxRounds(cfg) - s.round
  {
    hide Selective, NotesAfter, Round, Done, EffectiveMaxRounds;
    if !Done(cfg, s) {
      var s' := Round(cfg, ag, s);
      RoundsLeft(cfg, s);
      RoundSelects(cfg, ag, s);
      if Done(cfg, s') {
        assert Run(cfg, ag, s') == s';
      } else {
        RoundLeavesNotes(cfg, ag, s);
        RunSelects(cfg, ag, s');
      }
    }
  }

  lemma RoundsLeft(cfg: Config, s: State)
    requires !Done(cfg, s)
    ensures s.round < EffectiveMaxRounds(cfg)
  {
  }

  lemma {:induction false} RelaunchesFollowFindings(cfg: Config, ag: Agents)
    ensures Selective(cfg, ag, RunAll(cfg, ag).implementLog)
  {
    RunSelects(cfg, ag, Initial(cfg));
  }

  // -------------------------------------------------------- the imperative loop

  datatype Outcome = Outcome(final: State, stats: Stats, mode: Option<Mode>, followups: seq<Followup>, auditWarning: bool)

  /** Stage 3.5 runs after a passed loop, in audit mode when anything is unresolved. */
  function ReconcileMode(cfg: Config, s: State): Option<Mode> {
    if s.passed && HasReconcileStage(cfg.profile) then Some(if |s.followups| > 0 then Audit else Apply) else None
  }

  /** Specs are written only for verified work. */
  lemma {:induction false} ApplyOnlyVerified(cfg: Config, ag: Agents)
    requires cfg.maxRounds >= 1 && Shaped(ag, RunAll(cfg, ag).round)
    ensures var s := RunAll(cfg, ag);
            ReconcileMode(cfg, s) == Some(Apply) <==>
            HasReconcileStage(cfg.profile) && AllDevelopersReported(s.devResults) && Verified(cfg, ag, s.round)
  {
    FailClosed(cfg, ag);
  }

  /** When Spec-Reconcile runs, and how: under Standard and Full after a session that passed, as an
      audit exactly when follow-ups are pending, which for schema-shaped results means that the
      final round was not verified. */
  lemma {:induction false} ReconcileModeExactly(cfg: Config, ag: Agents)
    requires cfg.maxRounds >= 1
    ensures var s := RunAll(cfg, ag);
            var mode := ReconcileMode(cfg, s);
            && (mode.Some? <==> cfg.profile in {Standard, Full} && AllDevelopersReported(s.devResults))
            && (mode == Some(Audit) <==> mode.Some? && s.followups != [])
            && (Shaped(ag, s.round) ==>
                  (mode == Some(Audit) <==>
                   cfg.profile in {Standard, Full} && AllDevelopersReported(s.devResults) && !Verified(cfg, ag, s.round)))
  {
    hide Verified, RunAll, Shaped, AllDevelopersReported;
    EveryRunFinishes(cfg, ag);
    if Shaped(ag, RunAll(cfg, ag).round) { FailClosed(cfg, ag); }
  }

  /** A reconciler that wrote trace updates draws the warning exactly when it says that it
      audited or, saying nothing, ran after a final round that was not verified. */
  lemma {:induction false} AuditWritesAreFlagged(cfg: Config, ag: Agents, reconciler: Mode -> ReconcileResult)
    requires cfg.maxRounds >= 1 && Shaped(ag, RunAll(cfg, ag).round)
    ensures var s := RunAll(cfg, ag);
            ReconcileMode(cfg, s).Some? ==>
              var mode := ReconcileMode(cfg, s).value;
              var r := reconciler(mode);
              r.Reconciled? && r.traceUpdates > 0 ==>
                (FoldSpecReconcilerResult(r, mode, cfg.taskIds).auditWarning <==>
                 if r.modeGiven then r.mode == Audit else !Verified(cfg, ag, s.round))
  {
    hide Verified, RunAll, Shaped, AllDevelopersReported;
    ApplyOnlyVerified(cfg, ag);
    ReconciledReported(cfg, ag);
  }

  lemma ReconciledReported(cfg: Config, ag: Agents)
    requires cfg.maxRounds >= 1
    ensures RunAll(cfg, ag).passed ==> AllDevelopersReported(RunAll(cfg, ag).devResults)
  {
    EveryRunFinishes(cfg, ag);
  }

  lemma RelaunchOneMore(ag: Agents, round: nat, launch: seq<nat>, j: nat, earlier: seq<DevResult>)
    requires j < |launch| && launch[j] < |earlier|
    ensures Relaunch(ag, round, launch[..j + 1], earlier) == Relaunch(ag, round, launch[..j], earlier)[launch[j] := ag.dev(round, launch[j])]
  {
    assert launch[..j + 1] == launch[..j] + [launch[j]];
  }

  method LaunchDevelopers(cfg: Config, ag: Agents, round: nat, rework: map<string, Note>, earlier: seq<DevResult>)
    returns (launch: seq<nat>, results: seq<DevResult>)
    requires |earlier| == |cfg.devTasks|
    ensures launch == DevsToLaunch(cfg, round, rework, |cfg.devTasks|)
    ensures results == Relaunch(ag, round, launch, earlier)
  {
    hide HasRework, Relaunch;
    launch := [];
    for i := 0 to |cfg.devTasks|
      invariant launch == DevsToLaunch(cfg, round, rework, i)
    {
      if round == 1 || HasRework(cfg.devTasks[i], rework) { launch := launch + [i]; }
    }
    results := earlier;
    NoneRelaunched(ag, round, earlier);
    for j := 0 to |launch|
      invariant |results| == |earlier|
      invariant results == Relaunch(ag, round, launch[..j], earlier)
    {
      assert launch[j] in launch;
      RelaunchOneMore(ag, round, launch, j, earlier);
      results := results[launch[j] := ag.dev(round, launch[j])];
    }
    assert launch[..|launch|] == launch;
  }

  lemma NoneRelaunched(ag: Agents, round: nat, earlier: seq<DevResult>)
    ensures Relaunch(ag, round, [], earlier) == earlier
  {
  }

  method RunSession(cfg: Config, ag: Agents, reconciler: Mode -> ReconcileResult) returns (o: Outcome)
    requires cfg.maxRounds >= 1
    ensures o.final == RunAll(cfg, ag)
    ensures var entries := o.final.entries;
            o.stats == Stats(|entries|, |set e | e in entries :: e.round|, CountReusable(entries, entries))
    ensures o.mode == ReconcileMode(cfg, o.final)
    ensures o.followups == o.final.followups +
              if o.mode.None? then [] else FoldSpecReconcilerResult(reconciler(o.mode.value), o.mode.value, cfg.taskIds).followups
    ensures o.auditWarning <==> o.mode.Some? && FoldSpecReconcilerResult(reconciler(o.mode.value), o.mode.value, cfg.taskIds).auditWarning
  {
    hide ReconcileMode, FoldSpecReconcilerResult, CountReusable;
    var ledger := new Ledger();
    var s := Initial(cfg);
    while !Done(cfg, s)
      invariant fresh(ledger) && ledger.entries == s.entries
      invariant |s.devResults| == |cfg.devTasks|
      invariant Run(cfg, ag, s) == RunAll(cfg, ag)
      decreases EffectiveMaxRounds(cfg) - s.round
    {
      s := PlayRound(cfg, ag, s, ledger);
    }
    var stats := ledger.GetStats();
    var mode := ReconcileMode(cfg, s);
    var followups, auditWarning := s.followups, false;
    if mode.Some? {
      var folded := FoldSpecReconcilerResult(reconciler(mode.value), mode.value, cfg.taskIds);
      followups, auditWarning := followups + folded.followups, folded.auditWarning;
    }
    o := Outcome(s, stats, mode, followups, auditWarning);
  }

  /** One pass of the `while` body. */
  method PlayRound(cfg: Config, ag: Agents, s: State, ledger: Ledger) returns (s': State)
    requires ledger.entries == s.entries && |s.devResults| == |cfg.devTasks|
    modifies ledger
    ensures s' == Round(cfg, ag, s) && ledger.entries == s'.entries
  {
    hide DevsToLaunch, Relaunch, ReworkNotes, NormalizeTestVerdict, NormalizeReviewVerdict, IsIntegrationPassed, IsReviewApproved, ExtractUnresolvedFindings, AllDevelopersReported;
    var round := s.round + 1;
    var launch, results := LaunchDevelopers(cfg, ag, round, s.rework, s.devResults);
    s' := s.(round := round, devResults := results, implementLog := s.implementLog + [Implement(round, launch, results)]);
    if !AllDevelopersReported(results) { s' := s'.(stopped := true); return; }
    if !HasTestStage(cfg.profile) && !HasReviewStage(cfg.profile) { s' := s'.(passed := true, stopped := true); return; }
    if HasTestStage(cfg.profile) {
      var verdict := ag.tester(round);
      var _ := ledger.Record(round, TestStage, NormalizeTestVerdict(verdict), launch);
      s' := s'.(integration := verdict, entries := ledger.entries);
      if !IsIntegrationPassed(verdict) {
        var notes := ExtractIntegrationReworkNotes(verdict, cfg.taskIds, round);
        s' := CloseFailedStage(cfg, s'.(rework := notes), TestStage, verdict);
        return;
      }
    }
    if HasReviewStage(cfg.profile) {
      var verdict := ag.reviewer(round);
      var _ := ledger.Record(round, ReviewStage, NormalizeReviewVerdict(verdict), launch);
      s' := s'.(review := verdict, reviewRan := true, entries := ledger.entries);
      if !IsReviewApproved(verdict) {
        var notes := ExtractReviewReworkNotes(verdict, cfg.taskIds, round);
        s' := CloseFailedStage(cfg, s'.(rework := notes), ReviewStage, verdict);
        return;
      }
    }
    s' := s'.(passed := true);
  }

  /** `continue`, or on the last round file follow-ups and `break`. */
  function CloseFailedStage(cfg: Config, s: State, stage: Stage, r: AgentResult): State {
    if s.round >= EffectiveMaxRounds(cfg) then
      s.(followups := s.followups + ExtractUnresolvedFindings(r, SourceName(stage)), passed := true, stopped := true)
    else s
  }
}
