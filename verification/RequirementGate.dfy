/** The requirement gate loop of requirement-execute: draft, check, review, redo.

Agents are adversarial: `Agents` answers every launch arbitrarily. A stored draft or
check remembers the round whose agent returned it; that stands for the identity of
the result object the source stores.
*/
module RequirementGate {
  import opened JsText
  import opened Options

  datatype Severity = BLOCKER | MAJOR | MINOR | NIT | Unranked

  function SeverityRank(s: Severity): nat {
    match s
    case BLOCKER => 0
    case MAJOR => 1
    case MINOR => 2
    case NIT => 3
    case Unranked => 4
  }

  datatype Verdict = PASS | REDO | ERROR | OtherVerdict

  datatype Finding = Finding(severity: Severity, message: string)

  datatype WorkerResult = NoWorker | Worker(docId: string)
  datatype CheckerResult = NoChecker | Checker(verdict: Verdict, findings: seq<Finding>)
  /** `notes` are the entries of `rework_notes`. */
  datatype ReviewerResult = NoReviewer | Reviewer(verdict: Verdict, findings: seq<Finding>, notes: seq<(string, seq<string>)>)

  predicate ValidWorker(r: WorkerResult) { r.Worker? && NonBlank(r.docId) }
  predicate ValidChecker(r: CheckerResult) { r.Checker? && r.verdict in {PASS, REDO} }
  predicate ValidReviewer(r: ReviewerResult) { r.Reviewer? && r.verdict in {PASS, REDO} }

  datatype StopAfter = Elicit | Check | Review | Register

  datatype Config = Config(scopes: seq<string>, maxRounds: nat, stopAfter: StopAfter, failOn: Severity)

  datatype Agents = Agents(worker: (nat, string) -> WorkerResult, checker: (nat, string) -> CheckerResult, reviewer: nat -> ReviewerResult)

  datatype Reason = NoDocument | ReworkFailed | NoReport

  predicate WorkerReason(r: Reason) { r != NoReport }

  datatype Draft = Draft(docId: string, round: nat)
  datatype Report = Report(findings: seq<Finding>, round: nat)
  datatype ScopeState = ScopeState(draft: Option<Draft>, check: Option<Report>, unresolved: seq<Reason>)

  type Scopes = map<string, ScopeState>

  /** One entry per round: the scopes sent to workers, and what the gate did. */
  datatype LogEntry =
    | Skipped(round: nat, drafted: seq<string>, incomplete: seq<string>)
    | Reviewed(round: nat, drafted: seq<string>, seen: Scopes, verdict: Verdict, flagged: set<string>)
    | Stopped(round: nat, drafted: seq<string>)

  datatype State = State(
    round: nat, passed: bool, stoppedEarly: bool,
    scopes: Scopes, toDraft: seq<string>, rework: map<string, seq<string>>,
    review: ReviewerResult, lastReviewInvalid: bool, log: seq<LogEntry>)

  /** `validateArgs`: scopes are non-empty, distinct, and so are their ids; rounds are positive. */
  ghost predicate ValidArgs(cfg: Config) {
    && cfg.scopes != [] && cfg.maxRounds >= 1
    && (forall s | s in cfg.scopes :: NonBlank(s))
    && (forall i, j | 0 <= i < j < |cfg.scopes| :: cfg.scopes[i] != cfg.scopes[j])
    && cfg.failOn != Unranked
  }

  function Initial(cfg: Config): State {
    State(0, false, false, map s | s in cfg.scopes :: ScopeState(None, None, []), cfg.scopes, map[], NoReviewer, false, [])
  }

  predicate Done(cfg: Config, s: State) {
    s.round >= cfg.maxRounds || s.passed || s.stoppedEarly
  }

  // --------------------------------------------------------------- the phases

  predicate Redrafted(ag: Agents, r: nat, toDraft: seq<string>, s: string) {
    s in toDraft && ValidWorker(ag.worker(r, s))
  }

  predicate NeedsCheck(st: ScopeState) { st.draft.Some? && st.check.None? }

  /** A valid new document replaces the draft and makes any earlier check stale. */
  function DraftScope(ag: Agents, r: nat, toDraft: seq<string>, s: string, st: ScopeState): ScopeState {
    if Redrafted(ag, r, toDraft, s) then st.(draft := Some(Draft(ag.worker(r, s).docId, r)), check := None) else st
  }

  function CheckScope(ag: Agents, r: nat, s: string, st: ScopeState): ScopeState {
    if NeedsCheck(st) && ValidChecker(ag.checker(r, s)) then st.(check := Some(Report(ag.checker(r, s).findings, r))) else st
  }

  function Unresolved(st: ScopeState, reworkFailed: bool): seq<Reason> {
    (if st.draft.None? then [NoDocument] else if reworkFailed then [ReworkFailed] else [])
    + (if NeedsCheck(st) then [NoReport] else [])
  }

  function AssessScope(ag: Agents, r: nat, toDraft: seq<string>, s: string, st: ScopeState): ScopeState {
    st.(unresolved := Unresolved(st, s in toDraft && !Redrafted(ag, r, toDraft, s)))
  }

  /** One round's draft, check and assessment of one scope. */
  function PrepareScope(ag: Agents, r: nat, toDraft: seq<string>, s: string, st: ScopeState): ScopeState {
    AssessScope(ag, r, toDraft, s, CheckScope(ag, r, s, DraftScope(ag, r, toDraft, s, st)))
  }

  function DraftPhase(ag: Agents, r: nat, toDraft: seq<string>, scopes: Scopes): Scopes {
    map s | s in scopes :: DraftScope(ag, r, toDraft, s, scopes[s])
  }

  function Keep(order: seq<string>, p: string -> bool): (kept: seq<string>)
    ensures forall s :: s in kept <==> s in order && p(s)
  {
    if order == [] then [] else if p(order[0]) then [order[0]] + Keep(order[1..], p) else Keep(order[1..], p)
  }

  /** A severity without a rank is never at or above anything. */
  predicate Blocks(cfg: Config, f: Finding) {
    f.severity != Unranked && cfg.failOn != Unranked && SeverityRank(f.severity) <= SeverityRank(cfg.failOn)
  }

  /** The scope has a checked finding at or above `fail_on`. */
  predicate HasBlocker(cfg: Config, st: ScopeState) {
    st.check.Some? && exists f | f in st.check.value.findings :: Blocks(cfg, f)
  }

  /** `docToScope.get(key)`: the last scope whose document is `key`. */
  function OwnerOf(order: seq<string>, scopes: Scopes, key: string): Option<string>
    requires forall s | s in order :: s in scopes
  {
    if order == [] then None
    else
      var s := order[|order| - 1];
      if scopes[s].draft.Some? && scopes[s].draft.value.docId == key then Some(s)
      else OwnerOf(order[..|order| - 1], scopes, key)
  }

  function Target(order: seq<string>, scopes: Scopes, key: string): Option<string>
    requires forall s | s in order :: s in scopes
  {
    var owner := OwnerOf(order, scopes, key);
    if owner.Some? then owner else if key in scopes then Some(key) else None
  }

  function Append(m: map<string, seq<string>>, s: string, lines: seq<string>): map<string, seq<string>> {
    m[s := (if s in m then m[s] else []) + lines]
  }

  function RouteNotes(order: seq<string>, scopes: Scopes, notes: seq<(string, seq<string>)>): map<string, seq<string>>
    requires forall s | s in order :: s in scopes
  {
    if notes == [] then map[]
    else
      var before := RouteNotes(order, scopes, notes[..|notes| - 1]);
      var last := notes[|notes| - 1];
      var target := Target(order, scopes, last.0);
      if target.None? then before else Append(before, target.value, last.1)
  }

  function BlockingLines(cfg: Config, findings: seq<Finding>): seq<string> {
    if findings == [] then []
    else (if Blocks(cfg, findings[0]) then [findings[0].message] else []) + BlockingLines(cfg, findings[1..])
  }

  function WithBlockers(cfg: Config, scopes: Scopes, routed: map<string, seq<string>>): map<string, seq<string>> {
    map s | s in routed.Keys + scopes.Keys && (s in routed || HasBlocker(cfg, scopes[s])) ::
      (if s in routed then routed[s] else [])
      + (if s in scopes && HasBlocker(cfg, scopes[s]) then BlockingLines(cfg, scopes[s].check.value.findings) else [])
  }

  function GateVerdict(cfg: Config, scopes: Scopes, review: ReviewerResult): Verdict {
    if !ValidReviewer(review) then ERROR
    else if review.verdict == PASS && (exists s | s in scopes :: HasBlocker(cfg, scopes[s])) then REDO
    else review.verdict
  }

  const NO_NOTES := "Reviewer requested rework without per-document notes; see review findings."

  function NextRework(cfg: Config, scopes: Scopes, review: ReviewerResult): map<string, seq<string>>
    requires forall s | s in cfg.scopes :: s in scopes
  {
    var routed := RouteNotes(cfg.scopes, scopes, if ValidReviewer(review) then review.notes else []);
    var all := WithBlockers(cfg, scopes, routed);
    if all == map[] && GateVerdict(cfg, scopes, review) == REDO then map s | s in cfg.scopes :: [NO_NOTES]
    else all
  }

  function ReasonLines(reasons: seq<Reason>): seq<string> {
    seq(|reasons|, k requires 0 <= k < |reasons| =>
          match reasons[k]
          case NoDocument => "worker produced no usable document"
          case ReworkFailed => "worker failed to apply the rework; document unchanged"
          case NoReport => "checker produced no usable report")
  }

  /** The state after drafting, checking and listing what is unresolved. */
  function Prepared(cfg: Config, ag: Agents, s: State): Scopes {
    map x | x in s.scopes :: PrepareScope(ag, s.round + 1, s.toDraft, x, s.scopes[x])
  }

  function Incomplete(cfg: Config, scopes: Scopes): seq<string> {
    Keep(cfg.scopes, s => s in scopes && scopes[s].unresolved != [])
  }

  predicate NeedsWorker(st: ScopeState) {
    st.draft.None? || exists u | u in st.unresolved :: WorkerReason(u)
  }

  function SkipReview(cfg: Config, s: State, scopes: Scopes): State {
    var incomplete := Incomplete(cfg, scopes);
    s.(round := s.round + 1, scopes := scopes, lastReviewInvalid := false,
       toDraft := Keep(incomplete, x => x in scopes && NeedsWorker(scopes[x])),
       rework := map x | x in incomplete && x in scopes :: ReasonLines(scopes[x].unresolved),
       log := s.log + [Skipped(s.round + 1, s.toDraft, incomplete)])
  }

  function ReviewRound(cfg: Config, ag: Agents, s: State, scopes: Scopes): State
    requires forall x | x in cfg.scopes :: x in scopes
  {
    var r := s.round + 1;
    var review := ag.reviewer(r);
    var verdict := GateVerdict(cfg, scopes, review);
    var s' := s.(round := r, scopes := scopes, review := review, lastReviewInvalid := !ValidReviewer(review));
    if verdict == PASS then s'.(passed := true, log := s.log + [Reviewed(r, s.toDraft, scopes, PASS, {})])
    else
      var next := NextRework(cfg, scopes, review);
      s'.(toDraft := Keep(cfg.scopes, x => x in next), rework := next,
          log := s.log + [Reviewed(r, s.toDraft, scopes, verdict, next.Keys)])
  }

  /** What is unresolved when the run stops after the drafts. */
  function ElicitOnly(drafted: Scopes): Scopes {
    map x | x in drafted :: drafted[x].(unresolved := if drafted[x].draft.Some? then [] else [NoDocument])
  }

  function Round(cfg: Config, ag: Agents, s: State): (s': State)
    requires forall x | x in cfg.scopes :: x in s.scopes
    ensures s'.round == s.round + 1 && s'.scopes.Keys == s.scopes.Keys
  {
    var r := s.round + 1;
    var drafted := DraftPhase(ag, r, s.toDraft, s.scopes);
    var stop := s.(round := r, stoppedEarly := true, lastReviewInvalid := false, log := s.log + [Stopped(r, s.toDraft)]);
    if cfg.stopAfter == Elicit then stop.(scopes := ElicitOnly(drafted))
    else
      var scopes := Prepared(cfg, ag, s);
      if cfg.stopAfter == Check then stop.(scopes := scopes)
      else if Incomplete(cfg, scopes) != [] then SkipReview(cfg, s, scopes)
      else ReviewRound(cfg, ag, s, scopes)
  }

  function Run(cfg: Config, ag: Agents, s: State): State
    requires forall x | x in cfg.scopes :: x in s.scopes
    decreases cfg.maxRounds - s.round
  {
    if Done(cfg, s) then s else Run(cfg, ag, Round(cfg, ag, s))
  }

  function RunAll(cfg: Config, ag: Agents): State {
    Run(cfg, ag, Initial(cfg))
  }

  // ------------------------------------------------------------------ history

  /** Worker `s` was launched in round `r` and returned nothing usable, or was not launched. */
  predicate NoNewDraft(ag: Agents, log: seq<LogEntry>, s: string, r: nat) {
    1 <= r <= |log| && s in log[r - 1].drafted ==> !ValidWorker(ag.worker(r, s))
  }

  /** The stored draft is the latest valid answer of a launched worker. */
  ghost predicate DraftBacked(ag: Agents, log: seq<LogEntry>, s: string, d: Draft) {
    && 1 <= d.round <= |log| && s in log[d.round - 1].drafted
    && ValidWorker(ag.worker(d.round, s)) && ag.worker(d.round, s).docId == d.docId
    && (forall r: nat | d.round < r :: NoNewDraft(ag, log, s, r))
  }

  /** The stored check is a valid answer given since that draft was written. */
  predicate CheckBacked(ag: Agents, now: nat, s: string, d: Draft, c: Report) {
    d.round <= c.round <= now && ValidChecker(ag.checker(c.round, s)) && ag.checker(c.round, s).findings == c.findings
  }

  ghost predicate Backed(ag: Agents, log: seq<LogEntry>, s: string, st: ScopeState) {
    && (st.draft.Some? ==> DraftBacked(ag, log, s, st.draft.value))
    && (st.draft.None? ==> forall r: nat :: NoNewDraft(ag, log, s, r))
    && (st.check.Some? ==> st.draft.Some? && CheckBacked(ag, |log|, s, st.draft.value, st.check.value))
  }

  /** What a reviewer is shown: every scope drafted, checked and settled. */
  ghost predicate Complete(cfg: Config, scopes: Scopes) {
    forall s | s in cfg.scopes ::
      s in scopes && scopes[s].draft.Some? && scopes[s].check.Some? && scopes[s].unresolved == []
  }

  /** `s` has been redrafted after round `r`. */
  predicate RedoneSince(scopes: Scopes, s: string, r: nat) {
    s in scopes && scopes[s].draft.Some? && scopes[s].draft.value.round > r
  }

  /** Every flag raised so far is either still with a worker or answered by a newer draft. */
  ghost predicate FlagsPending(s: State) {
    forall i, x | 0 <= i < |s.log| && s.log[i].Reviewed? && x in s.log[i].flagged ::
      x in s.toDraft || RedoneSince(s.scopes, x, s.log[i].round)
  }

  /** Whatever an earlier review flagged, a later review sees redrafted and rechecked. */
  ghost predicate FlagsAnswered(ag: Agents, log: seq<LogEntry>) {
    forall i, j, x | 0 <= i < j < |log| && log[i].Reviewed? && log[j].Reviewed? && x in log[i].flagged ::
      RedoneSince(log[j].seen, x, log[i].round)
  }

  ghost predicate ReviewsBacked(cfg: Config, ag: Agents, log: seq<LogEntry>) {
    forall j | 0 <= j < |log| && log[j].Reviewed? ::
      && Complete(cfg, log[j].seen)
      && log[j].verdict == GateVerdict(cfg, log[j].seen, ag.reviewer(log[j].round))
      && (forall x | x in log[j].flagged :: x in cfg.scopes)
      && (log[j].verdict != PASS ==> log[j].flagged == NextRework(cfg, log[j].seen, ag.reviewer(log[j].round)).Keys)
      && AllBacked(ag, log[..j + 1], log[j].seen)
  }

  ghost predicate WellLogged(cfg: Config, s: State) {
    && |s.log| == s.round
    && (forall k | 0 <= k < |s.log| :: s.log[k].round == k + 1)
    && (forall x :: x in s.scopes <==> x in cfg.scopes)
    && (forall x | x in s.toDraft :: x in cfg.scopes)
  }

  ghost predicate Good(cfg: Config, ag: Agents, s: State) {
    && WellLogged(cfg, s)
    && AllBacked(ag, s.log, s.scopes)
    && FlagsAnswered(ag, s.log) && ReviewsBacked(cfg, ag, s.log)
    && (s.passed || s.stoppedEarly || FlagsPending(s))
  }

  lemma DraftScopeBacked(ag: Agents, log: seq<LogEntry>, e: LogEntry, s: string, st: ScopeState)
    requires Backed(ag, log, s, st)
    ensures Backed(ag, log + [e], s, DraftScope(ag, |log| + 1, e.drafted, s, st))
  {
    var log' := log + [e];
    assert log'[|log|] == e;
    forall r: nat ensures NoNewDraft(ag, log', s, r) <==>
                          if r == |log| + 1 then !Redrafted(ag, r, e.drafted, s) else NoNewDraft(ag, log, s, r) {}
  }

  /** One round's drafting and checking keep every stored result backed. */
  lemma PreparedBacked(cfg: Config, ag: Agents, s: State, x: string, e: LogEntry)
    requires |s.log| == s.round && x in s.scopes && Backed(ag, s.log, x, s.scopes[x])
    requires e.drafted == s.toDraft
    ensures Backed(ag, s.log + [e], x, Prepared(cfg, ag, s)[x])
    ensures Backed(ag, s.log + [e], x, DraftPhase(ag, s.round + 1, s.toDraft, s.scopes)[x])
  {
    var st := DraftScope(ag, s.round + 1, e.drafted, x, s.scopes[x]);
    DraftScopeBacked(ag, s.log, e, x, s.scopes[x]);
  }

  /** A scope sent to a worker is redrafted or left unresolved with a worker reason. */
  lemma SentIsRedoneOrUnresolved(cfg: Config, ag: Agents, s: State, x: string)
    requires x in s.scopes && x in s.toDraft
    ensures var st := Prepared(cfg, ag, s)[x];
            (st.draft.Some? && st.draft.value.round == s.round + 1) || (st.unresolved != [] && NeedsWorker(st))
  {
    var st := Prepared(cfg, ag, s)[x];
    if !Redrafted(ag, s.round + 1, s.toDraft, x) { assert st.unresolved[0] in st.unresolved; }
  }

  lemma NotIncompleteIsComplete(cfg: Config, ag: Agents, s: State)
    requires WellLogged(cfg, s) && Incomplete(cfg, Prepared(cfg, ag, s)) == []
    ensures Complete(cfg, Prepared(cfg, ag, s))
  {
    var scopes := Prepared(cfg, ag, s);
    forall x | x in cfg.scopes ensures scopes[x].unresolved == [] {
      assert x !in Incomplete(cfg, scopes);
    }
  }

  lemma {:induction false} RouteNotesNamesScopes(order: seq<string>, scopes: Scopes, notes: seq<(string, seq<string>)>)
    requires forall x | x in order :: x in scopes
    ensures forall x | x in RouteNotes(order, scopes, notes) :: x in scopes
  {
    if notes != [] {
      RouteNotesNamesScopes(order, scopes, notes[..|notes| - 1]);
      OwnerNamesScope(order, scopes, notes[|notes| - 1].0);
    }
  }

  lemma {:induction false} OwnerNamesScope(order: seq<string>, scopes: Scopes, key: string)
    requires forall x | x in order :: x in scopes
    ensures var o := OwnerOf(order, scopes, key);
            o.Some? ==> o.value in order && scopes[o.value].draft.Some? && scopes[o.value].draft.value.docId == key
    ensures OwnerOf(order, scopes, key).None? <==> forall x | x in order :: scopes[x].draft.None? || scopes[x].draft.value.docId != key
  {
    if order != [] {
      OwnerNamesScope(order[..|order| - 1], scopes, key);
      assert order == order[..|order| - 1] + [order[|order| - 1]];
    }
  }

  lemma NextReworkNamesScopes(cfg: Config, scopes: Scopes, review: ReviewerResult)
    requires forall x :: x in cfg.scopes <==> x in scopes
    ensures forall x | x in NextRework(cfg, scopes, review) :: x in cfg.scopes
  {
    RouteNotesNamesScopes(cfg.scopes, scopes, if ValidReviewer(review) then review.notes else []);
  }

  lemma LogGrows(cfg: Config, ag: Agents, log: seq<LogEntry>, e: LogEntry)
    requires FlagsAnswered(ag, log) && ReviewsBacked(cfg, ag, log) && !e.Reviewed?
    ensures FlagsAnswered(ag, log + [e]) && ReviewsBacked(cfg, ag, log + [e])
  {
    var log' := log + [e];
    forall j | 0 <= j < |log| ensures log'[j] == log[j] && log'[..j + 1] == log[..j + 1] {}
  }

  ghost predicate AllBacked(ag: Agents, log: seq<LogEntry>, scopes: Scopes) {
    forall x | x in scopes :: Backed(ag, log, x, scopes[x])
  }

  lemma AllPreparedBacked(cfg: Config, ag: Agents, s: State, e: LogEntry)
    requires |s.log| == s.round && AllBacked(ag, s.log, s.scopes) && e.drafted == s.toDraft
    ensures AllBacked(ag, s.log + [e], Prepared(cfg, ag, s))
    ensures AllBacked(ag, s.log + [e], DraftPhase(ag, s.round + 1, s.toDraft, s.scopes))
  {
    forall x | x in s.scopes
      ensures Backed(ag, s.log + [e], x, Prepared(cfg, ag, s)[x])
      ensures Backed(ag, s.log + [e], x, DraftPhase(ag, s.round + 1, s.toDraft, s.scopes)[x])
    {
      PreparedBacked(cfg, ag, s, x, e);
    }
  }

  /** After drafting, a flag still pending is unresolved, so the next round drafts it again. */
  lemma FlagsAfterDraft(cfg: Config, ag: Agents, s: State, i: nat, x: string)
    requires WellLogged(cfg, s) && FlagsPending(s)
    requires i < |s.log| && s.log[i].Reviewed? && x in s.log[i].flagged
    ensures var scopes := Prepared(cfg, ag, s);
            RedoneSince(scopes, x, s.log[i].round)
            || (x in Incomplete(cfg, scopes) && x in scopes && NeedsWorker(scopes[x]))
  {
    assert x in s.toDraft || RedoneSince(s.scopes, x, s.log[i].round);
    if x in s.toDraft { SentIsRedoneOrUnresolved(cfg, ag, s, x); }
  }

  /** Every flag is answered in `scopes`, or its scope goes back to a worker. */
  ghost predicate FlagsCarried(cfg: Config, log: seq<LogEntry>, scopes: Scopes) {
    forall i, x | 0 <= i < |log| && log[i].Reviewed? && x in log[i].flagged ::
      RedoneSince(scopes, x, log[i].round) || (x in Incomplete(cfg, scopes) && x in scopes && NeedsWorker(scopes[x]))
  }

  lemma PreparedIsReady(cfg: Config, ag: Agents, s: State, scopes: Scopes, e: LogEntry)
    requires Good(cfg, ag, s) && !Done(cfg, s) && e.drafted == s.toDraft && scopes == Prepared(cfg, ag, s)
    ensures forall x :: x in scopes <==> x in cfg.scopes
    ensures AllBacked(ag, s.log + [e], scopes)
    ensures FlagsCarried(cfg, s.log, scopes)
    ensures Incomplete(cfg, scopes) == [] ==> Complete(cfg, scopes)
  {
    assert scopes.Keys == s.scopes.Keys;
    AllPreparedBacked(cfg, ag, s, e);
    PreparedCarriesFlags(cfg, ag, s, scopes);
    if Incomplete(cfg, scopes) == [] { NotIncompleteIsComplete(cfg, ag, s); }
  }

  lemma PreparedCarriesFlags(cfg: Config, ag: Agents, s: State, scopes: Scopes)
    requires WellLogged(cfg, s) && FlagsPending(s) && scopes == Prepared(cfg, ag, s)
    ensures FlagsCarried(cfg, s.log, scopes)
  {
    forall i, x | 0 <= i < |s.log| && s.log[i].Reviewed? && x in s.log[i].flagged
      ensures RedoneSince(scopes, x, s.log[i].round) || (x in Incomplete(cfg, scopes) && x in scopes && NeedsWorker(scopes[x]))
    {
      FlagsAfterDraft(cfg, ag, s, i, x);
    }
  }

  lemma SkipKeepsGood(cfg: Config, ag: Agents, s: State, scopes: Scopes)
    requires Good(cfg, ag, s) && forall x :: x in scopes <==> x in cfg.scopes
    requires AllBacked(ag, s.log + [Skipped(s.round + 1, s.toDraft, Incomplete(cfg, scopes))], scopes)
    requires FlagsCarried(cfg, s.log, scopes)
    ensures Good(cfg, ag, SkipReview(cfg, s, scopes))
  {
    var s' := SkipReview(cfg, s, scopes);
    var e := Skipped(s.round + 1, s.toDraft, Incomplete(cfg, scopes));
    LogGrows(cfg, ag, s.log, e);
    FlagsResent(cfg, s.log, s', e);
  }

  /** What is still pending is drafted again in the next round. */
  lemma FlagsResent(cfg: Config, log: seq<LogEntry>, s': State, e: LogEntry)
    requires !e.Reviewed? && s'.log == log + [e] && FlagsCarried(cfg, log, s'.scopes)
    requires forall x | x in Incomplete(cfg, s'.scopes) && x in s'.scopes && NeedsWorker(s'.scopes[x]) :: x in s'.toDraft
    ensures FlagsPending(s')
  {
    forall i, x | 0 <= i < |s'.log| && s'.log[i].Reviewed? && x in s'.log[i].flagged
      ensures x in s'.toDraft || RedoneSince(s'.scopes, x, s'.log[i].round)
    {
      assert i < |log| && s'.log[i] == log[i];
    }
  }

  /** Logging a review of a complete set keeps the history true. */
  lemma LogReview(cfg: Config, ag: Agents, log: seq<LogEntry>, e: LogEntry)
    requires FlagsAnswered(ag, log) && ReviewsBacked(cfg, ag, log) && e.Reviewed?
    requires Complete(cfg, e.seen) && AllBacked(ag, log + [e], e.seen)
    requires forall i, x | 0 <= i < |log| && log[i].Reviewed? && x in log[i].flagged :: RedoneSince(e.seen, x, log[i].round)
    requires e.verdict == GateVerdict(cfg, e.seen, ag.reviewer(e.round)) && forall x | x in e.flagged :: x in cfg.scopes
    requires e.verdict != PASS ==> e.flagged == NextRework(cfg, e.seen, ag.reviewer(e.round)).Keys
    ensures FlagsAnswered(ag, log + [e]) && ReviewsBacked(cfg, ag, log + [e])
  {
    hide GateVerdict, NextRework, Complete, AllBacked, RedoneSince, ValidReviewer;
    var log' := log + [e];
    forall j | 0 <= j < |log| ensures log'[j] == log[j] && log'[..j + 1] == log[..j + 1] {}
    assert log'[..|log'|] == log';
  }

  lemma ReviewKeepsGood(cfg: Config, ag: Agents, s: State, s': State, e: LogEntry)
    requires Good(cfg, ag, s) && e.Reviewed? && s'.log == s.log + [e] && e.round == s'.round == s.round + 1
    requires s'.scopes == e.seen && forall x :: x in e.seen <==> x in cfg.scopes
    requires Complete(cfg, e.seen) && Incomplete(cfg, e.seen) == [] && FlagsCarried(cfg, s.log, e.seen)
    requires AllBacked(ag, s'.log, e.seen)
    requires e.verdict == GateVerdict(cfg, e.seen, ag.reviewer(e.round)) && forall x | x in e.flagged :: x in cfg.scopes
    requires e.verdict != PASS ==> e.flagged == NextRework(cfg, e.seen, ag.reviewer(e.round)).Keys
    requires s'.passed || forall x | x in e.flagged :: x in s'.toDraft
    requires forall x | x in s'.toDraft :: x in cfg.scopes
    ensures Good(cfg, ag, s')
  {
    hide GateVerdict, NextRework, Complete, AllBacked, ReviewsBacked, FlagsAnswered;
    LogReview(cfg, ag, s.log, e);
    if !s'.passed { FlagsSent(cfg, s.log, s', e); }
  }

  /** Old flags were answered before the review; new ones go to a worker. */
  lemma FlagsSent(cfg: Config, log: seq<LogEntry>, s': State, e: LogEntry)
    requires e.Reviewed? && s'.log == log + [e] && s'.scopes == e.seen
    requires Incomplete(cfg, e.seen) == [] && FlagsCarried(cfg, log, e.seen)
    requires forall x | x in e.flagged :: x in s'.toDraft
    ensures FlagsPending(s')
  {
    forall i, x | 0 <= i < |log| && log[i].Reviewed? && x in log[i].flagged ensures RedoneSince(e.seen, x, log[i].round) {}
  }

  lemma StopKeepsGood(cfg: Config, ag: Agents, s: State)
    requires Good(cfg, ag, s) && !Done(cfg, s) && cfg.stopAfter in {Elicit, Check}
    ensures Good(cfg, ag, Round(cfg, ag, s))
  {
    hide Incomplete, FlagsAnswered, ReviewsBacked, FlagsPending, AllBacked, ElicitOnly, Prepared, DraftPhase, SkipReview, ReviewRound;
    var e := Stopped(s.round + 1, s.toDraft);
    LogGrows(cfg, ag, s.log, e);
    AllPreparedBacked(cfg, ag, s, e);
    ElicitBacked(ag, s.log + [e], DraftPhase(ag, s.round + 1, s.toDraft, s.scopes));
  }

  lemma ElicitBacked(ag: Agents, log: seq<LogEntry>, scopes: Scopes)
    requires AllBacked(ag, log, scopes)
    ensures AllBacked(ag, log, ElicitOnly(scopes))
  {
    hide DraftBacked, CheckBacked, NoNewDraft;
  }

  lemma RoundKeepsGood(cfg: Config, ag: Agents, s: State)
    requires Good(cfg, ag, s) && !Done(cfg, s)
    ensures Good(cfg, ag, Round(cfg, ag, s))
  {
    var scopes := Prepared(cfg, ag, s);
    if cfg.stopAfter in {Elicit, Check} {
      StopKeepsGood(cfg, ag, s);
    } else if Incomplete(cfg, scopes) != [] {
      PreparedIsReady(cfg, ag, s, scopes, Skipped(s.round + 1, s.toDraft, Incomplete(cfg, scopes)));
      SkipKeepsGood(cfg, ag, s, scopes);
    } else {
      ReviewRoundKeepsGood(cfg, ag, s, scopes);
    }
  }

  lemma ReviewRoundKeepsGood(cfg: Config, ag: Agents, s: State, scopes: Scopes)
    requires Good(cfg, ag, s) && !Done(cfg, s) && scopes == Prepared(cfg, ag, s) && Incomplete(cfg, scopes) == []
    ensures Good(cfg, ag, ReviewRound(cfg, ag, s, scopes))
  {
    hide Prepared, NextRework, GateVerdict, AllBacked, FlagsCarried, ReviewsBacked, FlagsAnswered, FlagsPending, Keep, Complete;
    PreparedHas(cfg, ag, s);
    var s' := ReviewRound(cfg, ag, s, scopes);
    var e := s'.log[|s.log|];
    assert s'.log == s.log + [e];
    PreparedIsReady(cfg, ag, s, scopes, e);
    NextReworkNamesScopes(cfg, scopes, ag.reviewer(s.round + 1));
    ReviewKeepsGood(cfg, ag, s, s', e);
  }

  lemma {:induction false} RunKeepsGood(cfg: Config, ag: Agents, s: State)
    requires Good(cfg, ag, s)
    ensures Good(cfg, ag, Run(cfg, ag, s))
    decreases cfg.maxRounds - s.round
  {
    if !Done(cfg, s) {
      RoundKeepsGood(cfg, ag, s);
      RunKeepsGood(cfg, ag, Round(cfg, ag, s));
    }
  }

  // ------------------------------------------------------------- main results

  lemma InitialIsGood(cfg: Config, ag: Agents)
    ensures Good(cfg, ag, Initial(cfg))
  {
  }

  lemma EveryRunIsGood(cfg: Config, ag: Agents)
    ensures Good(cfg, ag, RunAll(cfg, ag))
  {
    RunKeepsGood(cfg, ag, Initial(cfg));
  }

  /** The gate history: between a review that flags a scope and any later review the
      scope's worker succeeded, and the later review judges a check of that newer document. */
  lemma FlaggedScopesAreRedone(cfg: Config, ag: Agents, i: nat, j: nat, x: string)
    requires var log := RunAll(cfg, ag).log;
             i < j < |log| && log[i].Reviewed? && log[j].Reviewed? && x in log[i].flagged
    ensures var log := RunAll(cfg, ag).log;
            var seen := log[j].seen;
            && x in seen && seen[x].draft.Some? && seen[x].check.Some?
            && var d, c := seen[x].draft.value, seen[x].check.value;
            && log[i].round < d.round <= c.round <= log[j].round == j + 1
            && x in log[d.round - 1].drafted && ag.worker(d.round, x) == Worker(d.docId) && GivesDocument(ag.worker(d.round, x))
            && (ag.checker(c.round, x) == Checker(PASS, c.findings) || ag.checker(c.round, x) == Checker(REDO, c.findings))
  {
    EveryRunIsGood(cfg, ag);
    var log := RunAll(cfg, ag).log;
    assert RedoneSince(log[j].seen, x, log[i].round);
    assert Backed(ag, log[..j + 1], x, log[j].seen[x]);
    assert x in cfg.scopes;
    assert log[j].round == j + 1;
  }

  /** The severities the gate does not let pass, for each threshold. */
  predicate AtOrAbove(severity: Severity, failOn: Severity) {
    match failOn
    case BLOCKER => severity == BLOCKER
    case MAJOR => severity in {BLOCKER, MAJOR}
    case MINOR => severity in {BLOCKER, MAJOR, MINOR}
    case NIT => severity != Unranked
    case Unranked => false
  }

  /** The scope's checker reported a finding at or above the threshold. */
  predicate Blocked(cfg: Config, st: ScopeState) {
    st.check.Some? && exists f | f in st.check.value.findings :: AtOrAbove(f.severity, cfg.failOn)
  }

  lemma BlockedExactly(cfg: Config, st: ScopeState)
    ensures HasBlocker(cfg, st) <==> Blocked(cfg, st)
  {
    assert forall f :: Blocks(cfg, f) <==> AtOrAbove(f.severity, cfg.failOn);
  }

  /** The deterministic override: a run passes only on a valid PASS about a complete set
      whose every current document has a check with no finding at or above `fail_on`. */
  ghost predicate PassIsClean(cfg: Config, ag: Agents, s: State) {
    && s.log != [] && s.log[|s.log| - 1].Reviewed? && s.log[|s.log| - 1].seen == s.scopes
    && Complete(cfg, s.scopes)
    && ag.reviewer(s.round).Reviewer? && ag.reviewer(s.round).verdict == PASS
    && (forall x | x in s.scopes :: !Blocked(cfg, s.scopes[x]))
  }

  /** A round passes exactly when every scope is drafted, checked and settled, the reviewer
      says PASS and no checker reported anything at or above the threshold. */
  lemma RoundPassesClean(cfg: Config, ag: Agents, s: State)
    requires Good(cfg, ag, s) && !Done(cfg, s)
    ensures var scopes, review := Prepared(cfg, ag, s), ag.reviewer(s.round + 1);
            Round(cfg, ag, s).passed <==>
            && cfg.stopAfter in {Review, Register} && Complete(cfg, scopes)
            && review.Reviewer? && review.verdict == PASS
            && forall x | x in scopes :: !Blocked(cfg, scopes[x])
    ensures Round(cfg, ag, s).passed ==> PassIsClean(cfg, ag, Round(cfg, ag, s))
  {
    hide HasBlocker, Blocked, PrepareScope;
    var scopes := Prepared(cfg, ag, s);
    forall x | x in scopes ensures HasBlocker(cfg, scopes[x]) <==> Blocked(cfg, scopes[x]) { BlockedExactly(cfg, scopes[x]); }
    if Incomplete(cfg, scopes) == [] {
      NotIncompleteIsComplete(cfg, ag, s);
    } else {
      assert Incomplete(cfg, scopes)[0] in Incomplete(cfg, scopes);
    }
  }

  lemma {:induction false} RunPassesClean(cfg: Config, ag: Agents, s: State)
    requires Good(cfg, ag, s) && (s.passed ==> PassIsClean(cfg, ag, s))
    ensures var s' := Run(cfg, ag, s); s'.passed ==> PassIsClean(cfg, ag, s')
    decreases cfg.maxRounds - s.round
  {
    if !Done(cfg, s) {
      RoundPassesClean(cfg, ag, s);
      RoundKeepsGood(cfg, ag, s);
      RunPassesClean(cfg, ag, Round(cfg, ag, s));
    }
  }

  lemma PassedMeansClean(cfg: Config, ag: Agents)
    requires RunAll(cfg, ag).passed
    ensures PassIsClean(cfg, ag, RunAll(cfg, ag))
  {
    hide PassIsClean, Good;
    InitialIsGood(cfg, ag);
    RunPassesClean(cfg, ag, Initial(cfg));
  }

  /** `key` stands for `x`: it is the document of `x` and of no later scope, or the id of `x`
      and nobody's document. */
  ghost predicate StandsFor(order: seq<string>, scopes: Scopes, key: string, x: string)
    requires forall y | y in order :: y in scopes
  {
    || (exists i :: LastOwner(order, scopes, key, i) && order[i] == x)
    || (key == x && x in scopes && forall y | y in order :: !HasDocument(scopes[y], key))
  }

  ghost predicate LastOwner(order: seq<string>, scopes: Scopes, key: string, i: int)
    requires forall y | y in order :: y in scopes
  {
    && 0 <= i < |order| && HasDocument(scopes[order[i]], key)
    && forall j | i < j < |order| :: !HasDocument(scopes[order[j]], key)
  }

  predicate HasDocument(st: ScopeState, key: string) { st.draft.Some? && st.draft.value.docId == key }

  lemma {:induction false} OwnerIsLast(order: seq<string>, scopes: Scopes, key: string)
    requires forall y | y in order :: y in scopes
    ensures var owner := OwnerOf(order, scopes, key);
            && (owner.Some? ==> exists i :: LastOwner(order, scopes, key, i) && order[i] == owner.value)
            && (owner.None? ==> forall y | y in order :: !HasDocument(scopes[y], key))
  {
    if order != [] {
      var n := |order| - 1;
      OwnerIsLast(order[..n], scopes, key);
      assert order == order[..n] + [order[n]];
      if HasDocument(scopes[order[n]], key) {
        assert LastOwner(order, scopes, key, n);
      } else if OwnerOf(order, scopes, key).Some? {
        var i :| LastOwner(order[..n], scopes, key, i) && order[i] == OwnerOf(order, scopes, key).value;
        assert forall j | i < j < n :: order[..n][j] == order[j];
        assert LastOwner(order, scopes, key, i);
      }
    }
  }

  lemma TargetExactly(order: seq<string>, scopes: Scopes, key: string, x: string)
    requires forall y | y in order :: y in scopes
    ensures Target(order, scopes, key) == Some(x) <==> StandsFor(order, scopes, key, x)
  {
    hide HasDocument, OwnerOf;
    OwnerIsLast(order, scopes, key);
  }

  /** A valid review names `x`. */
  ghost predicate NamedBy(cfg: Config, scopes: Scopes, review: ReviewerResult, x: string)
    requires forall y | y in cfg.scopes :: y in scopes
  {
    && review.Reviewer? && review.verdict in {PASS, REDO}
    && exists k :: 0 <= k < |review.notes| && StandsFor(cfg.scopes, scopes, review.notes[k].0, x)
  }

  lemma {:induction false} RoutedExactly(order: seq<string>, scopes: Scopes, notes: seq<(string, seq<string>)>, x: string)
    requires forall y | y in order :: y in scopes
    ensures x in RouteNotes(order, scopes, notes) <==> exists k :: 0 <= k < |notes| && StandsFor(order, scopes, notes[k].0, x)
  {
    hide StandsFor;
    if notes != [] {
      var n := |notes| - 1;
      RoutedExactly(order, scopes, notes[..n], x);
      TargetExactly(order, scopes, notes[n].0, x);
      assert forall k | 0 <= k < n :: notes[..n][k] == notes[k];
    }
  }

  /** Which scopes a non-passing review sends back: those with a finding at or above the threshold,
      those a valid review names (by document or by scope id), and all of them when a valid
      REDO names none. */
  lemma {:induction false} FlaggedExactly(cfg: Config, scopes: Scopes, review: ReviewerResult, x: string)
    requires (forall y :: y in cfg.scopes <==> y in scopes) && x in scopes
    ensures x in NextRework(cfg, scopes, review) <==>
            || Blocked(cfg, scopes[x]) || NamedBy(cfg, scopes, review, x)
            || (review.Reviewer? && review.verdict == REDO
                && forall y | y in scopes :: !Blocked(cfg, scopes[y]) && !NamedBy(cfg, scopes, review, y))
  {
    hide HasBlocker, Blocked, StandsFor, RouteNotes;
    var notes := if ValidReviewer(review) then review.notes else [];
    var routed := RouteNotes(cfg.scopes, scopes, notes);
    RouteNotesNamesScopes(cfg.scopes, scopes, notes);
    forall y | y in scopes
      ensures y in routed <==> NamedBy(cfg, scopes, review, y)
      ensures HasBlocker(cfg, scopes[y]) <==> Blocked(cfg, scopes[y])
      ensures y in WithBlockers(cfg, scopes, routed) <==> y in routed || HasBlocker(cfg, scopes[y])
    {
      RoutedExactly(cfg.scopes, scopes, notes, y);
      BlockedExactly(cfg, scopes[y]);
    }
  }

  lemma {:induction false} RoutedLines(order: seq<string>, scopes: Scopes, notes: seq<(string, seq<string>)>, x: string, line: string)
    requires forall y | y in order :: y in scopes
    ensures x in RouteNotes(order, scopes, notes) && line in RouteNotes(order, scopes, notes)[x] <==>
            exists k :: 0 <= k < |notes| && StandsFor(order, scopes, notes[k].0, x) && line in notes[k].1
  {
    hide StandsFor;
    if notes != [] {
      var n := |notes| - 1;
      RoutedLines(order, scopes, notes[..n], x, line);
      TargetExactly(order, scopes, notes[n].0, x);
      assert forall k | 0 <= k < n :: notes[..n][k] == notes[k];
    }
  }

  lemma {:induction false} BlockingLinesAre(cfg: Config, findings: seq<Finding>, line: string)
    ensures line in BlockingLines(cfg, findings) <==> exists f :: f in findings && AtOrAbove(f.severity, cfg.failOn) && f.message == line
  {
    if findings != [] {
      BlockingLinesAre(cfg, findings[1..], line);
      assert findings == [findings[0]] + findings[1..];
      assert Blocks(cfg, findings[0]) <==> AtOrAbove(findings[0].severity, cfg.failOn);
    }
  }

  /** `line` is a note of a valid review for `x`, or a finding of its check that blocks. */
  ghost predicate Tells(cfg: Config, scopes: Scopes, review: ReviewerResult, x: string, line: string)
    requires forall y | y in cfg.scopes :: y in scopes
  {
    || (review.Reviewer? && review.verdict in {PASS, REDO}
        && exists k :: 0 <= k < |review.notes| && StandsFor(cfg.scopes, scopes, review.notes[k].0, x) && line in review.notes[k].1)
    || (x in scopes && scopes[x].check.Some?
        && exists f :: f in scopes[x].check.value.findings && AtOrAbove(f.severity, cfg.failOn) && f.message == line)
  }

  /** What a scope that is sent back is told: the reviewer's notes for it and its blocking findings,
      or that there were none when every scope is sent back. */
  lemma {:induction false} ReworkTells(cfg: Config, scopes: Scopes, review: ReviewerResult, x: string, line: string)
    requires (forall y :: y in cfg.scopes <==> y in scopes) && x in NextRework(cfg, scopes, review)
    ensures line in NextRework(cfg, scopes, review)[x] <==>
            if exists y :: y in scopes && (Blocked(cfg, scopes[y]) || NamedBy(cfg, scopes, review, y))
            then Tells(cfg, scopes, review, x, line)
            else line == "Reviewer requested rework without per-document notes; see review findings."
  {
    hide HasBlocker, Blocked, StandsFor, RouteNotes, BlockingLines, AtOrAbove;
    var notes := if ValidReviewer(review) then review.notes else [];
    var routed := RouteNotes(cfg.scopes, scopes, notes);
    RouteNotesNamesScopes(cfg.scopes, scopes, notes);
    NextReworkNamesScopes(cfg, scopes, review);
    RoutedLines(cfg.scopes, scopes, notes, x, line);
    forall y | y in scopes
      ensures y in routed <==> NamedBy(cfg, scopes, review, y)
      ensures HasBlocker(cfg, scopes[y]) <==> Blocked(cfg, scopes[y])
    {
      RoutedExactly(cfg.scopes, scopes, notes, y);
      BlockedExactly(cfg, scopes[y]);
    }
    BlockedByLine(cfg, scopes[x], line);
    if scopes[x].check.Some? { BlockingLinesAre(cfg, scopes[x].check.value.findings, line); }
    var all := WithBlockers(cfg, scopes, routed);
    if y :| y in scopes && (Blocked(cfg, scopes[y]) || NamedBy(cfg, scopes, review, y)) {
      assert y in all;
      assert NextRework(cfg, scopes, review) == all;
      LinesOf(cfg, scopes, routed, x, line);
      assert x in routed && line in routed[x] <==>
             ValidReviewer(review) && exists k :: 0 <= k < |review.notes| && StandsFor(cfg.scopes, scopes, review.notes[k].0, x) && line in review.notes[k].1;
    } else {
      assert forall y :: y !in all;
      assert all == map[];
    }
  }

  function LinesAt(notes: map<string, seq<string>>, x: string): seq<string> {
    if x in notes then notes[x] else []
  }

  /** Every note comes behind those before it, for the scope it stands for alone. */
  lemma {:induction false} NotesInOrder(order: seq<string>, scopes: Scopes, notes: seq<(string, seq<string>)>, note: (string, seq<string>), x: string)
    requires forall y | y in order :: y in scopes
    ensures LinesAt(RouteNotes(order, scopes, notes + [note]), x) ==
            LinesAt(RouteNotes(order, scopes, notes), x) + if StandsFor(order, scopes, note.0, x) then note.1 else []
  {
    hide StandsFor;
    assert (notes + [note])[..|notes|] == notes;
    TargetExactly(order, scopes, note.0, x);
    assert LinesAt(RouteNotes(order, scopes, notes), x) + [] == LinesAt(RouteNotes(order, scopes, notes), x);
  }

  /** Blocking findings keep their order. */
  lemma {:induction false} BlockingInOrder(cfg: Config, a: seq<Finding>, b: seq<Finding>)
    ensures BlockingLines(cfg, a + b) == BlockingLines(cfg, a) + BlockingLines(cfg, b)
    ensures forall f: Finding :: BlockingLines(cfg, [f]) == if AtOrAbove(f.severity, cfg.failOn) then [f.message] else []
  {
    forall f: Finding ensures BlockingLines(cfg, [f]) == if AtOrAbove(f.severity, cfg.failOn) then [f.message] else [] {
      assert Blocks(cfg, f) <==> AtOrAbove(f.severity, cfg.failOn);
      assert [f][1..] == [];
    }
    if a == [] { assert a + b == b; } else { assert (a + b)[1..] == a[1..] + b; BlockingInOrder(cfg, a[1..], b); }
  }

  /** The reviewer's notes come before the blocking findings. */
  lemma {:induction false} ReworkInOrder(cfg: Config, scopes: Scopes, review: ReviewerResult, x: string)
    requires (forall y :: y in cfg.scopes <==> y in scopes) && x in NextRework(cfg, scopes, review)
    requires exists y :: y in scopes && (Blocked(cfg, scopes[y]) || NamedBy(cfg, scopes, review, y))
    ensures NextRework(cfg, scopes, review)[x] ==
            LinesAt(RouteNotes(cfg.scopes, scopes, if review.Reviewer? && review.verdict in {PASS, REDO} then review.notes else []), x)
            + if x in scopes && scopes[x].check.Some? then BlockingLines(cfg, scopes[x].check.value.findings) else []
  {
    hide HasBlocker, Blocked, StandsFor, RouteNotes, BlockingLines, AtOrAbove;
    var notes := if ValidReviewer(review) then review.notes else [];
    var routed := RouteNotes(cfg.scopes, scopes, notes);
    var y :| y in scopes && (Blocked(cfg, scopes[y]) || NamedBy(cfg, scopes, review, y));
    RoutedExactly(cfg.scopes, scopes, notes, y);
    BlockedExactly(cfg, scopes[y]);
    assert y in WithBlockers(cfg, scopes, routed);
    if x in scopes {
      BlockedByLine(cfg, scopes[x], "");
      NoBlockingLines(cfg, scopes[x]);
    }
  }

  lemma NoBlockingLines(cfg: Config, st: ScopeState)
    ensures st.check.Some? && !HasBlocker(cfg, st) ==> BlockingLines(cfg, st.check.value.findings) == []
  {
    if st.check.Some? && !HasBlocker(cfg, st) { NothingBlocks(cfg, st.check.value.findings); }
  }

  lemma {:induction false} NothingBlocks(cfg: Config, findings: seq<Finding>)
    requires forall f | f in findings :: !Blocks(cfg, f)
    ensures BlockingLines(cfg, findings) == []
  {
    if findings != [] { NothingBlocks(cfg, findings[1..]); }
  }

  lemma LinesOf(cfg: Config, scopes: Scopes, routed: map<string, seq<string>>, x: string, line: string)
    requires x in WithBlockers(cfg, scopes, routed)
    ensures line in WithBlockers(cfg, scopes, routed)[x] <==>
            || (x in routed && line in routed[x])
            || (x in scopes && HasBlocker(cfg, scopes[x]) && line in BlockingLines(cfg, scopes[x].check.value.findings))
  {
    hide HasBlocker, BlockingLines;
  }

  lemma BlockedByLine(cfg: Config, st: ScopeState, line: string)
    ensures st.check.Some? && (exists f :: f in st.check.value.findings && AtOrAbove(f.severity, cfg.failOn) && f.message == line) ==> Blocked(cfg, st)
    ensures HasBlocker(cfg, st) ==> st.check.Some?
  {
  }

  /** The verdict of a review: ERROR for an unusable one, PASS for an unblocked PASS, else REDO. */
  lemma GateVerdictExactly(cfg: Config, scopes: Scopes, review: ReviewerResult)
    ensures GateVerdict(cfg, scopes, review) ==
            if review.NoReviewer? || review.verdict !in {PASS, REDO} then ERROR
            else if review.verdict == PASS && forall x | x in scopes :: !Blocked(cfg, scopes[x]) then PASS else REDO
  {
    hide HasBlocker, Blocked;
    forall x | x in scopes ensures HasBlocker(cfg, scopes[x]) <==> Blocked(cfg, scopes[x]) { BlockedExactly(cfg, scopes[x]); }
  }

  /** A worker's answer is usable. */
  predicate GivesDocument(answer: WorkerResult) {
    answer.Worker? && exists c | c in answer.docId :: !IsSpace(c)
  }

  /** What one round does to a scope. A usable document replaces the draft and any check; a draft
      without a check is checked; what is missing is listed. */
  lemma {:induction false} ScopeRoundExactly(ag: Agents, r: nat, toDraft: seq<string>, s: string, st: ScopeState)
    ensures var after, answer, checked := PrepareScope(ag, r, toDraft, s, st), ag.worker(r, s), ag.checker(r, s);
            var renewed := s in toDraft && GivesDocument(answer);
            var report := if checked.Checker? && checked.verdict in {PASS, REDO} then Some(Report(checked.findings, r)) else None;
            && after.draft == (if renewed then Some(Draft(answer.docId, r)) else st.draft)
            && after.check == (if after.draft.Some? && (renewed || st.check.None?) then report else st.check)
            && after.unresolved ==
                 (if after.draft.None? then [NoDocument] else if s in toDraft && !renewed then [ReworkFailed] else [])
                 + (if after.draft.Some? && after.check.None? then [NoReport] else [])
  {
  }

  /** What a round that skips the review leaves: every unsettled scope is told its reasons, and those
      go back to a worker that have no document or whose rework failed. */
  lemma {:induction false} SkippedExactly(cfg: Config, s: State, scopes: Scopes, x: string)
    requires forall y :: y in cfg.scopes <==> y in scopes
    requires forall y | y in scopes :: scopes[y].draft.None? ==> scopes[y].unresolved != []
    ensures var after := SkipReview(cfg, s, scopes);
            && !after.lastReviewInvalid && after.round == s.round + 1 && after.scopes == scopes
            && (x in after.rework <==> x in scopes && scopes[x].unresolved != [])
            && (x in after.toDraft <==> x in scopes && (scopes[x].draft.None? || exists u | u in scopes[x].unresolved :: u in {NoDocument, ReworkFailed}))
            && (x in after.rework ==>
                  && |after.rework[x]| == |scopes[x].unresolved|
                  && forall k | 0 <= k < |after.rework[x]| ::
                       after.rework[x][k] == match scopes[x].unresolved[k]
                                             case NoDocument => "worker produced no usable document"
                                             case ReworkFailed => "worker failed to apply the rework; document unchanged"
                                             case NoReport => "checker produced no usable report")
  {
    assert forall u :: WorkerReason(u) <==> u in {NoDocument, ReworkFailed};
  }

  /** A run that stops after the drafts lists the scopes without a document, and only those. */
  lemma {:induction false} ElicitExactly(cfg: Config, ag: Agents, s: State, x: string)
    requires cfg.stopAfter == Elicit && (forall y | y in cfg.scopes :: y in s.scopes) && x in s.scopes
    ensures var after := Round(cfg, ag, s);
            && after.stoppedEarly && !after.lastReviewInvalid && after.passed == s.passed
            && after.scopes[x].draft == (if x in s.toDraft && GivesDocument(ag.worker(s.round + 1, x))
                                         then Some(Draft(ag.worker(s.round + 1, x).docId, s.round + 1)) else s.scopes[x].draft)
            && after.scopes[x].unresolved == if after.scopes[x].draft.None? then [NoDocument] else []
  {
    hide PrepareScope, SkipReview, ReviewRound;
  }

  // --------------------------------------------------------------- follow-ups

  predicate Major(f: Finding) { f.severity in {BLOCKER, MAJOR} }

  /** Something is filed for the manager (registration-stage entries aside). */
  predicate FilesFollowup(cfg: Config, s: State) {
    || (!s.passed && exists x | x in s.scopes :: s.scopes[x].unresolved != [])
    || (exists x | x in s.scopes :: s.scopes[x].check.Some? && exists f | f in s.scopes[x].check.value.findings :: Major(f))
    || (ValidReviewer(s.review) && exists f | f in s.review.findings :: Major(f))
    || (!s.passed && s.lastReviewInvalid)
  }

  /** Why the last round of an undecided run did not pass. */
  ghost predicate LastRoundSays(cfg: Config, ag: Agents, s: State) {
    s.round >= 1 && |s.log| == s.round &&
    match s.log[s.round - 1]
    case Skipped(_, _, _) => exists x :: x in s.scopes && s.scopes[x].unresolved != []
    case Reviewed(_, _, seen, verdict, _) =>
      && seen == s.scopes && s.review == ag.reviewer(s.round)
      && (s.lastReviewInvalid <==> !ValidReviewer(s.review))
      && (forall x | x in s.scopes :: s.scopes[x].unresolved == [])
    case Stopped(_, _) => false
  }

  lemma SkipSays(cfg: Config, ag: Agents, s: State, scopes: Scopes)
    requires |s.log| == s.round && Incomplete(cfg, scopes) != []
    ensures LastRoundSays(cfg, ag, SkipReview(cfg, s, scopes))
  {
    var x := Incomplete(cfg, scopes)[0];
    assert x in Incomplete(cfg, scopes);
    assert x in scopes && scopes[x].unresolved != [];
  }

  lemma ReviewSays(cfg: Config, ag: Agents, s: State, scopes: Scopes)
    requires |s.log| == s.round && (forall x :: x in cfg.scopes <==> x in scopes) && Complete(cfg, scopes)
    ensures LastRoundSays(cfg, ag, ReviewRound(cfg, ag, s, scopes))
  {
  }

  lemma RoundSays(cfg: Config, ag: Agents, s: State)
    requires WellLogged(cfg, s) && cfg.stopAfter !in {Elicit, Check} && !s.stoppedEarly
    ensures LastRoundSays(cfg, ag, Round(cfg, ag, s)) && !Round(cfg, ag, s).stoppedEarly
  {
    hide Complete, GateVerdict, NextRework, ValidReviewer;
    var scopes := Prepared(cfg, ag, s);
    if Incomplete(cfg, scopes) != [] {
      SkipSays(cfg, ag, s, scopes);
      assert Round(cfg, ag, s) == SkipReview(cfg, s, scopes);
    } else {
      NotIncompleteIsComplete(cfg, ag, s);
      ReviewSays(cfg, ag, s, scopes);
      assert Round(cfg, ag, s) == ReviewRound(cfg, ag, s, scopes);
    }
  }

  lemma {:induction false} RunSays(cfg: Config, ag: Agents, s: State)
    requires Good(cfg, ag, s) && !Done(cfg, s) && cfg.stopAfter !in {Elicit, Check}
    ensures LastRoundSays(cfg, ag, Run(cfg, ag, s)) && !Run(cfg, ag, s).stoppedEarly
    decreases cfg.maxRounds - s.round
  {
    var s' := Round(cfg, ag, s);
    RoundSays(cfg, ag, s);
    RoundKeepsGood(cfg, ag, s);
    if Done(cfg, s') { assert Run(cfg, ag, s') == s'; } else { RunSays(cfg, ag, s'); }
  }

  lemma EveryRunSays(cfg: Config, ag: Agents)
    requires ValidArgs(cfg) && cfg.stopAfter !in {Elicit, Check}
    ensures LastRoundSays(cfg, ag, RunAll(cfg, ag))
  {
    RunSays(cfg, ag, Initial(cfg));
  }

  /** A gate that gives up files nothing exactly when its last review was valid and neither
      it nor any stored check holds a BLOCKER or MAJOR finding. */
  lemma {:induction false} SilentFailureExactly(cfg: Config, ag: Agents, s: State)
    requires ValidArgs(cfg) && cfg.stopAfter !in {Elicit, Check} && s == RunAll(cfg, ag) && !s.passed
    ensures s.round >= 1 && |s.log| == s.round
    ensures !FilesFollowup(cfg, s) <==>
            && s.log[s.round - 1].Reviewed? && ValidReviewer(ag.reviewer(s.round))
            && (forall f | f in ag.reviewer(s.round).findings :: f.severity in {MINOR, NIT, Unranked})
            && (forall x | x in s.scopes && s.scopes[x].check.Some? :: forall f | f in s.scopes[x].check.value.findings :: f.severity in {MINOR, NIT, Unranked})
  {
    EveryRunSays(cfg, ag);
    SilenceOf(cfg, ag, s);
  }

  lemma SilenceOf(cfg: Config, ag: Agents, s: State)
    requires LastRoundSays(cfg, ag, s) && !s.passed
    ensures !FilesFollowup(cfg, s) <==>
            && s.log[s.round - 1].Reviewed? && ValidReviewer(ag.reviewer(s.round))
            && (forall f | f in ag.reviewer(s.round).findings :: f.severity in {MINOR, NIT, Unranked})
            && (forall x | x in s.scopes && s.scopes[x].check.Some? :: forall f | f in s.scopes[x].check.value.findings :: f.severity in {MINOR, NIT, Unranked})
  {
    forall f ensures Major(f) <==> f.severity !in {MINOR, NIT, Unranked} {
      match f.severity
      case BLOCKER => case MAJOR => case MINOR => case NIT => case Unranked =>
    }
  }

  /** When every first worker and checker answers, round 1 reaches the reviewer. */
  lemma FirstRoundReachesReview(cfg: Config, ag: Agents)
    requires forall x | x in cfg.scopes :: ValidWorker(ag.worker(1, x)) && ValidChecker(ag.checker(1, x))
    ensures var scopes := Prepared(cfg, ag, Initial(cfg));
            && Incomplete(cfg, scopes) == []
            && forall x | x in scopes :: scopes[x].unresolved == [] && scopes[x].check == Some(Report(ag.checker(1, x).findings, 1))
  {
    var scopes := Prepared(cfg, ag, Initial(cfg));
    forall x | x in scopes ensures scopes[x].unresolved == [] && scopes[x].check == Some(Report(ag.checker(1, x).findings, 1)) {
      assert Redrafted(ag, 1, cfg.scopes, x);
    }
    NoneKept(cfg.scopes, x => x in scopes && scopes[x].unresolved != []);
  }

  lemma NoneKept(order: seq<string>, p: string -> bool)
    ensures Keep(order, p) == [] <==> forall x | x in order :: !p(x)
  {
    if Keep(order, p) != [] { assert Keep(order, p)[0] in Keep(order, p); }
  }

  lemma SingleRound(cfg: Config, ag: Agents)
    requires cfg.maxRounds == 1
    ensures RunAll(cfg, ag) == Round(cfg, ag, Initial(cfg))
  {
    assert Run(cfg, ag, Round(cfg, ag, Initial(cfg))) == Round(cfg, ag, Initial(cfg));
  }

  /** Such a run exists: with one round, answering agents and a REDO without findings. */
  lemma {:induction false} SilentFailureExists(cfg: Config, ag: Agents)
    requires ValidArgs(cfg) && cfg.maxRounds == 1 && cfg.stopAfter !in {Elicit, Check}
    requires forall x | x in cfg.scopes :: ag.worker(1, x) == Worker("d1") && ag.checker(1, x) == Checker(PASS, [])
    requires ag.reviewer(1) == Reviewer(REDO, [], [])
    ensures !RunAll(cfg, ag).passed && !FilesFollowup(cfg, RunAll(cfg, ag))
  {
    hide Prepared, Round, Run, RunAll, Incomplete, ReviewRound, FilesFollowup, ValidChecker;
    var scopes := Prepared(cfg, ag, Initial(cfg));
    assert "d1"[0] in "d1";
    forall x | x in cfg.scopes ensures ValidChecker(ag.checker(1, x)) { PassIsValid(); }
    FirstRoundReachesReview(cfg, ag);
    SingleRound(cfg, ag);
    RoundReviews(cfg, ag, Initial(cfg));
    PreparedHas(cfg, ag, Initial(cfg));
    RedoWithoutFindings(cfg, ag, Initial(cfg), scopes);
  }

  lemma PassIsValid()
    ensures ValidChecker(Checker(PASS, []))
  {
  }

  lemma PreparedHas(cfg: Config, ag: Agents, s: State)
    ensures Prepared(cfg, ag, s).Keys == s.scopes.Keys
  {
  }

  lemma RoundReviews(cfg: Config, ag: Agents, s: State)
    requires (forall x | x in cfg.scopes :: x in s.scopes) && cfg.stopAfter !in {Elicit, Check}
    requires Incomplete(cfg, Prepared(cfg, ag, s)) == []
    ensures (forall x | x in cfg.scopes :: x in Prepared(cfg, ag, s))
    ensures Round(cfg, ag, s) == ReviewRound(cfg, ag, s, Prepared(cfg, ag, s))
  {
  }

  lemma RedoWithoutFindings(cfg: Config, ag: Agents, s: State, scopes: Scopes)
    requires (forall x | x in cfg.scopes :: x in scopes) && ag.reviewer(s.round + 1) == Reviewer(REDO, [], []) && !s.passed
    requires forall x | x in scopes :: scopes[x].unresolved == [] && scopes[x].check == Some(Report([], 1))
    ensures var s' := ReviewRound(cfg, ag, s, scopes); !s'.passed && !FilesFollowup(cfg, s')
  {
  }

  // -------------------------------------------------------- the imperative loop

  /** Workers run on `toDraft`; each valid answer updates its scope's state in place. */
  method DraftScopes(ag: Agents, r: nat, toDraft: seq<string>, scopes: Scopes) returns (after: Scopes, redrafted: set<string>)
    requires forall x | x in toDraft :: x in scopes
    ensures after == DraftPhase(ag, r, toDraft, scopes)
    ensures forall x :: x in redrafted <==> Redrafted(ag, r, toDraft, x)
  {
    after, redrafted := scopes, {};
    for i := 0 to |toDraft|
      invariant after == DraftPhase(ag, r, toDraft[..i], scopes)
      invariant forall x :: x in redrafted <==> Redrafted(ag, r, toDraft[..i], x)
    {
      var x := toDraft[i];
      var answer := ag.worker(r, x);
      assert toDraft[..i + 1] == toDraft[..i] + [x];
      if ValidWorker(answer) {
        after := after[x := after[x].(draft := Some(Draft(answer.docId, r)), check := None)];
        redrafted := redrafted + {x};
      }
    }
    assert toDraft[..|toDraft|] == toDraft;
  }

  /** Checkers run on every drafted scope without a check. */
  method CheckScopes(ag: Agents, r: nat, order: seq<string>, scopes: Scopes) returns (after: Scopes)
    requires forall x :: x in order <==> x in scopes
    ensures after == map x | x in scopes :: CheckScope(ag, r, x, scopes[x])
  {
    after := scopes;
    for i := 0 to |order|
      invariant after == map x | x in scopes :: if x in order[..i] then CheckScope(ag, r, x, scopes[x]) else scopes[x]
    {
      var x := order[i];
      assert order[..i + 1] == order[..i] + [x];
      if NeedsCheck(after[x]) {
        var answer := ag.checker(r, x);
        if ValidChecker(answer) { after := after[x := after[x].(check := Some(Report(answer.findings, r)))]; }
      }
    }
    assert order[..|order|] == order;
  }

  /** Why can each scope not pass right now? */
  method AssessScopes(order: seq<string>, toDraft: seq<string>, redrafted: set<string>, scopes: Scopes) returns (after: Scopes)
    requires forall x :: x in order <==> x in scopes
    ensures after == map x | x in scopes :: scopes[x].(unresolved := Unresolved(scopes[x], x in toDraft && x !in redrafted))
  {
    after := scopes;
    for i := 0 to |order|
      invariant after == map x | x in scopes ::
        if x in order[..i] then scopes[x].(unresolved := Unresolved(scopes[x], x in toDraft && x !in redrafted)) else scopes[x]
    {
      var x := order[i];
      assert order[..i + 1] == order[..i] + [x];
      var reasons := [];
      if after[x].draft.None? { reasons := [NoDocument]; }
      else if x in toDraft && x !in redrafted { reasons := [ReworkFailed]; }
      if NeedsCheck(after[x]) { reasons := reasons + [NoReport]; }
      assert after[x].draft == scopes[x].draft && after[x].check == scopes[x].check;
      assert reasons == Unresolved(scopes[x], x in toDraft && x !in redrafted);
      after := after[x := after[x].(unresolved := reasons)];
    }
    assert order[..|order|] == order;
  }

  /** Reviewer notes by document or scope id, in entry order. */
  method CollectNotes(order: seq<string>, scopes: Scopes, notes: seq<(string, seq<string>)>) returns (routed: map<string, seq<string>>)
    requires forall x | x in order :: x in scopes
    ensures routed == RouteNotes(order, scopes, notes)
  {
    routed := map[];
    for i := 0 to |notes|
      invariant routed == RouteNotes(order, scopes, notes[..i])
    {
      assert notes[..i + 1][..i] == notes[..i];
      var target := Target(order, scopes, notes[i].0);
      if target.Some? { routed := Append(routed, target.value, notes[i].1); }
    }
    assert notes[..|notes|] == notes;
  }

  /** The three phases, one after the other, prepare every scope. */
  lemma PhasesPrepare(cfg: Config, ag: Agents, s: State, redrafted: set<string>)
    requires forall x :: x in redrafted <==> Redrafted(ag, s.round + 1, s.toDraft, x)
    ensures var drafted := DraftPhase(ag, s.round + 1, s.toDraft, s.scopes);
            var checked := map x | x in drafted :: CheckScope(ag, s.round + 1, x, drafted[x]);
            (map x | x in checked :: checked[x].(unresolved := Unresolved(checked[x], x in s.toDraft && x !in redrafted))) == Prepared(cfg, ag, s)
  {
    hide Unresolved, Redrafted;
  }

  method PlayRound(cfg: Config, ag: Agents, s: State) returns (s': State)
    requires (forall x :: x in cfg.scopes <==> x in s.scopes) && forall x | x in s.toDraft :: x in s.scopes
    ensures s' == Round(cfg, ag, s)
  {
    hide ElicitOnly, CheckScope, Unresolved, Redrafted, Prepared, Incomplete, SkipReview, ReviewRound;
    var r := s.round + 1;
    var scopes, redrafted := DraftScopes(ag, r, s.toDraft, s.scopes);
    var stop := s.(round := r, stoppedEarly := true, lastReviewInvalid := false, log := s.log + [Stopped(r, s.toDraft)]);
    if cfg.stopAfter == Elicit {
      return stop.(scopes := ElicitOnly(scopes));
    }
    scopes := CheckScopes(ag, r, cfg.scopes, scopes);
    scopes := AssessScopes(cfg.scopes, s.toDraft, redrafted, scopes);
    PhasesPrepare(cfg, ag, s, redrafted);
    if cfg.stopAfter == Check { return stop.(scopes := scopes); }
    if Incomplete(cfg, scopes) != [] { return SkipReview(cfg, s, scopes); }
    s' := ReviewDocuments(cfg, ag, s, scopes);
  }

  method ReviewDocuments(cfg: Config, ag: Agents, s: State, scopes: Scopes) returns (s': State)
    requires forall x :: x in cfg.scopes <==> x in scopes
    ensures s' == ReviewRound(cfg, ag, s, scopes)
  {
    hide RouteNotes, WithBlockers, Keep, HasBlocker;
    var r := s.round + 1;
    var review := ag.reviewer(r);
    s' := s.(round := r, scopes := scopes, review := review, lastReviewInvalid := !ValidReviewer(review));
    var verdict := if ValidReviewer(review) then review.verdict else ERROR;
    var blocked := exists x | x in scopes :: HasBlocker(cfg, scopes[x]);
    if verdict == PASS && blocked { verdict := REDO; }
    if verdict == PASS {
      s' := s'.(passed := true, log := s.log + [Reviewed(r, s.toDraft, scopes, PASS, {})]);
      return;
    }
    var next := CollectNotes(cfg.scopes, scopes, if ValidReviewer(review) then review.notes else []);
    next := WithBlockers(cfg, scopes, next);
    if next == map[] && verdict == REDO { next := map x | x in cfg.scopes :: [NO_NOTES]; }
    s' := s'.(toDraft := Keep(cfg.scopes, x => x in next), rework := next,
              log := s.log + [Reviewed(r, s.toDraft, scopes, verdict, next.Keys)]);
  }

  method RunGate(cfg: Config, ag: Agents) returns (s: State)
    requires ValidArgs(cfg)
    ensures s == RunAll(cfg, ag)
  {
    s := Initial(cfg);
    while !Done(cfg, s)
      invariant forall x :: x in cfg.scopes <==> x in s.scopes
      invariant forall x | x in s.toDraft :: x in s.scopes
      invariant Good(cfg, ag, s) && Run(cfg, ag, s) == RunAll(cfg, ag)
      decreases cfg.maxRounds - s.round
    {
      RoundKeepsGood(cfg, ag, s);
      s := PlayRound(cfg, ag, s);
    }
  }
}
