/** Verdicts, findings and their routing (the `verdict-logic` block of session-execute).

Agent results are modelled in their structured form: either nothing (a crash) or
an object with a verdict and findings. Notes are the findings they render.
*/
module Verdicts {

  /** Every value a `verdict` field can be read as; `CHANGES_REQUESTED` is the reviewer's request
      for changes, `Unrecognised` any other value. */
  datatype Verdict = PASS | PASS_WITH_NITS | FAIL | APPROVE | CHANGES_REQUESTED | ERROR | Unrecognised

  datatype Severity = BLOCKER | MAJOR | MINOR | NIT

  /** The task id that stands for the whole session. */
  const ANY_TASK := "*"

  datatype Finding = Finding(taskId: string, severity: Severity, location: string, problem: string)

  datatype AgentResult = Crashed | Structured(verdict: Verdict, findings: seq<Finding>, report: string)

  datatype Stage = TestStage | ReviewStage

  // ------------------------------------------------------------------ verdicts

  /** Also `normalizeIntegrationVerdict`: a crash or any other value is an ERROR. */
  function NormalizeTestVerdict(r: AgentResult): (v: Verdict)
    ensures v in {PASS, PASS_WITH_NITS, FAIL, ERROR}
    ensures r.Crashed? ==> v == ERROR
  {
    match r
    case Crashed => ERROR
    case Structured(v, _, _) => if v in {PASS, PASS_WITH_NITS, FAIL} then v else ERROR
  }

  function NormalizeReviewVerdict(r: AgentResult): (v: Verdict)
    ensures v in {APPROVE, CHANGES_REQUESTED, ERROR}
    ensures r.Crashed? ==> v == ERROR
  {
    match r
    case Crashed => ERROR
    case Structured(v, _, _) => if v in {APPROVE, CHANGES_REQUESTED} then v else ERROR
  }

  /** What the ledger says of a result: its own verdict if it is one of the stage's, else ERROR. */
  lemma NormalizedExactly(stage: Stage, r: AgentResult)
    ensures Normalized(stage, r) ==
            if r.Crashed? then ERROR
            else if r.verdict == FAIL && stage == TestStage then FAIL
            else if r.verdict == CHANGES_REQUESTED && stage == ReviewStage then CHANGES_REQUESTED
            else if Affirmative(stage, r) then r.verdict else ERROR
    ensures Affirmative(stage, r) <==>
            r.Structured? && r.verdict in (if stage == TestStage then {PASS, PASS_WITH_NITS} else {APPROVE})
    ensures SchemaShaped(stage, r) <==> r.Crashed? || Normalized(stage, r) == r.verdict != ERROR
  {
  }

  function Normalized(stage: Stage, r: AgentResult): Verdict {
    match stage
    case TestStage => NormalizeTestVerdict(r)
    case ReviewStage => NormalizeReviewVerdict(r)
  }

  predicate IsIntegrationPassed(r: AgentResult) {
    NormalizeTestVerdict(r) == PASS || NormalizeTestVerdict(r) == PASS_WITH_NITS
  }

  predicate IsReviewApproved(r: AgentResult) {
    NormalizeReviewVerdict(r) == APPROVE
  }

  /** The stage's own notion of an affirmative verdict. */
  predicate Affirmative(stage: Stage, r: AgentResult) {
    match stage
    case TestStage => IsIntegrationPassed(r)
    case ReviewStage => IsReviewApproved(r)
  }

  /** What the stage's output schema admits. */
  predicate SchemaShaped(stage: Stage, r: AgentResult) {
    r.Crashed? ||
    r.verdict in (match stage case TestStage => {PASS, PASS_WITH_NITS, FAIL} case ReviewStage => {APPROVE, CHANGES_REQUESTED})
  }

  lemma EmptyMeansNoMember(s: seq<Finding>)
    ensures s == [] <==> forall f :: f !in s
  {
    if s != [] { assert s[0] in s; }
  }

  // ---------------------------------------------------------------- follow-ups

  datatype Followup = Followup(source: string, crashed: bool, taskId: string, severity: Severity, location: string, problem: string)

  predicate PassingAnywhere(v: Verdict) {
    v in {APPROVE, PASS, PASS_WITH_NITS}
  }

  /** One entry per still-open finding of a final-round result. */
  function ExtractUnresolvedFindings(r: AgentResult, source: string): seq<Followup> {
    match r
    case Crashed => [Followup(source, true, ANY_TASK, BLOCKER, "", "the agent crashed; no verification ran")]
    case Structured(v, findings, report) =>
      if PassingAnywhere(v) then []
      else if findings == [] then [Followup(source, false, ANY_TASK, MAJOR, "", report)]
      else seq(|findings|, k requires 0 <= k < |findings| =>
                 Followup(source, false, if findings[k].taskId != "" then findings[k].taskId else ANY_TASK,
                          findings[k].severity, findings[k].location, findings[k].problem))
  }

  /** A result that stopped its stage leaves no follow-up exactly when it carries
      the other stage's affirmative verdict. */
  predicate Silent(stage: Stage, r: AgentResult) {
    r.Structured? && r.verdict in (match stage case TestStage => {APPROVE} case ReviewStage => {PASS, PASS_WITH_NITS})
  }

  lemma UnresolvedIsSilentExactly(stage: Stage, r: AgentResult, source: string)
    requires !Affirmative(stage, r)
    ensures ExtractUnresolvedFindings(r, source) == [] <==> Silent(stage, r)
    ensures SchemaShaped(stage, r) ==> ExtractUnresolvedFindings(r, source) != []
  {
    if r.Structured? && !PassingAnywhere(r.verdict) {
      assert |ExtractUnresolvedFindings(r, source)| >= 1;
    }
  }

  /** A crash is one BLOCKER for all tasks, marked as such; a failing result without findings is
      one MAJOR with its report; of any other failing result every finding keeps its place,
      severity, text and (non-empty) task. Each names the stage it comes from. */
  lemma UnresolvedKeepsEveryFinding(r: AgentResult, source: string, k: nat)
    ensures var out := ExtractUnresolvedFindings(r, source);
            && (forall f | f in out :: f.source == source && f.taskId != "" && (f.crashed <==> r.Crashed?))
            && (r.Crashed? ==> |out| == 1 && out[0].severity == BLOCKER && out[0].taskId == "*" && out[0].location == "")
            && (r.Structured? && r.verdict !in {APPROVE, PASS, PASS_WITH_NITS} ==>
                  && |out| == (if |r.findings| == 0 then 1 else |r.findings|)
                  && (|r.findings| == 0 ==> out[0] == Followup(source, false, "*", MAJOR, "", r.report))
                  && (k < |r.findings| ==>
                        && out[k].severity == r.findings[k].severity && out[k].location == r.findings[k].location
                        && out[k].problem == r.findings[k].problem
                        && out[k].taskId == (if r.findings[k].taskId == "" then "*" else r.findings[k].taskId)))
  {
  }

  // ------------------------------------------------------------- rework notes

  /** What a developer is told: findings, or a digest when nothing is attributable. */
  datatype Note = Note(sessionWide: bool, round: nat, shown: seq<Finding>, digest: string)

  function Named(findings: seq<Finding>, id: string): (mine: seq<Finding>)
    ensures forall f :: f in mine <==> f in findings && f.taskId == id
  {
    if findings == [] then []
    else if findings[0].taskId == id then [findings[0]] + Named(findings[1..], id)
    else Named(findings[1..], id)
  }

  /** Findings that name no task of this session ('*' excluded). */
  function Unroutable(findings: seq<Finding>, ids: seq<string>): (lost: seq<Finding>)
    ensures forall f :: f in lost <==> f in findings && f.taskId != ANY_TASK && f.taskId !in ids
  {
    if findings == [] then []
    else if findings[0].taskId != ANY_TASK && findings[0].taskId !in ids then [findings[0]] + Unroutable(findings[1..], ids)
    else Unroutable(findings[1..], ids)
  }

  function Applicable(findings: seq<Finding>, shared: seq<Finding>, id: string): seq<Finding> {
    Named(findings, id) + shared
  }

  /** The per-task loop both extractors run: a note for every id with an applicable finding. */
  function Attributed(findings: seq<Finding>, shared: seq<Finding>, ids: seq<string>, round: nat): map<string, Note> {
    map id | id in ids && Applicable(findings, shared, id) != [] :: Note(false, round, Applicable(findings, shared, id), "")
  }

  function ToEveryTask(ids: seq<string>, note: Note): map<string, Note> {
    map id | id in ids :: note
  }

  /** Findings every task is shown: '*' and, for the integration tester, the unroutable ones. */
  function Shared(stage: Stage, findings: seq<Finding>, ids: seq<string>): seq<Finding> {
    Named(findings, ANY_TASK) + (if stage.TestStage? then Unroutable(findings, ids) else [])
  }

  /** Specification of both extractors. */
  function ReworkNotes(stage: Stage, r: AgentResult, ids: seq<string>, round: nat): map<string, Note> {
    if ids == [] || Affirmative(stage, r) then map[]
    else match r
         case Crashed => if stage.TestStage? then ToEveryTask(ids, Note(true, round, [], "crashed")) else map[]
         case Structured(_, findings, report) =>
           var notes := Attributed(findings, Shared(stage, findings, ids), ids, round);
           if notes == map[] then ToEveryTask(ids, Note(true, round, findings, if findings == [] then report else "")) else notes
  }

  /** The `for (const taskId of taskIds)` loop over a growing Map. */
  method AttributeFindings(findings: seq<Finding>, shared: seq<Finding>, ids: seq<string>, round: nat) returns (notes: map<string, Note>)
    ensures notes == Attributed(findings, shared, ids, round)
  {
    notes := map[];
    for i := 0 to |ids|
      invariant notes == Attributed(findings, shared, ids[..i], round)
    {
      var applicable := Applicable(findings, shared, ids[i]);
      assert ids[..i + 1] == ids[..i] + [ids[i]];
      if applicable != [] {
        notes := notes[ids[i] := Note(false, round, applicable, "")];
      }
    }
    assert ids[..|ids|] == ids;
  }

  method ExtractIntegrationReworkNotes(r: AgentResult, ids: seq<string>, round: nat) returns (notes: map<string, Note>)
    ensures notes == ReworkNotes(TestStage, r, ids, round)
  {
    if ids == [] || IsIntegrationPassed(r) { return map[]; }
    if r.Crashed? { return ToEveryTask(ids, Note(true, round, [], "crashed")); }
    notes := AttributeFindings(r.findings, Named(r.findings, ANY_TASK) + Unroutable(r.findings, ids), ids, round);
    if notes == map[] {
      notes := ToEveryTask(ids, Note(true, round, r.findings, if r.findings == [] then r.report else ""));
    }
  }

  method ExtractReviewReworkNotes(r: AgentResult, ids: seq<string>, round: nat) returns (notes: map<string, Note>)
    ensures notes == ReworkNotes(ReviewStage, r, ids, round)
  {
    if r.Crashed? || IsReviewApproved(r) { return map[]; }
    assert Named(r.findings, ANY_TASK) + [] == Named(r.findings, ANY_TASK);
    notes := AttributeFindings(r.findings, Named(r.findings, ANY_TASK), ids, round);
    if notes == map[] {
      notes := ToEveryTask(ids, Note(true, round, r.findings, if r.findings == [] then r.report else ""));
    }
  }

  /** `f` is told to the owner of `id`. */
  ghost predicate Told(notes: map<string, Note>, id: string, f: Finding) {
    id in notes && f in notes[id].shown
  }

  /** Picking by task keeps the order and every repetition. */
  lemma {:induction false} NamedIsFilter(a: seq<Finding>, b: seq<Finding>, id: string)
    ensures Named(a + b, id) == Named(a, id) + Named(b, id)
    ensures forall f: Finding :: Named([f], id) == if f.taskId == id then [f] else []
  {
    if a == [] { assert a + b == b; } else { assert (a + b)[1..] == a[1..] + b; NamedIsFilter(a[1..], b, id); }
  }

  lemma {:induction false} UnroutableIsFilter(a: seq<Finding>, b: seq<Finding>, ids: seq<string>)
    ensures Unroutable(a + b, ids) == Unroutable(a, ids) + Unroutable(b, ids)
    ensures forall f: Finding :: Unroutable([f], ids) == if f.taskId == "*" || f.taskId in ids then [] else [f]
  {
    if a == [] { assert a + b == b; } else { assert (a + b)[1..] == a[1..] + b; UnroutableIsFilter(a[1..], b, ids); }
  }

  /** What a developer is told. After a crash only that; otherwise first the findings that name the task,
      then those for all tasks, the tester's strays last. When nothing can be attributed, all findings,
      or the report if there are none. */
  lemma NoteExactly(stage: Stage, r: AgentResult, ids: seq<string>, round: nat, id: string)
    requires id in ReworkNotes(stage, r, ids, round)
    ensures var note := ReworkNotes(stage, r, ids, round)[id];
            && note.round == round && !Affirmative(stage, r) && id in ids
            && (note.sessionWide <==> r.Crashed? || forall x, f | x in ids && f in r.findings :: f.taskId != x && !ForAll(stage, f, ids))
            && (r.Crashed? ==> stage == TestStage && note.shown == [] && note.digest != "")
            && (r.Structured? && note.sessionWide ==> note.shown == r.findings && note.digest == if r.findings == [] then r.report else "")
            && (!note.sessionWide ==> note.digest == "" && note.shown == Named(r.findings, id) + Named(r.findings, "*")
                                        + if stage == TestStage then Unroutable(r.findings, ids) else [])
  {
    hide Named, Unroutable, Attributed, ForAll;
    if r.Structured? {
      NothingAttributed(stage, r.findings, ids, round);
      AttributedNote(stage, r.findings, ids, round);
    }
  }

  lemma {:induction false} NothingAttributed(stage: Stage, findings: seq<Finding>, ids: seq<string>, round: nat)
    ensures Attributed(findings, Shared(stage, findings, ids), ids, round) == map[] <==>
            forall x, f | x in ids && f in findings :: f.taskId != x && !ForAll(stage, f, ids)
  {
    var shared := Shared(stage, findings, ids);
    var notes := Attributed(findings, shared, ids, round);
    if x, f :| x in ids && f in findings && (f.taskId == x || ForAll(stage, f, ids)) {
      assert f in Applicable(findings, shared, x);
      assert x in notes;
    } else {
      forall x | x in ids ensures Applicable(findings, shared, x) == [] { EmptyMeansNoMember(Applicable(findings, shared, x)); }
      assert notes == map[];
    }
  }

  lemma AttributedNote(stage: Stage, findings: seq<Finding>, ids: seq<string>, round: nat)
    ensures var notes := Attributed(findings, Shared(stage, findings, ids), ids, round);
            forall id | id in notes :: id in ids && notes[id] == Note(false, round,
              Named(findings, id) + Named(findings, "*") + if stage == TestStage then Unroutable(findings, ids) else [], "")
  {
    hide Named, Unroutable;
    var strays := if stage == TestStage then Unroutable(findings, ids) else [];
    forall id ensures Named(findings, id) + (Named(findings, "*") + strays) == Named(findings, id) + Named(findings, "*") + strays {
    }
  }

  /** The finding is for every task: it says so or, at the tester, names no task of the session. */
  predicate ForAll(stage: Stage, f: Finding, ids: seq<string>) {
    f.taskId == "*" || (stage == TestStage && f.taskId !in ids)
  }

  lemma NotesNameOnlyTasks(stage: Stage, r: AgentResult, ids: seq<string>, round: nat)
    ensures forall id | id in ReworkNotes(stage, r, ids, round) :: id in ids
  {
  }

  /** A failing integration result always reaches somebody. */
  lemma IntegrationNotesReachSomebody(r: AgentResult, ids: seq<string>, round: nat)
    ensures ReworkNotes(TestStage, r, ids, round) == map[] <==> ids == [] || IsIntegrationPassed(r)
  {
    if ids != [] && !IsIntegrationPassed(r) {
      var notes := ReworkNotes(TestStage, r, ids, round);
      assert notes == map[] ==> false by {
        if r.Crashed? { assert ids[0] in notes; }
        else if Attributed(r.findings, Shared(TestStage, r.findings, ids), ids, round) == map[] { assert ids[0] in notes; }
      }
    }
  }

  /** A failing review reaches somebody unless the reviewer crashed: a crash clears
      every note, so no developer is relaunched. */
  lemma ReviewNotesReachSomebody(r: AgentResult, ids: seq<string>, round: nat)
    ensures ReworkNotes(ReviewStage, r, ids, round) == map[] <==> ids == [] || r.Crashed? || IsReviewApproved(r)
  {
    if ids != [] && r.Structured? && !IsReviewApproved(r) {
      var notes := ReworkNotes(ReviewStage, r, ids, round);
      assert notes == map[] ==> false by {
        if Attributed(r.findings, Shared(ReviewStage, r.findings, ids), ids, round) == map[] { assert ids[0] in notes; }
      }
    }
  }

  /** Where a finding of a failing integration result goes: to its own task alone,
      or, when it names none of the session's tasks, to all of them. */
  lemma IntegrationRouting(r: AgentResult, ids: seq<string>, round: nat, f: Finding, id: string)
    requires !IsIntegrationPassed(r) && r.Structured? && f in r.findings && id in ids
    ensures Told(ReworkNotes(TestStage, r, ids, round), id, f) <==> f.taskId == id || f.taskId == ANY_TASK || f.taskId !in ids
  {
    var shared := Shared(TestStage, r.findings, ids);
    var notes := Attributed(r.findings, shared, ids, round);
    if f.taskId in ids {
      assert f in Applicable(r.findings, shared, f.taskId);
      assert f.taskId in notes;
    }
    if f.taskId == ANY_TASK || f.taskId !in ids {
      assert f in shared;
      assert f in Applicable(r.findings, shared, id);
      assert id in notes;
    }
    if f.taskId == id { assert f in Named(r.findings, id); }
  }

  /** No finding of a failing integration result is lost. */
  lemma IntegrationLosesNothing(r: AgentResult, ids: seq<string>, round: nat, f: Finding)
    requires !IsIntegrationPassed(r) && r.Structured? && f in r.findings && ids != []
    ensures exists id :: Told(ReworkNotes(TestStage, r, ids, round), id, f)
  {
    var id := if f.taskId in ids then f.taskId else ids[0];
    IntegrationRouting(r, ids, round, f, id);
  }

  /** The reviewer's findings: one that names another session's task is dropped as
      soon as any finding is attributable, and only then. */
  lemma ReviewRouting(r: AgentResult, ids: seq<string>, round: nat, f: Finding)
    requires !IsReviewApproved(r) && r.Structured? && f in r.findings && ids != []
    ensures (exists id :: Told(ReworkNotes(ReviewStage, r, ids, round), id, f))
            <==> f.taskId == ANY_TASK || f.taskId in ids || (forall g | g in r.findings :: g.taskId != ANY_TASK && g.taskId !in ids)
  {
    var shared := Shared(ReviewStage, r.findings, ids);
    assert shared == Named(r.findings, ANY_TASK);
    var notes := Attributed(r.findings, shared, ids, round);
    forall g | g in r.findings && (g.taskId == ANY_TASK || g.taskId in ids)
      ensures notes != map[]
      ensures exists id :: Told(notes, id, g)
    {
      var id := if g.taskId in ids then g.taskId else ids[0];
      assert g in Applicable(r.findings, shared, id);
      assert id in notes && Told(notes, id, g);
    }
    if forall g | g in r.findings :: g.taskId != ANY_TASK && g.taskId !in ids {
      forall id | id in ids ensures Applicable(r.findings, shared, id) == [] {
        EmptyMeansNoMember(Applicable(r.findings, shared, id));
      }
      assert notes == map[];
      assert Told(ReworkNotes(ReviewStage, r, ids, round), ids[0], f);
    } else {
      assert ReworkNotes(ReviewStage, r, ids, round) == notes;
      if f.taskId == ANY_TASK || f.taskId in ids {
        assert exists id :: Told(notes, id, f);
      } else {
        forall id ensures !Told(notes, id, f) {
          assert f !in Applicable(r.findings, shared, id) || f.taskId == id;
        }
      }
    }
  }

  /** The dropped finding exists: a review naming t1 and an outside task forgets the latter. */
  lemma ReviewDropsAnOutsideFinding()
    ensures var lost := Finding("t9", MAJOR, "", "p");
            var r := Structured(CHANGES_REQUESTED, [Finding("t1", MAJOR, "", "q"), lost], "");
            !exists id :: Told(ReworkNotes(ReviewStage, r, ["t1"], 1), id, lost)
  {
    var lost := Finding("t9", MAJOR, "", "p");
    var mine := Finding("t1", MAJOR, "", "q");
    var r := Structured(CHANGES_REQUESTED, [mine, lost], "");
    assert r.findings[0] == mine && r.findings[1] == lost;
    ReviewRouting(r, ["t1"], 1, lost);
    assert mine in r.findings && mine.taskId in ["t1"];
  }

  // ---------------------------------------------------------- spec-reconcile

  datatype Mode = Audit | Apply

  datatype Ambiguity = Ambiguity(taskId: string, detail: string)

  /** `mode` is what the agent says it did, if it says so. */
  datatype ReconcileResult =
    | NoResult
    | Reconciled(mode: Mode, modeGiven: bool, ambiguities: seq<Ambiguity>, traceUpdates: nat, impacts: nat)

  datatype Folded = Folded(mode: Mode, failed: bool, followups: seq<Followup>, impactWarnings: nat, auditWarning: bool)

  function FoldSpecReconcilerResult(r: ReconcileResult, mode: Mode, ids: seq<string>): Folded {
    match r
    case NoResult => Folded(mode, true, [], 0, false)
    case Reconciled(m, given, ambiguities, updates, impacts) =>
      var reported := if given then m else mode;
      Folded(reported, false,
             seq(|ambiguities|, k requires 0 <= k < |ambiguities| =>
                   Followup("spec-reconciler", false, if ambiguities[k].taskId in ids then ambiguities[k].taskId else ANY_TASK,
                            MAJOR, "", ambiguities[k].detail)),
             impacts, reported == Audit && updates > 0)
  }

  /** Every ambiguity becomes a MAJOR follow-up that names a session task or all of them, and every
      impact a warning; a crash is reported as a failure, files nothing and warns of nothing.
      The warning of writes in an audit needs both. */
  lemma FoldKeepsEveryAmbiguity(r: ReconcileResult, mode: Mode, ids: seq<string>)
    ensures var out := FoldSpecReconcilerResult(r, mode, ids);
            && (out.failed <==> r.NoResult?)
            && |out.followups| == (if r.NoResult? then 0 else |r.ambiguities|)
            && (forall k | 0 <= k < |out.followups| ::
                  out.followups[k] == Followup("spec-reconciler", false, if r.ambiguities[k].taskId in ids then r.ambiguities[k].taskId else "*",
                                               MAJOR, "", r.ambiguities[k].detail))
            && out.impactWarnings == (if r.NoResult? then 0 else r.impacts)
            && out.mode == (if r.Reconciled? && r.modeGiven then r.mode else mode)
            && (out.auditWarning <==> r.Reconciled? && out.mode == Audit && r.traceUpdates > 0)
  {
  }
}
