/** The gate ledger of a session: one entry per stage that ran in a round. */
module GateLedger {
  import opened Options
  import opened Sorting
  import opened Verdicts

  datatype Entry = Entry(round: nat, stage: Stage, verdict: Verdict, devsToLaunch: seq<nat>)

  predicate Green(v: Verdict) {
    v in {PASS, PASS_WITH_NITS, APPROVE}
  }

  /** At most one entry per (round, stage). */
  ghost predicate OnePerStage(entries: seq<Entry>) {
    forall i, j | 0 <= i < j < |entries| :: entries[i].round != entries[j].round || entries[i].stage != entries[j].stage
  }

  function OfStage(entries: seq<Entry>, stage: Stage): (mine: seq<Entry>)
    ensures forall e :: e in mine <==> e in entries && e.stage == stage
  {
    if entries == [] then []
    else if entries[0].stage == stage then [entries[0]] + OfStage(entries[1..], stage)
    else OfStage(entries[1..], stage)
  }

  /** Newest round first. */
  function NewestFirst(e: Entry): real { -(e.round as real) }

  function PreviousVerdict(entries: seq<Entry>, stage: Stage): Option<Verdict> {
    var mine := Sort(OfStage(entries, stage), NewestFirst);
    SortKeepsElements(OfStage(entries, stage), NewestFirst);
    if |OfStage(entries, stage)| < 2 then None else Some(mine[1].verdict)
  }

  /** No later round re-ran this entry's stage. */
  predicate Latest(entries: seq<Entry>, e: Entry) {
    forall o | o in entries :: !(o.stage == e.stage && o.round > e.round)
  }

  function CountReusable(part: seq<Entry>, entries: seq<Entry>): nat {
    if part == [] then 0
    else CountReusable(part[..|part| - 1], entries)
         + (if Green(part[|part| - 1].verdict) && Latest(entries, part[|part| - 1]) then 1 else 0)
  }

  datatype Stats = Stats(totalEntries: nat, roundsRun: nat, reusableGreens: nat)

  class Ledger {
    var entries: seq<Entry>

    constructor ()
      ensures entries == []
    {
      entries := [];
    }

    /** Throws (`ok == false`, nothing recorded) unless the round is positive. */
    method Record(round: int, stage: Stage, verdict: Verdict, devsToLaunch: seq<nat>) returns (ok: bool)
      modifies this
      ensures ok <==> round >= 1
      ensures entries == old(entries) + if ok then [Entry(round, stage, verdict, devsToLaunch)] else []
    {
      if round < 1 { return false; }
      entries := entries + [Entry(round, stage, verdict, devsToLaunch)];
      ok := true;
    }

    method Lookup(round: nat, stage: Stage) returns (r: Option<Entry>)
      ensures r.None? <==> forall e | e in entries :: e.round != round || e.stage != stage
      ensures r.Some? ==> exists i :: 0 <= i < |entries| && r.value == entries[i] && r.value.round == round && r.value.stage == stage
                                      && forall j | i < j < |entries| :: entries[j].round != round || entries[j].stage != stage
    {
      var i := |entries|;
      while i > 0
        invariant 0 <= i <= |entries|
        invariant forall j | i <= j < |entries| :: entries[j].round != round || entries[j].stage != stage
      {
        i := i - 1;
        if entries[i].round == round && entries[i].stage == stage {
          assert entries[i] in entries;
          return Some(entries[i]);
        }
      }
      r := None;
    }

    method PreviousRoundVerdict(stage: Stage) returns (r: Option<Verdict>)
      ensures r == PreviousVerdict(entries, stage)
    {
      var mine := [];
      for i := 0 to |entries|
        invariant mine + OfStage(entries[i..], stage) == OfStage(entries, stage)
      {
        if entries[i].stage == stage { mine := mine + [entries[i]]; }
        assert entries[i..][1..] == entries[i + 1..];
      }
      assert entries[|entries|..] == [];
      assert mine == OfStage(entries, stage);
      if |mine| < 2 { return None; }
      SortKeepsElements(mine, NewestFirst);
      r := Some(Sort(mine, NewestFirst)[1].verdict);
    }

    method GetStats() returns (s: Stats)
      ensures s == Stats(|entries|, |set e | e in entries :: e.round|, CountReusable(entries, entries))
    {
      var rounds, greens := {}, 0;
      for i := 0 to |entries|
        invariant rounds == set e | e in entries[..i] :: e.round
        invariant greens == CountReusable(entries[..i], entries)
      {
        assert entries[..i + 1] == entries[..i] + [entries[i]];
        rounds := rounds + {entries[i].round};
        if Green(entries[i].verdict) && Latest(entries, entries[i]) { greens := greens + 1; }
      }
      assert entries[..|entries|] == entries;
      s := Stats(|entries|, |rounds|, greens);
    }
  }

  /** With one entry per (round, stage), a looked-up entry is the only one there is. */
  lemma LookupIsUnique(entries: seq<Entry>, e: Entry, f: Entry)
    requires OnePerStage(entries) && e in entries && f in entries
    requires e.round == f.round && e.stage == f.stage
    ensures e == f
  {
  }

  /** Two distinct positions of a stage have distinct rounds, also after filtering. */
  lemma {:induction false} StageRoundsDiffer(entries: seq<Entry>, stage: Stage)
    requires OnePerStage(entries)
    ensures OnePerStage(OfStage(entries, stage))
  {
    if entries != [] {
      var rest := entries[1..];
      StageRoundsDiffer(rest, stage);
      if entries[0].stage == stage {
        forall j | 0 <= j < |OfStage(rest, stage)|
          ensures OfStage(rest, stage)[j].round != entries[0].round || OfStage(rest, stage)[j].stage != entries[0].stage
        {
          assert OfStage(rest, stage)[j] in OfStage(rest, stage);
        }
      }
    }
  }

  /** `previousRoundVerdict` is the verdict of the second newest round of the stage:
      the entry that exactly one newer entry of its stage precedes. */
  lemma PreviousIsSecondNewest(entries: seq<Entry>, stage: Stage, top: Entry, e: Entry)
    requires OnePerStage(entries)
    requires top in entries && top.stage == stage && e in entries && e.stage == stage && e.round < top.round
    requires forall o | o in entries && o.stage == stage :: o == top || o.round <= e.round
    ensures PreviousVerdict(entries, stage) == Some(e.verdict)
  {
    var mine := OfStage(entries, stage);
    var sorted := Sort(mine, NewestFirst);
    SortKeepsElements(mine, NewestFirst);
    SortSorts(mine, NewestFirst);
    SameElements(mine, NewestFirst);
    assert top in mine && e in mine && top != e;
    var i :| 0 <= i < |sorted| && sorted[i] == top;
    var j :| 0 <= j < |sorted| && sorted[j] == e;
    forall k | 0 <= k < |sorted| ensures sorted[k] == top || sorted[k].round <= e.round {
      assert sorted[k] in sorted;
    }
    NoDuplicates(entries, stage);
    assert NewestFirst(sorted[0]) <= NewestFirst(sorted[i]);
    assert sorted[1].round <= e.round;
    assert NewestFirst(sorted[1]) <= NewestFirst(sorted[j]);
    assert sorted[1] in sorted && sorted[1].stage == stage;
    LookupIsUnique(entries, sorted[1], e);
  }

  /** Sorting a stage's entries leaves no entry twice. */
  lemma NoDuplicates(entries: seq<Entry>, stage: Stage)
    requires OnePerStage(entries)
    ensures forall i, j | 0 <= i < j < |Sort(OfStage(entries, stage), NewestFirst)| ::
              Sort(OfStage(entries, stage), NewestFirst)[i] != Sort(OfStage(entries, stage), NewestFirst)[j]
  {
    var mine := OfStage(entries, stage);
    var sorted := Sort(mine, NewestFirst);
    StageRoundsDiffer(entries, stage);
    SortKeepsElements(mine, NewestFirst);
    forall i, j | 0 <= i < j < |sorted| ensures sorted[i] != sorted[j] {
      if sorted[i] == sorted[j] {
        Twice(sorted, i, j);
        Once(mine, sorted[i]);
      }
    }
  }

  lemma Twice(s: seq<Entry>, i: nat, j: nat)
    requires i < j < |s| && s[i] == s[j]
    ensures multiset(s)[s[i]] >= 2
  {
    assert s == s[..i] + [s[i]] + s[i + 1..j] + [s[j]] + s[j + 1..];
  }

  lemma {:induction false} Once(s: seq<Entry>, e: Entry)
    requires OnePerStage(s)
    ensures multiset(s)[e] <= 1
  {
    if s != [] {
      assert s == [s[0]] + s[1..];
      Once(s[1..], e);
      if s[0] == e {
        forall k | 0 <= k < |s[1..]| ensures s[1..][k] != e { assert s[1..][k] == s[k + 1]; }
        assert e !in s[1..];
      }
    }
  }

  /** No previous round: nothing to report. */
  lemma PreviousNeedsTwoRounds(entries: seq<Entry>, stage: Stage)
    requires OnePerStage(entries)
    ensures PreviousVerdict(entries, stage).None? <==>
            forall e, f | e in entries && f in entries && e.stage == f.stage == stage :: e == f
  {
    var mine := OfStage(entries, stage);
    StageRoundsDiffer(entries, stage);
    if |mine| >= 2 {
      assert mine[0] in mine && mine[1] in mine;
      assert mine[0] != mine[1];
    }
  }

  // ---------------------------------------------------------- reusable greens

  /** The newest entry of `stage` is green. */
  ghost predicate NewestGreen(entries: seq<Entry>, stage: Stage) {
    GreenIn(entries, entries, stage)
  }

  ghost predicate GreenIn(part: seq<Entry>, entries: seq<Entry>, stage: Stage) {
    exists e :: e in part && e.stage == stage && Green(e.verdict) && Latest(entries, e)
  }

  function One(b: bool): nat { if b then 1 else 0 }

  lemma {:induction false} ReusablePrefix(entries: seq<Entry>, n: nat)
    requires OnePerStage(entries) && n <= |entries|
    ensures CountReusable(entries[..n], entries) ==
            One(GreenIn(entries[..n], entries, TestStage)) + One(GreenIn(entries[..n], entries, ReviewStage))
  {
    if n > 0 {
      ReusablePrefix(entries, n - 1);
      var e := entries[n - 1];
      assert entries[..n] == entries[..n - 1] + [e];
      assert entries[..n][..n - 1] == entries[..n - 1];
      if Latest(entries, e) {
        forall o | o in entries[..n - 1] && o.stage == e.stage ensures !Latest(entries, o) {
          assert e in entries && o in entries;
          var k :| 0 <= k < n - 1 && entries[k] == o;
        }
      }
      forall stage ensures GreenIn(entries[..n], entries, stage) <==>
                           GreenIn(entries[..n - 1], entries, stage) || (e.stage == stage && Green(e.verdict) && Latest(entries, e)) {
        assert e in entries[..n];
        assert forall o | o in entries[..n - 1] :: o in entries[..n];
      }
    }
  }

  /** `reusable_greens` is the number of stages whose newest verdict is green. */
  lemma ReusableCountsStages(entries: seq<Entry>)
    requires OnePerStage(entries)
    ensures CountReusable(entries, entries) == One(NewestGreen(entries, TestStage)) + One(NewestGreen(entries, ReviewStage))
  {
    ReusablePrefix(entries, |entries|);
    assert entries[..|entries|] == entries;
  }
}
