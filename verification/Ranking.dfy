/** Lexical and hybrid ranking of documents (`context/injection.rs`).

Scores are reals (NaN and rounding are not modelled). BM25 scores and cosines are
arbitrary inputs, one per document.
*/
module Ranking {
  import opened Sorting

  datatype Item = Item(index: nat, score: real)

  datatype Config = Config(minScore: real, relativeThreshold: real, scopePathBonus: real, limit: nat)

  /** `cosines` may be shorter than `bm25`: a missing embedding gives no bonus. */
  datatype Query = Query(bm25: seq<real>, scopePaths: seq<seq<string>>, filePaths: seq<string>, cosines: seq<real>, semanticWeight: real)

  predicate Contains(text: string, part: string) {
    exists i: nat | i <= |text| :: OccursAt(text, part, i)
  }

  predicate OccursAt(text: string, part: string, i: nat) {
    i + |part| <= |text| && text[i..i + |part|] == part
  }

  predicate ScopeMatches(scopes: seq<string>, files: seq<string>) {
    exists s, f | s in scopes && f in files :: Contains(f, s)
  }

  /** BM25 plus the scope bonus. */
  function Base(q: Query, cfg: Config, i: nat): real
    requires i < |q.bm25|
  {
    q.bm25[i] + if i < |q.scopePaths| && ScopeMatches(q.scopePaths[i], q.filePaths) then cfg.scopePathBonus else 0.0
  }

  function Bonus(q: Query, i: nat): real {
    if i < |q.cosines| && q.cosines[i] > 0.0 then q.semanticWeight * ((q.cosines[i] + 1.0) / 2.0) else 0.0
  }

  predicate LexicalSurvivor(q: Query, cfg: Config, i: nat)
    requires i < |q.bm25|
  {
    Base(q, cfg, i) > 0.0 && Base(q, cfg, i) >= cfg.minScore
  }

  datatype Candidate = Candidate(item: Item, semanticOnly: bool)

  // ------------------------------------------------------------- the pipeline

  function LexicalItems(q: Query, cfg: Config, n: nat): seq<Item>
    requires n <= |q.bm25|
  {
    if n == 0 then []
    else LexicalItems(q, cfg, n - 1) + if LexicalSurvivor(q, cfg, n - 1) then [Item(n - 1, Base(q, cfg, n - 1))] else []
  }

  function Candidates(q: Query, cfg: Config, semanticMin: real, n: nat): seq<Candidate>
    requires n <= |q.bm25|
  {
    if n == 0 then []
    else
      var lexical := LexicalSurvivor(q, cfg, n - 1);
      Candidates(q, cfg, semanticMin, n - 1)
      + if lexical || Bonus(q, n - 1) >= semanticMin
        then [Candidate(Item(n - 1, Base(q, cfg, n - 1) + Bonus(q, n - 1)), !lexical)] else []
  }

  function ByScore(c: Candidate): real { -c.item.score }

  function AtLeast(s: seq<Candidate>, floor: real): seq<Candidate> {
    if s == [] then []
    else AtLeast(s[..|s| - 1], floor) + if s[|s| - 1].item.score >= floor then [s[|s| - 1]] else []
  }

  function Floor(cfg: Config, top: real): real { top * cfg.relativeThreshold }

  /** The relative threshold, applied to a list whose first element is the best. */
  function Retain(cfg: Config, s: seq<Candidate>): seq<Candidate> {
    if cfg.relativeThreshold > 0.0 && s != [] then AtLeast(s, Floor(cfg, s[0].item.score)) else s
  }

  function SemanticOnly(s: seq<Candidate>): nat {
    if s == [] then 0 else SemanticOnly(s[..|s| - 1]) + if s[|s| - 1].semanticOnly then 1 else 0
  }

  /** Drops every semantic-only candidate after the first `cap` of them. */
  function Capped(s: seq<Candidate>, cap: nat): seq<Item> {
    if s == [] then []
    else
      var last := s[|s| - 1];
      Capped(s[..|s| - 1], cap) + if !last.semanticOnly || SemanticOnly(s[..|s| - 1]) < cap then [last.item] else []
  }

  function Truncate(s: seq<Item>, limit: nat): seq<Item> {
    if |s| <= limit then s else s[..limit]
  }

  /** The candidates in result order, before the cap and the limit. */
  function Retained(q: Query, cfg: Config, semanticMin: real): seq<Candidate> {
    Retain(cfg, Sort(Candidates(q, cfg, semanticMin, |q.bm25|), ByScore))
  }

  function Hybrid(q: Query, cfg: Config, semanticMin: real, cap: nat): seq<Item> {
    Truncate(Capped(Retained(q, cfg, semanticMin), cap), cfg.limit)
  }

  /** `rank_with_cached_semantic`: collect, sort, retain, then the counting loop of the cap. */
  method RankWithCachedSemantic(q: Query, cfg: Config, semanticMin: real, cap: nat) returns (items: seq<Item>)
    ensures items == Hybrid(q, cfg, semanticMin, cap)
  {
    var candidates := Sort(Candidates(q, cfg, semanticMin, |q.bm25|), ByScore);
    candidates := Retain(cfg, candidates);
    var kept := 0;
    items := [];
    for k := 0 to |candidates|
      invariant items == Capped(candidates[..k], cap)
      invariant kept == if SemanticOnly(candidates[..k]) <= cap then SemanticOnly(candidates[..k]) else cap
    {
      assert candidates[..k + 1][..k] == candidates[..k];
      if candidates[k].semanticOnly {
        if kept >= cap { continue; }
        kept := kept + 1;
      }
      items := items + [candidates[k].item];
    }
    assert candidates[..|candidates|] == candidates;
    items := Truncate(items, cfg.limit);
  }

  function ItemByScore(x: Item): real { -x.score }

  function ItemsAtLeast(s: seq<Item>, floor: real): seq<Item> {
    if s == [] then []
    else ItemsAtLeast(s[..|s| - 1], floor) + if s[|s| - 1].score >= floor then [s[|s| - 1]] else []
  }

  function RetainItems(cfg: Config, s: seq<Item>): seq<Item> {
    if cfg.relativeThreshold > 0.0 && s != [] then ItemsAtLeast(s, Floor(cfg, s[0].score)) else s
  }

  /** `rank_by_bm25_and_scope`. */
  function Lexical(q: Query, cfg: Config): seq<Item> {
    Truncate(RetainItems(cfg, Sort(LexicalItems(q, cfg, |q.bm25|), ItemByScore)), cfg.limit)
  }

  // ---------------------------------------------------- conservative extension

  function Strip(s: seq<Candidate>): seq<Item> {
    seq(|s|, k requires 0 <= k < |s| => s[k].item)
  }

  lemma {:induction false} InsertStrips(x: Candidate, s: seq<Candidate>)
    ensures Strip(Insert(x, s, ByScore)) == Insert(x.item, Strip(s), ItemByScore)
  {
    if s != [] {
      assert Strip(s)[1..] == Strip(s[1..]);
      if ByScore(x) > ByScore(s[0]) { InsertStrips(x, s[1..]); }
    }
  }

  lemma {:induction false} SortStrips(s: seq<Candidate>)
    ensures Strip(Sort(s, ByScore)) == Sort(Strip(s), ItemByScore)
  {
    if s != [] {
      assert Strip(s)[1..] == Strip(s[1..]);
      SortStrips(s[1..]);
      InsertStrips(s[0], Sort(s[1..], ByScore));
    }
  }

  lemma {:induction false} AtLeastStrips(s: seq<Candidate>, floor: real)
    ensures Strip(AtLeast(s, floor)) == ItemsAtLeast(Strip(s), floor)
    ensures forall c | c in AtLeast(s, floor) :: c in s
  {
    if s != [] {
      assert Strip(s)[..|s| - 1] == Strip(s[..|s| - 1]);
      AtLeastStrips(s[..|s| - 1], floor);
    }
  }

  lemma {:induction false} NothingCapped(s: seq<Candidate>, cap: nat)
    requires forall c | c in s :: !c.semanticOnly
    ensures Capped(s, cap) == Strip(s)
  {
    if s != [] { NothingCapped(s[..|s| - 1], cap); }
  }

  lemma {:induction false} ZeroBonusCandidates(q: Query, cfg: Config, semanticMin: real, n: nat)
    requires n <= |q.bm25| && semanticMin > 0.0 && forall i: nat | i < |q.bm25| :: Bonus(q, i) == 0.0
    ensures Strip(Candidates(q, cfg, semanticMin, n)) == LexicalItems(q, cfg, n)
    ensures forall c | c in Candidates(q, cfg, semanticMin, n) :: !c.semanticOnly
  {
    if n > 0 { ZeroBonusCandidates(q, cfg, semanticMin, n - 1); }
  }

  /** With no semantic evidence the hybrid ranker is the lexical ranker, ties included. */
  lemma HybridIsConservative(q: Query, cfg: Config, semanticMin: real, cap: nat)
    requires semanticMin > 0.0 && forall i: nat | i < |q.bm25| :: Bonus(q, i) == 0.0
    ensures Hybrid(q, cfg, semanticMin, cap) == Lexical(q, cfg)
  {
    var cs := Candidates(q, cfg, semanticMin, |q.bm25|);
    var sorted := Sort(cs, ByScore);
    ZeroBonusCandidates(q, cfg, semanticMin, |q.bm25|);
    SortStrips(cs);
    SameElements(cs, ByScore);
    if cfg.relativeThreshold > 0.0 && sorted != [] {
      AtLeastStrips(sorted, Floor(cfg, sorted[0].item.score));
    }
    NothingCapped(Retain(cfg, sorted), cap);
  }

  /** The positive floor is needed: at 0 a document without any match is returned. */
  lemma {:induction false} ZeroFloorAdmitsNoise()
    ensures var q := Query([0.0], [], [], [], 1.0);
            var cfg := Config(0.0, 0.0, 2.0, 10);
            Hybrid(q, cfg, 0.0, 1) == [Item(0, 0.0)] && Lexical(q, cfg) == []
  {
    var q := Query([0.0], [], [], [], 1.0);
    var cfg := Config(0.0, 0.0, 2.0, 10);
    var c := Candidate(Item(0, 0.0), true);
    assert Base(q, cfg, 0) == 0.0 && Bonus(q, 0) == 0.0;
    assert Candidates(q, cfg, 0.0, 1) == [c] by { assert Candidates(q, cfg, 0.0, 0) == []; }
    assert LexicalItems(q, cfg, 1) == [] by { assert LexicalItems(q, cfg, 0) == []; }
    assert Sort([c], ByScore) == [c] by { assert [c][1..] == []; }
    assert Capped([c], 1) == [c.item] by { assert [c][..0] == []; }
  }

  // --------------------------------------------------------------- result order

  /** Higher score first; among equal scores the lower document index. */
  predicate Precedes(a: Candidate, b: Candidate) {
    a.item.index != b.item.index
    && (a.item.score > b.item.score || (a.item.score == b.item.score && a.item.index < b.item.index))
  }

  ghost predicate InOrder(s: seq<Candidate>) {
    forall i, j | 0 <= i < j < |s| :: Precedes(s[i], s[j])
  }

  lemma {:induction false} InsertInOrder(x: Candidate, s: seq<Candidate>)
    requires InOrder(s) && forall c | c in s :: x.item.index < c.item.index
    ensures InOrder(Insert(x, s, ByScore))
    ensures forall c :: c in Insert(x, s, ByScore) <==> c in s || c == x
  {
    if s != [] && ByScore(x) > ByScore(s[0]) {
      InsertInOrder(x, s[1..]);
      var t := Insert(x, s[1..], ByScore);
      forall j | 0 <= j < |t| ensures Precedes(s[0], t[j]) {
        assert t[j] in t;
        assert t[j] in s[1..] || t[j] == x;
        assert s[0] in s;
      }
    }
  }

  lemma {:induction false} SortInOrder(s: seq<Candidate>)
    requires forall i, j | 0 <= i < j < |s| :: s[i].item.index < s[j].item.index
    ensures InOrder(Sort(s, ByScore))
    ensures forall c :: c in Sort(s, ByScore) <==> c in s
  {
    if s != [] {
      SortInOrder(s[1..]);
      InsertInOrder(s[0], Sort(s[1..], ByScore));
    }
  }

  lemma {:induction false} CandidatesAre(q: Query, cfg: Config, semanticMin: real, n: nat)
    requires n <= |q.bm25|
    ensures var cs := Candidates(q, cfg, semanticMin, n);
            && (forall i, j | 0 <= i < j < |cs| :: cs[i].item.index < cs[j].item.index)
            && (forall c :: c in cs <==> c.item.index < n && IsCandidate(q, cfg, semanticMin, c))
  {
    if n > 0 {
      CandidatesAre(q, cfg, semanticMin, n - 1);
      var cs := Candidates(q, cfg, semanticMin, n - 1);
      forall i | 0 <= i < |cs| ensures cs[i].item.index < n - 1 { assert cs[i] in cs; }
    }
  }

  /** `c` survives one of the two floors and carries the combined score. */
  predicate IsCandidate(q: Query, cfg: Config, semanticMin: real, c: Candidate) {
    var i := c.item.index;
    && i < |q.bm25|
    && c.item.score == Base(q, cfg, i) + Bonus(q, i)
    && c.semanticOnly == !LexicalSurvivor(q, cfg, i)
    && (LexicalSurvivor(q, cfg, i) || Bonus(q, i) >= semanticMin)
  }

  lemma {:induction false} AtLeastIs(s: seq<Candidate>, floor: real)
    requires InOrder(s)
    ensures InOrder(AtLeast(s, floor))
    ensures forall c :: c in AtLeast(s, floor) <==> c in s && c.item.score >= floor
  {
    if s != [] {
      var n := |s| - 1;
      AtLeastIs(s[..n], floor);
      assert s == s[..n] + [s[n]];
      var t := AtLeast(s[..n], floor);
      forall i | 0 <= i < |t| ensures Precedes(t[i], s[n]) {
        assert t[i] in t;
        var k :| 0 <= k < n && s[k] == t[i];
      }
    }
  }

  /** No candidate precedes `c`. */
  ghost predicate IsTop(q: Query, cfg: Config, semanticMin: real, c: Candidate) {
    IsCandidate(q, cfg, semanticMin, c)
    && forall d | IsCandidate(q, cfg, semanticMin, d) && d != c :: Precedes(c, d)
  }

  /** The retained list is in order and holds exactly the candidates above the relative threshold. */
  lemma RetainedIs(q: Query, cfg: Config, semanticMin: real)
    ensures InOrder(Retained(q, cfg, semanticMin))
    ensures forall c, top | IsTop(q, cfg, semanticMin, top) ::
              c in Retained(q, cfg, semanticMin) <==>
              IsCandidate(q, cfg, semanticMin, c)
              && (cfg.relativeThreshold > 0.0 ==> c.item.score >= Floor(cfg, top.item.score))
    ensures (forall c :: !IsCandidate(q, cfg, semanticMin, c)) ==> Retained(q, cfg, semanticMin) == []
  {
    var cs := Candidates(q, cfg, semanticMin, |q.bm25|);
    var sorted := Sort(cs, ByScore);
    CandidatesAre(q, cfg, semanticMin, |q.bm25|);
    SortInOrder(cs);
    if sorted != [] {
      AtLeastIs(sorted, Floor(cfg, sorted[0].item.score));
      assert sorted[0] in sorted;
      forall top | IsTop(q, cfg, semanticMin, top) ensures top == sorted[0] {
        assert top in sorted;
        var k :| 0 <= k < |sorted| && sorted[k] == top;
        if k > 0 { assert Precedes(sorted[0], sorted[k]); }
      }
    } else {
      forall c ensures !IsCandidate(q, cfg, semanticMin, c) { assert c !in sorted; }
    }
  }

  // ------------------------------------------------------- scores written out

  /** One of the document's scope paths occurs in one of the file paths, at some position. */
  ghost predicate ScopeOccurs(q: Query, i: nat) {
    i < |q.scopePaths| && exists s, f, p: nat :: s in q.scopePaths[i] && f in q.filePaths && StandsAt(f, s, p)
  }

  predicate StandsAt(text: string, part: string, p: nat) {
    p + |part| <= |text| && forall k | 0 <= k < |part| :: text[p + k] == part[k]
  }

  lemma StandsExactly(text: string, part: string, p: nat)
    ensures StandsAt(text, part, p) <==> OccursAt(text, part, p)
  {
    if OccursAt(text, part, p) {
      forall k | 0 <= k < |part| ensures text[p + k] == part[k] { assert text[p..p + |part|][k] == text[p + k]; }
    }
  }

  lemma {:induction false} ScopeMatchesExactly(q: Query, i: nat)
    ensures i < |q.scopePaths| && ScopeMatches(q.scopePaths[i], q.filePaths) <==> ScopeOccurs(q, i)
  {
    if i < |q.scopePaths| && ScopeMatches(q.scopePaths[i], q.filePaths) {
      var s, f :| s in q.scopePaths[i] && f in q.filePaths && Contains(f, s);
      var p: nat :| p <= |f| && OccursAt(f, s, p);
      StandsExactly(f, s, p);
    }
    if ScopeOccurs(q, i) {
      var s, f, p: nat :| s in q.scopePaths[i] && f in q.filePaths && StandsAt(f, s, p);
      StandsExactly(f, s, p);
      assert OccursAt(f, s, p);
      assert Contains(f, s);
    }
  }

  /** The lexical score: BM25, and the scope bonus exactly for an occurrence. */
  ghost function LexicalScore(q: Query, cfg: Config, i: nat): real
    requires i < |q.bm25|
  {
    if ScopeOccurs(q, i) then q.bm25[i] + cfg.scopePathBonus else q.bm25[i]
  }

  /** The semantic part: nothing without an embedding or with a cosine that is not positive. */
  function SemanticScore(q: Query, i: nat): real {
    if i >= |q.cosines| || q.cosines[i] <= 0.0 then 0.0 else (q.semanticWeight * (q.cosines[i] + 1.0)) / 2.0
  }

  /** Who is a candidate, and with what score. */
  lemma {:induction false} CandidateExactly(q: Query, cfg: Config, semanticMin: real, c: Candidate)
    ensures IsCandidate(q, cfg, semanticMin, c) <==>
            var i := c.item.index;
            && i < |q.bm25|
            && c.item.score == LexicalScore(q, cfg, i) + SemanticScore(q, i)
            && (!c.semanticOnly <==> LexicalScore(q, cfg, i) > 0.0 && LexicalScore(q, cfg, i) >= cfg.minScore)
            && (c.semanticOnly ==> SemanticScore(q, i) >= semanticMin)
  {
    ScopeMatchesExactly(q, c.item.index);
    if c.item.index < |q.cosines| { HalfOf(q.semanticWeight, q.cosines[c.item.index] + 1.0); }
  }

  lemma HalfOf(w: real, x: real)
    ensures w * (x / 2.0) == (w * x) / 2.0
  {
  }

  /** The score of every document shown, and why it is shown. */
  lemma {:induction false} ShownScores(q: Query, cfg: Config, semanticMin: real, cap: nat, x: Item)
    requires x in Hybrid(q, cfg, semanticMin, cap)
    ensures x.index < |q.bm25| && x.score == LexicalScore(q, cfg, x.index) + SemanticScore(q, x.index)
    ensures (LexicalScore(q, cfg, x.index) > 0.0 && LexicalScore(q, cfg, x.index) >= cfg.minScore) || SemanticScore(q, x.index) >= semanticMin
  {
    hide IsCandidate, Retained;
    var s := Retained(q, cfg, semanticMin);
    AllRetainedAreCandidates(q, cfg, semanticMin);
    CappedMembers(s, cap);
    assert x in Capped(s, cap);
    var c :| c in s && c.item == x;
    CandidateExactly(q, cfg, semanticMin, c);
  }

  lemma {:induction false} LexicalIgnoresCosines(q: Query, cfg: Config, n: nat)
    requires n <= |q.bm25|
    ensures LexicalItems(q, cfg, n) == LexicalItems(q.(cosines := []), cfg, n)
  {
    if n > 0 { LexicalIgnoresCosines(q, cfg, n - 1); }
  }

  /** The lexical ranker lists documents with their lexical score, all positive and at least the
      floor; of those it leaves out none but for the limit when no relative threshold is set. */
  lemma {:induction false} LexicalScores(q: Query, cfg: Config, x: Item)
    ensures x in Lexical(q, cfg) ==>
              x.index < |q.bm25| && x.score == LexicalScore(q, cfg, x.index) && x.score > 0.0 && x.score >= cfg.minScore
    ensures x.index < |q.bm25| && x.score == LexicalScore(q, cfg, x.index) && x.score > 0.0 && x.score >= cfg.minScore
            && cfg.relativeThreshold <= 0.0 && x !in Lexical(q, cfg) ==>
              |Lexical(q, cfg)| == cfg.limit && forall y | y in Lexical(q, cfg) :: y.score >= x.score
    ensures Descending(Lexical(q, cfg)) && |Lexical(q, cfg)| <= cfg.limit
  {
    hide Hybrid, Retained, Lexical, Capped, LexicalScore;
    var q0 := q.(cosines := []);
    SameLexical(q, cfg);
    HybridIsConservative(q0, cfg, 1.0, 0);
    HybridShape(q0, cfg, 1.0, 0);
    if x in Lexical(q, cfg) { ShownScores(q0, cfg, 1.0, 0, x); }
    if x.index < |q.bm25| && x.score == LexicalScore(q, cfg, x.index) && x.score > 0.0 && x.score >= cfg.minScore && cfg.relativeThreshold <= 0.0 {
      MissingLexical(q0, cfg, x);
    }
  }

  lemma SameLexical(q: Query, cfg: Config)
    ensures Lexical(q, cfg) == Lexical(q.(cosines := []), cfg)
    ensures forall i: nat | i < |q.bm25| :: LexicalScore(q, cfg, i) == LexicalScore(q.(cosines := []), cfg, i)
  {
    LexicalIgnoresCosines(q, cfg, |q.bm25|);
    forall i: nat ensures ScopeOccurs(q, i) <==> ScopeOccurs(q.(cosines := []), i) {
      ScopeMatchesExactly(q, i);
      ScopeMatchesExactly(q.(cosines := []), i);
    }
  }

  /** A lexical candidate that is missing stands behind `limit` better ones. */
  lemma {:induction false} MissingLexical(q: Query, cfg: Config, x: Item)
    requires q.cosines == [] && cfg.relativeThreshold <= 0.0
    requires x.index < |q.bm25| && x.score == LexicalScore(q, cfg, x.index) && x.score > 0.0 && x.score >= cfg.minScore
    ensures var out := Hybrid(q, cfg, 1.0, 0);
            x !in out ==> |out| == cfg.limit && forall y | y in out :: y.score >= x.score
  {
    hide Retained, IsCandidate, LexicalScore, Capped;
    var s, c := Retained(q, cfg, 1.0), Candidate(x, false);
    CandidateExactly(q, cfg, 1.0, c);
    RetainedIs(q, cfg, 1.0);
    var top := TopExists(q, cfg, 1.0, c);
    assert c in s;
    var j: nat :| j < |s| && s[j] == c;
    LexicalMissingOnlyByLimit(q, cfg, 1.0, 0, j);
    CappedHas(s, 0, j);
    CappedDescends(s, 0);
    var all, out := Capped(s, 0), Hybrid(q, cfg, 1.0, 0);
    forall y | y in out && x !in out ensures y.score >= x.score {
      var k :| 0 <= k < |out| && out[k] == y;
      assert all[k] == y && all[|Capped(s[..j], 0)|] == x;
    }
  }

  /** The scope bonus decides: the document with the lower BM25 score comes first. */
  lemma {:induction false} ScopeBonusReorders()
    ensures var q := Query([1.0, 2.0], [["src"], []], ["src/a.rs"], [], 1.0);
            var cfg := Config(0.0, 0.0, 2.0, 10);
            Lexical(q, cfg) == [Item(0, 3.0), Item(1, 2.0)]
  {
    var q := Query([1.0, 2.0], [["src"], []], ["src/a.rs"], [], 1.0);
    var cfg := Config(0.0, 0.0, 2.0, 10);
    assert OccursAt("src/a.rs", "src", 0);
    assert Contains("src/a.rs", "src");
    assert "src" in q.scopePaths[0] && "src/a.rs" in q.filePaths;
    var a, b := Item(0, 3.0), Item(1, 2.0);
    assert LexicalItems(q, cfg, 0) == [] && LexicalItems(q, cfg, 1) == [a];
    assert LexicalItems(q, cfg, 2) == [a, b];
    assert Sort([a, b], ItemByScore) == [a, b] by {
      assert [a, b][1..] == [b] && [b][1..] == [];
      assert Sort([b], ItemByScore) == [b];
    }
  }

  // ------------------------------------------------------------ cap and limit

  /** Candidate `j` of the retained list is shown. */
  predicate Kept(s: seq<Candidate>, cap: nat, limit: nat, j: nat)
    requires j < |s|
  {
    && PassesCap(s, cap, j)
    && |Capped(s[..j], cap)| < limit
  }

  predicate PassesCap(s: seq<Candidate>, cap: nat, j: nat)
    requires j < |s|
  {
    !s[j].semanticOnly || SemanticOnly(s[..j]) < cap
  }

  /** A candidate that passes the cap sits right behind those that pass before it. */
  lemma {:induction false} CappedHas(s: seq<Candidate>, cap: nat, j: nat)
    requires j < |s| && PassesCap(s, cap, j)
    ensures |Capped(s[..j], cap)| < |Capped(s, cap)| && Capped(s, cap)[|Capped(s[..j], cap)|] == s[j].item
  {
    var n := |s| - 1;
    if j < n {
      assert s[..n][..j] == s[..j];
      CappedHas(s[..n], cap, j);
    }
  }

  lemma {:induction false} CappedFrom(s: seq<Candidate>, cap: nat, k: nat) returns (j: nat)
    requires k < |Capped(s, cap)|
    ensures j < |s| && PassesCap(s, cap, j) && |Capped(s[..j], cap)| == k && Capped(s, cap)[k] == s[j].item
  {
    var n := |s| - 1;
    if k < |Capped(s[..n], cap)| {
      j := CappedFrom(s[..n], cap, k);
      assert s[..n][..j] == s[..j];
    } else {
      j := n;
    }
  }

  /** Which candidates are shown, exactly, and in which order: a retained candidate is shown
      iff fewer than `limit` shown ones precede it and, when it is semantic-only, fewer than
      `cap` semantic-only ones precede it; the shown ones keep their order. */
  lemma HybridShowsExactly(q: Query, cfg: Config, semanticMin: real, cap: nat, j: nat)
    requires j < |Retained(q, cfg, semanticMin)|
    ensures var s := Retained(q, cfg, semanticMin);
            var out := Hybrid(q, cfg, semanticMin, cap);
            && (s[j].item in out <==> Kept(s, cap, cfg.limit, j))
            && (Kept(s, cap, cfg.limit, j) ==> |Capped(s[..j], cap)| < |out| && out[|Capped(s[..j], cap)|] == s[j].item)
  {
    hide Retained, IsCandidate, SemanticOnly, Capped;
    var s := Retained(q, cfg, semanticMin);
    var out := Hybrid(q, cfg, semanticMin, cap);
    RetainedIs(q, cfg, semanticMin);
    if PassesCap(s, cap, j) { CappedHas(s, cap, j); }
    if s[j].item in out {
      var k :| 0 <= k < |out| && out[k] == s[j].item;
      var i := CappedFrom(s, cap, k);
    }
  }

  /** A lexical survivor above the threshold is missing only behind `limit` shown items. */
  lemma LexicalMissingOnlyByLimit(q: Query, cfg: Config, semanticMin: real, cap: nat, j: nat)
    requires j < |Retained(q, cfg, semanticMin)| && !Retained(q, cfg, semanticMin)[j].semanticOnly
    ensures var s := Retained(q, cfg, semanticMin);
            var out := Hybrid(q, cfg, semanticMin, cap);
            s[j].item !in out <==> |out| == cfg.limit && |Capped(s[..j], cap)| >= cfg.limit
  {
    HybridShowsExactly(q, cfg, semanticMin, cap, j);
    CappedHas(Retained(q, cfg, semanticMin), cap, j);
  }

  ghost predicate Descending(s: seq<Item>) {
    forall i, j | 0 <= i < j < |s| ::
      s[i].index != s[j].index && (s[i].score > s[j].score || (s[i].score == s[j].score && s[i].index < s[j].index))
  }

  /** The result is in score order with distinct documents and respects both bounds. */
  lemma HybridShape(q: Query, cfg: Config, semanticMin: real, cap: nat)
    ensures var out := Hybrid(q, cfg, semanticMin, cap);
            && |out| <= cfg.limit && Descending(out)
            && (forall x | x in out :: x.index < |q.bm25| && x.score == Base(q, cfg, x.index) + Bonus(q, x.index))
            && |SemanticShown(q, cfg, out)| <= cap
  {
    var s := Retained(q, cfg, semanticMin);
    var all, out := Capped(s, cap), Hybrid(q, cfg, semanticMin, cap);
    RetainedIs(q, cfg, semanticMin);
    AllRetainedAreCandidates(q, cfg, semanticMin);
    CappedDescends(s, cap);
    CapBounds(q, cfg, semanticMin, s, cap);
    SubsetSize(SemanticShown(q, cfg, out), SemanticShown(q, cfg, all));
    forall x | x in out ensures x.index < |q.bm25| && x.score == Base(q, cfg, x.index) + Bonus(q, x.index) {
      CappedMembers(s, cap);
      assert x in all;
      var c :| c in s && c.item == x;
      assert IsCandidate(q, cfg, semanticMin, c);
    }
  }

  lemma AllRetainedAreCandidates(q: Query, cfg: Config, semanticMin: real)
    ensures forall c | c in Retained(q, cfg, semanticMin) :: IsCandidate(q, cfg, semanticMin, c)
  {
    var cs := Candidates(q, cfg, semanticMin, |q.bm25|);
    CandidatesAre(q, cfg, semanticMin, |q.bm25|);
    SortInOrder(cs);
    var sorted := Sort(cs, ByScore);
    if sorted != [] { AtLeastIs(sorted, Floor(cfg, sorted[0].item.score)); }
  }

  lemma {:induction false} CappedMembers(s: seq<Candidate>, cap: nat)
    ensures forall x | x in Capped(s, cap) :: exists c :: c in s && c.item == x
  {
    if s != [] {
      var n := |s| - 1;
      CappedMembers(s[..n], cap);
      forall x | x in Capped(s, cap) ensures exists c :: c in s && c.item == x {
        if x in Capped(s[..n], cap) {
          var c :| c in s[..n] && c.item == x;
          assert c in s;
        } else {
          assert s[n] in s;
        }
      }
    }
  }

  lemma {:induction false} CappedDescends(s: seq<Candidate>, cap: nat)
    requires InOrder(s)
    ensures Descending(Capped(s, cap))
  {
    if s != [] {
      var n := |s| - 1;
      CappedDescends(s[..n], cap);
      CappedMembers(s[..n], cap);
      var t := Capped(s[..n], cap);
      forall i | 0 <= i < |t| ensures t[i].index != s[n].item.index
        && (t[i].score > s[n].item.score || (t[i].score == s[n].item.score && t[i].index < s[n].item.index))
      {
        assert t[i] in t;
        var c :| c in s[..n] && c.item == t[i];
        var k :| 0 <= k < n && s[k] == c;
        assert Precedes(s[k], s[n]);
      }
    }
  }

  function SemanticShown(q: Query, cfg: Config, items: seq<Item>): set<nat> {
    set x | x in items && x.index < |q.bm25| && !LexicalSurvivor(q, cfg, x.index) :: x.index
  }

  lemma {:induction false} CapBounds(q: Query, cfg: Config, semanticMin: real, s: seq<Candidate>, cap: nat)
    requires forall c | c in s :: IsCandidate(q, cfg, semanticMin, c)
    ensures |SemanticShown(q, cfg, Capped(s, cap))| <= cap
    ensures |SemanticShown(q, cfg, Capped(s, cap))| <= SemanticOnly(s)
  {
    if s != [] {
      var n := |s| - 1;
      CapBounds(q, cfg, semanticMin, s[..n], cap);
      assert s[n] in s && IsCandidate(q, cfg, semanticMin, s[n]);
      ShownAfter(q, cfg, Capped(s[..n], cap), s[n].item);
    }
  }

  lemma ShownAfter(q: Query, cfg: Config, before: seq<Item>, x: Item)
    requires x.index < |q.bm25|
    ensures SemanticShown(q, cfg, before + [x]) ==
            SemanticShown(q, cfg, before) + if LexicalSurvivor(q, cfg, x.index) then {} else {x.index}
    ensures before + [] == before
  {
  }

  lemma SubsetSize<T>(a: set<T>, b: set<T>)
    requires a <= b
    ensures |a| <= |b|
  {
    assert b == a + (b - a);
  }

  // ---------------------------------------------------- what the cap goes by

  /** What `rank_with_cached_semantic` documents: the semantic-only candidates the cap keeps
      have the highest semantic bonus. */
  ghost predicate CapKeepsTopBonus(q: Query, cfg: Config, semanticMin: real, cap: nat) {
    var s := Retained(q, cfg, semanticMin);
    forall i, j | 0 <= i < |s| && 0 <= j < |s| && s[i].semanticOnly && s[j].semanticOnly && PassesCap(s, cap, i) && !PassesCap(s, cap, j) ::
      Bonus(q, s[i].item.index) >= Bonus(q, s[j].item.index)
  }

  lemma {:induction false} SemanticOnlyGrows(s: seq<Candidate>, i: nat, j: nat)
    requires i <= j <= |s|
    ensures SemanticOnly(s[..i]) <= SemanticOnly(s[..j])
    decreases j
  {
    if i < j {
      assert s[..j][..j - 1] == s[..j - 1];
      SemanticOnlyGrows(s, i, j - 1);
    }
  }

  /** With a lexical floor of 0 or less a semantic-only candidate has no lexical score, so the
      cap goes by the bonus. */
  lemma {:induction false} CapGoesByBonus(q: Query, cfg: Config, semanticMin: real, cap: nat)
    requires cfg.minScore <= 0.0 && cfg.scopePathBonus >= 0.0 && forall k | 0 <= k < |q.bm25| :: q.bm25[k] >= 0.0
    ensures CapKeepsTopBonus(q, cfg, semanticMin, cap)
  {
    var s := Retained(q, cfg, semanticMin);
    RetainedIs(q, cfg, semanticMin);
    AllRetainedAreCandidates(q, cfg, semanticMin);
    forall i, j | 0 <= i < |s| && 0 <= j < |s| && s[i].semanticOnly && s[j].semanticOnly && PassesCap(s, cap, i) && !PassesCap(s, cap, j)
      ensures Bonus(q, s[i].item.index) >= Bonus(q, s[j].item.index)
    {
      if j <= i { SemanticOnlyGrows(s, j, i); }
      assert Precedes(s[i], s[j]);
      assert s[i] in s && s[j] in s;
      assert Base(q, cfg, s[i].item.index) == 0.0 && Base(q, cfg, s[j].item.index) == 0.0;
    }
  }

  /** Two documents of equal combined score: the first with half the lexical floor in its base
      score, the second with that much more semantic bonus. */
  function CapWitness(minScore: real): Query {
    Query([minScore / 2.0, 0.0], [], [], [0.5, 1.0], 2.0 * minScore)
  }

  /** With a positive lexical floor the cap can go against the bonus: of the witness it keeps
      the document with the lower one. */
  lemma {:induction false} CapFollowsCombinedScore(cfg: Config)
    requires cfg.minScore > 0.0 && cfg.relativeThreshold <= 1.0
    ensures var q := CapWitness(cfg.minScore);
            && Bonus(q, 0) < Bonus(q, 1)
            && Capped(Retained(q, cfg, cfg.minScore), 1) == [Item(0, 2.0 * cfg.minScore)]
            && !CapKeepsTopBonus(q, cfg, cfg.minScore, 1)
  {
    hide Retained, Bonus;
    var m, q := cfg.minScore, CapWitness(cfg.minScore);
    var a, b := Candidate(Item(0, 2.0 * m), true), Candidate(Item(1, 2.0 * m), true);
    WitnessCandidates(cfg, a, b);
    WitnessRetained(cfg, a, b);
    assert [a, b][..1] == [a] && [a][..0] == [];
    assert SemanticOnly([a]) == 1 && Capped([a], 1) == [a.item];
    assert PassesCap([a, b], 1, 0) && !PassesCap([a, b], 1, 1);
  }

  lemma WitnessCandidates(cfg: Config, a: Candidate, b: Candidate)
    requires cfg.minScore > 0.0
    requires a == Candidate(Item(0, 2.0 * cfg.minScore), true) && b == Candidate(Item(1, 2.0 * cfg.minScore), true)
    ensures Candidates(CapWitness(cfg.minScore), cfg, cfg.minScore, 2) == [a, b]
    ensures Bonus(CapWitness(cfg.minScore), 0) == 1.5 * cfg.minScore && Bonus(CapWitness(cfg.minScore), 1) == 2.0 * cfg.minScore
  {
    var q, m := CapWitness(cfg.minScore), cfg.minScore;
    assert Bonus(q, 0) == 2.0 * m * 0.75 && Bonus(q, 1) == 2.0 * m * 1.0;
    assert Candidates(q, cfg, m, 0) == [];
    assert Candidates(q, cfg, m, 1) == [a];
  }

  lemma WitnessRetained(cfg: Config, a: Candidate, b: Candidate)
    requires cfg.minScore > 0.0 && cfg.relativeThreshold <= 1.0
    requires a == Candidate(Item(0, 2.0 * cfg.minScore), true) && b == Candidate(Item(1, 2.0 * cfg.minScore), true)
    requires Candidates(CapWitness(cfg.minScore), cfg, cfg.minScore, 2) == [a, b]
    ensures Retained(CapWitness(cfg.minScore), cfg, cfg.minScore) == [a, b]
  {
    hide Candidates;
    assert [a, b][1..] == [b] && [b][1..] == [];
    assert Sort([b], ByScore) == [b];
    assert Sort([a, b], ByScore) == [a, b];
    FloorBelow(cfg, 2.0 * cfg.minScore);
    assert [a, b][..1] == [a] && [a][..0] == [];
    assert AtLeast([a, b], Floor(cfg, 2.0 * cfg.minScore)) == [a, b] by {
      assert AtLeast([a], Floor(cfg, 2.0 * cfg.minScore)) == [a];
    }
  }

  lemma FloorBelow(cfg: Config, top: real)
    requires top >= 0.0 && cfg.relativeThreshold <= 1.0
    ensures Floor(cfg, top) <= top
  {
    assert top * (1.0 - cfg.relativeThreshold) >= 0.0;
  }

  /** The documented order holds for all queries with non-negative lexical scores exactly when
      the lexical floor is not positive. */
  lemma {:induction false} CapKeepsTopBonusExactly(cfg: Config)
    requires cfg.scopePathBonus >= 0.0 && cfg.relativeThreshold <= 1.0
    ensures (forall q: Query, semanticMin: real, cap: nat | forall k | 0 <= k < |q.bm25| :: q.bm25[k] >= 0.0 ::
               CapKeepsTopBonus(q, cfg, semanticMin, cap))
            <==> cfg.minScore <= 0.0
  {
    if cfg.minScore <= 0.0 {
      forall q: Query, semanticMin: real, cap: nat | forall k | 0 <= k < |q.bm25| :: q.bm25[k] >= 0.0
        ensures CapKeepsTopBonus(q, cfg, semanticMin, cap)
      {
        CapGoesByBonus(q, cfg, semanticMin, cap);
      }
    } else {
      CapFollowsCombinedScore(cfg);
      assert forall k | 0 <= k < 2 :: CapWitness(cfg.minScore).bm25[k] >= 0.0;
    }
  }

  // ------------------------------------------------- zero bonuses, any floor

  /** Document `i` is below the relative threshold of the best document. */
  ghost predicate BelowThreshold(q: Query, cfg: Config, i: nat)
    requires i < |q.bm25|
  {
    cfg.relativeThreshold > 0.0
    && exists j: nat | j < |q.bm25| :: (forall k: nat | k < |q.bm25| :: Base(q, cfg, k) <= Base(q, cfg, j)) && Base(q, cfg, i) < Floor(cfg, Base(q, cfg, j))
  }

  /** The documents the lexical ranker lists when nothing limits it. */
  ghost function LexicalDocuments(q: Query, cfg: Config): set<nat> {
    set i: nat | i < |q.bm25| && LexicalSurvivor(q, cfg, i) && !BelowThreshold(q, cfg, i)
  }

  ghost predicate ZeroBonuses(q: Query) {
    forall i: nat | i < |q.bm25| :: Bonus(q, i) == 0.0
  }

  function CandidateOf(q: Query, cfg: Config, i: nat): Candidate
    requires i < |q.bm25|
  {
    Candidate(Item(i, Base(q, cfg, i) + Bonus(q, i)), !LexicalSurvivor(q, cfg, i))
  }

  /** If there is a candidate, there is one that precedes all others. */
  lemma TopExists(q: Query, cfg: Config, semanticMin: real, c: Candidate) returns (top: Candidate)
    requires IsCandidate(q, cfg, semanticMin, c)
    ensures IsTop(q, cfg, semanticMin, top)
  {
    var cs := Candidates(q, cfg, semanticMin, |q.bm25|);
    CandidatesAre(q, cfg, semanticMin, |q.bm25|);
    SortInOrder(cs);
    var sorted := Sort(cs, ByScore);
    assert c in sorted;
    top := sorted[0];
    assert top in sorted;
    forall d | IsCandidate(q, cfg, semanticMin, d) && d != top ensures Precedes(top, d) {
      assert d in sorted;
      var k :| 0 <= k < |sorted| && sorted[k] == d;
    }
  }

  lemma {:induction false} BelowBest(q: Query, cfg: Config, i: nat, best: nat)
    requires i < |q.bm25| && best < |q.bm25| && forall k: nat | k < |q.bm25| :: Base(q, cfg, k) <= Base(q, cfg, best)
    ensures BelowThreshold(q, cfg, i) <==> cfg.relativeThreshold > 0.0 && Base(q, cfg, i) < Floor(cfg, Base(q, cfg, best))
  {
    hide Base, Floor;
    if BelowThreshold(q, cfg, i) {
      var j: nat :| j < |q.bm25| && (forall k: nat | k < |q.bm25| :: Base(q, cfg, k) <= Base(q, cfg, j)) && Base(q, cfg, i) < Floor(cfg, Base(q, cfg, j));
      assert Base(q, cfg, j) == Base(q, cfg, best);
    }
  }

  lemma {:induction false} TopIsBest(q: Query, cfg: Config, semanticMin: real, top: Candidate)
    requires ZeroBonuses(q) && IsTop(q, cfg, semanticMin, top)
    ensures forall k: nat | k < |q.bm25| :: Base(q, cfg, k) <= Base(q, cfg, top.item.index)
  {
    hide Base, Bonus;
    forall k: nat | k < |q.bm25| ensures Base(q, cfg, k) <= Base(q, cfg, top.item.index) {
      var c := CandidateOf(q, cfg, k);
      assert Bonus(q, k) == 0.0 && Bonus(q, top.item.index) == 0.0;
      if IsCandidate(q, cfg, semanticMin, c) {
        assert c == top || Precedes(top, c);
      }
    }
  }

  /** What is retained, by document: the candidates that are not below the threshold. */
  lemma {:induction false} RetainedByDocument(q: Query, cfg: Config, semanticMin: real, c: Candidate)
    requires ZeroBonuses(q)
    ensures c in Retained(q, cfg, semanticMin) <==> IsCandidate(q, cfg, semanticMin, c) && !BelowThreshold(q, cfg, c.item.index)
  {
    hide Retained, BelowThreshold, Base, Bonus, Floor;
    AllRetainedAreCandidates(q, cfg, semanticMin);
    if IsCandidate(q, cfg, semanticMin, c) {
      var top := TopExists(q, cfg, semanticMin, c);
      TopIsBest(q, cfg, semanticMin, top);
      BelowBest(q, cfg, c.item.index, top.item.index);
      RetainedIs(q, cfg, semanticMin);
      assert Bonus(q, c.item.index) == 0.0 && Bonus(q, top.item.index) == 0.0;
    }
  }

  /** An ordered list is the start of another when it holds what comes first there. */
  lemma {:induction false} OrderedPrefix(s: seq<Candidate>, t: seq<Candidate>)
    requires InOrder(s) && InOrder(t) && forall c | c in t :: c in s
    requires forall c, d | c in t && d in s && d !in t :: Precedes(c, d)
    ensures |t| <= |s| && t == s[..|t|]
  {
    if t != [] {
      assert t[0] in t && s[0] in s;
      HeadFirst(s, t[0]);
      if s[0] in t { HeadFirst(t, s[0]); }
      TailWithoutHead(s);
      TailWithoutHead(t);
      OrderedPrefix(s[1..], t[1..]);
    }
  }

  lemma HeadFirst(s: seq<Candidate>, c: Candidate)
    requires InOrder(s) && c in s
    ensures c == s[0] || Precedes(s[0], c)
  {
    var k :| 0 <= k < |s| && s[k] == c;
    assert k == 0 || Precedes(s[0], s[k]);
  }

  lemma TailWithoutHead(s: seq<Candidate>)
    requires s != [] && InOrder(s)
    ensures InOrder(s[1..]) && forall c :: c in s[1..] <==> c in s && c != s[0]
  {
    assert s == [s[0]] + s[1..];
    forall c | c in s[1..] ensures c != s[0] {
      var k :| 1 <= k < |s| && s[k] == c;
      assert Precedes(s[0], s[k]);
    }
  }

  /** A list with its semantic-only candidates last is cut `cap` places after the others. */
  lemma {:induction false} CappedTail(s: seq<Candidate>, k: nat, cap: nat)
    requires k <= |s| && forall i | 0 <= i < |s| :: s[i].semanticOnly <==> k <= i
    ensures SemanticOnly(s) == |s| - k
    ensures Capped(s, cap) == Strip(if |s| <= k + cap then s else s[..k + cap])
    decreases |s|
  {
    if |s| == k {
      NothingCapped(s, cap);
      NoneSemanticOnly(s);
    } else {
      var n := |s| - 1;
      CappedTail(s[..n], k, cap);
      if n >= k + cap { assert s[..n][..k + cap] == s[..k + cap]; }
    }
  }

  lemma {:induction false} NoneSemanticOnly(s: seq<Candidate>)
    requires forall c | c in s :: !c.semanticOnly
    ensures SemanticOnly(s) == 0
  {
    if s != [] { NoneSemanticOnly(s[..|s| - 1]); }
  }

  lemma {:induction false} AsManyDocuments(s: seq<Candidate>, documents: set<nat>)
    requires InOrder(s) && (forall c | c in s :: c.item.index in documents)
    requires forall i | i in documents :: exists c :: c in s && c.item.index == i
    ensures |documents| == |s|
  {
    if s == [] {
      assert documents == {};
    } else {
      TailWithoutHead(s);
      assert s[0] in s;
      var rest := documents - {s[0].item.index};
      forall c | c in s[1..] ensures c.item.index in rest {
        HeadFirst(s, c);
      }
      forall i | i in rest ensures exists c :: c in s[1..] && c.item.index == i {
        var c :| c in s && c.item.index == i;
        assert c in s[1..];
      }
      AsManyDocuments(s[1..], rest);
    }
  }

  /** Without bonuses and with a floor of 0 or less: the lexical candidates come first and are
      the list the lexical ranker cuts; every other document above the threshold follows. */
  lemma {:induction false} LexicalFirst(q: Query, cfg: Config, semanticMin: real)
    requires ZeroBonuses(q) && semanticMin <= 0.0
    ensures var s, k := Retained(q, cfg, semanticMin), |LexicalDocuments(q, cfg)|;
            && k <= |s| && Retained(q, cfg, 1.0) == s[..k]
            && forall i | 0 <= i < |s| :: s[i].semanticOnly <==> k <= i
  {
    hide Retained, BelowThreshold, Base, Bonus;
    var s, t := Retained(q, cfg, semanticMin), Retained(q, cfg, 1.0);
    RetainedIs(q, cfg, semanticMin);
    RetainedIs(q, cfg, 1.0);
    forall c ensures c in s <==> IsCandidate(q, cfg, semanticMin, c) && !BelowThreshold(q, cfg, c.item.index) {
      RetainedByDocument(q, cfg, semanticMin, c);
    }
    forall c ensures c in t <==> IsCandidate(q, cfg, 1.0, c) && !BelowThreshold(q, cfg, c.item.index) {
      RetainedByDocument(q, cfg, 1.0, c);
    }
    forall c ensures c in t <==> c in s && !c.semanticOnly {
    }
    OrderedPrefix(s, t);
    forall i | i in LexicalDocuments(q, cfg) ensures exists c :: c in t && c.item.index == i {
      assert CandidateOf(q, cfg, i) in t;
    }
    AsManyDocuments(t, LexicalDocuments(q, cfg));
    forall i | 0 <= i < |s| ensures s[i].semanticOnly <==> |t| <= i {
      assert s[i] in s;
      if i < |t| {
        assert t[i] in t;
      }
    }
  }

  /** Without bonuses and with a floor of 0 or less, the two rankers agree exactly when no
      unmatched document is shown: the cap or the limit leaves no room, or there is none above
      the relative threshold. */
  lemma {:induction false} ZeroBonusExactly(q: Query, cfg: Config, semanticMin: real, cap: nat)
    requires ZeroBonuses(q) && semanticMin <= 0.0
    ensures Hybrid(q, cfg, semanticMin, cap) == Lexical(q, cfg) <==>
            cap == 0 || |LexicalDocuments(q, cfg)| >= cfg.limit
            || forall i: nat | i < |q.bm25| :: LexicalSurvivor(q, cfg, i) || BelowThreshold(q, cfg, i)
  {
    hide Retained, BelowThreshold, LexicalSurvivor, Base, Bonus, Lexical, Capped;
    var s, t, k := Retained(q, cfg, semanticMin), Retained(q, cfg, 1.0), |LexicalDocuments(q, cfg)|;
    HybridIsConservative(q, cfg, 1.0, cap);
    LexicalFirst(q, cfg, semanticMin);
    CappedTail(s, k, cap);
    NothingCapped(t, cap);
    NoneBeyond(q, cfg, semanticMin);
  }

  lemma {:induction false} NoneBeyond(q: Query, cfg: Config, semanticMin: real)
    requires ZeroBonuses(q) && semanticMin <= 0.0
    ensures |Retained(q, cfg, semanticMin)| == |LexicalDocuments(q, cfg)| <==>
            forall i: nat | i < |q.bm25| :: LexicalSurvivor(q, cfg, i) || BelowThreshold(q, cfg, i)
  {
    hide Retained, BelowThreshold, LexicalSurvivor, Base, Bonus;
    var s, k := Retained(q, cfg, semanticMin), |LexicalDocuments(q, cfg)|;
    LexicalFirst(q, cfg, semanticMin);
    if |s| > k {
      RetainedByDocument(q, cfg, semanticMin, s[k]);
    } else {
      forall i: nat | i < |q.bm25| ensures LexicalSurvivor(q, cfg, i) || BelowThreshold(q, cfg, i) {
        var c := CandidateOf(q, cfg, i);
        assert Bonus(q, i) == 0.0;
        RetainedByDocument(q, cfg, semanticMin, c);
        if c in s {
          var j :| 0 <= j < |s| && s[j] == c;
        }
      }
    }
  }

  // ------------------------------------------------------------- session diff

  function Fresh(ranked: seq<Item>, injected: nat -> bool): seq<Item> {
    if ranked == [] then []
    else Fresh(ranked[..|ranked| - 1], injected) + if injected(ranked[|ranked| - 1].index) then [] else [ranked[|ranked| - 1]]
  }

  /** `filter_already_injected`. */
  function FilterAlreadyInjected(ranked: seq<Item>, injected: nat -> bool, limit: nat): seq<Item> {
    Truncate(Fresh(ranked, injected), limit)
  }

  lemma {:induction false} FreshIs(ranked: seq<Item>, injected: nat -> bool)
    requires Descending(ranked)
    ensures Descending(Fresh(ranked, injected))
    ensures forall x :: x in Fresh(ranked, injected) <==> x in ranked && !injected(x.index)
  {
    if ranked != [] {
      var n := |ranked| - 1;
      FreshIs(ranked[..n], injected);
      assert ranked == ranked[..n] + [ranked[n]];
      var t := Fresh(ranked[..n], injected);
      forall i | 0 <= i < |t| ensures t[i].index != ranked[n].index
        && (t[i].score > ranked[n].score || (t[i].score == ranked[n].score && t[i].index < ranked[n].index))
      {
        assert t[i] in t;
        var k :| 0 <= k < n && ranked[k] == t[i];
      }
    }
  }

  /** What is injected next: the best `limit` items the session has not seen. */
  lemma InjectsTheBestNew(ranked: seq<Item>, injected: nat -> bool, limit: nat, x: Item)
    requires Descending(ranked)
    ensures var out := FilterAlreadyInjected(ranked, injected, limit);
            && |out| <= limit && Descending(out)
            && (x in out ==> x in ranked && !injected(x.index))
            && (x in ranked && !injected(x.index) && x !in out ==>
                  |out| == limit && forall y | y in out :: y.score >= x.score)
  {
    FreshIs(ranked, injected);
    var all, out := Fresh(ranked, injected), FilterAlreadyInjected(ranked, injected, limit);
    if x in all && x !in out {
      var k :| 0 <= k < |all| && all[k] == x;
      assert forall i | 0 <= i < |out| :: out[i] == all[i];
    }
  }
}
