/** The corpus cache with its two staleness counters (`context/mod.rs`).

`build` and the embedding models are arbitrary functions; the counters are unbounded.
*/
module CorpusCaching {
  import opened Options

  /** `embed` may fail on a text, which then gets the zero vector. */
  datatype Model<V> = Model(embed: string -> Option<V>, zero: V) {
    function Vector(text: string): V {
      match embed(text)
      case Some(v) => v
      case None => zero
    }

    function EmbedAll(texts: seq<string>): seq<V> {
      seq(|texts|, i requires 0 <= i < |texts| => Vector(texts[i]))
    }
  }

  /** One vector per text, in order: the model's, or its zero vector where it fails. */
  predicate Aligned<V(==)>(vectors: seq<V>, model: Model<V>, texts: seq<string>) {
    && |vectors| == |texts|
    && forall i | 0 <= i < |texts| ::
         vectors[i] == match model.embed(texts[i]) case Some(v) => v case None => model.zero
  }

  datatype State<C, V> = State(
    generation: nat,
    builtGeneration: Option<nat>,
    corpus: Option<C>,
    docTexts: seq<string>,
    rebuildCount: nat,
    embeddingsRebuildCount: Option<nat>,
    docEmbeddings: seq<V>)

  function Empty<C, V>(): State<C, V> { State(0, None, None, [], 0, None, []) }

  predicate Stale<C, V>(s: State<C, V>, docs: seq<string>) {
    s.builtGeneration != Some(s.generation) || s.docTexts != docs
  }

  function Refresh<C, V>(s: State<C, V>, build: seq<string> -> C, docs: seq<string>): State<C, V> {
    if Stale(s, docs) then
      s.(corpus := Some(build(docs)), docTexts := docs, builtGeneration := Some(s.generation), rebuildCount := s.rebuildCount + 1)
    else s
  }

  function Embed<C, V>(s: State<C, V>, texts: seq<string>, model: Model<V>): State<C, V> {
    if s.embeddingsRebuildCount != Some(s.rebuildCount) then
      s.(docEmbeddings := model.EmbedAll(texts), embeddingsRebuildCount := Some(s.rebuildCount))
    else s
  }

  /** The three entry points. `GetBoth` carries the texts to embed and the model. */
  datatype Op<!V> =
    | Increment
    | GetCorpus(docs: seq<string>)
    | GetBoth(docs: seq<string>, semantic: seq<string>, model: Model<V>)

  function Step<C, V>(s: State<C, V>, build: seq<string> -> C, op: Op<V>): State<C, V> {
    match op
    case Increment => s.(generation := s.generation + 1)
    case GetCorpus(docs) => Refresh(s, build, docs)
    case GetBoth(docs, semantic, model) => Embed(Refresh(s, build, docs), semantic, model)
  }

  function After<C, V>(build: seq<string> -> C, ops: seq<Op<V>>): State<C, V> {
    if ops == [] then Empty() else Step(After(build, ops[..|ops| - 1]), build, ops[|ops| - 1])
  }

  class CorpusCache<C, V(!new)> {
    const build: seq<string> -> C
    var generation: nat
    var builtGeneration: Option<nat>
    var corpus: Option<C>
    var docTexts: seq<string>
    var rebuildCount: nat
    var embeddingsRebuildCount: Option<nat>
    var docEmbeddings: seq<V>
    ghost var history: seq<Op<V>>

    ghost function Current(): State<C, V>
      reads this
    {
      State(generation, builtGeneration, corpus, docTexts, rebuildCount, embeddingsRebuildCount, docEmbeddings)
    }

    /** The fields are what the operations so far make them. */
    ghost predicate Valid()
      reads this
    {
      Current() == After(build, history)
    }

    constructor (build: seq<string> -> C)
      ensures Valid() && history == [] && this.build == build
    {
      this.build := build;
      generation, builtGeneration, corpus, docTexts := 0, None, None, [];
      rebuildCount, embeddingsRebuildCount, docEmbeddings := 0, None, [];
      history := [];
    }

    method IncrementGeneration()
      requires Valid()
      modifies this
      ensures Valid() && history == old(history) + [Increment]
    {
      generation := generation + 1;
      history := history + [Increment];
    }

    method GetOrBuildCorpus(docs: seq<string>) returns (result: C)
      requires Valid()
      modifies this
      ensures Valid() && history == old(history) + [GetCorpus(docs)]
      ensures result == build(docs)
    {
      RefreshCorpus(docs);
      history := history + [GetCorpus(docs)];
      CallServes(build, history);
      result := corpus.value;
    }

    method RefreshCorpus(docs: seq<string>)
      requires Valid()
      modifies this
      ensures Current() == Refresh(old(Current()), build, docs) && history == old(history)
    {
      if builtGeneration != Some(generation) || docTexts != docs {
        corpus := Some(build(docs));
        docTexts := docs;
        builtGeneration := Some(generation);
        rebuildCount := rebuildCount + 1;
      }
    }

    method GetOrBuildCorpusAndEmbeddings(docs: seq<string>, semantic: seq<string>, model: Model<V>)
        returns (result: C, embeddings: seq<V>)
      requires Valid()
      modifies this
      ensures Valid() && history == old(history) + [GetBoth(docs, semantic, model)]
      ensures result == build(docs)
      ensures Aligned(embeddings, model, semantic) <==> SameVectors(history)
      ensures EmbedsByDocs(history) ==> Aligned(embeddings, model, semantic)
    {
      RefreshCorpus(docs);
      RefreshEmbeddings(semantic, model);
      history := history + [GetBoth(docs, semantic, model)];
      assert Valid();
      CallServes(build, history);
      EmbeddingsFreshExactly(build, history);
      if EmbedsByDocs(history) { EmbeddingsAreFresh(build, history); }
      result, embeddings := corpus.value, docEmbeddings;
    }

    method RefreshEmbeddings(semantic: seq<string>, model: Model<V>)
      modifies this
      ensures Current() == Embed(old(Current()), semantic, model) && history == old(history)
    {
      if embeddingsRebuildCount != Some(rebuildCount) {
        docEmbeddings := model.EmbedAll(semantic);
        embeddingsRebuildCount := Some(rebuildCount);
      }
    }
  }

  // --------------------------------------------------------------- the corpus

  predicate IsCall<V>(op: Op<V>) { !op.Increment? }

  /** The operation before the last one was a call with the same texts, so nothing is rebuilt. */
  predicate Repeats<V>(ops: seq<Op<V>>)
    requires ops != [] && IsCall(ops[|ops| - 1])
  {
    |ops| > 1 && IsCall(ops[|ops| - 2]) && ops[|ops| - 2].docs == ops[|ops| - 1].docs
  }

  /** After any operations the cache is current exactly when the last one was a call. */
  lemma {:induction false} CurrentAfterCalls<C, V>(build: seq<string> -> C, ops: seq<Op<V>>)
    ensures var s := After<C, V>(build, ops);
            && (s.builtGeneration.Some? ==> s.builtGeneration.value <= s.generation)
            && (s.builtGeneration == Some(s.generation) <==> ops != [] && IsCall(ops[|ops| - 1]))
            && (ops != [] && IsCall(ops[|ops| - 1]) ==>
                  s.docTexts == ops[|ops| - 1].docs && s.corpus == Some(build(s.docTexts)))
  {
    if ops != [] { CurrentAfterCalls(build, ops[..|ops| - 1]); }
  }

  /** Every call serves the corpus a fresh build of its own texts would give. */
  lemma CallServes<C, V>(build: seq<string> -> C, ops: seq<Op<V>>)
    requires ops != [] && IsCall(ops[|ops| - 1])
    ensures After<C, V>(build, ops).corpus == Some(build(ops[|ops| - 1].docs))
  {
    CurrentAfterCalls<C, V>(build, ops);
  }

  /** A call rebuilds unless the operation just before it was a call with the same texts. */
  lemma RebuildsExactly<C, V>(build: seq<string> -> C, ops: seq<Op<V>>)
    requires ops != [] && IsCall(ops[|ops| - 1])
    ensures var before, after := After<C, V>(build, ops[..|ops| - 1]), After<C, V>(build, ops);
            after.rebuildCount == before.rebuildCount + if Repeats(ops) then 0 else 1
  {
    CurrentAfterCalls<C, V>(build, ops[..|ops| - 1]);
  }

  // ----------------------------------------------------------- the embeddings

  /** All operations from `k` on are calls with the texts of operation `k`. */
  predicate SameTextsFrom<V>(ops: seq<Op<V>>, k: nat) {
    k < |ops| && IsCall(ops[k]) && forall i | k <= i < |ops| :: IsCall(ops[i]) && ops[i].docs == ops[k].docs
  }

  /** Operation `k` is the first embedding call of the unbroken run of equal calls at the end. */
  predicate FirstEmbedding<V>(ops: seq<Op<V>>, k: nat) {
    && SameTextsFrom(ops, k) && ops[k].GetBoth?
    && forall i | 0 <= i < k && SameTextsFrom(ops, i) :: !ops[i].GetBoth?
  }

  predicate HasEmbedding<V>(ops: seq<Op<V>>) {
    exists k | 0 <= k < |ops| :: FirstEmbedding(ops, k)
  }

  /** The embeddings are up to date exactly in a run that has an embedding call, and are that call's. */
  ghost predicate Traced<C, V>(s: State<C, V>, ops: seq<Op<V>>) {
    && (s.embeddingsRebuildCount.Some? ==> s.embeddingsRebuildCount.value <= s.rebuildCount)
    && (forall k: nat | k < |ops| && FirstEmbedding(ops, k) ::
          s.embeddingsRebuildCount == Some(s.rebuildCount) && s.docEmbeddings == ops[k].model.EmbedAll(ops[k].semantic))
    && (ops != [] && IsCall(ops[|ops| - 1]) && s.embeddingsRebuildCount == Some(s.rebuildCount) ==> HasEmbedding(ops))
  }

  /** The embeddings held are those of the first embedding call in the final run of equal calls. */
  lemma {:induction false} EmbeddingsComeFrom<C, V>(build: seq<string> -> C, ops: seq<Op<V>>)
    ensures Traced(After<C, V>(build, ops), ops)
  {
    if ops != [] {
      var n := |ops| - 1;
      EmbeddingsComeFrom(build, ops[..n]);
      if IsCall(ops[n]) {
        RebuildsExactly<C, V>(build, ops);
        if Repeats(ops) {
          RunContinues(After<C, V>(build, ops[..n]), build, ops);
        } else {
          RunStarts(After<C, V>(build, ops[..n]), build, ops);
        }
      }
    }
  }

  lemma RunStarts<C, V>(s: State<C, V>, build: seq<string> -> C, ops: seq<Op<V>>)
    requires ops != [] && IsCall(ops[|ops| - 1]) && !Repeats(ops) && Traced(s, ops[..|ops| - 1])
    requires Step(s, build, ops[|ops| - 1]).rebuildCount == s.rebuildCount + 1
    ensures Traced(Step(s, build, ops[|ops| - 1]), ops)
  {
    var n := |ops| - 1;
    forall i: nat | i < n ensures !SameTextsFrom(ops, i) {
      assert !(IsCall(ops[n - 1]) && ops[n - 1].docs == ops[n].docs);
    }
    if ops[n].GetBoth? { assert FirstEmbedding(ops, n); }
  }

  lemma RunContinues<C, V>(s: State<C, V>, build: seq<string> -> C, ops: seq<Op<V>>)
    requires ops != [] && IsCall(ops[|ops| - 1]) && Repeats(ops) && Traced(s, ops[..|ops| - 1])
    requires Step(s, build, ops[|ops| - 1]).rebuildCount == s.rebuildCount
    ensures Traced(Step(s, build, ops[|ops| - 1]), ops)
  {
    hide SameTextsFrom;
    var n := |ops| - 1;
    SameRun(ops);
    if HasEmbedding(ops[..n]) {
      var k: nat :| k < n && FirstEmbedding(ops[..n], k);
      assert FirstEmbedding(ops, k) && ops[..n][k] == ops[k];
      assert s.docEmbeddings == ops[k].model.EmbedAll(ops[k].semantic);
      FirstEmbeddingIsUnique(ops);
    } else if ops[n].GetBoth? {
      FirstIsLast(ops);
    }
  }

  /** A call with the texts of the one before it keeps the run's first embedding call. */
  lemma {:induction false} SameRun<V>(ops: seq<Op<V>>)
    requires ops != [] && IsCall(ops[|ops| - 1]) && Repeats(ops)
    ensures forall k: nat | k < |ops| - 1 :: FirstEmbedding(ops[..|ops| - 1], k) <==> FirstEmbedding(ops, k)
  {
    var n := |ops| - 1;
    forall k: nat | k < n ensures SameTextsFrom(ops[..n], k) <==> SameTextsFrom(ops, k) {
      if SameTextsFrom(ops[..n], k) { assert ops[..n][n - 1].docs == ops[..n][k].docs; }
      if SameTextsFrom(ops, k) {
        forall i | k <= i < n ensures IsCall(ops[..n][i]) && ops[..n][i].docs == ops[..n][k].docs { assert ops[..n][i] == ops[i]; }
      }
    }
    hide SameTextsFrom;
  }

  /** With no embedding call earlier in the run, the last call is its first one. */
  lemma FirstIsLast<V>(ops: seq<Op<V>>)
    requires ops != [] && ops[|ops| - 1].GetBoth?
    ensures HasEmbedding(ops)
  {
    LeastEmbedding(ops, |ops| - 1);
  }

  lemma {:induction false} LeastEmbedding<V>(ops: seq<Op<V>>, k: nat)
    requires SameTextsFrom(ops, k) && ops[k].GetBoth?
    ensures HasEmbedding(ops)
  {
    if i: nat :| i < k && SameTextsFrom(ops, i) && ops[i].GetBoth? {
      LeastEmbedding(ops, i);
    } else {
      assert FirstEmbedding(ops, k);
    }
  }

  /** The first embedding call of the unbroken run at the end gave the vectors the last call asks for. */
  ghost predicate SameVectors<V(!new)>(ops: seq<Op<V>>)
    requires ops != [] && ops[|ops| - 1].GetBoth?
  {
    var last := ops[|ops| - 1];
    exists k: nat | k < |ops| && FirstEmbedding(ops, k) :: Aligned(ops[k].model.EmbedAll(ops[k].semantic), last.model, last.semantic)
  }

  /** The embeddings served are a fresh embedding of the call's own texts exactly then. What came
      before the unbroken run of equal calls does not matter. */
  lemma {:induction false} EmbeddingsFreshExactly<C, V(!new)>(build: seq<string> -> C, ops: seq<Op<V>>)
    requires ops != [] && ops[|ops| - 1].GetBoth?
    ensures var last := ops[|ops| - 1];
            Aligned(After<C, V>(build, ops).docEmbeddings, last.model, last.semantic) <==> SameVectors(ops)
  {
    EmbeddingsComeFrom<C, V>(build, ops);
    FirstIsLast(ops);
    var k: nat :| k < |ops| && FirstEmbedding(ops, k);
    FirstEmbeddingIsUnique(ops);
  }

  lemma FirstEmbeddingIsUnique<V>(ops: seq<Op<V>>)
    ensures forall j: nat, k: nat | j < |ops| && k < |ops| && FirstEmbedding(ops, j) && FirstEmbedding(ops, k) :: j == k
  {
  }

  /** Calls with equal document texts embed equal vectors: semantic texts are a function of
      document texts, and the model does not change. */
  ghost predicate EmbedsByDocs<V(!new)>(ops: seq<Op<V>>) {
    forall i, j | 0 <= i < |ops| && 0 <= j < |ops| && ops[i].GetBoth? && ops[j].GetBoth? && ops[i].docs == ops[j].docs ::
      ops[i].semantic == ops[j].semantic && ops[i].model == ops[j].model
  }

  /** Under that promise of the callers the embeddings served equal a fresh embedding of the
      call's own texts, one per text, after any operations. */
  lemma EmbeddingsAreFresh<C, V(!new)>(build: seq<string> -> C, ops: seq<Op<V>>)
    requires ops != [] && ops[|ops| - 1].GetBoth? && EmbedsByDocs(ops)
    ensures var last := ops[|ops| - 1];
            Aligned(After<C, V>(build, ops).docEmbeddings, last.model, last.semantic)
  {
    EmbeddingsComeFrom<C, V>(build, ops);
    var k: nat :| k < |ops| && FirstEmbedding(ops, k);
    assert ops[|ops| - 1].docs == ops[k].docs;
  }

  /** Without it, a call right after an increment or with new texts is still fresh. */
  lemma FreshAfterChange<C, V>(build: seq<string> -> C, ops: seq<Op<V>>)
    requires ops != [] && ops[|ops| - 1].GetBoth? && !Repeats(ops)
    ensures var last := ops[|ops| - 1];
            Aligned(After<C, V>(build, ops).docEmbeddings, last.model, last.semantic)
  {
    EmbeddingsComeFrom<C, V>(build, ops);
    forall i: nat | i < |ops| - 1 ensures !SameTextsFrom(ops, i) {
      assert !(IsCall(ops[|ops| - 2]) && ops[|ops| - 2].docs == ops[|ops| - 1].docs);
    }
    assert FirstEmbedding(ops, |ops| - 1);
  }

  /** Otherwise it can be stale: new semantic texts under unchanged document texts are not embedded. */
  lemma SemanticChangeIsMissed<C>(build: seq<string> -> C, model: Model<int>)
    requires model.Vector("a") != model.Vector("b")
    ensures var ops := [GetBoth(["d"], ["a"], model), GetBoth(["d"], ["b"], model)];
            var held := After<C, int>(build, ops).docEmbeddings;
            Aligned(held, model, ["a"]) && !Aligned(held, model, ["b"])
  {
    var ops := [GetBoth(["d"], ["a"], model), GetBoth(["d"], ["b"], model)];
    EmbeddingsComeFrom<C, int>(build, ops);
    assert FirstEmbedding(ops, 0);
    assert model.EmbedAll(["a"]) == [model.Vector("a")];
    assert ["a"][0] == "a" && ["b"][0] == "b";
  }
}
