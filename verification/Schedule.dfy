/** The scheduling claim of the work groups (`session-execute.js`, comment of `buildWorkGroups`):
what a round costs with groups run as pipelines, with a slot for every agent, against one
barrier between all developers and all testers. */
module Schedule {
  import opened WorkGroups

  /** How long each developer and each tester takes, by assignment index. */
  datatype Durations = Durations(devs: seq<nat>, testers: seq<nat>)

  predicate Within(agents: seq<nat>, n: nat) {
    forall k | 0 <= k < |agents| :: agents[k] < n
  }

  /** The slowest of some agents; 0 for none. */
  function Slowest(agents: seq<nat>, time: seq<nat>): nat
    requires Within(agents, |time|)
  {
    if agents == [] then 0 else Max(Slowest(agents[..|agents| - 1], time), time[agents[|agents| - 1]])
  }

  function Max(a: nat, b: nat): nat { if a < b then b else a }

  function All(n: nat): (r: seq<nat>)
    ensures |r| == n && forall i | 0 <= i < n :: r[i] == i
  {
    if n == 0 then [] else All(n - 1) + [n - 1]
  }

  lemma {:induction false} SlowestIs(agents: seq<nat>, time: seq<nat>)
    requires Within(agents, |time|)
    ensures forall k | 0 <= k < |agents| :: time[agents[k]] <= Slowest(agents, time)
    ensures agents != [] ==> exists k | 0 <= k < |agents| :: time[agents[k]] == Slowest(agents, time)
  {
    if agents != [] {
      var n := |agents| - 1;
      SlowestIs(agents[..n], time);
      assert forall k | 0 <= k < n :: agents[k] == agents[..n][k];
      if Slowest(agents, time) == time[agents[n]] { assert 0 <= n < |agents|; }
    }
  }

  lemma SlowestOfAll(agents: seq<nat>, time: seq<nat>)
    requires Within(agents, |time|)
    ensures Slowest(agents, time) <= Slowest(All(|time|), time)
  {
    SlowestIs(agents, time);
    SlowestIs(All(|time|), time);
    if agents != [] {
      var k :| 0 <= k < |agents| && time[agents[k]] == Slowest(agents, time);
      assert All(|time|)[agents[k]] == agents[k];
    }
  }

  /** Every developer before any tester. */
  function Barrier(d: Durations): nat {
    Slowest(All(|d.devs|), d.devs) + Slowest(All(|d.testers|), d.testers)
  }

  predicate Fits(g: Group, d: Durations) {
    Within(g.devs, |d.devs|) && Within(g.testers, |d.testers|)
  }

  function GroupTime(g: Group, d: Durations): nat
    requires Fits(g, d)
  {
    Slowest(g.devs, d.devs) + Slowest(g.testers, d.testers)
  }

  predicate AllFit(groups: seq<Group>, d: Durations) {
    forall k | 0 <= k < |groups| :: Fits(groups[k], d)
  }

  /** Each group on its own: its testers start when its developers have reported. */
  function Pipeline(groups: seq<Group>, d: Durations): nat
    requires AllFit(groups, d)
  {
    if groups == [] then 0 else Max(Pipeline(groups[..|groups| - 1], d), GroupTime(groups[|groups| - 1], d))
  }

  lemma {:induction false} PipelineIs(groups: seq<Group>, d: Durations)
    requires AllFit(groups, d)
    ensures forall k | 0 <= k < |groups| :: GroupTime(groups[k], d) <= Pipeline(groups, d)
    ensures groups != [] ==> exists k | 0 <= k < |groups| :: GroupTime(groups[k], d) == Pipeline(groups, d)
  {
    hide GroupTime;
    if groups != [] {
      var n := |groups| - 1;
      PipelineIs(groups[..n], d);
      assert forall k | 0 <= k < n :: groups[k] == groups[..n][k];
      if Pipeline(groups, d) == GroupTime(groups[n], d) { assert 0 <= n < |groups|; }
    }
  }

  lemma GroupsFit(a: Assignments, groups: seq<Group>, d: Durations)
    requires ExactGroups(a, groups) && |d.devs| == |a.devs| && |d.testers| == |a.testers|
    ensures AllFit(groups, d)
  {
    forall k | 0 <= k < |groups| ensures Fits(groups[k], d) {
      var g := groups[k];
      forall i | 0 <= i < |g.devs| ensures g.devs[i] < |d.devs| { assert Holds(g, Dev(g.devs[i])); assert IsMember(a, Dev(g.devs[i])); }
      forall i | 0 <= i < |g.testers| ensures g.testers[i] < |d.testers| {
        assert Holds(g, Tester(g.testers[i]));
        assert IsMember(a, Tester(g.testers[i]));
      }
    }
  }

  /** The group has a slowest developer of all and a slowest tester of all (or there are none). */
  predicate HasBothSlowest(g: Group, d: Durations)
    requires Fits(g, d)
  {
    && Slowest(g.devs, d.devs) == Slowest(All(|d.devs|), d.devs)
    && Slowest(g.testers, d.testers) == Slowest(All(|d.testers|), d.testers)
  }

  lemma GroupAgainstBarrier(g: Group, d: Durations)
    requires Fits(g, d)
    ensures GroupTime(g, d) <= Barrier(d) && (GroupTime(g, d) == Barrier(d) <==> HasBothSlowest(g, d))
  {
    SlowestOfAll(g.devs, d.devs);
    SlowestOfAll(g.testers, d.testers);
  }

  /** The pipeline is never slower than the barrier, and it is faster exactly when no single
      group has both a slowest developer and a slowest tester. */
  lemma PipelineAgainstBarrier(a: Assignments, groups: seq<Group>, d: Durations)
    requires ExactGroups(a, groups) && |d.devs| == |a.devs| && |d.testers| == |a.testers|
    ensures AllFit(groups, d) && Pipeline(groups, d) <= Barrier(d)
    ensures groups != [] ==> (Pipeline(groups, d) < Barrier(d) <==> forall k | 0 <= k < |groups| :: !HasBothSlowest(groups[k], d))
  {
    hide ExactGroups, Pipeline, Barrier, GroupTime, HasBothSlowest;
    GroupsFit(a, groups, d);
    PipelineIs(groups, d);
    forall k | 0 <= k < |groups|
      ensures GroupTime(groups[k], d) <= Barrier(d) && (GroupTime(groups[k], d) == Barrier(d) <==> HasBothSlowest(groups[k], d))
    {
      GroupAgainstBarrier(groups[k], d);
    }
    if groups == [] { NothingTakesNoTime(d); }
  }

  lemma NothingTakesNoTime(d: Durations)
    ensures Pipeline([], d) == 0
  {
  }

  /** What makes groups independent: a tester is in the group of every owner of a task it verifies. */
  lemma OwnersAreInTheGroup(a: Assignments, groups: seq<Group>, dev: nat, tester: nat, task: string, k: nat)
    requires ExactGroups(a, groups) && dev < |a.devs| && tester < |a.testers|
    requires task in a.devs[dev] && task in a.testers[tester]
    requires k < |groups| && Holds(groups[k], Tester(tester))
    ensures Holds(groups[k], Dev(dev))
  {
    EdgeMeansCarries(a, (Dev(dev), Task(task)));
    EdgeMeansCarries(a, (Tester(tester), Task(task)));
    var p := [Tester(tester), Task(task), Dev(dev)];
    assert Chain(AllEdges(a), p);
    assert Via(AllEdges(a), Tester(tester), Dev(dev), p);
    assert IsMember(a, Dev(dev));
    var j :| 0 <= j < |groups| && Holds(groups[j], Dev(dev));
    assert Connected(a, Tester(tester), Dev(dev));
  }

  lemma AllSame(agents: seq<nat>, time: seq<nat>, t: nat)
    requires Within(agents, |time|) && agents != [] && forall i | 0 <= i < |time| :: time[i] == t
    ensures Slowest(agents, time) == t
  {
    SlowestIs(agents, time);
  }

  /** Two developers and two testers on two separate tasks. */
  const TWO_TASKS := Assignments([["a"], ["b"]], [["a"], ["b"]])

  const TWO_GROUPS := [Group([0], [0]), Group([1], [1])]

  function HomeOf(x: Node): Node {
    if x in {Dev(0), Tester(0), Task("a")} then Dev(0) else Dev(1)
  }

  lemma {:induction false} TwoTasksLabelled() returns (root: map<Node, Node>)
    ensures root.Keys == {Dev(0), Tester(0), Task("a"), Dev(1), Tester(1), Task("b")}
    ensures forall x | x in root :: root[x] == HomeOf(x)
    ensures Labels(AllEdges(TWO_TASKS), root)
  {
    hide HomeOf, AllEdges;
    root := map x | x in {Dev(0), Tester(0), Task("a"), Dev(1), Tester(1), Task("b")} :: HomeOf(x);
    var E := AllEdges(TWO_TASKS);
    forall e | e in E ensures e.0 in root && e.1 in root && root[e.0] == root[e.1] {
      EdgeMeansCarries(TWO_TASKS, e);
      HomeOfEdge(e);
    }
    forall x, y | x in root && y in root ensures root[x] == root[y] <==> Linked(E, x, y) {
      if root[x] == root[y] {
        LinkedHome(x);
        LinkedHome(y);
        LinkedSym(E, y, HomeOf(y));
        LinkedTrans(E, x, HomeOf(x), y);
      } else if Linked(E, x, y) {
        var p :| Via(E, x, y, p);
        ChainKeepsLabel(E, root, p);
      }
    }
  }

  lemma HomeOfEdge(e: (Node, Node))
    requires IsMember(TWO_TASKS, e.0) && e.1.Task? && e.1.id in TasksOf(TWO_TASKS, e.0)
    ensures e.0 in {Dev(0), Tester(0), Dev(1), Tester(1)} && e.1 in {Task("a"), Task("b")} && HomeOf(e.0) == HomeOf(e.1)
  {
  }

  lemma {:induction false} LinkedHome(x: Node)
    requires x in {Dev(0), Tester(0), Task("a"), Dev(1), Tester(1), Task("b")}
    ensures Linked(AllEdges(TWO_TASKS), x, HomeOf(x))
  {
    hide AllEdges, Linked;
    var E := AllEdges(TWO_TASKS);
    var home := HomeOf(x);
    var task := if home == Dev(0) then Task("a") else Task("b");
    EdgeMeansCarries(TWO_TASKS, (home, task));
    LinkedEdge(E, home, task);
    LinkedSym(E, home, task);
    LinkedRefl(E, home);
    if x.Tester? {
      EdgeMeansCarries(TWO_TASKS, (x, task));
      LinkedEdge(E, x, task);
      LinkedTrans(E, x, task, home);
    }
  }

  lemma {:induction false} TwoGroupsAreExact()
    ensures ExactGroups(TWO_TASKS, TWO_GROUPS)
  {
    hide Labels, AllEdges, ExactGroups;
    var root := TwoTasksLabelled();
    var s := Slots([Dev(0), Dev(1)], TWO_GROUPS);
    assert Collected(root, s, 2, 2);
    FiledIsExact(TWO_TASKS, root, s);
  }

  /** With equally slow agents the pipeline need not be faster, although a slowest developer and a
      slowest tester are in different groups. */
  lemma {:induction false} TiesGainNothing()
    ensures var groups, d := TWO_GROUPS, Durations([5, 5], [5, 5]);
            ExactGroups(TWO_TASKS, groups) && AllFit(groups, d) && Pipeline(groups, d) == Barrier(d)
  {
    hide Slowest, All, Pipeline, ExactGroups;
    var groups, d := TWO_GROUPS, Durations([5, 5], [5, 5]);
    TwoGroupsAreExact();
    AllSame(All(2), [5, 5], 5);
    AllSame([0], [5, 5], 5);
    AllSame([1], [5, 5], 5);
    assert GroupTime(groups[0], d) == 10 && GroupTime(groups[1], d) == 10 && Barrier(d) == 10;
    PipelineIs(groups, d);
  }
}
