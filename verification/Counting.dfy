/** How many indices satisfy a condition, for stating what recursive counts are. */
module Counting {

  function Among(n: nat, p: nat -> bool): set<nat> {
    set i: nat | i < n && p(i)
  }

  lemma AmongNext(n: nat, p: nat -> bool)
    ensures |Among(n + 1, p)| == |Among(n, p)| + if p(n) then 1 else 0
  {
    assert Among(n + 1, p) == Among(n, p) + if p(n) then {n} else {};
  }
}
