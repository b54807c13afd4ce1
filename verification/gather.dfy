/** `asyncio.gather(*tasks)`: the tasks finish in some order, yet the result
    list holds task `i`'s result at position `i`; one raising task makes the
    whole gather raise. */
module Gather {
  import opened Wrappers

  function Indices(n: nat): (s: seq<nat>)
    ensures |s| == n && forall i :: 0 <= i < n ==> s[i] == i
  {
    seq(n, i => i)
  }

  /** `order` lists the positions of `n` tasks in the order they finish:
      each position exactly once. */
  predicate IsCompletionOrder(order: seq<nat>, n: nat) {
    multiset(order) == multiset(Indices(n))
  }

  /** The outcome gather reports for the given per-task outcomes (`None` for
      a task that raised), read in argument order. */
  function GatherAll<R>(outcomes: seq<Option<R>>): (r: Option<seq<R>>)
    ensures r.Some? <==> forall i :: 0 <= i < |outcomes| ==> outcomes[i].Some?
    ensures r.Some? ==> |r.value| == |outcomes| && forall i :: 0 <= i < |outcomes| ==> outcomes[i] == Some(r.value[i])
    decreases |outcomes|
  {
    if outcomes == [] then Some([])
    else
      var n := |outcomes| - 1;
      match GatherAll(outcomes[..n])
      case None => None
      case Some(prefix) =>
        match outcomes[n]
        case None => None
        case Some(last) => Some(prefix + [last])
  }

  lemma CompletionOrderBounds(order: seq<nat>, n: nat)
    requires IsCompletionOrder(order, n)
    ensures forall k :: 0 <= k < |order| ==> order[k] < n
    ensures forall i :: 0 <= i < n ==> i in order
  {
    forall k | 0 <= k < |order|
      ensures order[k] < n
    {
      assert order[k] in multiset(order);
      assert order[k] in multiset(Indices(n));
    }
    forall i | 0 <= i < n
      ensures i in order
    {
      assert Indices(n)[i] == i;
      assert i in multiset(Indices(n));
    }
  }

  /** Collects the tasks' outcomes (task `i` finishing with `outcomes[i]`)
      in completion order `order`, storing each result in the slot of its
      task and raising at the first task that raised; the outcome is the same
      as reading the tasks in argument order, whatever the completion order. */
  method GatherInCompletionOrder<R>(outcomes: seq<Option<R>>, order: seq<nat>) returns (r: Option<seq<R>>)
    requires IsCompletionOrder(order, |outcomes|)
    ensures r == GatherAll(outcomes)
  {
    CompletionOrderBounds(order, |outcomes|);
    var slots: seq<Option<R>> := seq(|outcomes|, _ => None);
    var k := 0;
    while k < |order|
      invariant 0 <= k <= |order|
      invariant |slots| == |outcomes|
      invariant forall i :: 0 <= i < |outcomes| ==> slots[i] == (if i in order[..k] then outcomes[i] else None)
      invariant forall j :: 0 <= j < k ==> outcomes[order[j]].Some?
    {
      var i := order[k];
      var outcome := outcomes[i];
      if outcome.None? {
        assert outcomes[i].None?;
        assert GatherAll(outcomes).None?;
        return None;
      }
      slots := slots[i := outcome];
      assert order[..k + 1] == order[..k] + [i];
      k := k + 1;
    }
    assert order[..k] == order;
    forall i | 0 <= i < |outcomes|
      ensures slots[i] == outcomes[i] && outcomes[i].Some?
    {
      assert i in order;
      var j :| 0 <= j < |order| && order[j] == i;
    }
    r := Some(seq(|outcomes|, i requires 0 <= i < |outcomes| => slots[i].value));
    assert GatherAll(outcomes).Some?;
    assert GatherAll(outcomes).value == r.value;
  }
}
