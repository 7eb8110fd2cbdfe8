/** ilclient_state_transition: every component of a list is told to change state, in the order of
    random keys, before any of them is waited for. */
module StateTransition {
  import opened Common

  class Component {
    var private: nat

    constructor () {
      private := 0;
    }
  }

  datatype Action = Send(index: int) | Wait(index: int)

  /** ((rand() >> 13) & 0xff) + 1 */
  function Key(rand: nat): (k: nat)
    ensures 1 <= k <= 256
  {
    rand / 8192 % 256 + 1
  }

  /** A key is one more than bits 13 to 20 of the number it is drawn from. */
  lemma KeyBits(rand: nat)
    ensures (Key(rand) - 1) * 0x2000 <= rand % 0x20_0000 < Key(rand) * 0x2000
  {
    var q := rand / 0x2000;
    assert rand % 0x20_0000 == q % 256 * 0x2000 + rand % 0x2000 by {
      assert rand == q * 0x2000 + rand % 0x2000 && q == q / 256 * 256 + q % 256;
    }
  }

  /** Index `x` is commanded before index `y`: by key, ties by position. */
  predicate Before(keys: seq<nat>, x: int, y: int)
    requires 0 <= x < |keys| && 0 <= y < |keys|
  {
    keys[x] < keys[y] || (keys[x] == keys[y] && x < y)
  }

  predicate Ascending(keys: seq<nat>, order: seq<int>) {
    (forall a :: 0 <= a < |order| ==> 0 <= order[a] < |keys|)
    && forall a, b :: 0 <= a < b < |order| ==> Before(keys, order[a], order[b])
  }

  function Sends(order: seq<int>): seq<Action> {
    if order == [] then [] else Sends(order[..|order| - 1]) + [Send(order[|order| - 1])]
  }

  function Waits(n: nat): seq<Action> {
    if n == 0 then [] else Waits(n - 1) + [Wait(n - 1)]
  }

  lemma {:induction false} IndicesBelow(n: nat) returns (s: set<int>)
    ensures |s| == n && forall x :: x in s <==> 0 <= x < n
  {
    s := {};
    if n > 0 {
      s := IndicesBelow(n - 1);
      s := s + {n - 1};
    }
  }

  /** Fewer than `n` distinct indices below `n` leave one out; `n` of them leave none out. */
  lemma Pigeonhole(order: seq<int>, n: nat)
    requires Distinct(order) && forall a :: 0 <= a < |order| ==> 0 <= order[a] < n
    ensures |order| <= n
    ensures |order| < n ==> exists j :: 0 <= j < n && j !in order
    ensures |order| == n ==> forall j :: 0 <= j < n ==> j in order
  {
    DistinctCard(order);
    var used: set<int> := set x | x in order;
    var all := IndicesBelow(n);
    assert used <= all;
    if |order| < n {
      if forall j :: 0 <= j < n ==> j in order {
        forall x | x in all ensures x in used { }
        SubsetCard(all, used);
        assert false;
      }
    } else if |order| >= n {
      assert |all - used| == |all| - |used|;
      assert all - used == {};
      forall j | 0 <= j < n ensures j in order { assert j in all && j in used; }
    }
  }

  lemma AscendingDistinct(keys: seq<nat>, order: seq<int>)
    requires Ascending(keys, order)
    ensures Distinct(order)
  {
    forall a, b | 0 <= a < b < |order| ensures order[a] != order[b] { assert Before(keys, order[a], order[b]); }
  }

  /** Index `m` has the smallest key not yet commanded among the first `n`, the first of equals. */
  ghost predicate IsMin(list: seq<Component>, n: nat, m: int)
    requires n <= |list|
    reads list
  {
    if m == -1 then forall i :: 0 <= i < n ==> list[i].private == 0 else
      0 <= m < n && list[m].private != 0
      && forall i :: 0 <= i < n && list[i].private != 0 && i != m ==>
           list[m].private < list[i].private || (list[m].private == list[i].private && m < i)
  }

  method FindMin(list: seq<Component>) returns (min: int)
    ensures IsMin(list, |list|, min)
  {
    min := -1;
    for j := 0 to |list|
      invariant IsMin(list, j, min)
    {
      if list[j].private != 0 && (min == -1 || list[min].private > list[j].private) {
        min := j;
      }
    }
  }

  /** Component `x` has been commanded. */
  ghost predicate Commanded(list: seq<Component>, order: seq<int>, x: Component) {
    exists a :: 0 <= a < |order| && 0 <= order[a] < |list| && list[order[a]] == x
  }

  /** ok is false when the selection finds nothing and the code indexes the list with -1; that
      happens exactly when some component is listed twice.  Otherwise every component is
      commanded exactly once, in ascending key order with ties by position, and only then waited
      for, in list order. */
  method Transition(list: seq<Component>, rands: seq<nat>)
    returns (ok: bool, log: seq<Action>, ghost keys: seq<nat>, ghost order: seq<int>)
    requires |rands| == |list|
    modifies list
    ensures ok <==> Distinct(list)
    ensures |keys| == |list| && Ascending(keys, order)
    ensures ok ==> keys == seq(|list|, i requires 0 <= i < |list| => Key(rands[i]))
    ensures ok ==> |order| == |list| && Distinct(order) && forall j :: 0 <= j < |list| ==> j in order
    ensures ok ==> log == Sends(order) + Waits(|list|)
    ensures ok ==> forall j :: 0 <= j < |list| ==> list[j].private == 0
  {
    keys := AssignKeys(list, rands);
    assert forall j :: 0 <= j < |list| ==> !Commanded(list, [], list[j]);
    ok, log, order := SendAll(list, keys);
    if !ok {
      return;
    }
    hide Progress, Commanded, Ascending;
    for k := 0 to |list|
      invariant log == Sends(order) + Waits(k)
    {
      log := log + [Wait(k)];
    }
  }

  /** The second loop. */
  method SendAll(list: seq<Component>, ghost keys: seq<nat>) returns (ok: bool, log: seq<Action>, ghost order: seq<int>)
    requires Progress(list, keys, [])
    modifies list
    ensures ok <==> Distinct(list)
    ensures |keys| == |list| && Ascending(keys, order) && log == Sends(order)
    ensures ok ==> |order| == |list| && Distinct(order) && forall j :: 0 <= j < |list| ==> j in order
    ensures ok ==> forall j :: 0 <= j < |list| ==> list[j].private == 0
  {
    order, log := [], [];
    var i := 0;
    while i < |list|
      invariant |order| == i <= |list| && log == Sends(order)
      invariant Progress(list, keys, order)
    {
      var min := FindMin(list);
      if min == -1 {
        if Distinct(list) { SomeoneLeft(list, keys, order); }
        return false, log, order;
      }
      Command(list, keys, order, min);
      assert (order + [min])[..|order|] == order;
      log, order := log + [Send(min)], order + [min];
      i := i + 1;
    }
    AllCommanded(list, keys, order);
    ok := true;
  }

  /** The first loop; with a component listed twice the later key stands. */
  method AssignKeys(list: seq<Component>, rands: seq<nat>) returns (ghost keys: seq<nat>)
    requires |rands| == |list|
    modifies list
    ensures |keys| == |list| && forall j :: 0 <= j < |list| ==> list[j].private == keys[j] > 0
    ensures Distinct(list) ==> keys == seq(|list|, i requires 0 <= i < |list| => Key(rands[i]))
  {
    for i := 0 to |list|
      invariant forall j :: 0 <= j < i ==> list[j].private > 0
      invariant Distinct(list) ==> forall j :: 0 <= j < i ==> list[j].private == Key(rands[j])
    {
      list[i].private := Key(rands[i]);
    }
    keys := seq(|list|, i requires 0 <= i < |list| reads list => list[i].private);
  }

  /** `order` has been commanded: those components have no key left, all others keep theirs and
      come later. */
  ghost predicate Progress(list: seq<Component>, keys: seq<nat>, order: seq<int>)
    reads list
  {
    |keys| == |list| && Ascending(keys, order)
    && (forall j :: 0 <= j < |keys| ==> keys[j] > 0)
    && (forall j :: 0 <= j < |list| ==> list[j].private == if Commanded(list, order, list[j]) then 0 else keys[j])
    && (forall j, a :: 0 <= j < |list| && 0 <= a < |order| && list[j].private != 0 ==> Before(keys, order[a], j))
    && (forall a, b :: 0 <= a < b < |order| ==> list[order[a]] != list[order[b]])
  }

  method Command(list: seq<Component>, ghost keys: seq<nat>, ghost order: seq<int>, min: nat)
    requires Progress(list, keys, order) && min < |list| && IsMin(list, |list|, min)
    modifies list
    ensures Progress(list, keys, order + [min])
  {
    OneMore(list, order, min);
    Extended(list, keys, order, min);
    hide Ascending;
    list[min].private := 0;
  }

  lemma Extended(list: seq<Component>, keys: seq<nat>, order: seq<int>, m: nat)
    requires Progress(list, keys, order) && m < |list| && list[m].private != 0
    ensures Ascending(keys, order + [m])
    ensures forall a :: 0 <= a < |order| ==> list[order[a]] != list[m]
  {
    forall a | 0 <= a < |order| ensures list[order[a]] != list[m] {
      assert Commanded(list, order, list[order[a]]);
    }
  }

  lemma OneMore(list: seq<Component>, order: seq<int>, m: nat)
    requires m < |list|
    ensures forall x :: x in list ==> (Commanded(list, order + [m], x) <==> Commanded(list, order, x) || x == list[m])
  {
    var next := order + [m];
    forall x | x in list ensures Commanded(list, next, x) <==> Commanded(list, order, x) || x == list[m] {
      assert next[|order|] == m;
      assert forall a :: 0 <= a < |order| ==> next[a] == order[a];
    }
  }

  lemma SomeoneLeft(list: seq<Component>, keys: seq<nat>, order: seq<int>)
    requires |keys| == |list| && Ascending(keys, order) && |order| < |list| && Distinct(list)
    ensures exists j :: 0 <= j < |list| && !Commanded(list, order, list[j])
  {
    AscendingDistinct(keys, order);
    Pigeonhole(order, |list|);
    var j :| 0 <= j < |list| && j !in order;
    assert !Commanded(list, order, list[j]);
  }

  lemma AllCommanded(list: seq<Component>, keys: seq<nat>, order: seq<int>)
    requires |keys| == |list| == |order| && Ascending(keys, order)
    requires forall a, b :: 0 <= a < b < |order| ==> list[order[a]] != list[order[b]]
    ensures Distinct(order) && (forall j :: 0 <= j < |list| ==> j in order)
    ensures Distinct(list)
    ensures forall j :: 0 <= j < |list| ==> Commanded(list, order, list[j])
  {
    AscendingDistinct(keys, order);
    Pigeonhole(order, |list|);
    forall j | 0 <= j < |list| ensures Commanded(list, order, list[j]) {
      assert j in order;
      var a :| 0 <= a < |order| && order[a] == j;
    }
    forall i, j | 0 <= i < j < |list| ensures list[i] != list[j] {
      assert i in order && j in order;
      var a :| 0 <= a < |order| && order[a] == i;
      var b :| 0 <= b < |order| && order[b] == j;
      assert a != b;
    }
  }
}
