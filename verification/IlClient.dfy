/** The event lists as the client keeps them: NUM_EVENTS nodes threaded through `next`, one
    spare list and one list per component.  Every method is one section under the event lock;
    its contract equates the new abstract state with module IlEvents' function of the old one. */
module IlClient {
  import opened Common
  import opened IlEvents
  import EventPool

  class Node {
    var kind: Kind
    var data1: Data
    var data2: nat
    var next: Node?

    constructor ()
      ensures fresh(this)
    {
      kind, data1, data2, next := Unused, Num(0), 0, null;
    }

    ghost function Value(): Event
      reads this
    {
      Event(kind, data1, data2)
    }
  }

  ghost predicate Chain(head: Node?, nodes: seq<Node>)
    reads nodes
  {
    head == (if nodes == [] then null else nodes[0])
    && (forall i, j {:trigger nodes[i].next, nodes[j]} :: 0 <= i && j == i + 1 < |nodes| ==> nodes[i].next == nodes[j])
    && (nodes != [] ==> nodes[|nodes| - 1].next == null)
  }

  ghost predicate Shows(q: seq<Node>, values: seq<Event>)
    reads q
  {
    |values| == |q| && forall i :: 0 <= i < |q| ==> values[i] == q[i].Value()
  }

  ghost function At(q: seq<Node>, i: nat): Node? {
    if i < |q| then q[i] else null
  }

  lemma ValueIs(q: seq<Node>, values: seq<Event>, i: nat)
    requires Shows(q, values) && i < |q|
    ensures q[i].Value() == values[i]
  {
  }

  lemma HeadIs(q: seq<Node>, head: Node?)
    requires Chain(head, q)
    ensures head == At(q, 0)
  {
  }

  lemma NextIs(q: seq<Node>, head: Node?, i: nat)
    requires Chain(head, q) && i < |q|
    ensures q[i].next == At(q, i + 1)
  {
  }

  /** A node becomes the head of the spare list, as a rule marked unused. */
  method PutBack(cur: Node, spareHead: Node?, mark: bool, ghost sp: seq<Node>)
    requires Chain(spareHead, sp) && cur !in sp
    modifies cur
    ensures Chain(cur, [cur] + sp)
  {
    assert forall j :: 0 <= j < |sp| ==> sp[j] in sp;
    cur.next := spareHead;
    if mark {
      cur.kind := Unused;
    }
  }

  /** Take node `i` out of the list `q`, its predecessor at hand, and put it in front of the
      spare list `sp`, as a rule marked unused. */
  method Release(head: Node?, spareHead: Node?, prev: Node?, cur: Node, mark: bool,
                 ghost q: seq<Node>, ghost values: seq<Event>, ghost sp: seq<Node>, ghost i: nat)
    returns (newHead: Node?)
    requires Chain(head, q) && Shows(q, values) && Chain(spareHead, sp) && Distinct(q)
    requires i < |q| && cur == q[i] && prev == (if i == 0 then null else q[i - 1])
    requires forall n :: n in sp ==> n !in q
    modifies q
    ensures Chain(newHead, RemoveAt(q, i)) && Chain(cur, [cur] + sp)
    ensures Shows(RemoveAt(q, i), RemoveAt(values, i))
  {
    assert forall j :: 0 <= j < |sp| ==> sp[j] in sp;
    assert prev != null ==> prev in q;
    GoneFrom(q, i);
    newHead := Bypass(head, prev, cur, q, values, i);
    hide RemoveAt, Distinct;
    PutBack(cur, spareHead, mark, sp);
  }

  lemma GoneFrom(q: seq<Node>, i: nat)
    requires i < |q| && Distinct(q)
    ensures forall j :: 0 <= j < |RemoveAt(q, i)| ==> RemoveAt(q, i)[j] != q[i]
  {
    var r := RemoveAt(q, i);
    assert forall j :: 0 <= j < |r| ==> r[j] == q[if j < i then j else j + 1];
  }

  /** The link that led to node `i` leads past it. */
  method Bypass(head: Node?, prev: Node?, cur: Node, ghost q: seq<Node>, ghost values: seq<Event>, ghost i: nat)
    returns (newHead: Node?)
    requires Chain(head, q) && Shows(q, values) && Distinct(q)
    requires i < |q| && cur == q[i] && prev == (if i == 0 then null else q[i - 1])
    modifies prev
    ensures Chain(newHead, RemoveAt(q, i)) && Shows(RemoveAt(q, i), RemoveAt(values, i))
  {
    newHead := head;
    if prev == null {
      newHead := cur.next;
    } else {
      prev.next := cur.next;
    }
    ghost var r := RemoveAt(q, i);
    assert forall j :: 0 <= j < |r| ==> r[j] == q[if j < i then j else j + 1];
  }

  class Component {
    ghost const id: nat  // position among the client's components
    var list: Node?
    var flags: set<Flag>
    var errorMask: set<ErrorCode>
    var related: Component?

    constructor (ghost id: nat)
      ensures fresh(this) && this.id == id
      ensures list == null && flags == {} && errorMask == {} && related == null
    {
      this.id := id;
      list, flags, errorMask, related := null, {}, {}, null;
    }

    /** Take node `i` out of the list, its predecessor at hand, and put it in front of the spare
        list `spare`. */
    method Drop(spareHead: Node?, prev: Node?, cur: Node, mark: bool, ghost q: seq<Node>, ghost v: Comp,
                ghost spare: seq<Node>, ghost i: nat)
      requires Represents(this, q, v) && Chain(spareHead, spare) && Distinct(q)
      requires i < |q| && cur == q[i] && prev == (if i == 0 then null else q[i - 1])
      requires forall n :: n in spare ==> n !in q
      modifies this`list, q
      ensures Represents(this, RemoveAt(q, i), v.(list := RemoveAt(v.list, i)))
      ensures Chain(cur, [cur] + spare)
    {
      list := Release(list, spareHead, prev, cur, mark, q, v.list, spare, i);
    }
  }

  /** Component `x`, its nodes being `q`, stands for the value `v`. */
  ghost predicate Represents(x: Component, q: seq<Node>, v: Comp)
    reads x, q
  {
    Chain(x.list, q)
    && |v.list| == |q| && Shows(q, v.list)
    && v.flags == x.flags && v.errorMask == x.errorMask
    && v.related == if x.related == null then None else Some(x.related.id)
  }

  // ---------------------------------------------------------------- conservation of nodes

  ghost function Flat(queues: seq<seq<Node>>): seq<Node> {
    if queues == [] then [] else queues[0] + Flat(queues[1..])
  }

  /** Every node is at exactly one place of exactly one list. */
  ghost predicate Partition(pool: set<Node>, spare: seq<Node>, queues: seq<seq<Node>>) {
    Distinct(spare + Flat(queues)) && pool == set n | n in spare + Flat(queues)
  }

  lemma {:induction false} FlatAround(queues: seq<seq<Node>>, c: nat, q: seq<Node>)
    requires c < |queues|
    ensures Flat(queues) == Flat(queues[..c]) + queues[c] + Flat(queues[c + 1..])
    ensures Flat(queues[c := q]) == Flat(queues[..c]) + q + Flat(queues[c + 1..])
  {
    if c == 0 {
      assert queues[c := q][1..] == queues[1..];
    } else {
      FlatAround(queues[1..], c - 1, q);
      var h, a, b := queues[0], Flat(queues[1..][..c - 1]), Flat(queues[c + 1..]);
      assert queues[1..][..c - 1] == queues[..c][1..] && queues[1..][c..] == queues[c + 1..];
      assert queues[c := q][1..] == queues[1..][c - 1 := q];
      assert Flat(queues) == h + (a + queues[c] + b) && Flat(queues[c := q]) == h + (a + q + b);
      assert Flat(queues[..c]) == h + a;
      hide Flat;
      Assoc(h, a + queues[c], b);
      Assoc(h, a, queues[c]);
      Assoc(h, a + q, b);
      Assoc(h, a, q);
    }
  }

  lemma {:induction false} FlatAppendEmpty(queues: seq<seq<Node>>)
    ensures Flat(queues + [[]]) == Flat(queues)
  {
    if queues == [] {
      assert (queues + [[]])[1..] == queues;
    } else {
      FlatAppendEmpty(queues[1..]);
      assert (queues + [[]])[1..] == queues[1..] + [[]];
    }
  }

  lemma {:induction false} FlatHas(queues: seq<seq<Node>>, c: nat, n: Node)
    requires c < |queues| && n in queues[c]
    ensures n in Flat(queues)
  {
    if c > 0 { FlatHas(queues[1..], c - 1, n); }
  }

  /** Rearranging a duplicate-free sequence leaves it duplicate-free, with the same elements. */
  lemma Rearranged(s: seq<Node>, t: seq<Node>)
    requires multiset(s) == multiset(t) && Distinct(s)
    ensures Distinct(t)
    ensures (set n | n in s) == set n | n in t
  {
    forall i, j | 0 <= i < j < |t| ensures t[i] != t[j] {
      DistinctCount(s, t[i]);
      assert t == t[..j] + t[j..];
      assert t[i] in t[..j] && t[j] in t[j..];
    }
    assert forall n :: n in s <==> n in multiset(s);
    assert forall n :: n in t <==> n in multiset(t);
  }

  lemma DistinctTail(s: seq<Node>, t: seq<Node>, n: Node)
    requires Distinct(s + t) && n in t
    ensures n !in s
  {
    var j :| 0 <= j < |t| && t[j] == n;
    assert (s + t)[|s| + j] == n;
    assert forall i :: 0 <= i < |s| ==> (s + t)[i] == s[i];
  }

  /** The pointwise reading of the partition, as seen from one component. */
  lemma PartitionApart(pool: set<Node>, spare: seq<Node>, queues: seq<seq<Node>>, c: nat)
    requires Partition(pool, spare, queues) && c < |queues|
    ensures Distinct(queues[c]) && Distinct(spare)
    ensures forall n :: n in spare ==> n in pool && n !in queues[c]
    ensures forall n :: n in queues[c] ==> n in pool
    ensures forall d, n :: 0 <= d < |queues| && d != c && n in queues[d] ==> n in pool && n !in queues[c] && n !in spare
  {
    FlatAround(queues, c, []);
    var a, q, b := Flat(queues[..c]), queues[c], Flat(queues[c + 1..]);
    MiddleApart(spare, a, q, b);
    hide Distinct, Flat;
    forall d, n | 0 <= d < |queues| && d != c && n in queues[d] ensures n in pool && n !in q && n !in spare {
      if d < c { FlatHas(queues[..c], d, n); } else { FlatHas(queues[c + 1..], d - c - 1, n); }
    }
  }

  lemma MiddleApart(spare: seq<Node>, a: seq<Node>, q: seq<Node>, b: seq<Node>)
    requires Distinct(spare + (a + q + b))
    ensures Distinct(q) && Distinct(spare)
    ensures forall n :: n in spare || n in a || n in b ==> n !in q
    ensures forall n :: n in a || n in b ==> n !in spare
  {
    var all := spare + (a + q + b);
    Rearranged(all, q + (spare + a + b));
    DistinctFront(q, spare + a + b);
    DistinctFront(spare, a + q + b);
  }

  lemma DistinctFront(s: seq<Node>, t: seq<Node>)
    requires Distinct(s + t)
    ensures Distinct(s) && forall n :: n in t ==> n !in s
  {
    forall i, j | 0 <= i < j < |s| ensures s[i] != s[j] { assert (s + t)[i] == s[i] && (s + t)[j] == s[j]; }
    forall n | n in t ensures n !in s { DistinctTail(s, t, n); }
  }

  lemma RemoveAtParts<T>(q: seq<T>, i: nat)
    requires i < |q|
    ensures q == q[..i] + [q[i]] + q[i + 1..]
  {
  }

  lemma FreeKeepsPartition(pool: set<Node>, spare: seq<Node>, queues: seq<seq<Node>>, c: nat, i: nat)
    requires Partition(pool, spare, queues) && c < |queues| && i < |queues[c]|
    ensures Partition(pool, [queues[c][i]] + spare, queues[c := RemoveAt(queues[c], i)])
  {
    var q, r := queues[c], RemoveAt(queues[c], i);
    FlatAround(queues, c, r);
    RemoveAtParts(q, i);
    Rearranged(spare + Flat(queues), [q[i]] + spare + Flat(queues[c := r]));
  }

  lemma InsertKeepsPartition(pool: set<Node>, spare: seq<Node>, queues: seq<seq<Node>>, c: nat)
    requires Partition(pool, spare, queues) && c < |queues| && spare != []
    ensures Partition(pool, spare[1..], queues[c := [spare[0]] + queues[c]])
  {
    FlatAround(queues, c, [spare[0]] + queues[c]);
    assert spare == [spare[0]] + spare[1..];
    Rearranged(spare + Flat(queues), spare[1..] + Flat(queues[c := [spare[0]] + queues[c]]));
  }

  /** The insertion that ends the event handler: the first spare node is filled in and becomes
      the head of the list. */
  method Fill(n: Node, list: Node?, e: Event, ghost q: seq<Node>, ghost values: seq<Event>, ghost sp: seq<Node>)
    returns (rest: Node?)
    requires Chain(list, q) && Shows(q, values)
    requires sp != [] && Chain(n, sp) && Distinct(sp)
    requires forall m :: m in sp ==> m !in q
    modifies n
    ensures Chain(rest, sp[1..]) && Chain(n, [n] + q) && Shows([n] + q, [e] + values)
  {
    assert n == sp[0];
    assert forall j :: 0 <= j < |q| ==> q[j] in q;
    n.kind, n.data1, n.data2 := e.kind, e.data1, e.data2;
    rest := n.next;
    n.next := list;
  }

  lemma AddSpare(pool: set<Node>, spare: seq<Node>, n: Node)
    requires Partition(pool, spare, []) && n !in pool
    ensures Partition(pool + {n}, [n] + spare, [])
    ensures forall m :: m in spare ==> m in pool
  {
    assert spare + Flat([]) == spare && [n] + spare + Flat([]) == [n] + spare;
  }

  /** The loop of ilclient_init that threads event_rep onto the spare list. */
  method ThreadPool()
    returns (head: Node?, ghost pool: set<Node>, ghost spare: seq<Node>)
    ensures fresh(pool) && |pool| == NUM_EVENTS == |spare|
    ensures Partition(pool, spare, [])
    ensures forall n :: n in spare ==> n in pool
    ensures Chain(head, spare)
  {
    head := null;
    pool, spare := {}, [];
    assert Partition(pool, spare, []);
    hide Partition;
    for i := 0 to NUM_EVENTS
      invariant fresh(pool) && |pool| == i == |spare|
      invariant Partition(pool, spare, [])
      invariant forall n :: n in spare ==> n in pool
      invariant Chain(head, spare)
    {
      var n := new Node();
      n.kind := Unused;
      n.next := head;
      head := n;
      AddSpare(pool, spare, n);
      pool, spare := pool + {n}, [n] + spare;
    }
  }

  // ---------------------------------------------------------------- the client

  /** The picture of the heap: which nodes are threaded from where, and what they stand for. */
  datatype Picture = Picture(
    pool: set<Node>,                   // event_rep
    comps: seq<Component>,
    spare: seq<Node>,                  // nodes threaded from eventList
    queues: seq<seq<Node>>,            // nodes threaded from each component's list
    abs: IlEvents.Client)
  {
    ghost predicate Consistent() {
      |pool| == NUM_EVENTS
      && |queues| == |comps| == |abs.comps| && abs.spare == |spare|
      && Partition(pool, spare, queues)
      && (forall c, i :: 0 <= c < |queues| && 0 <= i < |queues[c]| ==> queues[c][i] in pool)
      && (forall n :: n in spare ==> n in pool)
      && (forall c {:trigger comps[c]} :: 0 <= c < |comps| ==> comps[c].id == c)
      && (forall c :: 0 <= c < |comps| ==> |queues[c]| == |abs.comps[c].list|)
    }

    /** The first spare node put in front of the list of component `c`, holding `e`. */
    ghost function Inserted(c: nat, e: Event): (r: Picture)
      requires Consistent() && c < |comps| && spare != []
      ensures r.Consistent()
    {
      InsertKeepsPartition(pool, spare, queues, c);
      this.(spare := spare[1..], queues := queues[c := [spare[0]] + queues[c]], abs := Insert(abs, c, e))
    }

    /** One component more, with an empty list. */
    ghost function Added(x: Component): (r: Picture)
      requires Consistent() && x.id == |comps|
      ensures r.Consistent()
    {
      AddKeepsPartition(pool, spare, queues);
      this.(comps := comps + [x], queues := queues + [[]],
            abs := abs.(comps := abs.comps + [Comp([], {}, {}, None)]))
    }

    /** Node `i` of component `c` moved to the front of the spare list. */
    ghost function Freed(c: nat, i: nat): (r: Picture)
      requires Consistent() && c < |comps| && i < |queues[c]|
      ensures r.Consistent()
    {
      FreeKeepsPartition(pool, spare, queues, c, i);
      this.(spare := [queues[c][i]] + spare, queues := queues[c := RemoveAt(queues[c], i)], abs := abs.Free(c, i))
    }
  }

  ghost predicate Among(comps: seq<Component>, x: Component) {
    x.id < |comps| && comps[x.id] == x
  }

  /** Components only point at components of the same client.  Hidden in proofs that do not
      need it, or the solver follows the pointers for ever. */
  ghost predicate Linked(comps: seq<Component>)
    reads comps`related
  {
    forall c :: 0 <= c < |comps| && comps[c].related != null ==> Among(comps, comps[c].related)
  }

  lemma AddKeepsLinked(comps: seq<Component>, x: Component)
    requires Linked(comps) && x.related == null
    ensures Linked(comps + [x])
  {
    forall c | 0 <= c < |comps + [x]| && (comps + [x])[c].related != null
      ensures Among(comps + [x], (comps + [x])[c].related)
    {
      assert (comps + [x])[c] == comps[c];
      assert Among(comps, comps[c].related);
    }
  }

  class Runtime {
    var eventList: Node?
    ghost var p: Picture

    ghost predicate Valid()
      reads this, p.pool, p.comps
    {
      p.Consistent() && Linked(p.comps)
      && |p.queues| == |p.comps| == |p.abs.comps| && |p.spare| == p.abs.spare
      && Chain(eventList, p.spare)
      && (forall c :: 0 <= c < |p.comps| ==> Represents(p.comps[c], p.queues[c], p.abs.comps[c]))
    }

    /** ilclient_init */
    constructor ()
      ensures Valid() && p.comps == [] && p.abs == IlEvents.Client(NUM_EVENTS, [])
      ensures fresh(p.pool)
    {
      eventList := null;
      p := Picture({}, [], [], [], IlEvents.Client(NUM_EVENTS, []));
      new;
      var head; ghost var pool, spare;
      head, pool, spare := ThreadPool();
      eventList := head;
      p := Picture(pool, [], spare, [], IlEvents.Client(NUM_EVENTS, []));
    }

    /** The part of ilclient_create_component that concerns events. */
    method CreateComponent() returns (c: Component)
      requires Valid()
      modifies this`p
      ensures Valid() && fresh(c) && p.comps == old(p.comps) + [c] && p.pool == old(p.pool)
      ensures p.abs == old(p.abs).(comps := old(p.abs).comps + [Comp([], {}, {}, None)])
    {
      hide Partition, Chain, Shows, Linked, Picture.Consistent, Represents;
      c := new Component(|p.comps|);
      AddKeepsLinked(p.comps, c);
      EmptyList(c);
      p := p.Added(c);
    }

    /** The unlinking every consumer ends with: node `i` of the component's list, its predecessor
        at hand, goes to the front of the spare list. */
    method Unlink(c: Component, prev: Node?, cur: Node, mark: bool, ghost i: nat)
      requires Valid() && Among(p.comps, c)
      requires i < |p.queues[c.id]| && cur == p.queues[c.id][i]
      requires prev == if i == 0 then null else p.queues[c.id][i - 1]
      modifies this, c`list, p.pool
      ensures Valid() && p.comps == old(p.comps) && p.pool == old(p.pool)
      ensures p.queues == old(p.queues)[c.id := RemoveAt(old(p.queues)[c.id], i)]
      ensures p.abs == old(p.abs).Free(c.id, i)
    {
      hide Partition, Chain, Shows, Linked;
      ghost var k, q := c.id, p.queues[c.id];
      PartitionApart(p.pool, p.spare, p.queues, k);
      ghost var p' := p.Freed(k, i);
      hide Picture.Consistent;
      c.Drop(eventList, prev, cur, mark, q, p.abs.comps[k], p.spare, i);
      assert forall d :: 0 <= d < |p.comps| && d != k ==> Represents(p.comps[d], p.queues[d], p.abs.comps[d]);
      eventList := cur;
      p := p';
    }

    method SetFlag(x: Component, f: Flag)
      requires Valid() && Among(p.comps, x)
      modifies this`p, x`flags
      ensures Valid() && p == old(p).(abs := old(p.abs).SetFlag(x.id, f))
    {
      hide Partition, Chain, Shows, Linked;
      x.flags := x.flags + {f};
      p := p.(abs := p.abs.SetFlag(x.id, f));
    }

    /** vcos_event_flags_get with VCOS_OR_CONSUME and no wait. */
    method Consume(x: Component, fs: set<Flag>)
      requires Valid() && Among(p.comps, x)
      modifies this`p, x`flags
      ensures Valid() && p == old(p).(abs := old(p.abs).Consume(x.id, fs))
    {
      hide Partition, Chain, Shows, Linked;
      x.flags := x.flags - fs;
      p := p.(abs := p.abs.Consume(x.id, fs));
    }

    /** The search every consumer starts with: walk the list while no pattern matches. */
    method Search(c: Component, wanted: seq<Pattern>) returns (prev: Node?, cur: Node?, ghost i: nat)
      requires Valid() && Among(p.comps, c)
      ensures i == FirstMatch(p.abs.comps[c.id].list, wanted)
      ensures cur == At(p.queues[c.id], FirstMatch(p.abs.comps[c.id].list, wanted))
      ensures prev == if i == 0 then null else p.queues[c.id][i - 1]
    {
      hide Partition, Linked;
      ghost var q, list := p.queues[c.id], p.abs.comps[c.id].list;
      assert Represents(c, q, p.abs.comps[c.id]);
      prev, cur, i := null, c.list, 0;
      while cur != null && !MatchesAny(Event(cur.kind, cur.data1, cur.data2), wanted)
        invariant i <= |q| && cur == At(q, i)
        invariant prev == if i == 0 then null else q[i - 1]
        invariant forall j :: 0 <= j < i ==> !MatchesAny(list[j], wanted)
        decreases |q| - i
      {
        NextIs(q, c.list, i);
        prev := cur;
        cur := cur.next;
        i := i + 1;
      }
      FirstMatchIs(list, wanted, i);
    }

    /** remove_event, under the event lock. */
    method RemoveEvent(c: Component, wanted: Pattern) returns (r: int)
      requires Valid() && Among(p.comps, c)
      modifies this, c`list, c`flags, p.pool
      ensures Valid() && p.comps == old(p.comps) && p.pool == old(p.pool)
      ensures (p.abs, r) == IlEvents.RemoveEvent(old(p.abs), c.id, wanted)
    {
      hide Partition, Chain, Shows, Linked, Picture.Consistent;
      var prev, cur; ghost var i;
      prev, cur, i := Search(c, [wanted]);
      if cur == null {
        return -1;
      }
      Unlink(c, prev, cur, true, i);
      if wanted.kind.Error? {
        Consume(c, {EventError});
      } else if wanted.kind.ParamOrConfigChanged? {
        Consume(c, {ConfigChanged});
      }
      r := 0;
    }

    /** One turn of wait_for_command_complete_dual's loop, from lock to unlock. */
    method ScanDual(c: Component, command: Command, data2: nat, other: Component?) returns (ret: Option<int>)
      requires Valid() && Among(p.comps, c) && (other != null ==> Among(p.comps, other))
      modifies this, c`list, c`flags, p.pool
      ensures Valid() && p.comps == old(p.comps) && p.pool == old(p.pool)
      ensures var s := DualScan(old(p.abs), c.id, command, data2, if other == null then None else Some(other.id));
        p.abs == s.client && ret == s.ret
    {
      hide Partition, Chain, Shows, Linked, Picture.Consistent;
      var prev, cur; ghost var i;
      prev, cur, i := Search(c, Completion(command, data2));
      if cur != null {
        ValueIs(p.queues[c.id], p.abs.comps[c.id].list, i);
        var kind, data1 := cur.kind, cur.data1;
        Unlink(c, prev, cur, true, i);
        if kind.Error? {
          Consume(c, {EventError});
        }
        return Some(if kind.CmdComplete? || data1 == Err(SameState) then 0 else -1);
      }
      if other != null {
        prev, cur, i := Search(other, [Termination()]);
        if cur != null {
          return Some(-2);
        }
      }
      ret := None;
    }

    /** wait_for_event's look at the list for an error. */
    method CheckError(c: Component) returns (found: bool)
      requires Valid() && Among(p.comps, c)
      modifies this`p, c`flags
      ensures Valid() && p.comps == old(p.comps) && p.pool == old(p.pool)
      ensures (p.abs, found) == IlEvents.CheckError(old(p.abs), c.id)
    {
      hide Partition, Chain, Shows, Linked, Picture.Consistent;
      assert Represents(c, p.queues[c.id], p.abs.comps[c.id]);
      var prev, cur; ghost var i;
      prev, cur, i := Search(c, [AnyOf(Error)]);
      found := cur != null;
      if found {
        Consume(c, {EventError});
      }
    }

    /** wait_for_event's look at the list for a configuration change. */
    method CheckConfig(c: Component) returns (found: bool)
      requires Valid() && Among(p.comps, c)
      ensures found == IlEvents.CheckConfig(p.abs, c.id)
    {
      hide Partition, Chain, Shows, Linked, Picture.Consistent;
      assert Represents(c, p.queues[c.id], p.abs.comps[c.id]);
      var prev, cur; ghost var i;
      prev, cur, i := Search(c, [AnyOf(ParamOrConfigChanged)]);
      found := cur != null;
    }

    /** return_events */
    method ReturnEvents(c: Component)
      requires Valid() && Among(p.comps, c)
      modifies this, c`list, p.pool
      ensures Valid() && p.comps == old(p.comps) && p.pool == old(p.pool)
      ensures p.abs == IlEvents.ReturnEvents(old(p.abs), c.id)
    {
      hide Partition, Chain, Shows, Linked, Picture.Consistent;
      ghost var k := c.id;
      while c.list != null
        invariant Valid() && p.comps == old(p.comps) && p.pool == old(p.pool)
        invariant |p.abs.comps[k].list| <= |old(p.abs).comps[k].list|
        invariant p.abs == old(p.abs).Shrunk(k, p.abs.comps[k].list)
        decreases |p.abs.comps[k].list|
      {
        assert Represents(c, p.queues[k], p.abs.comps[k]);
        HeadIs(p.queues[k], c.list);
        Unlink(c, null, c.list, false, 0);
      }
      assert Represents(c, p.queues[k], p.abs.comps[k]);
      HeadIs(p.queues[k], c.list);
      assert p.abs.comps[k].list == [];
    }

    /** The inner loop of the duplicate removal: the link that follows the current node is
        redirected past every node with the same key as `event`. */
    method DropLater(c: Component, event: Node, ghost i: nat)
      requires Valid() && Among(p.comps, c)
      requires i < |p.queues[c.id]| && event == p.queues[c.id][i]
      modifies this, c`list, p.pool
      ensures Valid() && p.comps == old(p.comps) && p.pool == old(p.pool)
      ensures var list := old(p.abs).comps[c.id].list;
        p.abs == old(p.abs).Shrunk(c.id, list[..i + 1] + Without(list[i + 1..], list[i]))
      ensures i < |p.queues[c.id]| && event == p.queues[c.id][i]
    {
      hide Partition, Chain, Shows, Linked, Picture.Consistent, Without;
      ghost var k := c.id;
      ghost var list0 := p.abs.comps[k].list;
      var pred := event;
      ghost var j := i + 1;
      while pred.next != null
        invariant Valid() && p.comps == old(p.comps) && p.pool == old(p.pool)
        invariant |p.abs.comps[k].list| <= |list0|
        invariant p.abs == old(p.abs).Shrunk(k, p.abs.comps[k].list)
        invariant i < j <= |p.queues[k]| && event == p.queues[k][i] && pred == p.queues[k][j - 1]
        invariant p.abs.comps[k].list[..i + 1] == list0[..i + 1]
        invariant p.abs.comps[k].list[..j] + Without(p.abs.comps[k].list[j..], list0[i])
               == list0[..i + 1] + Without(list0[i + 1..], list0[i])
        decreases |p.queues[k]| - j
      {
        ghost var list := p.abs.comps[k].list;
        assert Represents(c, p.queues[k], p.abs.comps[k]);
        NextIs(p.queues[k], c.list, j - 1);
        ValueIs(p.queues[k], list, j);
        ValueIs(p.queues[k], list, i);
        WithoutStep(list, j, list0[i]);
        var next := pred.next;
        if next.kind == event.kind && next.data1 == event.data1 && next.data2 == event.data2 {
          Unlink(c, pred, next, true, j);
        } else {
          pred := next;
          j := j + 1;
        }
      }
      assert Represents(c, p.queues[k], p.abs.comps[k]);
      NextIs(p.queues[k], c.list, j - 1);
      ghost var list := p.abs.comps[k].list;
      WithoutEnd(list, j, list0[i]);
    }

    /** The nested loop of the event handler: every event drops its later duplicates. */
    method DropDuplicates(c: Component)
      requires Valid() && Among(p.comps, c)
      modifies this, c`list, p.pool
      ensures Valid() && p.comps == old(p.comps) && p.pool == old(p.pool)
      ensures p.abs == DedupAt(old(p.abs), c.id)
    {
      hide Partition, Chain, Shows, Linked, Picture.Consistent;
      ghost var k := c.id;
      ghost var list0 := p.abs.comps[k].list;
      var event := c.list;
      ghost var i := 0;
      assert Represents(c, p.queues[k], p.abs.comps[k]);
      HeadIs(p.queues[k], c.list);
      assert list0[..0] == [] && list0[0..] == list0;
      while event != null
        invariant Valid() && p.comps == old(p.comps) && p.pool == old(p.pool)
        invariant |p.abs.comps[k].list| <= |list0|
        invariant p.abs == old(p.abs).Shrunk(k, p.abs.comps[k].list)
        invariant i <= |p.queues[k]| && event == At(p.queues[k], i)
        invariant Cleaned(p.abs.comps[k].list, i) == Dedup(list0)
        decreases |p.queues[k]| - i
      {
        ghost var list := p.abs.comps[k].list;
        CleanedStep(list, i);
        DropLater(c, event, i);
        assert Represents(c, p.queues[k], p.abs.comps[k]);
        NextIs(p.queues[k], c.list, i);
        event := event.next;
        i := i + 1;
      }
      assert Represents(c, p.queues[k], p.abs.comps[k]);
      ghost var list := p.abs.comps[k].list;
      assert list[..i] == list && list[i..] == [];
      assert list + [] == list;
    }

    /** The end of the event handler: the first spare node takes the event to the head of the list. */
    method Insert(c: Component, e: Event)
      requires Valid() && Among(p.comps, c) && eventList != null && e == Stored(e)
      modifies this, c`list, p.pool
      ensures Valid() && p.comps == old(p.comps) && p.pool == old(p.pool)
      ensures old(p.abs).spare > 0 && p.abs == IlEvents.Insert(old(p.abs), c.id, e)
    {
      hide Partition, Chain, Shows, Linked;
      ghost var k, q := c.id, p.queues[c.id];
      HeadIs(p.spare, eventList);
      PartitionApart(p.pool, p.spare, p.queues, k);
      ghost var p' := p.Inserted(k, e);
      hide Picture.Consistent;
      assert Represents(c, q, p.abs.comps[k]);
      var event := eventList;
      eventList := Fill(event, c.list, e, q, p.abs.comps[k].list, p.spare);
      assert forall d :: 0 <= d < |p.comps| && d != k ==> Represents(p.comps[d], p.queues[d], p.abs.comps[d]);
      c.list := event;
      p := p';
    }

    /** A failed command of this component is reported to the one that waits for it as well. */
    method NotifyRelated(c: Component, e: Event)
      requires Valid() && Among(p.comps, c)
      modifies this`p, p.comps`flags
      ensures Valid() && p == old(p).(abs := IlEvents.NotifyRelated(old(p.abs), c.id, e))
    {
      hide Partition, Chain, Shows, Picture.Consistent;
      assert Represents(c, p.queues[c.id], p.abs.comps[c.id]);
      if e.kind.Error? && e.data2 == 1 && c.related != null {
        assert Among(p.comps, c.related);
        SetFlag(c.related, EventError);
      }
    }

    /** event_handler up to the release of the event lock; false when the spare list is empty at
        the assertion, nothing but the duplicate removal having happened. */
    method EventHandler(c: Component, e: Event) returns (ok: bool)
      requires Valid() && Among(p.comps, c) && Expected(e)
      modifies this, p.comps`list, p.comps`flags, p.pool
      ensures Valid() && p.comps == old(p.comps) && p.pool == old(p.pool)
      ensures var r := Handle(old(p.abs), c.id, e);
        if ok then r == Some(p.abs) else r == None && p.abs == DedupAt(old(p.abs), c.id)
    {
      hide Partition, Chain, Shows, Linked, Picture.Consistent;
      DropDuplicates(c);
      HeadIs(p.spare, eventList);
      if eventList == null {
        return false;
      }
      NotifyRelated(c, e);
      assert Represents(c, p.queues[c.id], p.abs.comps[c.id]);
      if Ignored(e, c.errorMask) {
        return true;
      }
      var f := OwnFlag(e);
      if f.Some? {
        SetFlag(c, f.value);
      }
      Insert(c, Stored(e));
      ok := true;
    }
  }

  lemma EmptyList(c: Component)
    requires c.list == null && c.flags == {} && c.errorMask == {} && c.related == null
    ensures Represents(c, [], Comp([], {}, {}, None))
  {
  }

  lemma AddKeepsPartition(pool: set<Node>, spare: seq<Node>, queues: seq<seq<Node>>)
    requires Partition(pool, spare, queues)
    ensures Partition(pool, spare, queues + [[]])
  {
    FlatAppendEmpty(queues);
  }

  lemma {:induction false} FlatLength(queues: seq<seq<Node>>, comps: seq<Comp>)
    requires |queues| == |comps| && forall c :: 0 <= c < |queues| ==> |queues[c]| == |comps[c].list|
    ensures |Flat(queues)| == EventPool.Listed(comps)
  {
    if queues != [] { FlatLength(queues[1..], comps[1..]); }
  }

  /** The partition counted: spare and listed events always make up the whole pool. */
  lemma NodesConserved(p: Picture)
    requires p.Consistent()
    ensures p.abs.spare + EventPool.Listed(p.abs.comps) == NUM_EVENTS
  {
    FlatLength(p.queues, p.abs.comps);
    DistinctCard(p.spare + Flat(p.queues));
  }
}
