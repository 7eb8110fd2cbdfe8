/** The buffer queues of a component: buffer headers threaded through pAppPrivate, appended at
    the tail by the buffer-done callbacks, taken out per port, spliced in when a port is enabled
    and drained when it is disabled.  The input and the output queue run the same code. */
module BufferQueues {
  import opened Common

  class Buffer {
    const port: int    // nInputPortIndex / nOutputPortIndex
    var next: Buffer?  // pAppPrivate

    constructor (port: int)
      ensures this.port == port && next == null
    {
      this.port := port;
      next := null;
    }
  }

  ghost predicate Chain(head: Buffer?, nodes: seq<Buffer>)
    reads nodes
  {
    head == At(nodes, 0)
    && (forall i, j {:trigger nodes[i].next, nodes[j]} :: 0 <= i && j == i + 1 < |nodes| ==> nodes[i].next == nodes[j])
    && (nodes != [] ==> nodes[|nodes| - 1].next == null)
  }

  ghost function At(nodes: seq<Buffer>, i: nat): Buffer? {
    if i < |nodes| then nodes[i] else null
  }

  lemma NextIs(nodes: seq<Buffer>, head: Buffer?, i: nat)
    requires Chain(head, nodes) && i < |nodes|
    ensures nodes[i].next == At(nodes, i + 1)
  {
  }

  // ---------------------------------------------------------------- the queue as a FIFO per port

  /** Position of the first buffer of a port, or the length. */
  function FirstOn(nodes: seq<Buffer>, port: int): (i: nat)
    ensures i <= |nodes|
    ensures i < |nodes| ==> nodes[i].port == port
    ensures forall j :: 0 <= j < i ==> nodes[j].port != port
  {
    if nodes == [] || nodes[0].port == port then 0 else 1 + FirstOn(nodes[1..], port)
  }

  predicate NoneOn(nodes: seq<Buffer>, port: int) {
    FirstOn(nodes, port) == |nodes|
  }

  lemma FirstOnIs(nodes: seq<Buffer>, port: int, i: nat)
    requires i <= |nodes| && (i < |nodes| ==> nodes[i].port == port)
    requires forall j :: 0 <= j < i ==> nodes[j].port != port
    ensures FirstOn(nodes, port) == i
  {
    var k := FirstOn(nodes, port);
    assert !(k < i) && !(i < k);
  }

  /** One port's buffers, oldest first. */
  function PortView(nodes: seq<Buffer>, port: int): seq<Buffer> {
    if nodes == [] then [] else
      (if nodes[0].port == port then [nodes[0]] else []) + PortView(nodes[1..], port)
  }

  lemma {:induction false} PortViewConcat(s: seq<Buffer>, t: seq<Buffer>, port: int)
    ensures PortView(s + t, port) == PortView(s, port) + PortView(t, port)
  {
    if s == [] {
      assert s + t == t;
    } else {
      PortViewConcat(s[1..], t, port);
      assert (s + t)[0] == s[0] && (s + t)[1..] == s[1..] + t;
      var h := if s[0].port == port then [s[0]] else [];
      assert h + (PortView(s[1..], port) + PortView(t, port)) == h + PortView(s[1..], port) + PortView(t, port);
    }
  }

  /** Appending enqueues on the buffer's own port and touches no other. */
  lemma AppendEnqueues(nodes: seq<Buffer>, b: Buffer, port: int)
    ensures PortView(nodes + [b], port) == PortView(nodes, port) + if b.port == port then [b] else []
  {
    PortViewConcat(nodes, [b], port);
    assert [b][1..] == [];
  }

  lemma {:induction false} NoneBefore(nodes: seq<Buffer>, port: int)
    requires forall j :: 0 <= j < |nodes| ==> nodes[j].port != port
    ensures PortView(nodes, port) == []
  {
    if nodes != [] { NoneBefore(nodes[1..], port); }
  }

  /** Taking the first match out dequeues on its port and touches no other; no buffer is lost. */
  lemma TakeDequeues(nodes: seq<Buffer>, port: int, other: int)
    requires FirstOn(nodes, port) < |nodes|
    ensures var i := FirstOn(nodes, port); var rest := RemoveAt(nodes, i);
      PortView(nodes, port) == [nodes[i]] + PortView(rest, port)
      && (other != port ==> PortView(rest, other) == PortView(nodes, other))
      && multiset(nodes) == multiset{nodes[i]} + multiset(rest)
  {
    var i := FirstOn(nodes, port);
    var a, x, b := nodes[..i], nodes[i], nodes[i + 1..];
    SplitAround(nodes, i);
    NoneBefore(a, port);
    assert x.port == port;
    hide FirstOn, RemoveAt;
    Dequeued(a, x, b, port);
    Dequeued(a, x, b, other);
    hide PortView;
  }

  lemma SplitAround(nodes: seq<Buffer>, i: nat)
    requires i < |nodes|
    ensures nodes == nodes[..i] + ([nodes[i]] + nodes[i + 1..]) && RemoveAt(nodes, i) == nodes[..i] + nodes[i + 1..]
    ensures multiset(nodes) == multiset{nodes[i]} + multiset(RemoveAt(nodes, i))
  {
    assert nodes == nodes[..i] + ([nodes[i]] + nodes[i + 1..]);
  }

  /** What a queue shows of a port with one buffer in the middle and without it. */
  lemma Dequeued(a: seq<Buffer>, x: Buffer, b: seq<Buffer>, port: int)
    ensures PortView(a + ([x] + b), port)
         == PortView(a, port) + ((if x.port == port then [x] else []) + PortView(b, port))
    ensures PortView(a + b, port) == PortView(a, port) + PortView(b, port)
    ensures PortView(a, port) == [] && x.port == port ==> PortView(a + ([x] + b), port) == [x] + PortView(a + b, port)
    ensures x.port != port ==> PortView(a + ([x] + b), port) == PortView(a + b, port)
  {
    PortViewConcat(a, [x] + b, port);
    PortViewConcat([x], b, port);
    PortViewConcat(a, b, port);
    assert [x][1..] == [];
    assert PortView([x], port) == if x.port == port then [x] else [];
    hide PortView;
  }

  /** What appending `b` makes of a queue: it becomes the tail.  A buffer that is still queued gets its
      own link cleared, which cuts off all behind it. */
  function Appended(nodes: seq<Buffer>, b: Buffer): (r: seq<Buffer>)
    ensures r != [] && r[|r| - 1] == b && forall x :: x in r ==> x in nodes || x == b
    ensures nodes != [] ==> r[0] == nodes[0]
    ensures b !in nodes ==> r == nodes + [b]
  {
    if nodes == [] || nodes[0] == b then [b] else [nodes[0]] + Appended(nodes[1..], b)
  }

  /** Either way the first buffers stay, each queued once; none is gone unless `b` was queued. */
  lemma {:induction false} AppendedShape(nodes: seq<Buffer>, b: Buffer)
    ensures var r := Appended(nodes, b);
      |r| <= |nodes| + 1 && (|r| == |nodes| + 1 <==> b !in nodes)
      && (forall i :: 0 <= i < |r| && i < |nodes| ==> r[i] == nodes[i])
      && forall i :: 0 <= i < |r| - 1 ==> r[i] != b
  {
    if nodes != [] && nodes[0] != b { AppendedShape(nodes[1..], b); }
  }

  /** What one turn of the blocking call leaves. */
  datatype Turn = Turn(ret: Buffer?, prev: Buffer?, nodes: seq<Buffer>)

  /** One turn for a port: its oldest buffer is taken out, unless that is the head and `prev` is left over
      from an earlier turn; then it is handed out and stays, and all others are cut off. */
  function TurnOf(nodes: seq<Buffer>, port: int, prev: Buffer?): (t: Turn)
    ensures NoneOn(nodes, port) <==> t.ret == null
  {
    var i := FirstOn(nodes, port);
    if i == |nodes| then Turn(null, if nodes == [] then prev else nodes[i - 1], nodes)
    else if i > 0 then Turn(nodes[i], nodes[i - 1], RemoveAt(nodes, i))
    else Turn(nodes[0], prev, if prev == null then nodes[1..] else [nodes[0]])
  }

  function Flat(batches: seq<seq<Buffer>>): seq<Buffer> {
    if batches == [] then [] else batches[0] + Flat(batches[1..])
  }

  lemma {:induction false} FlatSnoc(batches: seq<seq<Buffer>>, n: nat)
    requires n < |batches|
    ensures Flat(batches[..n + 1]) == Flat(batches[..n]) + batches[n]
    ensures Flat(batches) == Flat(batches[..n]) + batches[n] + Flat(batches[n + 1..])
  {
    if n == 0 {
      assert batches[..1] == [batches[0]] && batches[..1][1..] == batches[..0];
    } else {
      FlatSnoc(batches[1..], n - 1);
      var h, a, c := batches[0], Flat(batches[1..][..n - 1]), Flat(batches[n + 1..]);
      assert batches[..n + 1][1..] == batches[1..][..n] && batches[..n][1..] == batches[1..][..n - 1];
      assert batches[1..][n..] == batches[n + 1..];
      Assoc(h, a, batches[n]);
      Assoc(h, a + batches[n], c);
    }
  }

  ghost function Elements(s: seq<Buffer>): set<Buffer> {
    set b | b in s
  }

  class Queue {
    var head: Buffer?
    ghost var nodes: seq<Buffer>

    ghost predicate Valid()
      reads this, nodes
    {
      Chain(head, nodes) && Distinct(nodes)
    }

    constructor ()
      ensures Valid() && nodes == []
    {
      head, nodes := null, [];
    }

    /** fill_buffer_done and empty_buffer_done, under the component's lock, for any buffer. */
    method Append(b: Buffer)
      requires Valid()
      modifies this, nodes, b
      ensures Valid() && nodes == Appended(old(nodes), b)
    {
      hide Appended;
      var list := head;
      ghost var i := 0;
      while list != null && list.next != null
        invariant i <= |nodes| && list == At(nodes, i)
        invariant nodes != [] ==> i < |nodes|
        decreases |nodes| - i
        modifies {}
      {
        NextIs(nodes, head, i);
        list := list.next;
        i := i + 1;
      }
      if list == null {
        head := b;
      } else {
        NextIs(nodes, head, i);
        list.next := b;
      }
      b.next := null;
      AppendedShape(nodes, b);
      nodes := Appended(nodes, b);
    }

    /** The carried-over `prev` of an earlier turn is harmless unless the head itself matches. */
    ghost predicate Stale(prev: Buffer?, port: int)
      reads this
    {
      prev != null && nodes != [] && nodes[0].port == port
    }

    /** One turn of the loop of get_output_buffer and get_input_buffer; `prev` is whatever the
        turn before left in it.  It takes the port's oldest buffer out exactly when `prev` is not
        stale; otherwise the buffer handed out stays at the head and all others are cut off. */
    method TakeFirst(port: int, prev0: Buffer?) returns (ret: Buffer?, prev: Buffer?)
      requires Valid()
      modifies this, nodes, prev0
      ensures Valid() && (ret != null ==> ret.next == null)
      ensures Turn(ret, prev, nodes) == TurnOf(old(nodes), port, prev0)
      ensures !old(Stale(prev0, port)) ==>
        var i := FirstOn(old(nodes), port);
        if i < |old(nodes)| then ret == old(nodes)[i] && nodes == RemoveAt(old(nodes), i)
        else ret == null && nodes == old(nodes)
      ensures old(Stale(prev0, port)) ==> ret == old(nodes)[0] && nodes == [ret]
    {
      ghost var q := nodes;
      prev, ret := prev0, head;
      ghost var i := 0;
      while ret != null && ret.port != port
        invariant i <= |q| && ret == At(q, i)
        invariant prev == if i == 0 then prev0 else q[i - 1]
        invariant forall j :: 0 <= j < i ==> q[j].port != port
        decreases |q| - i
        modifies {}
      {
        NextIs(q, head, i);
        prev := ret;
        ret := ret.next;
        i := i + 1;
      }
      FirstOnIs(q, port, i);
      if ret != null {
        head := Unlink(head, prev0, prev, ret, q, i);
        nodes := if i > 0 || prev0 == null then RemoveAt(q, i) else [ret];
      }
    }

    /** What the turn before leaves in `prev`: nothing, or the tail of a queue whose head is of
        another port. */
    ghost predicate Carried(prev: Buffer?, port: int)
      reads this
    {
      prev != null ==> nodes != [] && prev == nodes[|nodes| - 1] && nodes[0].port != port
    }

    method FirstTurn(port: int) returns (ret: Buffer?, prev: Buffer?)
      requires Valid()
      modifies this, Elements(nodes)
      ensures Valid() && Taken(old(nodes), port, ret)
      ensures ret == null ==> Carried(prev, port) && NoneOn(nodes, port) && nodes == old(nodes)
    {
      ret, prev := TakeFirst(port, null);
      hide Chain, Distinct;
      assert nodes != [] ==> nodes[|nodes| - 1] in nodes;
    }

    /** While the caller blocks the callbacks append `batch`; then it takes another turn. */
    method NextTurn(port: int, prev0: Buffer?, batch: seq<Buffer>) returns (ret: Buffer?, prev: Buffer?)
      requires Valid() && Carried(prev0, port) && NoneOn(nodes, port) && Distinct(nodes + batch)
      modifies this, Elements(nodes + batch)
      ensures Valid() && Taken(old(nodes) + batch, port, ret)
      ensures ret == null ==> Carried(prev, port) && NoneOn(nodes, port) && nodes == old(nodes) + batch
    {
      assert prev0 != null ==> prev0 in nodes;
      AppendAll(batch);
      hide Chain, Distinct;
      ret, prev := TakeFirst(port, prev0);
      assert nodes != [] ==> nodes[|nodes| - 1] in nodes;
    }

    /** `ret` is the port's oldest buffer of `all`, now taken out, or there was none. */
    ghost predicate Taken(all: seq<Buffer>, port: int, ret: Buffer?)
      reads this, ret
    {
      var i := FirstOn(all, port);
      if i < |all| then ret == all[i] && all[i].next == null && nodes == RemoveAt(all, i)
      else ret == null && nodes == all
    }

    /** The blocking call: between two turns the callbacks append `arrivals[k]`, and nothing else
        happens to the queue.  The carried-over `prev` is never stale, so the call takes the
        port's oldest buffer as soon as there is one; null while it is still blocked. */
    method GetBuffer(port: int, block: bool, arrivals: seq<seq<Buffer>>) returns (ret: Buffer?, ghost n: nat)
      requires Valid() && Distinct(nodes + Flat(arrivals))
      modifies this, Elements(nodes + Flat(arrivals))
      ensures Valid() && n <= |arrivals| && (!block ==> n == 0)
      ensures Taken(Seen(old(nodes), arrivals, n), port, ret)
      ensures block && ret == null ==> n == |arrivals|
      ensures forall k :: 0 <= k < n ==> NoneOn(Seen(old(nodes), arrivals, k), port)
    {
      ghost var q0 := nodes;
      NothingSeen(q0, arrivals);
      hide Chain, Distinct, FirstOn, At, Taken, NoneOn, Carried, Seen, Elements;
      var prev;
      ret, prev := FirstTurn(port);
      var k := 0;
      n := 0;
      while block && ret == null && k < |arrivals|
        invariant k == n <= |arrivals| && (!block ==> n == 0)
        invariant Valid() && Taken(Seen(q0, arrivals, k), port, ret)
        invariant ret == null ==> Carried(prev, port) && NoneOn(nodes, port) && nodes == Seen(q0, arrivals, k)
        invariant forall m :: 0 <= m < k ==> NoneOn(Seen(q0, arrivals, m), port)
        decreases |arrivals| - k
      {
        NextBatch(q0, arrivals, k);
        ret, prev := NextTurn(port, prev, arrivals[k]);
        k, n := k + 1, n + 1;
      }
    }

    method AppendAll(batch: seq<Buffer>)
      requires Valid() && Distinct(nodes + batch)
      modifies this, Elements(nodes + batch)
      ensures Valid() && nodes == old(nodes) + batch
    {
      ghost var q0 := nodes;
      assert batch[..0] == [];
      for i := 0 to |batch|
        invariant Valid() && nodes == q0 + batch[..i]
      {
        assert (q0 + batch)[|q0| + i] == batch[i];
        assert forall j :: 0 <= j < |q0| + i ==> (q0 + batch)[j] == nodes[j];
        Append(batch[i]);
        assert batch[..i + 1] == batch[..i] + [batch[i]];
      }
      assert batch[..|batch|] == batch;
    }

    /** disable_port_buffers moves the buffers of its port from the queue to its own list.  Not ok where
        it comes to a buffer of another port: it then goes on with the address of that buffer's link
        instead of the link. */
    method TakeAll(port: int) returns (ok: bool, list: Buffer?)
      requires Valid()
      modifies this, nodes
      ensures ok <==> OnlyOn(old(nodes), port)
      ensures ok ==> Valid() && nodes == [] && Chain(list, Reversed(old(nodes)))
    {
      ghost var q, rest := nodes, nodes;
      ghost var taken: seq<Buffer> := [];
      list := null;
      assert Chain(list, taken) && Reversed(rest) + taken == Reversed(q);
      hide Chain, Reversed, Distinct;
      var clist := head;
      while clist != null && clist.port == port
        invariant clist == head && nodes == q && Chain(head, rest) && Chain(list, taken)
        invariant Distinct(rest) && Apart(rest, taken, q) && forall b :: b in q ==> b in rest || b.port == port
        invariant Reversed(rest) + taken == Reversed(q)
        decreases |rest|
      {
        PopFront(head, rest, taken, q);
        var pBuffer := clist;
        clist := pBuffer.next;
        head := clist;
        Push(pBuffer, list, taken);
        list := pBuffer;
        rest, taken := rest[1..], [pBuffer] + taken;
      }
      if clist != null {
        PopFront(head, rest, taken, q);
        return false, list;
      }
      AllPopped(head, rest, taken);
      nodes := [];
      ok := true;
    }

    /** enable_port_buffers from the allocation loop to the splice: `granted[i]` says whether
        buffer `i` could be granted and handed to the component.  The loop stops at the first
        failure; the buffers so far, oldest first, go in front of the queue. */
    method EnablePortBuffers(port: int, granted: seq<bool>) returns (i: nat, ghost added: seq<Buffer>)
      requires Valid()
      modifies this
      ensures Valid() && nodes == added + old(nodes)
      ensures fresh(Elements(added)) && OnlyOn(added, port)
      ensures |added| == i <= |granted| && (forall j :: 0 <= j < i ==> granted[j])
      ensures i < |granted| ==> !granted[i]
    {
      var list, last;
      list, last, i, added := Allocate(port, granted);
      assert forall b :: b in nodes ==> b !in Elements(added);
      assert forall b :: b in added ==> b in Elements(added);
      head := Join(list, last, head, added, nodes);
      DistinctJoin(added, nodes);
      nodes := added + nodes;
    }

    /** One round of the drain: what the application holds, or else the whole queue, is freed; not ok
        where the queue holds a buffer of another port. */
    method Round(port: int, list0: Buffer?, ghost taken: seq<Buffer>, before: seq<Buffer>)
      returns (ok: bool, freed: seq<Buffer>)
      requires Valid() && Chain(list0, taken)
      modifies this, nodes
      ensures ok <==> taken != [] || OnlyOn(old(nodes), port)
      ensures ok ==> Valid() && nodes == if taken == [] then [] else old(nodes)
      ensures ok ==> freed == before + if taken == [] then Reversed(old(nodes)) else taken
      ensures ok ==> forall total :: Balanced(before + taken, old(nodes), total) ==> Balanced(freed, nodes, total)
      ensures ok ==> forall total :: Selected(old(nodes), total) ==> Selected(nodes, total)
    {
      var list := list0;
      ghost var chain := taken;
      ok, freed := true, before;
      if list == null {
        ReversedHas(nodes);
        chain := Reversed(nodes);
        ok, list := TakeAll(port);
        if !ok {
          return;
        }
      }
      freed := FreeAll(list, chain, before);
    }

    /** One turn of the outer loop: a round of the drain, then, unless all buffers are out, the
        block on the flags during which `wakes[k]` happens. */
    method DrainTurn(port: int, count: nat, list: Buffer?, ghost taken: seq<Buffer>, before: seq<Buffer>,
                     wakes: seq<Wake>, k: nat, ghost held: seq<Buffer>, ghost q0: seq<Buffer>)
      returns (freed: seq<Buffer>, exit: Exit, next: nat)
      requires Valid() && Chain(list, taken) && k <= |wakes|
      requires Distinct(held + (q0 + Returned(wakes)))
      requires Balanced(before + taken, nodes, held + (q0 + Returned(wakes[..k])))
      requires Selected(nodes, q0 + Returned(wakes[..k]))
      modifies this, Elements(q0 + Returned(wakes))
      ensures next <= |wakes|
      ensures exit.Astray? ==> !OnlyOn(q0 + Returned(wakes), port)
      ensures !exit.Astray? ==>
        Valid() && Balanced(freed, nodes, held + (q0 + Returned(wakes[..next])))
        && Selected(nodes, q0 + Returned(wakes[..next]))
      ensures var left := if taken == [] then [] else old(nodes);
        if exit.AllFreed? || exit.StillWaiting? then next == k && nodes == left
        else exit.Astray? || (next == k + 1 && nodes == left + wakes[k].returned)
      ensures exit.AllFreed? ==> |freed| == count
      ensures exit.StillWaiting? ==> next == |wakes|
      ensures exit.FailedMeanwhile? ==> wakes[k].error
      ensures exit.DisabledMeanwhile? ==> wakes[k].disabled && !wakes[k].error
      ensures exit.GoOn? ==> |freed| != count
      ensures !exit.Refused?
    {
      Within(nodes, held, q0, wakes, k, port);
      hide Chain, Distinct, OnlyOn, Returned, Balanced, Selected, Elements, Reversed;
      var ok;
      ok, freed := Round(port, list, taken, before);
      next := k;
      if !ok {
        exit := Astray;
        return;
      }
      assert Balanced(freed, nodes, held + (q0 + Returned(wakes[..k])));
      assert Selected(nodes, q0 + Returned(wakes[..k]));
      var num := count - |freed|;
      if num == 0 {
        exit := AllFreed;
      } else if k == |wakes| {
        exit := StillWaiting;
      } else {
        exit := Block(port, freed, wakes, k, held, q0);
        next := k + 1;
      }
    }

    /** The block on the flags: some buffers come back, and perhaps an error or the completion. */
    method Block(port: int, freed: seq<Buffer>, wakes: seq<Wake>, k: nat, ghost held: seq<Buffer>,
                 ghost q0: seq<Buffer>)
      returns (exit: Exit)
      requires Valid() && k < |wakes| && Distinct(held + (q0 + Returned(wakes)))
      requires Balanced(freed, nodes, held + (q0 + Returned(wakes[..k]))) && Selected(nodes, q0 + Returned(wakes[..k]))
      modifies this, Elements(q0 + Returned(wakes))
      ensures Valid() && Balanced(freed, nodes, held + (q0 + Returned(wakes[..k + 1])))
      ensures nodes == old(nodes) + wakes[k].returned
      ensures Selected(nodes, q0 + Returned(wakes[..k + 1]))
      ensures exit == if wakes[k].error then FailedMeanwhile else if wakes[k].disabled then DisabledMeanwhile else GoOn
    {
      BalanceGrows(freed, nodes, held, q0, wakes, k);
      Within(nodes + wakes[k].returned, held, q0, wakes, k + 1, port);
      hide Chain, Distinct, OnlyOn, Returned, Balanced, Selected, Elements;
      AppendAll(wakes[k].returned);
      exit := if wakes[k].error then FailedMeanwhile else if wakes[k].disabled then DisabledMeanwhile else GoOn;
    }

    /** disable_port_buffers.  `bufferList` are the buffers the application holds; `wakes` is what
        happens at each block on the flags: the buffers that came back, and whether an error or
        the completion of the disable command was then found in the event list.  It goes astray only
        where the queue holds another port's buffers.  The queue is not looked at in a turn that frees
        what the application holds: blocked in or leaving the first turn, the call leaves its own
        buffers queued if and only if there are any and the application held some. */
    method DisablePortBuffers(port: int, enabled: bool, count: nat, bufferList: Buffer?, ghost held: seq<Buffer>,
                              wakes: seq<Wake>)
      returns (freed: seq<Buffer>, exit: Exit, ghost n: nat)
      requires Valid() && Chain(bufferList, held)
      requires Distinct(held + (nodes + Returned(wakes)))
      modifies this, Elements(nodes + Returned(wakes))
      ensures n <= |wakes| && (!exit.Astray? ==> Valid())
      ensures exit.Astray? ==> !OnlyOn(old(nodes) + Returned(wakes), port)
      ensures exit.Refused? <==> !enabled || count == 0
      ensures exit.Refused? ==> freed == [] && nodes == old(nodes)
      ensures !exit.Refused? && !exit.Astray? ==>
        Balanced(freed, nodes, held + (old(nodes) + Returned(wakes[..n]))) && Distinct(freed + nodes)
      ensures exit.AllFreed? ==> |freed| >= count
      ensures exit.AllFreed? && |held + (old(nodes) + Returned(wakes))| <= count ==> |freed| == count && nodes == []
      ensures exit.StillWaiting? ==> n == |wakes| && nodes == Passed(held, old(nodes), n)
      ensures exit.AllFreed? && |freed| == count ==> nodes == Passed(held, old(nodes), n)
      ensures exit.FailedMeanwhile? || exit.DisabledMeanwhile? || (exit.AllFreed? && |freed| != count) ==>
        n > 0 && nodes == Passed(held, old(nodes), n - 1) + wakes[n - 1].returned
      ensures exit.FailedMeanwhile? ==> n > 0 && wakes[n - 1].error
      ensures exit.DisabledMeanwhile? ==> n > 0 && wakes[n - 1].disabled && !wakes[n - 1].error
      ensures !exit.GoOn?
    {
      hide Chain, Distinct, OnlyOn, Returned, Balanced, Selected, Elements;
      freed, n := [], 0;
      if !enabled || count == 0 {
        exit := Refused;
        return;
      }
      var num: int := count;
      var list := bufferList;
      ghost var taken := held;
      ghost var q0 := nodes;
      var k := 0;
      NothingYet(held, q0, wakes);
      exit := GoOn;
      while num > 0
        invariant k == n <= |wakes| && num == count - |freed|
        invariant Valid() && Chain(list, taken)
        invariant Balanced(freed + taken, nodes, held + (q0 + Returned(wakes[..k])))
        invariant Selected(nodes, q0 + Returned(wakes[..k]))
        invariant exit.GoOn? || (exit.AllFreed? && num == 0)
        invariant exit.GoOn? && k == 0 ==> num == count && taken == held && nodes == q0
        invariant exit.GoOn? && k > 0 ==> num != 0 && nodes == Passed(held, q0, k - 1) + wakes[k - 1].returned
        invariant exit.AllFreed? ==> nodes == Passed(held, q0, k)
        invariant exit.AllFreed? || k > 0 ==> taken == [] && Distinct(freed + nodes)
        decreases |wakes| - k, num
      {
        freed, exit, k := DrainTurn(port, count, list, taken, freed, wakes, k, held, q0);
        list, taken, n := null, [], k;
        num := count - |freed|;
        if exit.Astray? {
          return;
        }
        NoneTaken(freed);
        NoChain();
        FreedOnce(freed, nodes, held, q0, wakes, k);
        if !exit.AllFreed? && !exit.GoOn? {
          return;
        }
      }
      NoneTaken(freed);
      if |held + (q0 + Returned(wakes))| <= count { AllOut(freed, nodes, held, q0, wakes, k, count); }
      exit := AllFreed;
    }
  }

  datatype Wake = Wake(returned: seq<Buffer>, error: bool, disabled: bool)

  datatype Exit = GoOn | AllFreed | FailedMeanwhile | DisabledMeanwhile | StillWaiting | Refused | Astray

  ghost function Returned(wakes: seq<Wake>): seq<Buffer> {
    if wakes == [] then [] else wakes[0].returned + Returned(wakes[1..])
  }

  lemma {:induction false} ReturnedSnoc(wakes: seq<Wake>, k: nat)
    requires k < |wakes|
    ensures Returned(wakes[..k + 1]) == Returned(wakes[..k]) + wakes[k].returned
  {
    if k == 0 {
      assert wakes[..1][1..] == [] && wakes[..0] == [];
    } else {
      ReturnedSnoc(wakes[1..], k - 1);
      assert wakes[..k + 1][1..] == wakes[1..][..k] && wakes[..k][1..] == wakes[1..][..k - 1];
    }
  }

  lemma {:induction false} ReturnedPrefix(wakes: seq<Wake>, k: nat)
    requires k <= |wakes|
    ensures Returned(wakes) == Returned(wakes[..k]) + Returned(wakes[k..])
  {
    if k == 0 {
      assert wakes[..0] == [] && wakes[0..] == wakes;
    } else {
      ReturnedPrefix(wakes[1..], k - 1);
      assert wakes[..k][1..] == wakes[1..][..k - 1] && wakes[1..][k - 1..] == wakes[k..];
    }
  }

  /** Any selection of what has been queued so far keeps the properties assumed of all buffers. */
  lemma Within(s: seq<Buffer>, held: seq<Buffer>, q: seq<Buffer>, wakes: seq<Wake>, k: nat, port: int)
    requires k <= |wakes| && Selected(s, q + Returned(wakes[..k]))
    requires Distinct(held + (q + Returned(wakes)))
    ensures Distinct(s) && Elements(s) <= Elements(q + Returned(wakes))
    ensures OnlyOn(q + Returned(wakes), port) ==> OnlyOn(s, port)
  {
    var all, part, rest := q + Returned(wakes), q + Returned(wakes[..k]), Returned(wakes[k..]);
    assert all == part + rest by { ReturnedPrefix(wakes, k); Assoc(q, Returned(wakes[..k]), rest); }
    hide Returned, Selected, Distinct;
    SubDistinct(s, part, held, rest);
    PartOf(s, part, rest, port);
  }

  lemma PartOf(s: seq<Buffer>, part: seq<Buffer>, rest: seq<Buffer>, port: int)
    requires forall b :: b in s ==> b in part
    ensures Elements(s) <= Elements(part + rest)
    ensures OnlyOn(part + rest, port) ==> OnlyOn(s, port)
  {
    assert forall b :: b in part ==> b in part + rest;
  }

  lemma SubDistinct(s: seq<Buffer>, part: seq<Buffer>, before: seq<Buffer>, after: seq<Buffer>)
    requires Selected(s, part) && Distinct(before + (part + after))
    ensures Distinct(s) && forall b :: b in s ==> b in part
  {
    forall i, j | 0 <= i < j < |s| ensures s[i] != s[j] {
      DistinctCount(before + (part + after), s[i]);
      assert s == s[..j] + s[j..];
      assert s[i] in s[..j] && s[j] in s[j..];
    }
    forall b | b in s ensures b in part { assert b in multiset(s) && b in multiset(part); }
  }

  ghost predicate Selected(s: seq<Buffer>, t: seq<Buffer>) {
    multiset(s) <= multiset(t)
  }

  /** What turn `k` of the drain leaves queued of the queue it starts with: in the first turn the buffers
      the application holds go before the queue. */
  ghost function Passed(held: seq<Buffer>, q0: seq<Buffer>, k: nat): seq<Buffer> {
    if k == 0 && held != [] then q0 else []
  }

  /** What was freed and what is still queued make up `total`. */
  ghost predicate Balanced(out: seq<Buffer>, nodes: seq<Buffer>, total: seq<Buffer>) {
    multiset(out) + multiset(nodes) == multiset(total)
  }

  lemma BalanceGrows(out: seq<Buffer>, nodes: seq<Buffer>, held: seq<Buffer>, q: seq<Buffer>, wakes: seq<Wake>, k: nat)
    requires k < |wakes| && Balanced(out, nodes, held + (q + Returned(wakes[..k])))
    requires Selected(nodes, q + Returned(wakes[..k]))
    ensures Balanced(out, nodes + wakes[k].returned, held + (q + Returned(wakes[..k + 1])))
    ensures Selected(nodes + wakes[k].returned, q + Returned(wakes[..k + 1]))
  {
    ReturnedSnoc(wakes, k);
    assert held + (q + Returned(wakes[..k + 1])) == held + (q + Returned(wakes[..k])) + wakes[k].returned;
    assert q + Returned(wakes[..k + 1]) == q + Returned(wakes[..k]) + wakes[k].returned;
  }

  lemma FreedOnce(out: seq<Buffer>, nodes: seq<Buffer>, held: seq<Buffer>, q: seq<Buffer>, wakes: seq<Wake>, k: nat)
    requires k <= |wakes| && Balanced(out, nodes, held + (q + Returned(wakes[..k])))
    requires Distinct(held + (q + Returned(wakes)))
    ensures Distinct(out + nodes)
  {
    var part, rest := held + (q + Returned(wakes[..k])), Returned(wakes[k..]);
    assert held + (q + Returned(wakes)) == part + rest by {
      ReturnedPrefix(wakes, k);
      Regroup(held, q, Returned(wakes[..k]), rest);
    }
    hide Returned;
    BalancedIsSelected(out, nodes, part);
    hide Selected, Distinct, Balanced;
    Regroup([], [], part, rest);
    SubDistinct(out + nodes, part, [], rest);
  }

  lemma Regroup(a: seq<Buffer>, b: seq<Buffer>, c: seq<Buffer>, d: seq<Buffer>)
    ensures a + (b + (c + d)) == (a + (b + c)) + d
    ensures [] + (c + d) == c + d
  {
  }

  lemma BalancedIsSelected(out: seq<Buffer>, nodes: seq<Buffer>, total: seq<Buffer>)
    requires Balanced(out, nodes, total)
    ensures Selected(out + nodes, total)
  {
  }

  lemma DistinctJoin(s: seq<Buffer>, t: seq<Buffer>)
    requires Distinct(s) && Distinct(t) && forall b :: b in t ==> b !in s
    ensures Distinct(s + t)
  {
    assert forall i :: 0 <= i < |t| ==> t[i] in t;
  }

  lemma NothingYet(held: seq<Buffer>, q: seq<Buffer>, wakes: seq<Wake>)
    ensures Balanced([] + held, q, held + (q + Returned(wakes[..0])))
    ensures Selected(q, q + Returned(wakes[..0]))
  {
    assert [] + held == held && q + Returned(wakes[..0]) == q;
  }

  lemma NoChain()
    ensures Chain(null, [])
  {
  }

  lemma NoneTaken(freed: seq<Buffer>)
    ensures freed + [] == freed
  {
  }

  lemma AllOut(out: seq<Buffer>, nodes: seq<Buffer>, held: seq<Buffer>, q: seq<Buffer>, wakes: seq<Wake>, k: nat,
               count: nat)
    requires k <= |wakes| && Balanced(out, nodes, held + (q + Returned(wakes[..k])))
    requires |held + (q + Returned(wakes))| <= count <= |out|
    ensures |out| == count && nodes == []
  {
    ReturnedPrefix(wakes, k);
    assert |multiset(out) + multiset(nodes)| == |held + (q + Returned(wakes[..k]))|;
  }

  /** Every buffer of a chain is freed, in order. */
  method FreeAll(list0: Buffer?, ghost nodes: seq<Buffer>, before: seq<Buffer>) returns (freed: seq<Buffer>)
    requires Chain(list0, nodes)
    ensures freed == before + nodes
  {
    var list := list0;
    freed := before;
    ghost var i := 0;
    while list != null
      invariant i <= |nodes| && list == At(nodes, i) && freed == before + nodes[..i]
      decreases |nodes| - i
    {
      NextIs(nodes, list0, i);
      var next := list.next;
      freed := freed + [list];
      list := next;
      i := i + 1;
    }
  }

  ghost predicate OnlyOn(nodes: seq<Buffer>, port: int) {
    forall b :: b in nodes ==> b.port == port
  }

  function Reversed(s: seq<Buffer>): (r: seq<Buffer>)
    ensures |r| == |s|
  {
    if s == [] then [] else Reversed(s[1..]) + [s[0]]
  }

  lemma {:induction false} ReversedHas(s: seq<Buffer>)
    ensures multiset(Reversed(s)) == multiset(s)
    ensures forall b :: b in Reversed(s) <==> b in s
  {
    if s != [] {
      ReversedHas(s[1..]);
      assert s == [s[0]] + s[1..];
    }
  }

  ghost predicate Apart(rest: seq<Buffer>, taken: seq<Buffer>, q: seq<Buffer>) {
    forall b :: b in rest ==> b !in taken && b in q
  }

  lemma PopFront(head: Buffer?, rest: seq<Buffer>, taken: seq<Buffer>, q: seq<Buffer>)
    requires Chain(head, rest) && head != null && Distinct(rest) && Apart(rest, taken, q)
    ensures rest != [] && head == rest[0] && head in q && head !in taken && head !in rest[1..]
    ensures Chain(head.next, rest[1..]) && Distinct(rest[1..])
    ensures Apart(rest[1..], [head] + taken, q) && forall b :: b in rest ==> b == head || b in rest[1..]
    ensures Reversed(rest) + taken == Reversed(rest[1..]) + ([head] + taken)
  {
    assert head == rest[0] && head in rest;
    assert rest == [head] + rest[1..];
    ChainTail(head, rest);
    Assoc(Reversed(rest[1..]), [head], taken);
  }

  lemma AllPopped(head: Buffer?, rest: seq<Buffer>, taken: seq<Buffer>)
    requires Chain(head, rest) && head == null
    ensures rest == [] && Reversed(rest) + taken == taken && Chain(head, [])
  {
  }

  lemma ChainTail(head: Buffer?, nodes: seq<Buffer>)
    requires Chain(head, nodes) && nodes != []
    ensures Chain(nodes[0].next, nodes[1..])
  {
    NextIs(nodes, head, 0);
    forall i, j | 0 <= i && j == i + 1 < |nodes[1..]| ensures nodes[1..][i].next == nodes[1..][j] {
      NextIs(nodes, head, i + 1);
    }
  }

  /** Put a buffer in front of a chain it is not in. */
  method Push(b: Buffer, list: Buffer?, ghost taken: seq<Buffer>)
    requires Chain(list, taken) && b !in taken
    modifies b`next
    ensures Chain(b, [b] + taken) && b.next == list
  {
    b.next := list;
    assert forall i :: 0 <= i < |taken| ==> taken[i] in taken;
  }

  /** Take buffer `i` out of a chain with `prev` as its predecessor; `prev` is left over from an
      earlier turn when the buffer is the head. */
  method Unlink(head: Buffer?, prev0: Buffer?, prev: Buffer?, b: Buffer, ghost q: seq<Buffer>, ghost i: nat)
    returns (newHead: Buffer?)
    requires Chain(head, q) && Distinct(q) && i < |q| && b == q[i]
    requires prev == if i == 0 then prev0 else q[i - 1]
    modifies q, prev0
    ensures b.next == null
    ensures if i > 0 || prev0 == null
            then Chain(newHead, RemoveAt(q, i)) && Distinct(RemoveAt(q, i)) else newHead == head
  {
    NextIs(q, head, i);
    newHead := head;
    if prev == null {
      newHead := b.next;
    } else {
      prev.next := b.next;
    }
    b.next := null;
    ghost var r := RemoveAt(q, i);
    assert forall j :: 0 <= j < |r| ==> r[j] == q[if j < i then j else j + 1];
  }

  /** The last link of a chain, or its head if it is empty, is set. */
  method Join(list: Buffer?, last: Buffer?, tail: Buffer?, ghost a: seq<Buffer>, ghost t: seq<Buffer>)
    returns (head: Buffer?)
    requires Chain(list, a) && Chain(tail, t) && Distinct(a)
    requires last == if a == [] then null else a[|a| - 1]
    requires forall b :: b in t ==> b !in a
    modifies Elements(a)
    ensures Chain(head, a + t)
  {
    assert forall i :: 0 <= i < |t| ==> t[i] in t;
    if last == null {
      head := tail;
      assert a + t == t;
    } else {
      last.next := tail;
      head := list;
    }
  }

  /** The allocation loop of enable_port_buffers; the link to set next is that of `last`, or `list` itself. */
  method Allocate(port: int, granted: seq<bool>)
    returns (list: Buffer?, last: Buffer?, i: nat, ghost added: seq<Buffer>)
    ensures Chain(list, added) && Distinct(added) && last == if added == [] then null else added[|added| - 1]
    ensures fresh(Elements(added)) && OnlyOn(added, port)
    ensures |added| == i <= |granted| && (forall j :: 0 <= j < i ==> granted[j])
    ensures i < |granted| ==> !granted[i]
  {
    list, last := null, null;
    added, i := [], 0;
    while i < |granted| && granted[i]
      invariant |added| == i <= |granted| && forall j :: 0 <= j < i ==> granted[j]
      invariant fresh(Elements(added)) && OnlyOn(added, port) && Distinct(added)
      invariant Chain(list, added) && last == if added == [] then null else added[|added| - 1]
    {
      var b := new Buffer(port);
      assert b !in Elements(added);
      assert forall x :: x in added ==> x in Elements(added);
      list := Join(list, last, b, added, [b]);
      assert Elements(added + [b]) == Elements(added) + {b};
      last, added, i := b, added + [b], i + 1;
    }
  }

  /** The buffers that were or came into the queue by the `k`th turn. */
  ghost function Seen(q: seq<Buffer>, arrivals: seq<seq<Buffer>>, k: nat): seq<Buffer>
    requires k <= |arrivals|
  {
    q + Flat(arrivals[..k])
  }

  lemma NothingSeen(q: seq<Buffer>, arrivals: seq<seq<Buffer>>)
    ensures Seen(q, arrivals, 0) == q
    ensures Elements(q) <= Elements(q + Flat(arrivals))
  {
  }

  lemma NextBatch(q: seq<Buffer>, arrivals: seq<seq<Buffer>>, k: nat)
    requires k < |arrivals| && Distinct(q + Flat(arrivals))
    ensures Seen(q, arrivals, k + 1) == Seen(q, arrivals, k) + arrivals[k]
    ensures Distinct(Seen(q, arrivals, k + 1))
    ensures Elements(Seen(q, arrivals, k + 1)) <= Elements(q + Flat(arrivals))
  {
    var done, batch, rest := Flat(arrivals[..k]), arrivals[k], Flat(arrivals[k + 1..]);
    FlatSnoc(arrivals, k);
    hide Flat;
    Assoc(q, done, batch);
    Assoc(q, done + batch, rest);
    var part := q + (done + batch);
    DistinctPrefix(part, rest, part + rest);
    assert forall b :: b in part ==> b in part + rest;
  }

  lemma DistinctPrefix(s: seq<Buffer>, t: seq<Buffer>, whole: seq<Buffer>)
    requires whole == s + t && Distinct(whole)
    ensures Distinct(s)
  {
    forall i, j | 0 <= i < j < |s| ensures s[i] != s[j] { assert whole[i] == s[i] && whole[j] == s[j]; }
  }
}
