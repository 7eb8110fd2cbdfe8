/** Runs of the event pool: whatever callbacks and consumers do, in whatever order, no node is
    lost, every component list stays short, and the spare list never runs dry while the
    components can store few enough distinct events. */
module EventPool {
  import opened Common
  import opened IlEvents

  /** Everything that changes a list under the event lock, and what changes the mask or the related
      component in between. */
  datatype Op =
    | Callback(c: nat, event: Event)
    | Remove(c: nat, wanted: Pattern)
    | Scan(c: nat, command: Command, data2: nat, other: Option<nat>)
    | Return(c: nat)
    | Mask(c: nat, errorMask: set<ErrorCode>)   // state_transition, before and after
    | Relate(c: nat, related: Option<nat>)      // the dual wait, before and after

  predicate Possible(s: Client, op: Op) {
    s.Has(op.c)
    && (op.Callback? ==> Expected(op.event))
    && (op.Scan? && op.other.Some? ==> s.Has(op.other.value))
  }

  /** None: the handler's assertion on the spare list failed. */
  function Apply(s: Client, op: Op): (r: Option<Client>)
    requires Possible(s, op)
    ensures r.Some? ==> |r.value.comps| == |s.comps|
  {
    match op
    case Callback(c, e) => Handle(s, c, e)
    case Remove(c, wanted) => Some(RemoveEvent(s, c, wanted).0)
    case Scan(c, command, data2, other) => Some(DualScan(s, c, command, data2, other).client)
    case Return(c) => Some(ReturnEvents(s, c))
    case Mask(c, errorMask) => Some(s.With(c, s.comps[c].(errorMask := errorMask)))
    case Relate(c, related) => Some(s.With(c, s.comps[c].(related := related)))
  }

  /** A run that has not failed: None once an assertion failed or an operation was impossible. */
  function Run(s: Client, ops: seq<Op>): (r: Option<Client>)
    ensures r.Some? ==> |r.value.comps| == |s.comps|
    decreases |ops|
  {
    if ops == [] then Some(s) else
      var t := Run(s, ops[..|ops| - 1]);
      var op := ops[|ops| - 1];
      if t.Some? && Possible(t.value, op) then Apply(t.value, op) else None
  }

  function Listed(s: seq<Comp>): nat {
    if s == [] then 0 else |s[0].list| + Listed(s[1..])
  }

  /** Sum over the components of (distinct keys in the list, plus one). */
  function Demand(s: seq<Comp>): nat {
    if s == [] then 0 else |Keys(s[0].list)| + 1 + Demand(s[1..])
  }

  /** What every reachable state satisfies. */
  ghost predicate Inv(s: Client) {
    s.spare + Listed(s.comps) == NUM_EVENTS
    && forall c :: 0 <= c < |s.comps| ==> TailDistinct(s.comps[c].list)
  }

  ghost predicate Empty(s: Client) {
    s.spare == NUM_EVENTS && forall c :: 0 <= c < |s.comps| ==> s.comps[c].list == []
  }

  // ---------------------------------------------------------------- sums over components

  lemma {:induction false} ListedWith(s: seq<Comp>, c: nat, x: Comp)
    requires c < |s|
    ensures Listed(s[c := x]) + |s[c].list| == Listed(s) + |x.list|
  {
    if c == 0 {
      assert s[c := x][1..] == s[1..];
    } else {
      ListedWith(s[1..], c - 1, x);
      assert s[c := x][1..] == s[1..][c - 1 := x];
    }
  }

  lemma {:induction false} ListedEmpty(s: seq<Comp>)
    requires forall c :: 0 <= c < |s| ==> s[c].list == []
    ensures Listed(s) == 0
  {
    if s != [] { ListedEmpty(s[1..]); }
  }

  lemma {:induction false} DemandCoversListed(s: seq<Comp>)
    requires forall c :: 0 <= c < |s| ==> TailDistinct(s[c].list)
    ensures Listed(s) <= Demand(s)
  {
    if s != [] {
      assert s[0] in s;
      DedupFreesAtMostOne(s[0].list);
      DemandCoversListed(s[1..]);
    }
  }

  /** One list just cleaned of duplicates leaves a node to spare in the sum. */
  lemma {:induction false} DemandExceedsListed(s: seq<Comp>, c: nat)
    requires c < |s|
    requires forall d :: 0 <= d < |s| ==> TailDistinct(s[d].list)
    requires Distinct(s[c].list)
    ensures Listed(s) < Demand(s)
  {
    if c == 0 {
      DemandCoversListed(s[1..]);
      DistinctCard(s[0].list);
    } else {
      DedupFreesAtMostOne(s[0].list);
      DemandExceedsListed(s[1..], c - 1);
    }
  }

  lemma {:induction false} DemandSameKeys(s: seq<Comp>, t: seq<Comp>)
    requires |s| == |t|
    requires forall c :: 0 <= c < |s| ==> Keys(s[c].list) == Keys(t[c].list)
    ensures Demand(s) == Demand(t)
  {
    if s != [] { DemandSameKeys(s[1..], t[1..]); }
  }

  // ---------------------------------------------------------------- steps keep the invariant

  lemma RemovalKeepsTail(s: seq<Event>, i: nat)
    requires i < |s| && TailDistinct(s)
    ensures TailDistinct(RemoveAt(s, i))
  {
    var r := RemoveAt(s, i);
    if r != [] {
      forall j, k | 0 <= j < k < |r[1..]| ensures r[1..][j] != r[1..][k] {
        var j', k' := if j + 1 < i then j else j + 1, if k + 1 < i then k else k + 1;
        assert r[1..][j] == s[1..][j'] && r[1..][k] == s[1..][k'];
      }
    }
  }

  lemma DedupKeepsInv(s: Client, c: nat)
    requires Inv(s) && s.Has(c)
    ensures Inv(DedupAt(s, c))
    ensures Distinct(DedupAt(s, c).comps[c].list)
    ensures Demand(DedupAt(s, c).comps) == Demand(s.comps)
  {
    var r := DedupAt(s, c);
    DedupKeepsNewest(s.comps[c].list);
    ListedWith(s.comps, c, r.comps[c]);
    assert Keys(r.comps[c].list) == Keys(s.comps[c].list);
    DemandSameKeys(s.comps, r.comps);
  }

  lemma {:induction false} ListedSameLists(s: seq<Comp>, t: seq<Comp>)
    requires |s| == |t|
    requires forall c :: 0 <= c < |s| ==> s[c].list == t[c].list
    ensures Listed(s) == Listed(t)
  {
    if s != [] { ListedSameLists(s[1..], t[1..]); }
  }

  lemma SameListsKeepInv(s: Client, t: Client)
    requires Inv(s) && |s.comps| == |t.comps| && s.spare == t.spare
    requires forall c :: 0 <= c < |s.comps| ==> s.comps[c].list == t.comps[c].list
    ensures Inv(t)
  {
    ListedSameLists(s.comps, t.comps);
  }

  lemma FreeKeepsInv(s: Client, c: nat, i: nat)
    requires Inv(s) && s.Has(c) && i < |s.comps[c].list|
    ensures Inv(s.Free(c, i))
  {
    RemovalKeepsTail(s.comps[c].list, i);
    ListedWith(s.comps, c, s.Free(c, i).comps[c]);
  }

  lemma HandleKeepsInv(s: Client, c: nat, e: Event)
    requires Inv(s) && s.Has(c)
    ensures Handle(s, c, e).Some? ==> Inv(Handle(s, c, e).value)
  {
    var s1 := DedupAt(s, c);
    DedupKeepsInv(s, c);
    if s1.spare > 0 {
      var s2 := NotifyRelated(s1, c, e);
      SameListsKeepInv(s1, s2);
      var s3 := Signal(s2, c, e);
      SameListsKeepInv(s2, s3);
      var s4 := Insert(s3, c, e);
      assert s4.comps[c].list[1..] == s3.comps[c].list;
      ListedWith(s3.comps, c, s4.comps[c]);
    }
  }

  lemma StepKeepsInv(s: Client, op: Op)
    requires Inv(s) && Possible(s, op)
    ensures Apply(s, op).Some? ==> Inv(Apply(s, op).value)
  {
    match op
    case Callback(c, e) => HandleKeepsInv(s, c, e);
    case Remove(c, wanted) =>
      var i := FirstMatch(s.comps[c].list, [wanted]);
      if i < |s.comps[c].list| {
        FreeKeepsInv(s, c, i);
        SameListsKeepInv(s.Free(c, i), RemoveEvent(s, c, wanted).0);
      }
    case Scan(c, command, data2, other) =>
      var i := FirstMatch(s.comps[c].list, Completion(command, data2));
      if i < |s.comps[c].list| {
        FreeKeepsInv(s, c, i);
        SameListsKeepInv(s.Free(c, i), DualScan(s, c, command, data2, other).client);
      }
    case Return(c) =>
      ListedWith(s.comps, c, ReturnEvents(s, c).comps[c]);
    case Mask(c, errorMask) =>
      SameListsKeepInv(s, Apply(s, op).value);
    case Relate(c, related) =>
      SameListsKeepInv(s, Apply(s, op).value);
  }

  // ---------------------------------------------------------------- results about every run

  /** Conservation and duplicate control: in every state of every run the spare nodes and the
      listed nodes are NUM_EVENTS together, and no list holds a duplicate behind its head. */
  lemma {:induction false} EveryRunKeepsInv(s: Client, ops: seq<Op>)
    requires Empty(s)
    ensures Run(s, ops).Some? ==> Inv(Run(s, ops).value)
    decreases |ops|
  {
    if ops == [] {
      ListedEmpty(s.comps);
    } else {
      var p, op := ops[..|ops| - 1], ops[|ops| - 1];
      EveryRunKeepsInv(s, p);
      var t := Run(s, p);
      if t.Some? && Possible(t.value, op) { StepKeepsInv(t.value, op); }
    }
  }

  /** In every run a list is at most one longer than its number of distinct keys, and a callback
      frees at most one node, exactly when the head repeats an older event. */
  lemma ListsStayShort(s: Client, ops: seq<Op>, c: nat)
    requires Empty(s) && Run(s, ops).Some? && c < |s.comps|
    ensures var t := Run(s, ops).value; var list := t.comps[c].list;
      |list| <= |Keys(list)| + 1
      && DedupAt(t, c).spare - t.spare == if list != [] && list[0] in list[1..] then 1 else 0
  {
    EveryRunKeepsInv(s, ops);
    DedupFreesAtMostOne(Run(s, ops).value.comps[c].list);
  }

  /** The assertion in the handler, exactly: it fails iff the lists still hold all the nodes
      after the reporting component dropped its duplicates. */
  lemma AssertionFailsIff(s: Client, ops: seq<Op>, c: nat, e: Event)
    requires Empty(s) && Run(s, ops).Some? && c < |s.comps|
    ensures var t := Run(s, ops).value;
      Handle(t, c, e).None? <==> Listed(DedupAt(t, c).comps) == NUM_EVENTS
  {
    EveryRunKeepsInv(s, ops);
    DedupKeepsInv(Run(s, ops).value, c);
  }

  /** Pool bound, state by state: the assertion holds whenever the demand fits the pool. */
  lemma DemandWithinPoolSuffices(s: Client, ops: seq<Op>, c: nat, e: Event)
    requires Empty(s) && Run(s, ops).Some? && c < |s.comps|
    requires Demand(Run(s, ops).value.comps) <= NUM_EVENTS
    ensures Handle(Run(s, ops).value, c, e).Some?
  {
    EveryRunKeepsInv(s, ops);
    var t := Run(s, ops).value;
    DedupKeepsInv(t, c);
    DemandExceedsListed(DedupAt(t, c).comps, c);
  }

  /** The events a component can report, as they are stored. */
  type Alphabets = seq<set<Event>>

  function Capacity(a: Alphabets): nat {
    if a == [] then 0 else |a[0]| + 1 + Capacity(a[1..])
  }

  predicate Obeys(op: Op, a: Alphabets) {
    op.Callback? ==> op.c < |a| && Stored(op.event) in a[op.c]
  }

  ghost predicate Within(s: Client, a: Alphabets) {
    |s.comps| == |a| && forall c :: 0 <= c < |a| ==> Keys(s.comps[c].list) <= a[c]
  }

  lemma {:induction false} DemandWithinCapacity(s: seq<Comp>, a: Alphabets)
    requires |s| == |a| && forall c :: 0 <= c < |a| ==> Keys(s[c].list) <= a[c]
    ensures Demand(s) <= Capacity(a)
  {
    if s != [] {
      SubsetCard(Keys(s[0].list), a[0]);
      DemandWithinCapacity(s[1..], a[1..]);
    }
  }

  lemma StepStaysWithin(s: Client, op: Op, a: Alphabets)
    requires Within(s, a) && Possible(s, op) && Obeys(op, a) && Apply(s, op).Some?
    ensures Within(Apply(s, op).value, a)
  {
    var t := Apply(s, op).value;
    forall d | 0 <= d < |a| ensures Keys(t.comps[d].list) <= a[d] {
      assert Keys(s.comps[d].list) <= a[d];
      forall x | x in t.comps[d].list ensures x in Keys(s.comps[d].list) || x in a[d] {
        if op.Callback? && d == op.c {
          assert x == Stored(op.event) || x in Dedup(s.comps[d].list);
        } else {
          assert x in s.comps[d].list;
        }
      }
    }
  }

  /** Pool bound over runs: when the components' alphabets fit the pool, no run of callbacks and
      consumers ever fails the handler's assertion. */
  lemma {:induction false} PoolNeverEmpty(s: Client, ops: seq<Op>, a: Alphabets)
    requires Empty(s) && |s.comps| == |a| && Capacity(a) <= NUM_EVENTS
    requires forall i :: 0 <= i < |ops| ==> Possible(s, ops[i]) && Obeys(ops[i], a)
    ensures Run(s, ops).Some? && Within(Run(s, ops).value, a)
    decreases |ops|
  {
    if ops != [] {
      var p, op := ops[..|ops| - 1], ops[|ops| - 1];
      PoolNeverEmpty(s, p, a);
      var t := Run(s, p).value;
      DemandWithinCapacity(t.comps, a);
      if op.Callback? { DemandWithinPoolSuffices(s, p, op.c, op.event); }
      StepStaysWithin(t, op, a);
    }
  }

  // ---------------------------------------------------------------- the bound is tight

  function Distinguished(n: nat): Event {
    Event(PortSettingsChanged, Num(n), 0)
  }

  function Flood(n: nat): seq<Op> {
    if n == 0 then [] else Flood(n - 1) + [Callback(0, Distinguished(n - 1))]
  }

  /** What the flood leaves, newest first. */
  function Flooded(n: nat): (r: seq<Event>)
    ensures |r| == n
    ensures forall i :: 0 <= i < n ==> r[i] == Distinguished(n - 1 - i)
  {
    if n == 0 then [] else [Distinguished(n - 1)] + Flooded(n - 1)
  }

  lemma OneMoreFits(s: Client, n: nat)
    requires |s.comps| == 1 && s.comps[0].list == Flooded(n)
    ensures var r := Handle(s, 0, Distinguished(n));
      if s.spare > 0
      then r.Some? && r.value.spare == s.spare - 1 && |r.value.comps| == 1 && r.value.comps[0].list == Flooded(n + 1)
      else r.None?
  {
    DedupOfDistinct(s.comps[0].list);
  }

  lemma {:induction false} FloodFills(s: Client, n: nat)
    requires Empty(s) && |s.comps| == 1 && n <= s.spare
    ensures Run(s, Flood(n)).Some?
    ensures Run(s, Flood(n)).value.spare == s.spare - n
    ensures Run(s, Flood(n)).value.comps[0].list == Flooded(n)
  {
    if n > 0 {
      FloodFills(s, n - 1);
      var ops := Flood(n);
      assert ops[..|ops| - 1] == Flood(n - 1) && ops[|ops| - 1] == Callback(0, Distinguished(n - 1));
      OneMoreFits(Run(s, Flood(n - 1)).value, n - 1);
      hide Handle, Flood, Flooded;
    }
  }

  /** One more distinct event than the bound allows, and a run exists that fails the assertion. */
  lemma BoundIsTight(s: Client, n: nat)
    requires Empty(s) && |s.comps| == 1 && n == s.spare
    ensures Run(s, Flood(n)).Some? && Demand(Run(s, Flood(n)).value.comps) == NUM_EVENTS + 1
    ensures Run(s, Flood(n + 1)).None?
  {
    FloodFills(s, n);
    var t := Run(s, Flood(n)).value;
    DistinctCard(t.comps[0].list);
    assert t.comps[1..] == [];
    OneMoreFits(t, n);
    var ops := Flood(n + 1);
    assert ops[..|ops| - 1] == Flood(n) && ops[|ops| - 1] == Callback(0, Distinguished(n));
  }

  // ---------------------------------------------------------------- the exact bound

  ghost predicate AllObey(s: Client, ops: seq<Op>, a: Alphabets) {
    forall i :: 0 <= i < |ops| ==> Possible(s, ops[i]) && Obeys(ops[i], a)
  }

  /** Every component can report something, and stores everything it can report. */
  predicate Reportable(s: Client, a: Alphabets) {
    |s.comps| == |a|
    && forall c :: 0 <= c < |a| ==> a[c] != {} && forall x :: x in a[c] ==> Storable(x, s.comps[c].errorMask)
  }

  predicate Storable(x: Event, errorMask: set<ErrorCode>) {
    Expected(x) && Stored(x) == x && !Ignored(x, errorMask)
  }

  /** The components are the same but for their lists and flags. */
  ghost predicate SameMasks(s: Client, t: Client) {
    |t.comps| == |s.comps| && forall c :: 0 <= c < |s.comps| ==> t.comps[c].errorMask == s.comps[c].errorMask
  }

  /** A callback on a list without duplicates: the event goes in front, or the assertion fails. */
  lemma OneMore(s: Client, c: nat, e: Event)
    requires s.Has(c) && Distinct(s.comps[c].list) && Storable(e, s.comps[c].errorMask)
    ensures Handle(s, c, e).None? <==> s.spare == 0
    ensures Handle(s, c, e).Some? ==>
      var t := Handle(s, c, e).value;
      SameMasks(s, t) && t.comps[c].list == [e] + s.comps[c].list
      && forall d :: 0 <= d < |s.comps| && d != c ==> t.comps[d].list == s.comps[d].list
  {
    DedupOfDistinct(s.comps[c].list);
    assert DedupAt(s, c).comps == s.comps;
  }

  lemma RunOn(s: Client, ops: seq<Op>, op: Op, a: Alphabets)
    requires Run(s, ops).Some? && AllObey(s, ops, a) && Possible(s, op) && Obeys(op, a)
    ensures AllObey(s, ops + [op], a)
    ensures Possible(Run(s, ops).value, op) && Run(s, ops + [op]) == Apply(Run(s, ops).value, op)
  {
    assert (ops + [op])[..|ops|] == ops;
    hide Apply;
  }

  /** Component `c` reports the events `todo` it has not stored yet, until all are stored or the
      assertion fails. */
  lemma {:induction false} ReportAll(s: Client, ops: seq<Op>, t: Client, a: Alphabets, c: nat, todo: set<Event>)
    returns (more: seq<Op>, u: Client)
    requires Reportable(s, a) && c < |a| && todo <= a[c]
    requires AllObey(s, ops, a) && Run(s, ops) == Some(t) && SameMasks(s, t)
    requires Distinct(t.comps[c].list) && Keys(t.comps[c].list) == a[c] - todo
    ensures AllObey(s, more, a)
    ensures Run(s, more).Some? ==>
      Run(s, more) == Some(u) && SameMasks(s, u) && Distinct(u.comps[c].list) && Keys(u.comps[c].list) == a[c]
      && forall d :: 0 <= d < |a| && d != c ==> u.comps[d].list == t.comps[d].list
    decreases |todo|
  {
    more, u := ops, t;
    if todo != {} {
      var e :| e in todo;
      assert e in a[c] && Storable(e, s.comps[c].errorMask);
      hide Handle, Run, AllObey, Reportable, Distinct, Keys, Storable, Apply;
      var op := Callback(c, e);
      ReportsOne(s, ops, t, a, c, e);
      more := ops + [op];
      if Handle(t, c, e).Some? {
        var v := Handle(t, c, e).value;
        InFrontOf(t.comps[c].list, e);
        assert Keys(v.comps[c].list) == a[c] - (todo - {e});
        more, u := ReportAll(s, more, v, a, c, todo - {e});
      }
    }
  }

  lemma ReportsOne(s: Client, ops: seq<Op>, t: Client, a: Alphabets, c: nat, e: Event)
    requires |s.comps| == |a| && c < |a| && e in a[c] && Storable(e, s.comps[c].errorMask)
    requires AllObey(s, ops, a) && Run(s, ops) == Some(t) && SameMasks(s, t) && Distinct(t.comps[c].list)
    ensures AllObey(s, ops + [Callback(c, e)], a) && Run(s, ops + [Callback(c, e)]) == Handle(t, c, e)
    ensures Handle(t, c, e).Some? ==>
      var v := Handle(t, c, e).value;
      SameMasks(s, v) && v.comps[c].list == [e] + t.comps[c].list
      && forall d :: 0 <= d < |t.comps| && d != c ==> v.comps[d].list == t.comps[d].list
  {
    RunOn(s, ops, Callback(c, e), a);
    OneMore(t, c, e);
    hide Handle, Run, AllObey, Distinct;
  }

  lemma InFrontOf(s: seq<Event>, e: Event)
    requires Distinct(s) && e !in Keys(s)
    ensures Distinct([e] + s) && Keys([e] + s) == Keys(s) + {e}
  {
    assert forall i :: 0 <= i < |s| ==> s[i] in s;
  }

  /** The first `c` components have stored all they can and one duplicate each. */
  ghost predicate FullTo(t: Client, a: Alphabets, c: nat)
    requires |t.comps| == |a|
  {
    forall d :: 0 <= d < |a| ==> if d < c then |t.comps[d].list| == |a[d]| + 1 else t.comps[d].list == []
  }

  lemma {:induction false} FillUpTo(s: Client, a: Alphabets, c: nat) returns (ops: seq<Op>, t: Client)
    requires Empty(s) && Reportable(s, a) && c <= |a|
    ensures AllObey(s, ops, a)
    ensures Run(s, ops).Some? ==> Run(s, ops) == Some(t) && SameMasks(s, t) && FullTo(t, a, c)
  {
    ops, t := [], s;
    if c > 0 {
      ops, t := FillUpTo(s, a, c - 1);
      if Run(s, ops).Some? {
        var u;
        assert Keys(t.comps[c - 1].list) == {};
        ops, u := ReportAll(s, ops, t, a, c - 1, a[c - 1]);
        if Run(s, ops).Some? {
          ops, t := RepeatOne(s, ops, t, u, a, c - 1);
        }
      }
    }
  }

  /** And then one of them again. */
  lemma RepeatOne(s: Client, ops: seq<Op>, t: Client, u: Client, a: Alphabets, c: nat)
    returns (more: seq<Op>, v: Client)
    requires Reportable(s, a) && c < |a| && |t.comps| == |a| && FullTo(t, a, c)
    requires AllObey(s, ops, a) && Run(s, ops) == Some(u) && SameMasks(s, u)
    requires Distinct(u.comps[c].list) && Keys(u.comps[c].list) == a[c]
    requires forall d :: 0 <= d < |a| && d != c ==> u.comps[d].list == t.comps[d].list
    ensures AllObey(s, more, a)
    ensures Run(s, more).Some? ==> Run(s, more) == Some(v) && SameMasks(s, v) && FullTo(v, a, c + 1)
  {
    var e :| e in a[c];
    assert Storable(e, s.comps[c].errorMask);
    RunOn(s, ops, Callback(c, e), a);
    OneMore(u, c, e);
    DistinctCard(u.comps[c].list);
    more := ops + [Callback(c, e)];
    v := if Handle(u, c, e).Some? then Handle(u, c, e).value else u;
    hide Handle, Run, AllObey;
  }

  lemma {:induction false} FullHolds(s: seq<Comp>, a: Alphabets)
    requires |s| == |a| && forall d :: 0 <= d < |a| ==> |s[d].list| == |a[d]| + 1
    ensures Listed(s) == Capacity(a)
  {
    if s != [] { FullHolds(s[1..], a[1..]); }
  }

  /** The pool bound, exactly, for any number of components and any events they can report: no run
      ever fails the assertion if and only if the sum of distinct events plus one fits the pool. */
  lemma PoolSufficesIff(s: Client, a: Alphabets)
    requires Empty(s) && Reportable(s, a)
    ensures (forall ops :: AllObey(s, ops, a) ==> Run(s, ops).Some?) <==> Capacity(a) <= NUM_EVENTS
  {
    if Capacity(a) <= NUM_EVENTS {
      forall ops | AllObey(s, ops, a) ensures Run(s, ops).Some? { PoolNeverEmpty(s, ops, a); }
    } else {
      var ops, t := FillUpTo(s, a, |a|);
      if Run(s, ops).Some? {
        EveryRunKeepsInv(s, ops);
        FullHolds(t.comps, a);
        assert false;
      }
    }
  }
}
