/** Relaying over whole runs of the server: any number of flows, and anything that may happen on the
    connections beside them. */
module RelayRuns {
  import opened Common
  import opened Wire
  import Reassembly
  import opened ServerState
  import opened ServerRuns
  import opened Notifications
  import opened Relay
  import opened Bystanders

  /** One step of the server seen from its flows. */
  datatype Move =
    | Read(i: nat, chunk: bytes, r: SendResult, r2: SendResult)
    | Wait(i: nat)                                 // the source has nothing to read
    | Drain(i: nat, r: SendResult, r2: SendResult)
    | Other(op: Op)                                // any callback that does not concern the flows

  /** libev calls a watcher only while it is started; a source's peer sends its packet stream. */
  ghost predicate Allowed(s: State, ws: seq<Flow>, got: seq<bytes>, m: Move)
    requires s.Sized() && |got| == |ws| && Separate(ws)
  {
    match m
    case Read(i, chunk, r, _) =>
      i < |ws| && s.channel[ws[i].src].reading && !r.Broken?
      && 1 <= |chunk| <= Reassembly.Need(s.channel[ws[i].src].partial) && got[i] + chunk <= Concat(ws[i].frames)
    case Wait(i) => i < |ws| && s.channel[ws[i].src].reading
    case Drain(i, r, _) => i < |ws| && s.channel[ws[i].dst].writing && !r.Broken?
    case Other(op) => Possible(s, op) && Step(s, op).Some? && forall i :: 0 <= i < |ws| ==> Elsewhere(s, ws[i], op)
  }

  function OpOf(ws: seq<Flow>, m: Move): Op
    requires m.Other? || m.i < |ws|
  {
    match m
    case Read(i, chunk, r, r2) => Readable(ws[i].src, Data(chunk), r, r2)
    case Wait(i) => Readable(ws[i].src, Nothing, Again, Again)
    case Drain(i, r, r2) => Writable(ws[i].dst, r, r2)
    case Other(op) => op
  }

  function GotAfter(got: seq<bytes>, m: Move): seq<bytes>
    requires m.Read? ==> m.i < |got|
  {
    if m.Read? then got[m.i := got[m.i] + m.chunk] else got
  }

  /** Every flow as it should be, in a state as every run of the server reaches it. */
  ghost predicate Ready(s: State, ws: seq<Flow>, got: seq<bytes>)
    requires s.Sized() && |got| == |ws|
  {
    FdMap(s) && Routed(s) && AllOk(s, ws, got)
  }

  ghost predicate AllOk(s: State, ws: seq<Flow>, got: seq<bytes>)
    requires s.Sized() && |got| == |ws|
  {
    forall i :: 0 <= i < |ws| ==> FlowOk(s, ws[i], got[i])
  }

  /** A step of the flow `i` that keeps it and touches nothing else keeps them all. */
  lemma KeepsTheOthers(s: State, t: State, ws: seq<Flow>, got: seq<bytes>, got': seq<bytes>, i: nat)
    requires s.Sized() && t.Sized() && |got| == |ws| == |got'| && i < |ws| && Separate(ws) && AllOk(s, ws, got)
    requires FlowOk(t, ws[i], got'[i]) && OnlyTouches(s, t, ws[i])
    requires forall j :: 0 <= j < |ws| && j != i ==> got'[j] == got[j]
    ensures AllOk(t, ws, got')
  {
    forall j | 0 <= j < |ws| && j != i ensures FlowOk(t, ws[j], got'[j]) {
      ApartIsUntouched(s, t, ws[i], ws[j]) by { assert Connected(s, ws[j]); assert Apart(ws[i], ws[j]); }
      UntouchedKeeps(s, t, ws[j], got[j]);
    }
    hide FlowOk;
  }

  lemma MoveKeeps(s: State, ws: seq<Flow>, got: seq<bytes>, m: Move)
    requires s.Sized() && |got| == |ws| && Separate(ws) && Ready(s, ws, got) && Allowed(s, ws, got, m)
    ensures Possible(s, OpOf(ws, m)) && Step(s, OpOf(ws, m)).Some?
    ensures AllOk(Step(s, OpOf(ws, m)).value, ws, GotAfter(got, m))
  {
    hide AllOk, Step, Possible, FdMap, Routed, Separate;
    match m
    case Read(i, chunk, r, r2) => ReadMoveKeeps(s, ws, got, i, chunk, r, r2);
    case Wait(i) => WaitChangesNothing(s, ws, got, i);
    case Drain(i, r, r2) => DrainMoveKeeps(s, ws, got, i, r, r2);
    case Other(op) => OthersKeep(s, ws, got, op);
  }

  lemma ReadMoveKeeps(s: State, ws: seq<Flow>, got: seq<bytes>, i: nat, chunk: bytes, r: SendResult, r2: SendResult)
    requires s.Sized() && |got| == |ws| && Separate(ws) && AllOk(s, ws, got)
    requires Allowed(s, ws, got, Read(i, chunk, r, r2))
    ensures var op := Readable(ws[i].src, Data(chunk), r, r2);
      Possible(s, op) && Step(s, op).Some? && AllOk(Step(s, op).value, ws, GotAfter(got, Read(i, chunk, r, r2)))
  {
    assert FlowOk(s, ws[i], got[i]);
    assert WellFormed(ws[i]);
    hide FlowOk, OnlyTouches, Receive, AllOk, Separate, Dangles, Step, ReadFits, Possible, WellFormed, Reassembly.Need;
    ReadKeeps(s, ws[i], got[i], chunk, r, r2);
    ReadIsStep(s, ws[i].src, chunk, r, r2);
    KeepsTheOthers(s, Receive(s, ws[i].src, Data(chunk), r, r2), ws, got, GotAfter(got, Read(i, chunk, r, r2)), i);
  }

  lemma ReadIsStep(s: State, c: nat, chunk: bytes, r: SendResult, r2: SendResult)
    requires s.Sized() && c < CHANNEL_MAX && ReadFits(s, c, Data(chunk)) && !Dangles(s, c, Data(chunk), r, r2)
    ensures var op := Readable(c, Data(chunk), r, r2);
      Possible(s, op) && Step(s, op) == Some(Receive(s, c, Data(chunk), r, r2))
  {
    hide Dangles, Receive;
  }

  lemma WaitChangesNothing(s: State, ws: seq<Flow>, got: seq<bytes>, i: nat)
    requires s.Sized() && |got| == |ws| && Separate(ws) && Allowed(s, ws, got, Wait(i))
    ensures var op := Readable(ws[i].src, Nothing, Again, Again);
      Possible(s, op) && Step(s, op) == Some(s)
  {
    assert Receive(s, ws[i].src, Nothing, Again, Again).channel == s.channel;
    hide FreeChannel, CheckBreak, Deliver, DeliverDangles;
  }

  lemma DrainMoveKeeps(s: State, ws: seq<Flow>, got: seq<bytes>, i: nat, r: SendResult, r2: SendResult)
    requires s.Sized() && |got| == |ws| && Separate(ws) && AllOk(s, ws, got) && Allowed(s, ws, got, Drain(i, r, r2))
    ensures var op := Writable(ws[i].dst, r, r2);
      Possible(s, op) && Step(s, op).Some? && AllOk(Step(s, op).value, ws, got)
  {
    assert FlowOk(s, ws[i], got[i]) && Connected(s, ws[i]) && Backpressure(s, ws[i]);
    assert WellFormed(ws[i]);
    hide FlowOk, OnlyTouches, Flush, AllOk, Separate, WellFormed;
    DrainKeeps(s, ws[i], got[i], r, r2);
    KeepsTheOthers(s, Flush(s, ws[i].dst, r, r2).value, ws, got, got, i);
  }

  lemma OthersKeep(s: State, ws: seq<Flow>, got: seq<bytes>, op: Op)
    requires s.Sized() && |got| == |ws| && Ready(s, ws, got)
    requires Possible(s, op) && Step(s, op).Some? && forall i :: 0 <= i < |ws| ==> Elsewhere(s, ws[i], op)
    ensures AllOk(Step(s, op).value, ws, got)
  {
    forall j | 0 <= j < |ws| ensures FlowOk(Step(s, op).value, ws[j], got[j]) {
      assert FlowOk(s, ws[j], got[j]) && Connected(s, ws[j]);
      hide FlowOk, Untouched, Connected, Elsewhere, Step, FdMap, Routed;
      StepIsElsewhere(s, ws[j], op);
      UntouchedKeeps(s, Step(s, op).value, ws[j], got[j]);
    }
    hide FlowOk;
  }

  /** The state after a run of the server, and what has been read from each source. */
  datatype World = World(s: State, got: seq<bytes>)

  ghost predicate IsRun(ws: seq<Flow>, run: seq<World>, moves: seq<Move>)
    requires Separate(ws)
  {
    |run| == |moves| + 1
    && (forall k :: 0 <= k < |run| ==> run[k].s.Sized() && |run[k].got| == |ws|)
    && forall k, j :: 0 <= k < |moves| && j == k + 1 ==> IsNext(ws, run[k], moves[k], run[j])
  }

  ghost predicate IsNext(ws: seq<Flow>, x: World, m: Move, y: World)
    requires Separate(ws)
  {
    x.s.Sized() && |x.got| == |ws| && Allowed(x.s, ws, x.got, m)
    && Possible(x.s, OpOf(ws, m)) && Step(x.s, OpOf(ws, m)) == Some(y.s)
    && y.got == GotAfter(x.got, m)
  }

  /** In every state of every run, for every flow: the backpressure invariant holds, and what the
      destination was sent, what is pending for it and what is buffered for its source are, byte for
      byte and in order, what was read from the source. */
  lemma {:induction false} EveryRunRelays(ws: seq<Flow>, run: seq<World>, moves: seq<Move>, k: nat)
    requires Separate(ws) && IsRun(ws, run, moves) && k < |run| && Ready(run[0].s, ws, run[0].got)
    ensures Ready(run[k].s, ws, run[k].got)
    ensures forall i :: 0 <= i < |ws| ==> Conserved(run[k].s, ws[i], run[k].got[i])
  {
    hide Ready, AllOk, IsNext, Conserved, Separate;
    if k > 0 {
      EveryRunRelays(ws, run, moves, k - 1);
      NextKeeps(ws, run[k - 1], moves[k - 1], run[k]);
    }
    AllConserved(run[k].s, ws, run[k].got);
  }

  lemma NextKeeps(ws: seq<Flow>, x: World, m: Move, y: World)
    requires Separate(ws) && IsNext(ws, x, m, y) && Ready(x.s, ws, x.got) && y.s.Sized() && |y.got| == |ws|
    ensures Ready(y.s, ws, y.got)
  {
    MoveKeeps(x.s, ws, x.got, m);
    StepKeepsMap(x.s, OpOf(ws, m));
    StepKeepsRouting(x.s, OpOf(ws, m));
    hide AllOk, Allowed, Separate, Step, FdMap, Routed;
  }

  lemma AllConserved(s: State, ws: seq<Flow>, got: seq<bytes>)
    requires s.Sized() && |got| == |ws| && Ready(s, ws, got)
    ensures forall i :: 0 <= i < |ws| ==> Conserved(s, ws[i], got[i])
  {
    forall i | 0 <= i < |ws| ensures Conserved(s, ws[i], got[i]) {
      OkConserves(s, ws[i], got[i]);
    }
    hide FlowOk, Conserved;
  }

  ghost predicate Conserved(s: State, w: Flow, got: bytes)
    requires s.Sized()
  {
    Connected(s, w) && Backpressure(s, w)
    && Sent(s, w.fd) + Unsent(s.channel[w.dst]) + s.channel[w.src].partial == w.base + got
    && got <= Concat(w.frames)
  }

  lemma OkConserves(s: State, w: Flow, got: bytes)
    requires s.Sized() && FlowOk(s, w, got)
    ensures Conserved(s, w, got)
  {
    var d, p := Concat(Reassembly.Parse(got).0), s.channel[w.src].partial;
    assert got == d + p;
    Assoc(w.base, d, p);
    hide Sent, Unsent, Reassembly.Parse, Backpressure, Connected;
  }
}
