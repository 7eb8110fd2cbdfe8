/** How a flow comes about: the step in which a remote's choice is read opens a flow from the chosen
    raspi to it, beside the flows there are. */
module FlowSetup {
  import opened Wire
  import opened ServerState
  import opened ServerRuns
  import opened Notifications
  import opened Relay
  import opened Bystanders
  import opened RelayRuns
  import Reassembly

  /** The slots are the same but for send buffers and read watchers started. */
  ghost predicate OnlyAnswers(s: State, t: State)
    requires s.Sized() && t.Sized()
  {
    t.channelMap == s.channelMap
    && forall k :: 0 <= k < CHANNEL_MAX ==>
         var x, y := s.channel[k], t.channel[k];
         y.partial == x.partial && y.writing == x.writing && y.fd == x.fd && y.status == x.status && y.idx == x.idx
         && y.kind == x.kind
         && (x.reading ==> y.reading)
  }

  lemma AnsweredWhole(s: State, c: nat, pkg: Pkg, r: SendResult)
    requires s.Sized() && pkg.Sized() && FdMap(s) && c < |s.channel| && Takes(r)
    ensures var t := Response(SetPkg(s, c, pkg, s.channel[c].sent), pkg, r).0;
      OnlyAnswers(s, t) && (s.Live(pkg.fd) ==> t.channel[s.channelMap[pkg.fd]].reading)
  {
    assert |pkg.Wire()| <= PKG;
    hide Pkg.Wire, FdMap;
  }

  /** A choice whose two notifications go out changes no more than that; a startable raspi is read
      from then on. */
  lemma ChoiceLeaves(s: State, f: bytes, fd: int, r: SendResult, r2: SendResult)
    requires s.Sized() && FdMap(s) && Routed(s) && s.Live(fd) && s.Live(Signed(Le32(f, HEAD)))
    requires fd != Signed(Le32(f, HEAD))
    requires Takes(r) && Takes(r2)
    ensures var t, raspifd := Choose(s, f, fd, r, r2).0, Signed(Le32(f, HEAD));
      OnlyAnswers(s, t) && (Stamped(s, raspifd) ==> t.channel[s.channelMap[raspifd]].reading)
  {
    var c, k := s.channelMap[fd], s.channelMap[Signed(Le32(f, HEAD))];
    var pkg := s.channel[c].pkg.(cmd := CHOOSE_SERVER_RES, fd := fd, len := 4).Put(0, 0);
    var s1 := FirstAnswer(s, fd, r);
    ChoiceIs(s, f, fd, r, r2);
    AnsweredWhole(s, c, pkg, r);
    FirstAnswered(s, fd, r);
    AnsweredWhole(s1, k, s1.channel[k].pkg.(cmd := START_SEND_DATA_NTF, len := 4).Put(0, fd), r2);
    hide Choose, Response, SetPkg, Pkg.Put, Le32, Signed, Adds, Taken;
  }

  /** The flow opened by a choice of `raspifd` by `remotefd`. */
  function Opened(s: State, t: State, raspifd: int, remotefd: int, frames: seq<bytes>): Flow
    requires raspifd in s.channelMap && remotefd in s.channelMap
  {
    Flow(s.channelMap[raspifd], s.channelMap[remotefd], remotefd, frames, Sent(t, remotefd))
  }

  /** The read of a choice by a registered remote: `s` is the state before it, `f` the request. */
  predicate Chooses(s: State, c: nat, chunk: bytes, f: bytes, r: SendResult, r2: SendResult)
    requires s.Sized()
  {
    Possible(s, Readable(c, Data(chunk), r, r2))
    && Reassembly.Feed(s.channel[c].partial, chunk).0 == Reassembly.Complete(f)
    && FdOf(f) == 0 && CmdOf(f) == CHOOSE_SERVER_REQ
    && s.Live(s.channel[c].fd) && s.channelMap[s.channel[c].fd] == c && Takes(r) && Takes(r2)
  }

  /** What the choice needs to open a flow: another connection in the map that is stamped by its
      registration and in between packets, and nothing pending for the remote. */
  predicate Choosable(s: State, c: nat, raspifd: int)
    requires s.Sized() && c < |s.channel|
  {
    s.Live(raspifd) && raspifd != s.channel[c].fd && Stamped(s, raspifd)
    && s.channel[s.channelMap[raspifd]].partial == [] && !s.channel[c].writing
  }

  lemma ChoiceOpensFlow(s: State, c: nat, chunk: bytes, f: bytes, r: SendResult, r2: SendResult, frames: seq<bytes>)
    requires s.Sized() && FdMap(s) && Routed(s) && Chooses(s, c, chunk, f, r, r2)
    requires Choosable(s, c, Signed(Le32(f, HEAD)))
    requires AllFrames(frames) && forall i :: 0 <= i < |frames| ==> FdOf(frames[i]) == s.channel[c].fd
    ensures Step(s, Readable(c, Data(chunk), r, r2)).Some?
    ensures var t := Step(s, Readable(c, Data(chunk), r, r2)).value;
      var w := Opened(s, t, Signed(Le32(f, HEAD)), s.channel[c].fd, frames);
      WellFormed(w) && FlowOk(t, w, [])
      && w.base == Sent(s, s.channel[c].fd) + Chosen(s.channel[c].fd)
  {
    var x, raspifd := s.channel[c], Signed(Le32(f, HEAD));
    WholeFrame(x.partial, chunk);
    ChoiceLeaves(s, f, x.fd, r, r2);
    ChoiceStartsExactlyRegistered(s, f, x.fd, r, r2);
    TakesAll(r, Chosen(x.fd));
    var u := Choose(s, f, x.fd, r, r2).0;
    var t := u.With(c, u.channel[c].(partial := []));
    ReceivesChoice(s, c, chunk, f, r, r2);
    hide Step, Choose, Reassembly.Feed, IsFrame, CmdOf, Le32, Signed, Chosen, Start, Taken, FlowOk, WellFormed;
    assert Sent(t, x.fd) == Sent(u, x.fd) == Sent(s, x.fd) + Chosen(x.fd);
    hide Sent, AddsBoth;
    OpenedStarts(s, u, c, raspifd, frames);
  }

  lemma OpenedStarts(s: State, u: State, c: nat, raspifd: int, frames: seq<bytes>)
    requires s.Sized() && u.Sized() && FdMap(s) && Routed(s) && c < |s.channel| && Choosable(s, c, raspifd)
    requires s.Live(s.channel[c].fd) && s.channelMap[s.channel[c].fd] == c
    requires OnlyAnswers(s, u) && u.channel[s.channelMap[raspifd]].reading
    requires AllFrames(frames) && forall i :: 0 <= i < |frames| ==> FdOf(frames[i]) == s.channel[c].fd
    ensures var t := u.With(c, u.channel[c].(partial := []));
      var w := Opened(s, t, raspifd, s.channel[c].fd, frames);
      WellFormed(w) && FlowOk(t, w, [])
  {
    hide Sent, FlowOk, FdOf;
    var t := u.With(c, u.channel[c].(partial := []));
    FlowStarts(t, Opened(s, t, raspifd, s.channel[c].fd, frames));
  }

  lemma ReceivesChoice(s: State, c: nat, chunk: bytes, f: bytes, r: SendResult, r2: SendResult)
    requires s.Sized() && Chooses(s, c, chunk, f, r, r2)
    ensures Step(s, Readable(c, Data(chunk), r, r2)).Some?
    ensures var u := Choose(s, f, s.channel[c].fd, r, r2).0;
      Step(s, Readable(c, Data(chunk), r, r2)).value == u.With(c, u.channel[c].(partial := []))
  {
    WholeFrame(s.channel[c].partial, chunk);
    hide Choose, Register, Dispatch, Reassembly.Feed, IsFrame, Le32, Signed;
  }

  /** The step in which a choice is read adds a flow to the flows there are, as long as the two
      connections are in none of them; the new flow starts behind the answer to the remote. */
  lemma ChoiceAddsAFlow(s: State, ws: seq<Flow>, got: seq<bytes>, c: nat, chunk: bytes, f: bytes,
                        r: SendResult, r2: SendResult, frames: seq<bytes>)
    requires s.Sized() && |got| == |ws| && Separate(ws) && Ready(s, ws, got)
    requires Chooses(s, c, chunk, f, r, r2) && Choosable(s, c, Signed(Le32(f, HEAD)))
    requires forall i :: 0 <= i < |ws| ==> Elsewhere(s, ws[i], Readable(c, Data(chunk), r, r2))
    requires AllFrames(frames) && forall i :: 0 <= i < |frames| ==> FdOf(frames[i]) == s.channel[c].fd
    ensures Step(s, Readable(c, Data(chunk), r, r2)).Some?
    ensures var t := Step(s, Readable(c, Data(chunk), r, r2)).value;
      var w := Opened(s, t, Signed(Le32(f, HEAD)), s.channel[c].fd, frames);
      Separate(ws + [w]) && Ready(t, ws + [w], got + [[]])
  {
    var op := Readable(c, Data(chunk), r, r2);
    ChoiceOpensFlow(s, c, chunk, f, r, r2, frames);
    var t := Step(s, op).value;
    var w := Opened(s, t, Signed(Le32(f, HEAD)), s.channel[c].fd, frames);
    OthersKeep(s, ws, got, op);
    StepKeepsMap(s, op);
    StepKeepsRouting(s, op);
    hide Step, FlowOk, FdMap, Routed, Elsewhere, Chooses, Choosable, WellFormed, AllFrames, Apart, Separate;
    forall i | 0 <= i < |ws| ensures Apart(ws[i], w) && Apart(w, ws[i]) {
      NewIsApart(s, ws[i], got[i], c, chunk, f, r, r2, w);
    }
    hide Ready, AllOk, Opened;
    AddFlow(t, ws, got, w);
  }

  lemma AddFlow(t: State, ws: seq<Flow>, got: seq<bytes>, w: Flow)
    requires t.Sized() && |got| == |ws| && Separate(ws) && FdMap(t) && Routed(t) && AllOk(t, ws, got)
    requires WellFormed(w) && FlowOk(t, w, []) && forall i :: 0 <= i < |ws| ==> Apart(ws[i], w) && Apart(w, ws[i])
    ensures Separate(ws + [w]) && Ready(t, ws + [w], got + [[]])
  {
    hide FlowOk, FdMap, Routed, WellFormed, Apart;
  }

  lemma NewIsApart(s: State, v: Flow, got: bytes, c: nat, chunk: bytes, f: bytes, r: SendResult, r2: SendResult,
                   w: Flow)
    requires s.Sized() && FdMap(s) && FlowOk(s, v, got)
    requires Chooses(s, c, chunk, f, r, r2) && Choosable(s, c, Signed(Le32(f, HEAD)))
    requires Elsewhere(s, v, Readable(c, Data(chunk), r, r2))
    requires w.src == s.channelMap[Signed(Le32(f, HEAD))] && w.dst == c && w.fd == s.channel[c].fd
    ensures Apart(v, w) && Apart(w, v)
  {
    OutsideSlot(s, v, Signed(Le32(f, HEAD)));
    hide Reassembly.Feed, Reassembly.Following, Backpressure, FdMap, Le32, Signed;
  }
}
