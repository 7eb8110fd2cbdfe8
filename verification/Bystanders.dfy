/** The rest of the server's life while packets are relayed: whatever happens on other connections,
    told by the state before it happens, does not disturb a flow. */
module Bystanders {
  import opened Common
  import opened Wire
  import opened ServerState
  import opened ServerRuns
  import opened Relay
  import Reassembly

  lemma UntouchedTwice(s: State, t: State, u: State, w: Flow)
    requires s.Sized() && t.Sized() && u.Sized() && Untouched(s, t, w) && Untouched(t, u, w)
    ensures Untouched(s, u, w)
  {
  }

  /** A connection that is neither end of the flow. */
  predicate Outside(s: State, w: Flow, fd: int)
    requires s.Sized()
  {
    w.src < CHANNEL_MAX && fd != w.fd && fd != s.channel[w.src].fd
  }

  lemma OutsideSlot(s: State, w: Flow, fd: int)
    requires s.Sized() && FdMap(s) && Connected(s, w) && Outside(s, w, fd) && fd in s.channelMap
    ensures s.channelMap[fd] != w.src && s.channelMap[fd] != w.dst
  {
  }

  lemma FillIsElsewhere(s: State, w: Flow, c: nat, x: Channel)
    requires s.Sized() && FdMap(s) && Connected(s, w) && c < |s.channel| && c != w.src && c != w.dst && x.pkg.Sized()
    requires x.fd == s.channel[c].fd && x.idx == s.channel[c].idx && x.status == s.channel[c].status
    requires x.src == s.channel[c].src
    ensures var t := s.With(c, x);
      t.Sized() && Untouched(s, t, w) && FdMap(t) && Connected(t, w)
  {
  }

  /** An answer to another connection, whatever becomes of its send. */
  lemma ResponseIsElsewhere(s: State, w: Flow, pkg: Pkg, r: SendResult)
    requires s.Sized() && FdMap(s) && Connected(s, w) && pkg.Sized() && Outside(s, w, pkg.fd)
    ensures var t := Response(s, pkg, r).0;
      Untouched(s, t, w) && FdMap(t) && Connected(t, w)
  {
    ResponseKeepsMap(s, pkg, r);
    if s.Live(pkg.fd) { OutsideSlot(s, w, pkg.fd); }
    ResponseLeaves(s, w, pkg, r);
    hide Response, FdMap;
  }

  lemma ResponseLeaves(s: State, w: Flow, pkg: Pkg, r: SendResult)
    requires s.Sized() && FdMap(s) && Connected(s, w) && pkg.Sized() && Outside(s, w, pkg.fd)
    requires s.Live(pkg.fd) ==> s.channelMap[pkg.fd] != w.src && s.channelMap[pkg.fd] != w.dst
    ensures Untouched(s, Response(s, pkg, r).0, w)
  {
    hide Pkg.Wire;
  }

  lemma AnswerIsElsewhere(s: State, w: Flow, c: nat, pkg: Pkg, r: SendResult)
    requires s.Sized() && FdMap(s) && Connected(s, w) && pkg.Sized() && Outside(s, w, pkg.fd)
    requires c < |s.channel| && c != w.src && c != w.dst
    ensures var t := Response(SetPkg(s, c, pkg, s.channel[c].sent), pkg, r).0;
      Untouched(s, t, w) && FdMap(t) && Connected(t, w)
  {
    var s1 := SetPkg(s, c, pkg, s.channel[c].sent);
    FillIsElsewhere(s, w, c, s.channel[c].(pkg := pkg, sent := s.channel[c].sent));
    ResponseIsElsewhere(s1, w, pkg, r);
    hide Response, FdMap;
    UntouchedTwice(s, s1, Response(s1, pkg, r).0, w);
  }

  lemma RegisterIsElsewhere(s: State, w: Flow, f: bytes, fd: int, r: SendResult)
    requires s.Sized() && FdMap(s) && Connected(s, w) && Outside(s, w, fd)
    ensures Untouched(s, Register(s, f, fd, r).0, w)
  {
    var want := Signed(Le32(f, HEAD));
    assert Untouched(s, s, w);
    if s.Live(fd) && (want == 0 || want == 1) {
      var c := s.channelMap[fd];
      OutsideSlot(s, w, fd);
      TypedIsElsewhere(s, w, c, fd, if want == 0 then Raspi else Remote, r);
      hide Response, FdMap, PutFds, RaspiFds, Pkg.Put, Le32, Signed, Connected, Untouched, Outside;
    }
  }

  /** The slot's type set, the answer headed, and sent with the list of raspis or without. */
  lemma TypedIsElsewhere(s: State, w: Flow, c: nat, fd: int, kind: ClientType, r: SendResult)
    requires s.Sized() && FdMap(s) && Connected(s, w) && c < |s.channel| && c != w.src && c != w.dst
    requires Outside(s, w, fd)
    ensures var s0 := s.With(c, s.channel[c].(kind := kind));
      var pkg := s.channel[c].pkg.(cmd := REGISTER_CLIENT_RES, fd := fd, len := 36).Put(0, 0);
      var s1 := SetPkg(s0, c, pkg, s.channel[c].sent);
      var fds := RaspiFds(s1);
      var pkg2 := PutFds(pkg, if |fds| >= 8 then fds[..8] else fds, 0);
      var s2 := SetPkg(s1, c, pkg2, s.channel[c].sent);
      Untouched(s, Response(s1, pkg, r).0, w) && Untouched(s, s2, w) && Untouched(s, Response(s2, pkg2, r).0, w)
  {
    var x := s.channel[c].(kind := kind);
    var s0 := s.With(c, x);
    FillIsElsewhere(s, w, c, x);
    var pkg := s.channel[c].pkg.(cmd := REGISTER_CLIENT_RES, fd := fd, len := 36).Put(0, 0);
    var s1 := SetPkg(s0, c, pkg, s.channel[c].sent);
    assert Outside(s0, w, fd);
    hide Response, FdMap, PutFds, RaspiFds, Pkg.Put, Connected, Untouched, SetPkg, Outside;
    AnswerIsElsewhere(s0, w, c, pkg, r);
    UntouchedTwice(s, s0, Response(s1, pkg, r).0, w);
    SetPkgIsElsewhere(s0, w, c, pkg);
    var fds := RaspiFds(s1);
    UntouchedTwice(s, s0, s1, w);
    ListIsElsewhere(s, w, s1, c, PutFds(pkg, if |fds| >= 8 then fds[..8] else fds, 0), r);
  }

  /** The list written into the answer, and the answer sent. */
  lemma ListIsElsewhere(s: State, w: Flow, s1: State, c: nat, pkg: Pkg, r: SendResult)
    requires s.Sized() && s1.Sized() && FdMap(s1) && Connected(s1, w) && Untouched(s, s1, w) && pkg.Sized()
    requires c < |s1.channel| && c != w.src && c != w.dst && Outside(s1, w, pkg.fd)
    ensures var s2 := SetPkg(s1, c, pkg, s1.channel[c].sent);
      Untouched(s, s2, w) && Untouched(s, Response(s2, pkg, r).0, w)
  {
    hide Response, FdMap, Connected, Untouched, SetPkg, Outside;
    AnswerIsElsewhere(s1, w, c, pkg, r);
    SetPkgIsElsewhere(s1, w, c, pkg);
    var s2 := SetPkg(s1, c, pkg, s1.channel[c].sent);
    UntouchedTwice(s, s1, s2, w);
    UntouchedTwice(s, s1, Response(s2, pkg, r).0, w);
  }

  lemma SetPkgIsElsewhere(s: State, w: Flow, c: nat, pkg: Pkg)
    requires s.Sized() && FdMap(s) && Connected(s, w) && c < |s.channel| && c != w.src && c != w.dst && pkg.Sized()
    ensures var t := SetPkg(s, c, pkg, s.channel[c].sent);
      Untouched(s, t, w) && FdMap(t) && Connected(t, w) && |t.channel| == |s.channel|
      && t.channel[c].sent == s.channel[c].sent
      && forall fd :: Outside(s, w, fd) ==> Outside(t, w, fd)
  {
    FillIsElsewhere(s, w, c, s.channel[c].(pkg := pkg, sent := s.channel[c].sent));
  }

  lemma ChooseIsElsewhere(s: State, w: Flow, f: bytes, fd: int, r: SendResult, r2: SendResult)
    requires s.Sized() && FdMap(s) && Routed(s) && Connected(s, w)
    requires Outside(s, w, fd) && Outside(s, w, Signed(Le32(f, HEAD)))
    ensures Untouched(s, Choose(s, f, fd, r, r2).0, w)
  {
    var raspifd := Signed(Le32(f, HEAD));
    assert Untouched(s, s, w);
    if s.Live(fd) && s.Live(raspifd) {
      OutsideSlot(s, w, fd);
      OutsideSlot(s, w, raspifd);
      var c, k := s.channelMap[fd], s.channelMap[raspifd];
      var pkg := s.channel[c].pkg.(cmd := CHOOSE_SERVER_RES, fd := fd, len := 4).Put(0, 0);
      AnswerIsElsewhere(s, w, c, pkg, r);
      var s0 := SetPkg(s, c, pkg, s.channel[c].sent);
      var s1 := Response(s0, pkg, r).0;
      ResponseKeepsBuffers(s0, pkg, r);
      var pkg2 := s1.channel[k].pkg.(cmd := START_SEND_DATA_NTF, len := 4).Put(0, fd);
      assert pkg2.fd in {0, fd, raspifd};
      assert Outside(s1, w, pkg2.fd);
      hide Response, FdMap, Pkg.Put, Le32, Signed, Connected, SetPkg;
      AnswerIsElsewhere(s1, w, k, pkg2, r2);
      UntouchedTwice(s, s1, Response(SetPkg(s1, k, pkg2, s1.channel[k].sent), pkg2, r2).0, w);
    }
  }

  lemma ResponseKeepsBuffers(s: State, pkg: Pkg, r: SendResult)
    requires s.Sized() && pkg.Sized()
    ensures forall c :: 0 <= c < CHANNEL_MAX ==> Response(s, pkg, r).0.channel[c].pkg == s.channel[c].pkg
  {
    hide Pkg.Wire;
  }

  lemma DeliverIsElsewhere(s: State, w: Flow, f: bytes, fd: int, r: SendResult, r2: SendResult)
    requires s.Sized() && FdMap(s) && Routed(s) && Connected(s, w) && IsFrame(f) && Outside(s, w, fd)
    requires Addressed(s, w, f, fd, r, r2)
    ensures Untouched(s, Deliver(s, f, fd, r, r2), w)
  {
    assert Untouched(s, s, w);
    hide Register, Choose, Dispatch, Untouched, Connected, FdMap, Routed, Outside, BreaksOutside, IsFrame, CmdOf, FdOf;
    if FdOf(f) != 0 {
      DispatchIsElsewhere(s, w, f, fd, FdOf(f), r, r2);
    } else if CmdOf(f) == REGISTER_CLIENT_REQ {
      RegisterIsElsewhere(s, w, f, fd, r);
    } else if CmdOf(f) == CHOOSE_SERVER_REQ {
      ChooseIsElsewhere(s, w, f, fd, r, r2);
    }
  }

  // ---------------------------------------------------------------- frees, bridges and other flows

  /** A slot in use by neither end of the flow, and so its connection. */
  predicate Away(s: State, w: Flow, c: nat)
    requires s.Sized() && c < |s.channel|
  {
    c != w.src && c != w.dst && s.channel[c].idx == c && Outside(s, w, s.channel[c].fd)
  }

  /** If check_break_fd finds a bridge, its other end is neither end of the flow. */
  predicate BreaksOutside(s: State, w: Flow, kind: ClientType, fd: int)
    requires s.Sized()
  {
    kind.Remote? && fd in s.bridgeMap ==>
      s.bridgeMap[fd] != w.src && s.bridgeMap[fd] != w.dst && Outside(s, w, s.channel[s.bridgeMap[fd]].fd)
  }

  /** A packet from `fd` that does not concern the flow: it does not choose its source, is not for
      one of its ends, and breaks no bridge to them. */
  predicate Addressed(s: State, w: Flow, f: bytes, fd: int, r: SendResult, r2: SendResult)
    requires s.Sized() && |f| >= HEAD
  {
    if FdOf(f) == 0 then CmdOf(f) == CHOOSE_SERVER_REQ ==> Outside(s, w, Signed(Le32(f, HEAD)))
    else Outside(s, w, FdOf(f))
         && (r.Broken? && s.Live(FdOf(f)) ==> BreaksOutside(s, w, s.channel[s.channelMap[FdOf(f)]].kind, FdOf(f)))
  }

  /** A callback that does not concern the flow, as the state before it shows. */
  predicate Elsewhere(s: State, w: Flow, op: Op)
    requires s.Sized() && Possible(s, op)
  {
    match op
    case Connect(fd) => fd !in s.channelMap
    case Readable(c, got, r, r2) =>
      Away(s, w, c)
      && (got.Closed? ==> BreaksOutside(s, w, s.channel[c].kind, s.channel[c].fd))
      && (got.Data? && Reassembly.Feed(s.channel[c].partial, got.chunk).0.Complete? ==>
            (WholeFrame(s.channel[c].partial, got.chunk);
             Addressed(s, w, Reassembly.Feed(s.channel[c].partial, got.chunk).0.f, s.channel[c].fd, r, r2)))
    case Writable(c, r, r2) =>
      Away(s, w, c)
      && (r.Broken? ==> BreaksOutside(s, w, s.channel[c].kind, s.channel[c].fd))
      && s.channel[c].src != Some(w.src) && s.channel[c].src != Some(w.dst)
  }

  lemma FreeIsElsewhere(s: State, w: Flow, c: nat)
    requires s.Sized() && FdMap(s) && Connected(s, w) && c < |s.channel| && Away(s, w, c)
    ensures var t := FreeChannel(s, c);
      Untouched(s, t, w) && FdMap(t) && Connected(t, w) && t.bridgeMap == s.bridgeMap
      && forall k :: 0 <= k < CHANNEL_MAX ==> t.channel[k].fd == s.channel[k].fd && t.channel[k].idx == s.channel[k].idx
  {
  }

  lemma CheckBreakIsElsewhere(s: State, w: Flow, kind: ClientType, fd: int, r: SendResult)
    requires s.Sized() && FdMap(s) && Connected(s, w) && BreaksOutside(s, w, kind, fd)
    ensures var t := CheckBreak(s, kind, fd, r);
      Untouched(s, t, w) && FdMap(t) && Connected(t, w)
      && forall k :: 0 <= k < CHANNEL_MAX ==> t.channel[k].fd == s.channel[k].fd && t.channel[k].idx == s.channel[k].idx
  {
    assert Untouched(s, s, w);
    if kind.Remote? && fd in s.bridgeMap {
      var k := s.bridgeMap[fd];
      var pkg := Empty().(fd := s.channel[k].fd, cmd := RESTART_CLIENT_NTF, len := 4).Put(0, 1);
      CheckBreakKeepsMap(s, kind, fd, r);
      ResponseIsElsewhere(s, w, pkg, r);
      ResponseKeepsNames(s, pkg, r);
      hide Response, FdMap;
    }
  }

  lemma ResponseKeepsNames(s: State, pkg: Pkg, r: SendResult)
    requires s.Sized() && pkg.Sized()
    ensures var t := Response(s, pkg, r).0;
      forall k :: 0 <= k < CHANNEL_MAX ==> t.channel[k].fd == s.channel[k].fd && t.channel[k].idx == s.channel[k].idx
  {
    hide Pkg.Wire;
  }

  lemma DropIsElsewhere(s: State, w: Flow, c: nat, r: SendResult)
    requires s.Sized() && FdMap(s) && Connected(s, w) && c < |s.channel| && Away(s, w, c)
    requires BreaksOutside(s, w, s.channel[c].kind, s.channel[c].fd)
    ensures Untouched(s, Drop(s, c, r), w)
  {
    var t := CheckBreak(s, s.channel[c].kind, s.channel[c].fd, r);
    CheckBreakIsElsewhere(s, w, s.channel[c].kind, s.channel[c].fd, r);
    hide CheckBreak, FreeChannel, FdMap, BreaksOutside;
    FreeIsElsewhere(t, w, c);
    UntouchedTwice(s, t, FreeChannel(t, c), w);
  }

  /** The watchers of two other slots. */
  lemma WatchersAreElsewhere(s: State, w: Flow, a: nat, b: nat, n: nat)
    requires s.Sized() && FdMap(s) && Connected(s, w) && a < |s.channel| && b < |s.channel|
    requires a != w.src && a != w.dst && b != w.src && b != w.dst
    ensures Untouched(s, Stall(s, a, b, n), w) && Untouched(s, Resume(s, a, b), w)
  {
  }

  lemma OutIsElsewhere(s: State, w: Flow, fd: int, bs: bytes)
    requires s.Sized() && FdMap(s) && Connected(s, w) && fd != w.fd
    ensures var t := s.Out(fd, bs);
      Untouched(s, t, w) && FdMap(t) && Connected(t, w)
  {
  }

  /** Relaying between two other connections. */
  lemma DispatchIsElsewhere(s: State, w: Flow, f: bytes, srcfd: int, dstfd: int, r: SendResult, r2: SendResult)
    requires s.Sized() && FdMap(s) && Connected(s, w) && IsFrame(f) && Outside(s, w, srcfd) && Outside(s, w, dstfd)
    requires r.Broken? && s.Live(dstfd) ==> BreaksOutside(s, w, s.channel[s.channelMap[dstfd]].kind, dstfd)
    ensures Untouched(s, Dispatch(s, f, srcfd, dstfd, r, r2).0, w)
  {
    assert Untouched(s, s, w);
    if s.Live(srcfd) && s.Live(dstfd) {
      var a, b := s.channelMap[srcfd], s.channelMap[dstfd];
      OutsideSlot(s, w, srcfd);
      OutsideSlot(s, w, dstfd);
      var p := CopyOf(f, s.channel[b].pkg);
      var s1 := SetPkg(s, b, p, 0);
      FillIsElsewhere(s, w, b, s.channel[b].(pkg := p, sent := 0));
      assert Away(s1, w, b) && s1.channel[b].kind == s.channel[b].kind && s1.channel[b].fd == dstfd;
      assert r.Broken? ==> BreaksOutside(s1, w, s1.channel[b].kind, dstfd);
      hide CopyOf, IsFrame, SetPkg, Drop, Stall, Resume, FdMap, Untouched, Connected, Outside, BreaksOutside, Away;
      SentElsewhere(s, w, s1, a, b, f, dstfd, r, r2);
    }
  }

  lemma SentElsewhere(s: State, w: Flow, s1: State, a: nat, b: nat, f: bytes, dstfd: int, r: SendResult, r2: SendResult)
    requires s.Sized() && s1.Sized() && Untouched(s, s1, w) && FdMap(s1) && Connected(s1, w) && dstfd != w.fd
    requires a < |s1.channel| && b < |s1.channel| && a != w.src && a != w.dst && Away(s1, w, b)
    requires r.Broken? ==> BreaksOutside(s1, w, s1.channel[b].kind, s1.channel[b].fd)
    ensures r.Broken? ==> Untouched(s, Drop(s1, b, r2), w)
    ensures r.Again? ==> Untouched(s, Stall(s1, a, b, 0), w)
    ensures r.Took? ==>
      var n := Cut(r.n, |f|);
      var s2 := s1.Out(dstfd, f[..n]);
      Untouched(s, if n < |f| then Stall(s2, a, b, n) else Resume(s2, a, b), w)
  {
    hide Drop, Stall, Resume, FdMap, Connected, BreaksOutside, Untouched;
    match r
    case Broken =>
      DropIsElsewhere(s1, w, b, r2);
      UntouchedTwice(s, s1, Drop(s1, b, r2), w);
    case Again =>
      WatchersAreElsewhere(s1, w, a, b, 0);
      UntouchedTwice(s, s1, Stall(s1, a, b, 0), w);
    case Took(n0) =>
      var n := Cut(n0, |f|);
      var s2 := s1.Out(dstfd, f[..n]);
      OutIsElsewhere(s1, w, dstfd, f[..n]);
      WatchersAreElsewhere(s2, w, a, b, n);
      UntouchedTwice(s, s1, s2, w);
      UntouchedTwice(s, s2, Stall(s2, a, b, n), w);
      UntouchedTwice(s, s2, Resume(s2, a, b), w);
  }

  // ---------------------------------------------------------------- every callback

  lemma ReceiveIsElsewhere(s: State, w: Flow, c: nat, got: ReadResult, r: SendResult, r2: SendResult)
    requires s.Sized() && FdMap(s) && Routed(s) && Connected(s, w) && Possible(s, Readable(c, got, r, r2))
    requires Elsewhere(s, w, Readable(c, got, r, r2))
    ensures Untouched(s, Receive(s, c, got, r, r2), w)
  {
    var x := s.channel[c];
    FreeIsElsewhere(s, w, c);
    if got.Closed? {
      var t := FreeChannel(s, c);
      assert BreaksOutside(t, w, x.kind, x.fd);
      CheckBreakIsElsewhere(t, w, x.kind, x.fd, r);
      UntouchedTwice(s, t, CheckBreak(t, x.kind, x.fd, r), w);
      hide FreeChannel, CheckBreak, Untouched, Outside;
    } else if got.Data? {
      DataIsElsewhere(s, w, c, got.chunk, r, r2);
      hide Receive;
    }
    hide FreeChannel, FdMap, Routed, Connected;
  }

  lemma DataIsElsewhere(s: State, w: Flow, c: nat, chunk: bytes, r: SendResult, r2: SendResult)
    requires s.Sized() && FdMap(s) && Routed(s) && Connected(s, w) && Possible(s, Readable(c, Data(chunk), r, r2))
    requires Elsewhere(s, w, Readable(c, Data(chunk), r, r2))
    ensures Untouched(s, Receive(s, c, Data(chunk), r, r2), w)
  {
    var x := s.channel[c];
    var o := Reassembly.Feed(x.partial, chunk).0;
    hide Reassembly.Feed, IsFrame, FdMap, Routed, Connected, Addressed, FreeChannel, Deliver;
    if o.Bad? {
      FreeIsElsewhere(s, w, c);
    } else if o.Complete? {
      WholeFrame(x.partial, chunk);
      DeliverIsElsewhere(s, w, o.f, x.fd, r, r2);
      var t := Deliver(s, o.f, x.fd, r, r2);
      assert Untouched(t, t.With(c, t.channel[c].(partial := [])), w);
      UntouchedTwice(s, t, t.With(c, t.channel[c].(partial := [])), w);
    }
  }

  lemma FlushIsElsewhere(s: State, w: Flow, c: nat, r: SendResult, r2: SendResult)
    requires s.Sized() && FdMap(s) && Connected(s, w) && Possible(s, Writable(c, r, r2))
    requires Elsewhere(s, w, Writable(c, r, r2)) && Flush(s, c, r, r2).Some?
    ensures Untouched(s, Flush(s, c, r, r2).value, w)
  {
    if r.Broken? {
      DropIsElsewhere(s, w, c, r2);
      hide Drop, FdMap, Connected;
    } else {
      hide Drop, Pkg.Wire, BreaksOutside, FdMap;
    }
  }

  /** Every callback that does not concern the flow leaves it alone, whatever the operating system
      returns: accepts, reads of any kind, requests, relaying between others, resumed sends, frees
      and broken bridges. */
  lemma StepIsElsewhere(s: State, w: Flow, op: Op)
    requires s.Sized() && FdMap(s) && Routed(s) && Connected(s, w)
    requires Possible(s, op) && Elsewhere(s, w, op) && Step(s, op).Some?
    ensures Untouched(s, Step(s, op).value, w)
  {
    match op
    case Connect(fd) => ConnectIsElsewhere(s, w, fd);
    case Readable(c, got, r, r2) => ReceiveIsElsewhere(s, w, c, got, r, r2);
    case Writable(c, r, r2) => FlushIsElsewhere(s, w, c, r, r2);
    hide Accept, Receive, Flush, FdMap, Routed, Connected, Elsewhere, Dangles, Untouched;
  }
}
