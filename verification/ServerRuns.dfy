/** What every run of the server's callbacks keeps: the fd map, and the routing field of the send
    buffers that the START notification relies on. */
module ServerRuns {
  import opened Common
  import opened Wire
  import opened Reassembly
  import opened ServerState

  datatype Op =
    | Connect(fd: int)
    | Readable(c: nat, got: ReadResult, r: SendResult, r2: SendResult)
    | Writable(c: nat, r: SendResult, r2: SendResult)

  /** An fd is positive; recv returns no more than was asked for, and the request ends inside the
      receive buffer; a resumed send has something left of its packet.  The first and the bound
      on recv the operating system guarantees.  Where the code breaks the others it reads or writes
      outside its buffers, and what it does then is not part of any run. */
  predicate Possible(s: State, op: Op)
    requires s.Sized()
  {
    match op
    case Connect(fd) => fd > 0
    case Readable(c, got, _, _) => c < CHANNEL_MAX && ReadFits(s, c, got)
    case Writable(c, _, _) => c < CHANNEL_MAX && s.channel[c].sent <= |s.channel[c].pkg.Wire()|
  }

  /** None when the code follows a null pointer or an erased map entry. */
  function Step(s: State, op: Op): (t: Option<State>)
    requires s.Sized() && Possible(s, op)
    ensures t.Some? ==> t.value.Sized()
  {
    match op
    case Connect(fd) => Accept(s, fd)
    case Readable(c, got, r, r2) => if Dangles(s, c, got, r, r2) then None else Some(Receive(s, c, got, r, r2))
    case Writable(c, r, r2) => Flush(s, c, r, r2)
  }

  /** The state after a run; None once the code has left what the model describes. */
  function Run(s: State, ops: seq<Op>): (t: Option<State>)
    requires s.Sized()
    ensures t.Some? ==> t.value.Sized()
    decreases |ops|
  {
    if ops == [] then Some(s) else
      var t := Run(s, ops[..|ops| - 1]);
      var op := ops[|ops| - 1];
      if t.Some? && Possible(t.value, op) then Step(t.value, op) else None
  }

  ghost predicate Fresh(s: State) {
    s.Sized() && s.channelMap == map[] && s.bridgeMap == map[]
    && forall c :: 0 <= c < |s.channel| ==> s.channel[c].status.NonActive?
  }

  // ---------------------------------------------------------------- the fd map

  /** Every entry leads to an ACTIVE slot that carries the fd and its own index. */
  ghost predicate FdMap(s: State)
    requires s.Sized()
  {
    forall fd :: fd in s.channelMap ==>
      var k := s.channelMap[fd];
      s.channel[k].fd == fd && s.channel[k].status.Active? && s.channel[k].idx == k
  }

  /** The slots are the same but for buffers, lengths, watchers and stale slots revived. */
  ghost predicate SameSlots(s: State, t: State)
    requires s.Sized() && t.Sized()
  {
    t.channelMap == s.channelMap
    && forall c :: 0 <= c < CHANNEL_MAX ==>
         t.channel[c].fd == s.channel[c].fd && t.channel[c].idx == s.channel[c].idx
         && (t.channel[c].status == s.channel[c].status || t.channel[c].status.Active?)
  }

  lemma FreeKeepsMap(s: State, c: nat)
    requires s.Sized() && c < |s.channel| && FdMap(s)
    ensures FdMap(FreeChannel(s, c))
  {
  }

  lemma ResponseKeepsMap(s: State, pkg: Pkg, r: SendResult)
    requires s.Sized() && pkg.Sized() && FdMap(s)
    ensures FdMap(Response(s, pkg, r).0)
    ensures !r.Broken? ==> SameSlots(s, Response(s, pkg, r).0)
  {
    if r.Broken? && s.Live(pkg.fd) {
      var c := s.channelMap[pkg.fd];
      var s1 := s.With(c, s.channel[c].(sent := 0));
      SameSlotsKeepMap(s, s1);
      FreeKeepsMap(s1, c);
      hide FreeChannel, FdMap;
    } else {
      ResponseSameSlots(s, pkg, r);
      hide Response, FdMap, SameSlots;
      SameSlotsKeepMap(s, Response(s, pkg, r).0);
    }
  }

  lemma ResponseSameSlots(s: State, pkg: Pkg, r: SendResult)
    requires s.Sized() && pkg.Sized() && !(r.Broken? && s.Live(pkg.fd))
    ensures SameSlots(s, Response(s, pkg, r).0)
  {
    hide Pkg.Wire, FreeChannel;
  }

  /** A response touches the slots only where it frees one. */
  lemma ResponseOnPool(s: State, pkg: Pkg, r: SendResult)
    requires s.Sized() && pkg.Sized() && FdMap(s)
    ensures var t := Response(s, pkg, r).0;
      t.channelMap == (if r.Broken? && pkg.fd in s.channelMap then s.channelMap - {pkg.fd} else s.channelMap)
      && forall c :: 0 <= c < CHANNEL_MAX ==>
           t.channel[c].fd == s.channel[c].fd
           && t.channel[c].status == if r.Broken? && pkg.fd in s.channelMap && s.channelMap[pkg.fd] == c
                                     then NonActive else s.channel[c].status
  {
  }

  lemma CheckBreakKeepsMap(s: State, kind: ClientType, fd: int, r: SendResult)
    requires s.Sized() && FdMap(s)
    ensures FdMap(CheckBreak(s, kind, fd, r))
  {
    if kind.Remote? && fd in s.bridgeMap {
      var pkg := Empty().(fd := s.channel[s.bridgeMap[fd]].fd, cmd := RESTART_CLIENT_NTF, len := 4).Put(0, 1);
      ResponseKeepsMap(s, pkg, r);
      hide Response;
    }
  }

  lemma SameSlotsKeepMap(s: State, t: State)
    requires s.Sized() && t.Sized() && FdMap(s) && SameSlots(s, t)
    ensures FdMap(t)
  {
  }

  lemma SetPkgSameSlots(s: State, c: nat, pkg: Pkg, sent: nat)
    requires s.Sized() && c < |s.channel| && pkg.Sized()
    ensures SameSlots(s, SetPkg(s, c, pkg, sent))
  {
  }

  lemma WatchersSameSlots(s: State, a: nat, b: nat, n: nat)
    requires s.Sized() && a < |s.channel| && b < |s.channel|
    ensures SameSlots(s, Stall(s, a, b, n)) && SameSlots(s, Resume(s, a, b))
  {
  }

  lemma DropKeepsMap(s: State, c: nat, r: SendResult)
    requires s.Sized() && c < |s.channel| && FdMap(s)
    ensures FdMap(Drop(s, c, r))
  {
    CheckBreakKeepsMap(s, s.channel[c].kind, s.channel[c].fd, r);
    FreeKeepsMap(CheckBreak(s, s.channel[c].kind, s.channel[c].fd, r), c);
    hide CheckBreak, FreeChannel;
  }

  lemma DispatchKeepsMap(s: State, f: bytes, srcfd: int, dstfd: int, r: SendResult, r2: SendResult)
    requires s.Sized() && IsFrame(f) && FdMap(s)
    ensures FdMap(Dispatch(s, f, srcfd, dstfd, r, r2).0)
  {
    if s.Live(srcfd) && s.Live(dstfd) {
      var a, b := s.channelMap[srcfd], s.channelMap[dstfd];
      var s1 := SetPkg(s, b, CopyOf(f, s.channel[b].pkg), 0);
      SetPkgSameSlots(s, b, CopyOf(f, s.channel[b].pkg), 0);
      SameSlotsKeepMap(s, s1);
      if r.Broken? {
        DropKeepsMap(s1, b, r2);
      } else if r.Again? {
        WatchersSameSlots(s1, a, b, 0);
        SameSlotsKeepMap(s1, Stall(s1, a, b, 0));
      } else {
        var n := Cut(r.n, |f|);
        var s2 := s1.Out(dstfd, f[..n]);
        SameSlotsKeepMap(s1, s2);
        WatchersSameSlots(s2, a, b, n);
        SameSlotsKeepMap(s2, Stall(s2, a, b, n));
        SameSlotsKeepMap(s2, Resume(s2, a, b));
      }
      hide CopyOf, IsFrame, SetPkg, Drop, Stall, Resume, SameSlots, FdMap;
    }
  }

  lemma RegisterKeepsMap(s: State, f: bytes, fd: int, r: SendResult)
    requires s.Sized() && FdMap(s)
    ensures FdMap(Register(s, f, fd, r).0)
  {
    var want := Signed(Le32(f, HEAD));
    if s.Live(fd) && (want == 0 || want == 1) {
      var c := s.channelMap[fd];
      var s0 := s.With(c, s.channel[c].(kind := if want == 0 then Raspi else Remote));
      var pkg := s.channel[c].pkg.(cmd := REGISTER_CLIENT_RES, fd := fd, len := 36).Put(0, 0);
      var s1 := SetPkg(s0, c, pkg, s.channel[c].sent);
      SetPkgSameSlots(s0, c, pkg, s.channel[c].sent);
      SameSlotsKeepMap(s0, s1);
      ResponseKeepsMap(s1, pkg, r);
      if want == 1 {
        var fds := RaspiFds(s1);
        var pkg2 := PutFds(pkg, if |fds| >= 8 then fds[..8] else fds, 0);
        SetPkgSameSlots(s1, c, pkg2, s.channel[c].sent);
        SameSlotsKeepMap(s1, SetPkg(s1, c, pkg2, s.channel[c].sent));
        ResponseKeepsMap(SetPkg(s1, c, pkg2, s.channel[c].sent), pkg2, r);
      }
      hide Response, SetPkg, PutFds, RaspiFds;
    }
  }

  lemma ChooseKeepsMap(s: State, f: bytes, fd: int, r: SendResult, r2: SendResult)
    requires s.Sized() && FdMap(s)
    ensures FdMap(Choose(s, f, fd, r, r2).0)
  {
    var raspifd := Signed(Le32(f, HEAD));
    if s.Live(fd) && s.Live(raspifd) {
      var c, k := s.channelMap[fd], s.channelMap[raspifd];
      var pkg := s.channel[c].pkg.(cmd := CHOOSE_SERVER_RES, fd := fd, len := 4).Put(0, 0);
      var s0 := SetPkg(s, c, pkg, s.channel[c].sent);
      SetPkgSameSlots(s, c, pkg, s.channel[c].sent);
      SameSlotsKeepMap(s, s0);
      ResponseKeepsMap(s0, pkg, r);
      var s1 := Response(s0, pkg, r).0;
      var pkg2 := s1.channel[k].pkg.(cmd := START_SEND_DATA_NTF, len := 4).Put(0, fd);
      var s2 := SetPkg(s1, k, pkg2, s1.channel[k].sent);
      SetPkgSameSlots(s1, k, pkg2, s1.channel[k].sent);
      SameSlotsKeepMap(s1, s2);
      ResponseKeepsMap(s2, pkg2, r2);
      hide Response, SetPkg;
    }
  }

  lemma DeliverKeepsMap(s: State, f: bytes, fd: int, r: SendResult, r2: SendResult)
    requires s.Sized() && IsFrame(f) && FdMap(s)
    ensures FdMap(Deliver(s, f, fd, r, r2))
  {
    hide Register, Choose, Dispatch, IsFrame, FdOf, CmdOf, FdMap, State.Sized;
    if FdOf(f) != 0 {
      DispatchKeepsMap(s, f, fd, FdOf(f), r, r2);
    } else if CmdOf(f) == REGISTER_CLIENT_REQ {
      RegisterKeepsMap(s, f, fd, r);
    } else if CmdOf(f) == CHOOSE_SERVER_REQ {
      ChooseKeepsMap(s, f, fd, r, r2);
    }
  }

  lemma ReceiveKeepsMap(s: State, c: nat, got: ReadResult, r: SendResult, r2: SendResult)
    requires s.Sized() && Possible(s, Readable(c, got, r, r2)) && FdMap(s)
    ensures FdMap(Receive(s, c, got, r, r2))
  {
    var x := s.channel[c];
    if got.Closed? {
      FreeKeepsMap(s, c);
      CheckBreakKeepsMap(FreeChannel(s, c), x.kind, x.fd, r);
    } else if got.ReadError? {
      FreeKeepsMap(s, c);
    } else if got.Data? {
      var o := Feed(x.partial, got.chunk).0;
      if o.Bad? {
        FreeKeepsMap(s, c);
      } else if o.Complete? {
        WholeFrame(x.partial, got.chunk);
        DeliverKeepsMap(s, o.f, x.fd, r, r2);
      }
    }
    hide Feed, FreeChannel, CheckBreak, Deliver, IsFrame;
  }

  lemma FlushKeepsMap(s: State, c: nat, r: SendResult, r2: SendResult)
    requires s.Sized() && Possible(s, Writable(c, r, r2)) && FdMap(s)
    ensures Flush(s, c, r, r2).Some? ==> FdMap(Flush(s, c, r, r2).value)
  {
    var t := Flush(s, c, r, r2);
    if r.Broken? {
      DropKeepsMap(s, c, r2);
      hide Drop, FdMap;
    } else if t.Some? {
      FlushSameSlots(s, c, r, r2);
      hide Flush, SameSlots, FdMap;
      SameSlotsKeepMap(s, t.value);
    }
  }

  lemma FlushSameSlots(s: State, c: nat, r: SendResult, r2: SendResult)
    requires s.Sized() && Possible(s, Writable(c, r, r2)) && !r.Broken? && Flush(s, c, r, r2).Some?
    ensures SameSlots(s, Flush(s, c, r, r2).value)
    ensures forall k :: 0 <= k < CHANNEL_MAX ==> Flush(s, c, r, r2).value.channel[k].pkg == s.channel[k].pkg
  {
    hide Drop, Pkg.Wire;
  }

  lemma StepKeepsMap(s: State, op: Op)
    requires s.Sized() && Possible(s, op) && FdMap(s)
    ensures Step(s, op).Some? ==> FdMap(Step(s, op).value)
  {
    match op
    case Connect(fd) =>
    case Readable(c, got, r, r2) => ReceiveKeepsMap(s, c, got, r, r2);
    case Writable(c, r, r2) => FlushKeepsMap(s, c, r, r2);
  }

  /** In every state of every run the map leads each fd to an ACTIVE slot of that fd, so no two
      fds share a slot, whatever fails and whichever fds are used again. */
  lemma {:induction false} EveryRunKeepsFdMap(s: State, ops: seq<Op>)
    requires Fresh(s)
    ensures Run(s, ops).Some? ==>
      FdMap(Run(s, ops).value)
      && forall fd, fd2 :: fd in Run(s, ops).value.channelMap && fd2 in Run(s, ops).value.channelMap && fd != fd2 ==>
           Run(s, ops).value.channelMap[fd] != Run(s, ops).value.channelMap[fd2]
    decreases |ops|
  {
    if ops != [] {
      var p, op := ops[..|ops| - 1], ops[|ops| - 1];
      EveryRunKeepsFdMap(s, p);
      var t := Run(s, p);
      if t.Some? && Possible(t.value, op) { StepKeepsMap(t.value, op); }
      hide Step;
    }
  }

  /** In such a state dispatch follows an erased map entry exactly where the destination is bridged to
      itself and both its sends fail. */
  lemma DispatchDanglesIff(s: State, fd: int, dstfd: int, r: SendResult, r2: SendResult)
    requires s.Sized() && FdMap(s)
    ensures DispatchDangles(s, fd, dstfd, r, r2) <==>
      r.Broken? && r2.Broken? && s.Live(fd) && s.Live(dstfd) && s.channel[s.channelMap[dstfd]].kind.Remote?
      && dstfd in s.bridgeMap && s.channel[s.bridgeMap[dstfd]].fd == dstfd
  {
  }

  // ---------------------------------------------------------------- routing

  /** fds are positive, and the head fd left in a mapped channel's send buffer is 0 or its own. */
  ghost predicate Routed(s: State)
    requires s.Sized()
  {
    forall fd :: fd in s.channelMap ==> fd > 0 && s.channel[s.channelMap[fd]].pkg.fd in {0, fd}
  }

  /** It is the channel's own: what a successful registration leaves behind. */
  predicate Stamped(s: State, fd: int)
    requires s.Sized()
  {
    fd in s.channelMap && s.channel[s.channelMap[fd]].pkg.fd == fd
  }

  /** What every callback does to the stamps of the connections that survive it. */
  ghost predicate KeepsStamps(s: State, t: State)
    requires s.Sized() && t.Sized()
  {
    t.channelMap.Keys <= s.channelMap.Keys
    && (forall fd :: fd in t.channelMap ==> t.channelMap[fd] == s.channelMap[fd])
    && forall fd :: fd in t.channelMap ==>
         t.channel[t.channelMap[fd]].pkg.fd in {s.channel[s.channelMap[fd]].pkg.fd, fd}
  }

  lemma StampsCompose(s: State, t: State, u: State)
    requires s.Sized() && t.Sized() && u.Sized() && KeepsStamps(s, t) && KeepsStamps(t, u)
    ensures KeepsStamps(s, u)
  {
  }

  lemma FreeKeepsStamps(s: State, c: nat)
    requires s.Sized() && c < |s.channel|
    ensures KeepsStamps(s, FreeChannel(s, c))
  {
  }

  lemma ResponseKeepsStamps(s: State, pkg: Pkg, r: SendResult)
    requires s.Sized() && pkg.Sized()
    ensures KeepsStamps(s, Response(s, pkg, r).0)
  {
  }

  lemma CheckBreakKeepsStamps(s: State, kind: ClientType, fd: int, r: SendResult)
    requires s.Sized()
    ensures KeepsStamps(s, CheckBreak(s, kind, fd, r))
  {
    if kind.Remote? && fd in s.bridgeMap {
      var pkg := Empty().(fd := s.channel[s.bridgeMap[fd]].fd, cmd := RESTART_CLIENT_NTF, len := 4).Put(0, 1);
      ResponseKeepsStamps(s, pkg, r);
      hide Response;
    }
  }

  /** Filling a mapped channel's send buffer keeps the stamps if the head fd is its own or stays. */
  lemma SetPkgKeepsStamps(s: State, c: nat, pkg: Pkg, sent: nat)
    requires s.Sized() && FdMap(s) && c < |s.channel| && pkg.Sized()
    requires pkg.fd in {s.channel[c].pkg.fd, s.channel[c].fd}
    ensures KeepsStamps(s, SetPkg(s, c, pkg, sent))
  {
  }

  lemma WatchersKeepStamps(s: State, a: nat, b: nat, n: nat)
    requires s.Sized() && a < |s.channel| && b < |s.channel|
    ensures KeepsStamps(s, Stall(s, a, b, n)) && KeepsStamps(s, Resume(s, a, b))
  {
  }

  lemma DropKeepsStamps(s: State, c: nat, r: SendResult)
    requires s.Sized() && c < |s.channel|
    ensures KeepsStamps(s, Drop(s, c, r))
  {
    var s1 := CheckBreak(s, s.channel[c].kind, s.channel[c].fd, r);
    CheckBreakKeepsStamps(s, s.channel[c].kind, s.channel[c].fd, r);
    FreeKeepsStamps(s1, c);
    StampsCompose(s, s1, FreeChannel(s1, c));
    hide CheckBreak, FreeChannel;
  }

  lemma DispatchKeepsStamps(s: State, f: bytes, srcfd: int, r: SendResult, r2: SendResult)
    requires s.Sized() && IsFrame(f) && FdMap(s)
    ensures KeepsStamps(s, Dispatch(s, f, srcfd, FdOf(f), r, r2).0)
  {
    var dstfd := FdOf(f);
    assert KeepsStamps(s, s);
    if s.Live(srcfd) && s.Live(dstfd) {
      var a, b := s.channelMap[srcfd], s.channelMap[dstfd];
      var s1 := SetPkg(s, b, CopyOf(f, s.channel[b].pkg), 0);
      SetPkgKeepsStamps(s, b, CopyOf(f, s.channel[b].pkg), 0);
      SentKeepsStamps(s, s1, a, b, f, dstfd, r, r2);
      hide CopyOf, IsFrame, FdOf, SetPkg, Drop, Stall, Resume, KeepsStamps;
    }
  }

  /** What dispatch does once the buffer is filled. */
  lemma SentKeepsStamps(s: State, s1: State, a: nat, b: nat, f: bytes, dstfd: int, r: SendResult, r2: SendResult)
    requires s.Sized() && s1.Sized() && KeepsStamps(s, s1) && a < |s1.channel| && b < |s1.channel|
    ensures KeepsStamps(s, Drop(s1, b, r2)) && KeepsStamps(s, Stall(s1, a, b, 0))
    ensures r.Took? ==> forall n :: 0 <= n <= |f| ==>
      KeepsStamps(s, Stall(s1.Out(dstfd, f[..n]), a, b, n)) && KeepsStamps(s, Resume(s1.Out(dstfd, f[..n]), a, b))
  {
    hide Drop, Stall, Resume;
    DropKeepsStamps(s1, b, r2);
    StampsCompose(s, s1, Drop(s1, b, r2));
    WatchersKeepStamps(s1, a, b, 0);
    StampsCompose(s, s1, Stall(s1, a, b, 0));
    forall n | 0 <= n <= |f|
      ensures KeepsStamps(s, Stall(s1.Out(dstfd, f[..n]), a, b, n))
      ensures KeepsStamps(s, Resume(s1.Out(dstfd, f[..n]), a, b))
    {
      var s2 := s1.Out(dstfd, f[..n]);
      StampsCompose(s, s1, s2);
      WatchersKeepStamps(s2, a, b, n);
      StampsCompose(s, s2, Stall(s2, a, b, n));
      StampsCompose(s, s2, Resume(s2, a, b));
    }
  }

  lemma RegisterStamps(s: State, f: bytes, fd: int, r: SendResult)
    requires s.Sized() && FdMap(s)
    ensures KeepsStamps(s, Register(s, f, fd, r).0)
    ensures s.Live(fd) && Signed(Le32(f, HEAD)) in {0, 1} && !r.Broken? ==> Stamped(Register(s, f, fd, r).0, fd)
  {
    var want := Signed(Le32(f, HEAD));
    if s.Live(fd) && (want == 0 || want == 1) {
      var c := s.channelMap[fd];
      var s0 := s.With(c, s.channel[c].(kind := if want == 0 then Raspi else Remote));
      var pkg := s.channel[c].pkg.(cmd := REGISTER_CLIENT_RES, fd := fd, len := 36).Put(0, 0);
      var s1 := SetPkg(s0, c, pkg, s.channel[c].sent);
      StampsIt(s, s0, fd, pkg, s.channel[c].sent, r);
      if want == 1 {
        var fds := RaspiFds(s1);
        var pkg2 := PutFds(pkg, if |fds| >= 8 then fds[..8] else fds, 0);
        StampsIt(s, s1, fd, pkg2, s.channel[c].sent, r);
      }
      hide Response, PutFds, RaspiFds, SetPkg;
    }
  }

  /** Filling the channel's buffer with an answer to itself, and sending it. */
  lemma StampsIt(s: State, s0: State, fd: int, pkg: Pkg, sent: nat, r: SendResult)
    requires s.Sized() && s0.Sized() && pkg.Sized() && KeepsStamps(s, s0) && FdMap(s0)
    requires fd in s0.channelMap && pkg.fd == fd
    ensures var s1 := SetPkg(s0, s0.channelMap[fd], pkg, sent);
      KeepsStamps(s, s1) && Stamped(s1, fd) && FdMap(s1)
      && KeepsStamps(s, Response(s1, pkg, r).0)
      && (!r.Broken? ==> Stamped(Response(s1, pkg, r).0, fd))
  {
    var s1 := SetPkg(s0, s0.channelMap[fd], pkg, sent);
    SetPkgKeepsStamps(s0, s0.channelMap[fd], pkg, sent);
    StampsCompose(s, s0, s1);
    SetPkgSameSlots(s0, s0.channelMap[fd], pkg, sent);
    SameSlotsKeepMap(s0, s1);
    assert Stamped(s1, fd);
    ResponseKeepsStamps(s1, pkg, r);
    ResponseOnPool(s1, pkg, r);
    hide Response, SetPkg;
    StampsCompose(s, s1, Response(s1, pkg, r).0);
  }

  lemma ChooseKeepsStamps(s: State, f: bytes, fd: int, r: SendResult, r2: SendResult)
    requires s.Sized() && FdMap(s)
    ensures KeepsStamps(s, Choose(s, f, fd, r, r2).0)
  {
    var raspifd := Signed(Le32(f, HEAD));
    if s.Live(fd) && s.Live(raspifd) {
      var c, k := s.channelMap[fd], s.channelMap[raspifd];
      var pkg := s.channel[c].pkg.(cmd := CHOOSE_SERVER_RES, fd := fd, len := 4).Put(0, 0);
      StampsIt(s, s, fd, pkg, s.channel[c].sent, r);
      var s0 := SetPkg(s, c, pkg, s.channel[c].sent);
      ResponseKeepsMap(s0, pkg, r);
      var s1 := Response(s0, pkg, r).0;
      var pkg2 := s1.channel[k].pkg.(cmd := START_SEND_DATA_NTF, len := 4).Put(0, fd);
      var s2 := SetPkg(s1, k, pkg2, s1.channel[k].sent);
      SetPkgKeepsStamps(s1, k, pkg2, s1.channel[k].sent);
      ResponseKeepsStamps(s2, pkg2, r2);
      hide Response, SetPkg;
      StampsCompose(s1, s2, Response(s2, pkg2, r2).0);
      StampsCompose(s, s1, Response(s2, pkg2, r2).0);
    }
  }

  lemma DeliverKeepsStamps(s: State, f: bytes, fd: int, r: SendResult, r2: SendResult)
    requires s.Sized() && IsFrame(f) && FdMap(s)
    ensures KeepsStamps(s, Deliver(s, f, fd, r, r2))
  {
    assert KeepsStamps(s, s);
    hide Register, Choose, Dispatch, IsFrame, FdOf, CmdOf, KeepsStamps, State.Sized;
    if FdOf(f) != 0 {
      DispatchKeepsStamps(s, f, fd, r, r2);
    } else if CmdOf(f) == REGISTER_CLIENT_REQ {
      RegisterStamps(s, f, fd, r);
    } else if CmdOf(f) == CHOOSE_SERVER_REQ {
      ChooseKeepsStamps(s, f, fd, r, r2);
    }
  }

  lemma ReceiveKeepsStamps(s: State, c: nat, got: ReadResult, r: SendResult, r2: SendResult)
    requires s.Sized() && Possible(s, Readable(c, got, r, r2)) && FdMap(s)
    ensures KeepsStamps(s, Receive(s, c, got, r, r2))
  {
    var x := s.channel[c];
    if got.Closed? {
      FreeKeepsStamps(s, c);
      CheckBreakKeepsStamps(FreeChannel(s, c), x.kind, x.fd, r);
      StampsCompose(s, FreeChannel(s, c), CheckBreak(FreeChannel(s, c), x.kind, x.fd, r));
    } else if got.ReadError? {
      FreeKeepsStamps(s, c);
    } else if got.Data? {
      var o := Feed(x.partial, got.chunk).0;
      if o.Bad? {
        FreeKeepsStamps(s, c);
      } else if o.Complete? {
        WholeFrame(x.partial, got.chunk);
        DeliverKeepsStamps(s, o.f, x.fd, r, r2);
      }
    }
    hide Feed, FreeChannel, CheckBreak, Deliver, IsFrame;
  }

  lemma FlushKeepsStamps(s: State, c: nat, r: SendResult, r2: SendResult)
    requires s.Sized() && Possible(s, Writable(c, r, r2))
    ensures Flush(s, c, r, r2).Some? ==> KeepsStamps(s, Flush(s, c, r, r2).value)
  {
    if r.Broken? {
      DropKeepsStamps(s, c, r2);
      hide Drop, KeepsStamps;
    } else if Flush(s, c, r, r2).Some? {
      FlushSameSlots(s, c, r, r2);
      hide Flush;
    }
  }

  lemma StepKeepsRouting(s: State, op: Op)
    requires s.Sized() && Possible(s, op) && FdMap(s) && Routed(s) && Step(s, op).Some?
    ensures Routed(Step(s, op).value)
    ensures forall fd :: Stamped(s, fd) && fd in Step(s, op).value.channelMap ==> Stamped(Step(s, op).value, fd)
  {
    match op
    case Connect(fd) =>
    case Readable(c, got, r, r2) => ReceiveKeepsStamps(s, c, got, r, r2);
    case Writable(c, r, r2) => FlushKeepsStamps(s, c, r, r2);
    hide Receive, Flush;
  }

  /** In every run the head fd in a mapped channel's send buffer is 0 or its own. */
  lemma {:induction false} EveryRunIsRouted(s: State, ops: seq<Op>)
    requires Fresh(s)
    ensures Run(s, ops).Some? ==> FdMap(Run(s, ops).value) && Routed(Run(s, ops).value)
    decreases |ops|
  {
    EveryRunKeepsFdMap(s, ops);
    if ops != [] {
      var p, op := ops[..|ops| - 1], ops[|ops| - 1];
      EveryRunIsRouted(s, p);
      var t := Run(s, p);
      if t.Some? && Possible(t.value, op) && Step(t.value, op).Some? { StepKeepsRouting(t.value, op); }
      hide Step;
    }
  }

  /** Once a connection is stamped it stays so in every run for as long as it stays in the map. */
  lemma {:induction false} StampLasts(s: State, ops: seq<Op>, fd: int)
    requires s.Sized() && FdMap(s) && Routed(s) && Stamped(s, fd)
    requires forall i :: 0 <= i <= |ops| ==> Run(s, ops[..i]).Some? && fd in Run(s, ops[..i]).value.channelMap
    ensures Run(s, ops).Some? && Stamped(Run(s, ops).value, fd)
    ensures FdMap(Run(s, ops).value) && Routed(Run(s, ops).value)
    decreases |ops|
  {
    assert ops[..|ops|] == ops;
    if ops != [] {
      var p, op := ops[..|ops| - 1], ops[|ops| - 1];
      forall i | 0 <= i <= |p| ensures Run(s, p[..i]).Some? && fd in Run(s, p[..i]).value.channelMap {
        assert p[..i] == ops[..i];
      }
      StampLasts(s, p, fd);
      var t := Run(s, p).value;
      StepKeepsMap(t, op);
      StepKeepsRouting(t, op);
      hide Step;
    }
  }
}
