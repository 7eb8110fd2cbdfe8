/** The slot pool: when the ACTIVE slots are exactly the ones the fd map leads to. */
module ServerPool {
  import opened Wire
  import opened ServerState
  import opened ServerRuns
  import Reassembly

  /** ACTIVE slots are exactly the map's values. */
  ghost predicate PoolExact(s: State)
    requires s.Sized()
  {
    forall c :: 0 <= c < CHANNEL_MAX && s.channel[c].status.Active? ==>
      s.channel[c].fd in s.channelMap && s.channelMap[s.channel[c].fd] == c
  }

  /** accept keeps the pool exact as long as the system hands out an fd that is not in the map. */
  lemma AcceptKeepsPool(s: State, fd: int)
    requires s.Sized() && FdMap(s) && PoolExact(s) && fd !in s.channelMap && Accept(s, fd).Some?
    ensures PoolExact(Accept(s, fd).value)
    ensures fd in Accept(s, fd).value.channelMap
  {
  }

  /** A connection gets the first free slot, read from and not written to, with both buffers empty and zero;
      an fd still in the map keeps its old entry; all else stays.  The slot's type and its link to a
      source stay as they were left. */
  lemma AcceptOpens(s: State, fd: int)
    requires s.Sized()
    ensures Accept(s, fd).None? <==> forall c :: 0 <= c < CHANNEL_MAX ==> s.channel[c].status.Active?
    ensures Accept(s, fd).Some? ==>
      var t, k := Accept(s, fd).value, FirstFree(s.channel);
      var x := t.channel[k];
      x.status.Active? && x.fd == fd && x.idx == k && x.reading && !x.writing && x.partial == [] && x.sent == 0
      && x.pkg.cmd == 0 && x.pkg.len == 0 && x.pkg.fd == 0 && (forall i :: 0 <= i < BUF_SIZE ==> x.pkg.body[i] == 0)
      && x.kind == s.channel[k].kind && x.src == s.channel[k].src
      && (forall c :: 0 <= c < CHANNEL_MAX && c != k ==> t.channel[c] == s.channel[c]) && t.bridgeMap == s.bridgeMap
      && (forall y :: y in t.channelMap <==> y in s.channelMap || y == fd)
      && (forall y :: y in t.channelMap ==> t.channelMap[y] == if y in s.channelMap then s.channelMap[y] else k)
      && t.wire == s.wire[fd := []]
  {
  }

  /** free_channel keeps it exactly when the slot is in use, or its old fd is not in the map: a
      second free of a slot whose fd has since been given to another connection breaks it. */
  lemma FreeKeepsPoolIff(s: State, c: nat)
    requires s.Sized() && FdMap(s) && PoolExact(s) && c < CHANNEL_MAX && s.channel[c].idx == c
    ensures PoolExact(FreeChannel(s, c)) <==> s.channel[c].status.Active? || s.channel[c].fd !in s.channelMap
  {
    var t := FreeChannel(s, c);
    var fd := s.channel[c].fd;
    if !s.channel[c].status.Active? && fd in s.channelMap {
      var k := s.channelMap[fd];
      assert t.channel[k].status.Active? && t.channel[k].fd == fd && fd !in t.channelMap;
    }
  }

  /** check_break_fd keeps it exactly when there is no bridge to break, or the bridged slot is in
      use and the notification does not fail: otherwise it revives a slot nobody can free. */
  lemma CheckBreakKeepsPoolIff(s: State, kind: ClientType, fd: int, r: SendResult)
    requires s.Sized() && FdMap(s) && PoolExact(s)
    ensures PoolExact(CheckBreak(s, kind, fd, r)) <==>
      (kind.Remote? && fd in s.bridgeMap ==> s.channel[s.bridgeMap[fd]].status.Active? && !r.Broken?)
  {
    if kind.Remote? && fd in s.bridgeMap {
      var k := s.bridgeMap[fd];
      var pkg := Empty().(fd := s.channel[k].fd, cmd := RESTART_CLIENT_NTF, len := 4).Put(0, 1);
      var t := Response(s, pkg, r).0;
      ResponseOnPool(s, pkg, r);
      var u := CheckBreak(s, kind, fd, r);
      assert u.channel == t.channel[k := t.channel[k].(status := Active)] && u.channelMap == t.channelMap;
      hide Response, CheckBreak;
      if s.channel[k].status.Active? && !r.Broken? {
        assert forall c :: 0 <= c < CHANNEL_MAX ==>
          u.channel[c].status == s.channel[c].status && u.channel[c].fd == s.channel[c].fd;
      } else {
        assert u.channel[k].status.Active? && u.channel[k].fd == s.channel[k].fd;
        assert !(u.channel[k].fd in u.channelMap && u.channelMap[u.channel[k].fd] == k);
      }
    }
  }

  // ---------------------------------------------------------------- whole runs

  /** Slots, fds and map are the same. */
  ghost predicate SamePool(s: State, t: State)
    requires s.Sized() && t.Sized()
  {
    t.channelMap == s.channelMap && t.bridgeMap == s.bridgeMap
    && forall c :: 0 <= c < CHANNEL_MAX ==>
         t.channel[c].fd == s.channel[c].fd && t.channel[c].status == s.channel[c].status
         && t.channel[c].idx == s.channel[c].idx
  }

  lemma SamePoolKeeps(s: State, t: State)
    requires s.Sized() && t.Sized() && SamePool(s, t)
    ensures FdMap(s) <==> FdMap(t)
    ensures PoolExact(s) <==> PoolExact(t)
  {
  }

  /** check_break_fd finds the bridged slot in use and can notify it, if there is a bridge at all. */
  predicate Breakable(s: State, kind: ClientType, fd: int, r: SendResult)
    requires s.Sized()
  {
    kind.Remote? && fd in s.bridgeMap ==> s.channel[s.bridgeMap[fd]].status.Active? && !r.Broken?
  }

  /** accept gets an fd that is not in use and finds a slot; the other callbacks run on a channel in
      use, and where they break a bridge its other end is in use. */
  predicate Clean(s: State, op: Op)
    requires s.Sized() && Possible(s, op)
  {
    match op
    case Connect(fd) => fd !in s.channelMap
    case Readable(c, got, r, r2) =>
      var x := s.channel[c];
      x.status.Active?
      && (got.Closed? ==> Breakable(FreeChannel(s, c), x.kind, x.fd, r))
      && (got.Data? && Reassembly.Feed(x.partial, got.chunk).0.Complete? && r.Broken? ==>
            var dst := FdOf(Reassembly.Feed(x.partial, got.chunk).0.f);
            s.Live(dst) ==> Breakable(s, s.channel[s.channelMap[dst]].kind, dst, r2))
    case Writable(c, r, r2) =>
      s.channel[c].status.Active? && (r.Broken? ==> Breakable(s, s.channel[c].kind, s.channel[c].fd, r2))
  }

  lemma ResponseKeepsPool(s: State, pkg: Pkg, r: SendResult)
    requires s.Sized() && pkg.Sized() && FdMap(s) && PoolExact(s)
    ensures FdMap(Response(s, pkg, r).0) && PoolExact(Response(s, pkg, r).0)
  {
    ResponseKeepsMap(s, pkg, r);
    ResponseOnPool(s, pkg, r);
    hide Response;
  }

  lemma FreeKeepsPool(s: State, c: nat)
    requires s.Sized() && FdMap(s) && PoolExact(s) && c < CHANNEL_MAX && s.channel[c].status.Active?
    ensures FdMap(FreeChannel(s, c)) && PoolExact(FreeChannel(s, c))
  {
    assert s.channel[c].idx == c;
    FreeKeepsMap(s, c);
    FreeKeepsPoolIff(s, c);
    hide FreeChannel;
  }

  lemma DropKeepsPool(s: State, c: nat, r: SendResult)
    requires s.Sized() && FdMap(s) && PoolExact(s) && c < CHANNEL_MAX && s.channel[c].status.Active?
    requires Breakable(s, s.channel[c].kind, s.channel[c].fd, r)
    ensures FdMap(Drop(s, c, r)) && PoolExact(Drop(s, c, r))
  {
    var x := s.channel[c];
    CheckBreakKeepsMap(s, x.kind, x.fd, r);
    CheckBreakKeepsPoolIff(s, x.kind, x.fd, r);
    CheckBreakFreesNone(s, x.kind, x.fd, r);
    hide CheckBreak, FreeChannel;
    FreeKeepsPool(CheckBreak(s, x.kind, x.fd, r), c);
  }

  lemma CheckBreakFreesNone(s: State, kind: ClientType, fd: int, r: SendResult)
    requires s.Sized() && FdMap(s) && Breakable(s, kind, fd, r)
    ensures forall c :: 0 <= c < CHANNEL_MAX && s.channel[c].status.Active? ==>
      CheckBreak(s, kind, fd, r).channel[c].status.Active?
  {
    if kind.Remote? && fd in s.bridgeMap {
      var pkg := Empty().(fd := s.channel[s.bridgeMap[fd]].fd, cmd := RESTART_CLIENT_NTF, len := 4).Put(0, 1);
      ResponseOnPool(s, pkg, r);
      hide Response;
    }
  }

  lemma SetPkgSamePool(s: State, c: nat, pkg: Pkg, sent: nat)
    requires s.Sized() && c < |s.channel| && pkg.Sized()
    ensures SamePool(s, SetPkg(s, c, pkg, sent))
  {
  }

  lemma WatchersSamePool(s: State, a: nat, b: nat, n: nat)
    requires s.Sized() && a < |s.channel| && b < |s.channel|
    ensures SamePool(s, Stall(s, a, b, n)) && SamePool(s, Resume(s, a, b))
  {
  }

  lemma DispatchKeepsPool(s: State, f: bytes, srcfd: int, r: SendResult, r2: SendResult)
    requires s.Sized() && IsFrame(f) && FdMap(s) && PoolExact(s)
    requires r.Broken? && s.Live(FdOf(f)) ==> Breakable(s, s.channel[s.channelMap[FdOf(f)]].kind, FdOf(f), r2)
    ensures PoolExact(Dispatch(s, f, srcfd, FdOf(f), r, r2).0)
  {
    var dstfd := FdOf(f);
    if s.Live(srcfd) && s.Live(dstfd) {
      var a, b := s.channelMap[srcfd], s.channelMap[dstfd];
      var s1 := SetPkg(s, b, CopyOf(f, s.channel[b].pkg), 0);
      SetPkgSamePool(s, b, CopyOf(f, s.channel[b].pkg), 0);
      SamePoolKeeps(s, s1);
      assert s1.channel[b].kind == s.channel[b].kind && s1.channel[b].fd == dstfd && s1.bridgeMap == s.bridgeMap;
      if r.Broken? {
        DropKeepsPool(s1, b, r2);
      } else if r.Again? {
        WatchersSamePool(s1, a, b, 0);
        SamePoolKeeps(s1, Stall(s1, a, b, 0));
      } else {
        var n := Cut(r.n, |f|);
        var s2 := s1.Out(dstfd, f[..n]);
        SamePoolKeeps(s1, s2);
        WatchersSamePool(s2, a, b, n);
        SamePoolKeeps(s2, Stall(s2, a, b, n));
        SamePoolKeeps(s2, Resume(s2, a, b));
      }
      hide CopyOf, IsFrame, FdOf, SetPkg, Drop, Stall, Resume, PoolExact, FdMap, SamePool;
    }
  }

  lemma RegisterKeepsPool(s: State, f: bytes, fd: int, r: SendResult)
    requires s.Sized() && FdMap(s) && PoolExact(s)
    ensures PoolExact(Register(s, f, fd, r).0)
  {
    var want := Signed(Le32(f, HEAD));
    if s.Live(fd) && (want == 0 || want == 1) {
      var c := s.channelMap[fd];
      var s0 := s.With(c, s.channel[c].(kind := if want == 0 then Raspi else Remote));
      SamePoolKeeps(s, s0);
      var pkg := s.channel[c].pkg.(cmd := REGISTER_CLIENT_RES, fd := fd, len := 36).Put(0, 0);
      var s1 := SetPkg(s0, c, pkg, s.channel[c].sent);
      SetPkgSamePool(s0, c, pkg, s.channel[c].sent);
      SamePoolKeeps(s0, s1);
      ResponseKeepsPool(s1, pkg, r);
      if want == 1 {
        var fds := RaspiFds(s1);
        var pkg2 := PutFds(pkg, if |fds| >= 8 then fds[..8] else fds, 0);
        SetPkgSamePool(s1, c, pkg2, s.channel[c].sent);
        SamePoolKeeps(s1, SetPkg(s1, c, pkg2, s.channel[c].sent));
        ResponseKeepsPool(SetPkg(s1, c, pkg2, s.channel[c].sent), pkg2, r);
      }
      hide Response, SetPkg, PutFds, RaspiFds, PoolExact, FdMap, SamePool;
    }
  }

  lemma ChooseKeepsPool(s: State, f: bytes, fd: int, r: SendResult, r2: SendResult)
    requires s.Sized() && FdMap(s) && PoolExact(s)
    ensures PoolExact(Choose(s, f, fd, r, r2).0)
  {
    var raspifd := Signed(Le32(f, HEAD));
    if s.Live(fd) && s.Live(raspifd) {
      var c, k := s.channelMap[fd], s.channelMap[raspifd];
      var pkg := s.channel[c].pkg.(cmd := CHOOSE_SERVER_RES, fd := fd, len := 4).Put(0, 0);
      var s0 := SetPkg(s, c, pkg, s.channel[c].sent);
      SetPkgSamePool(s, c, pkg, s.channel[c].sent);
      SamePoolKeeps(s, s0);
      ResponseKeepsPool(s0, pkg, r);
      var s1 := Response(s0, pkg, r).0;
      var pkg2 := s1.channel[k].pkg.(cmd := START_SEND_DATA_NTF, len := 4).Put(0, fd);
      var s2 := SetPkg(s1, k, pkg2, s1.channel[k].sent);
      SetPkgSamePool(s1, k, pkg2, s1.channel[k].sent);
      SamePoolKeeps(s1, s2);
      ResponseKeepsPool(s2, pkg2, r2);
      hide Response, SetPkg, FdMap, SamePool;
    }
  }

  lemma DeliverKeepsPool(s: State, f: bytes, fd: int, r: SendResult, r2: SendResult)
    requires s.Sized() && IsFrame(f) && FdMap(s) && PoolExact(s)
    requires r.Broken? && s.Live(FdOf(f)) ==> Breakable(s, s.channel[s.channelMap[FdOf(f)]].kind, FdOf(f), r2)
    ensures PoolExact(Deliver(s, f, fd, r, r2))
  {
    hide Register, Choose, Dispatch, IsFrame, FdOf, CmdOf, FdMap, PoolExact, State.Sized, Breakable;
    if FdOf(f) != 0 {
      DispatchKeepsPool(s, f, fd, r, r2);
    } else if CmdOf(f) == REGISTER_CLIENT_REQ {
      RegisterKeepsPool(s, f, fd, r);
    } else if CmdOf(f) == CHOOSE_SERVER_REQ {
      ChooseKeepsPool(s, f, fd, r, r2);
    }
  }

  lemma ReceiveKeepsPool(s: State, c: nat, got: ReadResult, r: SendResult, r2: SendResult)
    requires s.Sized() && Possible(s, Readable(c, got, r, r2)) && Clean(s, Readable(c, got, r, r2)) && FdMap(s)
    requires PoolExact(s)
    ensures PoolExact(Receive(s, c, got, r, r2))
  {
    var x := s.channel[c];
    FreeKeepsPool(s, c);
    if got.Closed? {
      CheckBreakKeepsPoolIff(FreeChannel(s, c), x.kind, x.fd, r);
    } else if got.Data? {
      var o := Reassembly.Feed(x.partial, got.chunk).0;
      if o.Complete? {
        WholeFrame(x.partial, got.chunk);
        DeliverKeepsPool(s, o.f, x.fd, r, r2);
        var t := Deliver(s, o.f, x.fd, r, r2);
        SamePoolKeeps(t, t.With(c, t.channel[c].(partial := [])));
        hide PoolExact, SamePool;
      } else if o.Incomplete? {
        SamePoolKeeps(s, Receive(s, c, got, r, r2));
        hide PoolExact, SamePool;
      }
    }
    hide Reassembly.Feed, FreeChannel, CheckBreak, Deliver, IsFrame, FdMap;
  }

  lemma FlushKeepsPool(s: State, c: nat, r: SendResult, r2: SendResult)
    requires s.Sized() && Possible(s, Writable(c, r, r2)) && Clean(s, Writable(c, r, r2)) && FdMap(s) && PoolExact(s)
    ensures Flush(s, c, r, r2).Some? ==> PoolExact(Flush(s, c, r, r2).value)
  {
    if r.Broken? {
      DropKeepsPool(s, c, r2);
      hide Drop, PoolExact, FdMap;
    } else if Flush(s, c, r, r2).Some? {
      FlushSamePool(s, c, r, r2);
      hide Flush, PoolExact, FdMap, SamePool;
      SamePoolKeeps(s, Flush(s, c, r, r2).value);
    }
  }

  lemma FlushSamePool(s: State, c: nat, r: SendResult, r2: SendResult)
    requires s.Sized() && Possible(s, Writable(c, r, r2)) && !r.Broken? && Flush(s, c, r, r2).Some?
    ensures SamePool(s, Flush(s, c, r, r2).value)
  {
    hide Drop, Pkg.Wire;
  }

  ghost predicate AllClean(s: State, ops: seq<Op>)
    requires s.Sized()
    decreases |ops|
  {
    ops != [] ==>
      var p, op := ops[..|ops| - 1], ops[|ops| - 1];
      AllClean(s, p)
      && (Run(s, p).Some? && Possible(Run(s, p).value, op) ==> Clean(Run(s, p).value, op))
  }

  ghost function ActiveSlots(s: State): set<int>
    requires s.Sized()
  {
    set c | 0 <= c < CHANNEL_MAX && s.channel[c].status.Active?
  }

  ghost function MappedSlots(s: State): set<int> {
    set fd | fd in s.channelMap :: s.channelMap[fd]
  }

  lemma ActiveAreMapped(s: State)
    requires s.Sized() && FdMap(s) && PoolExact(s)
    ensures ActiveSlots(s) == MappedSlots(s)
  {
    forall c | c in ActiveSlots(s) ensures c in MappedSlots(s) {
      assert s.channelMap[s.channel[c].fd] == c;
    }
  }

  /** Along every run, each step being clean, the ACTIVE slots are exactly the map's values. */
  lemma {:induction false} EveryCleanRunKeepsPool(s: State, ops: seq<Op>)
    requires Fresh(s) && AllClean(s, ops)
    ensures Run(s, ops).Some? ==>
      var t := Run(s, ops).value;
      FdMap(t) && PoolExact(t) && ActiveSlots(t) == MappedSlots(t)
    decreases |ops|
  {
    EveryRunKeepsFdMap(s, ops);
    if Run(s, ops).Some? && ops == [] { ActiveAreMapped(s); }
    if ops != [] {
      var p, op := ops[..|ops| - 1], ops[|ops| - 1];
      EveryCleanRunKeepsPool(s, p);
      var t := Run(s, p);
      if t.Some? && Possible(t.value, op) && Step(t.value, op).Some? {
        StepKeepsPool(t.value, op);
        ActiveAreMapped(Step(t.value, op).value);
      }
      hide Step, Clean, FdMap, PoolExact, ActiveSlots, MappedSlots;
    }
  }

  lemma StepKeepsPool(s: State, op: Op)
    requires s.Sized() && FdMap(s) && PoolExact(s) && Possible(s, op) && Clean(s, op) && Step(s, op).Some?
    ensures PoolExact(Step(s, op).value)
  {
    match op
    case Connect(fd) => AcceptKeepsPool(s, fd);
    case Readable(c, got, r, r2) => ReceiveKeepsPool(s, c, got, r, r2);
    case Writable(c, r, r2) => FlushKeepsPool(s, c, r, r2);
    hide Receive, Flush, Accept, Clean, FdMap, PoolExact;
  }
}
