/** Registration over whole runs: what a slot's type says of the connection in it, and when a remote
    is told exactly the registered raspis. */
module Registrations {
  import opened Common
  import opened Wire
  import opened ServerState
  import opened ServerRuns
  import opened Notifications
  import opened Roster
  import Reassembly

  // ---------------------------------------------------------------- registrations in a run

  /** The connection and the type of the registration a callback handles, if it does. */
  function Handled(t: State, op: Op): Option<(int, ClientType)>
    requires t.Sized() && Possible(t, op)
  {
    if !op.Readable? || !op.got.Data? then None else
      var x := t.channel[op.c];
      var o := Reassembly.Feed(x.partial, op.got.chunk).0;
      if !o.Complete? || |o.f| < HEAD || FdOf(o.f) != 0 then None else
      if CmdOf(o.f) != REGISTER_CLIENT_REQ || !t.Live(x.fd) then None else
        var want := Signed(Le32(o.f, HEAD));
        if want == 0 then Some((x.fd, Raspi)) else if want == 1 then Some((x.fd, Remote)) else None
  }

  /** A new connection is not registered; a handled registration counts until then. */
  function RegisteredAfter(reg: map<int, ClientType>, t: State, op: Op): map<int, ClientType>
    requires t.Sized() && Possible(t, op)
  {
    if op.Connect? then reg - {op.fd} else
      var h := Handled(t, op);
      if h.Some? then reg[h.value.0 := h.value.1] else reg
  }

  /** The last registration of each fd since it was connected. */
  function Registered(s: State, ops: seq<Op>): map<int, ClientType>
    requires s.Sized()
    decreases |ops|
  {
    if ops == [] then map[] else
      var p, op := ops[..|ops| - 1], ops[|ops| - 1];
      var t := Run(s, p);
      if t.Some? && Possible(t.value, op) then RegisteredAfter(Registered(s, p), t.value, op) else Registered(s, p)
  }

  // ---------------------------------------------------------------- who changes a slot's type

  ghost predicate SameKinds(s: State, t: State)
    requires s.Sized() && t.Sized()
  {
    forall c :: 0 <= c < CHANNEL_MAX ==> t.channel[c].kind == s.channel[c].kind
  }

  lemma ResponseKeepsKinds(s: State, pkg: Pkg, r: SendResult)
    requires s.Sized() && pkg.Sized()
    ensures SameKinds(s, Response(s, pkg, r).0)
  {
    hide Pkg.Wire;
  }

  lemma CheckBreakKeepsKinds(s: State, kind: ClientType, fd: int, r: SendResult)
    requires s.Sized()
    ensures SameKinds(s, CheckBreak(s, kind, fd, r))
  {
    if kind.Remote? && fd in s.bridgeMap {
      var pkg := Empty().(fd := s.channel[s.bridgeMap[fd]].fd, cmd := RESTART_CLIENT_NTF, len := 4).Put(0, 1);
      ResponseKeepsKinds(s, pkg, r);
      hide Response;
    }
  }

  lemma DropKeepsKinds(s: State, c: nat, r: SendResult)
    requires s.Sized() && c < |s.channel|
    ensures SameKinds(s, Drop(s, c, r))
  {
    CheckBreakKeepsKinds(s, s.channel[c].kind, s.channel[c].fd, r);
    hide CheckBreak;
  }

  lemma DispatchKeepsKinds(s: State, f: bytes, srcfd: int, dstfd: int, r: SendResult, r2: SendResult)
    requires s.Sized() && IsFrame(f)
    ensures SameKinds(s, Dispatch(s, f, srcfd, dstfd, r, r2).0)
  {
    if s.Live(srcfd) && s.Live(dstfd) {
      var a, b := s.channelMap[srcfd], s.channelMap[dstfd];
      var s1 := SetPkg(s, b, CopyOf(f, s.channel[b].pkg), 0);
      assert SameKinds(s, s1);
      hide CopyOf, IsFrame, Drop, Stall, Resume, SetPkg;
      match r
      case Broken => DropKeepsKinds(s1, b, r2);
      case Again => WatchersKeepKinds(s1, a, b, 0);
      case Took(n0) => WatchersKeepKinds(s1.Out(dstfd, f[..Cut(n0, |f|)]), a, b, Cut(n0, |f|));
    }
  }

  lemma WatchersKeepKinds(s: State, a: nat, b: nat, n: nat)
    requires s.Sized() && a < |s.channel| && b < |s.channel|
    ensures SameKinds(s, Stall(s, a, b, n)) && SameKinds(s, Resume(s, a, b))
  {
  }

  lemma ChooseKeepsKinds(s: State, f: bytes, fd: int, r: SendResult, r2: SendResult)
    requires s.Sized()
    ensures SameKinds(s, Choose(s, f, fd, r, r2).0)
  {
    var raspifd := Signed(Le32(f, HEAD));
    if s.Live(fd) && s.Live(raspifd) {
      ChoiceIs(s, f, fd, r, r2);
      AnswersKeepKinds(s, fd, s.channelMap[raspifd], r, r2);
      hide Choose, FirstAnswer, SecondAnswer, Le32, Signed;
    }
  }

  lemma AnswersKeepKinds(s: State, fd: int, k: nat, r: SendResult, r2: SendResult)
    requires s.Sized() && s.Live(fd) && k < |s.channel|
    ensures SameKinds(s, SecondAnswer(FirstAnswer(s, fd, r), fd, k, r2))
  {
    var c := s.channelMap[fd];
    var pkg := s.channel[c].pkg.(cmd := CHOOSE_SERVER_RES, fd := fd, len := 4).Put(0, 0);
    var s1 := FirstAnswer(s, fd, r);
    var pkg2 := s1.channel[k].pkg.(cmd := START_SEND_DATA_NTF, len := 4).Put(0, fd);
    ResponseKeepsKinds(SetPkg(s, c, pkg, s.channel[c].sent), pkg, r);
    ResponseKeepsKinds(SetPkg(s1, k, pkg2, s1.channel[k].sent), pkg2, r2);
    hide Response, Pkg.Put;
  }

  /** A registration sets the type of its own slot, and no other. */
  lemma RegisterSetsKind(s: State, f: bytes, fd: int, r: SendResult)
    requires s.Sized()
    ensures var t, want := Register(s, f, fd, r).0, Signed(Le32(f, HEAD));
      if s.Live(fd) && want in {0, 1}
      then SameKinds(SetKind(s, s.channelMap[fd], if want == 0 then Raspi else Remote), t) else t == s
  {
    var want := Signed(Le32(f, HEAD));
    if s.Live(fd) && (want == 0 || want == 1) {
      TypedKeepKinds(s, s.channelMap[fd], fd, if want == 0 then Raspi else Remote, r);
      hide Response, PutFds, RaspiFds, Pkg.Put, Le32, Signed, SameKinds;
    }
  }

  function SetKind(s: State, c: nat, kind: ClientType): (t: State)
    requires s.Sized() && c < |s.channel|
    ensures t.Sized()
  {
    s.With(c, s.channel[c].(kind := kind))
  }

  lemma TypedKeepKinds(s: State, c: nat, fd: int, kind: ClientType, r: SendResult)
    requires s.Sized() && c < |s.channel|
    ensures var s0 := SetKind(s, c, kind);
      var pkg := s.channel[c].pkg.(cmd := REGISTER_CLIENT_RES, fd := fd, len := 36).Put(0, 0);
      var s1 := SetPkg(s0, c, pkg, s.channel[c].sent);
      var fds := RaspiFds(s1);
      var pkg2 := PutFds(pkg, if |fds| >= 8 then fds[..8] else fds, 0);
      var s2 := SetPkg(s1, c, pkg2, s.channel[c].sent);
      SameKinds(s0, Response(s1, pkg, r).0) && SameKinds(s0, s2) && SameKinds(s0, Response(s2, pkg2, r).0)
  {
    hide Response, PutFds, RaspiFds, Pkg.Put, SetKind;
    var s0 := SetKind(s, c, kind);
    var pkg := s.channel[c].pkg.(cmd := REGISTER_CLIENT_RES, fd := fd, len := 36).Put(0, 0);
    assert |s0.channel| == |s.channel|;
    var s1 := SetPkg(s0, c, pkg, s.channel[c].sent);
    var fds := RaspiFds(s1);
    var pkg2 := PutFds(pkg, if |fds| >= 8 then fds[..8] else fds, 0);
    ResponseKeepsKinds(s1, pkg, r);
    ResponseKeepsKinds(SetPkg(s1, c, pkg2, s.channel[c].sent), pkg2, r);
  }

  // ---------------------------------------------------------------- every run

  /** A registered connection in the map is in a slot of the type it registered. */
  ghost predicate KindsMatch(t: State, reg: map<int, ClientType>)
    requires t.Sized()
  {
    forall fd :: fd in reg && fd in t.channelMap ==> t.channel[t.channelMap[fd]].kind == reg[fd]
  }

  lemma SameKindsMatch(s: State, t: State, reg: map<int, ClientType>)
    requires s.Sized() && t.Sized() && KindsMatch(s, reg) && SameKinds(s, t) && KeepsStamps(s, t)
    ensures KindsMatch(t, reg)
  {
  }

  lemma ConnectMatches(s: State, fd: int, reg: map<int, ClientType>)
    requires s.Sized() && KindsMatch(s, reg) && Accept(s, fd).Some?
    ensures KindsMatch(Accept(s, fd).value, reg - {fd})
  {
    hide Empty;
  }

  lemma RegisterMatches(s: State, f: bytes, fd: int, r: SendResult, reg: map<int, ClientType>)
    requires s.Sized() && FdMap(s) && KindsMatch(s, reg)
    ensures var want := Signed(Le32(f, HEAD));
      KindsMatch(Register(s, f, fd, r).0,
                 if s.Live(fd) && want in {0, 1} then reg[fd := if want == 0 then Raspi else Remote] else reg)
  {
    RegisterSetsKind(s, f, fd, r);
    RegisterStamps(s, f, fd, r);
    assert KeepsStamps(s, s);
    hide Register, Le32, Signed;
  }

  lemma DeliverMatches(s: State, f: bytes, fd: int, r: SendResult, r2: SendResult, reg: map<int, ClientType>)
    requires s.Sized() && FdMap(s) && IsFrame(f) && KindsMatch(s, reg)
    ensures var want := Signed(Le32(f, HEAD));
      KindsMatch(Deliver(s, f, fd, r, r2),
                 if FdOf(f) == 0 && CmdOf(f) == REGISTER_CLIENT_REQ && s.Live(fd) && want in {0, 1}
                 then reg[fd := if want == 0 then Raspi else Remote] else reg)
  {
    hide Register, Choose, Dispatch, IsFrame, FdOf, CmdOf, Le32, Signed, KindsMatch, SameKinds, KeepsStamps, FdMap;
    if FdOf(f) != 0 {
      DispatchKeepsKinds(s, f, fd, FdOf(f), r, r2);
      DispatchKeepsStamps(s, f, fd, r, r2);
      SameKindsMatch(s, Dispatch(s, f, fd, FdOf(f), r, r2).0, reg);
    } else if CmdOf(f) == REGISTER_CLIENT_REQ {
      RegisterMatches(s, f, fd, r, reg);
    } else if CmdOf(f) == CHOOSE_SERVER_REQ {
      ChooseKeepsKinds(s, f, fd, r, r2);
      ChooseKeepsStamps(s, f, fd, r, r2);
      SameKindsMatch(s, Choose(s, f, fd, r, r2).0, reg);
    }
  }

  lemma ReceiveMatches(s: State, c: nat, got: ReadResult, r: SendResult, r2: SendResult, reg: map<int, ClientType>)
    requires s.Sized() && FdMap(s) && Possible(s, Readable(c, got, r, r2)) && KindsMatch(s, reg)
    ensures KindsMatch(Receive(s, c, got, r, r2), RegisteredAfter(reg, s, Readable(c, got, r, r2)))
  {
    var x := s.channel[c];
    if got.Closed? {
      FreeKeepsStamps(s, c);
      CheckBreakKeepsKinds(FreeChannel(s, c), x.kind, x.fd, r);
      CheckBreakKeepsStamps(FreeChannel(s, c), x.kind, x.fd, r);
      assert SameKinds(s, FreeChannel(s, c));
      hide FreeChannel, CheckBreak;
      SameKindsMatch(s, FreeChannel(s, c), reg);
      SameKindsMatch(FreeChannel(s, c), CheckBreak(FreeChannel(s, c), x.kind, x.fd, r), reg);
    } else if got.ReadError? {
      FreeKeepsStamps(s, c);
    } else if got.Data? {
      DataMatches(s, c, got.chunk, r, r2, reg);
      hide Receive, RegisteredAfter;
    }
  }

  lemma DataMatches(s: State, c: nat, chunk: bytes, r: SendResult, r2: SendResult, reg: map<int, ClientType>)
    requires s.Sized() && FdMap(s) && Possible(s, Readable(c, Data(chunk), r, r2)) && KindsMatch(s, reg)
    ensures KindsMatch(Receive(s, c, Data(chunk), r, r2), RegisteredAfter(reg, s, Readable(c, Data(chunk), r, r2)))
  {
    var x := s.channel[c];
    var o := Reassembly.Feed(x.partial, chunk).0;
    hide Reassembly.Feed, Deliver, FdOf, CmdOf, Le32, Signed, FdMap;
    if o.Bad? {
      FreeKeepsStamps(s, c);
    } else if o.Complete? {
      WholeFrame(x.partial, chunk);
      assert |o.f| >= HEAD;
      hide IsFrame;
      DeliverMatches(s, o.f, x.fd, r, r2, reg);
    }
  }

  lemma FlushMatches(s: State, c: nat, r: SendResult, r2: SendResult, reg: map<int, ClientType>)
    requires s.Sized() && FdMap(s) && Possible(s, Writable(c, r, r2)) && KindsMatch(s, reg)
    ensures Flush(s, c, r, r2).Some? ==> KindsMatch(Flush(s, c, r, r2).value, reg)
  {
    if Flush(s, c, r, r2).Some? {
      FlushKeepsStamps(s, c, r, r2);
      FlushKeepsKinds(s, c, r, r2);
      hide Flush;
      SameKindsMatch(s, Flush(s, c, r, r2).value, reg);
    }
  }

  lemma FlushKeepsKinds(s: State, c: nat, r: SendResult, r2: SendResult)
    requires s.Sized() && Possible(s, Writable(c, r, r2)) && Flush(s, c, r, r2).Some?
    ensures SameKinds(s, Flush(s, c, r, r2).value)
  {
    if r.Broken? { DropKeepsKinds(s, c, r2); }
    hide Drop, Pkg.Wire;
  }

  lemma StepMatches(s: State, op: Op, reg: map<int, ClientType>)
    requires s.Sized() && FdMap(s) && Possible(s, op) && Step(s, op).Some? && KindsMatch(s, reg)
    ensures KindsMatch(Step(s, op).value, RegisteredAfter(reg, s, op))
  {
    match op
    case Connect(fd) => ConnectMatches(s, fd, reg);
    case Readable(c, got, r, r2) => ReceiveMatches(s, c, got, r, r2, reg);
    case Writable(c, r, r2) => FlushMatches(s, c, r, r2, reg);
    hide Accept, Receive, Flush, Dangles, KindsMatch, Handled;
  }

  /** In every run a registered connection stays in a slot of the type it last registered. */
  lemma {:induction false} EveryRunKeepsRegistrations(s: State, ops: seq<Op>)
    requires Fresh(s)
    ensures Run(s, ops).Some? ==> KindsMatch(Run(s, ops).value, Registered(s, ops))
    decreases |ops|
  {
    if ops != [] {
      var p, op := ops[..|ops| - 1], ops[|ops| - 1];
      EveryRunKeepsRegistrations(s, p);
      EveryRunKeepsFdMap(s, p);
      var t := Run(s, p);
      if t.Some? && Possible(t.value, op) && Step(t.value, op).Some? { StepMatches(t.value, op, Registered(s, p)); }
      hide Step, KindsMatch, FdMap;
    }
  }

  // ---------------------------------------------------------------- what a remote is told

  /** A connection in the map that is registered as a raspi. */
  predicate RegisteredRaspi(t: State, reg: map<int, ClientType>, x: int)
    requires t.Sized()
  {
    t.Live(x) && x in reg && reg[x] == Raspi
  }

  /** No other connection sits unregistered in a slot of type RASPI. */
  ghost predicate NoneUnregistered(t: State, reg: map<int, ClientType>, fd: int)
    requires t.Sized()
  {
    forall x :: x != fd && TypedRaspi(t, x) ==> x in reg
  }

  lemma SameIncreasing(s: seq<int>, t: seq<int>)
    requires Increasing(s) && Increasing(t) && forall x :: x in s ==> x in t
    ensures |s| <= |t| && ((forall x :: x in t ==> x in s) <==> |s| == |t|) && (|s| == |t| ==> s == t)
  {
    IncreasingDistinct(s);
    IncreasingDistinct(t);
    hide Increasing;
    SameElements(s, t);
    if |s| == |t| { SameSets(s, t); }
  }

  lemma SameElements(s: seq<int>, t: seq<int>)
    requires Distinct(s) && Distinct(t) && forall x :: x in s ==> x in t
    ensures |s| <= |t| && ((forall x :: x in t ==> x in s) <==> |s| == |t|)
  {
    var a: set<int>, b: set<int> := set x | x in s, set x | x in t;
    DistinctCard(s);
    DistinctCard(t);
    assert |a| == |s| && |b| == |t|;
    hide Distinct;
    assert a <= b by { assert forall x :: x in a ==> x in b; }
    SubsetCard(a, b);
    if forall x :: x in t ==> x in s { SubsetCard(b, a); }
    if |s| == |t| {
      assert b == a + (b - a) && |b - a| == 0;
      assert forall x :: x in t ==> x in b && x in a;
    }
  }

  lemma IncreasingDistinct(s: seq<int>)
    requires Increasing(s)
    ensures Distinct(s)
  {
  }

  lemma {:induction false} SameSets(s: seq<int>, t: seq<int>)
    requires Increasing(s) && Increasing(t) && |s| == |t| && forall x :: x in s <==> x in t
    ensures s == t
    decreases |s|
  {
    if s != [] {
      assert s[0] in t && t[0] in s;
      assert s[0] == t[0];
      forall x ensures x in s[1..] <==> x in t[1..] {
        assert x in s <==> x == s[0] || x in s[1..];
        assert x in t <==> x == t[0] || x in t[1..];
      }
      SameSets(s[1..], t[1..]);
    }
  }

  /** In every run: a remote that registers and is answered reads exactly the other registered raspis,
      in increasing order, if and only if no other connection sits unregistered in a slot of type
      RASPI and the entry behind the list was zero in its send buffer before. */
  lemma RemoteLearnsTheRaspisIff(s: State, ops: seq<Op>, t: State, f: bytes, fd: int, r: SendResult, raspis: seq<int>)
    requires Fresh(s) && Run(s, ops) == Some(t) && FdsAre32Bits(t) && t.Live(fd) && Signed(Le32(f, HEAD)) == 1
    requires Increasing(raspis) && forall x :: x in raspis <==> x != fd && RegisteredRaspi(t, Registered(s, ops), x)
    requires |RaspiFds(AsRemote(t, fd))| < 8
    ensures ReadList(BodyOf(AnswerTo(t, fd).Wire()), 0) == raspis <==>
      NoneUnregistered(t, Registered(s, ops), fd) && Slot(t.channel[t.channelMap[fd]].pkg.body, |raspis|) == 0
  {
    var reg, fds := Registered(s, ops), RaspiFds(AsRemote(t, fd));
    EveryRunKeepsFdMap(s, ops);
    EveryRunKeepsRegistrations(s, ops);
    RemoteReadsTheRoster(t, f, fd, r);
    hide Run, Registered, Register, RaspiFds, AsRemote, AnswerTo, FdMap, Slot, ReadList, Pkg.Wire, Le32, Signed,
      Increasing;
    forall x ensures RegisteredRaspi(t, reg, x) <==> TypedRaspi(t, x) && x in reg { }
    SameIncreasing(raspis, fds);
    if NoneUnregistered(t, reg, fd) {
      assert forall x :: x in fds ==> x in raspis;
    }
  }
}
