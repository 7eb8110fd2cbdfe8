/** Runs that lead the server where its bookkeeping fails: from a fresh state, every callback running
    on a started watcher. */
module Departures {
  import opened Common
  import opened Wire
  import opened ServerState
  import opened ServerRuns
  import opened ServerPool
  import opened Notifications
  import opened Relay
  import opened FlowSetup
  import Reassembly
  import Roster
  import Registrations

  /** The watcher whose callback runs is started. */
  predicate Started(s: State, op: Op)
    requires s.Sized() && Possible(s, op)
  {
    match op
    case Connect(_) => true
    case Readable(c, _, _, _) => s.channel[c].reading
    case Writable(c, _, _) => s.channel[c].writing
  }

  /** `ops` is a run from `s` to `t` of callbacks on started watchers. */
  ghost predicate Leads(s: State, ops: seq<Op>, t: State)
    requires s.Sized()
    decreases |ops|
  {
    Run(s, ops) == Some(t)
    && (ops != [] ==>
          var p, op := ops[..|ops| - 1], ops[|ops| - 1];
          Run(s, p).Some? && Leads(s, p, Run(s, p).value) && Possible(Run(s, p).value, op)
          && Started(Run(s, p).value, op))
  }

  lemma LeadsOn(s: State, ops: seq<Op>, t: State, op: Op, u: State)
    requires s.Sized() && t.Sized() && Leads(s, ops, t) && Possible(t, op) && Started(t, op) && Step(t, op) == Some(u)
    ensures Leads(s, ops + [op], u)
  {
    RunOn(s, ops, t, op, u);
    assert (ops + [op])[..|ops|] == ops && (ops + [op])[|ops|] == op;
    hide Run, Step, Started;
  }

  lemma RunOn(s: State, ops: seq<Op>, t: State, op: Op, u: State)
    requires s.Sized() && t.Sized() && Run(s, ops) == Some(t) && Possible(t, op) && Step(t, op) == Some(u)
    ensures Run(s, ops + [op]) == Some(u)
  {
    assert (ops + [op])[..|ops|] == ops && (ops + [op])[|ops|] == op;
    hide Step;
  }

  // ---------------------------------------------------------------- single steps

  /** Slot `c` serves `fd`, is read, and is in between packets. */
  predicate Open(s: State, c: nat, fd: int)
    requires s.Sized()
  {
    c < |s.channel| && fd in s.channelMap && s.channelMap[fd] == c
    && var x := s.channel[c]; x.status.Active? && x.fd == fd && x.idx == c && x.partial == [] && x.reading
  }

  /** The slot after accept_cb. */
  function Accepted(x: Channel, k: nat, fd: int): Channel {
    x.(status := Active, idx := k, partial := [], pkg := Empty(), sent := 0, fd := fd,
       reading := true, writing := false)
  }

  lemma Connects(s: State, fd: int, k: nat)
    requires s.Sized() && fd > 0 && fd !in s.channelMap && k < |s.channel| && s.channel[k].status.NonActive?
    requires forall j :: 0 <= j < k ==> s.channel[j].status.Active?
    ensures Step(s, Connect(fd)) ==
      Some(s.With(k, Accepted(s.channel[k], k, fd)).(channelMap := s.channelMap[fd := k], wire := s.wire[fd := []]))
  {
    FirstFreeIs(s.channel, k);
    hide Empty, FirstFree;
  }

  /** A packet without a body for `fd`; `cmd` tells them apart. */
  function Ping(cmd: int, fd: int): bytes {
    Encode(Packet(cmd, fd, []))
  }

  lemma PingIsFrame(cmd: int, fd: int)
    requires 0 <= cmd < TWO32 && 0 < fd < 0x8000_0000
    ensures var f := Ping(cmd, fd);
      |f| == HEAD && IsFrame(f) && FdOf(f) == fd && Reassembly.Need([]) == HEAD
      && Reassembly.Feed([], f) == (Reassembly.Complete(f), [])
  {
    EncodeDecode(Packet(cmd, fd, []));
    var f := Ping(cmd, fd);
    assert FdOf(f) == Decode(f).fd && [] + f == f;
    hide Encode, Decode, Signed;
  }

  /** A packet that the socket of its destination does not take. */
  lemma Stalls(s: State, a: nat, afd: int, b: nat, bfd: int, cmd: int)
    requires s.Sized() && Open(s, a, afd) && a != b && b < |s.channel| && s.Live(bfd) && s.channelMap[bfd] == b
    requires 0 <= cmd < TWO32 && 0 < bfd < 0x8000_0000
    ensures var op := Readable(a, Data(Ping(cmd, bfd)), Again, Again);
      Possible(s, op) && Step(s, op).Some?
      && var t := Step(s, op).value;
         t.channelMap == s.channelMap && t.bridgeMap == s.bridgeMap && t.wire == s.wire
         && t.channel[a] == s.channel[a].(reading := false, partial := [])
         && t.channel[b] == s.channel[b].(pkg := t.channel[b].pkg, sent := 0, writing := true, src := Some(a))
         && t.channel[b].pkg.Wire() == Ping(cmd, bfd)
         && forall c :: 0 <= c < CHANNEL_MAX && c != a && c != b ==> t.channel[c] == s.channel[c]
  {
    PingIsFrame(cmd, bfd);
    ReadWhole(s, a, Ping(cmd, bfd), Again, Again);
    StallsOn(s, Ping(cmd, bfd), a, afd, b, bfd);
    hide Ping, IsFrame, FdOf, Reassembly.Feed, Reassembly.Need, Dispatch, Receive, Pkg.Wire;
  }

  lemma StallsOn(s: State, f: bytes, a: nat, afd: int, b: nat, bfd: int)
    requires s.Sized() && Open(s, a, afd) && a != b && b < |s.channel| && s.Live(bfd) && s.channelMap[bfd] == b
    requires IsFrame(f)
    ensures var t := Dispatch(s, f, afd, bfd, Again, Again).0;
      t.channelMap == s.channelMap && t.bridgeMap == s.bridgeMap && t.wire == s.wire
      && t.channel[a] == s.channel[a].(reading := false)
      && t.channel[b] == s.channel[b].(pkg := t.channel[b].pkg, sent := 0, writing := true, src := Some(a))
      && t.channel[b].pkg.Wire() == f
      && forall c :: 0 <= c < CHANNEL_MAX && c != a && c != b ==> t.channel[c] == s.channel[c]
  {
    CopyIsFaithful(f, s.channel[b].pkg);
    hide IsFrame, FdOf, CopyOf, Pkg.Wire, Drop, Resume;
  }

  /** A packet whose destination's connection turns out to be broken, no bridge being left. */
  lemma Breaks(s: State, a: nat, afd: int, b: nat, bfd: int, cmd: int)
    requires s.Sized() && Open(s, a, afd) && a != b && b < |s.channel| && s.Live(bfd) && s.channelMap[bfd] == b
    requires s.channel[b].fd == bfd && s.channel[b].idx == b && s.bridgeMap == map[]
    requires 0 <= cmd < TWO32 && 0 < bfd < 0x8000_0000
    ensures var op := Readable(a, Data(Ping(cmd, bfd)), Broken, Again);
      Possible(s, op) && Step(s, op).Some?
      && var t := Step(s, op).value;
         t.channelMap == s.channelMap - {bfd} && t.bridgeMap == map[] && t.channel[a] == s.channel[a]
         && t.channel[b] == s.channel[b].(pkg := t.channel[b].pkg, status := NonActive, partial := [], sent := 0,
                                          reading := false, writing := false)
         && forall c :: 0 <= c < CHANNEL_MAX && c != a && c != b ==> t.channel[c] == s.channel[c]
  {
    PingIsFrame(cmd, bfd);
    ReadWhole(s, a, Ping(cmd, bfd), Broken, Again);
    BreaksOn(s, Ping(cmd, bfd), a, afd, b, bfd);
    hide Ping, IsFrame, FdOf, Reassembly.Feed, Reassembly.Need, Dispatch, Receive;
  }

  lemma BreaksOn(s: State, f: bytes, a: nat, afd: int, b: nat, bfd: int)
    requires s.Sized() && Open(s, a, afd) && a != b && b < |s.channel| && s.Live(bfd) && s.channelMap[bfd] == b
    requires IsFrame(f)
    requires s.channel[b].fd == bfd && s.channel[b].idx == b && s.bridgeMap == map[]
    ensures var t := Dispatch(s, f, afd, bfd, Broken, Again).0;
      t.channelMap == s.channelMap - {bfd} && t.bridgeMap == map[] && t.channel[a] == s.channel[a]
      && t.channel[b] == Freed(s.channel[b].(pkg := t.channel[b].pkg))
      && forall c :: 0 <= c < CHANNEL_MAX && c != a && c != b ==> t.channel[c] == s.channel[c]
  {
    hide IsFrame, FdOf, CopyOf, Pkg.Wire, Stall, Resume, Response;
  }

  /** A packet that the socket of its destination takes whole. */
  lemma Passes(s: State, a: nat, afd: int, b: nat, bfd: int, cmd: int)
    requires s.Sized() && Open(s, a, afd) && a != b && Open(s, b, bfd)
    requires 0 <= cmd < TWO32 && 0 < bfd < 0x8000_0000
    ensures var op := Readable(a, Data(Ping(cmd, bfd)), Took(PKG), Again);
      Possible(s, op) && Step(s, op).Some?
      && var t := Step(s, op).value;
         t.channelMap == s.channelMap && t.bridgeMap == s.bridgeMap && Open(t, a, afd) && Open(t, b, bfd)
         && t.channel[b].pkg.fd == bfd && (forall x :: x != bfd ==> Sent(t, x) == Sent(s, x))
         && forall c :: 0 <= c < CHANNEL_MAX && c != a && c != b ==> t.channel[c] == s.channel[c]
  {
    PingIsFrame(cmd, bfd);
    ReadWhole(s, a, Ping(cmd, bfd), Took(PKG), Again);
    PassesOn(s, Ping(cmd, bfd), a, afd, b, bfd);
    hide Ping, IsFrame, FdOf, Reassembly.Feed, Reassembly.Need, Dispatch, Receive, Sent;
    var u := Dispatch(s, Ping(cmd, bfd), afd, bfd, Took(PKG), Again).0;
    assert forall x :: Sent(u.With(a, u.channel[a].(partial := [])), x) == Sent(u, x) by { HoldingKeeps(u, a, []); }
  }

  lemma PassesOn(s: State, f: bytes, a: nat, afd: int, b: nat, bfd: int)
    requires s.Sized() && Open(s, a, afd) && a != b && Open(s, b, bfd) && IsFrame(f) && FdOf(f) == bfd
    ensures var t := Dispatch(s, f, afd, bfd, Took(PKG), Again).0;
      t.channelMap == s.channelMap && t.bridgeMap == s.bridgeMap && (forall x :: x != bfd ==> Sent(t, x) == Sent(s, x))
      && t.channel[a] == s.channel[a]
      && t.channel[b] == s.channel[b].(pkg := t.channel[b].pkg, sent := 0, writing := false)
      && t.channel[b].pkg.fd == bfd
      && forall c :: 0 <= c < CHANNEL_MAX && c != a && c != b ==> t.channel[c] == s.channel[c]
  {
    assert |f| <= PKG;
    hide IsFrame, FdOf, CopyOf, Pkg.Wire, Drop, Stall;
  }

  /** The slot after free_channel. */
  function Freed(x: Channel): Channel {
    x.(status := NonActive, partial := [], sent := 0, reading := false, writing := false)
  }

  lemma Closes(s: State, c: nat, r: SendResult)
    requires s.Sized() && c < |s.channel| && s.channel[c].idx == c && s.channel[c].fd !in s.bridgeMap
    ensures Step(s, Readable(c, Closed, r, r)) ==
      Some(s.With(c, Freed(s.channel[c])).(channelMap := s.channelMap - {s.channel[c].fd}))
  {
  }

  /** A read error frees the channel. */
  lemma Fails(s: State, c: nat)
    requires s.Sized() && c < |s.channel| && s.channel[c].idx == c
    ensures Step(s, Readable(c, ReadError, Again, Again)) ==
      Some(s.With(c, Freed(s.channel[c])).(channelMap := s.channelMap - {s.channel[c].fd}))
  {
  }

  /** The state with `p` in the receive buffer of slot `c`. */
  function Holding(u: State, c: nat, p: bytes): (v: State)
    requires u.Sized() && c < |u.channel|
    ensures v.Sized()
  {
    u.With(c, u.channel[c].(partial := p))
  }

  lemma HoldingKeeps(u: State, c: nat, p: bytes)
    requires u.Sized() && c < |u.channel|
    ensures var v := Holding(u, c, p);
      v.channelMap == u.channelMap && v.bridgeMap == u.bridgeMap
      && (forall fd :: Sent(v, fd) == Sent(u, fd) && (v.Live(fd) <==> u.Live(fd)))
      && (FdMap(u) ==> FdMap(v)) && (Routed(u) ==> Routed(v)) && (forall fd :: Stamped(u, fd) ==> Stamped(v, fd))
      && v.channel[c].partial == p && v.channel[c].fd == u.channel[c].fd && v.channel[c].reading == u.channel[c].reading
  {
  }

  /** A request to the server with one number in its body, read in two pieces. */
  function Request(cmd: int, x: int): bytes {
    Encode(Packet(cmd, 0, Bytes32(x)))
  }

  lemma RequestIsFrame(cmd: int, x: int)
    requires 0 <= cmd < TWO32 && 0 <= x < 0x8000_0000
    ensures var f := Request(cmd, x);
      |f| == HEAD + 4 && IsFrame(f) && FdOf(f) == 0 && CmdOf(f) == cmd && Signed(Le32(f, HEAD)) == x
      && Reassembly.Need([]) == HEAD && Reassembly.Feed([], f[..HEAD]) == (Reassembly.Incomplete, f[..HEAD])
      && Reassembly.Need(f[..HEAD]) == 4 && Reassembly.Feed(f[..HEAD], f[HEAD..]) == (Reassembly.Complete(f), [])
  {
    var f := Request(cmd, x);
    EncodeDecode(Packet(cmd, 0, Bytes32(x)));
    assert FdOf(f) == Decode(f).fd && CmdOf(f) == Decode(f).cmd;
    var a, b := Bytes32(cmd) + Bytes32(4) + Bytes32(0), Bytes32(x);
    assert f == a + b + [];
    Le32Shift(a, b, []);
    Le32OfBytes32(x);
    SignedFits(x);
    Reassembly.FieldGrows(f[..HEAD], f);
    assert f[..HEAD] + f[HEAD..] == f && [] + f[..HEAD] == f[..HEAD];
    hide Encode, Bytes32, Le32, Signed;
    Reassembly.FeedInside([], f[..HEAD], f);
    Reassembly.FeedInside(f[..HEAD], f[HEAD..], f);
  }

  lemma ReadsHead(s: State, c: nat, fd: int, cmd: int, x: int)
    requires s.Sized() && Open(s, c, fd) && 0 <= cmd < TWO32 && 0 <= x < 0x8000_0000
    ensures var op := Readable(c, Data(Request(cmd, x)[..HEAD]), Again, Again);
      Possible(s, op) && Step(s, op) == Some(Holding(s, c, Request(cmd, x)[..HEAD]))
  {
    RequestIsFrame(cmd, x);
    hide Request, Reassembly.Feed, Reassembly.Need, Deliver;
  }

  /** The second piece, and so the handling of the request. */
  lemma ReadsRest(s: State, c: nat, fd: int, cmd: int, x: int)
    requires s.Sized() && FdMap(s) && Routed(s) && c < |s.channel| && s.channel[c].fd == fd
    requires 0 <= cmd < TWO32 && 0 <= x < 0x8000_0000 && s.channel[c].partial == Request(cmd, x)[..HEAD]
    ensures IsFrame(Request(cmd, x))
    ensures var op := Readable(c, Data(Request(cmd, x)[HEAD..]), Took(PKG), Took(PKG));
      var u := Handle(s, Request(cmd, x), fd, Took(PKG), Took(PKG));
      Possible(s, op) && Step(s, op) == Some(Holding(u, c, []))
  {
    RequestIsFrame(cmd, x);
    NotErased(s, Request(cmd, x), fd);
    hide Request, Reassembly.Feed, Reassembly.Need, Handle, Dispatch, IsFrame, FdOf, ChooseDangles, FdMap, Routed;
  }

  // ---------------------------------------------------------------- three connections

  /** Slots 0, 1 and 2 serve the fds 5, 6 and 7, and nothing has happened yet. */
  predicate Three(s: State)
    requires s.Sized()
  {
    Open(s, 0, 5) && Open(s, 1, 6) && Open(s, 2, 7) && s.bridgeMap == map[]
    && s.channelMap == map[5 := 0, 6 := 1, 7 := 2]
    && Sent(s, 7) == [] && !s.channel[0].writing && !s.channel[1].writing && !s.channel[2].writing
    && s.channel[0].pkg.fd == s.channel[1].pkg.fd == s.channel[2].pkg.fd == 0
  }

  lemma ThreeConnect(s: State) returns (ops: seq<Op>, t: State)
    requires Fresh(s)
    ensures t.Sized() && Leads(s, ops, t) && Three(t)
  {
    var s1 := s.With(0, Accepted(s.channel[0], 0, 5)).(channelMap := map[5 := 0], wire := s.wire[5 := []]);
    var s2 := s1.With(1, Accepted(s.channel[1], 1, 6)).(channelMap := map[5 := 0, 6 := 1], wire := s1.wire[6 := []]);
    t := s2.With(2, Accepted(s.channel[2], 2, 7)).(channelMap := map[5 := 0, 6 := 1, 7 := 2], wire := s2.wire[7 := []]);
    Connects(s, 5, 0);
    Connects(s1, 6, 1);
    Connects(s2, 7, 2);
    assert Leads(s, [], s);
    hide Step, Run, Leads;
    LeadsOn(s, [], s, Connect(5), s1);
    LeadsOn(s, [Connect(5)], s1, Connect(6), s2);
    LeadsOn(s, [Connect(5)] + [Connect(6)], s2, Connect(7), t);
    ops := [Connect(5)] + [Connect(6)] + [Connect(7)];
  }

  // ---------------------------------------------------------------- the runs

  /** Two sources feed one destination: the first one's packet is overwritten before a byte of it
      went out. */
  lemma TwoSourcesLosePacket(s: State) returns (ops: seq<Op>, t: State, op: Op, u: State)
    requires Fresh(s)
    ensures t.Sized() && Leads(s, ops, t) && PendingFor7(t, Ping(3, 7))
    ensures u.Sized() && Leads(s, ops + [op], u) && PendingFor7(u, Ping(8, 7))
    ensures op == Readable(1, Data(Ping(8, 7)), Again, Again)
  {
    var s3;
    ops, s3 := ThreeConnect(s);
    var first := Readable(0, Data(Ping(3, 7)), Again, Again);
    op := Readable(1, Data(Ping(8, 7)), Again, Again);
    Stalls(s3, 0, 5, 2, 7, 3);
    t := Step(s3, first).value;
    Stalls(t, 1, 6, 2, 7, 8);
    u := Step(t, op).value;
    hide Step, Leads, Ping, Pkg.Wire;
    LeadsOn(s, ops, s3, first, t);
    LeadsOn(s, ops + [first], t, op, u);
    ops := ops + [first];
    assert t.channel[2].pkg.Wire()[0..] == Ping(3, 7) && u.channel[2].pkg.Wire()[0..] == Ping(8, 7);
  }

  /** A source's connection breaks while its destination drains, and its fd goes to a new connection:
      the drain restarts the dead slot's watcher, and its read error takes the new connection out of
      the map. */
  lemma SecondFreeBreaksPool(s: State) returns (ops: seq<Op>, t: State)
    requires Fresh(s)
    ensures t.Sized() && Leads(s, ops, t) && !PoolExact(t)
  {
    var s3;
    ops, s3 := ThreeConnect(s);
    var op1, op2 := Readable(1, Data(Ping(3, 7)), Again, Again), Readable(2, Data(Ping(3, 6)), Broken, Again);
    hide Leads, Ping, PoolExact, Three, Between, Halfway;
    StallsFirst(s3);
    var s4 := Step(s3, op1).value;
    BreaksThen(s4);
    var s5 := Step(s4, op2).value;
    hide Step;
    LeadsOn(s, ops, s3, op1, s4);
    LeadsOn(s, ops + [op1], s4, op2, s5);
    ops, t := SecondFree(s, ops + [op1] + [op2], s5);
  }

  /** Slot 2 drains a packet of slot 1. */
  predicate Between(s: State)
    requires s.Sized()
  {
    s.channelMap == map[5 := 0, 6 := 1, 7 := 2] && s.bridgeMap == map[] && Open(s, 0, 5) && Open(s, 2, 7)
    && s.channel[1].fd == 6 && s.channel[1].idx == 1 && s.channel[1].status.Active?
    && var x := s.channel[2]; x.writing && x.src == Some(1) && x.sent == 0 && x.pkg.Wire() == Ping(3, 7)
  }

  /** Slot 2 drains a packet of slot 1, which is gone. */
  predicate Halfway(s: State)
    requires s.Sized()
  {
    s.channelMap == map[5 := 0, 7 := 2] && s.bridgeMap == map[] && Open(s, 0, 5) && Open(s, 2, 7)
    && s.channel[1].fd == 6 && s.channel[1].idx == 1 && s.channel[1].status.NonActive?
    && var x := s.channel[2]; x.writing && x.src == Some(1) && x.sent == 0 && x.pkg.Wire() == Ping(3, 7)
  }

  lemma StallsFirst(s: State)
    requires s.Sized() && Three(s)
    ensures var op := Readable(1, Data(Ping(3, 7)), Again, Again);
      Possible(s, op) && Started(s, op) && Step(s, op).Some? && Between(Step(s, op).value)
  {
    hide Step, Ping, Pkg.Wire;
    Stalls(s, 1, 6, 2, 7, 3);
  }

  lemma BreaksThen(s: State)
    requires s.Sized() && Between(s)
    ensures var op := Readable(2, Data(Ping(3, 6)), Broken, Again);
      Possible(s, op) && Started(s, op) && Step(s, op).Some? && Halfway(Step(s, op).value)
  {
    hide Step, Ping, Pkg.Wire;
    Breaks(s, 2, 7, 1, 6, 3);
  }

  lemma SecondFree(s: State, ops0: seq<Op>, s5: State) returns (ops: seq<Op>, t: State)
    requires s.Sized() && s5.Sized() && Leads(s, ops0, s5)
    requires Halfway(s5)
    ensures t.Sized() && Leads(s, ops, t) && !PoolExact(t)
  {
    hide Leads, Ping, Pkg.Wire;
    var op3, op4, op5, op6 := Readable(0, Closed, Again, Again), Connect(6), Writable(2, Took(PKG), Again),
                              Readable(1, ReadError, Again, Again);
    Closes(s5, 0, Again);
    var s6 := s5.With(0, Freed(s5.channel[0])).(channelMap := s5.channelMap - {5});
    assert s6.channelMap == map[7 := 2];
    Connects(s6, 6, 0);
    var s7 := s6.With(0, Accepted(s6.channel[0], 0, 6)).(channelMap := s6.channelMap[6 := 0], wire := s6.wire[6 := []]);
    FlushChanges(s7, 2, Took(PKG), Again);
    PingIsFrame(3, 7);
    var s8 := Flush(s7, 2, Took(PKG), Again).value;
    Fails(s8, 1);
    t := s8.With(1, Freed(s8.channel[1])).(channelMap := s8.channelMap - {6});
    assert Step(s7, op5) == Some(s8);
    assert t.channel[0].status.Active? && t.channel[0].fd == 6 && 6 !in t.channelMap;
    hide Step, Flush, PoolExact;
    LeadsOn(s, ops0, s5, op3, s6);
    LeadsOn(s, ops0 + [op3], s6, op4, s7);
    LeadsOn(s, ops0 + [op3] + [op4], s7, op5, s8);
    LeadsOn(s, ops0 + [op3] + [op4] + [op5], s8, op6, t);
    ops := ops0 + [op3] + [op4] + [op5] + [op6];
  }

  /** A remote's request of one number, handled: `t` is the state after both pieces. */
  lemma Requests(s: State, ops: seq<Op>, u: State, c: nat, fd: int, cmd: int, x: int) returns (more: seq<Op>, t: State)
    requires s.Sized() && u.Sized() && Leads(s, ops, u) && Open(u, c, fd) && FdMap(u) && Routed(u)
    requires 0 <= cmd < TWO32 && 0 <= x < 0x8000_0000
    ensures t.Sized() && Leads(s, more, t) && ops <= more && |Request(cmd, x)| == HEAD + 4
    ensures Signed(Le32(Request(cmd, x), HEAD)) == x
    ensures var v := Holding(u, c, Request(cmd, x)[..HEAD]);
      (cmd == REGISTER_CLIENT_REQ ==>
         var w := Register(v, Request(cmd, x), fd, Took(PKG)).0;
         t == Holding(w, c, []))
      && (cmd == CHOOSE_SERVER_REQ ==>
            var w := Choose(v, Request(cmd, x), fd, Took(PKG), Took(PKG)).0;
            t == Holding(w, c, []))
  {
    RequestIsFrame(cmd, x);
    var op1 := Readable(c, Data(Request(cmd, x)[..HEAD]), Again, Again);
    var op2 := Readable(c, Data(Request(cmd, x)[HEAD..]), Took(PKG), Took(PKG));
    var v := Holding(u, c, Request(cmd, x)[..HEAD]);
    ReadsHead(u, c, fd, cmd, x);
    HoldingKeeps(u, c, Request(cmd, x)[..HEAD]);
    ReadsRest(v, c, fd, cmd, x);
    t := Step(v, op2).value;
    hide Step, Leads, Request, Register, Choose, Le32, Signed, IsFrame, Open;
    LeadsOn(s, ops, u, op1, v);
    LeadsOn(s, ops + [op1], v, op2, t);
    more := ops + [op1] + [op2];
  }

  /** Only slot `c` has changed: it is a remote now, and still open. */
  ghost predicate OnlyRegisters(s: State, t: State, c: nat)
    requires s.Sized() && t.Sized() && c < CHANNEL_MAX
  {
    t.channelMap == s.channelMap && t.bridgeMap == s.bridgeMap
    && (forall k :: 0 <= k < CHANNEL_MAX && k != c ==> t.channel[k] == s.channel[k])
    && var x, y := s.channel[c], t.channel[c];
       y.status == x.status && y.fd == x.fd && y.idx == x.idx && y.kind == Remote && (x.reading ==> y.reading)
  }

  /** The registration of a remote whose answer goes out. */
  lemma BecomesRemote(s: State, f: bytes, fd: int)
    requires s.Sized() && FdMap(s) && s.Live(fd) && |f| >= HEAD && Signed(Le32(f, HEAD)) == 1
    ensures OnlyRegisters(s, Register(s, f, fd, Took(PKG)).0, s.channelMap[fd])
  {
    hide PutFds, RaspiFds, Pkg.Put, Pkg.Wire, Le32, Signed;
  }

  lemma RegisteredState(u: State, c: nat, fd: int, v: State, w: State, t: State)
    requires u.Sized() && v.Sized() && w.Sized() && Open(u, c, fd) && v == Holding(u, c, v.channel[c].partial)
    requires OnlyRegisters(v, w, c)
    requires t == Holding(w, c, [])
    ensures OnlyRegisters(u, t, c) && Open(t, c, fd)
  {
  }

  /** In every state a run reaches the map and the routing are as they should be. */
  lemma Settled(s: State, ops: seq<Op>, t: State)
    requires Fresh(s) && Leads(s, ops, t)
    ensures t.Sized() && FdMap(t) && Routed(t)
  {
    EveryRunIsRouted(s, ops);
  }

  /** Slot 1 as a remote that chose the raspi in slot 0. */
  predicate Chose(s: State)
    requires s.Sized()
  {
    Open(s, 0, 5) && s.channelMap == map[5 := 0, 6 := 1, 7 := 2] && s.bridgeMap == map[6 := 0]
    && var x := s.channel[1]; x.status.Active? && x.fd == 6 && x.idx == 1 && x.kind.Remote? && x.reading
  }

  /** A registration as a remote, read and answered, in the middle of a run. */
  lemma RegistersInRun(s: State, ops: seq<Op>, u: State, c: nat, fd: int) returns (more: seq<Op>, t: State)
    requires Fresh(s) && u.Sized() && Leads(s, ops, u) && Open(u, c, fd)
    ensures t.Sized() && Leads(s, more, t) && ops <= more && Open(t, c, fd) && OnlyRegisters(u, t, c)
  {
    RequestIsFrame(REGISTER_CLIENT_REQ, 1);
    var f := Request(REGISTER_CLIENT_REQ, 1);
    var v := Holding(u, c, f[..HEAD]);
    Settled(s, ops, u);
    HoldingKeeps(u, c, f[..HEAD]);
    assert v.Live(fd) && v.channelMap[fd] == c;
    hide Leads, Request, Le32, Signed, IsFrame, CmdOf, FdMap, Routed, Register, OnlyRegisters, Holding;
    BecomesRemote(v, f, fd);
    more, t := Requests(s, ops, u, c, fd, REGISTER_CLIENT_REQ, 1);
    RegisteredState(u, c, fd, v, Register(v, f, fd, Took(PKG)).0, t);
  }

  /** A choice, read and answered, in the middle of a run. */
  lemma ChoosesInRun(s: State, ops: seq<Op>, u: State, c: nat, fd: int, raspifd: int) returns (more: seq<Op>, t: State)
    requires Fresh(s) && u.Sized() && Leads(s, ops, u) && Open(u, c, fd) && u.Live(raspifd) && fd != raspifd
    requires 0 <= raspifd < 0x8000_0000
    ensures t.Sized() && Leads(s, more, t) && ops <= more && AfterChoice(u, t, fd, raspifd)
  {
    RequestIsFrame(CHOOSE_SERVER_REQ, raspifd);
    Settled(s, ops, u);
    hide Leads, Request, Le32, Signed, IsFrame, CmdOf, FdMap, Routed, Choose, AfterChoice;
    more, t := Requests(s, ops, u, c, fd, CHOOSE_SERVER_REQ, raspifd);
    ChosenFrom(u, c, fd, raspifd, Request(CHOOSE_SERVER_REQ, raspifd));
  }

  /** What a choice by `fd` whose two notifications go out leaves behind. */
  ghost predicate AfterChoice(u: State, t: State, fd: int, raspifd: int)
    requires u.Sized() && t.Sized() && raspifd in u.channelMap
  {
    OnlyAnswers(u, t)
    && (Stamped(u, raspifd) ==> t.channel[u.channelMap[raspifd]].reading)
    && t.bridgeMap == (if fd in u.bridgeMap then u.bridgeMap else u.bridgeMap[fd := u.channelMap[raspifd]])
    && forall x :: x != fd && x != raspifd ==> Sent(t, x) == Sent(u, x)
  }

  lemma ChosenFrom(u: State, c: nat, fd: int, raspifd: int, f: bytes)
    requires u.Sized() && FdMap(u) && Routed(u) && Open(u, c, fd) && u.Live(raspifd) && fd != raspifd
    requires |f| >= HEAD && Signed(Le32(f, HEAD)) == raspifd
    ensures AfterChoice(u, Holding(Choose(Holding(u, c, f[..HEAD]), f, fd, Took(PKG), Took(PKG)).0, c, []), fd, raspifd)
  {
    hide Le32, Signed, Choose, Taken, Chosen, Start, Stamped, OnlyAnswers, Sent;
    var v := Holding(u, c, f[..HEAD]);
    HoldingKeeps(u, c, f[..HEAD]);
    NotErased(v, f, fd);
    assert u.Live(fd);
    hide Holding, State.Live;
    ChoiceLeaves(v, f, fd, Took(PKG), Took(PKG));
    ChoiceStartsExactlyRegistered(v, f, fd, Took(PKG), Took(PKG));
    var w := Choose(v, f, fd, Took(PKG), Took(PKG)).0;
    ChosenState(u, c, f, fd, raspifd, v, w, Holding(w, c, []));
  }

  lemma NotErased(v: State, f: bytes, fd: int)
    requires v.Sized() && FdMap(v) && Routed(v)
    ensures !ChooseDangles(v, f, fd, Took(PKG), Took(PKG))
  {
    ChooseDanglesIff(v, f, fd, Took(PKG), Took(PKG));
    hide ChooseDangles;
  }

  lemma ChosenState(u: State, c: nat, f: bytes, fd: int, raspifd: int, v: State, w: State, t: State)
    requires u.Sized() && v.Sized() && w.Sized() && c < CHANNEL_MAX && u.channel[c].partial == []
    requires v == Holding(u, c, v.channel[c].partial) && t == Holding(w, c, [])
    requires OnlyAnswers(v, w)
    ensures OnlyAnswers(u, t) && (forall x :: Sent(v, x) == Sent(u, x) && Sent(t, x) == Sent(w, x))
    ensures t.bridgeMap == w.bridgeMap && t.channelMap == w.channelMap
    ensures forall k :: 0 <= k < CHANNEL_MAX ==> t.channel[k].reading == w.channel[k].reading
  {
  }

  lemma RegistersAndChooses(s: State) returns (ops: seq<Op>, t: State)
    requires Fresh(s)
    ensures t.Sized() && Leads(s, ops, t) && Chose(t)
  {
    var u;
    hide Leads;
    ops, u := ThreeConnect(s);
    assert u.channel[0].fd == 5;
    ops, u := RegistersInRun(s, ops, u, 1, 6);
    ops, t := ChoosesInRun(s, ops, u, 1, 6, 5);
  }

  /** A remote that has chosen a raspi closes after it: the raspi's slot is in use again, and no fd
      leads to it any more. */
  lemma BrokenBridgeRevivesSlot(s: State) returns (ops: seq<Op>, t: State)
    requires Fresh(s)
    ensures t.Sized() && Leads(s, ops, t) && !PoolExact(t)
  {
    var s5;
    ops, s5 := RegistersAndChooses(s);
    var op1, op2 := Readable(0, Closed, Again, Again), Readable(1, Closed, Again, Again);
    Closes(s5, 0, Again);
    var s6 := s5.With(0, Freed(s5.channel[0])).(channelMap := s5.channelMap - {5});
    RemoteCloses(s6);
    t := Step(s6, op2).value;
    hide Step, Leads;
    LeadsOn(s, ops, s5, op1, s6);
    LeadsOn(s, ops + [op1], s6, op2, t);
    ops := ops + [op1] + [op2];
  }

  lemma RemoteCloses(s: State)
    requires s.Sized() && s.channel[0].status.NonActive? && s.channel[0].fd == 5 && 5 !in s.channelMap
    requires s.bridgeMap == map[6 := 0]
    requires var x := s.channel[1]; x.fd == 6 && x.idx == 1 && x.kind.Remote?
    ensures Step(s, Readable(1, Closed, Again, Again)).Some?
    ensures !PoolExact(Step(s, Readable(1, Closed, Again, Again)).value)
  {
    var u := FreeChannel(s, 1);
    var pkg := Empty().(fd := 5, cmd := RESTART_CLIENT_NTF, len := 4).Put(0, 1);
    assert Response(u, pkg, Again) == (u, -1);
    var t := Step(s, Readable(1, Closed, Again, Again)).value;
    assert t.channel[0].status.Active? && t.channel[0].fd == 5 && 5 !in t.channelMap;
    hide Response, Empty, Pkg.Put;
  }

  /** A source that is stopped for its destination is started again by the answer to another
      client's choice, and its next packet overwrites the pending one. */
  lemma AnswerRestartsStoppedSource(s: State) returns (ops: seq<Op>, t: State, more: seq<Op>, u: State)
    requires Fresh(s)
    ensures t.Sized() && Leads(s, ops, t) && PendingFor7(t, Ping(3, 7)) && !t.channel[0].reading
    ensures u.Sized() && Leads(s, more, u) && ops <= more && PendingFor7(u, Ping(8, 7))
  {
    hide Leads, Ping;
    var after;
    ops, t := StopsSource(s);
    more, after := ChoosesInRun(s, ops, t, 1, 6, 5);
    assert Open(after, 0, 5) && after.Live(7) && after.channelMap[7] == 2 && Sent(after, 7) == [];
    hide OnlyAnswers;
    Stalls(after, 0, 5, 2, 7, 8);
    var op := Readable(0, Data(Ping(8, 7)), Again, Again);
    u := Step(after, op).value;
    hide Step;
    LeadsOn(s, more, after, op, u);
    more := more + [op];
    assert u.channel[2].pkg.Wire()[0..] == Ping(8, 7);
  }

  /** Nothing was sent to fd 7, and this is pending for it. */
  predicate PendingFor7(s: State, f: bytes)
    requires s.Sized()
  {
    Sent(s, 7) == [] && Unsent(s.channel[2]) == f
  }

  /** An ordinary choice of a raspi whose START notification fails: the handler follows the map entry
      that the failed send has erased. */
  lemma FailedStartDangles(s: State) returns (ops: seq<Op>, t: State, op: Op)
    requires Fresh(s)
    ensures t.Sized() && Leads(s, ops, t) && Possible(t, op) && Started(t, op) && Step(t, op) == None
    ensures t.Live(5) && t.Live(6) && op == Readable(1, Data(Request(CHOOSE_SERVER_REQ, 5)[HEAD..]), Took(PKG), Broken)
  {
    assert s.Sized();
    hide Leads, Request, Step, FdMap, Routed, Stamped, Open, Fresh, State.Live, State.Sized, Started;
    var u;
    ops, u := StampsRaspi(s);
    RequestIsFrame(CHOOSE_SERVER_REQ, 5);
    ops, t := HeadInRun(s, ops, u, 1, 6, CHOOSE_SERVER_REQ, 5);
    Settled(s, ops, t);
    ErasedByStart(t, 1, 6, 5);
    op := Readable(1, Data(Request(CHOOSE_SERVER_REQ, 5)[HEAD..]), Took(PKG), Broken);
  }

  /** The first piece of a request, in the middle of a run. */
  lemma HeadInRun(s: State, ops: seq<Op>, u: State, c: nat, fd: int, cmd: int, x: int) returns (more: seq<Op>, t: State)
    requires s.Sized() && u.Sized() && Leads(s, ops, u) && Open(u, c, fd) && 0 <= cmd < TWO32 && 0 <= x < 0x8000_0000
    ensures t.Sized() && Leads(s, more, t) && ops <= more && |Request(cmd, x)| == HEAD + 4
    ensures t.channel[c].partial == Request(cmd, x)[..HEAD] && t.channel[c].fd == fd && t.channel[c].reading
    ensures (forall y :: t.Live(y) <==> u.Live(y)) && forall y :: Stamped(u, y) ==> Stamped(t, y)
  {
    RequestIsFrame(cmd, x);
    var op := Readable(c, Data(Request(cmd, x)[..HEAD]), Again, Again);
    ReadsHead(u, c, fd, cmd, x);
    t := Holding(u, c, Request(cmd, x)[..HEAD]);
    HoldingKeeps(u, c, Request(cmd, x)[..HEAD]);
    hide Step, Leads, Request, Holding, FdMap, Routed;
    LeadsOn(s, ops, u, op, t);
    more := ops + [op];
  }

  /** Slot 0 carries its own fd after a packet was relayed to it. */
  lemma StampsRaspi(s: State) returns (ops: seq<Op>, t: State)
    requires Fresh(s)
    ensures t.Sized() && Leads(s, ops, t) && Open(t, 0, 5) && Open(t, 1, 6) && Stamped(t, 5) && t.Live(5) && t.Live(6)
  {
    var u;
    ops, u := ThreeConnect(s);
    var op := Readable(1, Data(Ping(3, 5)), Took(PKG), Again);
    Passes(u, 1, 6, 0, 5, 3);
    t := Step(u, op).value;
    hide Step, Leads, Ping;
    LeadsOn(s, ops, u, op, t);
    ops := ops + [op];
  }

  lemma ErasedByStart(t: State, c: nat, fd: int, raspifd: int)
    requires t.Sized() && FdMap(t) && Routed(t) && t.Live(fd) && t.Live(raspifd) && Stamped(t, raspifd)
    requires c < |t.channel| && t.channel[c].fd == fd && 0 <= raspifd < 0x8000_0000
    requires |Request(CHOOSE_SERVER_REQ, raspifd)| == HEAD + 4
    requires t.channel[c].partial == Request(CHOOSE_SERVER_REQ, raspifd)[..HEAD]
    ensures var op := Readable(c, Data(Request(CHOOSE_SERVER_REQ, raspifd)[HEAD..]), Took(PKG), Broken);
      Possible(t, op) && (t.channel[c].reading ==> Started(t, op)) && Step(t, op) == None
  {
    var f := Request(CHOOSE_SERVER_REQ, raspifd);
    RequestIsFrame(CHOOSE_SERVER_REQ, raspifd);
    ChooseDanglesIff(t, f, fd, Took(PKG), Broken);
    hide Request, Reassembly.Feed, Reassembly.Need, IsFrame, ChooseDangles, FdMap, Routed, Stamped, Le32, Signed,
      Receive, DispatchDangles, State.Live;
  }

  /** Slot 0, stamped by a packet it was relayed before, is stopped for slot 2. */
  lemma StopsSource(s: State) returns (ops: seq<Op>, t: State)
    requires Fresh(s)
    ensures t.Sized() && Leads(s, ops, t) && PendingFor7(t, Ping(3, 7)) && t.channelMap == map[5 := 0, 6 := 1, 7 := 2]
    ensures Open(t, 1, 6) && Stamped(t, 5) && t.channel[2].status.Active?
    ensures var x := t.channel[0]; x.status.Active? && x.fd == 5 && x.idx == 0 && x.partial == [] && !x.reading
  {
    var s3;
    ops, s3 := ThreeConnect(s);
    var op1, op2 := Readable(1, Data(Ping(3, 5)), Took(PKG), Again), Readable(0, Data(Ping(3, 7)), Again, Again);
    Passes(s3, 1, 6, 0, 5, 3);
    var s4 := Step(s3, op1).value;
    Stalls(s4, 0, 5, 2, 7, 3);
    t := Step(s4, op2).value;
    hide Step, Leads, Ping, Pkg.Wire;
    LeadsOn(s, ops, s3, op1, s4);
    LeadsOn(s, ops + [op1], s4, op2, t);
    ops := ops + [op1] + [op2];
    assert t.channel[2].pkg.Wire()[0..] == Ping(3, 7);
  }

  /** All slots as a static array has them before the first connection: of type RASPI. */
  predicate ZeroTypes(s: State) {
    forall c :: 0 <= c < |s.channel| ==> s.channel[c].kind.Raspi?
  }

  /** Two connections that register nothing: the second, should it register as a remote, is told of the
      first, and its choice of it sends no START. */
  lemma UnregisteredIsListed(s: State) returns (ops: seq<Op>, t: State)
    requires Fresh(s) && ZeroTypes(s)
    ensures t.Sized() && Leads(s, ops, t) && Registrations.Registered(s, ops) == map[] && t.Live(5) && t.Live(6)
    ensures RaspiFds(Roster.AsRemote(t, 6)) == [5] && !Startable(t, 5, 6)
    ensures FdsOf(Roster.AnswerTo(t, 6)) == [5]
    ensures !Registrations.NoneUnregistered(t, Registrations.Registered(s, ops), 6)
  {
    ops, t := TwoConnect(s);
    hide Leads, Empty, Registrations.Registered;
    NothingRegistered(s);
    hide TwoOpen, Startable, Open, Registrations.NoneUnregistered;
    OnlyFive(t);
  }

  /** The state after the first connection, and after the second. */
  function OneConnected(s: State): (t: State)
    requires s.Sized()
    ensures t.Sized()
  {
    s.With(0, Accepted(s.channel[0], 0, 5)).(channelMap := map[5 := 0], wire := s.wire[5 := []])
  }

  function TwoConnected(s: State): (t: State)
    requires s.Sized()
    ensures t.Sized()
  {
    var s1 := OneConnected(s);
    s1.With(1, Accepted(s.channel[1], 1, 6)).(channelMap := map[5 := 0, 6 := 1], wire := s1.wire[6 := []])
  }

  lemma TwoConnectSteps(s: State)
    requires Fresh(s)
    ensures Step(s, Connect(5)) == Some(OneConnected(s)) && Step(OneConnected(s), Connect(6)) == Some(TwoConnected(s))
  {
    hide Step, Empty, Accepted;
    Connects(s, 5, 0);
    assert Accepted(s.channel[0], 0, 5).status.Active? by { AcceptedIsActive(s.channel[0], 0, 5); }
    Connects(OneConnected(s), 6, 1);
  }

  lemma AcceptedIsActive(x: Channel, k: nat, fd: int)
    ensures Accepted(x, k, fd).status.Active?
  {
  }

  lemma TwoConnect(s: State) returns (ops: seq<Op>, t: State)
    requires Fresh(s) && ZeroTypes(s)
    ensures ops == [Connect(5)] + [Connect(6)] && t.Sized() && Leads(s, ops, t) && TwoOpen(t)
  {
    t := TwoConnected(s);
    assert TwoOpen(t);
    TwoConnectSteps(s);
    assert Leads(s, [], s);
    hide Step, Run, Leads, TwoOpen, OneConnected, TwoConnected;
    LeadsOn(s, [], s, Connect(5), OneConnected(s));
    LeadsOn(s, [Connect(5)], OneConnected(s), Connect(6), t);
    ops := [Connect(5)] + [Connect(6)];
  }

  predicate TwoOpen(t: State)
    requires t.Sized()
  {
    Open(t, 0, 5) && Open(t, 1, 6) && t.channelMap == map[5 := 0, 6 := 1]
    && t.channel[0].kind.Raspi? && t.channel[0].pkg == Empty() && t.channel[1].pkg == Empty()
  }

  /** What the remote reads out of an answer. */
  function FdsOf(p: Pkg): seq<int>
    requires p.Sized() && p.len == 36
  {
    Roster.ReadList(BodyOf(p.Wire()), 0)
  }

  lemma NothingRegistered(s: State)
    requires s.Sized()
    ensures Registrations.Registered(s, [Connect(5)] + [Connect(6)]) == map[]
  {
    ConnectsRegisterNothing(s, [], 5);
    ConnectsRegisterNothing(s, [Connect(5)], 6);
    assert [] + [Connect(5)] == [Connect(5)];
  }

  lemma ConnectsRegisterNothing(s: State, ops: seq<Op>, fd: int)
    requires s.Sized() && Registrations.Registered(s, ops) == map[]
    ensures Registrations.Registered(s, ops + [Connect(fd)]) == map[]
  {
    var all := ops + [Connect(fd)];
    assert all[..|all| - 1] == ops && all[|all| - 1] == Connect(fd);
    var none: map<int, ClientType> := map[];
    assert none - {fd} == map[];
    hide Run, Step;
  }

  lemma OnlyFive(t: State)
    requires t.Sized() && TwoOpen(t)
    ensures t.Live(5) && t.Live(6)
    ensures RaspiFds(Roster.AsRemote(t, 6)) == [5] && !Startable(t, 5, 6)
    ensures FdsOf(Roster.AnswerTo(t, 6)) == [5]
    ensures !Registrations.NoneUnregistered(t, map[], 6)
  {
    Roster.RosterOf(t, 6);
    assert Roster.TypedRaspi(t, 5) && forall x :: x != 6 && Roster.TypedRaspi(t, x) <==> x == 5;
    var fds := RaspiFds(Roster.AsRemote(t, 6));
    hide RaspiFds, Roster.AsRemote, Empty;
    OneElement(fds, 5);
    EmptyFds();
    Roster.AnswerListsIff(t.channel[1].pkg, 6, fds);
  }

  lemma OneElement(s: seq<int>, x: int)
    requires Roster.Increasing(s) && forall y :: y in s <==> y == x
    ensures s == [x]
  {
    Registrations.IncreasingDistinct(s);
    DistinctCard(s);
    var all := set y | y in s;
    assert x in all && forall y :: y in all ==> y == x;
    assert all == {x};
    assert s[0] in s;
  }

  lemma EmptyFds()
    ensures Empty().fd == 0 && Roster.Slot(Empty().body, 1) == 0
  {
  }
}
