/** How a camera stream is set up: the START notification reaches the chosen raspi with the
    remote's fd in it, and the raspi's packets then go to that remote. */
module Notifications {
  import opened Common
  import opened Wire
  import opened ServerState
  import opened ServerRuns
  import Reassembly

  /** What has been sent on a connection. */
  function Sent(s: State, fd: int): bytes {
    if fd in s.wire then s.wire[fd] else []
  }

  /** A send that takes any packet whole. */
  predicate Takes(r: SendResult) {
    r.Took? && r.n >= PKG
  }

  function Start(raspifd: int, remotefd: int): bytes {
    Encode(Packet(START_SEND_DATA_NTF, raspifd, Bytes32(remotefd)))
  }

  function Chosen(remotefd: int): bytes {
    Encode(Packet(CHOOSE_SERVER_RES, remotefd, Bytes32(0)))
  }

  lemma PutWire(p: Pkg, x: int)
    requires p.Sized() && p.len == 4
    ensures p.Put(0, x).Wire() == Encode(Packet(p.cmd, p.fd, Bytes32(x)))
  {
    assert p.Put(0, x).body[..4] == Bytes32(x);
  }

  /** What a send takes of what it is offered. */
  function Taken(r: SendResult, w: bytes): bytes {
    if r.Took? then w[..Cut(r.n, |w|)] else []
  }

  lemma TakesAll(r: SendResult, w: bytes)
    requires Takes(r) && |w| <= PKG
    ensures Taken(r, w) == w
  {
  }

  /** A response: as much as the send takes goes out on the connection the head names, which is freed
      if the send fails. */
  lemma Answered(s: State, pkg: Pkg, r: SendResult)
    requires s.Sized() && pkg.Sized() && FdMap(s)
    ensures var t := Response(s, pkg, r).0;
      FdMap(t) && t.channelMap.Keys <= s.channelMap.Keys && (!r.Broken? ==> SameSlots(s, t))
      && t.bridgeMap == s.bridgeMap
      && (forall c :: 0 <= c < CHANNEL_MAX ==> t.channel[c].pkg == s.channel[c].pkg)
      && (forall fd :: s.Live(fd) && !(r.Broken? && fd == pkg.fd) ==>
            t.Live(fd) && t.channelMap[fd] == s.channelMap[fd])
      && forall fd :: Sent(t, fd) == Sent(s, fd) + if fd == pkg.fd && s.Live(fd) then Taken(r, pkg.Wire()) else []
  {
    ResponseKeepsMap(s, pkg, r);
    AnswerSends(s, pkg, r);
    ResponseOnPool(s, pkg, r);
    hide Response, Pkg.Wire;
  }

  lemma AnswerSends(s: State, pkg: Pkg, r: SendResult)
    requires s.Sized() && pkg.Sized()
    ensures var t := Response(s, pkg, r).0;
      t.bridgeMap == s.bridgeMap && (forall c :: 0 <= c < CHANNEL_MAX ==> t.channel[c].pkg == s.channel[c].pkg)
      && forall fd :: Sent(t, fd) == Sent(s, fd) + if fd == pkg.fd && s.Live(fd) then Taken(r, pkg.Wire()) else []
  {
    assert r.Took? ==> Cut(r.n, |pkg.Wire()|) == |pkg.Wire()| ==> Taken(r, pkg.Wire()) == pkg.Wire();
    hide Pkg.Wire;
  }

  /** The raspi's send buffer carries its own fd, as a registration leaves it; the first answer does
      the same for a connection that chooses itself. */
  predicate Startable(s: State, raspifd: int, fd: int)
    requires s.Sized()
  {
    Stamped(s, raspifd) || raspifd == fd
  }

  /** Nothing is sent but `w` to `fd`. */
  ghost predicate Adds(s: State, t: State, fd: int, w: bytes) {
    forall x :: Sent(t, x) == Sent(s, x) + if x == fd then w else []
  }

  /** Nothing is sent but `v` to `fd` and then `w` to `gd`. */
  ghost predicate AddsBoth(s: State, t: State, fd: int, v: bytes, gd: int, w: bytes) {
    forall x :: Sent(t, x) == Sent(s, x) + (if x == fd then v else []) + if x == gd then w else []
  }

  lemma AddsTwice(s: State, t: State, u: State, fd: int, v: bytes, gd: int, w: bytes)
    requires Adds(s, t, fd, v) && Adds(t, u, gd, w)
    ensures AddsBoth(s, u, fd, v, gd, w)
  {
    hide Sent;
  }

  /** An answer written into the send buffer of `c` and sent from there. */
  lemma AnsweredFrom(s: State, c: nat, pkg: Pkg, r: SendResult)
    requires s.Sized() && pkg.Sized() && FdMap(s) && c < |s.channel|
    ensures var t := Response(SetPkg(s, c, pkg, s.channel[c].sent), pkg, r).0;
      FdMap(t) && t.channelMap.Keys <= s.channelMap.Keys && (!r.Broken? ==> t.channelMap == s.channelMap)
      && t.bridgeMap == s.bridgeMap
      && (forall d :: 0 <= d < CHANNEL_MAX ==> t.channel[d].pkg == if d == c then pkg else s.channel[d].pkg)
      && (forall fd :: s.Live(fd) && !(r.Broken? && fd == pkg.fd) ==>
            t.Live(fd) && t.channelMap[fd] == s.channelMap[fd])
      && Adds(s, t, pkg.fd, if s.Live(pkg.fd) then Taken(r, pkg.Wire()) else [])
  {
    var s1 := SetPkg(s, c, pkg, s.channel[c].sent);
    FilledIn(s, c, pkg);
    hide Response, Pkg.Wire, FdMap, Taken, Sent, SetPkg;
    Answered(s1, pkg, r);
  }

  lemma FilledIn(s: State, c: nat, pkg: Pkg)
    requires s.Sized() && pkg.Sized() && FdMap(s) && c < |s.channel|
    ensures var t := SetPkg(s, c, pkg, s.channel[c].sent);
      FdMap(t) && t.channelMap == s.channelMap && t.bridgeMap == s.bridgeMap
      && (forall d :: 0 <= d < CHANNEL_MAX ==> t.channel[d].pkg == if d == c then pkg else s.channel[d].pkg)
      && (forall fd :: t.Live(fd) <==> s.Live(fd)) && forall fd :: Sent(t, fd) == Sent(s, fd)
  {
    SetPkgSameSlots(s, c, pkg, s.channel[c].sent);
    SameSlotsKeepMap(s, SetPkg(s, c, pkg, s.channel[c].sent));
    hide FdMap;
  }

  /** The choice of a raspi by a remote, whatever the two sends take: the remote is sent its answer,
      and the raspi is sent the START notification carrying the remote's fd if and only if it is
      startable; nothing else is sent to anybody. */
  lemma ChoiceStartsExactlyRegistered(s: State, f: bytes, fd: int, r: SendResult, r2: SendResult)
    requires s.Sized() && FdMap(s) && Routed(s) && s.Live(fd) && s.Live(Signed(Le32(f, HEAD)))
    requires !ChooseDangles(s, f, fd, r, r2)
    ensures var t, raspifd := Choose(s, f, fd, r, r2).0, Signed(Le32(f, HEAD));
      FdMap(t)
      && (!r.Broken? && !r2.Broken? ==> t.Live(fd) && t.Live(raspifd) && t.channelMap == s.channelMap)
      && t.bridgeMap == (if fd in s.bridgeMap then s.bridgeMap else s.bridgeMap[fd := s.channelMap[raspifd]])
      && AddsBoth(s, t, fd, Taken(r, Chosen(fd)),
                  raspifd, if Startable(s, raspifd, fd) then Taken(r2, Start(raspifd, fd)) else [])
  {
    var raspifd := Signed(Le32(f, HEAD));
    var s1, s2 := FirstAnswer(s, fd, r), SecondAnswer(FirstAnswer(s, fd, r), fd, s.channelMap[raspifd], r2);
    ChoiceIs(s, f, fd, r, r2);
    assert raspifd in s1.channelMap && raspifd in s2.channelMap;
    hide ChooseDangles, Choose, FirstAnswer, SecondAnswer, Start, Chosen, Le32, Signed, Taken, Adds, AddsBoth, FdMap,
      Routed, Startable;
    FirstAnswered(s, fd, r);
    StartGoesTo(s, s1, fd, raspifd);
    SecondAnswered(s1, fd, raspifd, s.channelMap[raspifd], Startable(s, raspifd, fd), r2);
    AddsTwice(s, s1, s2, fd, Taken(r, Chosen(fd)), raspifd,
              if Startable(s, raspifd, fd) then Taken(r2, Start(raspifd, fd)) else []);
    Bridged(s, s2, if fd in s2.bridgeMap then s2.bridgeMap else s2.bridgeMap[fd := s.channelMap[raspifd]],
            fd, Taken(r, Chosen(fd)),
            raspifd, if Startable(s, raspifd, fd) then Taken(r2, Start(raspifd, fd)) else []);
  }

  lemma ChoiceIs(s: State, f: bytes, fd: int, r: SendResult, r2: SendResult)
    requires s.Sized() && s.Live(fd) && s.Live(Signed(Le32(f, HEAD)))
    ensures var k := s.channelMap[Signed(Le32(f, HEAD))];
      var t := SecondAnswer(FirstAnswer(s, fd, r), fd, k, r2);
      Choose(s, f, fd, r, r2).0 == t.(bridgeMap := if fd in t.bridgeMap then t.bridgeMap else t.bridgeMap[fd := k])
  {
    hide Response, SetPkg, Pkg.Put, Le32, Signed;
  }

  lemma FirstAnswered(s: State, fd: int, r: SendResult)
    requires s.Sized() && FdMap(s) && s.Live(fd)
    ensures var t := FirstAnswer(s, fd, r);
      FdMap(t) && t.channelMap.Keys <= s.channelMap.Keys && (!r.Broken? ==> t.channelMap == s.channelMap)
      && t.bridgeMap == s.bridgeMap
      && (forall d :: 0 <= d < CHANNEL_MAX ==>
            t.channel[d].pkg.fd == if d == s.channelMap[fd] then fd else s.channel[d].pkg.fd)
      && (forall x :: s.Live(x) && !(r.Broken? && x == fd) ==> t.Live(x) && t.channelMap[x] == s.channelMap[x])
      && Adds(s, t, fd, Taken(r, Chosen(fd)))
  {
    var c := s.channelMap[fd];
    var p := s.channel[c].pkg.(cmd := CHOOSE_SERVER_RES, fd := fd, len := 4);
    PutWire(p, 0);
    EncodedWires(fd, 0);
    AnsweredFrom(s, c, p.Put(0, 0), r);
    hide Response, SetPkg, Pkg.Put, Pkg.Wire, Adds, Taken, FdMap;
  }

  lemma SecondAnswered(s: State, fd: int, raspifd: int, k: nat, startable: bool, r: SendResult)
    requires s.Sized() && FdMap(s) && k < |s.channel| && s.Live(raspifd)
    requires if startable then s.channel[k].pkg.fd == raspifd else !s.Live(s.channel[k].pkg.fd)
    ensures var t := SecondAnswer(s, fd, k, r);
      FdMap(t) && (!r.Broken? ==> t.channelMap == s.channelMap) && t.bridgeMap == s.bridgeMap
      && (forall x :: s.Live(x) && !r.Broken? ==> t.Live(x))
      && Adds(s, t, raspifd, if startable then Taken(r, Start(raspifd, fd)) else [])
  {
    var p := s.channel[k].pkg.(cmd := START_SEND_DATA_NTF, len := 4);
    PutWire(p, fd);
    EncodedWires(fd, raspifd);
    AnsweredFrom(s, k, p.Put(0, fd), r);
    hide Response, SetPkg, Pkg.Put, Pkg.Wire, Adds, Taken, FdMap, Start;
    StartSent(s, SecondAnswer(s, fd, k, r), p.fd, p.Put(0, fd).Wire(), raspifd, fd, startable, r);
  }

  /** The choice follows an erased map entry exactly where a remote chooses itself and its answer fails,
      or where START is sent to the raspi and fails. */
  lemma ChooseDanglesIff(s: State, f: bytes, fd: int, r: SendResult, r2: SendResult)
    requires s.Sized() && FdMap(s) && Routed(s)
    ensures var raspifd := Signed(Le32(f, HEAD));
      ChooseDangles(s, f, fd, r, r2) <==>
      s.Live(fd) && s.Live(raspifd)
      && ((r.Broken? && raspifd == fd) || (r2.Broken? && Startable(s, raspifd, fd)))
  {
    var raspifd := Signed(Le32(f, HEAD));
    if s.Live(fd) && s.Live(raspifd) {
      var s1, k := FirstAnswer(s, fd, r), s.channelMap[raspifd];
      FirstErases(s, fd, r, raspifd);
      FirstAnswered(s, fd, r);
      if raspifd in s1.channelMap {
        StartGoesTo(s, s1, fd, raspifd);
        SecondErases(s1, fd, k, r2, raspifd);
      }
    }
    hide FirstAnswer, SecondAnswer, Le32, Signed, Adds, FdMap, Routed, Startable;
  }

  lemma FirstErases(s: State, fd: int, r: SendResult, other: int)
    requires s.Sized() && FdMap(s) && s.Live(fd) && other in s.channelMap
    ensures other !in FirstAnswer(s, fd, r).channelMap <==> r.Broken? && other == fd
  {
    var c := s.channelMap[fd];
    var pkg := s.channel[c].pkg.(cmd := CHOOSE_SERVER_RES, fd := fd, len := 4).Put(0, 0);
    SetPkgSameSlots(s, c, pkg, s.channel[c].sent);
    SameSlotsKeepMap(s, SetPkg(s, c, pkg, s.channel[c].sent));
    ResponseOnPool(SetPkg(s, c, pkg, s.channel[c].sent), pkg, r);
    hide Response, Pkg.Put, SetPkg, FdMap;
  }

  lemma SecondErases(s: State, fd: int, k: nat, r: SendResult, other: int)
    requires s.Sized() && FdMap(s) && k < |s.channel| && other in s.channelMap
    ensures other !in SecondAnswer(s, fd, k, r).channelMap <==> r.Broken? && other == s.channel[k].pkg.fd
  {
    var pkg := s.channel[k].pkg.(cmd := START_SEND_DATA_NTF, len := 4).Put(0, fd);
    SetPkgSameSlots(s, k, pkg, s.channel[k].sent);
    SameSlotsKeepMap(s, SetPkg(s, k, pkg, s.channel[k].sent));
    ResponseOnPool(SetPkg(s, k, pkg, s.channel[k].sent), pkg, r);
    hide Response, Pkg.Put, SetPkg, FdMap;
  }

  /** Where the START notification goes, with the head fd left in the buffer. */
  lemma StartGoesTo(s: State, s1: State, fd: int, raspifd: int)
    requires s.Sized() && s1.Sized() && FdMap(s) && Routed(s) && s.Live(fd) && s.Live(raspifd)
    requires s1.channelMap.Keys <= s.channelMap.Keys
    requires forall d :: 0 <= d < CHANNEL_MAX ==>
      s1.channel[d].pkg.fd == if d == s.channelMap[fd] then fd else s.channel[d].pkg.fd
    ensures var to := s1.channel[s.channelMap[raspifd]].pkg.fd;
      if Startable(s, raspifd, fd) then to == raspifd else !s1.Live(to)
  {
  }

  lemma Bridged(s: State, t: State, bridges: map<int, nat>, fd: int, v: bytes, gd: int, w: bytes)
    requires t.Sized() && t.(bridgeMap := bridges).Sized() && FdMap(t) && AddsBoth(s, t, fd, v, gd, w)
    ensures FdMap(t.(bridgeMap := bridges)) && AddsBoth(s, t.(bridgeMap := bridges), fd, v, gd, w)
  {
    assert forall x :: Sent(t.(bridgeMap := bridges), x) == Sent(t, x);
  }

  lemma EncodedWires(fd: int, raspifd: int)
    ensures Chosen(fd) == Encode(Packet(CHOOSE_SERVER_RES, fd, Bytes32(0)))
    ensures Start(raspifd, fd) == Encode(Packet(START_SEND_DATA_NTF, raspifd, Bytes32(fd)))
  {
  }

  lemma StartSent(s: State, t: State, to: int, w: bytes, raspifd: int, fd: int, startable: bool, r: SendResult)
    requires s.Sized() && Adds(s, t, to, if s.Live(to) then Taken(r, w) else [])
    requires startable ==> to == raspifd && w == Start(raspifd, fd) && s.Live(raspifd)
    requires !startable ==> !s.Live(to)
    ensures Adds(s, t, raspifd, if startable then Taken(r, Start(raspifd, fd)) else [])
  {
    hide Taken, Start, Sent;
  }

  /** In particular, a send that takes START whole adds it if and only if the raspi is startable. */
  lemma StartedIff(s: State, f: bytes, fd: int, r: SendResult, r2: SendResult)
    requires s.Sized() && FdMap(s) && Routed(s) && s.Live(fd) && s.Live(Signed(Le32(f, HEAD)))
    requires !ChooseDangles(s, f, fd, r, r2)
    requires Takes(r2)
    ensures var t, raspifd := Choose(s, f, fd, r, r2).0, Signed(Le32(f, HEAD));
      var before := Sent(s, raspifd) + if raspifd == fd then Taken(r, Chosen(fd)) else [];
      Sent(t, raspifd) == before + Start(raspifd, fd) <==> Startable(s, raspifd, fd)
  {
    var raspifd := Signed(Le32(f, HEAD));
    ChoiceStartsExactlyRegistered(s, f, fd, r, r2);
    assert |Start(raspifd, fd)| == 16;
    TakesAll(r2, Start(raspifd, fd));
    hide Choose, ChooseDangles, Start, Chosen, Taken, FdMap, Routed, Startable, Le32, Signed, Sent;
  }

  /** What main of raspi.cpp takes from the START notification, it stamps on its packets, and the
      server relays those to the remote that made the choice: as much as the socket takes of the
      packet is what the remote is sent next, byte for byte, and nobody else is sent anything. */
  lemma StartedPacketsReachTheRemote(s: State, raspifd: int, remotefd: int, cmd: int, body: bytes, r: SendResult,
                                     r2: SendResult)
    requires s.Sized() && s.Live(raspifd) && s.Live(remotefd) && !r.Broken?
    requires 0 < remotefd < 0x8000_0000 && -0x8000_0000 <= raspifd < 0x8000_0000 && |body| <= BUF_SIZE
    requires 0 <= cmd < TWO32
    ensures IsFrame(Start(raspifd, remotefd)) && CmdOf(Start(raspifd, remotefd)) == START_SEND_DATA_NTF
    ensures Signed(Le32(Start(raspifd, remotefd), HEAD)) == remotefd
    ensures var f := Encode(Packet(cmd, Signed(Le32(Start(raspifd, remotefd), HEAD)), body));
      IsFrame(f)
      && (forall x :: Sent(Deliver(s, f, raspifd, r, r2), x) == Sent(s, x) + if x == remotefd then Taken(r, f) else [])
  {
    var p := Packet(START_SEND_DATA_NTF, raspifd, Bytes32(remotefd));
    EncodeDecode(p);
    StartCarries(raspifd, remotefd);
    var q := Packet(cmd, remotefd, body);
    EncodeDecode(q);
    var f := Encode(q);
    assert FdOf(f) == Decode(f).fd;
    assert |f| <= PKG;
    Relayed(s, f, raspifd, remotefd, r, r2);
    hide Encode, Le32, Bytes32, Signed, IsFrame, FdOf, Sent, Deliver;
  }

  lemma StartCarries(raspifd: int, remotefd: int)
    requires 0 < remotefd < 0x8000_0000
    ensures Signed(Le32(Start(raspifd, remotefd), HEAD)) == remotefd
  {
    var a, b := Bytes32(START_SEND_DATA_NTF) + Bytes32(4) + Bytes32(raspifd), Bytes32(remotefd);
    assert Start(raspifd, remotefd) == a + b + [];
    Le32Shift(a, b, []);
    Le32OfBytes32(remotefd);
    SignedFits(remotefd);
  }

  lemma Relayed(s: State, f: bytes, srcfd: int, dstfd: int, r: SendResult, r2: SendResult)
    requires s.Sized() && IsFrame(f) && FdOf(f) == dstfd != 0 && s.Live(srcfd) && s.Live(dstfd) && !r.Broken?
    ensures forall x :: Sent(Deliver(s, f, srcfd, r, r2), x) == Sent(s, x) + if x == dstfd then Taken(r, f) else []
  {
    hide CopyOf, FdOf;
  }

  /** Reading `chunk` on the mapped channel `c` completes a registration, answered without error. */
  predicate Registers(t: State, c: nat, chunk: bytes, r: SendResult)
    requires t.Sized()
  {
    Possible(t, Readable(c, Data(chunk), r, r)) && t.channel[c].fd in t.channelMap && t.channelMap[t.channel[c].fd] == c
    && var o := Reassembly.Feed(t.channel[c].partial, chunk).0;
       o.Complete? && IsFrame(o.f) && FdOf(o.f) == 0 && CmdOf(o.f) == REGISTER_CLIENT_REQ
       && Signed(Le32(o.f, HEAD)) in {0, 1} && !r.Broken?
  }

  /** It is in the map after every step of a run. */
  ghost predicate StaysMapped(u: State, ops: seq<Op>, fd: int)
    requires u.Sized()
  {
    forall i :: 0 <= i <= |ops| ==> Run(u, ops[..i]).Some? && fd in Run(u, ops[..i]).value.channelMap
  }

  /** From a registration on: in every run, a connection that was stamped by its registration and
      stays in the map is started by every later choice of it.  (In every run the fd map and the
      routing hold as required here, and a registration stamps: EveryRunIsRouted and
      RegistrationStamps.) */
  lemma RegisteredIsStarted(u: State, raspifd: int, later: seq<Op>, v: State,
                            f: bytes, remotefd: int, r: SendResult, r2: SendResult)
    requires u.Sized() && FdMap(u) && Routed(u) && Stamped(u, raspifd)
    requires StaysMapped(u, later, raspifd) && Run(u, later) == Some(v)
    requires Signed(Le32(f, HEAD)) == raspifd && v.Live(remotefd) && !ChooseDangles(v, f, remotefd, r, r2)
    ensures AddsBoth(v, Choose(v, f, remotefd, r, r2).0, remotefd, Taken(r, Chosen(remotefd)),
                     raspifd, Taken(r2, Start(raspifd, remotefd)))
  {
    StampLasts(u, later, raspifd);
    hide Run, Choose, ChooseDangles, Start, Chosen, Taken, FdMap, Routed, Stamped, AddsBoth, Le32, Signed, StaysMapped;
    MappedIsLive(v, raspifd);
    ChoiceStartsExactlyRegistered(v, f, remotefd, r, r2);
  }

  lemma MappedIsLive(s: State, fd: int)
    requires s.Sized() && FdMap(s) && Stamped(s, fd)
    ensures s.Live(fd)
  {
  }

  /** After such a read the connection is stamped, and map and routing are as before. */
  lemma RegistrationStamps(t: State, c: nat, chunk: bytes, r: SendResult)
    requires t.Sized() && FdMap(t) && Routed(t) && Registers(t, c, chunk, r)
    ensures var u := Receive(t, c, Data(chunk), r, r);
      Stamped(u, t.channel[c].fd) && FdMap(u) && Routed(u)
  {
    StepKeepsMap(t, Readable(c, Data(chunk), r, r));
    StepKeepsRouting(t, Readable(c, Data(chunk), r, r));
    ReceiveStamps(t, c, chunk, r);
    hide Receive, FdMap, Routed, Stamped, Registers;
  }

  lemma ReceiveStamps(t: State, c: nat, chunk: bytes, r: SendResult)
    requires t.Sized() && FdMap(t) && Registers(t, c, chunk, r)
    ensures Stamped(Receive(t, c, Data(chunk), r, r), t.channel[c].fd)
  {
    var fd := t.channel[c].fd;
    var req := Reassembly.Feed(t.channel[c].partial, chunk).0.f;
    RegisterStamps(t, req, fd, r);
    assert Stamped(Register(t, req, fd, r).0, fd);
    hide Register, IsFrame, FdOf, CmdOf, Reassembly.Feed;
  }
}
