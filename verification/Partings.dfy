/** What becomes of a raspi when its remote leaves: when it is told to stop, and which one; which
    connections are only released, and which packets are only dropped. */
module Partings {
  import opened Common
  import opened Wire
  import opened ServerState
  import opened ServerRuns
  import opened Notifications
  import opened Bystanders
  import opened Registrations
  import Reassembly

  function Stop(raspifd: int): bytes {
    Encode(Packet(RESTART_CLIENT_NTF, raspifd, Bytes32(1)))
  }

  /** The server's notifications byte for byte, for small fds: command, length 4, fd and the one field. */
  lemma NotificationBytes(raspi: byte, remote: byte)
    ensures Chosen(remote as int) == [5, 0, 0, 0, 4, 0, 0, 0, remote, 0, 0, 0, 0, 0, 0, 0]
    ensures Start(raspi as int, remote as int) == [6, 0, 0, 0, 4, 0, 0, 0, raspi, 0, 0, 0, remote, 0, 0, 0]
    ensures Stop(raspi as int) == [7, 0, 0, 0, 4, 0, 0, 0, raspi, 0, 0, 0, 1, 0, 0, 0]
  {
    SmallPacket(5, remote, 0);
    SmallPacket(6, raspi, remote);
    SmallPacket(7, raspi, 1);
    hide Encode, Bytes32;
  }

  lemma SmallPacket(cmd: byte, fd: byte, x: byte)
    ensures Encode(Packet(cmd as int, fd as int, Bytes32(x as int))) ==
      [cmd, 0, 0, 0, 4, 0, 0, 0, fd, 0, 0, 0, x, 0, 0, 0]
  {
    LittleEndian(cmd, 0, 0, 0);
    LittleEndian(4, 0, 0, 0);
    LittleEndian(fd, 0, 0, 0);
    LittleEndian(x, 0, 0, 0);
    hide Bytes32, Le32;
  }

  /** The raspi the bridge of the connection in slot `c` leads to, if it is a remote's. */
  function Bridged(s: State, c: nat): Option<int>
    requires s.Sized() && c < |s.channel|
  {
    var x := s.channel[c];
    if x.kind.Remote? && x.fd in s.bridgeMap then Some(s.channel[s.bridgeMap[x.fd]].fd) else None
  }

  /** check_break_fd: a remote's raspi is sent the notification to stop, as far as the send takes, if it is
      still there, and nobody else is sent anything; the bridge is gone.  Without a bridge nothing
      happens. */
  lemma BreakTells(s: State, kind: ClientType, fd: int, r: SendResult)
    requires s.Sized() && FdMap(s)
    ensures var t := CheckBreak(s, kind, fd, r);
      if kind.Remote? && fd in s.bridgeMap then
        var to := s.channel[s.bridgeMap[fd]].fd;
        Adds(s, t, to, if s.Live(to) then Taken(r, Stop(to)) else [])
        && t.bridgeMap == s.bridgeMap - {fd} && t.channelMap.Keys <= s.channelMap.Keys
      else t == s
  {
    if kind.Remote? && fd in s.bridgeMap {
      var to := s.channel[s.bridgeMap[fd]].fd;
      var pkg := Empty().(fd := to, cmd := RESTART_CLIENT_NTF, len := 4);
      PutWire(pkg, 1);
      Revived(s, kind, fd, r);
      hide CheckBreak, FdMap, Pkg.Put, Pkg.Wire, Empty, Taken, Sent, Response;
      Answered(s, pkg.Put(0, 1), r);
    }
  }

  /** check_break_fd does to the maps and to what is sent what its response does, but for the bridge. */
  lemma Revived(u: State, kind: ClientType, fd: int, r: SendResult)
    requires u.Sized() && kind.Remote? && fd in u.bridgeMap
    ensures var pkg := Empty().(fd := u.channel[u.bridgeMap[fd]].fd, cmd := RESTART_CLIENT_NTF, len := 4).Put(0, 1);
      var t, v := CheckBreak(u, kind, fd, r), Response(u, pkg, r).0;
      (forall y :: Sent(t, y) == Sent(v, y)) && t.bridgeMap == v.bridgeMap - {fd} && t.channelMap == v.channelMap
      && (forall c :: 0 <= c < CHANNEL_MAX && c != u.bridgeMap[fd] ==> t.channel[c] == v.channel[c])
      && t.channel[u.bridgeMap[fd]].status.Active?
  {
    hide Response, Empty, Pkg.Put;
  }

  /** The bridges once the connection in slot `c` is gone. */
  function BridgesWithout(s: State, c: nat): map<int, nat>
    requires c < |s.channel|
  {
    if s.channel[c].kind.Remote? then s.bridgeMap - {s.channel[c].fd} else s.bridgeMap
  }

  /** A connection closes: its raspi is sent the notification to stop, as far as the send takes, if and
      only if it is bridged to one that is another connection and still there; nobody else is sent
      anything.  The bridge is gone and the fd unmapped; the slot is released unless the bridge led to
      that slot itself. */
  lemma CloseTellsTheBridged(s: State, c: nat, r: SendResult, r2: SendResult)
    requires s.Sized() && FdMap(s) && c < |s.channel| && s.Live(s.channel[c].fd) && s.channelMap[s.channel[c].fd] == c
    ensures var t, fd := Receive(s, c, Closed, r, r2), s.channel[c].fd;
      var to := Bridged(s, c);
      var told := to.Some? && to.value != fd && s.Live(to.value);
      Adds(s, t, if told then to.value else 0, if told then Taken(r, Stop(to.value)) else [])
      && t.bridgeMap == BridgesWithout(s, c) && fd !in t.channelMap
      && (t.channel[c].status.NonActive? <==> !(to.Some? && s.bridgeMap[fd] == c))
  {
    var x, u := s.channel[c], FreeChannel(s, c);
    Unmaps(s, c);
    hide FreeChannel, CheckBreak, FdMap, Taken, Sent, Stop, Adds;
    BreakTells(u, x.kind, x.fd, r);
    BreakFrees(u, x.kind, x.fd, r, c);
    SentAlike(s, u, Receive(s, c, Closed, r, r2));
  }

  /** What free_channel does to a connection that is in the map. */
  lemma Unmaps(s: State, c: nat)
    requires s.Sized() && FdMap(s) && c < |s.channel| && s.channel[c].idx == c
    ensures var t, fd := FreeChannel(s, c), s.channel[c].fd;
      FdMap(t) && t.channelMap == s.channelMap - {fd} && t.bridgeMap == s.bridgeMap && t.wire == s.wire
      && t.channel[c].status.NonActive? && (forall k :: 0 <= k < CHANNEL_MAX ==> t.channel[k].fd == s.channel[k].fd)
      && (s.Live(fd) && s.channelMap[fd] == c ==> forall y :: t.Live(y) <==> y != fd && s.Live(y))
  {
    FreeKeepsMap(s, c);
  }

  lemma SentAlike(s: State, u: State, t: State)
    requires s.wire == u.wire
    ensures forall x, w :: Adds(u, t, x, w) <==> Adds(s, t, x, w)
    ensures forall x, y: int :: Adds(s, t, x, []) <==> Adds(s, t, y, [])
  {
    assert forall x :: Sent(s, x) == Sent(u, x);
  }

  /** Breaking a bridge makes only the slot it leads to ACTIVE. */
  lemma BreakFrees(s: State, kind: ClientType, fd: int, r: SendResult, c: nat)
    requires s.Sized() && FdMap(s) && c < |s.channel| && s.channel[c].status.NonActive?
    ensures CheckBreak(s, kind, fd, r).channel[c].status.NonActive? <==>
      !(kind.Remote? && fd in s.bridgeMap && s.bridgeMap[fd] == c)
  {
    if kind.Remote? && fd in s.bridgeMap {
      var pkg := Empty().(fd := s.channel[s.bridgeMap[fd]].fd, cmd := RESTART_CLIENT_NTF, len := 4).Put(0, 1);
      Revived(s, kind, fd, r);
      ResponseOnPool(s, pkg, r);
      hide Response, CheckBreak, Empty, Pkg.Put;
    }
  }

  // ---------------------------------------------------------------- a send that fails

  /** What becomes of the connection in slot `c` when its send fails: its raspi, itself if the bridge leads
      there, is told to stop if it is still there, nobody else is sent anything, the bridge is gone, and
      slot and fd are released. */
  ghost predicate Parts(s: State, t: State, c: nat, r: SendResult)
    requires s.Sized() && c < |s.channel| && c < |t.channel|
  {
    var to := Bridged(s, c);
    var told := to.Some? && s.Live(to.value);
    Adds(s, t, if told then to.value else 0, if told then Taken(r, Stop(to.value)) else [])
    && t.bridgeMap == BridgesWithout(s, c) && s.channel[c].fd !in t.channelMap && t.channel[c].status.NonActive?
  }

  lemma DropParts(s: State, c: nat, r: SendResult)
    requires s.Sized() && FdMap(s) && c < |s.channel| && s.channel[c].idx == c
    ensures Parts(s, Drop(s, c, r), c, r)
  {
    var x := s.channel[c];
    var v := CheckBreak(s, x.kind, x.fd, r);
    BreakTells(s, x.kind, x.fd, r);
    BreakKeepsNames(s, x.kind, x.fd, r);
    CheckBreakKeepsMap(s, x.kind, x.fd, r);
    Unmaps(v, c);
    hide FreeChannel, CheckBreak, FdMap, Taken, Sent, Stop, Adds;
    SentAlikeAfter(s, v, Drop(s, c, r));
  }

  lemma SentAlikeAfter(s: State, v: State, t: State)
    requires v.wire == t.wire
    ensures forall x, w :: Adds(s, v, x, w) <==> Adds(s, t, x, w)
    ensures forall x :: Adds(s, s, x, [])
  {
    assert forall x :: Sent(v, x) == Sent(t, x);
  }

  lemma BreakKeepsNames(s: State, kind: ClientType, fd: int, r: SendResult)
    requires s.Sized()
    ensures var t := CheckBreak(s, kind, fd, r);
      forall k :: 0 <= k < CHANNEL_MAX ==> t.channel[k].fd == s.channel[k].fd && t.channel[k].idx == s.channel[k].idx
  {
    if kind.Remote? && fd in s.bridgeMap {
      var pkg := Empty().(fd := s.channel[s.bridgeMap[fd]].fd, cmd := RESTART_CLIENT_NTF, len := 4).Put(0, 1);
      ResponseKeepsNames(s, pkg, r);
      hide Response, Empty, Pkg.Put;
    }
  }

  /** A resumed send that fails. */
  lemma FailedSendParts(s: State, c: nat, r2: SendResult)
    requires s.Sized() && FdMap(s) && c < |s.channel| && s.channel[c].sent <= |s.channel[c].pkg.Wire()|
    requires s.Live(s.channel[c].fd) && s.channelMap[s.channel[c].fd] == c
    ensures var t := Flush(s, c, Broken, r2); t.Some? && Parts(s, t.value, c, r2)
  {
    DropParts(s, c, r2);
    hide Drop, FdMap, Pkg.Wire;
  }

  /** A relayed packet whose send to the destination fails. */
  lemma FailedRelayParts(s: State, f: bytes, srcfd: int, dstfd: int, r2: SendResult)
    requires s.Sized() && FdMap(s) && IsFrame(f) && s.Live(srcfd) && s.Live(dstfd)
    ensures Parts(s, Dispatch(s, f, srcfd, dstfd, Broken, r2).0, s.channelMap[dstfd], r2)
  {
    var b := s.channelMap[dstfd];
    var s1 := SetPkg(s, b, CopyOf(f, s.channel[b].pkg), 0);
    hide CopyOf, Drop, FdMap, Stop, Taken, Adds, Dispatch, SetPkg, IsFrame;
    FailedRelayIs(s, f, srcfd, dstfd, r2);
    OnlyFillsIn(s, b, CopyOf(f, s.channel[b].pkg));
    DropParts(s1, b, r2);
    SentAlike(s, s1, Drop(s1, b, r2));
  }

  lemma FailedRelayIs(s: State, f: bytes, srcfd: int, dstfd: int, r2: SendResult)
    requires s.Sized() && IsFrame(f) && s.Live(srcfd) && s.Live(dstfd)
    ensures var b := s.channelMap[dstfd];
      Dispatch(s, f, srcfd, dstfd, Broken, r2).0 == Drop(SetPkg(s, b, CopyOf(f, s.channel[b].pkg), 0), b, r2)
  {
    hide CopyOf, Drop, SetPkg, IsFrame;
  }

  lemma OnlyFillsIn(s: State, b: nat, pkg: Pkg)
    requires s.Sized() && FdMap(s) && b < |s.channel| && pkg.Sized()
    ensures var t := SetPkg(s, b, pkg, 0);
      FdMap(t) && t.wire == s.wire && t.bridgeMap == s.bridgeMap && t.channelMap == s.channelMap
      && t.channel[b].fd == s.channel[b].fd && t.channel[b].idx == s.channel[b].idx
      && Bridged(t, b) == Bridged(s, b) && BridgesWithout(t, b) == BridgesWithout(s, b)
      && forall x :: t.Live(x) <==> s.Live(x)
  {
  }

  // ---------------------------------------------------------------- a connection that is refused

  /** Slot `c` is released and its fd unmapped; nothing else changes and nobody is sent anything, so a
      bridge of the connection stays. */
  ghost predicate OnlyReleases(s: State, t: State, c: nat)
    requires s.Sized() && c < |s.channel|
  {
    t.wire == s.wire && t.bridgeMap == s.bridgeMap && t.channelMap == s.channelMap - {s.channel[c].fd}
    && |t.channel| == |s.channel| && (forall k :: 0 <= k < |s.channel| && k != c ==> t.channel[k] == s.channel[k])
    && var x := t.channel[c];
       x.status.NonActive? && !x.reading && !x.writing && x.sent == 0 && x.partial == []
       && x.fd == s.channel[c].fd && x.kind == s.channel[c].kind && x.src == s.channel[c].src
  }

  /** A read after which a whole head announces more than 1400 bytes. */
  lemma BadLengthReleases(s: State, c: nat, chunk: bytes, r: SendResult, r2: SendResult)
    requires s.Sized() && c < |s.channel| && s.channel[c].idx == c && ReadFits(s, c, Data(chunk))
    requires var q := s.channel[c].partial + chunk; |q| >= 12 && LenOf(q) > 1400
    ensures OnlyReleases(s, Receive(s, c, Data(chunk), r, r2), c)
  {
  }

  /** A read that fails: nobody is told. */
  lemma ErrorTellsNobody(s: State, c: nat, r: SendResult, r2: SendResult)
    requires s.Sized() && c < |s.channel|
    ensures Receive(s, c, ReadError, r, r2).wire == s.wire
    ensures s.channel[c].idx == c ==> OnlyReleases(s, Receive(s, c, ReadError, r, r2), c)
  {
  }

  /** A packet that is dropped: it is for the server with a command other than 1 and 4, with command 1 and a
      type other than 0 and 1, or with command 4 and an fd that is not in the map; or for a connection
      that is not in the map; or from one that is not.  Reading it changes nothing but its own receive
      buffer: nobody is sent anything and no slot, bridge or watcher changes. */
  lemma RefusedIsDropped(s: State, c: nat, chunk: bytes, r: SendResult, r2: SendResult)
    requires s.Sized() && FdMap(s) && c < |s.channel| && ReadFits(s, c, Data(chunk))
    requires var o := Reassembly.Feed(s.channel[c].partial, chunk).0;
      o.Complete?
      && (s.channel[c].fd !in s.channelMap
          || if FdOf(o.f) != 0 then FdOf(o.f) !in s.channelMap
             else if CmdOf(o.f) == 1 then Signed(Le32(o.f, 12)) !in {0, 1}
             else CmdOf(o.f) == 4 ==> Signed(Le32(o.f, 12)) !in s.channelMap)
    ensures Receive(s, c, Data(chunk), r, r2) == s.With(c, s.channel[c].(partial := []))
  {
    WholeFrame(s.channel[c].partial, chunk);
    hide Reassembly.Feed, Le32, Signed, IsFrame, Response;
  }

  lemma ChoiceKeepsFds(s: State, f: bytes, fd: int, r: SendResult, r2: SendResult)
    requires s.Sized() && s.Live(fd) && s.Live(Signed(Le32(f, HEAD)))
    ensures var t := Choose(s, f, fd, r, r2).0;
      forall c :: 0 <= c < CHANNEL_MAX ==> t.channel[c].fd == s.channel[c].fd
  {
    var c, k := s.channelMap[fd], s.channelMap[Signed(Le32(f, HEAD))];
    var pkg := s.channel[c].pkg.(cmd := CHOOSE_SERVER_RES, fd := fd, len := 4).Put(0, 0);
    var s1 := FirstAnswer(s, fd, r);
    var pkg2 := s1.channel[k].pkg.(cmd := START_SEND_DATA_NTF, len := 4).Put(0, fd);
    ChoiceIs(s, f, fd, r, r2);
    ResponseKeepsNames(SetPkg(s, c, pkg, s.channel[c].sent), pkg, r);
    ResponseKeepsNames(SetPkg(s1, k, pkg2, s1.channel[k].sent), pkg2, r2);
    hide Response, Pkg.Put, Choose, Le32, Signed;
  }

  /** A remote chooses a raspi, its two notifications do not fail, and it closes at once: the raspi it
      chose is told to stop if and only if no bridge was left for that fd before, or one to the same
      raspi.  An earlier choice counts instead, and so does one of an earlier connection of that fd. */
  lemma ChosenIsToldIff(s: State, f: bytes, fd: int, r: SendResult, r2: SendResult)
    requires s.Sized() && FdMap(s) && Routed(s) && s.Live(fd) && s.channel[s.channelMap[fd]].kind.Remote?
    requires s.Live(Signed(Le32(f, HEAD))) && Signed(Le32(f, HEAD)) != fd && !r.Broken? && !r2.Broken?
    ensures var t, c, raspifd := Choose(s, f, fd, r, r2).0, s.channelMap[fd], Signed(Le32(f, HEAD));
      Bridged(t, c).Some? && raspifd != fd && t.Live(raspifd)
      && (Bridged(t, c).value == raspifd <==> fd !in s.bridgeMap || s.channel[s.bridgeMap[fd]].fd == raspifd)
  {
    var raspifd := Signed(Le32(f, HEAD));
    ChooseDanglesIff(s, f, fd, r, r2);
    ChoiceStartsExactlyRegistered(s, f, fd, r, r2);
    ChoiceKeepsFds(s, f, fd, r, r2);
    ChooseKeepsKinds(s, f, fd, r, r2);
    assert s.channel[s.channelMap[raspifd]].fd == raspifd && s.channel[s.channelMap[fd]].fd == fd;
    hide Choose, ChooseDangles, Le32, Signed, AddsBoth, FdMap, Routed, Startable;
  }
}
