/** The relay server as its callbacks run it: a static array of channels, the fd map and the bridge
    map, changed in place.  Every method is proved to do exactly what ServerState says. */
module Server {
  import opened Common
  import opened Wire
  import opened Reassembly
  import opened ServerState
  import ServerRuns

  class Server {
    const channel: array<Channel>
    var channelMap: map<int, nat>
    var bridgeMap: map<int, nat>
    ghost var wire: map<int, bytes>

    ghost function Value(): State
      reads this, channel
    {
      State(channel[..], channelMap, bridgeMap, wire)
    }

    ghost predicate Valid()
      reads this, channel
    {
      Value().Sized()
    }

    constructor ()
      ensures Valid() && fresh(channel) && ServerRuns.Fresh(Value())
    {
      channel := new Channel[CHANNEL_MAX](_ => Channel(0, NonActive, 0, Raspi, [], false, Empty(), 0, false, None));
      channelMap, bridgeMap, wire := map[], map[], map[];
    }

    method Set(c: nat, x: Channel)
      requires Valid() && c < channel.Length && x.pkg.Sized() && (x.src.Some? ==> x.src.value < channel.Length)
      modifies channel
      ensures Valid() && Value() == old(Value()).With(c, x)
    {
      channel[c] := x;
      assert channel[..] == old(channel[..])[c := x];
    }

    /** The bytes a send takes. */
    ghost method Sends(fd: int, bs: bytes)
      requires Valid()
      modifies this`wire
      ensures Valid() && Value() == old(Value()).Out(fd, bs)
    {
      wire := wire[fd := (if fd in wire then wire[fd] else []) + bs];
    }

    /** channel_map.find followed by the check for ACTIVE. */
    method Find(fd: int) returns (c: Option<nat>)
      requires Valid()
      ensures c == if Value().Live(fd) then Some(channelMap[fd]) else None
      ensures c.Some? ==> c.value < channel.Length && fd in channelMap
    {
      if fd in channelMap && channel[channelMap[fd]].status.Active? {
        return Some(channelMap[fd]);
      }
      c := None;
    }

    // -------------------------------------------------------------- server.cpp

    method GetFreeChannel() returns (c: Option<nat>)
      requires Valid()
      modifies channel
      ensures Valid()
      ensures var s, k := old(Value()), FirstFree(old(Value()).channel);
        if k == CHANNEL_MAX then c == None && Value() == s
        else c == Some(k) && Value() == s.With(k, Constructed(s.channel[k], k))
    {
      for i := 0 to CHANNEL_MAX
        invariant Valid() && Value() == old(Value())
        invariant forall j :: 0 <= j < i ==> channel[j].status.Active?
      {
        if channel[i].status.NonActive? {
          FirstFreeIs(channel[..], i);
          Set(i, channel[i].(status := Active, idx := i, partial := [], pkg := Empty(), sent := 0));
          return Some(i);
        }
      }
      FirstFreeIs(channel[..], CHANNEL_MAX);
      c := None;
    }

    /** accept_cb for the connection `fd`; with no free slot the code goes on with a null pointer. */
    method AcceptCb(fd: int) returns (ok: bool)
      requires Valid()
      modifies this, channel
      ensures ok <==> Accept(old(Value()), fd).Some?
      ensures ok ==> Valid() && Value() == Accept(old(Value()), fd).value
    {
      var c := GetFreeChannel();
      if c.None? {
        return false;
      }
      var k := c.value;
      Set(k, channel[k].(fd := fd));
      if fd !in channelMap {
        channelMap := channelMap[fd := k];
      }
      wire := wire[fd := []];
      Set(k, channel[k].(reading := true, writing := false));
      assert Value().channel == Accept(old(Value()), fd).value.channel;
      ok := true;
    }

    /** free_channel */
    method Free(c: nat)
      requires Valid() && c < channel.Length
      modifies this`channelMap, channel
      ensures Valid() && Value() == FreeChannel(old(Value()), c)
    {
      var k := channel[c].idx;
      if k >= CHANNEL_MAX || k < 0 {
        return;
      }
      Set(k, channel[k].(status := NonActive, partial := [], sent := 0));
      Set(k, channel[k].(reading := false));
      Set(k, channel[k].(writing := false));
      var fd := channel[k].fd;
      channelMap := channelMap - {fd};
      assert Value().channel == FreeChannel(old(Value()), c).channel;
    }

    /** response */
    method Respond(pkg: Pkg, r: SendResult) returns (ret: int)
      requires Valid() && pkg.Sized()
      modifies this, channel
      ensures Valid() && (Value(), ret) == Response(old(Value()), pkg, r)
      ensures bridgeMap == old(bridgeMap)
    {
      var found := Find(pkg.fd);
      if found.None? {
        return -1;
      }
      var c := found.value;
      Set(c, channel[c].(sent := 0));
      hide Pkg.Wire, FreeChannel;
      var w := pkg.Wire();
      match r {
        case Again =>
          Set(c, channel[c].(writing := true));
        case Broken =>
          Free(c);
        case Took(n0) =>
          var s := Cut(n0, |w|);
          Sends(pkg.fd, w[..s]);
          if s < |w| {
            Set(c, channel[c].(sent := s));
            Set(c, channel[c].(writing := true));
          } else {
            assert w[..s] == w;
            Set(c, channel[c].(reading := true));
          }
      }
      assert Value().channel == Response(old(Value()), pkg, r).0.channel;
      ret := 0;
    }

    method CheckBreakFd(kind: ClientType, fd: int, r: SendResult)
      requires Valid()
      modifies this, channel
      ensures Valid() && Value() == CheckBreak(old(Value()), kind, fd, r)
    {
      if kind == Remote && fd in bridgeMap {
        var k := bridgeMap[fd];
        var pkg := Empty().(fd := channel[k].fd, cmd := RESTART_CLIENT_NTF, len := 4).Put(0, 1);
        var ret := Respond(pkg, r);
        hide Response;
        Set(k, channel[k].(status := Active));
        bridgeMap := bridgeMap - {fd};
      }
    }

    // -------------------------------------------------------------- handler.cpp

    /** dispatch of a received packet; not ok where it follows a map entry that is gone. */
    method Relay(f: bytes, srcfd: int, dstfd: int, r: SendResult, r2: SendResult) returns (ret: int, ok: bool)
      requires Valid() && IsFrame(f)
      modifies this, channel
      ensures ok <==> !DispatchDangles(old(Value()), srcfd, dstfd, r, r2)
      ensures Valid() && (ok ==> (Value(), ret) == Dispatch(old(Value()), f, srcfd, dstfd, r, r2))
    {
      var src := Find(srcfd);
      if src.None? {
        return -1, true;
      }
      var dst := Find(dstfd);
      if dst.None? {
        return -2, true;
      }
      var a, b := src.value, dst.value;
      Set(b, channel[b].(pkg := CopyOf(f, channel[b].pkg)));
      Set(b, channel[b].(sent := 0));
      ghost var s1 := SetPkg(old(Value()), b, CopyOf(f, old(Value()).channel[b].pkg), 0);
      assert Value().channel == s1.channel;
      hide CopyOf, IsFrame, SetPkg, CheckBreak, FreeChannel, DispatchDangles, Stall, Resume;
      match r {
        case Again =>
          StopReading(a, b, 0);
        case Broken =>
          DispatchErases(old(Value()), b, s1, srcfd, dstfd, r, r2);
          CheckBreakFd(channel[b].kind, channel[b].fd, r2);
          if dstfd !in channelMap {
            return 0, false;
          }
          Free(b);
        case Took(n0) =>
          var s := Cut(n0, |f|);
          Sends(dstfd, f[..s]);
          if s < |f| {
            StopReading(a, b, s);
          } else {
            StartReading(a, b);
          }
      }
      ret, ok := 0, true;
    }

    /** An answer written into a send buffer. */
    method Fill(c: nat, pkg: Pkg)
      requires Valid() && c < channel.Length && pkg.Sized()
      modifies channel
      ensures Valid() && Value() == SetPkg(old(Value()), c, pkg, old(channel[c].sent)) && channel[c].pkg == pkg
    {
      Set(c, channel[c].(pkg := pkg));
    }

    /** An fd written into a send buffer. */
    method PutFd(c: nat, at: nat, fd: int)
      requires Valid() && c < channel.Length && at + 4 <= BUF_SIZE
      modifies channel
      ensures Valid() && |Value().channel| == |old(Value()).channel|
      ensures Value() == SetPkg(old(Value()), c, old(Value()).channel[c].pkg.Put(at, fd), old(Value()).channel[c].sent)
    {
      hide Pkg.Put;
      Fill(c, channel[c].pkg.Put(at, fd));
    }

    /** it->second for the entry of `fd` */
    method Slot(fd: int) returns (x: Channel)
      requires Valid() && fd in Value().channelMap
      ensures x == Value().channel[Value().channelMap[fd]]
    {
      x := channel[channelMap[fd]];
    }

    /** An answer written into a send buffer and sent from there. */
    method Answer(c: nat, pkg: Pkg, r: SendResult)
      requires Valid() && c < channel.Length && pkg.Sized()
      modifies this, channel
      ensures Valid() && Value() == Response(SetPkg(old(Value()), c, pkg, old(channel[c].sent)), pkg, r).0
      ensures bridgeMap == old(bridgeMap)
    {
      Fill(c, pkg);
      hide Response, SetPkg;
      var ret := Respond(channel[c].pkg, r);
    }

    /** The watchers when a packet did not go out whole. */
    method StopReading(a: nat, b: nat, s: nat)
      requires Valid() && a < channel.Length && b < channel.Length
      modifies channel
      ensures Valid() && Value() == Stall(old(Value()), a, b, s)
    {
      Set(a, channel[a].(reading := false));
      Set(b, channel[b].(writing := true));
      Set(b, channel[b].(src := Some(a), sent := s));
      assert Value().channel == Stall(old(Value()), a, b, s).channel;
    }

    /** The watchers when it did. */
    method StartReading(a: nat, b: nat)
      requires Valid() && a < channel.Length && b < channel.Length
      modifies channel
      ensures Valid() && Value() == Resume(old(Value()), a, b)
    {
      Set(b, channel[b].(writing := false));
      Set(a, channel[a].(reading := true));
    }

    method HandleRegisterClientReq(f: bytes, fd: int, r: SendResult) returns (ret: int)
      requires Valid()
      modifies this, channel
      ensures Valid() && (Value(), ret) == Register(old(Value()), f, fd, r)
    {
      var found := Find(fd);
      if found.None? {
        return -1;
      }
      var c := found.value;
      var kind := Signed(Le32(f, HEAD));
      if kind != 0 && kind != 1 {
        return -1;
      }
      Set(c, channel[c].(kind := if kind == 0 then Raspi else Remote));
      hide Response, PutFds, RaspiFds, Pkg.Put, SetPkg;
      Fill(c, channel[c].pkg.(cmd := REGISTER_CLIENT_RES, fd := fd, len := 36).Put(0, 0));
      if kind == 1 {
        var full := ListRaspis(c);
        if full {
          return -1;
        }
      }
      ret := Respond(channel[c].pkg, r);
      ret := 0;
    }

    /** The fds of the ACTIVE raspis, in the order of the fd map, written one after the other into the
        answer in the send buffer of `c`; the eighth one ends it. */
    method ListRaspis(c: nat) returns (full: bool)
      requires Valid() && c < channel.Length
      modifies channel
      ensures Valid() && Listed(old(Value()), Value(), c, full)
    {
      var i := 0;
      var keys := channelMap.Keys;
      ghost var s := Value();
      ghost var p := s.channel[c].pkg;
      hide PutFds, Least, RaspiFds, SortedRaspis, Pkg.Put, Listing, Listed, SetPkg, FirstFew, Value;
      SetPkgSame(s, c);
      ListingStarts(s, p);
      while keys != {}
        invariant Valid() && c < channel.Length && keys <= s.channelMap.Keys && 0 <= i < 8 && p.Sized()
        invariant Value() == SetPkg(s, c, p, s.channel[c].sent)
        invariant Listing(s, keys, s.channel[c].pkg, p, i)
        decreases |keys|
      {
        var k := Least(keys);
        SetPkgOf(s, c, p, s.channel[c].sent);
        var x := Slot(k);
        ListingStep(s, keys, s.channel[c].pkg, p, i, x);
        if x.status == Active && x.kind == Raspi {
          SetPkgTwice(s, c, p, p.Put(4 + 4 * i, x.fd), s.channel[c].sent);
          p := p.Put(4 + 4 * i, x.fd);
          PutFd(c, 4 + 4 * i, x.fd);
          i := i + 1;
          if i >= 8 {
            ListingFull(s, c, p, Value());
            return true;
          }
        }
        keys := keys - {k};
      }
      ListingEnds(s, c, p, i, Value());
      full := false;
    }

    /** Not ok where it follows the raspi's map entry after one of the two answers erased it. */
    method HandleChooseServerReq(f: bytes, fd: int, r: SendResult, r2: SendResult) returns (ret: int, ok: bool)
      requires Valid()
      modifies this, channel
      ensures ok <==> !ChooseDangles(old(Value()), f, fd, r, r2)
      ensures Valid() && (ok ==> (Value(), ret) == Choose(old(Value()), f, fd, r, r2))
    {
      hide Response, Pkg.Put, SetPkg, Le32, Signed, State.Live, Erases;
      var raspifd := Signed(Le32(f, HEAD));
      var remote := Find(fd);
      if remote.None? {
        return -1, true;
      }
      var raspi := Find(raspifd);
      if raspi.None? {
        return -1, true;
      }
      var c, k := remote.value, raspi.value;
      Answer(c, channel[c].pkg.(cmd := CHOOSE_SERVER_RES, fd := fd, len := 4).Put(0, 0), r);
      if raspifd !in channelMap {
        return -1, false;
      }
      Answer(k, channel[k].pkg.(cmd := START_SEND_DATA_NTF, len := 4).Put(0, fd), r2);
      if raspifd !in channelMap {
        return -1, false;
      }
      if fd !in bridgeMap {
        bridgeMap := bridgeMap[fd := k];
      }
      ret, ok := 0, true;
    }

    // -------------------------------------------------------------- the i/o callbacks

    /** server_recv_cb for what recv gave; not ok where the bytes pass the end of the buffer, or the
        packet's handling follows a map entry that is gone. */
    method ServerRecvCb(c: nat, got: ReadResult, r: SendResult, r2: SendResult) returns (ok: bool)
      requires Valid() && c < channel.Length
      requires got.Data? ==> 1 <= |got.chunk| <= Need(channel[c].partial)
      modifies this, channel
      ensures ok <==> ReadFits(old(Value()), c, got) && !Dangles(old(Value()), c, got, r, r2)
      ensures ok ==> Valid() && Value() == Receive(old(Value()), c, got, r, r2)
    {
      hide FreeChannel, CheckBreak, Register, Choose, Dispatch, DeliverDangles, Deliver;
      ok := true;
      var fd := channel[c].fd;
      match got {
        case Closed =>
          var kind := channel[c].kind;
          Free(c);
          CheckBreakFd(kind, fd, r);
        case Nothing =>
          Set(c, channel[c].(reading := true));
        case ReadError =>
          Free(c);
        case Data(chunk) =>
          var p := channel[c].partial + chunk;
          if |p| > PKG {
            return false;
          }
          if |p| < HEAD {
            Set(c, channel[c].(partial := p));
          } else if LenOf(p) > BUF_SIZE {
            Free(c);
          } else if |p| < HEAD + LenOf(p) {
            Set(c, channel[c].(partial := p, reading := true));
          } else {
            WholeFrame(channel[c].partial, chunk);
            ok := Hand(p, fd, r, r2);
            if ok {
              Set(c, channel[c].(partial := []));
            }
          }
      }
    }

    /** A whole packet: for the server itself, or to be relayed. */
    method Hand(f: bytes, fd: int, r: SendResult, r2: SendResult) returns (ok: bool)
      requires Valid() && IsFrame(f)
      modifies this, channel
      ensures ok <==> !DeliverDangles(old(Value()), f, fd, r, r2)
      ensures Valid() && (ok ==> Value() == Deliver(old(Value()), f, fd, r, r2))
    {
      hide Register, Choose, Dispatch, ChooseDangles, DispatchDangles;
      var ret;
      ok := true;
      if FdOf(f) == 0 {
        if CmdOf(f) == REGISTER_CLIENT_REQ {
          ret := HandleRegisterClientReq(f, fd, r);
        } else if CmdOf(f) == CHOOSE_SERVER_REQ {
          ret, ok := HandleChooseServerReq(f, fd, r, r2);
        }
      } else {
        ret, ok := Relay(f, fd, FdOf(f), r, r2);
      }
    }

    /** server_send_cb; false where it follows a source that was never set. */
    method ServerSendCb(c: nat, r: SendResult, r2: SendResult) returns (ok: bool)
      requires Valid() && c < channel.Length && channel[c].sent <= |channel[c].pkg.Wire()|
      modifies this, channel
      ensures ok <==> Flush(old(Value()), c, r, r2).Some?
      ensures ok ==> Valid() && Value() == Flush(old(Value()), c, r, r2).value
    {
      hide Pkg.Wire, CheckBreak, FreeChannel;
      ok := true;
      match r {
        case Again =>
          Set(c, channel[c].(writing := true));
        case Broken =>
          CheckBreakFd(channel[c].kind, channel[c].fd, r2);
          Free(c);
        case Took(n0) =>
          ok := Push(c, n0);
      }
    }

    /** The send took some of what is left; false as above. */
    method Push(c: nat, n0: nat) returns (ok: bool)
      requires Valid() && c < channel.Length && channel[c].sent <= |channel[c].pkg.Wire()|
      modifies this, channel
      ensures ok <==> Flush(old(Value()), c, Took(n0), Again).Some?
      ensures ok ==> Valid() && Value() == Flush(old(Value()), c, Took(n0), Again).value
    {
      hide Pkg.Wire, Drop, Resume;
      var w := channel[c].pkg.Wire();
      var at := channel[c].sent;
      var s := Cut(n0, |w| - at);
      Sends(channel[c].fd, w[at..at + s]);
      Set(c, channel[c].(sent := at + s));
      ghost var s1 := old(Value()).With(c, old(channel[c]).(sent := at + s)).Out(old(channel[c]).fd, w[at..at + s]);
      assert Value() == s1;
      if channel[c].sent < |w| {
        Set(c, channel[c].(writing := true));
      } else {
        Set(c, channel[c].(reading := true));
        if channel[c].src.None? {
          return false;
        }
        StartReading(channel[c].src.value, c);
      }
      ok := true;
    }
  }

  /** A slot as get_free_channel hands it out. */
  function Constructed(x: Channel, k: nat): Channel {
    x.(status := Active, idx := k, partial := [], pkg := Empty(), sent := 0)
  }

  // ---------------------------------------------------------------- what becomes of the map entries

  lemma ResponseErases(s: State, pkg: Pkg, r: SendResult, fd: int)
    requires s.Sized() && pkg.Sized() && fd in s.channelMap
    ensures fd !in Response(s, pkg, r).0.channelMap <==>
      r.Broken? && s.Live(pkg.fd) && Erases(s, s.channelMap[pkg.fd], fd)
  {
    hide Pkg.Wire;
  }

  lemma DispatchErases(s: State, b: nat, s1: State, srcfd: int, dstfd: int, r: SendResult, r2: SendResult)
    requires s.Sized() && s1.Sized() && s.Live(srcfd) && s.Live(dstfd) && b == s.channelMap[dstfd] && r.Broken?
    requires s1 == s.With(b, s1.channel[b]) && s1.channel[b] == s.channel[b].(pkg := s1.channel[b].pkg, sent := 0)
    ensures dstfd !in CheckBreak(s1, s1.channel[b].kind, s1.channel[b].fd, r2).channelMap <==>
      DispatchDangles(s, srcfd, dstfd, r, r2)
  {
    var x := s1.channel[b];
    if x.kind.Remote? && x.fd in s1.bridgeMap {
      var pkg := Empty().(fd := s1.channel[s1.bridgeMap[x.fd]].fd, cmd := RESTART_CLIENT_NTF, len := 4).Put(0, 1);
      ResponseErases(s1, pkg, r2, dstfd);
      hide Response;
    }
  }

  // ---------------------------------------------------------------- the two loops

  /** With `i` fds written and `keys` to go, the rest of the list completes the answer. */
  ghost predicate Listing(s: State, keys: set<int>, p0: Pkg, p: Pkg, i: nat)
    requires s.Sized() && keys <= s.channelMap.Keys && p0.Sized() && p.Sized() && i < 8
  {
    var rest, all := SortedRaspis(s, keys), RaspiFds(s);
    |all| == i + |rest|
    && PutFds(p, FirstFew(rest, 8 - i), i) == PutFds(p0, FirstFew(all, 8), 0)
  }

  lemma SetPkgSame(s: State, c: nat)
    requires s.Sized() && c < |s.channel|
    ensures SetPkg(s, c, s.channel[c].pkg, s.channel[c].sent) == s
  {
    assert s.channel[c := s.channel[c].(pkg := s.channel[c].pkg, sent := s.channel[c].sent)] == s.channel;
  }

  lemma SetPkgOf(s: State, c: nat, p: Pkg, sent: nat)
    requires s.Sized() && c < |s.channel| && p.Sized()
    ensures var t := SetPkg(s, c, p, sent);
      |t.channel| == |s.channel| && t.channelMap == s.channelMap && t.channel[c].pkg == p && t.channel[c].sent == sent
      && forall k :: 0 <= k < |s.channel| ==> t.channel[k].status == s.channel[k].status
                                              && t.channel[k].kind == s.channel[k].kind
                                              && t.channel[k].fd == s.channel[k].fd
  {
  }

  lemma LastPut(p: Pkg, cut: seq<int>, fd: int)
    requires p.Sized() && cut == [fd]
    ensures PutFds(p, cut, 7) == p.Put(32, fd)
  {
    assert cut[1..] == [];
    hide Pkg.Put;
  }

  lemma ListingStarts(s: State, p: Pkg)
    requires s.Sized() && p.Sized()
    ensures Listing(s, s.channelMap.Keys, p, p, 0)
  {
    hide PutFds;
  }

  /** The answer in the buffer of `c` lists the raspis, up to eight of them. */
  ghost predicate Listed(s: State, t: State, c: nat, full: bool)
    requires s.Sized() && c < |s.channel|
  {
    var fds := RaspiFds(s);
    full == (|fds| >= 8)
    && t == SetPkg(s, c, PutFds(s.channel[c].pkg, if full then fds[..8] else fds, 0), s.channel[c].sent)
  }

  lemma ListingEnds(s: State, c: nat, p: Pkg, i: nat, t: State)
    requires s.Sized() && c < |s.channel| && p.Sized() && i < 8 && Listing(s, {}, s.channel[c].pkg, p, i)
    requires t == SetPkg(s, c, p, s.channel[c].sent)
    ensures Listed(s, t, c, false)
  {
    assert SortedRaspis(s, {}) == [] && PutFds(p, [], i) == p;
    hide SetPkg, RaspiFds;
  }

  lemma ListingFull(s: State, c: nat, p: Pkg, t: State)
    requires s.Sized() && c < |s.channel| && p.Sized() && |RaspiFds(s)| >= 8
    requires p == PutFds(s.channel[c].pkg, FirstFew(RaspiFds(s), 8), 0) && t == SetPkg(s, c, p, s.channel[c].sent)
    ensures Listed(s, t, c, true)
  {
    hide SetPkg, RaspiFds, PutFds;
  }

  lemma PutFdsStep(p: Pkg, fds: seq<int>, i: nat)
    requires p.Sized() && i + |fds| <= 8 && fds != []
    ensures PutFds(p, fds, i) == PutFds(p.Put(4 + 4 * i, fds[0]), fds[1..], i + 1)
  {
    hide Pkg.Put;
  }

  /** One key of the map: skipped, or the next fd of the list. */
  lemma ListingStep(s: State, keys: set<int>, p0: Pkg, p: Pkg, i: nat, x: Channel)
    requires s.Sized() && keys <= s.channelMap.Keys && p0.Sized() && p.Sized() && i < 8 && keys != {}
    requires Listing(s, keys, p0, p, i)
    requires var y := s.channel[s.channelMap[Least(keys)]]; x.status == y.status && x.kind == y.kind && x.fd == y.fd
    ensures var rest := keys - {Least(keys)};
      if x.status.Active? && x.kind.Raspi? then
        if i == 7 then |RaspiFds(s)| >= 8 && p.Put(32, x.fd) == PutFds(p0, FirstFew(RaspiFds(s), 8), 0)
        else Listing(s, rest, p0, p.Put(4 + 4 * i, x.fd), i + 1)
      else Listing(s, rest, p0, p, i)
  {
    var rest := SortedRaspis(s, keys - {Least(keys)});
    var fds := SortedRaspis(s, keys);
    hide Pkg.Put, Least, RaspiFds;
    if x.status.Active? && x.kind.Raspi? {
      assert fds == [x.fd] + rest;
      FirstFewStep(x.fd, rest, 8 - i);
      PutFdsStep(p, FirstFew(fds, 8 - i), i);
      if i == 7 { LastPut(p, FirstFew(fds, 1), x.fd); }
    } else {
      assert fds == rest;
    }
    hide FirstFew, SortedRaspis, PutFds;
  }

  function FirstFew(s: seq<int>, k: nat): (r: seq<int>)
    ensures |r| == if |s| >= k then k else |s|
  {
    if |s| >= k then s[..k] else s
  }

  lemma FirstFewStep(x: int, rest: seq<int>, k: nat)
    requires k > 0
    ensures FirstFew([x] + rest, k) != [] && FirstFew([x] + rest, k)[0] == x
    ensures FirstFew([x] + rest, k)[1..] == FirstFew(rest, k - 1)
    ensures FirstFew([x] + rest, 1) == [x]
  {
  }
}
