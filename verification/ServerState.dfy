/** The state of the relay server and what each of its callbacks and handlers does to it.  The
    class in module Server carries the same state in its fields and is proved equal to this. */
module ServerState {
  import opened Common
  import opened Wire
  import opened Reassembly

  const CHANNEL_MAX: nat := 256

  datatype Status = NonActive | Active

  datatype ClientType = Raspi | Remote

  /** Commands, by their numbers on the wire. */
  const REGISTER_CLIENT_REQ: int := 1
  const REGISTER_CLIENT_RES: int := 2
  const CHOOSE_SERVER_REQ: int := 4
  const CHOOSE_SERVER_RES: int := 5
  const START_SEND_DATA_NTF: int := 6
  const RESTART_CLIENT_NTF: int := 7

  /** A Pkg in memory: the head fields and the whole body buffer, of which `len` bytes count. */
  datatype Pkg = Pkg(cmd: int, len: nat, fd: int, body: bytes) {
    predicate Sized() {
      |body| == BUF_SIZE && len <= BUF_SIZE
    }

    function Wire(): bytes
      requires Sized()
    {
      Bytes32(cmd) + Bytes32(len) + Bytes32(fd) + body[..len]
    }

    /** A 32-bit field written into the body. */
    function Put(at: nat, x: int): (r: Pkg)
      requires Sized() && at + 4 <= BUF_SIZE
      ensures r.Sized() && r.cmd == cmd && r.len == len && r.fd == fd
    {
      this.(body := body[..at] + Bytes32(x) + body[at + 4..])
    }
  }

  function Zeroes(n: nat): (r: bytes)
    ensures |r| == n && forall i :: 0 <= i < n ==> r[i] == 0
  {
    if n == 0 then [] else Zeroes(n - 1) + [0]
  }

  function Empty(): (p: Pkg)
    ensures p.Sized()
  {
    Pkg(0, 0, 0, Zeroes(BUF_SIZE))
  }

  /** One slot of the static channel array.  `partial` is the received part of recvCtx.pkg;
      `reading` and `writing` say whether the two watchers are started. */
  datatype Channel = Channel(fd: int, status: Status, idx: int, kind: ClientType,
                             partial: bytes, reading: bool,
                             pkg: Pkg, sent: nat, writing: bool, src: Option<nat>)

  /** `wire` is what each connection's peer has been sent since it was accepted. */
  datatype State = State(channel: seq<Channel>, channelMap: map<int, nat>, bridgeMap: map<int, nat>,
                         wire: map<int, bytes>) {

    predicate Sized() {
      |channel| == CHANNEL_MAX && (forall c :: 0 <= c < |channel| ==> channel[c].pkg.Sized())
      && (forall fd :: fd in channelMap ==> channelMap[fd] < |channel|)
      && (forall fd :: fd in bridgeMap ==> bridgeMap[fd] < |channel|)
      && (forall c :: 0 <= c < |channel| && channel[c].src.Some? ==> channel[c].src.value < |channel|)
    }

    function With(c: nat, x: Channel): State
      requires c < |channel|
    {
      this.(channel := channel[c := x])
    }

    function Out(fd: int, bs: bytes): State {
      this.(wire := wire[fd := (if fd in wire then wire[fd] else []) + bs])
    }

    /** channel_map lookup as the handlers do it: the entry must also be ACTIVE. */
    predicate Live(fd: int)
      requires Sized()
    {
      fd in channelMap && channel[channelMap[fd]].status.Active?
    }
  }

  /** What send returned: a count (cut to what was offered), EAGAIN, or another error. */
  datatype SendResult = Took(n: nat) | Again | Broken

  function Cut(n: nat, offered: nat): nat {
    if n < offered then n else offered
  }

  // ---------------------------------------------------------------- the slot pool and the fd map

  function FirstFree(ch: seq<Channel>): (i: nat)
    ensures i <= |ch| && (i < |ch| ==> ch[i].status.NonActive?)
    ensures forall j :: 0 <= j < i ==> ch[j].status.Active?
  {
    if ch == [] || ch[0].status.NonActive? then 0 else 1 + FirstFree(ch[1..])
  }

  lemma {:induction false} FirstFreeIs(ch: seq<Channel>, i: nat)
    requires i <= |ch| && (forall j :: 0 <= j < i ==> ch[j].status.Active?) && (i < |ch| ==> ch[i].status.NonActive?)
    ensures FirstFree(ch) == i
  {
  }

  /** accept_cb with get_free_channel; None when no slot is free and the code goes on with NULL. */
  function Accept(s: State, fd: int): (r: Option<State>)
    requires s.Sized()
    ensures r.Some? ==> r.value.Sized()
  {
    var k := FirstFree(s.channel);
    if k == |s.channel| then None else
      var x := s.channel[k].(status := Active, idx := k, partial := [], pkg := Empty(), sent := 0,
                             fd := fd, reading := true, writing := false);
      Some(s.With(k, x).(channelMap := if fd in s.channelMap then s.channelMap else s.channelMap[fd := k],
                         wire := s.wire[fd := []]))
  }

  /** free_channel; it works on the slot the channel's own idx names. */
  function FreeChannel(s: State, c: nat): (r: State)
    requires s.Sized() && c < |s.channel|
    ensures r.Sized()
  {
    var k := s.channel[c].idx;
    if k >= CHANNEL_MAX || k < 0 then s else
      var x := s.channel[k];
      s.With(k, x.(status := NonActive, partial := [], sent := 0, reading := false, writing := false))
       .(channelMap := s.channelMap - {x.fd})
  }

  // ---------------------------------------------------------------- handler.cpp

  /** response: answer on the connection pkg.fd names. */
  function Response(s: State, pkg: Pkg, r: SendResult): (t: (State, int))
    requires s.Sized() && pkg.Sized()
    ensures t.0.Sized()
  {
    if !s.Live(pkg.fd) then (s, -1) else
      var c := s.channelMap[pkg.fd];
      var x := s.channel[c].(sent := 0);
      match r
      case Again => (s.With(c, x.(writing := true)), 0)
      case Broken => (FreeChannel(s.With(c, x), c), 0)
      case Took(n0) =>
        var n := Cut(n0, |pkg.Wire()|);
        if n < |pkg.Wire()| then (s.With(c, x.(sent := n, writing := true)).Out(pkg.fd, pkg.Wire()[..n]), 0)
        else (s.With(c, x.(reading := true)).Out(pkg.fd, pkg.Wire()), 0)
  }

  /** check_break_fd: a remote is gone, its raspi is told to stop. */
  function CheckBreak(s: State, kind: ClientType, fd: int, r: SendResult): (t: State)
    requires s.Sized()
    ensures t.Sized()
  {
    if kind.Remote? && fd in s.bridgeMap then
      var k := s.bridgeMap[fd];
      var pkg := Empty().(fd := s.channel[k].fd, cmd := RESTART_CLIENT_NTF, len := 4).Put(0, 1);
      var t := Response(s, pkg, r).0;
      t.With(k, t.channel[k].(status := Active)).(bridgeMap := t.bridgeMap - {fd})
    else s
  }

  /** The memcpy of a received packet into a send buffer: what lies behind it stays. */
  function CopyOf(f: bytes, old_: Pkg): (p: Pkg)
    requires IsFrame(f) && old_.Sized()
    ensures p.Sized() && p.fd == FdOf(f) && p.len == LenOf(f)
  {
    Pkg(CmdOf(f), LenOf(f), FdOf(f), BodyOf(f) + old_.body[LenOf(f)..])
  }

  /** dispatch: relay a received packet to another connection. */
  function Dispatch(s: State, f: bytes, srcfd: int, dstfd: int, r: SendResult, r2: SendResult): (t: (State, int))
    requires s.Sized() && IsFrame(f)
    ensures t.0.Sized()
  {
    if !s.Live(srcfd) then (s, -1)
    else if !s.Live(dstfd) then (s, -2)
    else
      var a, b := s.channelMap[srcfd], s.channelMap[dstfd];
      var s1 := SetPkg(s, b, CopyOf(f, s.channel[b].pkg), 0);
      match r
      case Again => (Stall(s1, a, b, 0), 0)
      case Broken => (Drop(s1, b, r2), 0)
      case Took(n0) =>
        var n := Cut(n0, |f|);
        var s2 := s1.Out(dstfd, f[..n]);
        (if n < |f| then Stall(s2, a, b, n) else Resume(s2, a, b), 0)
  }

  /** A send buffer filled in. */
  function SetPkg(s: State, c: nat, pkg: Pkg, sent: nat): (t: State)
    requires s.Sized() && c < |s.channel| && pkg.Sized()
    ensures t.Sized()
  {
    s.With(c, s.channel[c].(pkg := pkg, sent := sent))
  }

  lemma SetPkgTwice(s: State, c: nat, p: Pkg, q: Pkg, sent: nat)
    requires s.Sized() && c < |s.channel| && p.Sized() && q.Sized()
    ensures SetPkg(SetPkg(s, c, p, sent), c, q, sent) == SetPkg(s, c, q, sent)
  {
  }

  /** A connection whose send failed: tell its raspi, then free it. */
  function Drop(s: State, c: nat, r: SendResult): (t: State)
    requires s.Sized() && c < |s.channel|
    ensures t.Sized()
  {
    FreeChannel(CheckBreak(s, s.channel[c].kind, s.channel[c].fd, r), c)
  }

  /** The packet went out whole: the write watcher is off and the source is read again. */
  function Resume(s: State, a: nat, b: nat): (t: State)
    requires s.Sized() && a < |s.channel| && b < |s.channel|
    ensures t.Sized()
  {
    var s1 := s.With(b, s.channel[b].(writing := false));
    s1.With(a, s1.channel[a].(reading := true))
  }

  /** The packet could not go out whole: the source stops being read, the destination's write
      watcher is started and remembers the source. */
  function Stall(s: State, a: nat, b: nat, n: nat): (t: State)
    requires s.Sized() && a < |s.channel| && b < |s.channel|
    ensures t.Sized()
  {
    var s1 := s.With(a, s.channel[a].(reading := false));
    s1.With(b, s1.channel[b].(writing := true, src := Some(a), sent := n))
  }

  /** The fds of the ACTIVE raspi channels, in key order, as far as eight slots reach. */
  function RaspiFds(s: State): seq<int>
    requires s.Sized()
  {
    SortedRaspis(s, s.channelMap.Keys)
  }

  function Least(keys: set<int>): (k: int)
    requires keys != {}
    ensures k in keys && forall x :: x in keys ==> k <= x
  {
    HasLeast(keys);
    var k :| k in keys && forall x :: x in keys ==> k <= x;
    k
  }

  lemma Pick<T>(s: set<T>) returns (x: T)
    requires s != {}
    ensures x in s
  {
    x :| x in s;
  }

  lemma {:induction false} FindLeast(keys: set<int>) returns (k: int)
    requires keys != {}
    ensures k in keys && forall x :: x in keys ==> k <= x
    decreases |keys|
  {
    k := Pick(keys);
    var p, rest := k, keys - {k};
    assert forall x :: x in keys ==> x == p || x in rest;
    if rest != {} {
      var m := FindLeast(rest);
      if m < p { k := m; }
    }
  }

  lemma HasLeast(keys: set<int>)
    requires keys != {}
    ensures exists k :: k in keys && forall x :: x in keys ==> k <= x
  {
    var k := FindLeast(keys);
  }

  function SortedRaspis(s: State, keys: set<int>): seq<int>
    requires s.Sized() && keys <= s.channelMap.Keys
    decreases |keys|
  {
    if keys == {} then [] else
      var k := Least(keys);
      var x := s.channel[s.channelMap[k]];
      (if x.status.Active? && x.kind.Raspi? then [x.fd] else []) + SortedRaspis(s, keys - {k})
  }

  /** The answer's list of raspis, written into the send buffer from `fds[i]` on. */
  function PutFds(p: Pkg, fds: seq<int>, i: nat): (r: Pkg)
    requires p.Sized() && i + |fds| <= 8
    ensures r.Sized() && r.fd == p.fd && r.cmd == p.cmd && r.len == p.len
    decreases |fds|
  {
    if fds == [] then p else PutFds(p.Put(4 + 4 * i, fds[0]), fds[1..], i + 1)
  }

  /** handle_register_client_req for the request `f`, received on `fd`. */
  function Register(s: State, f: bytes, fd: int, r: SendResult): (t: (State, int))
    requires s.Sized()
    ensures t.0.Sized()
  {
    if !s.Live(fd) then (s, -1) else
      var c := s.channelMap[fd];
      var want := Signed(Le32(f, HEAD));
      if want != 0 && want != 1 then (s, -1) else
        var s0 := s.With(c, s.channel[c].(kind := if want == 0 then Raspi else Remote));
        var pkg := s.channel[c].pkg.(cmd := REGISTER_CLIENT_RES, fd := fd, len := 36).Put(0, 0);
        var s1 := SetPkg(s0, c, pkg, s.channel[c].sent);
        if want == 0 then (Response(s1, pkg, r).0, 0)
        else
          var fds := RaspiFds(s1);
          var pkg2 := PutFds(pkg, if |fds| >= 8 then fds[..8] else fds, 0);
          var s2 := SetPkg(s1, c, pkg2, s.channel[c].sent);
          if |fds| >= 8 then (s2, -1) else (Response(s2, pkg2, r).0, 0)
  }

  /** handle_choose_server_req: the remote `fd` chooses the raspi named in the request. */
  function Choose(s: State, f: bytes, fd: int, r: SendResult, r2: SendResult): (t: (State, int))
    requires s.Sized()
    ensures t.0.Sized()
  {
    var raspifd := Signed(Le32(f, HEAD));
    if !s.Live(fd) then (s, -1)
    else if !s.Live(raspifd) then (s, -1)
    else
      var c, k := s.channelMap[fd], s.channelMap[raspifd];
      var pkg := s.channel[c].pkg.(cmd := CHOOSE_SERVER_RES, fd := fd, len := 4).Put(0, 0);
      var s1 := Response(SetPkg(s, c, pkg, s.channel[c].sent), pkg, r).0;
      var pkg2 := s1.channel[k].pkg.(cmd := START_SEND_DATA_NTF, len := 4).Put(0, fd);
      var s2 := Response(SetPkg(s1, k, pkg2, s1.channel[k].sent), pkg2, r2).0;
      (s2.(bridgeMap := if fd in s2.bridgeMap then s2.bridgeMap else s2.bridgeMap[fd := k]), 0)
  }

  // ---------------------------------------------------------------- the two i/o callbacks

  /** handle: commands other than these two have no handler. */
  function Handle(s: State, f: bytes, fd: int, r: SendResult, r2: SendResult): (t: State)
    requires s.Sized() && |f| >= HEAD
    ensures t.Sized()
  {
    if CmdOf(f) == REGISTER_CLIENT_REQ then Register(s, f, fd, r).0
    else if CmdOf(f) == CHOOSE_SERVER_REQ then Choose(s, f, fd, r, r2).0
    else s
  }

  /** A read never passes the end of the packet, so what is handed on is a frame. */
  lemma WholeFrame(p: bytes, chunk: bytes)
    requires |chunk| <= Need(p) && Feed(p, chunk).0.Complete?
    ensures IsFrame(Feed(p, chunk).0.f)
  {
    FieldGrows(p, p + chunk);
  }

  datatype ReadResult = Data(chunk: bytes) | Closed | Nothing | ReadError

  /** fd 0 is for the server itself, any other is where to relay to. */
  function Deliver(s: State, f: bytes, fd: int, r: SendResult, r2: SendResult): (t: State)
    requires s.Sized() && IsFrame(f)
    ensures t.Sized()
  {
    if FdOf(f) == 0 then Handle(s, f, fd, r, r2) else Dispatch(s, f, fd, FdOf(f), r, r2).0
  }

  /** recv returns something, no more than was asked for, and what is asked for ends inside the
      receive buffer. */
  predicate ReadFits(s: State, c: nat, got: ReadResult)
    requires c < |s.channel|
  {
    got.Data? ==> 1 <= |got.chunk| <= Need(s.channel[c].partial) && |s.channel[c].partial| + |got.chunk| <= PKG
  }

  /** server_recv_cb on the channel in slot `c`. */
  function Receive(s: State, c: nat, got: ReadResult, r: SendResult, r2: SendResult): (t: State)
    requires s.Sized() && c < |s.channel| && ReadFits(s, c, got)
    ensures t.Sized()
  {
    var x := s.channel[c];
    match got
    case Closed => CheckBreak(FreeChannel(s, c), x.kind, x.fd, r)
    case Nothing => s.With(c, x.(reading := true))
    case ReadError => FreeChannel(s, c)
    case Data(chunk) =>
      var (o, left) := Feed(x.partial, chunk);
      match o
      case Incomplete =>
        s.With(c, x.(partial := left, reading := if |left| < HEAD then x.reading else true))
      case Bad => FreeChannel(s, c)
      case Complete(f) =>
        WholeFrame(x.partial, chunk);
        var t := Deliver(s, f, x.fd, r, r2);
        t.With(c, t.channel[c].(partial := []))
  }

  /** free_channel on slot `c` erases the map entry of `fd`. */
  predicate Erases(s: State, c: nat, fd: int)
    requires s.Sized() && c < |s.channel|
  {
    0 <= s.channel[c].idx < CHANNEL_MAX && s.channel[s.channel[c].idx].fd == fd
  }

  /** After the answer to the remote. */
  function FirstAnswer(s: State, fd: int, r: SendResult): (t: State)
    requires s.Sized() && s.Live(fd)
    ensures t.Sized()
  {
    var c := s.channelMap[fd];
    var pkg := s.channel[c].pkg.(cmd := CHOOSE_SERVER_RES, fd := fd, len := 4).Put(0, 0);
    Response(SetPkg(s, c, pkg, s.channel[c].sent), pkg, r).0
  }

  /** After the notification of the raspi in slot `k`. */
  function SecondAnswer(s: State, fd: int, k: nat, r: SendResult): (t: State)
    requires s.Sized() && k < |s.channel|
    ensures t.Sized()
  {
    var pkg := s.channel[k].pkg.(cmd := START_SEND_DATA_NTF, len := 4).Put(0, fd);
    Response(SetPkg(s, k, pkg, s.channel[k].sent), pkg, r).0
  }

  /** handle_choose_server_req follows the raspi's map entry after each of its two answers; one of them
      has erased it. */
  predicate ChooseDangles(s: State, f: bytes, fd: int, r: SendResult, r2: SendResult)
    requires s.Sized()
  {
    var raspifd := Signed(Le32(f, HEAD));
    s.Live(fd) && s.Live(raspifd)
    && var s1 := FirstAnswer(s, fd, r);
       raspifd !in s1.channelMap || raspifd !in SecondAnswer(s1, fd, s.channelMap[raspifd], r2).channelMap
  }

  /** dispatch follows the destination's map entry after a notification that erased it. */
  predicate DispatchDangles(s: State, srcfd: int, dstfd: int, r: SendResult, r2: SendResult)
    requires s.Sized()
  {
    r.Broken? && r2.Broken? && s.Live(srcfd) && s.Live(dstfd)
    && var x := s.channel[s.channelMap[dstfd]];
       x.kind.Remote? && x.fd in s.bridgeMap
       && var raspifd := s.channel[s.bridgeMap[x.fd]].fd;
          s.Live(raspifd) && Erases(s, s.channelMap[raspifd], dstfd)
  }

  predicate DeliverDangles(s: State, f: bytes, fd: int, r: SendResult, r2: SendResult)
    requires s.Sized() && IsFrame(f)
  {
    if FdOf(f) == 0 then CmdOf(f) == CHOOSE_SERVER_REQ && ChooseDangles(s, f, fd, r, r2)
    else DispatchDangles(s, fd, FdOf(f), r, r2)
  }

  /** The read completes a packet whose handling follows an erased map entry. */
  predicate Dangles(s: State, c: nat, got: ReadResult, r: SendResult, r2: SendResult)
    requires s.Sized() && c < |s.channel| && ReadFits(s, c, got)
  {
    got.Data? && Feed(s.channel[c].partial, got.chunk).0.Complete?
    && (WholeFrame(s.channel[c].partial, got.chunk);
        DeliverDangles(s, Feed(s.channel[c].partial, got.chunk).0.f, s.channel[c].fd, r, r2))
  }

  /** server_send_cb; None when it completes a packet without a source to restart. */
  function Flush(s: State, c: nat, r: SendResult, r2: SendResult): (t: Option<State>)
    requires s.Sized() && c < |s.channel| && s.channel[c].sent <= |s.channel[c].pkg.Wire()|
    ensures t.Some? ==> t.value.Sized()
  {
    var x := s.channel[c];
    var w := x.pkg.Wire();
    match r
    case Again => Some(s.With(c, x.(writing := true)))
    case Broken => Some(Drop(s, c, r2))
    case Took(n0) =>
      var n := Cut(n0, |w| - x.sent);
      var s1 := s.With(c, x.(sent := x.sent + n)).Out(x.fd, w[x.sent..x.sent + n]);
      if x.sent + n < |w| then Some(s1.With(c, s1.channel[c].(writing := true)))
      else if x.src.None? then None
      else
        Some(Resume(s1.With(c, s1.channel[c].(reading := true)), x.src.value, c))
  }
}
