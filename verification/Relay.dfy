/** Relaying under backpressure: while a destination has unsent bytes its source is not read, so no
    pending packet is overwritten and nothing is lost, duplicated or reordered on the way. */
module Relay {
  import opened Common
  import opened Wire
  import opened Reassembly
  import opened ServerState
  import opened Notifications
  import ServerRuns

  /** What is still to go out of a channel's send buffer. */
  function Unsent(x: Channel): bytes
    requires x.pkg.Sized()
  {
    if x.writing && x.sent <= |x.pkg.Wire()| then x.pkg.Wire()[x.sent..] else []
  }

  lemma CopyIsFaithful(f: bytes, old_: Pkg)
    requires IsFrame(f) && old_.Sized()
    ensures CopyOf(f, old_).Wire() == f
  {
    DecodeEncode(f);
    var p := CopyOf(f, old_);
    assert p.body[..p.len] == BodyOf(f);
  }

  // ---------------------------------------------------------------- one dispatch

  /** What dispatch does between two live connections when the send does not fail. */
  lemma Dispatched(s: State, f: bytes, srcfd: int, dstfd: int, r: SendResult, r2: SendResult)
    requires s.Sized() && IsFrame(f) && s.Live(srcfd) && s.Live(dstfd) && !r.Broken?
    ensures var t := Dispatch(s, f, srcfd, dstfd, r, r2).0;
      var a, b := s.channelMap[srcfd], s.channelMap[dstfd];
      Sent(t, dstfd) + Unsent(t.channel[b]) == Sent(s, dstfd) + f
      && (Unsent(t.channel[b]) != [] <==> t.channel[b].writing)
      && (t.channel[b].writing ==> t.channel[b].src == Some(a) && t.channel[b].sent < |t.channel[b].pkg.Wire()|)
      && t.channel[a].reading == !t.channel[b].writing
  {
    var a, b := s.channelMap[srcfd], s.channelMap[dstfd];
    CopyIsFaithful(f, s.channel[b].pkg);
    var s1 := SetPkg(s, b, CopyOf(f, s.channel[b].pkg), 0);
    assert s1.channel[b].pkg.Wire() == f && s1.wire == s.wire && f != [];
    hide CopyOf, IsFrame, SetPkg, State.Live;
    if r.Again? {
      assert f[0..] == f;
      Watched(s1, a, b, 0, f);
    } else {
      var n := Cut(r.n, |f|);
      var s2 := s1.Out(dstfd, f[..n]);
      assert f == f[..n] + f[n..];
      Assoc(Sent(s, dstfd), f[..n], f[n..]);
      assert Sent(s2, dstfd) == Sent(s, dstfd) + f[..n];
      Watched(s2, a, b, n, f);
    }
    hide Stall, Resume, Unsent, Pkg.Wire;
  }

  /** What the watchers make of a packet of which `n` bytes are out. */
  lemma Watched(s: State, a: nat, b: nat, n: nat, f: bytes)
    requires s.Sized() && a < |s.channel| && b < |s.channel| && s.channel[b].pkg.Wire() == f && n <= |f|
    ensures var t := Stall(s, a, b, n);
      t.wire == s.wire && Unsent(t.channel[b]) == f[n..] && t.channel[b].writing && !t.channel[a].reading
      && t.channel[b].src == Some(a) && t.channel[b].sent == n && t.channel[b].pkg.Wire() == f
    ensures var t := Resume(s, a, b);
      t.wire == s.wire && Unsent(t.channel[b]) == [] && !t.channel[b].writing && t.channel[a].reading
  {
    hide Pkg.Wire;
  }

  /** Dispatch adds the packet to what the destination is sent if and only if nothing was pending in
      its send buffer: otherwise the pending bytes are overwritten and never sent. */
  lemma DispatchConservesIffNothingPending(s: State, f: bytes, srcfd: int, dstfd: int, r: SendResult, r2: SendResult)
    requires s.Sized() && IsFrame(f) && s.Live(srcfd) && s.Live(dstfd) && !r.Broken?
    ensures var t := Dispatch(s, f, srcfd, dstfd, r, r2).0;
      var b := s.channelMap[dstfd];
      Sent(t, dstfd) + Unsent(t.channel[b]) == Sent(s, dstfd) + Unsent(s.channel[b]) + f <==> Unsent(s.channel[b]) == []
  {
    Dispatched(s, f, srcfd, dstfd, r, r2);
    hide Dispatch, Unsent, Sent;
  }

  // ---------------------------------------------------------------- one answer

  /** An answer or notification is added to what its connection is sent, now or by the write watcher, if
      and only if the send takes it whole while the watcher is off, or takes part of it and the
      connection's send buffer holds the same from there on: the watcher goes on with that buffer. */
  lemma ResponseConservesIff(s: State, pkg: Pkg, r: SendResult)
    requires s.Sized() && pkg.Sized() && s.Live(pkg.fd) && !r.Broken?
    ensures var t, c := Response(s, pkg, r).0, s.channelMap[pkg.fd];
      var w, v, n := pkg.Wire(), s.channel[c].pkg.Wire(), if r.Took? then Cut(r.n, |pkg.Wire()|) else 0;
      Sent(t, pkg.fd) + Unsent(t.channel[c]) == Sent(s, pkg.fd) + w <==>
        if n == |w| then !s.channel[c].writing else n <= |v| && v[n..] == w[n..]
  {
    var t, c := Response(s, pkg, r).0, s.channelMap[pkg.fd];
    var w, v, n := pkg.Wire(), s.channel[c].pkg.Wire(), if r.Took? then Cut(r.n, |pkg.Wire()|) else 0;
    assert |w| >= 12 && |v| >= 12;
    assert Sent(t, pkg.fd) == Sent(s, pkg.fd) + w[..n] by { assert n == |w| ==> w[..n] == w; }
    assert Unsent(t.channel[c]) ==
      if n == |w| then (if s.channel[c].writing then v else []) else if n <= |v| then v[n..] else [];
    assert w == w[..n] + w[n..];
    hide Pkg.Wire, Response, Unsent;
    Assoc(Sent(s, pkg.fd), w[..n], w[n..]);
    SameFront(Sent(s, pkg.fd) + w[..n], Unsent(t.channel[c]), w[n..]);
  }

  lemma SameFront(a: bytes, b: bytes, c: bytes)
    ensures a + b == a + c <==> b == c
  {
    if a + b == a + c { assert b == (a + b)[|a|..] && c == (a + c)[|a|..]; }
  }

  /** Where the system has nothing to read or no room to write, and where a packet is not complete yet, the
      watcher is started again, but for an incomplete head, and nothing else changes. */
  lemma WaitsAgain(s: State, c: nat, got: ReadResult, r: SendResult, r2: SendResult)
    requires s.Sized() && c < |s.channel| && ReadFits(s, c, got) && s.channel[c].sent <= |s.channel[c].pkg.Wire()|
    ensures got.Nothing? ==> Receive(s, c, got, r, r2) == s.With(c, s.channel[c].(reading := true))
    ensures r.Again? ==> Flush(s, c, r, r2) == Some(s.With(c, s.channel[c].(writing := true)))
    ensures got.Data? ==>
      var x, q := s.channel[c], s.channel[c].partial + got.chunk;
      (|q| < 12 ==> Receive(s, c, got, r, r2) == s.With(c, x.(partial := q)))
      && (12 <= |q| < 12 + LenOf(q) <= 1412 ==>
            Receive(s, c, got, r, r2) == s.With(c, x.(partial := q, reading := true)))
  {
  }

  // ---------------------------------------------------------------- flows

  /** Slot `src` relays the packet stream `frames` to slot `dst`, connection `fd`, to which `base`
      had been sent before. */
  datatype Flow = Flow(src: nat, dst: nat, fd: int, frames: seq<bytes>, base: bytes)

  ghost predicate WellFormed(w: Flow) {
    w.src < CHANNEL_MAX && w.dst < CHANNEL_MAX && w.src != w.dst && w.fd != 0
    && AllFrames(w.frames) && forall i :: 0 <= i < |w.frames| ==> FdOf(w.frames[i]) == w.fd
  }

  /** One source per destination, one destination per source, and no channel that is both. */
  ghost predicate Apart(v: Flow, w: Flow) {
    v.src != w.src && v.dst != w.dst && v.src != w.dst && v.dst != w.src && v.fd != w.fd
  }

  ghost predicate Separate(ws: seq<Flow>) {
    (forall i :: 0 <= i < |ws| ==> WellFormed(ws[i]))
    && forall i, j :: 0 <= i < |ws| && 0 <= j < |ws| && i != j ==> Apart(ws[i], ws[j])
  }

  predicate Connected(s: State, w: Flow)
    requires s.Sized()
  {
    w.src < CHANNEL_MAX && w.dst < CHANNEL_MAX
    && s.Live(s.channel[w.src].fd) && s.channelMap[s.channel[w.src].fd] == w.src
    && s.Live(w.fd) && s.channelMap[w.fd] == w.dst && s.channel[w.dst].fd == w.fd
  }

  /** The destination has unsent bytes iff the source is not read, and then its write watcher is on
      and remembers the source. */
  predicate Backpressure(s: State, w: Flow)
    requires s.Sized() && Connected(s, w)
  {
    var a, b := s.channel[w.src], s.channel[w.dst];
    (Unsent(b) != [] <==> !a.reading) && (b.writing <==> !a.reading)
    && (b.writing ==> b.src == Some(w.src) && b.sent < |b.pkg.Wire()|)
  }

  /** After `got` has been read from the source: what was sent and what is unsent are together the
      whole packets of it, in order, and the rest is in the source's receive buffer. */
  ghost predicate FlowOk(s: State, w: Flow, got: bytes)
    requires s.Sized()
  {
    Connected(s, w) && Backpressure(s, w)
    && Following(Buffered(s, w, got), w.frames, got)
    && Sent(s, w.fd) + Unsent(s.channel[w.dst]) == w.base + Concat(Parse(got).0)
  }

  function Buffered(s: State, w: Flow, got: bytes): Receiver
    requires s.Sized() && w.src < CHANNEL_MAX
  {
    Receiver(Parse(got).0, s.channel[w.src].partial, true)
  }

  /** Nothing but the two channels of the flow and what its destination is sent. */
  ghost predicate OnlyTouches(s: State, t: State, w: Flow)
    requires s.Sized() && t.Sized()
  {
    t.channelMap == s.channelMap
    && (forall c :: 0 <= c < CHANNEL_MAX && c != w.src && c != w.dst ==> t.channel[c] == s.channel[c])
    && (forall x :: x != w.fd ==> Sent(t, x) == Sent(s, x))
  }

  /** Neither of them. */
  ghost predicate Untouched(s: State, t: State, w: Flow)
    requires s.Sized() && t.Sized()
  {
    w.src < CHANNEL_MAX && w.dst < CHANNEL_MAX
    && t.channel[w.src] == s.channel[w.src] && t.channel[w.dst] == s.channel[w.dst]
    && s.channel[w.src].fd in t.channelMap && t.channelMap[s.channel[w.src].fd] == w.src
    && w.fd in t.channelMap && t.channelMap[w.fd] == w.dst && Sent(t, w.fd) == Sent(s, w.fd)
  }

  lemma UntouchedKeeps(s: State, t: State, w: Flow, got: bytes)
    requires s.Sized() && t.Sized() && FlowOk(s, w, got) && Untouched(s, t, w)
    ensures FlowOk(t, w, got)
  {
    hide Following, Parse, Unsent, Sent;
  }

  lemma ApartIsUntouched(s: State, t: State, v: Flow, w: Flow)
    requires s.Sized() && t.Sized() && OnlyTouches(s, t, v) && Apart(v, w) && Connected(s, w)
    ensures Untouched(s, t, w)
  {
    hide Sent;
  }

  // ---------------------------------------------------------------- the three kinds of step

  /** Reading the source: the bytes go into its buffer and, when they complete a packet, that packet
      goes to the destination, which had nothing pending. */
  lemma ReadKeeps(s: State, w: Flow, got: bytes, chunk: bytes, r: SendResult, r2: SendResult)
    requires s.Sized() && WellFormed(w) && FlowOk(s, w, got) && s.channel[w.src].reading && !r.Broken?
    requires 1 <= |chunk| <= Need(s.channel[w.src].partial) && got + chunk <= Concat(w.frames)
    ensures ReadFits(s, w.src, Data(chunk)) && !Dangles(s, w.src, Data(chunk), r, r2)
    ensures var t := Receive(s, w.src, Data(chunk), r, r2);
      FlowOk(t, w, got + chunk) && OnlyTouches(s, t, w)
  {
    var rc := Buffered(s, w, got);
    hide Following, Parse, Concat, Unsent, Sent, IsFrame, FdOf, Receive, Backpressure, Connected, OnlyTouches,
      AllFrames;
    StepFollows(rc, w.frames, got, chunk);
    StaysOpen(Step(rc, chunk), w.frames, got + chunk);
    hide Dangles;
    if Feed(rc.partial, chunk).0.Complete? {
      ReadWholeKeeps(s, w, rc, got, chunk, r, r2);
    } else {
      assert !Dangles(s, w.src, Data(chunk), r, r2) by { PartDanglesNot(s, w.src, chunk, r, r2); }
      hide Feed;
      ReadPartKeeps(s, w, rc, got, chunk, r, r2);
    }
  }

  lemma ReadWholeKeeps(s: State, w: Flow, rc: Receiver, got: bytes, chunk: bytes, r: SendResult, r2: SendResult)
    requires s.Sized() && WellFormed(w) && Connected(s, w) && Backpressure(s, w) && s.channel[w.src].reading
    requires !r.Broken?
    requires rc.open && rc.partial == s.channel[w.src].partial && 1 <= |chunk| <= Need(rc.partial)
    requires |rc.partial| + |chunk| <= PKG
    requires Sent(s, w.fd) + Unsent(s.channel[w.dst]) == w.base + Concat(rc.delivered)
    requires Feed(rc.partial, chunk).0.Complete? && Following(Step(rc, chunk), w.frames, got + chunk)
    ensures !Dangles(s, w.src, Data(chunk), r, r2)
    ensures var t := Receive(s, w.src, Data(chunk), r, r2);
      FlowOk(t, w, got + chunk) && OnlyTouches(s, t, w)
  {
    var f := Feed(rc.partial, chunk).0.f;
    var rc' := Step(rc, chunk);
    assert rc' == Receiver(rc.delivered + [f], [], true);
    hide Feed, Step, Following, Concat, Unsent, Sent, IsFrame, FdOf, Receive, Dispatch, FlowOk, Backpressure,
      Connected, OnlyTouches;
    WholeFrame(rc.partial, chunk);
    NextIs(rc', w, got + chunk, f);
    RelayKeeps(s, w, f, r, r2);
    ConcatSnoc(rc.delivered, f);
    Assoc(w.base, Concat(rc.delivered), f);
    ReadWhole(s, w.src, chunk, r, r2);
    WholeDanglesNot(s, w.src, chunk, r, r2);
    hide Dangles;
    FlowOkAfter(Receive(s, w.src, Data(chunk), r, r2), w, rc', got + chunk);
  }

  lemma ReadPartKeeps(s: State, w: Flow, rc: Receiver, got: bytes, chunk: bytes, r: SendResult, r2: SendResult)
    requires s.Sized() && WellFormed(w) && Connected(s, w) && Backpressure(s, w) && s.channel[w.src].reading
    requires !r.Broken?
    requires rc.open && rc.partial == s.channel[w.src].partial && 1 <= |chunk| <= Need(rc.partial)
    requires |rc.partial| + |chunk| <= PKG
    requires Sent(s, w.fd) + Unsent(s.channel[w.dst]) == w.base + Concat(rc.delivered)
    requires !Feed(rc.partial, chunk).0.Complete? && Step(rc, chunk).open
    requires Following(Step(rc, chunk), w.frames, got + chunk)
    ensures var t := Receive(s, w.src, Data(chunk), r, r2);
      FlowOk(t, w, got + chunk) && OnlyTouches(s, t, w)
  {
    var (o, left) := Feed(rc.partial, chunk);
    var rc' := Step(rc, chunk);
    assert o.Incomplete? && rc' == Receiver(rc.delivered, left, true);
    hide Feed, Step, Following, Concat, Unsent, Sent, Receive, FlowOk, Backpressure, Connected, OnlyTouches;
    ReadPart(s, w.src, chunk, r, r2);
    PartKeeps(s, w, left);
    FlowOkAfter(Receive(s, w.src, Data(chunk), r, r2), w, rc', got + chunk);
  }

  lemma StaysOpen(rc: Receiver, fs: seq<bytes>, got: bytes)
    requires Following(rc, fs, got)
    ensures rc.open
  {
  }

  lemma FlowOkAfter(t: State, w: Flow, rc: Receiver, got: bytes)
    requires t.Sized() && WellFormed(w) && Connected(t, w) && Backpressure(t, w)
    requires Following(rc, w.frames, got) && rc.partial == t.channel[w.src].partial
    requires Sent(t, w.fd) + Unsent(t.channel[w.dst]) == w.base + Concat(rc.delivered)
    ensures FlowOk(t, w, got)
  {
    ParsedSoFar(rc, w.frames, got);
    StaysOpen(rc, w.frames, got);
    hide Following, Parse;
  }

  lemma PartKeeps(s: State, w: Flow, left: bytes)
    requires s.Sized() && w.src != w.dst && Connected(s, w) && Backpressure(s, w)
    ensures var t := s.With(w.src, s.channel[w.src].(partial := left));
      Connected(t, w) && Backpressure(t, w) && OnlyTouches(s, t, w)
      && Sent(t, w.fd) == Sent(s, w.fd) && t.channel[w.dst] == s.channel[w.dst]
  {
    hide Unsent;
  }

  lemma PartDanglesNot(s: State, c: nat, chunk: bytes, r: SendResult, r2: SendResult)
    requires s.Sized() && c < |s.channel| && ReadFits(s, c, Data(chunk))
    requires !Feed(s.channel[c].partial, chunk).0.Complete?
    ensures !Dangles(s, c, Data(chunk), r, r2)
  {
  }

  lemma WholeDanglesNot(s: State, c: nat, chunk: bytes, r: SendResult, r2: SendResult)
    requires s.Sized() && c < |s.channel| && ReadFits(s, c, Data(chunk)) && !r.Broken?
    requires var o := Feed(s.channel[c].partial, chunk).0; o.Complete? && FdOf(o.f) != 0
    ensures !Dangles(s, c, Data(chunk), r, r2)
  {
    WholeFrame(s.channel[c].partial, chunk);
    hide Feed, FdOf, IsFrame, ChooseDangles;
  }

  /** A read that completes a packet for another connection dispatches it. */
  lemma ReadWhole(s: State, c: nat, chunk: bytes, r: SendResult, r2: SendResult)
    requires s.Sized() && c < |s.channel| && ReadFits(s, c, Data(chunk))
    requires var o := Feed(s.channel[c].partial, chunk).0; o.Complete? && IsFrame(o.f) && FdOf(o.f) != 0
    ensures var f := Feed(s.channel[c].partial, chunk).0.f;
      var t := Dispatch(s, f, s.channel[c].fd, FdOf(f), r, r2).0;
      Receive(s, c, Data(chunk), r, r2) == t.With(c, t.channel[c].(partial := []))
  {
    hide Dispatch, IsFrame, FdOf, Feed;
  }

  /** A read that completes no packet changes the source's buffer and nothing else. */
  lemma ReadPart(s: State, c: nat, chunk: bytes, r: SendResult, r2: SendResult)
    requires s.Sized() && c < |s.channel| && ReadFits(s, c, Data(chunk)) && s.channel[c].reading
    requires Feed(s.channel[c].partial, chunk).0.Incomplete?
    ensures Receive(s, c, Data(chunk), r, r2)
         == s.With(c, s.channel[c].(partial := Feed(s.channel[c].partial, chunk).1))
  {
  }

  /** The packet just completed is one of the flow's. */
  lemma NextIs(rc: Receiver, w: Flow, got: bytes, f: bytes)
    requires WellFormed(w) && Following(rc, w.frames, got) && rc.delivered != []
    requires rc.delivered[|rc.delivered| - 1] == f
    ensures FdOf(f) == w.fd
  {
    var k := |rc.delivered|;
    assert rc.delivered[k - 1] == w.frames[k - 1];
  }

  lemma RelayKeeps(s: State, w: Flow, f: bytes, r: SendResult, r2: SendResult)
    requires s.Sized() && WellFormed(w) && Connected(s, w) && Backpressure(s, w) && s.channel[w.src].reading
    requires IsFrame(f) && FdOf(f) == w.fd && !r.Broken?
    ensures var t := Dispatch(s, f, s.channel[w.src].fd, w.fd, r, r2).0;
      var u := t.With(w.src, t.channel[w.src].(partial := []));
      Connected(u, w) && Backpressure(u, w) && OnlyTouches(s, u, w)
      && Sent(u, w.fd) + Unsent(u.channel[w.dst]) == Sent(s, w.fd) + Unsent(s.channel[w.dst]) + f
  {
    var t := Dispatch(s, f, s.channel[w.src].fd, w.fd, r, r2).0;
    var u := t.With(w.src, t.channel[w.src].(partial := []));
    Dispatched(s, f, s.channel[w.src].fd, w.fd, r, r2);
    DispatchFrame(s, w, f, r, r2);
    assert forall x :: Sent(u, x) == Sent(t, x);
    assert u.channel[w.dst] == t.channel[w.dst];
    assert Unsent(s.channel[w.dst]) == [];
    assert Sent(s, w.fd) + [] == Sent(s, w.fd);
    hide Dispatch, Sent, Unsent, IsFrame, FdOf;
  }

  lemma DispatchFrame(s: State, w: Flow, f: bytes, r: SendResult, r2: SendResult)
    requires s.Sized() && WellFormed(w) && Connected(s, w) && IsFrame(f) && !r.Broken?
    ensures var t := Dispatch(s, f, s.channel[w.src].fd, w.fd, r, r2).0;
      OnlyTouches(s, t, w)
      && t.channel[w.src].fd == s.channel[w.src].fd && t.channel[w.src].status.Active?
      && t.channel[w.dst].fd == w.fd && t.channel[w.dst].status.Active?
  {
    hide CopyOf, IsFrame, Pkg.Wire, FdOf;
  }

  /** The destination drains: it is sent the next of the pending bytes, and when the last one is
      gone its source is read again. */
  lemma DrainKeeps(s: State, w: Flow, got: bytes, r: SendResult, r2: SendResult)
    requires s.Sized() && WellFormed(w) && FlowOk(s, w, got) && s.channel[w.dst].writing && !r.Broken?
    ensures Flush(s, w.dst, r, r2).Some?
    ensures var t := Flush(s, w.dst, r, r2).value;
      FlowOk(t, w, got) && OnlyTouches(s, t, w)
  {
    Drained(s, w, r, r2);
    hide Following, Parse, Concat, Flush, Sent, Unsent, Backpressure, Connected;
  }

  lemma Drained(s: State, w: Flow, r: SendResult, r2: SendResult)
    requires s.Sized() && w.src != w.dst && Connected(s, w) && Backpressure(s, w) && s.channel[w.dst].writing
    requires !r.Broken?
    ensures Flush(s, w.dst, r, r2).Some?
    ensures var t := Flush(s, w.dst, r, r2).value;
      Connected(t, w) && Backpressure(t, w) && OnlyTouches(s, t, w)
      && t.channel[w.src].partial == s.channel[w.src].partial
      && Sent(t, w.fd) + Unsent(t.channel[w.dst]) == Sent(s, w.fd) + Unsent(s.channel[w.dst])
  {
    FlushChanges(s, w.dst, r, r2);
    hide Flush;
    if r.Took? {
      var x := s.channel[w.dst];
      var n := Cut(r.n, |x.pkg.Wire()| - x.sent);
      hide Pkg.Wire;
      Advanced(s, w, n, Flush(s, w.dst, r, r2).value);
    }
  }

  lemma Advanced(s: State, w: Flow, n: nat, t: State)
    requires s.Sized() && t.Sized() && w.src != w.dst && Connected(s, w) && Backpressure(s, w)
    requires s.channel[w.dst].writing
    requires var x := s.channel[w.dst];
      var p := x.pkg.Wire();
      x.sent + n <= |p| && t.channelMap == s.channelMap
      && t.wire == s.wire[w.fd := Sent(s, w.fd) + p[x.sent..x.sent + n]]
      && t.channel == AfterSend(s.channel, w.dst, w.src, n, x.sent + n < |p|)
    ensures Connected(t, w) && Backpressure(t, w) && OnlyTouches(s, t, w)
    ensures t.channel[w.src].partial == s.channel[w.src].partial
    ensures Sent(t, w.fd) + Unsent(t.channel[w.dst]) == Sent(s, w.fd) + Unsent(s.channel[w.dst])
  {
    var x := s.channel[w.dst];
    var p := x.pkg.Wire();
    assert p[x.sent..] == p[x.sent..x.sent + n] + p[x.sent + n..];
    Assoc(Sent(s, w.fd), p[x.sent..x.sent + n], p[x.sent + n..]);
    assert Sent(t, w.fd) == Sent(s, w.fd) + p[x.sent..x.sent + n];
    assert forall y :: y != w.fd ==> Sent(t, y) == Sent(s, y);
    assert Unsent(x) == p[x.sent..] && Unsent(t.channel[w.dst]) == p[x.sent + n..];
    hide Pkg.Wire, Sent, Unsent;
  }

  function AfterSend(ch: seq<Channel>, c: nat, a: nat, n: nat, more: bool): (r: seq<Channel>)
    requires a < |ch| && c < |ch|
  {
    var x := ch[c].(sent := ch[c].sent + n);
    if more then ch[c := x] else ch[c := x.(reading := true, writing := false)][a := ch[a].(reading := true)]
  }

  /** Once the destination takes what is pending, nothing is, and its source is read again. */
  lemma FullDrainReopens(s: State, w: Flow, got: bytes, r: SendResult, r2: SendResult)
    requires s.Sized() && WellFormed(w) && FlowOk(s, w, got) && s.channel[w.dst].writing && Takes(r)
    ensures Flush(s, w.dst, r, r2).Some?
    ensures var t := Flush(s, w.dst, r, r2).value;
      t.channel[w.src].reading && Unsent(t.channel[w.dst]) == [] && FlowOk(t, w, got)
      && Sent(t, w.fd) == Sent(s, w.fd) + Unsent(s.channel[w.dst])
  {
    assert |s.channel[w.dst].pkg.Wire()| <= PKG;
    DrainKeeps(s, w, got, r, r2);
    FlushChanges(s, w.dst, r, r2);
    Drained(s, w, r, r2);
    hide Flush, FlowOk, Sent, Pkg.Wire;
  }

  /** server_send_cb on a channel with a source, spelled out field by field. */
  lemma FlushChanges(s: State, c: nat, r: SendResult, r2: SendResult)
    requires s.Sized() && c < |s.channel| && s.channel[c].sent <= |s.channel[c].pkg.Wire()|
    requires s.channel[c].src.Some? && s.channel[c].src.value != c && s.channel[c].writing && !r.Broken?
    ensures Flush(s, c, r, r2).Some?
    ensures r.Again? ==> Flush(s, c, r, r2).value == s
    ensures r.Took? ==>
      var x, t := s.channel[c], Flush(s, c, r, r2).value;
      var p, a := x.pkg.Wire(), x.src.value;
      var n := Cut(r.n, |p| - x.sent);
      t.channelMap == s.channelMap && t.wire == s.wire[x.fd := Sent(s, x.fd) + p[x.sent..x.sent + n]]
      && t.channel == AfterSend(s.channel, c, a, n, x.sent + n < |p|)
  {
    hide Pkg.Wire, Drop, AfterSend;
    if r.Again? {
      assert Flush(s, c, r, r2).value.channel == s.channel;
    } else {
      TookChanges(s, c, r.n, r2);
    }
  }

  lemma TookChanges(s: State, c: nat, n0: nat, r2: SendResult)
    requires s.Sized() && c < |s.channel| && s.channel[c].sent <= |s.channel[c].pkg.Wire()|
    requires s.channel[c].src.Some? && s.channel[c].src.value != c && s.channel[c].writing
    ensures Flush(s, c, Took(n0), r2).Some?
    ensures var x, t := s.channel[c], Flush(s, c, Took(n0), r2).value;
      var p, a := x.pkg.Wire(), x.src.value;
      var n := Cut(n0, |p| - x.sent);
      t.channelMap == s.channelMap && t.wire == s.wire[x.fd := Sent(s, x.fd) + p[x.sent..x.sent + n]]
      && t.channel == AfterSend(s.channel, c, a, n, x.sent + n < |p|)
  {
    hide Pkg.Wire, Drop, Cut;
  }

  // ---------------------------------------------------------------- where the hypotheses hold

  /** A flow can start whenever both ends are live, the destination has nothing pending, and the
      source is being read and in between packets. */
  lemma FlowStarts(s: State, w: Flow)
    requires s.Sized() && WellFormed(w) && Connected(s, w) && s.channel[w.src].reading && s.channel[w.src].partial == []
    requires !s.channel[w.dst].writing && w.base == Sent(s, w.fd)
    ensures FlowOk(s, w, [])
  {
    assert Parse([]) == ([], []);
    assert w.frames[..0] == [] && Concat([]) == [];
    assert [] <= Concat(w.frames);
  }

  /** A new connection leaves every flow alone. */
  lemma ConnectIsElsewhere(s: State, w: Flow, fd: int)
    requires s.Sized() && Connected(s, w) && fd !in s.channelMap && Accept(s, fd).Some?
    ensures Untouched(s, Accept(s, fd).value, w)
  {
  }

  /** An answer to the source of a flow keeps the flow if and only if its send does not fail, and,
      if it goes out whole, the source is being read: response then starts the read watcher, also
      one that dispatch has stopped. */
  lemma AnswerToSourceKeepsIff(s: State, w: Flow, got: bytes, pkg: Pkg, r: SendResult)
    requires s.Sized() && ServerRuns.FdMap(s) && WellFormed(w) && FlowOk(s, w, got) && pkg.Sized()
    requires pkg.fd == s.channel[w.src].fd
    ensures FlowOk(Response(s, pkg, r).0, w, got) <==>
      !r.Broken? && (r.Took? && r.n >= |pkg.Wire()| ==> s.channel[w.src].reading)
  {
    var t := Response(s, pkg, r).0;
    if r.Broken? {
      AnswerBreaks(s, w, pkg);
      hide Response, Following, Parse, Unsent, Sent, Concat;
    } else {
      AnswerChanges(s, w, pkg, r);
      hide Response, Following, Parse, Unsent, Sent, Pkg.Wire, Concat;
      assert Connected(t, w);
      hide Connected;
      assert Backpressure(t, w) <==> (r.Took? && r.n >= |pkg.Wire()| ==> s.channel[w.src].reading);
      hide Backpressure;
    }
  }

  lemma AnswerBreaks(s: State, w: Flow, pkg: Pkg)
    requires s.Sized() && ServerRuns.FdMap(s) && Connected(s, w) && pkg.Sized() && pkg.fd == s.channel[w.src].fd
    ensures Response(s, pkg, Broken).0.channel[w.src].status.NonActive?
  {
  }

  lemma AnswerChanges(s: State, w: Flow, pkg: Pkg, r: SendResult)
    requires s.Sized() && Connected(s, w) && w.src != w.dst && pkg.Sized() && pkg.fd == s.channel[w.src].fd
    requires !r.Broken?
    ensures var t := Response(s, pkg, r).0;
      t.channel == s.channel[w.src := AfterAnswer(s.channel[w.src].(sent := 0), pkg, r)] && t.channelMap == s.channelMap
      && Sent(t, w.fd) == Sent(s, w.fd)
  {
    hide Pkg.Wire, FreeChannel;
  }

  /** The source's channel after an answer whose send did not fail. */
  function AfterAnswer(x: Channel, pkg: Pkg, r: SendResult): Channel
    requires pkg.Sized()
  {
    if r.Again? then x.(writing := true)
    else if r.Took? && r.n < |pkg.Wire()| then x.(sent := r.n, writing := true)
    else x.(reading := true)
  }
}
