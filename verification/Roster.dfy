/** The answer to a remote's registration: which connections it lists, and what the remote reads out
    of it. */
module Roster {
  import opened Wire
  import opened ServerState
  import opened ServerRuns
  import opened Notifications

  // ---------------------------------------------------------------- the list itself

  predicate Increasing(s: seq<int>) {
    forall i, j :: 0 <= i < j < |s| ==> s[i] < s[j]
  }

  /** A connection whose slot has the type RASPI: one registered as a raspi, or one not registered at
      all in a slot that is fresh or was last a raspi's. */
  predicate TypedRaspi(s: State, fd: int)
    requires s.Sized()
  {
    s.Live(fd) && s.channel[s.channelMap[fd]].kind.Raspi?
  }

  /** The loop over the map collects exactly the connections in slots of type RASPI among its keys,
      in increasing order of their fds. */
  lemma {:induction false} CollectsTheRaspis(s: State, keys: set<int>)
    requires s.Sized() && FdMap(s) && keys <= s.channelMap.Keys
    ensures Increasing(SortedRaspis(s, keys))
    ensures forall fd :: fd in SortedRaspis(s, keys) <==> fd in keys && TypedRaspi(s, fd)
    decreases |keys|
  {
    hide SortedRaspis, FdMap, Least, Increasing, TypedRaspi, State.Sized;
    if keys == {} {
      NoKey(s);
    } else {
      var k := Least(keys);
      var rest := SortedRaspis(s, keys - {k});
      CollectsTheRaspis(s, keys - {k});
      assert forall fd :: fd in rest ==> k < fd;
      OneKey(s, keys);
      InFront(k, rest);
      assert forall fd :: fd in keys <==> fd == k || fd in keys - {k};
    }
  }

  lemma NoKey(s: State)
    requires s.Sized()
    ensures SortedRaspis(s, {}) == [] && Increasing(SortedRaspis(s, {}))
  {
  }

  lemma OneKey(s: State, keys: set<int>)
    requires s.Sized() && FdMap(s) && keys <= s.channelMap.Keys && keys != {}
    ensures var k := Least(keys);
      var rest := SortedRaspis(s, keys - {k});
      SortedRaspis(s, keys) == if TypedRaspi(s, k) then [k] + rest else rest
  {
    assert s.channel[s.channelMap[Least(keys)]].fd == Least(keys);
  }

  lemma InFront(k: int, s: seq<int>)
    requires Increasing(s) && forall x :: x in s ==> k < x
    ensures Increasing([k] + s) && forall x :: x in [k] + s <==> x == k || x in s
  {
    assert forall j :: 0 <= j < |s| ==> s[j] in s;
  }

  lemma RaspisOf(s: State)
    requires s.Sized() && FdMap(s)
    ensures Increasing(RaspiFds(s)) && forall fd :: fd in RaspiFds(s) <==> TypedRaspi(s, fd)
  {
    CollectsTheRaspis(s, s.channelMap.Keys);
  }

  // ---------------------------------------------------------------- the list in the packet

  /** stRegisterClientRes.fd[i], and the result in front of them. */
  function Slot(b: bytes, i: nat): int {
    Le32(b, 4 + 4 * i)
  }

  function Bits(x: int): int {
    x % TWO32
  }

  function Verdict(b: bytes): int {
    Le32(b, 0)
  }

  function Entry(b: bytes, i: nat): int {
    Signed(Slot(b, i))
  }

  lemma PutReads(p: Pkg, at: nat, x: int)
    requires p.Sized() && at + 4 <= BUF_SIZE
    ensures Le32(p.Put(at, x).body, at) == x % TWO32
    ensures forall k :: 0 <= k && k + 4 <= at ==> Le32(p.Put(at, x).body, k) == Le32(p.body, k)
    ensures forall k :: at + 4 <= k ==> Le32(p.Put(at, x).body, k) == Le32(p.body, k)
  {
    var a, b := p.body[..at], p.body[at + 4..];
    Le32Shift(a, Bytes32(x), b);
    Le32OfBytes32(x);
    var q := p.Put(at, x).body;
    assert forall k :: 0 <= k < at || k >= at + 4 ==> At(q, k) == At(p.body, k);
    hide At, Bytes32;
  }

  lemma PutsSlot(p: Pkg, i: nat, x: int)
    requires p.Sized() && i < 8
    ensures var b := p.Put(4 + 4 * i, x).body;
      Slot(b, i) == Bits(x) && Verdict(b) == Verdict(p.body)
      && forall j: nat :: j != i ==> Slot(b, j) == Slot(p.body, j)
  {
    PutReads(p, 4 + 4 * i, x);
    hide Le32, Pkg.Put;
  }

  lemma PutsVerdict(p: Pkg, x: int)
    requires p.Sized()
    ensures var b := p.Put(0, x).body;
      Verdict(b) == x % TWO32 && forall j: nat :: Slot(b, j) == Slot(p.body, j)
  {
    PutReads(p, 0, x);
    hide Le32, Pkg.Put;
  }

  /** Filling in the fds from entry `i` on writes exactly these entries. */
  lemma {:induction false} PutFdsWrites(p: Pkg, fds: seq<int>, i: nat)
    requires p.Sized() && i + |fds| <= 8
    ensures var b := PutFds(p, fds, i).body;
      (forall j: nat :: i <= j < i + |fds| ==> Slot(b, j) == Bits(fds[j - i]))
      && (forall j: nat :: j < i || j >= i + |fds| ==> Slot(b, j) == Slot(p.body, j))
      && Verdict(b) == Verdict(p.body)
    decreases |fds|
  {
    hide Slot, Verdict, Pkg.Put, Bits;
    if fds != [] {
      PutsSlot(p, i, fds[0]);
      PutFdsWrites(p.Put(4 + 4 * i, fds[0]), fds[1..], i + 1);
    }
  }

  /** What the remote's loop lists: the entries up to the first zero.  Behind the eight entries its
      packet is zero as constructed. */
  function ReadList(b: bytes, i: nat): seq<int>
    decreases 8 - i
  {
    if i >= 8 || Entry(b, i) == 0 then [] else [Entry(b, i)] + ReadList(b, i + 1)
  }

  lemma {:induction false} ReadsBack(b: bytes, fds: seq<int>, i: nat)
    requires i + |fds| < 8
    requires forall j :: 0 <= j < |fds| ==> Entry(b, i + j) == fds[j] != 0
    ensures ReadList(b, i) == fds <==> Entry(b, i + |fds|) == 0
    ensures fds <= ReadList(b, i)
    decreases |fds|
  {
    hide Entry, ReadList;
    ReadsOne(b, i);
    if fds != [] {
      var f, rest := fds[0], fds[1..];
      assert Entry(b, i + 0) == f && ReadList(b, i) == [f] + ReadList(b, i + 1) && fds == [f] + rest;
      forall j | 0 <= j < |rest| ensures Entry(b, i + 1 + j) == rest[j] != 0 {
        assert Entry(b, i + (j + 1)) == fds[j + 1];
      }
      ReadsBack(b, rest, i + 1);
      SameBehind(f, ReadList(b, i + 1), rest);
    }
  }

  lemma ReadsOne(b: bytes, i: nat)
    requires i < 8
    ensures ReadList(b, i) == if Entry(b, i) == 0 then [] else [Entry(b, i)] + ReadList(b, i + 1)
  {
    hide Entry;
  }

  lemma SameBehind(x: int, s: seq<int>, t: seq<int>)
    ensures [x] + s == [x] + t <==> s == t
    ensures t <= s ==> [x] + t <= [x] + s
  {
    if [x] + s == [x] + t { assert s == ([x] + s)[1..] && t == ([x] + t)[1..]; }
  }

  // ---------------------------------------------------------------- the registration of a remote

  predicate FdsAre32Bits(s: State) {
    forall fd :: fd in s.channelMap ==> 0 < fd < 0x8000_0000
  }

  /** The answer to the registration of `fd`, as it stands in the send buffer. */
  function AnswerTo(s: State, fd: int): (p: Pkg)
    requires s.Sized() && s.Live(fd) && |RaspiFds(AsRemote(s, fd))| < 8
    ensures p.Sized() && p.len == 36
  {
    PutFds(AnswerHead(s.channel[s.channelMap[fd]].pkg, fd), RaspiFds(AsRemote(s, fd)), 0)
  }

  /** The registration of a remote, whatever the send takes.  With eight or more other connections in
      slots of type RASPI it is sent nothing; with fewer it is sent an answer without error, and nobody
      else is sent anything.  Out of that the remote reads these connections, in increasing order, if and
      only if the entry behind them was zero in the send buffer before; otherwise it reads more. */
  lemma RemoteReadsTheRoster(s: State, f: bytes, fd: int, r: SendResult)
    requires s.Sized() && FdMap(s) && FdsAre32Bits(s) && s.Live(fd) && Signed(Le32(f, HEAD)) == 1
    ensures var (t, ret), fds := Register(s, f, fd, r), RaspiFds(AsRemote(s, fd));
      Increasing(fds) && (forall x :: x in fds <==> x != fd && TypedRaspi(s, x))
      && (|fds| >= 8 ==> ret == -1 && Adds(s, t, fd, []))
      && (|fds| < 8 ==>
            ret == 0 && Adds(s, t, fd, Taken(r, AnswerTo(s, fd).Wire()))
            && Answers(AnswerTo(s, fd).Wire(), fd)
            && fds <= ReadList(BodyOf(AnswerTo(s, fd).Wire()), 0)
            && (ReadList(BodyOf(AnswerTo(s, fd).Wire()), 0) == fds <==>
                  Slot(s.channel[s.channelMap[fd]].pkg.body, |fds|) == 0))
  {
    var fds := RaspiFds(AsRemote(s, fd));
    RosterOf(s, fd);
    assert forall x :: x in fds ==> x in s.channelMap;
    AnswerGoesOut(s, f, fd, r);
    hide FdMap, RaspiFds, Register, Answers, Sent, AsRemote, Le32, Signed, AnswerHead, PutFds, Slot, Taken, Increasing;
    if |fds| < 8 { AnswerListsIff(s.channel[s.channelMap[fd]].pkg, fd, fds); }
  }

  /** The registration of a raspi, whatever the send takes: it is sent one answer of 48 bytes without
      error, and nobody else is sent anything. */
  lemma RaspiIsAnswered(s: State, f: bytes, fd: int, r: SendResult) returns (w: bytes)
    requires s.Sized() && FdMap(s) && FdsAre32Bits(s) && s.Live(fd) && Signed(Le32(f, HEAD)) == 0
    ensures Answers(w, fd) && |w| == 48
    ensures var (t, ret) := Register(s, f, fd, r); ret == 0 && Adds(s, t, fd, Taken(r, w))
  {
    var c := s.channelMap[fd];
    var p := AnswerHead(s.channel[c].pkg, fd);
    w := p.Wire();
    AnswerListsIff(s.channel[c].pkg, fd, []);
    var s1 := SetPkg(s.With(c, s.channel[c].(kind := Raspi)), c, p, s.channel[c].sent);
    assert FdMap(s1) && s1.Live(fd) && forall x :: Sent(s1, x) == Sent(s, x);
    RegistersRaspi(s, f, fd, r);
    hide FdMap, AnswerHead, Register, Response, Le32, Signed, Taken, Pkg.Wire, Sent, Slot, ReadList, SetPkg, IsFrame;
    Answered(s1, p, r);
  }

  lemma RegistersRaspi(s: State, f: bytes, fd: int, r: SendResult)
    requires s.Sized() && s.Live(fd) && Signed(Le32(f, HEAD)) == 0
    ensures var c := s.channelMap[fd];
      var p := AnswerHead(s.channel[c].pkg, fd);
      var s1 := SetPkg(s.With(c, s.channel[c].(kind := Raspi)), c, p, s.channel[c].sent);
      Register(s, f, fd, r) == (Response(s1, p, r).0, 0)
  {
    hide Response, Pkg.Put, SetPkg, Le32, Signed;
  }

  /** A remote that was told of some connections and registers again when there are fewer, its send buffer
      still holding the first answer, reads wrongly: behind the new list it finds an entry of the old. */
  lemma SecondRegistrationIsMisread(s: State, f: bytes, fd: int, r: SendResult, u: State)
    requires s.Sized() && FdMap(s) && FdsAre32Bits(s) && s.Live(fd) && Signed(Le32(f, HEAD)) == 1
    requires u.Sized() && FdMap(u) && FdsAre32Bits(u) && u.Live(fd) && u.channelMap[fd] == s.channelMap[fd]
    requires u.channel[u.channelMap[fd]].pkg == Register(s, f, fd, r).0.channel[s.channelMap[fd]].pkg
    requires |RaspiFds(AsRemote(u, fd))| < |RaspiFds(AsRemote(s, fd))| < 8
    ensures ReadList(BodyOf(AnswerTo(u, fd).Wire()), 0) != RaspiFds(AsRemote(u, fd))
  {
    var old_, fds, n := s.channel[s.channelMap[fd]].pkg, RaspiFds(AsRemote(s, fd)), |RaspiFds(AsRemote(u, fd))|;
    RosterOf(s, fd);
    RosterOf(u, fd);
    assert forall x :: x in fds ==> x in s.channelMap;
    assert forall x :: x in RaspiFds(AsRemote(u, fd)) ==> x in u.channelMap;
    AnswerStays(s, f, fd, r);
    hide FdMap, RaspiFds, Register, AsRemote, Le32, Signed, AnswerHead, PutFds, Slot, Increasing;
    ToldEntry(old_, fd, fds, n);
    AnswerListsIff(u.channel[u.channelMap[fd]].pkg, fd, RaspiFds(AsRemote(u, fd)));
  }

  lemma ToldEntry(old_: Pkg, fd: int, fds: seq<int>, n: nat)
    requires old_.Sized() && n < |fds| < 8 && forall x :: x in fds ==> 0 < x < 0x8000_0000
    ensures Slot(PutFds(AnswerHead(old_, fd), fds, 0).body, n) != 0
  {
    AnswerReads(old_, fd, fds);
    SlotIsZero(PutFds(AnswerHead(old_, fd), fds, 0).body, n);
    hide Slot, Entry, PutFds, AnswerHead;
  }

  lemma AnswerStays(s: State, f: bytes, fd: int, r: SendResult)
    requires s.Sized() && FdMap(s) && s.Live(fd) && Signed(Le32(f, HEAD)) == 1 && |RaspiFds(AsRemote(s, fd))| < 8
    ensures Register(s, f, fd, r).0.channel[s.channelMap[fd]].pkg == AnswerTo(s, fd)
  {
    RegistersRemote(s, f, fd, r);
    Answered(AboutToAnswer(s, fd), AnswerTo(s, fd), r);
    hide FdMap, RaspiFds, Register, AsRemote, Le32, Signed, AnswerHead, PutFds, Response;
  }

  /** A buffer as constructed, in which the raspi 5 was once told to the remote 6: when there is no
      raspi any more, the next answer still tells of it. */
  lemma StaleEntryIsRead(p: Pkg)
    requires p.Sized() && forall i: nat :: Slot(p.body, i) == 0
    ensures var told := PutFds(AnswerHead(p, 6), [5], 0);
      ReadList(BodyOf(PutFds(AnswerHead(told, 6), [], 0).Wire()), 0) == [5]
  {
    hide Slot, Verdict, Encode, Pkg.Wire, Pkg.Put, ReadList, Entry;
    var told := PutFds(AnswerHead(p, 6), [5], 0);
    var next := PutFds(AnswerHead(told, 6), [], 0);
    assert told.len == 36 && next.len == 36;
    AnswerListsIff(p, 6, [5]);
    PutsVerdict(told.(cmd := REGISTER_CLIENT_RES, fd := 6, len := 36), 0);
    assert next == AnswerHead(told, 6);
    hide PutFds, AnswerHead;
    BodyOfWire(told);
    BodyOfWire(next);
    SameEntries(next.body, told.body, 0);
  }

  lemma BodyOfWire(p: Pkg)
    requires p.Sized() && p.len == 36
    ensures |p.Wire()| >= HEAD && BodyOf(p.Wire()) == p.body[..36]
  {
    WireOf(p);
    EncodedBody(Packet(p.cmd, p.fd, p.body[..36]));
    hide Encode, Pkg.Wire;
  }

  /** Bodies with the same entries are read alike. */
  lemma {:induction false} SameEntries(a: bytes, b: bytes, i: nat)
    requires |a| >= 36 && |b| >= 36 && i <= 8 && forall j: nat :: Slot(a, j) == Slot(b, j)
    ensures ReadList(a[..36], i) == ReadList(b[..36], i)
    decreases 8 - i
  {
    if i < 8 {
      SameEntries(a, b, i + 1);
      Prefix32(a, i);
      Prefix32(b, i);
      hide Slot;
    }
  }

  lemma RosterOf(s: State, fd: int)
    requires s.Sized() && FdMap(s) && s.Live(fd)
    ensures var fds := RaspiFds(AsRemote(s, fd));
      Increasing(fds) && forall x :: x in fds <==> x != fd && TypedRaspi(s, x)
  {
    RaspisOf(AsRemote(s, fd));
    forall x ensures TypedRaspi(AsRemote(s, fd), x) <==> x != fd && TypedRaspi(s, x) {
      assert x in s.channelMap && x != fd ==> s.channelMap[x] != s.channelMap[fd];
    }
    hide RaspiFds;
  }

  lemma AnswerGoesOut(s: State, f: bytes, fd: int, r: SendResult)
    requires s.Sized() && FdMap(s) && s.Live(fd) && Signed(Le32(f, HEAD)) == 1
    ensures var (t, ret), fds := Register(s, f, fd, r), RaspiFds(AsRemote(s, fd));
      (|fds| >= 8 ==> ret == -1 && Adds(s, t, fd, []))
      && (|fds| < 8 ==> ret == 0 && Adds(s, t, fd, Taken(r, AnswerTo(s, fd).Wire())))
  {
    hide FdMap, RaspiFds, PutFds, AnswerHead, Response, Register, AsRemote, AboutToAnswer, Le32, Signed, Taken,
      Pkg.Wire, Sent, Adds;
    RegistersRemote(s, f, fd, r);
    if |RaspiFds(AsRemote(s, fd))| < 8 {
      Answered(AboutToAnswer(s, fd), AnswerTo(s, fd), r);
      SentSince(s, AboutToAnswer(s, fd), Register(s, f, fd, r).0, fd, Taken(r, AnswerTo(s, fd).Wire()));
    } else {
      SentSince(s, AboutToAnswer(s, fd), AboutToAnswer(s, fd), fd, []);
    }
  }

  lemma SentSince(s: State, s1: State, t: State, fd: int, w: bytes)
    requires s1.wire == s.wire && forall x :: Sent(t, x) == Sent(s1, x) + if x == fd then w else []
    ensures Adds(s, t, fd, w)
  {
  }

  function AnswerHead(old_: Pkg, fd: int): (p: Pkg)
    requires old_.Sized()
    ensures p.Sized() && p.fd == fd && p.len == 36
  {
    old_.(cmd := REGISTER_CLIENT_RES, fd := fd, len := 36).Put(0, 0)
  }

  /** The state in which the answer is written and not yet sent. */
  function AboutToAnswer(s: State, fd: int): (t: State)
    requires s.Sized() && s.Live(fd)
    ensures t.Sized()
  {
    var fds, c := RaspiFds(AsRemote(s, fd)), s.channelMap[fd];
    var head := AnswerHead(s.channel[c].pkg, fd);
    SetPkg(AsRemote(s, fd), c, PutFds(head, if |fds| >= 8 then fds[..8] else fds, 0), s.channel[c].sent)
  }

  lemma RegistersRemote(s: State, f: bytes, fd: int, r: SendResult)
    requires s.Sized() && FdMap(s) && s.Live(fd) && Signed(Le32(f, HEAD)) == 1
    ensures var fds, t, c := RaspiFds(AsRemote(s, fd)), AboutToAnswer(s, fd), s.channelMap[fd];
      FdMap(t) && t.Live(fd) && t.wire == s.wire
      && Register(s, f, fd, r) == if |fds| >= 8 then (t, -1)
                                  else (Response(t, PutFds(AnswerHead(s.channel[c].pkg, fd), fds, 0), r).0, 0)
  {
    var s0, c := AsRemote(s, fd), s.channelMap[fd];
    var p, sent := AnswerHead(s.channel[c].pkg, fd), s.channel[c].sent;
    SameRoster(s0, SetPkg(s0, c, p, sent), s.channelMap.Keys);
    var fds := RaspiFds(s0);
    var p2 := PutFds(p, if |fds| >= 8 then fds[..8] else fds, 0);
    SetPkgTwice(s0, c, p, p2, sent);
    assert FdMap(SetPkg(s0, c, p2, sent));
    hide PutFds, SortedRaspis, Response, Le32, Signed, Pkg.Put, SetPkg, FdMap;
  }

  function AsRemote(s: State, fd: int): (t: State)
    requires s.Sized() && s.Live(fd)
    ensures t.Sized()
  {
    s.With(s.channelMap[fd], s.channel[s.channelMap[fd]].(kind := Remote))
  }

  /** A registration answer to `fd` without error. */
  predicate Answers(a: bytes, fd: int) {
    IsFrame(a) && CmdOf(a) == REGISTER_CLIENT_RES && FdOf(a) == fd && LenOf(a) == 36 && Signed(Le32(a, HEAD)) == 0
  }

  /** Its first 16 bytes, for a small fd: command 2, length 36, the fd, and result 0. */
  lemma AnswerBytes(a: bytes, fd: byte)
    requires |a| == 48
    ensures Answers(a, fd as int) <==> a[..16] == [2, 0, 0, 0, 36, 0, 0, 0, fd, 0, 0, 0, 0, 0, 0, 0]
  {
    Field(a, 0, 2);
    Field(a, 4, 36);
    Field(a, 8, fd);
    Field(a, 12, 0);
    hide Le32;
    var w: bytes := [2, 0, 0, 0, 36, 0, 0, 0, fd, 0, 0, 0, 0, 0, 0, 0];
    assert a[..16] == w <==> forall i :: 0 <= i < 16 ==> a[i] == w[i];
  }

  /** A small number in a 32-bit field. */
  lemma Field(a: bytes, at: nat, x: byte)
    requires at + 4 <= |a|
    ensures Le32(a, at) == x as int <==> a[at] == x && a[at + 1] == 0 && a[at + 2] == 0 && a[at + 3] == 0
    ensures Le32(a, at) == x as int ==> Signed(Le32(a, at)) == x as int
    ensures Signed(Le32(a, at)) == x as int ==> Le32(a, at) == x as int
  {
  }

  lemma {:induction false} SameRoster(s: State, t: State, keys: set<int>)
    requires s.Sized() && t.Sized() && t.channelMap == s.channelMap && keys <= s.channelMap.Keys
    requires forall c :: 0 <= c < CHANNEL_MAX ==>
      t.channel[c].status == s.channel[c].status && t.channel[c].kind == s.channel[c].kind
      && t.channel[c].fd == s.channel[c].fd
    ensures SortedRaspis(t, keys) == SortedRaspis(s, keys)
    decreases |keys|
  {
    if keys != {} { SameRoster(s, t, keys - {Least(keys)}); }
  }

  lemma AnswerListsIff(old_: Pkg, fd: int, fds: seq<int>)
    requires old_.Sized() && |fds| < 8 && 0 < fd < 0x8000_0000
    requires forall x :: x in fds ==> 0 < x < 0x8000_0000
    ensures var a := PutFds(AnswerHead(old_, fd), fds, 0).Wire();
      Answers(a, fd) && fds <= ReadList(BodyOf(a), 0)
      && (ReadList(BodyOf(a), 0) == fds <==> Slot(old_.body, |fds|) == 0)
  {
    var p := AnswerHead(old_, fd);
    var q := PutFds(p, fds, 0);
    AnswerReads(old_, fd, fds);
    hide PutFds, Pkg.Put, ReadList, Encode, Pkg.Wire, Entry, Verdict, Slot;
    WireOf(q);
    var a := Packet(q.cmd, q.fd, q.body[..36]);
    EncodeDecode(a);
    EntriesOf(q.body, fds);
    EncodedBody(a);
  }

  lemma AnswerReads(old_: Pkg, fd: int, fds: seq<int>)
    requires old_.Sized() && |fds| < 8
    requires forall x :: x in fds ==> 0 < x < 0x8000_0000
    ensures var b := PutFds(AnswerHead(old_, fd), fds, 0).body;
      (forall j :: 0 <= j < |fds| ==> Entry(b, j) == fds[j] != 0) && Verdict(b) == 0
      && (forall j: nat :: |fds| <= j ==> Slot(b, j) == Slot(old_.body, j))
      && (Entry(b, |fds|) == 0 <==> Slot(old_.body, |fds|) == 0)
  {
    var p := AnswerHead(old_, fd);
    var b := PutFds(p, fds, 0).body;
    HeadReads(old_, fd);
    hide AnswerHead, Slot, Verdict, Entry, Bits, PutFds;
    PutAll(p, fds);
    SlotIsZero(b, |fds|);
    EntriesAre(b, fds);
  }

  lemma PutAll(p: Pkg, fds: seq<int>)
    requires p.Sized() && |fds| <= 8
    ensures var b := PutFds(p, fds, 0).body;
      (forall j: nat :: j < |fds| ==> Slot(b, j) == Bits(fds[j]))
      && (forall j: nat :: |fds| <= j ==> Slot(b, j) == Slot(p.body, j))
      && Verdict(b) == Verdict(p.body)
  {
    hide Slot, Verdict, Bits, PutFds;
    PutFdsWrites(p, fds, 0);
  }

  lemma EntriesAre(b: bytes, fds: seq<int>)
    requires forall j: nat :: j < |fds| ==> Slot(b, j) == Bits(fds[j])
    requires forall x :: x in fds ==> 0 < x < 0x8000_0000
    ensures forall j :: 0 <= j < |fds| ==> Entry(b, j) == fds[j] != 0
  {
    hide Slot, Entry, Bits;
    forall j | 0 <= j < |fds| ensures Entry(b, j) == fds[j] != 0 {
      assert fds[j] in fds;
      EntryIs(b, j, fds[j]);
    }
  }

  lemma HeadReads(old_: Pkg, fd: int)
    requires old_.Sized()
    ensures var b := AnswerHead(old_, fd).body;
      Verdict(b) == 0 && forall j: nat :: Slot(b, j) == Slot(old_.body, j)
  {
    PutsVerdict(old_.(cmd := REGISTER_CLIENT_RES, fd := fd, len := 36), 0);
    hide Pkg.Put, Slot, Verdict;
  }

  lemma EntryIs(b: bytes, i: nat, fd: int)
    requires Slot(b, i) == Bits(fd) && 0 < fd < 0x8000_0000
    ensures Entry(b, i) == fd
  {
    SignedFits(fd);
  }

  lemma SlotIsZero(b: bytes, i: nat)
    ensures Entry(b, i) == 0 <==> Slot(b, i) == 0
  {
    hide Le32;
  }

  lemma WireOf(p: Pkg)
    requires p.Sized() && p.len == 36
    ensures p.Wire() == Encode(Packet(p.cmd, p.fd, p.body[..36]))
  {
  }

  lemma EncodedBody(a: Packet)
    requires |a.body| >= 4
    ensures BodyOf(Encode(a)) == a.body && Le32(Encode(a), HEAD) == Verdict(a.body)
  {
    var f := Encode(a);
    assert f[HEAD..] == a.body;
    assert f[12] == a.body[0] && f[13] == a.body[1] && f[14] == a.body[2] && f[15] == a.body[3];
  }

  lemma Prefix32(b: bytes, i: nat)
    requires |b| >= 36 && i < 8
    ensures Entry(b[..36], i) == Entry(b, i)
  {
  }

  /** The entries of a body of which the first 36 bytes are sent. */
  lemma EntriesOf(b: bytes, fds: seq<int>)
    requires |b| >= 36 && |fds| < 8
    requires forall j :: 0 <= j < |fds| ==> Entry(b, j) == fds[j] != 0
    ensures (ReadList(b[..36], 0) == fds <==> Entry(b, |fds|) == 0) && fds <= ReadList(b[..36], 0)
    ensures Verdict(b[..36]) == Verdict(b)
  {
    forall i: nat | i <= 7 ensures Entry(b[..36], i) == Entry(b, i) { Prefix32(b, i); }
    hide ReadList, Entry;
    forall j | 0 <= j < |fds| ensures Entry(b[..36], 0 + j) == fds[j] != 0 { assert Entry(b[..36], j) == Entry(b, j); }
    ReadsBack(b[..36], fds, 0);
  }
}
