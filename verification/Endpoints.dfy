/** The programs at the two ends of the relay: the blocking send and receive loops, the camera
    thread's fragmentation of an encoded frame, and the remote's receive-and-append loop. */
module Endpoints {
  import opened Common
  import opened Wire
  import opened Reassembly

  function Min(a: int, b: int): int {
    if a < b then a else b
  }

  // ---------------------------------------------------------------- send_pkg

  /** send_pkg of raspi.cpp and client.cpp.  `results` are the return values of send, an accepted
      count never exceeding what was offered; `out` is what reached the socket. */
  method SendPkg(pkg: bytes, results: seq<int>) returns (ret: Option<int>, out: bytes, used: nat)
    requires pkg != []
    ensures used <= |results| && out <= pkg
    ensures ret == Some(0) ==> out == pkg
    ensures ret == Some(0) || ret == None ==> forall i :: 0 <= i < used ==> results[i] >= 0
    ensures ret == Some(-1) ==> out != pkg && used > 0 && results[used - 1] < 0
    ensures ret == None ==> out != pkg && used == |results|  // still sending
    ensures ret.None? || ret.value in {0, -1}
  {
    var byteSent := 0;
    used := 0;
    while true
      invariant 0 <= byteSent < |pkg| && used <= |results|
      invariant forall i :: 0 <= i < used ==> results[i] >= 0
      decreases |results| - used
    {
      if used == |results| {
        return None, pkg[..byteSent], used;
      }
      var s := Min(results[used], |pkg| - byteSent);
      used := used + 1;
      if s >= 0 {
        byteSent := byteSent + s;
      } else {
        return Some(-1), pkg[..byteSent], used;
      }
      if byteSent == |pkg| {
        assert pkg[..byteSent] == pkg;
        return Some(0), pkg[..byteSent], used;
      }
    }
  }

  // ---------------------------------------------------------------- recv_pkg

  datatype Received =
    | Got(pkg: bytes, rest: bytes)
    | Failed(code: int)
    | Overrun  // a length the code does not refuse, beyond what the Pkg holds
    | Waiting  // blocked in recv

  /** One of recv_pkg's two loops: read until `len` reaches `want`.  `sizes` are the sizes recv
      delivers, cut down to what was asked for and what the stream holds; 0 or less fails, and
      a read of zero bytes always returns 0. */
  method ReadUpTo(stream: bytes, have: nat, want: nat, sizes: seq<int>, used0: nat)
    returns (r: Option<bool>, len: nat, used: nat)
    requires have <= want && have <= |stream| && used0 <= |sizes|
    ensures used0 <= used <= |sizes| && have <= len <= Min(want, |stream|)
    ensures r == Some(true) ==> len == want && have < want
    ensures have < want <= |stream| && used0 + (want - have) <= |sizes|
            && (forall i :: 0 <= i < |sizes| ==> sizes[i] > 0)
      ==> r == Some(true) && used <= used0 + (want - have)
    ensures have == want ==> r != Some(true) && (used0 < |sizes| ==> r == Some(false))
  {
    len, used := have, used0;
    while true
      invariant used0 <= used <= |sizes| && have <= len <= Min(want, |stream|)
      invariant (used > used0 || have < want) ==> len < want
      invariant (forall i :: 0 <= i < |sizes| ==> sizes[i] > 0) ==> used - used0 <= len - have
      invariant have == want ==> used == used0
      decreases |sizes| - used
    {
      if used == |sizes| {
        return None, len, used;
      }
      var s := Min(sizes[used], Min(want - len, |stream| - len));
      used := used + 1;
      if s > 0 {
        len := len + s;
      } else {
        return Some(false), len, used;
      }
      if len == want {
        return Some(true), len, used;
      }
    }
  }

  /** recv_pkg; `bounded` is remote.cpp's version, which checks the length.  The total is kept in
      an int, so a length within 12 of 2^32 wraps to a small one and passes that check. */
  method RecvPkg(stream: bytes, sizes: seq<int>, bounded: bool) returns (r: Received, used: nat)
    ensures used <= |sizes|
    ensures r.Got? ==> stream == r.pkg + r.rest && IsFrame(r.pkg) && BodyOf(r.pkg) != []
    ensures Flowing(sizes, HEAD + LenOf(stream)) && HEAD < HEAD + LenOf(stream) <= |stream|
            && LenOf(stream) <= BUF_SIZE ==>
      r == Got(stream[..HEAD + LenOf(stream)], stream[HEAD + LenOf(stream)..])
    ensures Flowing(sizes, HEAD) && HEAD <= |stream| && LenOf(stream) == 0 ==> r == Failed(-1)
    ensures Flowing(sizes, HEAD) && HEAD <= |stream| && LenOf(stream) > BUF_SIZE ==>
      r == if bounded && LenOf(stream) < TWO32 - HEAD then Failed(-2) else Overrun
  {
    used := 0;
    var ok, len;
    ok, len, used := ReadUpTo(stream, 0, HEAD, sizes, 0);
    if ok.None? {
      return Waiting, used;
    }
    if !ok.value {
      return Failed(-1), used;
    }
    var head := stream[..HEAD];
    LenOfPrefix(head, stream);
    hide LenOf;
    var pkglen := IntTotal(LenOf(head));
    hide IntTotal;
    if bounded && (pkglen < 0 || pkglen > PKG) {
      return Failed(-2), used;
    }
    if pkglen < HEAD || pkglen > PKG {
      return Overrun, used;
    }
    assert pkglen == HEAD + LenOf(head);
    ok, len, used := ReadUpTo(stream, HEAD, pkglen, sizes, used);
    if ok.None? {
      return Waiting, used;
    }
    if !ok.value {
      return Failed(-1), used;
    }
    LenOfPrefix(stream[..pkglen], stream);
    r := Got(stream[..pkglen], stream[pkglen..]);
  }

  /** pkglen += pkg.stHead.len, in 32 bits. */
  function IntTotal(len: int): (r: int)
    requires 0 <= len < TWO32
    ensures if len < 0x8000_0000 - HEAD then r == HEAD + len else if len < TWO32 - HEAD then r < 0 else 0 <= r < HEAD
  {
    Signed((HEAD + len) % TWO32)
  }

  /** recv never fails, and is called more than `n` times. */
  predicate Flowing(sizes: seq<int>, n: int) {
    |sizes| > n && forall i :: 0 <= i < |sizes| ==> sizes[i] > 0
  }

  /** Round trip: what send_pkg puts on the wire, recv_pkg takes off it, and not a byte more,
      exactly for packets with a body. */
  method SendThenReceive(p: Packet, tail: bytes, results: seq<int>, sizes: seq<int>, bounded: bool)
    returns (sent: Option<int>, r: Received)
    requires p.Fits() && Flowing(sizes, PKG)
    ensures sent == Some(0) ==> (r.Got? <==> p.body != [])
    ensures sent == Some(0) && r.Got? ==> |r.pkg| >= HEAD && Decode(r.pkg) == p && r.rest == tail
  {
    EncodeDecode(p);
    var out, used;
    sent, out, used := SendPkg(Encode(p), results);
    var stream := out + tail;
    r, used := RecvPkg(stream, sizes, bounded);
    if sent == Some(0) {
      var f := Encode(p);
      assert stream == f + tail;
      assert LenOf(stream) == LenOf(f);
      assert stream[..|f|] == f && stream[|f|..] == tail;
    }
  }

  // ---------------------------------------------------------------- fragmentation

  /** The pieces of an encoded frame: BUF_SIZE bytes each, the last one what is left. */
  function Pieces(enc: bytes): (r: seq<bytes>)
    ensures forall i :: 0 <= i < |r| ==> 1 <= |r[i]| <= BUF_SIZE
    decreases |enc|
  {
    if enc == [] then [] else
      var n := Min(BUF_SIZE, |enc|);
      [enc[..n]] + Pieces(enc[n..])
  }

  lemma {:induction false} PiecesJoin(enc: bytes)
    ensures Concat(Pieces(enc)) == enc
    decreases |enc|
  {
    if enc != [] {
      var n := Min(BUF_SIZE, |enc|);
      PiecesJoin(enc[n..]);
      assert Pieces(enc)[1..] == Pieces(enc[n..]);
      assert enc == enc[..n] + enc[n..];
    }
  }

  /** ceil(n / BUF_SIZE) packets. */
  lemma {:induction false} PieceCount(enc: bytes)
    ensures |Pieces(enc)| == (|enc| + BUF_SIZE - 1) / BUF_SIZE
    decreases |enc|
  {
    if |enc| > BUF_SIZE {
      PieceCount(enc[BUF_SIZE..]);
      assert (|enc| - BUF_SIZE + BUF_SIZE - 1) / BUF_SIZE + 1 == (|enc| + BUF_SIZE - 1) / BUF_SIZE;
    } else if enc != [] {
      assert enc[|enc|..] == [];
    }
  }

  const STREAM_DATA_NTF: int := 3

  /** The frames the camera thread sends for some pieces. */
  function Frames(pieces: seq<bytes>, fd: int): (r: seq<bytes>)
    ensures |r| == |pieces|
  {
    if pieces == [] then [] else [Encode(Packet(STREAM_DATA_NTF, fd, pieces[0]))] + Frames(pieces[1..], fd)
  }

  /** What a camera thread puts on the wire for some pieces. */
  function Stream(pieces: seq<bytes>, fd: int): bytes {
    Concat(Frames(pieces, fd))
  }

  lemma {:induction false} FramesSnoc(pieces: seq<bytes>, x: bytes, fd: int)
    ensures Frames(pieces + [x], fd) == Frames(pieces, fd) + [Encode(Packet(STREAM_DATA_NTF, fd, x))]
  {
    if pieces == [] {
      assert [x][1..] == [] && pieces + [x] == [x];
      assert Frames([x], fd) == [Encode(Packet(STREAM_DATA_NTF, fd, x))] + Frames([], fd);
    } else {
      FramesSnoc(pieces[1..], x, fd);
      assert (pieces + [x])[0] == pieces[0] && (pieces + [x])[1..] == pieces[1..] + [x];
    }
  }

  /** Every packet of a camera stream is a frame for `fd` whose body is its piece, never empty. */
  lemma {:induction false} FramesDecode(pieces: seq<bytes>, fd: int)
    requires forall i :: 0 <= i < |pieces| ==> 1 <= |pieces[i]| <= BUF_SIZE
    requires -0x8000_0000 <= fd < 0x8000_0000
    ensures AllFrames(Frames(pieces, fd))
    ensures forall i :: 0 <= i < |pieces| ==>
      var f := Frames(pieces, fd)[i]; CmdOf(f) == 3 && FdOf(f) == fd && BodyOf(f) == pieces[i]
  {
    if pieces != [] {
      FramesDecode(pieces[1..], fd);
      EncodeDecode(Packet(STREAM_DATA_NTF, fd, pieces[0]));
    }
  }

  /** camera_thread's loop over one encoded frame: one Pkg is filled again and again and sent.
      `out` is what the socket took; on success that is exactly the frame's packets. */
  method SendFrame(enc: bytes, remotefd: int, results: seq<int>) returns (ret: Option<int>, out: bytes, used: nat)
    ensures used <= |results|
    ensures out <= Stream(Pieces(enc), remotefd)
    ensures ret == Some(0) ==> out == Stream(Pieces(enc), remotefd)
  {
    var byteLeft := |enc|;
    out, used := [], 0;
    ghost var done: seq<bytes> := [];
    NothingSent(enc, remotefd);
    hide Encode, Stream, Pieces, Sending, Min, Frames, Bytes32;
    while byteLeft > 0
      invariant 0 <= byteLeft <= |enc| && used <= |results|
      invariant Sending(enc, |enc| - byteLeft, done, out, remotefd)
    {
      var at := |enc| - byteLeft;
      var n;
      if byteLeft >= BUF_SIZE {
        n := BUF_SIZE;
      } else {
        n := byteLeft;
      }
      var body := enc[at..at + n];
      byteLeft := byteLeft - n;
      PieceStep(enc, at, n, done, out, remotefd);
      var f := Encode(Packet(STREAM_DATA_NTF, remotefd, body));
      var iRet, sent, u := SendPkg(f, results[used..]);
      used := used + u;
      PrefixOf(out, sent, f, Stream(Pieces(enc), remotefd));
      out := out + sent;
      if iRet != Some(0) {
        return iRet, out, used;
      }
      done := done + [body];
    }
    NoMorePieces(enc, done, out, remotefd);
    ret := Some(0);
  }

  /** `done` are the pieces of the first `at` bytes, and their packets have been sent. */
  ghost predicate Sending(enc: bytes, at: int, done: seq<bytes>, out: bytes, fd: int) {
    0 <= at <= |enc| && done + Pieces(enc[at..]) == Pieces(enc) && out == Stream(done, fd)
  }

  lemma SliceOf<T>(s: seq<T>, at: nat, n: nat)
    requires at + n <= |s|
    ensures s[at..at + n] == s[at..][..n] && s[at + n..] == s[at..][n..]
  {
  }

  /** The pieces of a whole recording. */
  function AllPieces(encs: seq<bytes>): (r: seq<bytes>)
    ensures forall i :: 0 <= i < |r| ==> 1 <= |r[i]| <= BUF_SIZE
  {
    if encs == [] then [] else Pieces(encs[0]) + AllPieces(encs[1..])
  }

  lemma {:induction false} AllPiecesJoin(encs: seq<bytes>)
    ensures Concat(AllPieces(encs)) == Concat(encs)
  {
    if encs != [] {
      AllPiecesJoin(encs[1..]);
      PiecesJoin(encs[0]);
      ConcatAppend(Pieces(encs[0]), AllPieces(encs[1..]));
    }
  }

  /** camera_thread's outer loop over the frames the encoder gives, until a send fails. */
  method Camera(encs: seq<bytes>, remotefd: int, results: seq<int>) returns (ret: Option<int>, out: bytes)
    ensures out <= Stream(AllPieces(encs), remotefd)
    ensures ret == Some(0) ==> out == Stream(AllPieces(encs), remotefd)
  {
    out := [];
    var used := 0;
    hide Stream;
    assert AllPieces(encs[..0]) == [] && encs[..|encs|] == encs;
    assert Stream([], remotefd) == [] by { NothingSent([], remotefd); NoMorePieces([], [], [], remotefd); }
    for k := 0 to |encs|
      invariant 0 <= used <= |results| && out == Stream(AllPieces(encs[..k]), remotefd)
    {
      var iRet, sent, u := SendFrame(encs[k], remotefd, results[used..]);
      used := used + u;
      NextFrameOut(encs, k, remotefd);
      if iRet != Some(0) {
        PrefixOf(out, sent, Stream(Pieces(encs[k]), remotefd), Stream(AllPieces(encs), remotefd));
        return iRet, out + sent;
      }
      out := out + sent;
    }
    ret := Some(0);
  }

  lemma NextFrameOut(encs: seq<bytes>, k: nat, fd: int)
    requires k < |encs|
    ensures Stream(AllPieces(encs[..k + 1]), fd) == Stream(AllPieces(encs[..k]), fd) + Stream(Pieces(encs[k]), fd)
    ensures Stream(AllPieces(encs[..k + 1]), fd) <= Stream(AllPieces(encs), fd)
  {
    hide Stream, AllPieces, Pieces;
    var a, x, b := encs[..k], encs[k], encs[k + 1..];
    SplitAt(encs, k);
    AllPiecesSnoc(a, x);
    AllPiecesConcat(a + [x], b);
    StreamConcat(AllPieces(a), Pieces(x), fd);
    StreamPrefix(AllPieces(a + [x]), AllPieces(b), fd);
  }

  lemma SplitAt<T>(s: seq<T>, k: nat)
    requires k < |s|
    ensures s[..k + 1] == s[..k] + [s[k]] && s == (s[..k] + [s[k]]) + s[k + 1..]
  {
  }

  lemma AllPiecesSnoc(a: seq<bytes>, x: bytes)
    ensures AllPieces(a + [x]) == AllPieces(a) + Pieces(x)
  {
    AllPiecesConcat(a, [x]);
    assert [x][1..] == [] && AllPieces([x]) == Pieces(x) + AllPieces([]);
    hide Pieces;
    assert Pieces(x) + [] == Pieces(x);
  }

  lemma {:induction false} AllPiecesConcat(a: seq<bytes>, b: seq<bytes>)
    ensures AllPieces(a + b) == AllPieces(a) + AllPieces(b)
  {
    if a == [] {
      assert a + b == b;
    } else {
      AllPiecesConcat(a[1..], b);
      assert (a + b)[0] == a[0] && (a + b)[1..] == a[1..] + b;
      Assoc(Pieces(a[0]), AllPieces(a[1..]), AllPieces(b));
      hide Pieces;
    }
  }

  lemma StreamConcat(a: seq<bytes>, b: seq<bytes>, fd: int)
    ensures Stream(a + b, fd) == Stream(a, fd) + Stream(b, fd)
  {
    FramesConcat(a, b, fd);
    ConcatAppend(Frames(a, fd), Frames(b, fd));
  }

  lemma NothingSent(enc: bytes, fd: int)
    ensures Sending(enc, 0, [], [], fd)
  {
    assert enc[0..] == enc && [] + Pieces(enc) == Pieces(enc);
  }

  lemma NoMorePieces(enc: bytes, done: seq<bytes>, out: bytes, fd: int)
    requires Sending(enc, |enc|, done, out, fd)
    ensures out == Stream(Pieces(enc), fd)
  {
    assert enc[|enc|..] == [] && done + [] == done;
    hide Stream;
  }

  lemma PrefixOf(out: bytes, sent: bytes, f: bytes, all: bytes)
    requires sent <= f && out + f <= all
    ensures out + sent <= all
  {
    assert out + sent <= out + f;
  }

  /** One turn of the loop: the next piece is Pkg-sized or the rest, and its packet is the next. */
  lemma PieceStep(enc: bytes, at: nat, n: nat, done: seq<bytes>, out: bytes, fd: int)
    requires Sending(enc, at, done, out, fd) && at < |enc| && n == Min(BUF_SIZE, |enc| - at)
    ensures var f := Encode(Packet(STREAM_DATA_NTF, fd, enc[at..at + n]));
      Sending(enc, at + n, done + [enc[at..at + n]], out + f, fd) && out + f <= Stream(Pieces(enc), fd)
  {
    var body := enc[at..at + n];
    hide Pieces, Encode, Stream;
    NextPiece(enc, at, n, done);
    StreamSnoc(done, body, fd);
    StreamPrefix(done + [body], Pieces(enc[at + n..]), fd);
  }

  lemma NextPiece(enc: bytes, at: nat, n: nat, done: seq<bytes>)
    requires at < |enc| && n == Min(BUF_SIZE, |enc| - at) && done + Pieces(enc[at..]) == Pieces(enc)
    ensures (done + [enc[at..at + n]]) + Pieces(enc[at + n..]) == Pieces(enc)
  {
    SliceOf(enc, at, n);
    FirstPiece(enc[at..], n);
    hide Pieces;
    MoveOver(done, enc[at..at + n], Pieces(enc[at + n..]), Pieces(enc[at..]), Pieces(enc));
  }

  lemma FirstPiece(enc: bytes, n: nat)
    requires enc != [] && n == Min(BUF_SIZE, |enc|)
    ensures Pieces(enc) == [enc[..n]] + Pieces(enc[n..])
  {
  }

  lemma MoveOver<T>(a: seq<T>, x: T, b: seq<T>, xb: seq<T>, all: seq<T>)
    requires a + xb == all && xb == [x] + b
    ensures (a + [x]) + b == all
  {
  }

  lemma StreamSnoc(pieces: seq<bytes>, x: bytes, fd: int)
    ensures Stream(pieces + [x], fd) == Stream(pieces, fd) + Encode(Packet(STREAM_DATA_NTF, fd, x))
  {
    FramesSnoc(pieces, x, fd);
    hide Encode;
    ConcatSnoc(Frames(pieces, fd), Encode(Packet(STREAM_DATA_NTF, fd, x)));
  }

  lemma {:induction false} FramesConcat(a: seq<bytes>, b: seq<bytes>, fd: int)
    ensures Frames(a + b, fd) == Frames(a, fd) + Frames(b, fd)
  {
    if a == [] {
      assert a + b == b;
    } else {
      FramesConcat(a[1..], b, fd);
      assert (a + b)[0] == a[0] && (a + b)[1..] == a[1..] + b;
      Assoc([Encode(Packet(STREAM_DATA_NTF, fd, a[0]))], Frames(a[1..], fd), Frames(b, fd));
      hide Encode;
    }
  }

  lemma StreamPrefix(a: seq<bytes>, b: seq<bytes>, fd: int)
    ensures Stream(a, fd) <= Stream(a + b, fd)
  {
    StreamConcat(a, b, fd);
  }

  // ---------------------------------------------------------------- the remote's file

  /** The bodies of some packets, one after the other. */
  function Payload(fs: seq<bytes>): bytes
    requires WholeHeads(fs)
  {
    if fs == [] then [] else BodyOf(fs[0]) + Payload(fs[1..])
  }

  lemma {:induction false} PayloadOfFrames(pieces: seq<bytes>, fd: int)
    ensures WholeHeads(Frames(pieces, fd))
    ensures Payload(Frames(pieces, fd)) == Concat(pieces)
  {
    if pieces != [] {
      PayloadOfFrames(pieces[1..], fd);
      var f := Encode(Packet(STREAM_DATA_NTF, fd, pieces[0]));
      assert Frames(pieces, fd)[1..] == Frames(pieces[1..], fd) && BodyOf(f) == pieces[0];
    }
  }

  lemma {:induction false} PayloadSnoc(fs: seq<bytes>, f: bytes)
    requires WholeHeads(fs) && |f| >= HEAD
    ensures WholeHeads(fs + [f]) && Payload(fs + [f]) == Payload(fs) + BodyOf(f)
  {
    if fs == [] {
      assert [f][1..] == [] && fs + [f] == [f];
    } else {
      PayloadSnoc(fs[1..], f);
      assert (fs + [f])[0] == fs[0] && (fs + [f])[1..] == fs[1..] + [f];
    }
  }

  /** remote.cpp's main loop, `calls[k]` being the reads of the k-th recv_pkg.  It appends exactly
      the bodies of the first packets of the stream, in order; `written` is what it adds to the file
      and `total` the count it keeps.  If all packets have a body, it gets through all of them. */
  method Record(stream: bytes, calls: seq<seq<int>>) returns (written: bytes, total: nat, n: nat)
    ensures n <= |Parse(stream).0| && WholeHeads(Parse(stream).0[..n])
    ensures written == Payload(Parse(stream).0[..n]) && total == |written|
    ensures AllFlow(calls, |Parse(stream).0|) && Recordable(Parse(stream).0) ==> n == |Parse(stream).0|
  {
    written, total, n := [], 0, 0;
    var left := stream;
    ghost var all := Parse(stream).0;
    assert all[0..] == all;
    for k := 0 to |calls|
      invariant n == k <= |all| && WholeHeads(all[..n]) && written == Payload(all[..n]) && total == |written|
      invariant Parse(left).0 == all[n..]
    {
      var r, used := RecvPkg(left, calls[k], true);
      if !r.Got? {
        Stopped(left, all, n);
        return;
      }
      FirstPacket(left, r.pkg, r.rest);
      assert all[n] == r.pkg && all[n + 1..] == all[n..][1..];
      PayloadSnoc(all[..n], r.pkg);
      assert all[..n + 1] == all[..n] + [r.pkg];
      written := written + BodyOf(r.pkg);
      total := total + LenOf(r.pkg);
      left := r.rest;
      n := n + 1;
    }
  }

  predicate WholeHeads(fs: seq<bytes>) {
    forall i :: 0 <= i < |fs| ==> |fs[i]| >= HEAD
  }

  /** Packets the remote's recv_pkg accepts. */
  predicate Recordable(fs: seq<bytes>) {
    forall i :: 0 <= i < |fs| ==> 0 < LenOf(fs[i]) <= BUF_SIZE
  }

  /** At least `n` calls, each with reads enough for any packet, none of them failing. */
  predicate AllFlow(calls: seq<seq<int>>, n: nat) {
    |calls| >= n && forall k :: 0 <= k < |calls| ==> Flowing(calls[k], PKG)
  }

  lemma FirstPacket(s: bytes, f: bytes, rest: bytes)
    requires s == f + rest && IsFrame(f)
    ensures Parse(s).0 == [f] + Parse(rest).0 && LenOf(s) == LenOf(f)
  {
    LenOfPrefix(f, s);
    assert s[..|f|] == f && s[|f|..] == rest;
    hide LenOf, IsFrame;
  }

  /** With a packet to come that recv_pkg accepts, it does not stop. */
  lemma Stopped(s: bytes, all: seq<bytes>, n: nat)
    requires n <= |all| && Parse(s).0 == all[n..]
    ensures n < |all| ==> HEAD <= HEAD + LenOf(s) <= |s| && all[n] == s[..HEAD + LenOf(s)] && LenOf(all[n]) == LenOf(s)
  {
    if n < |all| {
      assert all[n] == all[n..][0] == Parse(s).0[0] == s[..HEAD + LenOf(s)];
      LenOfPrefix(all[n], s);
    }
  }

  lemma LenOfPrefix(f: bytes, s: bytes)
    requires f <= s && |f| >= HEAD
    ensures LenOf(f) == LenOf(s)
  {
    assert forall i :: 0 <= i < |f| ==> f[i] == s[i];
  }
}
