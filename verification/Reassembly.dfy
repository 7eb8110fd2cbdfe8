/** server_recv_cb's reassembly: a packet is collected in a Pkg that starts out zeroed, each read
    asking for as many bytes as the head received so far seems to announce. */
module Reassembly {
  import opened Common
  import opened Wire

  /** What the next read asks for once `p` has been received: the length field is used even while
      it is only partly there. */
  function Need(p: bytes): int {
    LenOf(p) + HEAD - |p|
  }

  datatype Outcome =
    | Incomplete         // wait for more
    | Bad                // length over BUF_SIZE: the channel is closed
    | Complete(f: bytes) // a packet, to be handled or relayed

  /** What one read of `chunk` does; the second component is what is left in the buffer. */
  function Feed(p: bytes, chunk: bytes): (r: (Outcome, bytes)) {
    var q := p + chunk;
    if |q| < HEAD then (Incomplete, q)
    else if LenOf(q) > BUF_SIZE then (Bad, [])
    else if |q| < HEAD + LenOf(q) then (Incomplete, q)
    else (Complete(q), [])
  }

  // ---------------------------------------------------------------- the read requests

  lemma FieldGrows(p: bytes, f: bytes)
    requires p <= f
    ensures LenOf(p) <= LenOf(f)
    ensures |p| >= 8 ==> LenOf(p) == LenOf(f)
  {
    forall i: nat ensures At(p, i) <= At(f, i) { }
    assert forall i :: 0 <= i < |p| ==> p[i] == f[i];
    assert At(p, 4) <= At(f, 4) && At(p, 5) <= At(f, 5) && At(p, 6) <= At(f, 6) && At(p, 7) <= At(f, 7);
  }

  /** Inside a packet every request is positive, fits the Pkg, and stays inside the packet. */
  lemma RequestsStayInside(p: bytes, f: bytes)
    requires IsFrame(f) && p <= f && p != f
    ensures 1 <= Need(p) <= |f| - |p|
    ensures |p| + Need(p) <= PKG
  {
    FieldGrows(p, f);
  }

  /** The exact bound: while a head is being read, all requests fit the Pkg iff the length it
      carries is at most BUF_SIZE; a longer one shows from the eighth byte on. */
  lemma RequestsFitIff(h: bytes)
    requires |h| == HEAD
    ensures (forall n :: 0 <= n < HEAD ==> n + Need(h[..n]) <= PKG) <==> LenOf(h) <= BUF_SIZE
  {
    forall n | 0 <= n < HEAD ensures LenOf(h[..n]) <= LenOf(h) { FieldGrows(h[..n], h); }
    FieldGrows(h[..8], h);
    assert 8 + Need(h[..8]) == HEAD + LenOf(h);
  }

  /** A read that respects the request completes the packet exactly when it reaches its end. */
  lemma FeedInside(p: bytes, chunk: bytes, f: bytes)
    requires IsFrame(f) && p <= f && p != f && chunk != [] && |chunk| <= Need(p) && p + chunk <= f
    ensures Feed(p, chunk) == if p + chunk == f then (Complete(f), []) else (Incomplete, p + chunk)
  {
    var q := p + chunk;
    FieldGrows(q, f);
    if |q| >= HEAD && |q| == |f| { assert q == f; }
  }

  // ---------------------------------------------------------------- whole streams

  /** A run of the receiver: the packets handed on so far and the bytes left in the buffer. */
  datatype Receiver = Receiver(delivered: seq<bytes>, partial: bytes, open: bool)

  function Step(r: Receiver, chunk: bytes): Receiver {
    if !r.open then r else
      var (o, left) := Feed(r.partial, chunk);
      match o
      case Incomplete => r.(partial := left)
      case Bad => Receiver(r.delivered, left, false)
      case Complete(f) => r.(delivered := r.delivered + [f], partial := left)
  }

  function Run(r: Receiver, chunks: seq<bytes>): Receiver
  {
    if chunks == [] then r else Step(Run(r, chunks[..|chunks| - 1]), chunks[|chunks| - 1])
  }

  const START: Receiver := Receiver([], [], true)

  /** Every read returned something, and no more than was asked for. */
  predicate Respects(r: Receiver, chunks: seq<bytes>) {
    chunks == [] ||
      (Respects(r, chunks[..|chunks| - 1])
       && 1 <= |chunks[|chunks| - 1]| <= Need(Run(r, chunks[..|chunks| - 1]).partial))
  }

  /** Independent reading of a byte stream: cut off whole packets while there are any. */
  function Parse(s: bytes): (r: (seq<bytes>, bytes))
    decreases |s|
  {
    if |s| < HEAD || |s| < HEAD + LenOf(s) then ([], s) else
      var n := HEAD + LenOf(s);
      var (fs, rest) := Parse(s[n..]);
      ([s[..n]] + fs, rest)
  }

  lemma {:induction false} ParseConcat(fs: seq<bytes>, rest: bytes)
    requires AllFrames(fs) && (|rest| < HEAD || |rest| < HEAD + LenOf(rest))
    ensures Parse(Concat(fs) + rest) == (fs, rest)
  {
    var s := Concat(fs) + rest;
    if fs == [] {
      assert s == rest;
    } else {
      var f := fs[0];
      assert s == f + (Concat(fs[1..]) + rest);
      FieldGrows(f, s);
      assert s[..|f|] == f && s[|f|..] == Concat(fs[1..]) + rest;
      ParseConcat(fs[1..], rest);
      assert fs == [f] + fs[1..];
    }
  }

  lemma PrefixDrop(a: bytes, rest: bytes, b: bytes)
    requires a + rest <= a + b
    ensures rest <= b
  {
    assert rest == (a + rest)[|a|..] && b == (a + b)[|a|..];
    assert (a + rest)[|a|..] == (a + b)[|a|..][..|rest|];
  }

  /** The frame being received: the prefix of a packet stream after `k` whole packets. */
  lemma NextFrame(fs: seq<bytes>, k: nat, rest: bytes)
    requires AllFrames(fs) && k <= |fs|
    requires Concat(fs[..k]) + rest <= Concat(fs)
    ensures rest != [] ==> k < |fs|
    ensures k < |fs| && |rest| <= |fs[k]| ==> rest <= fs[k]
  {
    assert fs == fs[..k] + fs[k..];
    ConcatAppend(fs[..k], fs[k..]);
    var a, b := Concat(fs[..k]), Concat(fs[k..]);
    PrefixDrop(a, rest, b);
    if k < |fs| { assert b == fs[k] + Concat(fs[k..][1..]); }
  }

  /** What the receiver knows after any reads of a packet stream. */
  ghost predicate Following(r: Receiver, fs: seq<bytes>, got: bytes) {
    r.open && |r.delivered| <= |fs| && r.delivered == fs[..|r.delivered|]
    && got == Concat(r.delivered) + r.partial && got <= Concat(fs)
    && (r.partial != [] ==> |r.delivered| < |fs| && r.partial <= fs[|r.delivered|] && r.partial != fs[|r.delivered|])
  }

  lemma StepFollows(r: Receiver, fs: seq<bytes>, got: bytes, chunk: bytes)
    requires AllFrames(fs) && Following(r, fs, got) && got + chunk <= Concat(fs)
    requires 1 <= |chunk| <= Need(r.partial)
    ensures |r.partial| + |chunk| <= PKG
    ensures Following(Step(r, chunk), fs, got + chunk)
  {
    var k, p := |r.delivered|, r.partial;
    assert got + chunk == Concat(fs[..k]) + (p + chunk) by { Assoc(Concat(fs[..k]), p, chunk); }
    NextFrame(fs, k, p + chunk);
    var f := fs[k];
    assert p <= f && p != f by { if p == [] { assert [] <= f; } }
    RequestsStayInside(p, f);
    FeedInside(p, chunk, f);
    if p + chunk == f {
      ConcatSnoc(fs[..k], f);
      assert fs[..k + 1] == fs[..k] + [f];
    }
  }

  /** Chunking-independent reassembly: however a packet stream is cut into reads that respect the
      requests, the packets handed on are exactly its packets in order, the buffer holds the
      started one, and nothing depends on the cuts. */
  lemma {:induction false} ReassemblesAnyChunking(fs: seq<bytes>, chunks: seq<bytes>)
    requires AllFrames(fs) && Concat(chunks) <= Concat(fs) && Respects(START, chunks)
    ensures Following(Run(START, chunks), fs, Concat(chunks))
    ensures var r := Run(START, chunks); (r.delivered, r.partial) == Parse(Concat(chunks))
    ensures Concat(chunks) == Concat(fs) ==> Run(START, chunks) == Receiver(fs, [], true)
    decreases |chunks|
  {
    if chunks != [] {
      var p, c := chunks[..|chunks| - 1], chunks[|chunks| - 1];
      assert chunks == p + [c];
      ConcatSnoc(p, c);
      assert Concat(p) <= Concat(fs);
      ReassemblesAnyChunking(fs, p);
      StepFollows(Run(START, p), fs, Concat(p), c);
    }
    var r := Run(START, chunks);
    ParsedSoFar(r, fs, Concat(chunks));
    if Concat(chunks) == Concat(fs) { AllDelivered(r, fs); }
  }

  lemma ParsedSoFar(r: Receiver, fs: seq<bytes>, got: bytes)
    requires AllFrames(fs) && Following(r, fs, got)
    ensures (r.delivered, r.partial) == Parse(got)
  {
    if r.partial != [] {
      var f := fs[|r.delivered|];
      FieldGrows(r.partial, f);
      assert |r.partial| < |f|;
    }
    ParseConcat(r.delivered, r.partial);
  }

  lemma AllDelivered(r: Receiver, fs: seq<bytes>)
    requires AllFrames(fs) && Following(r, fs, Concat(fs))
    ensures r == Receiver(fs, [], true)
  {
    var k := |r.delivered|;
    assert fs == fs[..k] + fs[k..];
    ConcatAppend(fs[..k], fs[k..]);
    assert |Concat(fs[k..])| == |r.partial|;
    NothingLeft(fs[k..], r.partial);
  }

  lemma NothingLeft(gs: seq<bytes>, p: bytes)
    requires AllFrames(gs) && |Concat(gs)| == |p|
    requires p != [] ==> gs != [] && |p| < |gs[0]|
    ensures gs == [] && p == []
  {
  }

  // ---------------------------------------------------------------- the callback over its buffer

  /** Zeroes behind what has been received read as what has not arrived. */
  lemma ZeroBehind(b: bytes, n: nat)
    requires n <= |b| && forall i :: n <= i < |b| ==> b[i] == 0
    ensures forall at: nat :: Le32(b, at) == Le32(b[..n], at)
  {
    assert forall i: nat :: At(b, i) == At(b[..n], i);
  }

  /** recvCtx: a Pkg buffer that is zero behind the `len` bytes received so far. */
  class RecvCtx {
    const pkg: array<byte>
    var len: nat

    ghost predicate Valid()
      reads this, pkg
    {
      pkg.Length == PKG && len <= PKG && forall i :: len <= i < PKG ==> pkg[i] == 0
    }

    ghost function Partial(): bytes
      requires Valid()
      reads this, pkg
    {
      pkg[..len]
    }

    constructor ()
      ensures Valid() && Partial() == [] && fresh(pkg)
    {
      pkg := new byte[PKG](i => 0);
      len := 0;
    }

    /** A 32-bit field as the code reads it, whatever has arrived of it. */
    method Field(at: nat) returns (r: int)
      requires pkg.Length == PKG && at + 4 <= PKG
      ensures r == Le32(pkg[..], at)
    {
      r := pkg[at] as int + 256 * pkg[at + 1] as int + 65536 * pkg[at + 2] as int + 16777216 * pkg[at + 3] as int;
    }

    /** What the next read asks for: by the whole buffer, also where a freed slot left bytes in it. */
    method Request() returns (n: int)
      requires pkg.Length == PKG
      ensures n == LenOf(pkg[..]) + HEAD - len
      ensures Valid() ==> n == Need(Partial())
    {
      var l := Field(4);
      n := l + HEAD - len;
      if 0 <= len <= PKG && forall i :: len <= i < PKG ==> pkg[i] == 0 { ZeroBehind(pkg[..], len); }
    }

    /** free_channel: only the count is reset.  Until the slot is constructed again the next request is
        12 more than the length in the old head. */
    method Free()
      modifies this`len
      ensures len == 0 && pkg[..] == old(pkg[..])
    {
      len := 0;
    }

    /** The callback for a read of `chunk`, up to the hand-over of a packet. */
    method OnRead(chunk: bytes) returns (r: Option<Outcome>)
      requires Valid() && chunk != []
      modifies this, pkg
      ensures r.None? <==> old(len) + |chunk| > PKG
      ensures r == Some(Bad) ==> Feed(old(Partial()), chunk) == (Bad, []) && len == 0 && LenOf(pkg[..]) + HEAD > PKG
      ensures r.Some? && r != Some(Bad) ==> Valid() && (r.value, Partial()) == Feed(old(Partial()), chunk)
    {
      if len + |chunk| > PKG {
        return None;  // the read went past the end of the buffer
      }
      ghost var p := Partial();
      forall i | 0 <= i < |chunk| {
        pkg[len + i] := chunk[i];
      }
      len := len + |chunk|;
      assert Partial() == p + chunk;
      var body := Field(4);
      ZeroBehind(pkg[..], len);
      if len < HEAD {
        return Some(Incomplete);
      }
      if body > BUF_SIZE {
        Free();
        return Some(Bad);
      }
      if len < body + HEAD {
        return Some(Incomplete);
      }
      r := Some(Complete(pkg[..len]));
      Construct();
    }

    /** After a packet has been handed on the buffer starts over. */
    method Construct()
      requires pkg.Length == PKG
      modifies this, pkg
      ensures Valid() && Partial() == []
    {
      len := 0;
      forall i | 0 <= i < PKG {
        pkg[i] := 0;
      }
    }
  }
}
