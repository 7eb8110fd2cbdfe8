/** The wire format: a 12-byte little-endian head (cmd, len, fd) and `len` body bytes, at most
    BUF_SIZE of them. */
module Wire {
  import opened Common

  newtype byte = x: int | 0 <= x < 256

  const BUF_SIZE: nat := 1400
  const HEAD: nat := 12
  const PKG: nat := 1412
  const TWO32: int := 0x1_0000_0000

  type bytes = seq<byte>

  /** The 32 bits at an offset, missing bytes reading as the zeroes of a constructed packet. */
  function Le32(b: bytes, at: nat): (r: int)
    ensures 0 <= r < TWO32
  {
    At(b, at) + 256 * At(b, at + 1) + 65536 * At(b, at + 2) + 16777216 * At(b, at + 3)
  }

  function At(b: bytes, i: nat): (r: int)
    ensures 0 <= r < 256
  {
    if i < |b| then b[i] as int else 0
  }

  /** A 32-bit field written little-endian; negative numbers in two's complement. */
  function Bytes32(x: int): (r: bytes)
    ensures |r| == 4
  {
    var u := x % TWO32;
    [(u % 256) as byte, (u / 256 % 256) as byte, (u / 65536 % 256) as byte, (u / 16777216) as byte]
  }

  /** How the int fields read the same bits. */
  function Signed(u: int): int {
    if u < 0x8000_0000 then u else u - TWO32
  }

  lemma Le32OfBytes32(x: int)
    ensures Le32(Bytes32(x), 0) == x % TWO32
  {
    var u := x % TWO32;
    var a, b, c, d := u % 256, u / 256 % 256, u / 65536 % 256, u / 16777216;
    assert u / 256 / 256 == u / 65536 && u / 65536 / 256 == u / 16777216;
    assert u == a + 256 * (u / 256) && u / 256 == b + 256 * (u / 65536) && u / 65536 == c + 256 * d;
  }

  lemma SignedFits(x: int)
    requires -0x8000_0000 <= x < 0x8000_0000
    ensures Signed(x % TWO32) == x
  {
  }

  /** A packet as the programs see it. */
  datatype Packet = Packet(cmd: int, fd: int, body: bytes) {
    predicate Fits() {
      |body| <= BUF_SIZE && 0 <= cmd < TWO32 && -0x8000_0000 <= fd < 0x8000_0000
    }
  }

  function LenOf(f: bytes): (r: int)
    ensures 0 <= r < TWO32
  {
    Le32(f, 4)
  }

  function CmdOf(f: bytes): int { Le32(f, 0) }

  function FdOf(f: bytes): int { Signed(Le32(f, 8)) }

  function BodyOf(f: bytes): bytes
    requires |f| >= HEAD
  {
    f[HEAD..]
  }

  function Encode(p: Packet): (f: bytes)
    ensures |f| == HEAD + |p.body|
  {
    Bytes32(p.cmd) + Bytes32(|p.body|) + Bytes32(p.fd) + p.body
  }

  function Decode(f: bytes): Packet
    requires |f| >= HEAD
  {
    Packet(CmdOf(f), FdOf(f), BodyOf(f))
  }

  /** A whole packet on the wire: as long as its head says, and no longer than a Pkg. */
  predicate IsFrame(f: bytes) {
    |f| >= HEAD && |f| == HEAD + LenOf(f) <= PKG
  }

  lemma Le32Shift(a: bytes, b: bytes, c: bytes)
    requires |b| == 4
    ensures Le32(a + b + c, |a|) == Le32(b, 0)
  {
    var f := a + b + c;
    assert f[|a|] == b[0] && f[|a| + 1] == b[1] && f[|a| + 2] == b[2] && f[|a| + 3] == b[3];
  }

  /** What is encoded decodes to the same packet, and is a frame. */
  lemma EncodeDecode(p: Packet)
    requires p.Fits()
    ensures IsFrame(Encode(p)) && Decode(Encode(p)) == p
  {
    hide Bytes32, Le32, At, Signed;
    var f := Encode(p);
    var c, l, d := Bytes32(p.cmd), Bytes32(|p.body|), Bytes32(p.fd);
    assert f == [] + c + (l + d + p.body);
    Le32Shift([], c, l + d + p.body);
    assert f == c + l + (d + p.body);
    Le32Shift(c, l, d + p.body);
    assert f == (c + l) + d + p.body;
    Le32Shift(c + l, d, p.body);
    Le32OfBytes32(p.cmd);
    Le32OfBytes32(|p.body|);
    Le32OfBytes32(p.fd);
    SignedFits(p.fd);
    assert f[HEAD..] == p.body;
  }

  lemma Digits(a: int, b: int, c: int, d: int)
    requires 0 <= a < 256 && 0 <= b < 256 && 0 <= c < 256 && 0 <= d < 256
    ensures var u := a + 256 * b + 65536 * c + 16777216 * d;
      u % 256 == a && u / 256 % 256 == b && u / 65536 % 256 == c && u / 16777216 == d
      && 0 <= u < TWO32 && u % TWO32 == u && Signed(u) % TWO32 == u
  {
    var u := a + 256 * b + 65536 * c + 16777216 * d;
    assert u / 256 == b + 256 * (c + 256 * d) && u / 65536 == c + 256 * d && u / 16777216 == d;
  }

  lemma Bytes32OfLe32(f: bytes, at: nat)
    requires at + 4 <= |f|
    ensures Bytes32(Le32(f, at)) == f[at..at + 4] == Bytes32(Signed(Le32(f, at)))
  {
    Digits(f[at] as int, f[at + 1] as int, f[at + 2] as int, f[at + 3] as int);
    hide Signed;
  }

  /** The lowest byte comes first, on the way out and on the way in. */
  lemma LittleEndian(a: byte, b: byte, c: byte, d: byte)
    ensures var x := a as int + 256 * b as int + 65536 * c as int + 16777216 * d as int;
      Bytes32(x) == [a, b, c, d] && Le32([a, b, c, d], 0) == x
  {
    Digits(a as int, b as int, c as int, d as int);
  }

  /** What decodes encodes to the same bytes. */
  lemma DecodeEncode(f: bytes)
    requires IsFrame(f)
    ensures Encode(Decode(f)) == f
  {
    Bytes32OfLe32(f, 0);
    Bytes32OfLe32(f, 4);
    Bytes32OfLe32(f, 8);
    hide Bytes32, Le32, Signed;
  }

  // ---------------------------------------------------------------- streams of frames

  function Concat(fs: seq<bytes>): bytes {
    if fs == [] then [] else fs[0] + Concat(fs[1..])
  }

  predicate AllFrames(fs: seq<bytes>) {
    forall i :: 0 <= i < |fs| ==> IsFrame(fs[i])
  }

  lemma {:induction false} ConcatAppend(fs: seq<bytes>, gs: seq<bytes>)
    ensures Concat(fs + gs) == Concat(fs) + Concat(gs)
  {
    if fs == [] {
      assert fs + gs == gs;
    } else {
      ConcatAppend(fs[1..], gs);
      assert (fs + gs)[0] == fs[0] && (fs + gs)[1..] == fs[1..] + gs;
      Assoc(fs[0], Concat(fs[1..]), Concat(gs));
    }
  }

  lemma ConcatSnoc(fs: seq<bytes>, f: bytes)
    ensures Concat(fs + [f]) == Concat(fs) + f
  {
    ConcatAppend(fs, [f]);
    assert [f][1..] == [] && Concat([f]) == f + Concat([]);
  }
}
