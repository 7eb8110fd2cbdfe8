/** From the encoder to the file: what the camera thread cuts up, the server relays and the remote
    appends, is the encoded video. */
module EndToEnd {
  import opened Wire
  import opened Reassembly
  import opened Endpoints
  import opened ServerState
  import opened Notifications
  import opened Relay
  import opened RelayRuns
  import ServerRuns
  import FlowSetup
  import Bystanders

  /** The packets in a prefix of a packet stream are the first of its packets. */
  lemma {:induction false} ParseOfPrefix(fs: seq<bytes>, s: bytes)
    requires AllFrames(fs) && s <= Concat(fs)
    ensures Parse(s).0 <= fs && (s == Concat(fs) ==> Parse(s).0 == fs)
    decreases |fs|
  {
    if fs == [] {
      assert s == [];
    } else if |s| < |fs[0]| {
      var f := fs[0];
      assert s <= f by { assert f <= Concat(fs); }
      FieldGrows(s, f);
      assert Parse(s).0 == [] <= fs;
    } else {
      var f, rest := fs[0], s[|fs[0]|..];
      assert s == f + rest by { assert f <= Concat(fs); }
      assert rest <= Concat(fs[1..]) by { PrefixDrop(f, rest, Concat(fs[1..])); }
      FirstPacket(s, f, rest);
      ParseOfPrefix(fs[1..], rest);
      assert fs == [f] + fs[1..];
      hide Parse, IsFrame;
      if s == Concat(fs) { assert rest == Concat(fs[1..]); }
    }
  }

  lemma PayloadOfPrefix(fs: seq<bytes>, pieces: seq<bytes>, fd: int)
    requires fs <= Frames(pieces, fd)
    ensures WholeHeads(fs) && Payload(fs) <= Concat(pieces)
    ensures |fs| == |pieces| ==> Payload(fs) == Concat(pieces)
  {
    var n := |fs|;
    var p, q := pieces[..n], pieces[n..];
    assert pieces == p + q;
    FramesConcat(p, q, fd);
    assert fs == Frames(pieces, fd)[..n] == Frames(p, fd);
    PayloadOfFrames(p, fd);
    ConcatAppend(p, q);
    if |fs| == |pieces| { assert p == pieces; }
    hide Frames, Payload, Concat;
  }

  /** What the remote has read of a flow's packets is a prefix of the packet stream, up to all of it. */
  lemma HeardIsPrefix(s: State, w: Flow, got: bytes, heard: bytes)
    requires s.Sized() && FlowOk(s, w, got) && w.base + heard <= Sent(s, w.fd)
    ensures heard <= Concat(w.frames)
    ensures got == Concat(w.frames) && Unsent(s.channel[w.dst]) == [] && w.base + heard == Sent(s, w.fd)
            && AllFrames(w.frames)
      ==> heard == Concat(w.frames)
  {
    var rc := Buffered(s, w, got);
    var d := Concat(rc.delivered);
    assert d <= got <= Concat(w.frames);
    var sent, pending := Sent(s, w.fd), Unsent(s.channel[w.dst]);
    assert w.base + heard <= w.base + d;
    PrefixDrop(w.base, heard, d);
    if got == Concat(w.frames) && AllFrames(w.frames) {
      AllDelivered(rc, w.frames);
      assert d == got;
      if pending == [] && w.base + heard == sent {
        assert w.base + heard == w.base + d;
        assert |heard| == |d|;
      }
    }
  }

  /** End to end.  In every state of every run of the server, whatever the remote has then read of
      the flow's packets and appended to its file is a prefix of the encoded video, byte for byte;
      and it is the whole video once the source has been read to the end, nothing is pending, and
      the remote has read what it was sent.  All its packets are ones the remote accepts. */
  lemma EveryRunRecordsTheVideo(ws: seq<Flow>, run: seq<World>, moves: seq<Move>, k: nat, i: nat,
                                encs: seq<bytes>, heard: bytes, n: nat)
    requires Separate(ws) && IsRun(ws, run, moves) && k < |run| && Ready(run[0].s, ws, run[0].got) && i < |ws|
    requires -0x8000_0000 <= ws[i].fd < 0x8000_0000 && ws[i].frames == Frames(AllPieces(encs), ws[i].fd)
    requires ws[i].base + heard <= Sent(run[k].s, ws[i].fd) && n <= |Parse(heard).0|
    ensures Recordable(Parse(heard).0) && WholeHeads(Parse(heard).0[..n])
    ensures Payload(Parse(heard).0[..n]) <= Concat(encs)
    ensures run[k].got[i] == Concat(ws[i].frames) && Unsent(run[k].s.channel[ws[i].dst]) == []
            && ws[i].base + heard == Sent(run[k].s, ws[i].fd) && n == |Parse(heard).0|
      ==> Payload(Parse(heard).0[..n]) == Concat(encs)
  {
    var w, s, got := ws[i], run[k].s, run[k].got[i];
    var pieces := AllPieces(encs);
    EveryRunRelays(ws, run, moves, k);
    assert FlowOk(s, w, got) && WellFormed(w);
    HeardIsPrefix(s, w, got, heard);
    ParseOfPrefix(w.frames, heard);
    FramesDecode(pieces, w.fd);
    var fs := Parse(heard).0;
    assert Recordable(fs) by {
      forall j | 0 <= j < |fs| ensures 0 < LenOf(fs[j]) <= BUF_SIZE {
        assert fs[j] == w.frames[j] && IsFrame(w.frames[j]) && BodyOf(w.frames[j]) == pieces[j];
      }
    }
    PayloadOfPrefix(fs[..n], pieces, w.fd);
    AllPiecesJoin(encs);
  }

  /** And from the choice on.  If a remote's choice is read in a state of a run of the server, of a
      startable raspi between packets, whatever the other flows do, then after any run the remote's
      file, started behind the answer to its choice, is a prefix of the video that raspi encodes for
      it, and the whole video in the end. */
  lemma ChosenVideoIsRecorded(s: State, ws: seq<Flow>, got: seq<bytes>, c: nat, chunk: bytes, f: bytes,
                              r: SendResult, r2: SendResult, encs: seq<bytes>,
                              run: seq<World>, moves: seq<Move>, k: nat, heard: bytes, n: nat)
    requires s.Sized() && |got| == |ws| && Separate(ws) && Ready(s, ws, got)
    requires FlowSetup.Chooses(s, c, chunk, f, r, r2) && FlowSetup.Choosable(s, c, Signed(Le32(f, HEAD)))
    requires forall j :: 0 <= j < |ws| ==> Bystanders.Elsewhere(s, ws[j], ServerRuns.Readable(c, Data(chunk), r, r2))
    requires -0x8000_0000 <= s.channel[c].fd < 0x8000_0000
    requires FromTheChoice(s, ws, got, c, chunk, f, r, r2, encs, run, moves) && k < |run|
    requires Sent(s, s.channel[c].fd) + Chosen(s.channel[c].fd) + heard <= Sent(run[k].s, s.channel[c].fd)
    requires n <= |Parse(heard).0|
    ensures Recordable(Parse(heard).0) && WholeHeads(Parse(heard).0[..n])
    ensures Payload(Parse(heard).0[..n]) <= Concat(encs)
    ensures run[k].got[|ws|] == Concat(Frames(AllPieces(encs), s.channel[c].fd)) && Unsent(run[k].s.channel[c]) == []
            && Sent(s, s.channel[c].fd) + Chosen(s.channel[c].fd) + heard == Sent(run[k].s, s.channel[c].fd)
            && n == |Parse(heard).0|
      ==> Payload(Parse(heard).0[..n]) == Concat(encs)
  {
    var fd, frames := s.channel[c].fd, Frames(AllPieces(encs), s.channel[c].fd);
    FramesDecode(AllPieces(encs), fd);
    FlowSetup.ChoiceAddsAFlow(s, ws, got, c, chunk, f, r, r2, frames);
    FlowSetup.ChoiceOpensFlow(s, c, chunk, f, r, r2, frames);
    var w := OpenedFlow(s, c, chunk, f, r, r2, encs);
    hide Ready, Separate, IsRun, FlowSetup.Chooses, FlowSetup.Choosable, ServerRuns.Step, Concat, Parse, Payload,
      Recordable, Unsent, Sent, Chosen;
    EveryRunRecordsTheVideo(ws + [w], run, moves, k, |ws|, encs, heard, n);
  }

  /** The flow the choice opens, carrying the packets of a recording. */
  ghost function OpenedFlow(s: State, c: nat, chunk: bytes, f: bytes, r: SendResult, r2: SendResult,
                            encs: seq<bytes>): Flow
    requires s.Sized() && FlowSetup.Chooses(s, c, chunk, f, r, r2) && FlowSetup.Choosable(s, c, Signed(Le32(f, HEAD)))
    requires ServerRuns.Step(s, ServerRuns.Readable(c, Data(chunk), r, r2)).Some?
  {
    FlowSetup.Opened(s, ServerRuns.Step(s, ServerRuns.Readable(c, Data(chunk), r, r2)).value,
                     Signed(Le32(f, HEAD)), s.channel[c].fd, Frames(AllPieces(encs), s.channel[c].fd))
  }

  /** A run that starts with the state after the choice. */
  ghost predicate FromTheChoice(s: State, ws: seq<Flow>, got: seq<bytes>, c: nat, chunk: bytes, f: bytes,
                                r: SendResult, r2: SendResult, encs: seq<bytes>, run: seq<World>, moves: seq<Move>)
    requires s.Sized() && FlowSetup.Chooses(s, c, chunk, f, r, r2) && FlowSetup.Choosable(s, c, Signed(Le32(f, HEAD)))
  {
    var op := ServerRuns.Readable(c, Data(chunk), r, r2);
    ServerRuns.Step(s, op).Some?
    && var w := OpenedFlow(s, c, chunk, f, r, r2, encs);
       Separate(ws + [w]) && IsRun(ws + [w], run, moves)
       && run[0] == World(ServerRuns.Step(s, op).value, got + [[]])
  }
}
