/** The blocking buffer call against the buffer-done callbacks and the other threads, step by step.  A
    callback appends a buffer under the component's semaphore and sets the flag only after releasing it;
    the caller looks under the semaphore and blocks on the flag outside it.  Meanwhile other threads may
    enable a port, which queues buffers in front and raises no flag, take buffers out, and consume the
    flag.  What the caller is promised depends on which of these they do. */
module BufferWait {
  import opened Common
  import opened BufferQueues

  /** Which port the caller wants a buffer of and whether it blocks; what the other threads do. */
  datatype Config = Config(port: int, block: bool, splices: bool, takes: bool, steals: bool)

  /** Where get_output_buffer or get_input_buffer is. */
  datatype Pc =
    | Want                          // about to take the semaphore
    | In                            // holding it
    | Leave(ret: Buffer?)           // holding it, having looked
    | Block                         // about to block, or blocked, on the flag
    | Done(ret: Buffer?)

  datatype Callback = Quiet | Entered(b: Buffer) | HasQueued

  datatype Holder = Nobody | TheCallback | TheCaller

  /** `prev` is the caller's, kept from turn to turn.  `flagging` callbacks have released the semaphore
      and not set the flag yet.  Since the caller last looked, others have put buffers in front
      (`spliced`) or consumed the flag (`stolen`); during the call they have taken some out (`taken`). */
  datatype State = State(queue: seq<Buffer>, flag: bool, lock: Holder, cb: Callback, flagging: nat,
                         pc: Pc, prev: Buffer?, spliced: bool, stolen: bool, taken: bool)

  // ---------------------------------------------------------------- steps

  /** The caller's next step; None while it cannot move. */
  function CallerStep(cfg: Config, s: State): Option<State> {
    match s.pc
    case Want => if s.lock.Nobody? then Some(s.(lock := TheCaller, pc := In)) else None
    case In =>
      var t := TurnOf(s.queue, cfg.port, s.prev);
      Some(s.(queue := t.nodes, prev := t.prev, pc := Leave(t.ret), spliced := false, stolen := false))
    case Leave(ret) => Some(s.(lock := Nobody, pc := if ret == null && cfg.block then Block else Done(ret)))
    case Block => if s.flag then Some(s.(flag := false, pc := Want)) else None
    case Done(_) => None
  }

  /** The callback that holds the semaphore. */
  function CallbackStep(s: State): Option<State> {
    match s.cb
    case Quiet => None
    case Entered(b) => Some(s.(queue := Appended(s.queue, b), cb := HasQueued))
    case HasQueued => Some(s.(lock := Nobody, cb := Quiet, flagging := s.flagging + 1))
  }

  predicate Arrives(s: State, t: State) {
    s.lock.Nobody? && t.cb.Entered? && t == s.(lock := TheCallback, cb := t.cb)
  }

  predicate SetsFlag(s: State, t: State) {
    s.flagging > 0 && t == s.(flag := true, flagging := s.flagging - 1)
  }

  /** enable_port_buffers puts new buffers in front of the queue. */
  predicate Splices(s: State, t: State) {
    s.lock.Nobody? && t == s.(queue := t.queue, spliced := true)
    && |s.queue| <= |t.queue| && t.queue[|t.queue| - |s.queue|..] == s.queue
  }

  /** Another get_output_buffer, or disable_port_buffers, takes buffers out. */
  ghost predicate Takes(s: State, t: State) {
    s.lock.Nobody? && t == s.(queue := t.queue, taken := true) && forall b :: b in t.queue ==> b in s.queue
  }

  /** Either of them consumes the flag when it returns from its own block. */
  predicate Steals(s: State, t: State) {
    s.flag && t == s.(flag := false, stolen := true)
  }

  ghost predicate Others(cfg: Config, s: State, t: State) {
    (cfg.splices && Splices(s, t)) || (cfg.takes && Takes(s, t)) || (cfg.steals && Steals(s, t))
  }

  ghost predicate Next(cfg: Config, s: State, t: State) {
    CallerStep(cfg, s) == Some(t) || CallbackStep(s) == Some(t) || Arrives(s, t) || SetsFlag(s, t) || Others(cfg, s, t)
  }

  predicate Starts(s: State) {
    s.pc.Want? && s.prev == null && !s.lock.TheCaller? && (s.lock.TheCallback? <==> !s.cb.Quiet?)
    && !s.spliced && !s.stolen && !s.taken
  }

  ghost predicate IsRun(cfg: Config, run: seq<State>) {
    run != [] && Starts(run[0]) && forall i, j :: 0 <= i && j == i + 1 < |run| ==> Next(cfg, run[i], run[j])
  }

  // ---------------------------------------------------------------- the invariant

  /** The flag is set, or a callback is about to set it. */
  predicate Coming(s: State) {
    s.flag || s.flagging > 0 || s.cb.HasQueued?
  }

  predicate Blocked(cfg: Config, s: State) {
    s.pc.Block? && !NoneOn(s.queue, cfg.port)
  }

  /** The caller is blocked with a buffer of its port queued, and nothing is there to wake it. */
  predicate Missed(cfg: Config, s: State) {
    Blocked(cfg, s) && !Coming(s)
  }

  /** The head is what the caller wants and `prev` is left over from an earlier turn. */
  predicate Stale(cfg: Config, s: State) {
    s.prev != null && s.queue != [] && s.queue[0].port == cfg.port
  }

  /** The caller is about to look with a stale `prev`. */
  predicate Misled(cfg: Config, s: State) {
    s.pc.In? && Stale(cfg, s)
  }

  /** What was not there before can only have come from a callback or a splice. */
  predicate Explained(cfg: Config, s: State) {
    NoneOn(s.queue, cfg.port) || Coming(s) || s.spliced || s.stolen
  }

  predicate Before(pc: Pc) {
    pc.Want? || pc.In? || pc.Block?
  }

  predicate PrevFits(cfg: Config, s: State) {
    s.prev == null || s.taken || (s.queue != [] && (s.spliced || s.queue[0].port != cfg.port))
  }

  predicate Inv(cfg: Config, s: State) {
    (s.lock.TheCallback? <==> !s.cb.Quiet?)
    && (s.lock.TheCaller? <==> s.pc.In? || s.pc.Leave?)
    && (s.pc == Leave(null) ==> NoneOn(s.queue, cfg.port))
    && (s.pc.Block? ==> cfg.block && Explained(cfg, s))
    && (Before(s.pc) || s.pc == Leave(null) ==> PrevFits(cfg, s))
    && (!cfg.block && Before(s.pc) ==> s.prev == null)
    && (s.spliced ==> cfg.splices) && (s.stolen ==> cfg.steals) && (s.taken ==> cfg.takes)
  }

  lemma NothingOn(queue: seq<Buffer>, port: int)
    ensures NoneOn(queue, port) <==> forall b :: b in queue ==> b.port != port
    ensures queue != [] && queue[0].port == port ==> !NoneOn(queue, port)
  {
    var i := FirstOn(queue, port);
    if i < |queue| { assert queue[i] in queue; }
  }

  lemma CallerKeepsInv(cfg: Config, s: State)
    requires Inv(cfg, s) && CallerStep(cfg, s).Some?
    ensures Inv(cfg, CallerStep(cfg, s).value)
  {
    NothingOn(s.queue, cfg.port);
    hide FirstOn;
  }

  lemma CallbacksKeepInv(cfg: Config, s: State, t: State)
    requires Inv(cfg, s) && (CallbackStep(s) == Some(t) || Arrives(s, t) || SetsFlag(s, t))
    ensures Inv(cfg, t)
  {
    hide FirstOn, NoneOn, Appended;
  }

  lemma SpliceKeepsInv(cfg: Config, s: State, t: State)
    requires Inv(cfg, s) && cfg.splices && Splices(s, t)
    ensures Inv(cfg, t)
  {
    hide NoneOn, Coming;
    assert s.queue != [] ==> t.queue != [];
  }

  lemma TakingKeepsInv(cfg: Config, s: State, t: State)
    requires Inv(cfg, s) && cfg.takes && Takes(s, t)
    ensures Inv(cfg, t)
  {
    NothingOn(s.queue, cfg.port);
    NothingOn(t.queue, cfg.port);
    hide NoneOn, PrevFits;
    assert PrevFits(cfg, t) by { PrevAnyway(cfg, t); }
  }

  lemma PrevAnyway(cfg: Config, s: State)
    requires s.taken
    ensures PrevFits(cfg, s)
  {
  }

  lemma StealKeepsInv(cfg: Config, s: State, t: State)
    requires Inv(cfg, s) && cfg.steals && Steals(s, t)
    ensures Inv(cfg, t)
  {
    hide NoneOn, Coming;
  }

  lemma {:induction false} EveryStateKeepsInv(cfg: Config, run: seq<State>, i: nat)
    requires IsRun(cfg, run) && i < |run|
    ensures Inv(cfg, run[i])
  {
    if i > 0 {
      EveryStateKeepsInv(cfg, run, i - 1);
      var s, t := run[i - 1], run[i];
      assert Next(cfg, s, t);
      hide Inv, IsRun;
      if CallerStep(cfg, s) == Some(t) {
        CallerKeepsInv(cfg, s);
      } else if cfg.splices && Splices(s, t) {
        SpliceKeepsInv(cfg, s, t);
      } else if cfg.takes && Takes(s, t) {
        TakingKeepsInv(cfg, s, t);
      } else if cfg.steals && Steals(s, t) {
        StealKeepsInv(cfg, s, t);
      } else {
        CallbacksKeepInv(cfg, s, t);
      }
    }
  }

  /** In every interleaving, a caller about to block or blocked while a buffer of its port is queued has
      the flag set, or a callback about to set it, unless since it last looked buffers were spliced in
      or the flag was consumed. */
  lemma NoBufferMissed(cfg: Config, run: seq<State>, i: nat)
    requires IsRun(cfg, run) && i < |run| && Blocked(cfg, run[i])
    ensures Coming(run[i]) || run[i].spliced || run[i].stolen
  {
    EveryStateKeepsInv(cfg, run, i);
  }

  /** In every interleaving, `prev` misleads the caller only where buffers were taken out during the call
      or spliced in since it last looked. */
  lemma NeverMisledUnless(cfg: Config, run: seq<State>, i: nat)
    requires IsRun(cfg, run) && i < |run| && Misled(cfg, run[i])
    ensures run[i].taken || run[i].spliced
  {
    EveryStateKeepsInv(cfg, run, i);
  }

  // ---------------------------------------------------------------- and with it, exactly

  lemma Longer(cfg: Config, run: seq<State>, t: State) returns (r: seq<State>)
    requires IsRun(cfg, run) && Next(cfg, run[|run| - 1], t)
    ensures IsRun(cfg, r) && r[|r| - 1] == t
  {
    hide Next;
    r := run + [t];
    forall i, j | 0 <= i && j == i + 1 < |r| ensures Next(cfg, r[i], r[j]) {
      assert r[i] == run[i] && (j < |run| ==> r[j] == run[j]);
    }
  }

  /** Blocked, having found nothing in `queue`. */
  function Asleep(cfg: Config, queue: seq<Buffer>, flag: bool): State {
    State(queue, flag, Nobody, Quiet, 0, Block, TurnOf(queue, cfg.port, null).prev, false, false, false)
  }

  /** The run from the call to the first block. */
  lemma FallsAsleep(cfg: Config, queue: seq<Buffer>, flag: bool) returns (run: seq<State>)
    requires cfg.block && NoneOn(queue, cfg.port)
    ensures IsRun(cfg, run) && run[|run| - 1] == Asleep(cfg, queue, flag)
  {
    var s3 := Asleep(cfg, queue, flag);
    var s0 := s3.(pc := Want, prev := null);
    var s1 := s0.(lock := TheCaller, pc := In);
    var s2 := s3.(lock := TheCaller, pc := Leave(null));
    assert CallerStep(cfg, s1) == Some(s2);
    hide FirstOn, NoneOn, TurnOf;
    run := [s0];
    run := Longer(cfg, run, s1);
    run := Longer(cfg, run, s2);
    run := Longer(cfg, run, s3);
  }

  /** A callback brings a buffer that is not queued, up to its setting the flag. */
  lemma Brings(cfg: Config, before: seq<State>, b: Buffer) returns (run: seq<State>)
    requires IsRun(cfg, before)
    requires var s := before[|before| - 1]; s.lock.Nobody? && s.cb.Quiet? && s.flagging == 0 && b !in s.queue
    ensures var s := before[|before| - 1];
      IsRun(cfg, run) && run[|run| - 1] == s.(queue := s.queue + [b], flag := true)
  {
    var s := before[|before| - 1];
    var s1 := s.(lock := TheCallback, cb := Entered(b));
    var s2 := s1.(queue := s.queue + [b], cb := HasQueued);
    var s3 := s.(queue := s.queue + [b], flagging := 1);
    hide IsRun, Appended;
    run := Longer(cfg, before, s1);
    run := Longer(cfg, run, s2);
    run := Longer(cfg, run, s3);
    run := Longer(cfg, run, s3.(flag := true, flagging := 0));
  }

  /** The caller wakes and is about to look. */
  lemma Wakes(cfg: Config, before: seq<State>) returns (run: seq<State>)
    requires IsRun(cfg, before)
    requires var s := before[|before| - 1]; s.lock.Nobody? && s.pc.Block? && s.flag
    ensures var s := before[|before| - 1];
      IsRun(cfg, run) && run[|run| - 1] == s.(flag := false, lock := TheCaller, pc := In)
  {
    var s := before[|before| - 1];
    hide IsRun;
    run := Longer(cfg, before, s.(flag := false, pc := Want));
    run := Longer(cfg, run, s.(flag := false, lock := TheCaller, pc := In));
  }

  /** A thread waits for a buffer while another enables its port: the new buffers are queued, and
      nothing wakes it. */
  lemma SplicedIsMissed(cfg: Config, b: Buffer) returns (run: seq<State>)
    requires cfg.block && cfg.splices && b.port == cfg.port
    ensures IsRun(cfg, run) && Missed(cfg, run[|run| - 1])
  {
    var s := Asleep(cfg, [], false);
    run := FallsAsleep(cfg, [], false);
    hide IsRun;
    run := Longer(cfg, run, s.(queue := [b], spliced := true));
  }

  /** A buffer comes for one thread, and another that waits for a different port consumes the flag. */
  lemma StolenIsMissed(cfg: Config, b: Buffer) returns (run: seq<State>)
    requires cfg.block && cfg.steals && b.port == cfg.port
    ensures IsRun(cfg, run) && Missed(cfg, run[|run| - 1])
  {
    var s := Asleep(cfg, [], false);
    run := FallsAsleep(cfg, [], false);
    hide IsRun;
    run := Brings(cfg, run, b);
    run := Longer(cfg, run, s.(queue := [b], stolen := true));
  }

  /** A port is enabled while a thread waits for its buffers and another port's are queued: when that
      thread wakes, its `prev` is the tail of the old queue. */
  lemma SplicedMisleads(cfg: Config, b: Buffer, x: Buffer) returns (run: seq<State>)
    requires cfg.block && cfg.splices && b.port == cfg.port && x.port != cfg.port
    ensures IsRun(cfg, run) && Misled(cfg, run[|run| - 1])
  {
    var s := Asleep(cfg, [x], true);
    run := FallsAsleep(cfg, [x], true);
    hide IsRun;
    run := Longer(cfg, run, s.(queue := [b, x], spliced := true));
    run := Wakes(cfg, run);
  }

  /** The buffer the caller passed over is taken, and one for it comes. */
  lemma TakenMisleads(cfg: Config, b: Buffer, x: Buffer) returns (run: seq<State>)
    requires cfg.block && cfg.takes && b.port == cfg.port && x.port != cfg.port
    ensures IsRun(cfg, run) && Misled(cfg, run[|run| - 1])
  {
    var s := Asleep(cfg, [x], false);
    run := FallsAsleep(cfg, [x], false);
    hide IsRun;
    run := Longer(cfg, run, s.(queue := [], taken := true));
    run := Brings(cfg, run, b);
    run := Wakes(cfg, run);
  }

  /** No call is ever left blocked with a buffer of its port queued and no flag coming, if and only if it
      does not block or nobody splices buffers in or consumes the flag. */
  lemma NeverMissedIff(cfg: Config, b: Buffer)
    requires b.port == cfg.port
    ensures (forall run, i: nat :: IsRun(cfg, run) && i < |run| ==> !Missed(cfg, run[i]))
        <==> !cfg.block || !(cfg.splices || cfg.steals)
  {
    hide Next, Missed;
    if cfg.block && cfg.splices {
      var run := SplicedIsMissed(cfg, b);
      assert Missed(cfg, run[|run| - 1]);
    } else if cfg.block && cfg.steals {
      var run := StolenIsMissed(cfg, b);
      assert Missed(cfg, run[|run| - 1]);
    } else {
      forall run, i: nat | IsRun(cfg, run) && i < |run| ensures !Missed(cfg, run[i]) {
        EveryStateKeepsInv(cfg, run, i);
        MissedOnlyBy(cfg, run[i]);
      }
    }
  }

  lemma MissedOnlyBy(cfg: Config, s: State)
    requires Inv(cfg, s)
    ensures Missed(cfg, s) ==> cfg.block && (cfg.splices || cfg.steals)
    ensures Misled(cfg, s) ==> cfg.block && (cfg.splices || cfg.takes)
  {
    NothingOn(s.queue, cfg.port);
  }

  /** No call ever looks with a stale `prev`, if and only if it does not block or nobody splices buffers
      in or takes any out. */
  lemma NeverMisledIff(cfg: Config, b: Buffer, x: Buffer)
    requires b.port == cfg.port && x.port != cfg.port
    ensures (forall run, i: nat :: IsRun(cfg, run) && i < |run| ==> !Misled(cfg, run[i]))
        <==> !cfg.block || !(cfg.splices || cfg.takes)
  {
    hide Next, Misled;
    if cfg.block && cfg.splices {
      var run := SplicedMisleads(cfg, b, x);
      assert Misled(cfg, run[|run| - 1]);
    } else if cfg.block && cfg.takes {
      var run := TakenMisleads(cfg, b, x);
      assert Misled(cfg, run[|run| - 1]);
    } else {
      forall run, i: nat | IsRun(cfg, run) && i < |run| ensures !Misled(cfg, run[i]) {
        EveryStateKeepsInv(cfg, run, i);
        MissedOnlyBy(cfg, run[i]);
      }
    }
  }

  // ---------------------------------------------------------------- what a woken caller does

  function Alone(cfg: Config, s: State, n: nat): State
    decreases n
  {
    var t := CallerStep(cfg, s);
    if n == 0 || t.None? then s else Alone(cfg, t.value, n - 1)
  }

  /** With the flag set and the semaphore free, a blocked call returns its port's oldest buffer in four
      steps of its own, if there is one, and else blocks again.  It takes the buffer out and leaves the
      others as they are, unless `prev` is stale: then the buffer stays queued, and only that. */
  lemma BlockedCallReturns(cfg: Config, s: State)
    requires s.pc.Block? && s.flag && s.lock.Nobody? && cfg.block
    ensures var t, i := Alone(cfg, s, 4), FirstOn(s.queue, cfg.port);
      t.lock.Nobody? && !t.flag
      && if i == |s.queue| then t.pc == Block && t.queue == s.queue
         else t.pc == Done(s.queue[i])
              && t.queue == if Stale(cfg, s) then [s.queue[i]] else RemoveAt(s.queue, i)
  {
    var s1 := CallerStep(cfg, s).value;
    var s2 := CallerStep(cfg, s1).value;
    var s3 := CallerStep(cfg, s2).value;
    var s4 := CallerStep(cfg, s3).value;
    assert Alone(cfg, s, 4) == Alone(cfg, s1, 3) == Alone(cfg, s2, 2) == Alone(cfg, s3, 1) == s4;
  }
}
