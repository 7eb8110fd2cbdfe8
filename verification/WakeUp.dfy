/** One waiter against the callbacks, step by step: the waiter takes the event lock, scans,
    releases the lock and blocks on its component's flags; a callback takes the lock, drops
    duplicates, notifies the related component, raises its flag, inserts and releases.  Any
    interleaving is a run; the result is that no wake-up is lost. */
module WakeUp {
  import opened Common
  import opened IlEvents

  /** What the waiter is doing: wait_for_command_complete_dual or wait_for_event. */
  datatype Task =
    | Dual(command: Command, data2: nat, other: Option<nat>)
    | Single(wanted: Pattern, mask: set<Flag>)

  datatype Config = Config(comp: nat, task: Task) {
    function Mask(): set<Flag> {
      match task
      case Dual(command, _, _) => {EventError} + CommandFlag(command)
      case Single(_, mask) => mask
    }

    predicate Wants(e: Event) {
      match task
      case Dual(command, data2, _) => MatchesAny(e, Completion(command, data2))
      case Single(wanted, _) => wanted.Matches(e)
    }

    /** An event the waiter wants and whose arrival raises a flag it waits on. */
    predicate Alerts(e: Event) {
      Wants(e) && OwnFlag(e).Some? && OwnFlag(e).value in Mask()
    }

    function Other(): Option<nat> {
      if task.Dual? then task.other else None
    }

    predicate Fits(client: Client) {
      client.Has(comp) && (Other().Some? ==> client.Has(Other().value))
    }
  }

  /** The command's own bit of the mask; none for the commands the dual wait refuses. */
  function CommandFlag(command: Command): set<Flag> {
    match command
    case StateSet => {StateChanged}
    case PortDisable => {PortDisabled}
    case PortEnable => {PortEnabled}
    case _ => {}
  }

  predicate Awaitable(command: Command) {
    command.StateSet? || command.PortDisable? || command.PortEnable?
  }

  /** The waiter's locked sections. */
  datatype Section = Scan | Try | ErrorCheck | ConfigCheck | Last

  datatype Pc =
    | Start
    | Want(section: Section)   // about to take the event lock
    | In(section: Section)     // holding it
    | Leave(next: Pc)          // holding it, the section done
    | Block                    // about to block, or blocked, on the component's flags
    | Clear(ret: int)          // about to reset other->related
    | Done(ret: int)

  datatype Callback =
    | Quiet
    | Entered(c: nat, e: Event)
    | Deduped(c: nat, e: Event)
    | Notified(c: nat, e: Event)
    | Signalled(c: nat, e: Event, keep: bool)
    | Inserted(c: nat, e: Event)

  datatype Holder = Nobody | TheCallback | TheWaiter

  datatype State = State(client: Client, lock: Holder, cb: Callback, pc: Pc, removed: seq<Event>)

  // ---------------------------------------------------------------- steps

  function AfterTry(mask: set<Flag>): Pc {
    if EventError in mask then Want(ErrorCheck) else AfterErrorCheck(mask)
  }

  function AfterErrorCheck(mask: set<Flag>): Pc {
    if ConfigChanged in mask then Want(ConfigCheck) else Block
  }

  /** What a locked section does and where it leaves to. */
  function RunSection(cfg: Config, s: State, section: Section): (r: State)
    requires cfg.Fits(s.client) && (section.Scan? <==> cfg.task.Dual?)
  {
    match section
    case Scan =>
      var r := DualScan(s.client, cfg.comp, cfg.task.command, cfg.task.data2, cfg.task.other);
      s.(client := r.client, removed := s.removed + r.removed,
         pc := Leave(if r.ret.Some? then Clear(r.ret.value) else Block))
    case Try => Take(cfg, s, AfterTry(cfg.task.mask))
    case ErrorCheck =>
      var r := CheckError(s.client, cfg.comp);
      s.(client := r.0, pc := Leave(if r.1 then Done(-2) else AfterErrorCheck(cfg.task.mask)))
    case ConfigCheck =>
      s.(pc := Leave(if CheckConfig(s.client, cfg.comp) then Want(Last) else Block))
    case Last => Take(cfg, s, Done(-3))
  }

  /** remove_event inside wait_for_event: 0 if it removed something, else go on at `otherwise`. */
  function Take(cfg: Config, s: State, otherwise: Pc): State
    requires cfg.Fits(s.client) && cfg.task.Single?
  {
    var list := s.client.comps[cfg.comp].list;
    var i := FirstMatch(list, [cfg.task.wanted]);
    var r := RemoveEvent(s.client, cfg.comp, cfg.task.wanted);
    if i < |list| then s.(client := r.0, removed := s.removed + [list[i]], pc := Leave(Done(0)))
    else s.(pc := Leave(otherwise))
  }

  function Relate(s: State, other: Option<nat>, to: Option<nat>): State
    requires other.Some? ==> s.client.Has(other.value)
  {
    if other.None? then s
    else s.(client := s.client.With(other.value, s.client.comps[other.value].(related := to)))
  }

  /** The waiter's next step; None while it cannot move. */
  function WaiterStep(cfg: Config, s: State): (r: Option<State>)
    requires cfg.Fits(s.client)
    ensures r.Some? ==> cfg.Fits(r.value.client)
  {
    match s.pc
    case Start =>
      if cfg.task.Single? then Some(s.(pc := Want(Try)))
      else if !Awaitable(cfg.task.command) then Some(s.(pc := Done(-1)))
      else Some(Relate(s, cfg.task.other, Some(cfg.comp)).(pc := Want(Scan)))
    case Want(section) => if s.lock.Nobody? then Some(s.(lock := TheWaiter, pc := In(section))) else None
    case In(section) =>
      if section.Scan? <==> cfg.task.Dual? then Some(RunSection(cfg, s, section)) else None
    case Leave(next) => Some(s.(lock := Nobody, pc := next))
    case Block =>
      var got := s.client.comps[cfg.comp].flags * cfg.Mask();
      if got == {} then None else
        Some(s.(client := s.client.Consume(cfg.comp, cfg.Mask()),
                pc := if cfg.task.Dual? then Want(Scan)
                      else if EventError in got then Done(-2)
                      else if ConfigChanged in got then Want(Last) else Want(Try)))
    case Clear(ret) => Some(Relate(s, cfg.Other(), None).(pc := Done(ret)))
    case Done(_) => None
  }

  /** The next step of the callback that holds the lock; None if there is none, or if the
      spare list is empty where the handler asserts it is not. */
  function CallbackStep(s: State): Option<State>
  {
    if s.cb.Quiet? || !s.client.Has(s.cb.c) then None else
    match s.cb
    case Entered(c, e) => Some(s.(client := DedupAt(s.client, c), cb := Deduped(c, e)))
    case Deduped(c, e) =>
      if s.client.spare == 0 then None else Some(s.(client := NotifyRelated(s.client, c, e), cb := Notified(c, e)))
    case Notified(c, e) =>
      Some(s.(client := Signal(s.client, c, e), cb := Signalled(c, e, !Ignored(e, s.client.comps[c].errorMask))))
    case Signalled(c, e, keep) =>
      if s.client.spare == 0 then None else
      Some(s.(client := if keep then Insert(s.client, c, e) else s.client, cb := Inserted(c, e)))
    case Inserted(c, e) => Some(s.(lock := Nobody, cb := Quiet))
  }

  function CallbackAlone(s: State, n: nat): (r: Option<State>)
    decreases n
  {
    if n == 0 then Some(s) else
      var t := CallbackStep(s);
      if t.None? then None else CallbackAlone(t.value, n - 1)
  }

  /** The callback's steps one after the other are the handler's locked section as a whole; they
      get stuck exactly where its assertion fails. */
  lemma CallbackIsHandle(s: State, c: nat, e: Event)
    requires s.cb == Entered(c, e) && s.client.Has(c)
    ensures CallbackAlone(s, 5) ==
      match Handle(s.client, c, e)
      case Some(client) => Some(s.(client := client, cb := Quiet, lock := Nobody))
      case None => None
  {
    var s1 := CallbackStep(s).value;
    if s1.client.spare > 0 {
      var s2 := CallbackStep(s1).value;
      var s3 := CallbackStep(s2).value;
      var s4 := CallbackStep(s3).value;
      var s5 := CallbackStep(s4).value;
      hide CallbackStep, DedupAt, NotifyRelated, Insert;
      assert CallbackAlone(s, 5) == CallbackAlone(s1, 4) == CallbackAlone(s2, 3) == CallbackAlone(s3, 2);
      assert CallbackAlone(s3, 2) == CallbackAlone(s4, 1) == Some(s5);
    } else {
      assert CallbackAlone(s, 5) == CallbackAlone(s1, 4) == None;
    }
  }

  ghost predicate Arrives(s: State, t: State) {
    exists c: nat, e: Event :: s.client.Has(c) && Expected(e) && s.lock.Nobody?
      && t == s.(lock := TheCallback, cb := Entered(c, e))
  }

  ghost predicate TimesOut(cfg: Config, s: State, t: State) {
    cfg.task.Single? && s.pc.Block? && t == s.(pc := Done(-1))
  }

  /** Everything else, at any moment: other threads and other components, as long as nobody else
      consumes from the waiter's component, adds to the other component's list or uses its
      `related`.  Buffer callbacks may raise flags on the waiter's component. */
  ghost predicate Environment(cfg: Config, s: State, t: State) {
    t == s.(client := t.client) && |t.client.comps| == |s.client.comps|
    && s.client.Has(cfg.comp) && t.client.comps[cfg.comp].list == s.client.comps[cfg.comp].list
    && s.client.comps[cfg.comp].flags <= t.client.comps[cfg.comp].flags
    && (cfg.Other().Some? && s.client.Has(cfg.Other().value) ==>
          var o := cfg.Other().value;
          t.client.comps[o].related == s.client.comps[o].related
          && forall e :: e in t.client.comps[o].list ==> e in s.client.comps[o].list)
  }

  ghost predicate Next(cfg: Config, s: State, t: State) {
    cfg.Fits(s.client)
    && (WaiterStep(cfg, s) == Some(t) || CallbackStep(s) == Some(t)
        || Arrives(s, t) || TimesOut(cfg, s, t) || Environment(cfg, s, t))
  }

  /** The waiter has not begun; whatever the client holds. */
  ghost predicate Init(cfg: Config, s: State) {
    cfg.Fits(s.client) && s.lock.Nobody? && s.cb.Quiet? && s.pc.Start? && s.removed == []
  }

  ghost predicate IsRun(cfg: Config, run: seq<State>) {
    run != [] && Init(cfg, run[0]) && forall i, j :: 0 <= i && j == i + 1 < |run| ==> Next(cfg, run[i], run[j])
  }

  // ---------------------------------------------------------------- the invariant

  /** The waiter's last full look found nothing, and it has consumed no flag since. */
  predicate Armed(pc: Pc) {
    match pc
    case Leave(next) => Armed(next)
    case Want(section) => section.ErrorCheck? || section.ConfigCheck?
    case In(section) => section.ErrorCheck? || section.ConfigCheck?
    case Block => true
    case _ => false
  }

  predicate Raised(cfg: Config, s: State)
    requires s.client.Has(cfg.comp)
  {
    s.client.comps[cfg.comp].flags * cfg.Mask() != {}
  }

  /** A callback under way that will put an alert where the waiter has already looked. */
  predicate Underway(cfg: Config, cb: Callback) {
    (cb.Signalled? && cb.c == cfg.comp && cb.keep && cfg.Alerts(Stored(cb.e)))
    || ((cb.Notified? || cb.Signalled?) && cfg.Other() == Some(cb.c) && TerminatesCommand(cb.e))
  }

  /** An event already in a list the waiter looks at, that must wake it. */
  predicate Present(cfg: Config, s: State)
    requires cfg.Fits(s.client)
  {
    (exists e :: e in s.client.comps[cfg.comp].list && cfg.Alerts(e))
    || (cfg.Other().Some? && exists e :: e in s.client.comps[cfg.Other().value].list && TerminatesCommand(e))
  }

  predicate Sections(cfg: Config, pc: Pc) {
    match pc
    case Leave(next) => !next.In? && !next.Leave? && (next.Done? ==> cfg.task.Single?) && Sections(cfg, next)
    case Want(section) => section.Scan? <==> cfg.task.Dual?
    case In(section) => section.Scan? <==> cfg.task.Dual?
    case Clear(_) => cfg.task.Dual?
    case _ => true
  }

  predicate Relating(pc: Pc) {
    !pc.Start? && !pc.Done?
  }

  ghost predicate Inv(cfg: Config, s: State) {
    cfg.Fits(s.client)
    && (s.lock.TheCallback? <==> !s.cb.Quiet?)
    && (s.lock.TheWaiter? <==> s.pc.In? || s.pc.Leave?)
    && Sections(cfg, s.pc)
    && (cfg.task.Dual? && Relating(s.pc) ==> Awaitable(cfg.task.command))
    && (cfg.Other().Some? && Relating(s.pc) ==> s.client.comps[cfg.Other().value].related == Some(cfg.comp))
    && (Armed(s.pc) && (Present(cfg, s) || Underway(cfg, s.cb)) ==> Raised(cfg, s))
  }

  lemma SectionKeepsInv(cfg: Config, s: State, section: Section)
    requires Inv(cfg, s) && s.pc == In(section)
    ensures Inv(cfg, RunSection(cfg, s, section))
  {
    var t := RunSection(cfg, s, section);
    var list := s.client.comps[cfg.comp].list;
    match section
    case Scan =>
      if t.pc.next.Clear? {
        assert !Armed(t.pc.next) && !Armed(t.pc);
      } else {
        assert forall e :: e in list ==> !cfg.Wants(e);
        if cfg.task.other.Some? {
          var others := s.client.comps[cfg.task.other.value].list;
          assert forall e :: e in others && TerminatesCommand(e) ==> [Termination()][0].Matches(e);
          assert forall e :: e in others ==> !TerminatesCommand(e);
        }
        assert !Present(cfg, t) && !Underway(cfg, t.cb);
      }
    case Try =>
      if t.pc == Leave(Done(0)) {
        assert !Armed(t.pc.next) && !Armed(t.pc);
      } else {
        assert forall e :: e in list && cfg.Wants(e) ==> [cfg.task.wanted][0].Matches(e);
        assert forall e :: e in list ==> !cfg.Wants(e);
        assert !Present(cfg, t) && !Underway(cfg, t.cb);
      }
    case ErrorCheck =>
      if t.pc == Leave(Done(-2)) {
        assert !Armed(t.pc.next) && !Armed(t.pc);
      } else {
        assert t.client == s.client;
        assert Present(cfg, t) == Present(cfg, s);
      }
    case ConfigCheck =>
      assert t.client == s.client && Present(cfg, t) == Present(cfg, s);
    case Last =>
      assert !Armed(t.pc.next) && !Armed(t.pc);
  }

  lemma WaiterKeepsInv(cfg: Config, s: State)
    requires Inv(cfg, s) && WaiterStep(cfg, s).Some?
    ensures Inv(cfg, WaiterStep(cfg, s).value)
  {
    if s.pc.In? { SectionKeepsInv(cfg, s, s.pc.section); }
  }

  lemma CallbackKeepsInv(cfg: Config, s: State)
    requires Inv(cfg, s) && CallbackStep(s).Some?
    ensures Inv(cfg, CallbackStep(s).value)
  {
    var t := CallbackStep(s).value;
    CallbackFrame(cfg, s);
    if Armed(s.pc) { CallbackAlerts(cfg, s); }
    hide CallbackStep, Present, Underway, Raised, Armed, Sections;
  }

  /** What a callback's step leaves as it is for the waiter. */
  lemma CallbackFrame(cfg: Config, s: State)
    requires cfg.Fits(s.client) && CallbackStep(s).Some? && s.lock.TheCallback?
    ensures var t := CallbackStep(s).value;
      cfg.Fits(t.client) && t.pc == s.pc && (t.lock.TheCallback? <==> !t.cb.Quiet?) && !t.lock.TheWaiter?
      && forall d: nat :: s.client.Has(d) ==> t.client.comps[d].related == s.client.comps[d].related
                                              && s.client.comps[d].flags <= t.client.comps[d].flags
  {
    hide Underway, Present, Raised;
  }

  /** A callback raises the waiter's flag before it puts an alert where the waiter has looked. */
  lemma CallbackAlerts(cfg: Config, s: State)
    requires Inv(cfg, s) && CallbackStep(s).Some? && Armed(s.pc) && cfg.Fits(CallbackStep(s).value.client)
    requires s.client.comps[cfg.comp].flags <= CallbackStep(s).value.client.comps[cfg.comp].flags
    ensures var t := CallbackStep(s).value;
      Present(cfg, t) || Underway(cfg, t.cb) ==> Raised(cfg, t)
  {
    var t := CallbackStep(s).value;
    var c, e := s.cb.c, s.cb.e;
    assert Raised(cfg, s) ==> Raised(cfg, t);
    if Present(cfg, t) && !Present(cfg, s) {
      assert s.cb.Signalled? && s.cb.keep;
      assert t.client.comps[c].list == [Stored(e)] + s.client.comps[c].list;
      assert Underway(cfg, s.cb);
    }
    if Underway(cfg, t.cb) && !Underway(cfg, s.cb) {
      if s.cb.Deduped? {
        assert EventError in t.client.comps[cfg.comp].flags * cfg.Mask();
      } else {
        assert OwnFlag(Stored(e)) == OwnFlag(e);
        assert OwnFlag(e).value in t.client.comps[cfg.comp].flags * cfg.Mask();
      }
    }
  }

  lemma NextKeepsInv(cfg: Config, s: State, t: State)
    requires Inv(cfg, s) && Next(cfg, s, t)
    ensures Inv(cfg, t)
  {
    if WaiterStep(cfg, s) == Some(t) {
      WaiterKeepsInv(cfg, s);
    } else if CallbackStep(s) == Some(t) {
      CallbackKeepsInv(cfg, s);
    }
  }

  lemma {:induction false} EveryStateKeepsInv(cfg: Config, run: seq<State>, i: nat)
    requires IsRun(cfg, run) && i < |run|
    ensures Inv(cfg, run[i])
  {
    if i > 0 {
      EveryStateKeepsInv(cfg, run, i - 1);
      NextKeepsInv(cfg, run[i - 1], run[i]);
    }
  }

  /** No lost wake-up: in every interleaving, whenever the waiter is about to block or blocked
      and an alert is in its list, or a terminating error in the other component's, a flag it
      waits on is raised. */
  lemma NoLostWakeUp(cfg: Config, run: seq<State>, i: nat)
    requires IsRun(cfg, run) && i < |run| && run[i].pc.Block?
    ensures cfg.Fits(run[i].client)
    ensures Present(cfg, run[i]) ==> Raised(cfg, run[i])
  {
    EveryStateKeepsInv(cfg, run, i);
  }

  // ---------------------------------------------------------------- errors and configuration changes

  /** The waiter has looked for events of this kind since it last consumed flags, and found none. */
  predicate Looked(cfg: Config, pc: Pc, kind: Kind) {
    match pc
    case Leave(next) => Looked(cfg, next, kind)
    case Want(section) => kind.Error? && section.ConfigCheck?
    case In(section) => kind.Error? && section.ConfigCheck?
    case Block => true
    case _ => false
  }

  /** The flag of a kind that wait_for_event looks for by itself, if its mask has it. */
  predicate LookedFor(cfg: Config, kind: Kind) {
    cfg.task.Single? && FlagOf(kind) != {} && FlagOf(kind) <= cfg.task.mask
  }

  /** An event of this kind that raises its flag. */
  predicate Flagging(e: Event, kind: Kind) {
    e.kind == kind && OwnFlag(e).Some? && FlagOf(kind) == {OwnFlag(e).value}
  }

  /** Once the waiter has looked, an event of the kind in its list has its flag raised, and one the
      callback is about to put there as well. */
  ghost predicate FlagStands(cfg: Config, s: State, kind: Kind)
    requires s.client.Has(cfg.comp)
  {
    var x := s.client.comps[cfg.comp];
    Looked(cfg, s.pc, kind)
    && ((exists e :: e in x.list && Flagging(e, kind))
        || (s.cb.Signalled? && s.cb.c == cfg.comp && s.cb.keep && Flagging(s.cb.e, kind)))
    ==> FlagOf(kind) <= x.flags
  }

  lemma SectionKeepsFlag(cfg: Config, s: State, section: Section, kind: Kind)
    requires Inv(cfg, s) && LookedFor(cfg, kind) && s.pc == In(section) && FlagStands(cfg, s, kind)
    ensures RunSection(cfg, s, section).client.Has(cfg.comp) && FlagStands(cfg, RunSection(cfg, s, section), kind)
  {
    var t := RunSection(cfg, s, section);
    AnyOfMatches(Error, s.client.comps[cfg.comp].list);
    AnyOfMatches(ParamOrConfigChanged, s.client.comps[cfg.comp].list);
    FlagsAre();
    assert !s.cb.Signalled? && t.cb == s.cb;
    hide Present, Underway, Raised, RemoveEvent, FirstMatch, FlagOf;
    match section
    case Try => assert !Looked(cfg, t.pc.next, kind);
    case ErrorCheck =>
      if kind.Error? && !t.pc.next.Done? {
        assert forall e :: e in t.client.comps[cfg.comp].list ==> !Flagging(e, kind);
      } else {
        assert !Looked(cfg, t.pc.next, kind);
      }
    case ConfigCheck =>
      if kind.Error? {
        assert Looked(cfg, s.pc, kind) && t.client == s.client;
      } else if t.pc.next.Block? {
        assert forall e :: e in t.client.comps[cfg.comp].list ==> !Flagging(e, kind);
      } else {
        assert !Looked(cfg, t.pc.next, kind);
      }
    case Last => assert !Looked(cfg, t.pc.next, kind);
  }

  lemma FlagsAre()
    ensures FlagOf(Error) == {EventError} && FlagOf(ParamOrConfigChanged) == {ConfigChanged}
    ensures forall kind :: FlagOf(kind) != {} ==> kind.Error? || kind.ParamOrConfigChanged?
  {
  }

  lemma WaiterKeepsFlag(cfg: Config, s: State, kind: Kind)
    requires Inv(cfg, s) && LookedFor(cfg, kind) && WaiterStep(cfg, s).Some? && FlagStands(cfg, s, kind)
    ensures FlagStands(cfg, WaiterStep(cfg, s).value, kind)
  {
    if s.pc.In? { SectionKeepsFlag(cfg, s, s.pc.section, kind); }
    hide RunSection, Present, Underway, Raised;
  }

  lemma CallbackKeepsFlag(cfg: Config, s: State, kind: Kind)
    requires Inv(cfg, s) && LookedFor(cfg, kind) && CallbackStep(s).Some? && FlagStands(cfg, s, kind)
    ensures CallbackStep(s).value.client.Has(cfg.comp) && FlagStands(cfg, CallbackStep(s).value, kind)
  {
    var t := CallbackStep(s).value;
    CallbackFrame(cfg, s);
    assert OwnFlag(Stored(s.cb.e)) == OwnFlag(s.cb.e);
    if s.cb.Signalled? && s.cb.keep && s.cb.c == cfg.comp {
      assert t.client.comps[cfg.comp].list == [Stored(s.cb.e)] + s.client.comps[cfg.comp].list;
    }
    hide Present, Underway, Raised, FlagOf;
  }

  lemma {:induction false} EveryStateKeepsFlag(cfg: Config, run: seq<State>, i: nat, kind: Kind)
    requires IsRun(cfg, run) && i < |run| && LookedFor(cfg, kind)
    ensures run[i].client.Has(cfg.comp) && FlagStands(cfg, run[i], kind)
  {
    if i > 0 {
      EveryStateKeepsFlag(cfg, run, i - 1, kind);
      StepAt(cfg, run, i);
      hide IsRun;
      NextKeepsFlag(cfg, run[i - 1], run[i], kind);
    }
  }

  lemma NextKeepsFlag(cfg: Config, s: State, t: State, kind: Kind)
    requires Inv(cfg, s) && LookedFor(cfg, kind) && Next(cfg, s, t) && s.client.Has(cfg.comp)
    requires FlagStands(cfg, s, kind)
    ensures t.client.Has(cfg.comp) && FlagStands(cfg, t, kind)
  {
    if WaiterStep(cfg, s) == Some(t) {
      WaiterKeepsFlag(cfg, s, kind);
    } else if CallbackStep(s) == Some(t) {
      CallbackKeepsFlag(cfg, s, kind);
    }
    hide WaiterStep, CallbackStep, Inv;
  }

  /** wait_for_event with errors or configuration changes in its mask: whenever it is about to block
      or blocked and any such event that raises its flag is in the list, wanted or not, that flag is
      raised. */
  lemma NoLostErrorOrChange(cfg: Config, run: seq<State>, i: nat, kind: Kind)
    requires IsRun(cfg, run) && i < |run| && run[i].pc.Block? && LookedFor(cfg, kind)
    ensures run[i].client.Has(cfg.comp)
    ensures (exists e :: e in run[i].client.comps[cfg.comp].list && Flagging(e, kind))
      ==> FlagOf(kind) <= run[i].client.comps[cfg.comp].flags
  {
    EveryStateKeepsFlag(cfg, run, i, kind);
  }

  // ---------------------------------------------------------------- it does wake up

  /** The waiter running by itself for at most `n` steps. */
  function Alone(cfg: Config, s: State, n: nat): State
    requires cfg.Fits(s.client)
    decreases n
  {
    var t := WaiterStep(cfg, s);
    if n == 0 || t.None? then s else Alone(cfg, t.value, n - 1)
  }

  /** The dual wait's scan has something to report. */
  predicate Ends(cfg: Config, client: Client)
    requires cfg.Fits(client)
  {
    (exists e :: e in client.comps[cfg.comp].list && cfg.Wants(e))
    || (cfg.Other().Some? && exists e :: e in client.comps[cfg.Other().value].list && TerminatesCommand(e))
  }

  /** What the scan answers when it has something to report. */
  lemma ScanAnswers(cfg: Config, s: State)
    requires cfg.Fits(s.client) && s.pc == In(Scan) && cfg.task.Dual? && Ends(cfg, s.client)
    ensures var t := RunSection(cfg, s, Scan);
      cfg.Fits(t.client) && t.pc.Leave? && t.pc.next.Clear? && t.lock == s.lock
      && if exists e :: e in s.client.comps[cfg.comp].list && cfg.Wants(e)
         then t.pc.next.ret in {0, -1} && |t.removed| == |s.removed| + 1
         else t.pc.next.ret == -2 && t.removed == s.removed
  {
    DualScanContract(s.client, cfg.comp, cfg.task.command, cfg.task.data2, cfg.task.other);
    EndsTheWait(cfg.task.command, cfg.task.data2);
    hide Completion, MatchesAny, DualScan;
    assert s.removed + [] == s.removed;
  }

  lemma ScanReturns(cfg: Config, s: State)
    requires cfg.Fits(s.client) && s.pc == In(Scan) && cfg.task.Dual? && Ends(cfg, s.client)
    ensures var t := Alone(cfg, s, 3);
      t.pc.Done? && t.lock.Nobody?
      && if exists e :: e in s.client.comps[cfg.comp].list && cfg.Wants(e)
         then t.pc.ret in {0, -1} && |t.removed| == |s.removed| + 1
         else t.pc.ret == -2 && t.removed == s.removed
  {
    ScanAnswers(cfg, s);
    hide RunSection, Ends, Config.Wants;
    var s1 := WaiterStep(cfg, s).value;
    var s2 := WaiterStep(cfg, s1).value;
    var s3 := WaiterStep(cfg, s2).value;
    assert Alone(cfg, s, 3) == Alone(cfg, s1, 2) == Alone(cfg, s2, 1) == s3;
  }

  /** With an alert present and the lock free, a blocked dual wait returns in five steps of its
      own, with the answer the lists call for. */
  lemma DualReturns(cfg: Config, s: State)
    requires Inv(cfg, s) && s.pc.Block? && s.lock.Nobody? && cfg.task.Dual? && Present(cfg, s)
    ensures var t := Alone(cfg, s, 5);
      t.pc.Done? && t.lock.Nobody?
      && if exists e :: e in s.client.comps[cfg.comp].list && cfg.Wants(e)
         then t.pc.ret in {0, -1} && |t.removed| == |s.removed| + 1
         else t.pc.ret == -2 && t.removed == s.removed
  {
    hide DualScan, RunSection;
    var s1 := WaiterStep(cfg, s).value;
    var s2 := WaiterStep(cfg, s1).value;
    ScanReturns(cfg, s2);
    assert Alone(cfg, s, 5) == Alone(cfg, s1, 4) == Alone(cfg, s2, 3);
  }

  /** Likewise wait_for_event: it takes the event, or reports the error whose flag woke it. */
  lemma SingleReturns(cfg: Config, s: State)
    requires Inv(cfg, s) && s.pc.Block? && s.lock.Nobody? && cfg.task.Single? && Present(cfg, s)
    ensures var t := Alone(cfg, s, 4);
      t.pc.Done? && t.lock.Nobody?
      && if EventError in s.client.comps[cfg.comp].flags * cfg.task.mask
         then t.pc.ret == -2 && t.removed == s.removed
         else t.pc.ret == 0 && |t.removed| == |s.removed| + 1
  {
    var s1 := WaiterStep(cfg, s).value;
    if s1.pc.Want? {
      var e :| e in s.client.comps[cfg.comp].list && cfg.Alerts(e);
      assert [cfg.task.wanted][0].Matches(e);
      var s2 := WaiterStep(cfg, s1).value;
      var s3 := WaiterStep(cfg, s2).value;
      var s4 := WaiterStep(cfg, s3).value;
      assert Alone(cfg, s, 4) == Alone(cfg, s1, 3) == Alone(cfg, s2, 2) == Alone(cfg, s3, 1) == s4;
    } else {
      assert Alone(cfg, s, 4) == Alone(cfg, s1, 3) == s1;
    }
  }

  // ---------------------------------------------------------------- what wait_for_event answers

  lemma {:induction false} AloneAdds(cfg: Config, s: State, m: nat, n: nat)
    requires cfg.Fits(s.client)
    ensures cfg.Fits(Alone(cfg, s, m).client) && Alone(cfg, s, m + n) == Alone(cfg, Alone(cfg, s, m), n)
    decreases m
  {
    var t := WaiterStep(cfg, s);
    hide WaiterStep;
    if m > 0 {
      if t.Some? {
        AloneAdds(cfg, t.value, m - 1, n);
      } else {
        assert Alone(cfg, s, n) == s;
      }
    }
  }

  /** One locked section from taking the lock to releasing it. */
  lemma SectionAlone(cfg: Config, s: State, section: Section)
    requires cfg.Fits(s.client) && s.lock.Nobody? && s.pc == Want(section) && cfg.task.Single? && !section.Scan?
    ensures var t := RunSection(cfg, s.(lock := TheWaiter, pc := In(section)), section);
      t.pc.Leave? && cfg.Fits(t.client) && Alone(cfg, s, 3) == t.(lock := Nobody, pc := t.pc.next)
  {
    var s1 := s.(lock := TheWaiter, pc := In(section));
    var t := RunSection(cfg, s1, section);
    hide RemoveEvent, CheckError, CheckConfig, FirstMatch;
    assert WaiterStep(cfg, s) == Some(s1) && WaiterStep(cfg, s1) == Some(t);
    hide RunSection;
    assert t.pc.Leave?;
    assert Alone(cfg, s, 3) == Alone(cfg, s1, 2) == Alone(cfg, t, 1);
  }

  /** What wait_for_event takes if it can. */
  ghost predicate Listed(cfg: Config, client: Client)
    requires cfg.Fits(client) && cfg.task.Single?
  {
    var wanted := cfg.task.wanted;
    exists e :: e in client.comps[cfg.comp].list && e.kind == wanted.kind
      && (wanted.ignore1 || e.data1 == wanted.data1) && (wanted.ignore2 || e.data2 == wanted.data2)
  }

  ghost predicate ListedOf(cfg: Config, client: Client, kind: Kind)
    requires cfg.Fits(client)
  {
    exists e :: e in client.comps[cfg.comp].list && e.kind == kind
  }

  lemma TakeIs(cfg: Config, s: State, otherwise: Pc)
    requires cfg.Fits(s.client) && cfg.task.Single?
    ensures var t := Take(cfg, s, otherwise);
      if Listed(cfg, s.client) then t.pc == Leave(Done(0)) && |t.removed| == |s.removed| + 1
      else t == s.(pc := Leave(otherwise))
  {
    var list, wanted := s.client.comps[cfg.comp].list, cfg.task.wanted;
    assert forall e :: MatchesAny(e, [wanted]) <==> wanted.Matches(e) by {
      assert forall e :: wanted.Matches(e) ==> [wanted][0].Matches(e);
    }
    var k := FirstMatch(list, [wanted]);
    if k < |list| { assert list[k] in list; }
    hide RemoveEvent, FirstMatch, MatchesAny;
  }

  /** wait_for_event by itself, the event lock free, before it blocks: 0 if the event is in the list; else
      -2 if its mask asks for errors and one is listed, the error flag then being cleared and the list
      left; else -3 if its mask asks for configuration changes and one is listed; else it blocks, nothing
      changed. */
  lemma SingleAnswers(cfg: Config, s: State) returns (n: nat)
    requires cfg.Fits(s.client) && s.lock.Nobody? && s.pc == Want(Try) && cfg.task.Single?
    ensures var t, x := Alone(cfg, s, n), s.client.comps[cfg.comp];
      t.lock.Nobody?
      && if Listed(cfg, s.client) then t.pc == Done(0) && |t.removed| == |s.removed| + 1
         else if EventError in cfg.task.mask && ListedOf(cfg, s.client, Error) then
           t == s.(pc := Done(-2), client := s.client.(comps :=
                     s.client.comps[cfg.comp := x.(flags := x.flags - {EventError})]))
         else if ConfigChanged in cfg.task.mask && ListedOf(cfg, s.client, ParamOrConfigChanged) then
           t == s.(pc := Done(-3))
         else t == s.(pc := Block)
  {
    SectionAlone(cfg, s, Try);
    TakeIs(cfg, s.(lock := TheWaiter, pc := In(Try)), AfterTry(cfg.task.mask));
    n := 3;
    if !Listed(cfg, s.client) {
      var m := ErrorAnswers(cfg, s.(pc := AfterTry(cfg.task.mask)));
      AloneAdds(cfg, s, 3, m);
      n := 3 + m;
    }
    hide Alone, Take, Listed, ListedOf, WaiterStep;
  }

  lemma ErrorAnswers(cfg: Config, s: State) returns (n: nat)
    requires cfg.Fits(s.client) && s.lock.Nobody? && cfg.task.Single? && s.pc == AfterTry(cfg.task.mask)
    requires !Listed(cfg, s.client)
    ensures var t, x := Alone(cfg, s, n), s.client.comps[cfg.comp];
      if EventError in cfg.task.mask && ListedOf(cfg, s.client, Error) then
        t == s.(pc := Done(-2), client := s.client.(comps :=
                  s.client.comps[cfg.comp := x.(flags := x.flags - {EventError})]))
      else if ConfigChanged in cfg.task.mask && ListedOf(cfg, s.client, ParamOrConfigChanged) then
        t == s.(pc := Done(-3))
      else t == s.(pc := Block)
  {
    hide Listed, WaiterStep, CheckError, CheckConfig;
    if EventError in cfg.task.mask {
      SectionAlone(cfg, s, ErrorCheck);
      ChecksContract(s.client, cfg.comp);
      n := 3;
      if !ListedOf(cfg, s.client, Error) {
        var m := ConfigAnswers(cfg, s.(pc := AfterErrorCheck(cfg.task.mask)));
        AloneAdds(cfg, s, 3, m);
        n := 3 + m;
      }
    } else {
      n := ConfigAnswers(cfg, s);
    }
  }

  lemma ConfigAnswers(cfg: Config, s: State) returns (n: nat)
    requires cfg.Fits(s.client) && s.lock.Nobody? && cfg.task.Single? && s.pc == AfterErrorCheck(cfg.task.mask)
    requires !Listed(cfg, s.client)
    ensures var t := Alone(cfg, s, n);
      if ConfigChanged in cfg.task.mask && ListedOf(cfg, s.client, ParamOrConfigChanged) then t == s.(pc := Done(-3))
      else t == s.(pc := Block)
  {
    hide WaiterStep, CheckConfig;
    n := 0;
    if ConfigChanged in cfg.task.mask {
      SectionAlone(cfg, s, ConfigCheck);
      ChecksContract(s.client, cfg.comp);
      n := 3;
      if ListedOf(cfg, s.client, ParamOrConfigChanged) {
        LastAnswers(cfg, s.(pc := Want(Last)));
        AloneAdds(cfg, s, 3, 3);
        n := 6;
      }
    }
  }

  lemma LastAnswers(cfg: Config, s: State)
    requires cfg.Fits(s.client) && s.lock.Nobody? && cfg.task.Single? && s.pc == Want(Last)
    ensures var t := Alone(cfg, s, 3);
      if Listed(cfg, s.client) then t.lock.Nobody? && t.pc == Done(0) && |t.removed| == |s.removed| + 1
      else t == s.(pc := Done(-3))
  {
    SectionAlone(cfg, s, Last);
    TakeIs(cfg, s.(lock := TheWaiter, pc := In(Last)), Done(-3));
    hide Alone, Take, Listed;
  }

  /** Woken by a flag of its mask, it consumes the flags of the mask: for the error flag it answers -2 at
      once, for the configuration flag 0 or -3, and for any other flag it looks again. */
  lemma WokenAnswers(cfg: Config, s: State)
    requires cfg.Fits(s.client) && s.lock.Nobody? && s.pc.Block? && cfg.task.Single?
    requires s.client.comps[cfg.comp].flags * cfg.task.mask != {}
    ensures var x, got := s.client.comps[cfg.comp], s.client.comps[cfg.comp].flags * cfg.task.mask;
      var woken := s.(client := s.client.(comps :=
                        s.client.comps[cfg.comp := x.(flags := x.flags - cfg.task.mask)]));
      if EventError in got then Alone(cfg, s, 1) == woken.(pc := Done(-2))
      else if ConfigChanged in got then
        var t := Alone(cfg, s, 4);
        if Listed(cfg, s.client) then t.lock.Nobody? && t.pc == Done(0) && |t.removed| == |s.removed| + 1
        else t == woken.(pc := Done(-3))
      else Alone(cfg, s, 1) == woken.(pc := Want(Try))
  {
    var t := WaiterStep(cfg, s).value;
    assert Alone(cfg, s, 1) == Alone(cfg, t, 0) == t;
    if t.pc == Want(Last) {
      LastAnswers(cfg, t);
      AloneAdds(cfg, s, 1, 3);
      assert Listed(cfg, t.client) == Listed(cfg, s.client);
    }
    hide Listed, Alone;
  }

  /** How each answer of wait_for_event comes about, in any interleaving: -1 only by a timeout, which changes
      nothing; -2 only with an error in the list, or by consuming the error flag; -3 only where its last
      look does not find the event; 0 only with the event in the list. */
  lemma SingleCodes(cfg: Config, s: State, t: State)
    requires Inv(cfg, s) && Next(cfg, s, t) && cfg.task.Single? && Result(s.pc).None? && Result(t.pc).Some?
    ensures var r, x := Result(t.pc).value, s.client.comps[cfg.comp];
      r in {0, -1, -2, -3}
      && (r == -1 ==> s.pc.Block? && t == s.(pc := Done(-1)))
      && (r == -2 ==> (s.pc == In(ErrorCheck) && ListedOf(cfg, s.client, Error))
                      || (s.pc.Block? && EventError in x.flags * cfg.task.mask))
      && (r == -3 ==> (s.pc == In(Last) && !Listed(cfg, s.client)))
      && (r == 0 ==> s.pc in {In(Try), In(Last)} && Listed(cfg, s.client))
  {
    if WaiterStep(cfg, s) == Some(t) {
      if s.pc.In? { SectionCodes(cfg, s, s.pc.section); }
      hide RunSection, Listed, ListedOf;
    } else {
      hide WaiterStep, Listed, ListedOf;
    }
  }

  lemma SectionCodes(cfg: Config, s: State, section: Section)
    requires cfg.Fits(s.client) && cfg.task.Single? && s.pc == In(section) && !section.Scan?
    ensures var t := RunSection(cfg, s, section);
      Result(t.pc).Some? ==>
        (section.Try? ==> Result(t.pc) == Some(0) && Listed(cfg, s.client))
        && (section.ErrorCheck? ==> Result(t.pc) == Some(-2) && ListedOf(cfg, s.client, Error))
        && !section.ConfigCheck?
        && (section.Last? ==> Result(t.pc) == Some(if Listed(cfg, s.client) then 0 else -3))
  {
    TakeIs(cfg, s, Done(-3));
    TakeIs(cfg, s, AfterTry(cfg.task.mask));
    ChecksContract(s.client, cfg.comp);
    hide Take, Listed, CheckError, CheckConfig;
  }

  /** The dual wait by itself from its start, the event lock free.  Other commands than the three it can wait
      for are refused at once.  Otherwise it answers what its scan finds, the relation to the other
      component dissolved again; and if that is nothing it blocks, related, all else unchanged. */
  lemma DualAnswers(cfg: Config, s: State) returns (n: nat)
    requires cfg.Fits(s.client) && s.lock.Nobody? && s.pc.Start? && cfg.task.Dual?
    ensures var t, other := Alone(cfg, s, n), cfg.task.other;
      if cfg.task.command !in {StateSet, PortDisable, PortEnable} then t == s.(pc := Done(-1))
      else
        cfg.Fits(t.client) && t.lock.Nobody?
        && var related := Relate(s, other, Some(cfg.comp)).client;
           var r := DualScan(related, cfg.comp, cfg.task.command, cfg.task.data2, other);
           t.removed == s.removed + r.removed
           && if r.ret.None? then t.pc.Block? && t.client == related
              else t.pc == Done(r.ret.value)
                   && (other.Some? ==> t.client.comps[other.value].related == None)
  {
    n := 1;
    hide DualScan;
    var s1 := WaiterStep(cfg, s).value;
    if Awaitable(cfg.task.command) {
      var s2 := WaiterStep(cfg, s1).value;
      var s3 := WaiterStep(cfg, s2).value;
      var s4 := WaiterStep(cfg, s3).value;
      if s4.pc.Block? {
        n := 4;
        assert Alone(cfg, s, 4) == Alone(cfg, s1, 3) == Alone(cfg, s2, 2) == Alone(cfg, s3, 1) == Alone(cfg, s4, 0);
      } else {
        n := 5;
        assert Alone(cfg, s, 5) == Alone(cfg, s1, 4) == Alone(cfg, s2, 3) == Alone(cfg, s3, 2) == Alone(cfg, s4, 1);
      }
    } else {
      assert Alone(cfg, s, 1) == Alone(cfg, s1, 0);
    }
  }

  /** Woken by the error flag or the command's own, it consumes these two and scans again. */
  lemma DualWoken(cfg: Config, s: State)
    requires cfg.Fits(s.client) && s.pc.Block? && cfg.task.Dual?
    requires cfg.task.command in {StateSet, PortDisable, PortEnable}
    ensures var x := s.client.comps[cfg.comp];
      var own := match cfg.task.command
        case StateSet => StateChanged
        case PortDisable => PortDisabled
        case _ => PortEnabled;
      WaiterStep(cfg, s) ==
        if EventError !in x.flags && own !in x.flags then None
        else Some(s.(pc := Want(Scan), client := s.client.(comps :=
                    s.client.comps[cfg.comp := x.(flags := x.flags - {EventError, own})])))
  {
    assert cfg.Mask() == {EventError} + CommandFlag(cfg.task.command);
    var x := s.client.comps[cfg.comp];
    var own := match cfg.task.command
      case StateSet => StateChanged
      case PortDisable => PortDisabled
      case _ => PortEnabled;
    assert cfg.Mask() == {EventError, own};
    hide CommandFlag;
    assert x.flags * cfg.Mask() == {} <==> EventError !in x.flags && own !in x.flags by {
      assert EventError in cfg.Mask() && own in cfg.Mask();
      assert EventError in x.flags ==> EventError in x.flags * cfg.Mask();
      assert own in x.flags ==> own in x.flags * cfg.Mask();
    }
  }

  // ---------------------------------------------------------------- what the waits return

  function Result(pc: Pc): Option<int> {
    match pc
    case Leave(next) => Result(next)
    case Clear(ret) => Some(ret)
    case Done(ret) => Some(ret)
    case _ => None
  }

  /** The return value accounts for what the waiter took off the list during the whole run. */
  predicate Accounted(cfg: Config, s: State) {
    match Result(s.pc)
    case None => s.removed == []
    case Some(r) =>
      if cfg.task.Single? then
        if r != 0 then r in {-1, -2, -3} && s.removed == [] else
          var wanted := cfg.task.wanted;
          |s.removed| == 1
          && var e := s.removed[0];
             e.kind == wanted.kind && (wanted.ignore1 || e.data1 == wanted.data1)
             && (wanted.ignore2 || e.data2 == wanted.data2)
      else if r == 0 then
        s.removed == [Event(CmdComplete, Cmd(cfg.task.command), cfg.task.data2)]
        || s.removed == [Event(Error, Err(SameState), 1)]
      else if r == -1 && Awaitable(cfg.task.command) then
        |s.removed| == 1
        && var e := s.removed[0]; e.kind.Error? && e.data2 == 1 && e.data1 != Err(SameState)
      else
        s.removed == [] && r == if Awaitable(cfg.task.command) then -2 else -1
  }

  predicate Unrelated(cfg: Config, s: State) {
    cfg.Other().Some? && s.client.Has(cfg.Other().value) && Awaitable(cfg.task.command) && s.pc.Done? ==>
      s.client.comps[cfg.Other().value].related == None
  }

  lemma SectionKeepsAccounts(cfg: Config, s: State, section: Section)
    requires Inv(cfg, s) && s.pc == In(section) && Accounted(cfg, s)
    ensures Accounted(cfg, RunSection(cfg, s, section))
  {
    if section.Scan? {
      ScanKeepsAccounts(cfg, s);
      hide RunSection;
    }
    hide Present, Underway, Raised, DualScan;
  }

  lemma ScanKeepsAccounts(cfg: Config, s: State)
    requires cfg.Fits(s.client) && cfg.task.Dual? && Awaitable(cfg.task.command) && s.pc == In(Scan)
    requires Accounted(cfg, s)
    ensures Accounted(cfg, RunSection(cfg, s, Scan))
  {
    DualScanContract(s.client, cfg.comp, cfg.task.command, cfg.task.data2, cfg.task.other);
    var r := DualScan(s.client, cfg.comp, cfg.task.command, cfg.task.data2, cfg.task.other);
    var t := RunSection(cfg, s, Scan);
    hide DualScan;
    assert t.removed == r.removed && t.pc == Leave(if r.ret.Some? then Clear(r.ret.value) else Block);
    assert Result(t.pc) == r.ret;
    hide RunSection;
    if r.removed != [] {
      var e := r.removed[0];
      assert e == Event(CmdComplete, Cmd(cfg.task.command), cfg.task.data2) || (e.kind.Error? && e.data2 == 1);
      assert r.removed == [e] && r.ret == Some(if e.kind.CmdComplete? || e.data1 == Err(SameState) then 0 else -1);
    } else {
      assert r.ret in {None, Some(-2)};
    }
  }

  lemma WaiterKeepsAccounts(cfg: Config, s: State)
    requires Inv(cfg, s) && WaiterStep(cfg, s).Some? && Accounted(cfg, s) && Unrelated(cfg, s)
    ensures Accounted(cfg, WaiterStep(cfg, s).value) && Unrelated(cfg, WaiterStep(cfg, s).value)
  {
    if s.pc.In? { SectionKeepsAccounts(cfg, s, s.pc.section); }
    hide RunSection;
  }

  /** Callbacks leave the waiter and the relations alone. */
  lemma CallbackIsApart(s: State, t: State)
    requires CallbackStep(s) == Some(t)
    ensures t.pc == s.pc && t.removed == s.removed
    ensures forall c: nat :: s.client.Has(c) <==> t.client.Has(c)
    ensures forall c: nat :: s.client.Has(c) ==> t.client.comps[c].related == s.client.comps[c].related
  {
  }

  lemma ApartKeepsAccounts(cfg: Config, s: State, t: State)
    requires Accounted(cfg, s) && Unrelated(cfg, s) && t.pc == s.pc && t.removed == s.removed
    requires cfg.Other().Some? && t.client.Has(cfg.Other().value) ==>
      s.client.Has(cfg.Other().value)
      && t.client.comps[cfg.Other().value].related == s.client.comps[cfg.Other().value].related
    ensures Accounted(cfg, t) && Unrelated(cfg, t)
  {
    hide Config.Wants, Result, TerminatesCommand;
  }

  lemma TimeoutKeepsAccounts(cfg: Config, s: State, t: State)
    requires TimesOut(cfg, s, t) && Accounted(cfg, s) && Unrelated(cfg, s)
    ensures Accounted(cfg, t) && Unrelated(cfg, t)
  {
    hide Config.Wants, TerminatesCommand;
  }

  lemma NextKeepsAccounts(cfg: Config, s: State, t: State)
    requires Inv(cfg, s) && Next(cfg, s, t) && Accounted(cfg, s) && Unrelated(cfg, s)
    ensures Accounted(cfg, t) && Unrelated(cfg, t)
  {
    hide Inv, Accounted, Unrelated, WaiterStep, CallbackStep;
    if WaiterStep(cfg, s) == Some(t) {
      WaiterKeepsAccounts(cfg, s);
    } else if TimesOut(cfg, s, t) {
      TimeoutKeepsAccounts(cfg, s, t);
    } else {
      if CallbackStep(s) == Some(t) { CallbackIsApart(s, t); }
      ApartKeepsAccounts(cfg, s, t);
    }
  }

  /** Over every run: 0 means exactly one wanted event was taken, a failure of this component's
      own command means one terminating error was, every other answer means none; and when a
      dual wait has returned, `related` is reset. */
  lemma {:induction false} ReturnsAccountForRemovals(cfg: Config, run: seq<State>, i: nat)
    requires IsRun(cfg, run) && i < |run|
    ensures Accounted(cfg, run[i]) && Unrelated(cfg, run[i])
  {
    if i > 0 {
      hide Next, Inv, Accounted, Unrelated;
      ReturnsAccountForRemovals(cfg, run, i - 1);
      EveryStateKeepsInv(cfg, run, i - 1);
      NextKeepsAccounts(cfg, run[i - 1], run[i]);
    }
  }

  /** Whatever leaves the waiter's account was at that moment the newest event it wanted. */
  ghost predicate TookNewest(cfg: Config, s: State, t: State)
    requires cfg.Fits(s.client) && cfg.Fits(t.client)
  {
    var list := s.client.comps[cfg.comp].list;
    exists k :: 0 <= k < |list| && cfg.Wants(list[k]) && (forall j :: 0 <= j < k ==> !cfg.Wants(list[j]))
      && t.removed == s.removed + [list[k]] && t.client.comps[cfg.comp].list == RemoveAt(list, k)
      && t.client.spare == s.client.spare + 1
  }

  lemma SectionTakesNewest(cfg: Config, s: State, section: Section)
    requires cfg.Fits(s.client) && (section.Scan? <==> cfg.task.Dual?)
    requires RunSection(cfg, s, section).removed != s.removed
    ensures cfg.Fits(RunSection(cfg, s, section).client) && TookNewest(cfg, s, RunSection(cfg, s, section))
  {
    var list := s.client.comps[cfg.comp].list;
    if section.Scan? {
      DualScanContract(s.client, cfg.comp, cfg.task.command, cfg.task.data2, cfg.task.other);
      assert s.removed + [] == s.removed;
      hide DualScan;
    } else {
      assert forall e :: MatchesAny(e, [cfg.task.wanted]) <==> cfg.Wants(e) by {
        assert forall e :: cfg.task.wanted.Matches(e) ==> [cfg.task.wanted][0].Matches(e);
      }
      var k := FirstMatch(list, [cfg.task.wanted]);
      assert k < |list| && cfg.Wants(list[k]) && forall j :: 0 <= j < k ==> !cfg.Wants(list[j]);
    }
  }

  /** Over every run, every event the waiter takes is the newest it wants at that moment, its node
      goes back to the spare list, and nothing else of the list changes. */
  lemma RemovalsAreNewest(cfg: Config, run: seq<State>, i: nat)
    requires IsRun(cfg, run) && 0 < i < |run| && run[i].removed != run[i - 1].removed
    ensures cfg.Fits(run[i - 1].client) && cfg.Fits(run[i].client) && TookNewest(cfg, run[i - 1], run[i])
  {
    EveryStateKeepsInv(cfg, run, i - 1);
    EveryStateKeepsInv(cfg, run, i);
    var s := run[i - 1];
    assert Next(cfg, s, run[i]);
    hide RunSection, Inv, TookNewest;
    RemovedBySection(cfg, s, run[i]);
    SectionTakesNewest(cfg, s, s.pc.section);
  }

  lemma RemovedBySection(cfg: Config, s: State, t: State)
    requires Next(cfg, s, t) && t.removed != s.removed
    ensures s.pc.In? && (s.pc.section.Scan? <==> cfg.task.Dual?) && t == RunSection(cfg, s, s.pc.section)
  {
    hide RunSection;
  }

  // ---------------------------------------------------------------- the exact limit

  function TerminatingError(code: ErrorCode): Event {
    Event(Error, Err(code), 1)
  }

  /** The waiter's component has this error mask throughout. */
  ghost predicate MaskStays(cfg: Config, run: seq<State>, errorMask: set<ErrorCode>) {
    forall k :: 0 <= k < |run| ==> run[k].client.Has(cfg.comp) && run[k].client.comps[cfg.comp].errorMask == errorMask
  }

  /** The report of this error begins at step `i` and has ended by step `m`. */
  ghost predicate Reported(cfg: Config, run: seq<State>, code: ErrorCode, i: nat, m: nat) {
    i < m < |run| && run[i].cb == Entered(cfg.comp, TerminatingError(code)) && run[m].cb.Quiet?
  }

  /** Once this terminating error has been reported on the waiter's component, a dual wait is never
      blocked without a flag raised. */
  ghost predicate WakeGuaranteed(code: ErrorCode, errorMask: set<ErrorCode>) {
    forall cfg: Config, run: seq<State>, i: nat, m: nat, j: nat ::
      IsRun(cfg, run) && cfg.task.Dual? && MaskStays(cfg, run, errorMask) && Reported(cfg, run, code, i, m)
      && m <= j < |run| && run[j].pc.Block?
      ==> Raised(cfg, run[j])
  }

  /** The event on its way into the list, in it, or the waiter about to return. */
  predicate Noted(cfg: Config, s: State, e: Event)
    requires s.client.Has(cfg.comp)
  {
    OnItsWay(s.cb, cfg.comp, e) || e in s.client.comps[cfg.comp].list || Result(s.pc).Some?
  }

  predicate OnItsWay(cb: Callback, c: nat, e: Event) {
    (cb.Entered? || cb.Deduped? || cb.Notified? || (cb.Signalled? && cb.keep)) && cb.c == c && cb.e == e
  }

  /** It is in the list, or the waiter is about to return. */
  predicate Arrived(cfg: Config, s: State, e: Event)
    requires s.client.Has(cfg.comp)
  {
    e in s.client.comps[cfg.comp].list || Result(s.pc).Some?
  }

  lemma ScanKeepsArrived(cfg: Config, s: State, e: Event)
    requires cfg.Fits(s.client) && cfg.task.Dual? && s.pc == In(Scan) && Arrived(cfg, s, e)
    ensures WaiterStep(cfg, s).Some? && Arrived(cfg, WaiterStep(cfg, s).value, e)
  {
    DualScanContract(s.client, cfg.comp, cfg.task.command, cfg.task.data2, cfg.task.other);
    var r := DualScan(s.client, cfg.comp, cfg.task.command, cfg.task.data2, cfg.task.other);
    hide DualScan;
    var t := WaiterStep(cfg, s).value;
    if r.ret.Some? {
      assert t.pc == Leave(Clear(r.ret.value)) && Result(t.pc) == Result(Clear(r.ret.value));
    } else {
      assert t.client == s.client;
    }
  }

  lemma WaiterKeepsArrived(cfg: Config, s: State, e: Event)
    requires Inv(cfg, s) && cfg.task.Dual? && WaiterStep(cfg, s).Some? && Arrived(cfg, s, e)
    ensures Arrived(cfg, WaiterStep(cfg, s).value, e)
  {
    if s.pc.In? {
      ScanKeepsArrived(cfg, s, e);
      hide WaiterStep;
    }
  }

  lemma NextKeepsArrived(cfg: Config, s: State, t: State, e: Event)
    requires Inv(cfg, s) && cfg.task.Dual? && Next(cfg, s, t) && Arrived(cfg, s, e)
    ensures t.client.Has(cfg.comp) && Arrived(cfg, t, e)
  {
    if WaiterStep(cfg, s) == Some(t) {
      WaiterKeepsArrived(cfg, s, e);
    }
    hide WaiterStep;
  }

  lemma NextKeepsOnItsWay(cfg: Config, s: State, t: State, e: Event)
    requires Inv(cfg, s) && cfg.task.Dual? && Next(cfg, s, t) && OnItsWay(s.cb, cfg.comp, e)
    requires Stored(e) == e && !Ignored(e, s.client.comps[cfg.comp].errorMask)
    ensures t.client.Has(cfg.comp) && Noted(cfg, t, e)
  {
    if WaiterStep(cfg, s) == Some(t) {
      WaiterLeavesCallback(cfg, s);
    } else if CallbackStep(s) == Some(t) && s.cb.Signalled? {
      assert t.client.comps[cfg.comp].list[0] == e;
    }
    hide WaiterStep;
  }

  lemma WaiterLeavesCallback(cfg: Config, s: State)
    requires cfg.Fits(s.client) && WaiterStep(cfg, s).Some?
    ensures WaiterStep(cfg, s).value.cb == s.cb
  {
  }

  lemma StepAt(cfg: Config, run: seq<State>, j: nat)
    requires IsRun(cfg, run) && 0 < j < |run|
    ensures Inv(cfg, run[j - 1]) && Next(cfg, run[j - 1], run[j])
  {
    EveryStateKeepsInv(cfg, run, j - 1);
    hide Inv, Next;
  }

  /** The event is stored as it is, and no mask of the waiter's component ever drops it. */
  ghost predicate Kept(cfg: Config, run: seq<State>, e: Event) {
    Stored(e) == e
    && forall k :: 0 <= k < |run| && run[k].client.Has(cfg.comp) ==>
         !Ignored(e, run[k].client.comps[cfg.comp].errorMask)
  }

  lemma {:induction false} StaysNoted(cfg: Config, run: seq<State>, e: Event, i: nat, j: nat)
    requires IsRun(cfg, run) && cfg.task.Dual? && Kept(cfg, run, e) && i <= j < |run|
    requires run[i].cb == Entered(cfg.comp, e)
    ensures run[j].client.Has(cfg.comp) && Noted(cfg, run[j], e)
  {
    hide IsRun, Inv, Next, Noted, Ignored, Kept;
    if i == j {
      EveryStateFits(cfg, run, i);
      Entering(cfg, run[i], e);
    } else {
      StaysNoted(cfg, run, e, i, j - 1);
      StepAt(cfg, run, j);
      KeptAt(cfg, run, e, j - 1);
      NoteStep(cfg, run[j - 1], run[j], e);
    }
  }

  lemma EveryStateFits(cfg: Config, run: seq<State>, i: nat)
    requires IsRun(cfg, run) && i < |run|
    ensures cfg.Fits(run[i].client)
  {
    EveryStateKeepsInv(cfg, run, i);
  }

  lemma KeptAt(cfg: Config, run: seq<State>, e: Event, k: nat)
    requires Kept(cfg, run, e) && k < |run| && run[k].client.Has(cfg.comp)
    ensures Stored(e) == e && !Ignored(e, run[k].client.comps[cfg.comp].errorMask)
  {
  }

  lemma Entering(cfg: Config, s: State, e: Event)
    requires s.client.Has(cfg.comp) && s.cb == Entered(cfg.comp, e)
    ensures Noted(cfg, s, e)
  {
  }

  lemma NoteStep(cfg: Config, s: State, t: State, e: Event)
    requires Inv(cfg, s) && cfg.task.Dual? && Next(cfg, s, t) && Noted(cfg, s, e)
    requires Stored(e) == e && !Ignored(e, s.client.comps[cfg.comp].errorMask)
    ensures t.client.Has(cfg.comp) && Noted(cfg, t, e)
  {
    assert cfg.Fits(s.client);
    hide Inv, Next, OnItsWay;
    if Arrived(cfg, s, e) {
      NextKeepsArrived(cfg, s, t, e);
    } else {
      NextKeepsOnItsWay(cfg, s, t, e);
    }
  }

  lemma {:induction false} StaysArrived(cfg: Config, run: seq<State>, e: Event, m: nat, j: nat)
    requires IsRun(cfg, run) && cfg.task.Dual? && m <= j < |run| && run[m].client.Has(cfg.comp)
    requires Arrived(cfg, run[m], e)
    ensures run[j].client.Has(cfg.comp) && Arrived(cfg, run[j], e)
  {
    hide IsRun, Inv, Next, Arrived;
    if m < j {
      StaysArrived(cfg, run, e, m, j - 1);
      StepAt(cfg, run, j);
      NextKeepsArrived(cfg, run[j - 1], run[j], e);
    }
  }

  /** A client with one component, one spare node and this error mask. */
  function Bare(errorMask: set<ErrorCode>): Client {
    Client(1, [Comp([], {}, errorMask, None)])
  }

  lemma WaiterBlocks(cfg: Config, s: State, errorMask: set<ErrorCode>)
    requires cfg == Config(0, Dual(StateSet, 0, None)) && s == State(Bare(errorMask), Nobody, Quiet, Start, [])
    ensures WaiterStep(cfg, s) == Some(s.(pc := Want(Scan)))
    ensures WaiterStep(cfg, s.(pc := Want(Scan))) == Some(s.(pc := In(Scan), lock := TheWaiter))
    ensures WaiterStep(cfg, s.(pc := In(Scan), lock := TheWaiter)) == Some(s.(pc := Leave(Block), lock := TheWaiter))
    ensures WaiterStep(cfg, s.(pc := Leave(Block), lock := TheWaiter)) == Some(s.(pc := Block))
  {
    assert DualScan(Bare(errorMask), 0, StateSet, 0, None) == Scanned(Bare(errorMask), None, []);
    assert s.removed + [] == s.removed;
    hide DualScan;
  }

  /** What the handler leaves of a bare client: the event if it is not masked, and no flag. */
  function After(errorMask: set<ErrorCode>, e: Event): Client {
    if Ignored(e, errorMask) then Bare(errorMask) else Insert(Bare(errorMask), 0, e)
  }

  lemma CallbackPasses(s: State, e: Event, errorMask: set<ErrorCode>)
    requires s.client == Bare(errorMask) && s.lock.TheCallback? && (OwnFlag(e) == None || Ignored(e, errorMask))
    ensures var keep := !Ignored(e, errorMask);
      CallbackStep(s.(cb := Entered(0, e))) == Some(s.(cb := Deduped(0, e)))
      && CallbackStep(s.(cb := Deduped(0, e))) == Some(s.(cb := Notified(0, e)))
      && CallbackStep(s.(cb := Notified(0, e))) == Some(s.(cb := Signalled(0, e, keep)))
      && CallbackStep(s.(cb := Signalled(0, e, keep))) == Some(s.(client := After(errorMask, e), cb := Inserted(0, e)))
      && CallbackStep(s.(client := After(errorMask, e), cb := Inserted(0, e)))
         == Some(s.(client := After(errorMask, e), cb := Quiet, lock := Nobody))
  {
    assert Dedup([]) == [] && DedupAt(Bare(errorMask), 0) == Bare(errorMask);
  }

  lemma AfterIs(errorMask: set<ErrorCode>, e: Event)
    ensures |After(errorMask, e).comps| == 1 && After(errorMask, e).comps[0].flags == {}
    ensures After(errorMask, e).comps[0].errorMask == errorMask
  {
  }

  /** The waiter blocks, the callback comes and goes, and no flag is raised. */
  function MissingRun(errorMask: set<ErrorCode>, e: Event): seq<State> {
    var s := State(Bare(errorMask), Nobody, Quiet, Start, []);
    var b := s.(pc := Block, lock := TheCallback);
    var left, keep := After(errorMask, e), !Ignored(e, errorMask);
    [s, s.(pc := Want(Scan)), s.(pc := In(Scan), lock := TheWaiter), s.(pc := Leave(Block), lock := TheWaiter),
     s.(pc := Block), b.(cb := Entered(0, e)), b.(cb := Deduped(0, e)), b.(cb := Notified(0, e)),
     b.(cb := Signalled(0, e, keep)), b.(client := left, cb := Inserted(0, e)),
     b.(client := left, cb := Quiet, lock := Nobody)]
  }

  lemma MissingRunIsRun(errorMask: set<ErrorCode>, e: Event)
    requires Expected(e) && (OwnFlag(e) == None || Ignored(e, errorMask))
    ensures IsRun(Config(0, Dual(StateSet, 0, None)), MissingRun(errorMask, e))
  {
    var cfg, run := Config(0, Dual(StateSet, 0, None)), MissingRun(errorMask, e);
    var s := State(Bare(errorMask), Nobody, Quiet, Start, []);
    WaiterBlocks(cfg, s, errorMask);
    CallbackPasses(s.(pc := Block, lock := TheCallback), e, errorMask);
    AfterIs(errorMask, e);
    hide WaiterStep, CallbackStep, Environment, After, Ignored, Expected, OwnFlag;
    assert Arrives(run[4], run[5]) by { assert Bare(errorMask).Has(0); }
  }

  /** A run in which a terminating error that raises no flag, or that the component's mask drops,
      leaves the waiter blocked for good. */
  lemma UnflaggedErrorIsMissed(code: ErrorCode, errorMask: set<ErrorCode>)
    requires OwnFlag(TerminatingError(code)) == None || Ignored(TerminatingError(code), errorMask)
    ensures !WakeGuaranteed(code, errorMask)
  {
    var cfg, e := Config(0, Dual(StateSet, 0, None)), TerminatingError(code);
    var run := MissingRun(errorMask, e);
    MissingRunIsRun(errorMask, e);
    AfterIs(errorMask, e);
    hide IsRun, After, Ignored;
    assert MaskStays(cfg, run, errorMask);
    assert Reported(cfg, run, code, 5, 10) && !Raised(cfg, run[10]);
  }

  /** A terminating error that is reported always wakes the waiter if and only if the handler raises
      a flag for it: it is neither DiskFull nor MaxFileSize, and the component's mask does not drop it. */
  lemma WakeGuaranteedExactly(code: ErrorCode, errorMask: set<ErrorCode>)
    ensures WakeGuaranteed(code, errorMask) <==>
      OwnFlag(TerminatingError(code)).Some? && !Ignored(TerminatingError(code), errorMask)
    ensures OwnFlag(TerminatingError(code)).Some? <==> code !in {DiskFull, MaxFileSize}
    ensures Ignored(TerminatingError(code), errorMask) <==>
      code in {PortUnpopulated, SameState, BadParameter} * errorMask
  {
    if OwnFlag(TerminatingError(code)) == None || Ignored(TerminatingError(code), errorMask) {
      UnflaggedErrorIsMissed(code, errorMask);
    } else {
      forall cfg: Config, run: seq<State>, i: nat, m: nat, j: nat | IsRun(cfg, run) && cfg.task.Dual?
        && MaskStays(cfg, run, errorMask) && Reported(cfg, run, code, i, m) && m <= j < |run| && run[j].pc.Block?
        ensures Raised(cfg, run[j])
      {
        assert Kept(cfg, run, TerminatingError(code));
        StaysNoted(cfg, run, TerminatingError(code), i, m);
        StaysArrived(cfg, run, TerminatingError(code), m, j);
        NoLostWakeUp(cfg, run, j);
        assert Completion(cfg.task.command, cfg.task.data2)[1].Matches(TerminatingError(code));
        assert cfg.Alerts(TerminatingError(code));
      }
    }
  }

  // ---------------------------------------------------------------- completions

  /** Once the completion of the command a dual wait is for has been reported on its component, with the
      port or state waited for, the wait is never left blocked: in every interleaving the error flag or
      the command's own flag is raised, and the waiter can move. */
  lemma CompletionAlwaysWakes(cfg: Config, run: seq<State>, i: nat, m: nat, j: nat)
    requires IsRun(cfg, run) && cfg.task.Dual? && i < m <= j < |run| && run[j].pc.Block? && run[m].cb.Quiet?
    requires run[i].cb == Entered(cfg.comp, Event(CmdComplete, Cmd(cfg.task.command), cfg.task.data2))
    ensures run[j].client.Has(cfg.comp) && cfg.task.command in {StateSet, PortDisable, PortEnable}
    ensures var own := match cfg.task.command
              case StateSet => StateChanged
              case PortDisable => PortDisabled
              case _ => PortEnabled;
      EventError in run[j].client.comps[cfg.comp].flags || own in run[j].client.comps[cfg.comp].flags
    ensures cfg.Fits(run[j].client) && WaiterStep(cfg, run[j]).Some?
  {
    var e := Event(CmdComplete, Cmd(cfg.task.command), cfg.task.data2);
    assert Kept(cfg, run, e);
    StaysNoted(cfg, run, e, i, m);
    StaysArrived(cfg, run, e, m, j);
    EveryStateKeepsInv(cfg, run, j);
    NoLostWakeUp(cfg, run, j);
    hide IsRun;
    WantedAlerts(cfg, e);
    assert Present(cfg, run[j]);
    hide Present;
  }

  lemma WantedAlerts(cfg: Config, e: Event)
    requires cfg.task.Dual? && Awaitable(cfg.task.command)
    requires e == Event(CmdComplete, Cmd(cfg.task.command), cfg.task.data2)
    ensures cfg.Alerts(e)
  {
    EndsTheWait(cfg.task.command, cfg.task.data2);
  }
}
