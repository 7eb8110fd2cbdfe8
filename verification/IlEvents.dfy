/** The values the IL client runtime works on: event records, event flags, the state kept
    for each component, and the effect of each locked section on that state.  The heap
    version, with the linked lists, is in module IlClient and is proved equal to this one. */
module IlEvents {
  import opened Common

  const NUM_EVENTS: nat := 100

  datatype Command = StateSet | PortDisable | PortEnable | Flush | MarkBuffer

  datatype ErrorCode =
    | PortUnpopulated | SameState | BadParameter | IncorrectStateTransition | BadPortIndex
    | StreamCorrupt | InsufficientResources | UnsupportedSetting | Overflow
    | DiskFull | MaxFileSize | DrmUnauthorised | DrmExpired | DrmGeneral

  datatype Kind =
    | CmdComplete | Error | BufferFlag | PortSettingsChanged | Mark | ParamOrConfigChanged
    | Unused  // eEvent == -1

  /** nData1, read according to the event it belongs to. */
  datatype Data = Num(n: nat) | Cmd(command: Command) | Err(code: ErrorCode)

  /** What is stored for an event; also the key by which duplicates are recognised. */
  datatype Event = Event(kind: Kind, data1: Data, data2: nat)

  datatype Flag =
    | EmptyBufferDone | FillBufferDone | PortDisabled | PortEnabled | StateChanged
    | BufferFlagEos | ParameterChanged | EventError | PortFlush | MarkedBuffer
    | BufferMark | ConfigChanged

  /** OMX_BUFFERFLAG_EOS is bit 0. */
  const EOS: nat := 1

  /** The arguments the event handler accepts; on all others it runs into vc_assert(0). */
  predicate Expected(e: Event) {
    match e.kind
    case CmdComplete => e.data1.Cmd?
    case Error => e.data1.Err?
    case BufferFlag => e.data1.Num? && e.data2 % 2 == 1
    case Unused => false
    case _ => e.data1.Num?
  }

  /** The event as stored: an end-of-stream buffer flag loses its other bits. */
  function Stored(e: Event): Event {
    if e.kind.BufferFlag? then e.(data2 := EOS) else e
  }

  /** The flag the handler raises on the reporting component itself, if any. */
  function OwnFlag(e: Event): Option<Flag>
  {
    match e.kind
    case CmdComplete =>
      if !e.data1.Cmd? then None else
      (match e.data1.command
       case StateSet => Some(StateChanged)
       case PortDisable => Some(PortDisabled)
       case PortEnable => Some(PortEnabled)
       case Flush => Some(PortFlush)
       case MarkBuffer => Some(MarkedBuffer))
    case Error => if e.data1 == Err(DiskFull) || e.data1 == Err(MaxFileSize) then None else Some(EventError)
    case BufferFlag => Some(BufferFlagEos)
    case PortSettingsChanged => Some(ParameterChanged)
    case Mark => Some(BufferMark)
    case ParamOrConfigChanged => Some(ConfigChanged)
    case Unused => None
  }

  /** Errors the component's error mask tells the handler to drop: only three have a mask bit. */
  predicate Ignored(e: Event, errorMask: set<ErrorCode>) {
    e.kind.Error? && e.data1.Err? && e.data1.code in {PortUnpopulated, SameState, BadParameter} * errorMask
  }

  /** An error that terminates a command carries nData2 == 1. */
  predicate TerminatesCommand(e: Event) {
    e.kind.Error? && e.data2 == 1
  }

  // ---------------------------------------------------------------- matching

  /** One search request; `ignore1` and `ignore2` switch a comparison off. */
  datatype Pattern = Pattern(kind: Kind, data1: Data, ignore1: bool, data2: nat, ignore2: bool) {
    predicate Matches(e: Event) {
      e.kind == kind && (ignore1 || e.data1 == data1) && (ignore2 || e.data2 == data2)
    }
  }

  predicate MatchesAny(e: Event, wanted: seq<Pattern>) {
    exists i :: 0 <= i < |wanted| && wanted[i].Matches(e)
  }

  /** Position of the newest (first) event some pattern matches, or the length of the list. */
  function FirstMatch(list: seq<Event>, wanted: seq<Pattern>): (i: nat)
    ensures i <= |list|
    ensures i < |list| ==> MatchesAny(list[i], wanted)
    ensures forall j :: 0 <= j < i ==> !MatchesAny(list[j], wanted)
  {
    if list == [] || MatchesAny(list[0], wanted) then 0 else 1 + FirstMatch(list[1..], wanted)
  }

  lemma {:induction false} FirstMatchIs(list: seq<Event>, wanted: seq<Pattern>, i: nat)
    requires i <= |list| && (i < |list| ==> MatchesAny(list[i], wanted))
    requires forall j :: 0 <= j < i ==> !MatchesAny(list[j], wanted)
    ensures FirstMatch(list, wanted) == i
  {
    var k := FirstMatch(list, wanted);
    assert !(k < i) && !(i < k);
  }

  // ---------------------------------------------------------------- duplicate removal

  /** `s` without the occurrences of `x`. */
  function Without(s: seq<Event>, x: Event): (r: seq<Event>)
    ensures |r| <= |s|
    ensures x !in r
    ensures forall y :: y in r <==> y in s && y != x
  {
    if s == [] then [] else if s[0] == x then Without(s[1..], x) else [s[0]] + Without(s[1..], x)
  }

  /** What the handler's nested loop leaves of a list: each event drops its later duplicates. */
  function Dedup(s: seq<Event>): (r: seq<Event>)
    ensures forall y :: y in r <==> y in s
    decreases |s|
  {
    if s == [] then [] else [s[0]] + Dedup(Without(s[1..], s[0]))
  }

  /** Reference definition: walking from the newest event, keep an event that is not kept yet. */
  function Newest(s: seq<Event>): (r: seq<Event>)
    ensures forall y :: y in r <==> y in s
    ensures Distinct(r)
  {
    if s == [] then [] else
      var r := Newest(s[..|s| - 1]);
      var x := s[|s| - 1];
      if x in s[..|s| - 1] then r else r + [x]
  }

  lemma {:induction false} WithoutConcat(s: seq<Event>, t: seq<Event>, x: Event)
    ensures Without(s + t, x) == Without(s, x) + Without(t, x)
  {
    if s == [] {
      assert s + t == t;
    } else {
      WithoutConcat(s[1..], t, x);
      assert (s + t)[0] == s[0] && (s + t)[1..] == s[1..] + t;
      Assoc([s[0]], Without(s[1..], x), Without(t, x));
    }
  }

  lemma {:induction false} DedupAppend(s: seq<Event>, x: Event)
    ensures Dedup(s + [x]) == if x in s then Dedup(s) else Dedup(s) + [x]
    decreases |s|
  {
    if s == [] {
      assert s + [x] == [x] && Without([], x) == [];
    } else {
      var h, t := s[0], s[1..];
      assert (s + [x])[1..] == t + [x];
      WithoutConcat(t, [x], h);
      if x == h {
        assert Without([x], h) == [];
        assert Without(t + [x], h) == Without(t, h);
      } else {
        assert Without([x], h) == [x] by { assert [x][1..] == []; }
        DedupAppend(Without(t, h), x);
        assert x in s <==> x in Without(t, h);
      }
    }
  }

  /** The nested loop keeps exactly the newest occurrence of every key, in order. */
  lemma {:induction false} DedupKeepsNewest(s: seq<Event>)
    ensures Dedup(s) == Newest(s)
    ensures Distinct(Dedup(s))
  {
    if s != [] {
      var p, x := s[..|s| - 1], s[|s| - 1];
      assert s == p + [x];
      DedupKeepsNewest(p);
      DedupAppend(p, x);
    }
  }

  /** The list once its first `i` events dropped their later duplicates and the rest will. */
  function Cleaned(s: seq<Event>, i: nat): seq<Event>
    requires i <= |s|
  {
    s[..i] + Dedup(s[i..])
  }

  lemma CleanedStep(s: seq<Event>, i: nat)
    requires i < |s|
    ensures Cleaned(s[..i + 1] + Without(s[i + 1..], s[i]), i + 1) == Cleaned(s, i)
  {
    var t := s[..i + 1] + Without(s[i + 1..], s[i]);
    assert t[i + 1..] == Without(s[i + 1..], s[i]) && t[..i + 1] == s[..i] + [s[i]];
    assert s[i..][1..] == s[i + 1..];
  }

  lemma WithoutStep(s: seq<Event>, j: nat, x: Event)
    requires j < |s|
    ensures s[j] == x ==> RemoveAt(s, j)[..j] == s[..j] && RemoveAt(s, j)[j..] == s[j + 1..]
                          && Without(s[j..], x) == Without(s[j + 1..], x)
    ensures s[j] != x ==> s[..j + 1] + Without(s[j + 1..], x) == s[..j] + Without(s[j..], x)
  {
    assert s[j..][1..] == s[j + 1..];
  }

  lemma WithoutEnd(s: seq<Event>, j: nat, x: Event)
    requires j == |s|
    ensures s[..j] + Without(s[j..], x) == s
  {
  }

  function Keys(s: seq<Event>): set<Event> {
    set e | e in s
  }

  lemma DedupLength(s: seq<Event>)
    ensures |Dedup(s)| == |Keys(s)|
  {
    DedupKeepsNewest(s);
    DistinctCard(Dedup(s));
    assert Keys(Dedup(s)) == Keys(s);
  }

  /** The shape every component list keeps: no duplicates once its head is set aside. */
  predicate TailDistinct(s: seq<Event>) {
    s != [] ==> Distinct(s[1..])
  }

  lemma {:induction false} DedupOfDistinct(s: seq<Event>)
    requires Distinct(s)
    ensures Dedup(s) == s
  {
    if s != [] {
      var p, x := s[..|s| - 1], s[|s| - 1];
      assert s == p + [x];
      DedupOfDistinct(p);
      DedupAppend(p, x);
    }
  }

  /** On such a list the duplicate removal frees at most one node, and says when. */
  lemma DedupFreesAtMostOne(s: seq<Event>)
    requires TailDistinct(s)
    ensures |s| - 1 <= |Dedup(s)| <= |s| <= |Keys(s)| + 1
    ensures |Dedup(s)| < |s| <==> s != [] && s[0] in s[1..]
  {
    DedupLength(s);
    if s != [] {
      DistinctCard(s[1..]);
      assert Keys(s) == Keys(s[1..]) + {s[0]};
    }
  }

  // ---------------------------------------------------------------- component and client state

  datatype Comp = Comp(list: seq<Event>, flags: set<Flag>, errorMask: set<ErrorCode>, related: Option<nat>)

  /** What the event lock protects: how many nodes are spare, and every component. */
  datatype Client = Client(spare: nat, comps: seq<Comp>) {
    predicate Has(c: nat) { c < |comps| }

    function With(c: nat, x: Comp): Client
      requires Has(c)
    {
      this.(comps := comps[c := x])
    }

    function SetFlag(c: nat, f: Flag): Client
      requires Has(c)
    {
      With(c, comps[c].(flags := comps[c].flags + {f}))
    }

    function Consume(c: nat, fs: set<Flag>): Client
      requires Has(c)
    {
      With(c, comps[c].(flags := comps[c].flags - fs))
    }

    /** The list of component `c` cut down to `list`, the other nodes now spare. */
    function Shrunk(c: nat, list: seq<Event>): Client
      requires Has(c) && |list| <= |comps[c].list|
    {
      With(c, comps[c].(list := list)).(spare := spare + |comps[c].list| - |list|)
    }

    /** Return node `i` of component `c` to the spare list. */
    function Free(c: nat, i: nat): Client
      requires Has(c) && i < |comps[c].list|
    {
      With(c, comps[c].(list := RemoveAt(comps[c].list, i))).(spare := spare + 1)
    }
  }

  // ---------------------------------------------------------------- the event handler, piece by piece

  function DedupAt(s: Client, c: nat): (r: Client)
    requires s.Has(c)
    ensures |r.comps| == |s.comps|
    ensures r.spare + |r.comps[c].list| == s.spare + |s.comps[c].list|
  {
    DedupLength(s.comps[c].list);
    KeysCard(s.comps[c].list);
    s.Shrunk(c, Dedup(s.comps[c].list))
  }

  lemma {:induction false} KeysCard(s: seq<Event>)
    ensures |Keys(s)| <= |s|
  {
    if s != [] {
      KeysCard(s[1..]);
      assert Keys(s) == Keys(s[1..]) + {s[0]};
    }
  }

  /** A command-terminating error also wakes the component waiting on behalf of this one. */
  function NotifyRelated(s: Client, c: nat, e: Event): (r: Client)
    requires s.Has(c)
    ensures |r.comps| == |s.comps| && r.spare == s.spare
    ensures forall d: nat :: s.Has(d) ==> r.comps[d].list == s.comps[d].list && r.comps[d].flags >= s.comps[d].flags
  {
    var rel := s.comps[c].related;
    if TerminatesCommand(e) && rel.Some? && s.Has(rel.value) then s.SetFlag(rel.value, EventError) else s
  }

  /** It raises the error flag of the related component, for a terminating error, and nothing else. */
  lemma NotifiesExactlyTheRelated(s: Client, c: nat, e: Event, d: nat)
    requires s.Has(c) && s.Has(d)
    ensures NotifyRelated(s, c, e).comps[d] ==
      if e.kind.Error? && e.data2 == 1 && s.comps[c].related == Some(d)
      then s.comps[d].(flags := s.comps[d].flags + {EventError}) else s.comps[d]
  {
  }

  function Signal(s: Client, c: nat, e: Event): (r: Client)
    requires s.Has(c)
  {
    if OwnFlag(e).Some? && !Ignored(e, s.comps[c].errorMask) then s.SetFlag(c, OwnFlag(e).value) else s
  }

  function Insert(s: Client, c: nat, e: Event): (r: Client)
    requires s.Has(c) && s.spare > 0
  {
    s.With(c, s.comps[c].(list := [Stored(e)] + s.comps[c].list)).(spare := s.spare - 1)
  }

  /** The whole locked part of the event handler; None when the spare-list assertion fails. */
  function Handle(s: Client, c: nat, e: Event): (r: Option<Client>)
    requires s.Has(c)
    ensures r.Some? <==> DedupAt(s, c).spare > 0
  {
    var s1 := DedupAt(s, c);
    if s1.spare == 0 then None else
      var s2 := NotifyRelated(s1, c, e);
      if Ignored(e, s2.comps[c].errorMask) then Some(s2) else Some(Insert(Signal(s2, c, e), c, e))
  }

  /** What an accepted callback leaves in the list it reports to: the event in front of what the duplicate
      removal keeps, or only that where the mask drops the error.  Every buffer flag is stored as the
      end-of-stream flag alone, nData2 == 1. */
  lemma CallbackStores(s: Client, c: nat, e: Event)
    requires s.Has(c) && Expected(e) && Handle(s, c, e).Some?
    ensures var r, x := Handle(s, c, e).value, s.comps[c];
      var dropped := e.kind.Error? && e.data1.code in {PortUnpopulated, SameState, BadParameter}
                     && e.data1.code in x.errorMask;
      r.comps[c].list ==
        (if dropped then [] else [Event(e.kind, e.data1, if e.kind.BufferFlag? then 1 else e.data2)]) + Newest(x.list)
      && r.spare + |r.comps[c].list| == s.spare + |x.list|
      && forall d: nat :: d != c && s.Has(d) ==> r.comps[d].list == s.comps[d].list
  {
    DedupKeepsNewest(s.comps[c].list);
    assert [] + Dedup(s.comps[c].list) == Dedup(s.comps[c].list);
  }

  /** Which flags an accepted callback leaves raised on any component: the one of its kind on the
      reporting component, unless the mask drops the error, and for a terminating error the error flag
      of the related one; mask and relation stay. */
  lemma CallbackRaises(s: Client, c: nat, e: Event, d: nat)
    requires s.Has(c) && s.Has(d) && Expected(e) && Handle(s, c, e).Some?
    ensures var x, y := s.comps[d], Handle(s, c, e).value.comps[d];
      y.errorMask == x.errorMask && y.related == x.related
      && (d != c ==>
            var told := e.kind.Error? && e.data2 == 1 && s.comps[c].related == Some(d);
            y.flags == x.flags + if told then {EventError} else {})
      && (d == c ==>
            match e.kind
            case CmdComplete =>
              (e.data1 == Cmd(StateSet) ==> y.flags == x.flags + {StateChanged})
              && (e.data1 == Cmd(PortDisable) ==> y.flags == x.flags + {PortDisabled})
              && (e.data1 == Cmd(PortEnable) ==> y.flags == x.flags + {PortEnabled})
              && (e.data1 == Cmd(Flush) ==> y.flags == x.flags + {PortFlush})
              && (e.data1 == Cmd(MarkBuffer) ==> y.flags == x.flags + {MarkedBuffer})
            case Error =>
              var dropped := e.data1.code in {PortUnpopulated, SameState, BadParameter} && e.data1.code in x.errorMask;
              var silent := e.data1.code in {DiskFull, MaxFileSize};
              y.flags == x.flags
                + if (!dropped && !silent) || (e.data2 == 1 && x.related == Some(c)) then {EventError} else {}
            case BufferFlag => y.flags == x.flags + {BufferFlagEos}
            case PortSettingsChanged => y.flags == x.flags + {ParameterChanged}
            case Mark => y.flags == x.flags + {BufferMark}
            case ParamOrConfigChanged => y.flags == x.flags + {ConfigChanged}
            case Unused => false)
  {
    hide Dedup, Stored;
    NotifiesExactlyTheRelated(DedupAt(s, c), c, e, d);
  }

  // ---------------------------------------------------------------- the consumers

  /** remove_event: 0 and the newest match freed, or -1 and nothing changed. */
  function RemoveEvent(s: Client, c: nat, wanted: Pattern): (r: (Client, int))
    requires s.Has(c)
    ensures r.1 == 0 <==> exists i :: 0 <= i < |s.comps[c].list| && wanted.Matches(s.comps[c].list[i])
    ensures r.1 != 0 ==> r.1 == -1 && r.0 == s
    ensures |r.0.comps| == |s.comps|
  {
    var i := FirstMatch(s.comps[c].list, [wanted]);
    if i == |s.comps[c].list| then
      assert forall j :: 0 <= j < i ==> !MatchesAny(s.comps[c].list[j], [wanted]);
      assert forall e :: wanted.Matches(e) ==> [wanted][0].Matches(e);
      (s, -1)
    else
      var s1 := s.Free(c, i);
      var s2 := if wanted.kind.Error? then s1.Consume(c, {EventError})
                else if wanted.kind.ParamOrConfigChanged? then s1.Consume(c, {ConfigChanged}) else s1;
      (s2, 0)
  }

  /** remove_event, exactly: the newest match goes back to the spare list, and for an error or a
      configuration change its flag is cleared; without a match nothing changes. */
  lemma RemoveEventContract(s: Client, c: nat, wanted: Pattern)
    requires s.Has(c)
    ensures var (r, ret) := RemoveEvent(s, c, wanted);
      var list := s.comps[c].list;
      var hit := (e: Event) => e.kind == wanted.kind && (wanted.ignore1 || e.data1 == wanted.data1)
                               && (wanted.ignore2 || e.data2 == wanted.data2);
      if exists e :: e in list && hit(e) then
        exists i ::
          0 <= i < |list| && hit(list[i]) && (forall j :: 0 <= j < i ==> !hit(list[j]))
          && ret == 0 && r.spare == s.spare + 1
          && r.comps == s.comps[c := s.comps[c].(
               list := list[..i] + list[i + 1..],
               flags := s.comps[c].flags - (if wanted.kind.Error? then {EventError}
                                            else if wanted.kind.ParamOrConfigChanged? then {ConfigChanged} else {}))]
      else ret == -1 && r == s
  {
    var hit := (e: Event) => e.kind == wanted.kind && (wanted.ignore1 || e.data1 == wanted.data1)
                             && (wanted.ignore2 || e.data2 == wanted.data2);
    assert forall e :: hit(e) <==> wanted.Matches(e);
    var list := s.comps[c].list;
    var i := FirstMatch(list, [wanted]);
    assert forall e :: MatchesAny(e, [wanted]) <==> wanted.Matches(e) by {
      assert forall e :: wanted.Matches(e) ==> [wanted][0].Matches(e);
    }
    if i < |list| {
      assert list[i] in list && wanted.Matches(list[i]) && forall j :: 0 <= j < i ==> !wanted.Matches(list[j]);
      assert s.comps[c].flags - {} == s.comps[c].flags;
    }
  }

  /** The flag that goes with the events of a kind, where a wait looks for them by itself. */
  function FlagOf(kind: Kind): set<Flag> {
    match kind
    case Error => {EventError}
    case ParamOrConfigChanged => {ConfigChanged}
    case _ => {}
  }

  /** The two patterns that end a wait for `command`. */
  function Completion(command: Command, data2: nat): seq<Pattern> {
    [Pattern(CmdComplete, Cmd(command), false, data2, false), Termination()]
  }

  function Termination(): Pattern {
    Pattern(Error, Num(0), true, 1, false)
  }

  /** One locked scan of the dual wait: `ret` is None when the caller has to block. */
  datatype Scanned = Scanned(client: Client, ret: Option<int>, removed: seq<Event>)

  function DualScan(s: Client, c: nat, command: Command, data2: nat, other: Option<nat>): (r: Scanned)
    requires s.Has(c) && (other.Some? ==> s.Has(other.value))
    ensures |r.client.comps| == |s.comps|
    ensures r.ret.None? || r.ret == Some(-2) ==> r.client == s && r.removed == []
  {
    var list := s.comps[c].list;
    var i := FirstMatch(list, Completion(command, data2));
    if i < |list| then
      var e := list[i];
      var s1 := s.Free(c, i);
      var s2 := if e.kind.Error? then s1.Consume(c, {EventError}) else s1;
      Scanned(s2, Some(if e.kind.CmdComplete? || e.data1 == Err(SameState) then 0 else -1), [e])
    else if other.Some? && FirstMatch(s.comps[other.value].list, [Termination()]) < |s.comps[other.value].list| then
      Scanned(s, Some(-2), [])
    else
      Scanned(s, None, [])
  }

  /** What one scan of the dual wait does, exactly: it takes the newest completion or terminating
      error off its own list, else reports a terminating error of the other component without
      touching it, else asks the caller to block. */
  lemma DualScanContract(s: Client, c: nat, command: Command, data2: nat, other: Option<nat>)
    requires s.Has(c) && (other.Some? ==> s.Has(other.value))
    ensures var r, list := DualScan(s, c, command, data2, other), s.comps[c].list;
      var failed := (e: Event) => e.kind.Error? && e.data2 == 1;
      var ends := (e: Event) => e == Event(CmdComplete, Cmd(command), data2) || failed(e);
      var there := other.Some? && exists e :: e in s.comps[other.value].list && failed(e);
      if exists e :: e in list && ends(e) then
        exists i :: 0 <= i < |list| && ends(list[i]) && (forall j :: 0 <= j < i ==> !ends(list[j]))
          && r.removed == [list[i]]
          && r.ret == Some(if list[i].kind.CmdComplete? || list[i].data1 == Err(SameState) then 0 else -1)
          && r.client.spare == s.spare + 1
          && r.client.comps == s.comps[c := s.comps[c].(
               list := list[..i] + list[i + 1..],
               flags := s.comps[c].flags - if list[i].kind.Error? then {EventError} else {})]
      else r.client == s && r.removed == [] && r.ret == if there then Some(-2) else None
  {
    var failed := (e: Event) => e.kind.Error? && e.data2 == 1;
    var ends := (e: Event) => e == Event(CmdComplete, Cmd(command), data2) || failed(e);
    EndsTheWait(command, data2);
    var list, wanted := s.comps[c].list, Completion(command, data2);
    var i := FirstMatch(list, wanted);
    hide Completion, Termination, MatchesAny;
    assert forall e :: MatchesAny(e, wanted) <==> ends(e);
    if i < |list| {
      assert list[i] in list;
      assert s.comps[c].flags - {} == s.comps[c].flags;
      assert ends(list[i]) && forall j :: 0 <= j < i ==> !ends(list[j]);
    } else if other.Some? {
      var others := s.comps[other.value].list;
      var k := FirstMatch(others, [Termination()]);
      assert forall e :: MatchesAny(e, [Termination()]) <==> failed(e);
      if k < |others| { assert others[k] in others; }
    }
  }

  /** The wait for a command ends with this command's completion for this port or state, or with any
      error that terminates a command. */
  lemma EndsTheWait(command: Command, data2: nat)
    ensures forall e: Event :: MatchesAny(e, Completion(command, data2)) <==>
      e == Event(CmdComplete, Cmd(command), data2) || (e.kind.Error? && e.data2 == 1)
    ensures forall e: Event :: MatchesAny(e, [Termination()]) <==> e.kind.Error? && e.data2 == 1
  {
    forall e: Event
      ensures MatchesAny(e, Completion(command, data2)) <==>
        e == Event(CmdComplete, Cmd(command), data2) || (e.kind.Error? && e.data2 == 1)
      ensures MatchesAny(e, [Termination()]) <==> e.kind.Error? && e.data2 == 1
    {
      var both := Completion(command, data2);
      assert MatchesAny(e, both) <==> both[0].Matches(e) || both[1].Matches(e);
      assert MatchesAny(e, [Termination()]) <==> [Termination()][0].Matches(e);
    }
  }

  /** The error check of wait_for_event: an error in the list clears the error flag. */
  function CheckError(s: Client, c: nat): (r: (Client, bool))
    requires s.Has(c)
    ensures |r.0.comps| == |s.comps|
    ensures !r.1 ==> r.0 == s
  {
    var list := s.comps[c].list;
    if FirstMatch(list, [AnyOf(Error)]) < |list| then (s.Consume(c, {EventError}), true) else (s, false)
  }

  /** The two checks of wait_for_event: an error found has its flag cleared and stays in the list; a
      configuration change found leaves everything as it is. */
  lemma ChecksContract(s: Client, c: nat)
    requires s.Has(c)
    ensures var (r, found) := CheckError(s, c);
      (found <==> exists e :: e in s.comps[c].list && e.kind.Error?)
      && r.spare == s.spare
      && r.comps == if found then s.comps[c := s.comps[c].(flags := s.comps[c].flags - {EventError})] else s.comps
    ensures CheckConfig(s, c) <==> exists e :: e in s.comps[c].list && e.kind.ParamOrConfigChanged?
  {
    AnyOfMatches(Error, s.comps[c].list);
    AnyOfMatches(ParamOrConfigChanged, s.comps[c].list);
  }

  lemma AnyOfMatches(kind: Kind, list: seq<Event>)
    ensures FirstMatch(list, [AnyOf(kind)]) < |list| <==> exists e :: e in list && e.kind == kind
  {
    assert forall e: Event :: MatchesAny(e, [AnyOf(kind)]) <==> e.kind == kind by {
      assert forall e: Event :: e.kind == kind ==> [AnyOf(kind)][0].Matches(e);
    }
    var k := FirstMatch(list, [AnyOf(kind)]);
    if k < |list| { assert list[k] in list; }
  }

  function CheckConfig(s: Client, c: nat): bool
    requires s.Has(c)
  {
    FirstMatch(s.comps[c].list, [AnyOf(ParamOrConfigChanged)]) < |s.comps[c].list|
  }

  function AnyOf(kind: Kind): Pattern {
    Pattern(kind, Num(0), true, 0, true)
  }

  /** return_events: the whole list goes back to the spare list. */
  function ReturnEvents(s: Client, c: nat): Client
    requires s.Has(c)
  {
    s.Shrunk(c, [])
  }

  /** Nothing is left in the list, every node of it is spare, and nothing else changes. */
  lemma ReturnEventsContract(s: Client, c: nat, d: nat)
    requires s.Has(c) && s.Has(d)
    ensures var r := ReturnEvents(s, c);
      |r.comps| == |s.comps| && r.spare == s.spare + |s.comps[c].list|
      && r.comps[d] == if d == c then s.comps[d].(list := []) else s.comps[d]
  {
  }
}
