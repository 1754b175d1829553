/** server/internal/server/server.go: streams, the registry and the RTP bindings, driven by HTTP
    calls, replies, packets, the monitor and disconnects in any interleaving. Each event below is
    one atomic step; a call that waits for the device is two or three of them. */
module StreamServer {
  import opened Wrappers
  import opened StreamLifecycle

  type Id = nat
  type Device = string

  /** Every stream ever made, the registry's keys, the bound RTP sockets, and the calls in flight:
      StartStream between replacing and binding (by device), StartStream and StopStream waiting
      for the device's reply (by stream). */
  datatype State = State(
    all: map<Id, Record>,
    registered: set<Id>,
    bound: set<Id>,
    replacing: multiset<Device>,
    starting: set<Id>,
    stopping: set<Id>)

  const INITIAL := State(map[], {}, {}, multiset{}, {}, {})

  /** What SendStartStream can return: stream_started, anything else the device answers, or an
      error of the call itself. */
  datatype Reply = Started | Refused | SendFailed

  datatype Event =
    | StartReplace(device: Device, existing: Option<Id>)
    | StartBind(device: Device, id: Id, cfg: TimeoutConfig, now: int, bindOk: bool)
    | StartReply(id: Id, reply: Reply, now: int)
    | StopBegin(id: Id)
    | StopReply(id: Id)
    | PacketIn(id: Id, now: int)
    | MonitorTick(now: int)
    | Disconnect(device: Device)

  // ---- Steps ------------------------------------------------------------------------------------

  function Act(s: State, id: Id, a: Action): State
    requires id in s.all
  {
    s.(all := s.all[id := Apply(s.all[id], a)])
  }

  /** CloseStream and Registry.Remove. */
  function Drop(s: State, id: Id): State {
    s.(registered := s.registered - {id}, bound := s.bound - {id})
  }

  predicate IsListed(s: State, d: Device, id: Id) {
    id in s.registered && id in s.all && s.all[id].device == d && Listed(s.all[id])
  }

  function StartingRecord(d: Device, cfg: TimeoutConfig, now: int): Record {
    Apply(Apply(New(d, now, cfg), Start(now)), DeviceCommandSent)
  }

  /** The monitor's verdict on one registered stream. */
  function Expire(r: Record, now: int): Record {
    if WaitTimedOut(r, now) then Apply(r, RTPWaitTimeout)
    else if Disappeared(r, now) then Apply(r, RTPTimeout)
    else r
  }

  predicate TimedOut(r: Record, now: int) {
    WaitTimedOut(r, now) || Disappeared(r, now)
  }

  predicate Fails(s: State, d: Device, id: Id) {
    id in s.all && s.all[id].device == d && s.all[id].phase == ACTIVE
  }

  /** What may happen when: the replaced stream is one GetByDevice can return, a call replies only
      while in flight, and a newly bound id is fresh (ids are 64 random bits). */
  predicate Enabled(s: State, e: Event) {
    match e
    case StartReplace(d, Some(id)) => IsListed(s, d, id)
    case StartReplace(d, None) => forall id :: id in s.registered ==> !IsListed(s, d, id)
    case StartBind(d, id, _, _, bindOk) => d in s.replacing && (bindOk ==> id !in s.all)
    case StartReply(id, _, _) => id in s.starting && id in s.all
    case StopReply(id) => id in s.stopping && id in s.all
    case _ => true
  }

  function AfterReplace(s: State, d: Device, existing: Option<Id>): State
    requires existing.Some? ==> existing.value in s.all
  {
    var freed := if existing.Some? then Drop(Act(s, existing.value, ForceComplete), existing.value) else s;
    freed.(replacing := s.replacing + multiset{d})
  }

  function AfterBind(s: State, d: Device, id: Id, cfg: TimeoutConfig, now: int, bindOk: bool): State {
    var returned := s.(replacing := s.replacing - multiset{d});
    if !bindOk then returned
    else
      returned.(all := s.all[id := StartingRecord(d, cfg, now)],
      registered := s.registered + {id}, bound := s.bound + {id}, starting := s.starting + {id})
  }

  function AfterReply(s: State, id: Id, reply: Reply, now: int): State
    requires id in s.all
  {
    var replied := s.(starting := s.starting - {id});
    match reply
    case SendFailed => Drop(replied, id)
    case Refused => Drop(Act(replied, id, DeviceRejected(StartRejected)), id)
    case Started =>
      var marked := Act(replied, id, StreamStarted(now));
      if id in s.bound then marked else Drop(marked, id)
  }

  function AfterStopBegin(s: State, id: Id): State {
    if id in s.registered && id in s.all && s.all[id].phase == ACTIVE
    then Act(s, id, StopRequested).(stopping := s.stopping + {id})
    else s
  }

  function AfterStopReply(s: State, id: Id): State
    requires id in s.all
  {
    Act(s.(bound := s.bound - {id}, stopping := s.stopping - {id}), id, Stopped)
  }

  function AfterPacket(s: State, id: Id, now: int): State {
    if id in s.registered && id in s.all
    then Act(s, id, if s.all[id].phase == RTP_WAIT then FirstPacket(now) else Packet(now))
    else s
  }

  function AfterTick(s: State, now: int): State {
    var gone := set id | id in s.registered && id in s.all && TimedOut(s.all[id], now);
    s.(all := map id | id in s.all :: if id in s.registered then Expire(s.all[id], now) else s.all[id],
    registered := s.registered - gone, bound := s.bound - gone)
  }

  function AfterDisconnect(s: State, d: Device): State {
    var gone := set id | id in s.registered && Fails(s, d, id);
    s.(all := map id | id in s.all :: if id in gone then Apply(s.all[id], DeviceDisconnected) else s.all[id],
    registered := s.registered - gone, bound := s.bound - gone)
  }

  function Step(s: State, e: Event): State
    requires Enabled(s, e)
  {
    match e
    case StartReplace(d, existing) => AfterReplace(s, d, existing)
    case StartBind(d, id, cfg, now, bindOk) => AfterBind(s, d, id, cfg, now, bindOk)
    case StartReply(id, reply, now) => AfterReply(s, id, reply, now)
    case StopBegin(id) => AfterStopBegin(s, id)
    case StopReply(id) => AfterStopReply(s, id)
    case PacketIn(id, now) => AfterPacket(s, id, now)
    case MonitorTick(now) => AfterTick(s, now)
    case Disconnect(d) => AfterDisconnect(s, d)
  }

  // ---- A step, stream by stream ------------------------------------------------------------------

  /** t differs from s only in the records, and there at one stream by an action. */
  ghost predicate ActedOn(s: State, t: State, id: Id, a: Action) {
    && id in s.all && t.all.Keys == s.all.Keys && t.all[id] == Apply(s.all[id], a)
    && forall i :: i in s.all && i != id ==> t.all[i] == s.all[i]
  }

  ghost predicate SameRecords(s: State, t: State) {
    t.all.Keys == s.all.Keys && forall i :: i in s.all ==> t.all[i] == s.all[i]
  }

  lemma BindStep(s: State, t: State, d: Device, id: Id, cfg: TimeoutConfig, now: int)
    requires Enabled(s, StartBind(d, id, cfg, now, true))
    requires t.all.Keys == s.all.Keys + {id} && t.all[id] == StartingRecord(d, cfg, now)
    requires forall i :: i in s.all ==> t.all[i] == s.all[i]
    requires t.registered == s.registered + {id} && t.bound == s.bound + {id}
    requires t.replacing == s.replacing - multiset{d} && t.starting == s.starting + {id} && t.stopping == s.stopping
    ensures t == Step(s, StartBind(d, id, cfg, now, true))
  {
    hide StartingRecord;
  }

  lemma FailedBindStep(s: State, d: Device, id: Id, cfg: TimeoutConfig, now: int)
    requires Enabled(s, StartBind(d, id, cfg, now, false))
    ensures Step(s, StartBind(d, id, cfg, now, false)) == s.(replacing := s.replacing - multiset{d})
  {
  }

  lemma ReplyStep(s: State, t: State, id: Id, reply: Reply, now: int)
    requires Enabled(s, StartReply(id, reply, now))
    requires match reply
             case SendFailed => SameRecords(s, t)
             case Refused => ActedOn(s, t, id, DeviceRejected(StartRejected))
             case Started => ActedOn(s, t, id, StreamStarted(now))
    requires var gone := if reply == Started && id in s.bound then {} else {id};
             t.registered == s.registered - gone && t.bound == s.bound - gone
    requires t.replacing == s.replacing && t.starting == s.starting - {id} && t.stopping == s.stopping
    ensures t == Step(s, StartReply(id, reply, now))
  {
    hide Apply;
    assert SameRecords(s, t) ==> t.all == s.all;
  }

  lemma StopBeginStep(s: State, t: State, id: Id)
    requires var begins := id in s.registered && id in s.all && s.all[id].phase == ACTIVE;
             && (if begins then ActedOn(s, t, id, StopRequested) else SameRecords(s, t))
             && t.stopping == s.stopping + (if begins then {id} else {})
    requires t.registered == s.registered && t.bound == s.bound
             && t.replacing == s.replacing && t.starting == s.starting
    ensures t == Step(s, StopBegin(id))
  {
    hide Apply;
    assert SameRecords(s, t) ==> t.all == s.all;
  }

  lemma TickStep(s: State, t: State, now: int, gone: set<Id>)
    requires s.registered <= s.all.Keys && t.all.Keys == s.all.Keys
    requires forall i :: i in s.all ==> t.all[i] == if i in s.registered then Expire(s.all[i], now) else s.all[i]
    requires gone == set i | i in s.registered && TimedOut(s.all[i], now)
    requires t.registered == s.registered - gone && t.bound == s.bound - gone
    requires t.replacing == s.replacing && t.starting == s.starting && t.stopping == s.stopping
    ensures t == Step(s, MonitorTick(now))
  {
    hide Expire;
    hide TimedOut;
  }

  lemma DisconnectStep(s: State, t: State, d: Device, gone: set<Id>)
    requires s.registered <= s.all.Keys && t.all.Keys == s.all.Keys
    requires forall i :: i in s.all ==> t.all[i] == if i in gone then Apply(s.all[i], DeviceDisconnected) else s.all[i]
    requires gone == set i | i in s.registered && s.all[i].device == d && s.all[i].phase == ACTIVE
    requires t.registered == s.registered - gone && t.bound == s.bound - gone
    requires t.replacing == s.replacing && t.starting == s.starting && t.stopping == s.stopping
    ensures t == Step(s, Disconnect(d))
  {
    hide Apply;
    assert gone == set i | i in s.registered && Fails(s, d, i);
  }

  // ---- The invariant ------------------------------------------------------------------------------

  /** One stream as the server holds it. */
  datatype View = View(rec: Record, registered: bool, bound: bool, starting: bool, stopping: bool)

  function ViewOf(s: State, id: Id): View
    requires id in s.all
  {
    View(s.all[id], id in s.registered, id in s.bound, id in s.starting, id in s.stopping)
  }

  /** A stream has its socket exactly while it is registered and not over; a registered stream in
      STARTING or STOPPING has its call in flight; a call in flight finds its stream either as it
      left it or replaced; an unregistered stream is over, unless sending start_stream failed. */
  predicate Sound(v: View) {
    && v.rec.phase != CREATED && v.rec.phase != WAITING_FOR_DEVICE
    && v.bound == (v.registered && !Terminal(v.rec))
    && (v.registered ==> v.rec.phase != FAILED)
    && (v.starting ==> if v.registered then v.rec.phase == STARTING else v.rec.phase == COMPLETE)
    && (v.stopping ==> if v.registered then v.rec.phase == STOPPING else v.rec.phase == COMPLETE)
    && (v.registered && v.rec.phase == STARTING ==> v.starting)
    && (v.registered && v.rec.phase == STOPPING ==> v.stopping)
    && (!v.registered ==> Terminal(v.rec) || v.rec.phase == STARTING)
  }

  ghost predicate Inv(s: State) {
    Closed(s) && forall id :: id in s.all ==> Sound(ViewOf(s, id))
  }

  ghost predicate Closed(s: State) {
    s.registered <= s.all.Keys && s.bound <= s.all.Keys && s.starting <= s.all.Keys && s.stopping <= s.all.Keys
  }

  lemma StepKeepsClosed(s: State, e: Event)
    requires Closed(s) && Enabled(s, e)
    ensures Closed(Step(s, e))
  {
  }

  lemma StepKeepsSound(s: State, e: Event, id: Id)
    requires Closed(s) && Enabled(s, e) && id in Step(s, e).all
    requires id in s.all ==> Sound(ViewOf(s, id))
    ensures Sound(ViewOf(Step(s, e), id))
  {
    hide Step;
    hide Sound;
    match e
    case StartReplace(_, _) => CallKeepsSound(s, e, id);
    case StartBind(_, _, _, _, _) => CallKeepsSound(s, e, id);
    case StartReply(_, _, _) => ReplyKeepsSound(s, e, id);
    case StopReply(_) => ReplyKeepsSound(s, e, id);
    case _ => OtherKeepsSound(s, e, id);
  }

  lemma CallKeepsSound(s: State, e: Event, id: Id)
    requires e.StartReplace? || e.StartBind?
    requires Closed(s) && Enabled(s, e) && id in Step(s, e).all
    requires id in s.all ==> Sound(ViewOf(s, id))
    ensures Sound(ViewOf(Step(s, e), id))
  {
  }

  lemma ReplyKeepsSound(s: State, e: Event, id: Id)
    requires e.StartReply? || e.StopReply?
    requires Closed(s) && Enabled(s, e) && id in Step(s, e).all
    requires id in s.all ==> Sound(ViewOf(s, id))
    ensures Sound(ViewOf(Step(s, e), id))
  {
  }

  lemma OtherKeepsSound(s: State, e: Event, id: Id)
    requires e.StopBegin? || e.PacketIn? || e.MonitorTick? || e.Disconnect?
    requires Closed(s) && Enabled(s, e) && id in Step(s, e).all
    requires id in s.all ==> Sound(ViewOf(s, id))
    ensures Sound(ViewOf(Step(s, e), id))
  {
  }

  lemma StepKeepsInv(s: State, e: Event)
    requires Inv(s) && Enabled(s, e)
    ensures Inv(Step(s, e))
  {
    hide Step;
    hide Enabled;
    hide Sound;
    StepKeepsClosed(s, e);
    forall id | id in Step(s, e).all ensures Sound(ViewOf(Step(s, e), id)) {
      StepKeepsSound(s, e, id);
    }
  }

  ghost predicate LegalRun(s: State, es: seq<Event>)
    decreases |es|
  {
    es == [] || (Enabled(s, es[0]) && LegalRun(Step(s, es[0]), es[1..]))
  }

  function Run(s: State, es: seq<Event>): State
    requires LegalRun(s, es)
    decreases |es|
  {
    if es == [] then s else Run(Step(s, es[0]), es[1..])
  }

  /** The sockets are exactly those of the registered streams that are not over. */
  ghost predicate SocketsMatchStreams(s: State) {
    s.bound == set id | id in s.registered && id in s.all && !Terminal(s.all[id])
  }

  /** In every interleaving, from the empty server, the bound sockets are exactly the registered
      streams in non-terminal states, and the whole invariant holds. */
  lemma {:induction false} RunKeepsInv(s: State, es: seq<Event>)
    requires Inv(s) && LegalRun(s, es)
    ensures Inv(Run(s, es)) && SocketsMatchStreams(Run(s, es))
    decreases |es|
  {
    if es == [] {
      InvMatches(s);
    } else {
      StepKeepsInv(s, es[0]);
      RunKeepsInv(Step(s, es[0]), es[1..]);
    }
  }

  lemma InvMatches(s: State)
    requires Inv(s)
    ensures SocketsMatchStreams(s)
  {
    forall id | id in s.all ensures id in s.bound <==> id in s.registered && !Terminal(s.all[id]) {
      assert Sound(ViewOf(s, id));
    }
  }

  // ---- What is over stays over ----------------------------------------------------------------------

  /** A stream is left as it is, or one lifecycle action is applied to it. */
  ghost predicate Moves(r: Record, r': Record) {
    r' == r || exists a :: r' == Apply(r, a)
  }

  lemma ActionMoves(r: Record, a: Action)
    ensures Moves(r, r) && Moves(r, Apply(r, a))
  {
  }

  lemma StepMoves(s: State, e: Event, id: Id)
    requires Enabled(s, e) && id in s.all
    ensures id in Step(s, e).all && Moves(s.all[id], Step(s, e).all[id])
  {
    hide Apply;
    hide Moves;
    var r := s.all[id];
    match e
    case StartReplace(_, _) => ActionMoves(r, ForceComplete);
    case StartBind(_, _, _, now, _) => ActionMoves(r, Start(now));
    case StartReply(_, _, now) =>
      ActionMoves(r, DeviceRejected(StartRejected));
      ActionMoves(r, StreamStarted(now));
    case StopBegin(_) => ActionMoves(r, StopRequested);
    case StopReply(_) => ActionMoves(r, Stopped);
    case PacketIn(_, now) =>
      ActionMoves(r, FirstPacket(now));
      ActionMoves(r, Packet(now));
    case MonitorTick(_) =>
      ActionMoves(r, RTPWaitTimeout);
      ActionMoves(r, RTPTimeout);
    case Disconnect(_) => ActionMoves(r, DeviceDisconnected);
  }

  lemma StepKeepsTerminal(s: State, e: Event, id: Id)
    requires Enabled(s, e) && id in s.all
    ensures var t := Step(s, e);
            && id in t.all && Rank(s.all[id].phase) <= Rank(t.all[id].phase)
            && t.all[id].device == s.all[id].device && t.all[id].cfg == s.all[id].cfg
            && (Terminal(s.all[id]) ==> t.all[id] == s.all[id])
  {
    hide Step;
    hide Enabled;
    StepMoves(s, e, id);
  }

  /** Across any run, registered or not, a stream keeps its device and its limits and only advances, and one
      in COMPLETE or FAILED never leaves it: phase, reason and times stay. */
  lemma {:induction false} OverIsForever(s: State, es: seq<Event>, id: Id)
    requires LegalRun(s, es) && id in s.all
    ensures var t := Run(s, es);
            && id in t.all && Rank(s.all[id].phase) <= Rank(t.all[id].phase)
            && t.all[id].device == s.all[id].device && t.all[id].cfg == s.all[id].cfg
            && (Terminal(s.all[id]) ==> t.all[id] == s.all[id])
    decreases |es|
  {
    hide Step;
    if es != [] {
      StepKeepsTerminal(s, es[0], id);
      OverIsForever(Step(s, es[0]), es[1..], id);
    }
  }

  // ---- One stream a device ----------------------------------------------------------------------------

  predicate Live(s: State, d: Device, id: Id) {
    id in s.registered && id in s.all && s.all[id].device == d && !Terminal(s.all[id])
  }

  ghost predicate AtMostOne(s: State, d: Device) {
    forall a, b :: Live(s, d, a) && Live(s, d, b) ==> a == b
  }

  ghost predicate NoneLive(s: State, d: Device) {
    forall a :: !Live(s, d, a)
  }

  /** A successful bind for a device that has a live stream. */
  ghost predicate BindsBeside(s: State, e: Event, d: Device) {
    e.StartBind? && e.bindOk && e.device == d && !NoneLive(s, d)
  }

  /** A step breaks the one-stream rule exactly when it binds a stream for a device that has one:
      when a StartStream that has done its replacing overtakes another's binding. */
  lemma StepKeepsOneIff(s: State, e: Event, d: Device)
    requires Inv(s) && Enabled(s, e) && AtMostOne(s, d)
    ensures AtMostOne(Step(s, e), d) <==> !BindsBeside(s, e, d)
  {
    var t := Step(s, e);
    if e.StartBind? && e.bindOk && e.device == d {
      forall a | a in s.all ensures Live(t, d, a) <==> Live(s, d, a) {
      }
      assert Live(t, d, e.id);
      if !NoneLive(s, d) {
        var a :| Live(s, d, a);
        assert Live(t, d, a) && a != e.id;
      }
    } else {
      LiveComesOnlyFromBind(s, e, d);
    }
  }

  ghost predicate NeverBindsBeside(s: State, es: seq<Event>, d: Device)
    requires LegalRun(s, es)
    decreases |es|
  {
    es == [] || (!BindsBeside(s, es[0], d) && NeverBindsBeside(Step(s, es[0]), es[1..], d))
  }

  /** The rule holds before and after every step. */
  ghost predicate OneThroughout(s: State, es: seq<Event>, d: Device)
    requires LegalRun(s, es)
    decreases |es|
  {
    AtMostOne(s, d) && (es == [] || OneThroughout(Step(s, es[0]), es[1..], d))
  }

  /** Over every run a device has at most one live stream at every moment, if and only if no successful
      bind of the run finds one of the device alive. */
  lemma {:induction false} OneThroughoutIff(s: State, es: seq<Event>, d: Device)
    requires Inv(s) && LegalRun(s, es) && AtMostOne(s, d)
    ensures OneThroughout(s, es, d) <==> NeverBindsBeside(s, es, d)
    decreases |es|
  {
    hide Inv;
    hide Step;
    hide Enabled;
    hide AtMostOne;
    hide BindsBeside;
    if es != [] {
      StepKeepsInv(s, es[0]);
      StepKeepsOneIff(s, es[0], d);
      if BindsBeside(s, es[0], d) {
        StartsWithOne(Step(s, es[0]), es[1..], d);
      } else {
        OneThroughoutIff(Step(s, es[0]), es[1..], d);
      }
    }
  }

  lemma StartsWithOne(s: State, es: seq<Event>, d: Device)
    requires LegalRun(s, es)
    ensures OneThroughout(s, es, d) ==> AtMostOne(s, d)
  {
  }

  lemma LiveComesOnlyFromBind(s: State, e: Event, d: Device)
    requires Inv(s) && Enabled(s, e) && !(e.StartBind? && e.bindOk && e.device == d)
    ensures forall a :: Live(Step(s, e), d, a) ==> Live(s, d, a)
  {
    forall a | Live(Step(s, e), d, a) ensures Live(s, d, a) {
      if a in s.all {
        assert Sound(ViewOf(s, a));
        StepKeepsTerminal(s, e, a);
      }
    }
  }

  /** Replacing leaves the device with no stream. */
  lemma ReplaceClears(s: State, d: Device, existing: Option<Id>)
    requires Inv(s) && Enabled(s, StartReplace(d, existing)) && AtMostOne(s, d)
    ensures NoneLive(Step(s, StartReplace(d, existing)), d)
  {
    var t := Step(s, StartReplace(d, existing));
    forall a ensures !Live(t, d, a) {
      if Live(t, d, a) {
        LiveComesOnlyFromBind(s, StartReplace(d, existing), d);
        assert Sound(ViewOf(s, a)) && IsListed(s, d, a);
        assert Live(s, d, existing.value);
      }
    }
  }

  /** Starts of one device do not overlap between replacing and binding. */
  ghost predicate Serial(s: State, es: seq<Event>)
    requires LegalRun(s, es)
    decreases |es|
  {
    es == [] || ((es[0].StartReplace? ==> es[0].device !in s.replacing) && Serial(Step(s, es[0]), es[1..]))
  }

  /** At most one stream a device, none while one is being replaced, no two starts at that point. */
  ghost predicate OneEach(s: State) {
    && Inv(s)
    && (forall d :: AtMostOne(s, d))
    && (forall d :: d in s.replacing ==> s.replacing[d] == 1 && NoneLive(s, d))
  }

  lemma SerialStep(s: State, e: Event)
    requires OneEach(s) && Enabled(s, e) && (e.StartReplace? ==> e.device !in s.replacing)
    ensures OneEach(Step(s, e))
  {
    StepKeepsInv(s, e);
    var t := Step(s, e);
    forall d ensures AtMostOne(t, d) && (d in t.replacing ==> t.replacing[d] == 1 && NoneLive(t, d)) {
      SerialStepOn(s, e, d);
    }
  }

  lemma SerialStepOn(s: State, e: Event, d: Device)
    requires OneEach(s) && Enabled(s, e) && (e.StartReplace? ==> e.device !in s.replacing)
    ensures var t := Step(s, e); AtMostOne(t, d) && (d in t.replacing ==> t.replacing[d] == 1 && NoneLive(t, d))
  {
    var t := Step(s, e);
    StepKeepsOneIff(s, e, d);
    if e.StartBind? && e.device == d {
      assert t.replacing == s.replacing - multiset{d};
    } else {
      LiveComesOnlyFromBind(s, e, d);
      if e.StartReplace? && e.device == d {
        ReplaceClears(s, d, e.existing);
        assert t.replacing == s.replacing + multiset{d};
      } else {
        assert t.replacing[d] == s.replacing[d];
      }
    }
  }

  /** One active stream per device, on every run in which the starts of a device do not overlap,
      whatever else is interleaved between their steps. */
  lemma {:induction false} SerialRunKeepsOne(s: State, es: seq<Event>)
    requires OneEach(s) && LegalRun(s, es) && Serial(s, es)
    ensures OneEach(Run(s, es))
    decreases |es|
  {
    hide Step;
    hide OneEach;
    hide Enabled;
    if es != [] {
      SerialStep(s, es[0]);
      SerialRunKeepsOne(Step(s, es[0]), es[1..]);
    }
  }

  /** The condition is needed: two overlapping starts give one device two live streams, each with
      its socket. */
  lemma OverlappingStartsGiveTwo(cfg: TimeoutConfig)
    ensures var es := [StartReplace("mic", None), StartReplace("mic", None),
                       StartBind("mic", 0, cfg, 0, true), StartBind("mic", 1, cfg, 0, true)];
            LegalRun(INITIAL, es) && !AtMostOne(Run(INITIAL, es), "mic")
  {
    hide LegalRun;
    hide Run;
    hide Step;
    var e0 := StartReplace("mic", None);
    var e2, e3 := StartBind("mic", 0, cfg, 0, true), StartBind("mic", 1, cfg, 0, true);
    var s2 := INITIAL.(replacing := multiset{"mic", "mic"});
    TwoReplaces("mic");
    BindMakesStarting(s2, "mic", 0, cfg, 0, true);
    var s3 := Step(s2, e2);
    BindMakesStarting(s3, "mic", 1, cfg, 0, true);
    var s4 := Step(s3, e3);
    RunHead(INITIAL, e0, [e0, e2, e3]);
    RunHead(Step(INITIAL, e0), e0, [e2, e3]);
    RunHead(s2, e2, [e3]);
    RunHead(s3, e3, []);
    assert [e0] + [e0, e2, e3] == [e0, e0, e2, e3] && [e0] + [e2, e3] == [e0, e2, e3];
    assert [e2] + [e3] == [e2, e3] && [e3] + [] == [e3];
    assert Live(s4, "mic", 0) && Live(s4, "mic", 1);
  }

  lemma TwoReplaces(d: Device)
    ensures var e := StartReplace(d, None);
            && Enabled(INITIAL, e) && Enabled(Step(INITIAL, e), e)
            && Step(Step(INITIAL, e), e) == INITIAL.(replacing := multiset{d, d})
  {
  }

  lemma RunHead(s: State, e: Event, es: seq<Event>)
    requires Enabled(s, e)
    ensures LegalRun(s, [e] + es) <==> LegalRun(Step(s, e), es)
    ensures LegalRun(Step(s, e), es) ==> Run(s, [e] + es) == Run(Step(s, e), es)
    ensures LegalRun(s, []) && Run(s, []) == s
    ensures LegalRun(Step(s, e), []) && Run(Step(s, e), []) == Step(s, e)
  {
    hide Step;
    hide Enabled;
    assert ([e] + es)[1..] == es;
  }

  // ---- Nothing is left behind ------------------------------------------------------------------------

  /** A configured limit, or the default when none is configured. */
  function Limit(configured: int, default: int): int {
    if configured > 0 then configured else default
  }

  /** The stream has waited for RTP for its limit, five seconds by default, or been without a packet for the
      other, one second by default. */
  predicate Overdue(r: Record, now: int) {
    || (r.phase == RTP_WAIT && now - r.streamStartedAt >= Limit(r.cfg.rtpWait, 5_000_000_000))
    || (r.phase == ACTIVE && now - r.lastPacketAt >= Limit(r.cfg.rtpDisappear, 1_000_000_000))
  }

  /** How an overdue stream ends. */
  function Expired(r: Record): Record {
    r.(phase := FAILED, reason := if r.phase == RTP_WAIT then RtpWaitTimeout else RtpTimeout)
  }

  lemma ExpiryEnds(r: Record, now: int)
    ensures TimedOut(r, now) <==> Overdue(r, now)
    ensures Expire(r, now) == if Overdue(r, now) then Expired(r) else r
  {
  }

  /** A monitor tick ends exactly the registered streams that are overdue, each with its own reason; every
      other stream is untouched. */
  lemma TickEndsExactlyTheExpired(s: State, now: int)
    requires Inv(s)
    ensures var t := Step(s, MonitorTick(now));
            forall id :: id in s.all ==>
              && id in t.all
              && if id in s.registered && Overdue(s.all[id], now)
                 then id !in t.registered && id !in t.bound && t.all[id] == Expired(s.all[id])
                 else (id in t.registered <==> id in s.registered) && (id in t.bound <==> id in s.bound)
                      && t.all[id] == s.all[id]
  {
    hide Sound;
    hide Expire;
    hide Expired;
    hide TimedOut;
    hide Overdue;
    forall id | id in s.all ensures
      && (TimedOut(s.all[id], now) <==> Overdue(s.all[id], now))
      && Expire(s.all[id], now) == if Overdue(s.all[id], now) then Expired(s.all[id]) else s.all[id]
    {
      ExpiryEnds(s.all[id], now);
    }
  }

  /** A disconnect ends exactly the device's ACTIVE streams. */
  lemma DisconnectEndsExactlyTheActive(s: State, d: Device)
    requires Inv(s)
    ensures var t := Step(s, Disconnect(d));
            forall id :: id in s.all ==>
              && id in t.all
              && if id in s.registered && s.all[id].device == d && s.all[id].phase == ACTIVE
                 then id !in t.registered && id !in t.bound
                      && t.all[id] == s.all[id].(phase := FAILED, reason := DeviceDisc)
                 else (id in t.registered <==> id in s.registered) && (id in t.bound <==> id in s.bound)
                      && t.all[id] == s.all[id]
  {
    hide Sound;
  }

  /** The event is none of those that move the waiting or active stream: a packet of its own, a stop, a
      disconnect of its device, or a start that replaces it. */
  predicate LeavesAlone(e: Event, id: Id, d: Device) {
    match e
    case StartReplace(_, existing) => existing != Some(id)
    case PacketIn(i, _) => i != id
    case StopBegin(i) => i != id
    case Disconnect(d') => d' != d
    case _ => true
  }

  predicate AllLeaveAlone(es: seq<Event>, id: Id, d: Device) {
    forall i :: 0 <= i < |es| ==> LeavesAlone(es[i], id, d)
  }

  /** A tick of the run finds the stream overdue. */
  predicate TickTooLate(es: seq<Event>, r: Record) {
    exists i :: 0 <= i < |es| && es[i].MonitorTick? && Overdue(r, es[i].now)
  }

  ghost predicate IsOver(s: State, id: Id, r: Record) {
    id in s.all && id !in s.registered && id !in s.bound && s.all[id] == r
  }

  ghost predicate Remains(s: State, id: Id, r: Record) {
    id in s.all && id in s.registered && id in s.bound && s.all[id] == r
  }

  lemma LimitStep(s: State, e: Event, id: Id)
    requires Inv(s) && Enabled(s, e) && id in s.registered && LeavesAlone(e, id, s.all[id].device)
    requires s.all[id].phase == RTP_WAIT || s.all[id].phase == ACTIVE
    ensures if e.MonitorTick? && Overdue(s.all[id], e.now) then IsOver(Step(s, e), id, Expired(s.all[id]))
            else Remains(Step(s, e), id, s.all[id])
  {
    assert Sound(ViewOf(s, id));
    if e.MonitorTick? {
      hide Step;
      TickEndsExactlyTheExpired(s, e.now);
    } else if e.Disconnect? {
      hide Step;
      DisconnectEndsExactlyTheActive(s, e.device);
    } else {
      hide AfterTick;
      hide AfterDisconnect;
      hide Overdue;
    }
  }

  lemma {:induction false} OverStaysUnbound(s: State, es: seq<Event>, id: Id)
    requires Inv(s) && LegalRun(s, es) && id in s.all && id !in s.registered
    ensures id in Run(s, es).all && id !in Run(s, es).registered && id !in Run(s, es).bound
    decreases |es|
  {
    hide Step;
    hide Enabled;
    if es == [] {
      assert Sound(ViewOf(s, id));
    } else {
      StepKeepsInv(s, es[0]);
      NotRegisteredAgain(s, es[0], id);
      hide Inv;
      OverStaysUnbound(Step(s, es[0]), es[1..], id);
    }
  }

  lemma NotRegisteredAgain(s: State, e: Event, id: Id)
    requires Enabled(s, e) && id in s.all && id !in s.registered
    ensures id in Step(s, e).all && id !in Step(s, e).registered
  {
  }

  /** The limits are exact, over every run that leaves the stream to itself: as long as no monitor tick comes
      at its limit or later it stays as it is, registered and with its socket; the first that does ends it
      for good, with the reason of that limit and without its socket. */
  lemma {:induction false} LimitsAreExact(s: State, es: seq<Event>, id: Id)
    requires Inv(s) && LegalRun(s, es) && id in s.registered && AllLeaveAlone(es, id, s.all[id].device)
    requires s.all[id].phase == RTP_WAIT || s.all[id].phase == ACTIVE
    ensures var r := s.all[id];
            if TickTooLate(es, r) then IsOver(Run(s, es), id, Expired(r)) else Remains(Run(s, es), id, r)
    decreases |es|
  {
    hide Step;
    hide Enabled;
    hide Overdue;
    hide LeavesAlone;
    var r := s.all[id];
    if es == [] {
      assert Sound(ViewOf(s, id));
    } else {
      var e, rest := es[0], es[1..];
      LimitStep(s, e, id);
      StepKeepsInv(s, e);
      LateSplit(es, r);
      hide Inv;
      hide TickTooLate;
      assert AllLeaveAlone(rest, id, r.device) by {
        assert forall i :: 0 <= i < |rest| ==> rest[i] == es[i + 1];
      }
      if e.MonitorTick? && Overdue(r, e.now) {
        OverIsForever(Step(s, e), rest, id);
        OverStaysUnbound(Step(s, e), rest, id);
      } else {
        LimitsAreExact(Step(s, e), rest, id);
      }
    }
  }

  lemma LateSplit(es: seq<Event>, r: Record)
    requires es != []
    ensures TickTooLate(es, r) <==> (es[0].MonitorTick? && Overdue(r, es[0].now)) || TickTooLate(es[1..], r)
  {
    hide Overdue;
    if i :| 0 <= i < |es[1..]| && es[1..][i].MonitorTick? && Overdue(r, es[1..][i].now) {
      assert es[i + 1] == es[1..][i];
    }
    if i :| 0 < i < |es| && es[i].MonitorTick? && Overdue(r, es[i].now) {
      assert es[1..][i - 1] == es[i];
    }
  }

  /** A stream that started at time t and gets no packet is there until the first monitor tick five seconds,
      or its configured limit, after t, and not longer. */
  lemma StartedStreamHasItsLimit(s: State, id: Id, t: int, es: seq<Event>)
    requires Inv(s) && Enabled(s, StartReply(id, Started, t)) && id in s.registered
    requires LegalRun(Step(s, StartReply(id, Started, t)), es) && AllLeaveAlone(es, id, s.all[id].device)
    ensures var w := Step(s, StartReply(id, Started, t)); var e := Run(w, es);
            && id in w.registered && id in w.bound
            && w.all[id] == s.all[id].(phase := RTP_WAIT, streamStartedAt := t)
            && if exists i :: 0 <= i < |es| && es[i].MonitorTick?
                              && es[i].now - t >= Limit(s.all[id].cfg.rtpWait, 5_000_000_000)
               then IsOver(e, id, w.all[id].(phase := FAILED, reason := RtpWaitTimeout))
               else Remains(e, id, w.all[id])
  {
    var w := Step(s, StartReply(id, Started, t));
    StepKeepsInv(s, StartReply(id, Started, t));
    StartedMeansWaiting(s, id, t);
    hide Step;
    hide Inv;
    LimitsAreExact(w, es, id);
  }

  /** Packets keep a stream alive: one at time t makes a stream that was waiting for RTP active, or leaves it
      active, and then it is there until the first monitor tick one second, or its configured limit, after
      t, and not longer. */
  lemma PacketsKeepStreamAlive(s: State, id: Id, t: int, es: seq<Event>)
    requires Inv(s) && id in s.registered && (s.all[id].phase == RTP_WAIT || s.all[id].phase == ACTIVE)
    requires LegalRun(Step(s, PacketIn(id, t)), es) && AllLeaveAlone(es, id, s.all[id].device)
    ensures var p := Step(s, PacketIn(id, t)); var e := Run(p, es);
            && p == s.(all := s.all[id := s.all[id].(phase := ACTIVE, lastPacketAt := t)])
            && if exists i :: 0 <= i < |es| && es[i].MonitorTick?
                              && es[i].now - t >= Limit(s.all[id].cfg.rtpDisappear, 1_000_000_000)
               then IsOver(e, id, p.all[id].(phase := FAILED, reason := RtpTimeout))
               else Remains(e, id, p.all[id])
  {
    var p := Step(s, PacketIn(id, t));
    StepKeepsInv(s, PacketIn(id, t));
    PacketMakesActive(s, id, t);
    hide Step;
    hide Inv;
    LimitsAreExact(p, es, id);
  }

  lemma PacketMakesActive(s: State, id: Id, t: int)
    requires id in s.registered && id in s.all && (s.all[id].phase == RTP_WAIT || s.all[id].phase == ACTIVE)
    ensures Step(s, PacketIn(id, t)) == s.(all := s.all[id := s.all[id].(phase := ACTIVE, lastPacketAt := t)])
  {
  }

  /** No socket is leaked: with no start or stop in flight, every bound socket belongs to a stream
      the monitor watches, so a tick late enough for every deadline closes them all. */
  lemma QuietServerFreesEverySocket(s: State, now: int)
    requires Inv(s) && s.starting == {} && s.stopping == {}
    requires forall id :: id in s.registered ==>
                            now - s.all[id].streamStartedAt >= Limit(s.all[id].cfg.rtpWait, 5_000_000_000)
                            && now - s.all[id].lastPacketAt >= Limit(s.all[id].cfg.rtpDisappear, 1_000_000_000)
    ensures Step(s, MonitorTick(now)).bound == {}
    ensures forall id :: id in Step(s, MonitorTick(now)).registered ==> s.all[id].phase == COMPLETE
  {
    forall id | id in s.registered ensures TimedOut(s.all[id], now) || s.all[id].phase == COMPLETE {
      assert Sound(ViewOf(s, id));
    }
    forall id | id in s.bound ensures TimedOut(s.all[id], now) {
      assert Sound(ViewOf(s, id));
    }
  }

  /** A start that succeeds leaves its stream registered, bound and waiting for RTP; it fails after
      stream_started exactly when the stream was replaced meanwhile. */
  lemma StartedMeansWaiting(s: State, id: Id, now: int)
    requires Inv(s) && Enabled(s, StartReply(id, Started, now))
    ensures var t := Step(s, StartReply(id, Started, now));
            if id in s.registered
            then id in t.registered && id in t.bound
                 && t.all[id] == s.all[id].(phase := RTP_WAIT, streamStartedAt := now)
            else s.all[id].phase == COMPLETE && t == s.(starting := s.starting - {id})
  {
    assert Sound(ViewOf(s, id));
  }

  /** A start that is over leaves its stream unregistered and not ended exactly when sending start_stream
      failed and no later start had replaced the stream: that path removes it as it is, in STARTING. */
  lemma LeftStartingIff(s: State, id: Id, reply: Reply, now: int)
    requires Inv(s) && Enabled(s, StartReply(id, reply, now))
    ensures var t := Step(s, StartReply(id, reply, now));
            && (id !in t.registered && !Terminal(t.all[id]) <==> reply == SendFailed && id in s.registered)
            && (id !in t.registered && !Terminal(t.all[id]) ==> t.all[id].phase == STARTING && t.all[id] == s.all[id])
  {
    assert Sound(ViewOf(s, id));
  }

  /** What a successful bind makes: a stream of the device in STARTING, registered and bound, with its call in
      flight and the limits it was given; a bind that fails leaves everything but the start's own place. */
  lemma BindMakesStarting(s: State, d: Device, id: Id, cfg: TimeoutConfig, now: int, bindOk: bool)
    requires Enabled(s, StartBind(d, id, cfg, now, bindOk))
    ensures var t := Step(s, StartBind(d, id, cfg, now, bindOk));
            && t.replacing == s.replacing - multiset{d} && t.stopping == s.stopping
            && if bindOk
               then t.all == s.all[id := Record(d, STARTING, NoReason, now, 0, 0, cfg)]
                    && t.registered == s.registered + {id} && t.bound == s.bound + {id}
                    && t.starting == s.starting + {id}
               else t.all == s.all && t.registered == s.registered && t.bound == s.bound && t.starting == s.starting
  {
  }

  /** A start that the device refuses ends as rejected, unless it was replaced meanwhile, and is gone. */
  lemma RefusedMeansGone(s: State, id: Id, now: int)
    requires Inv(s) && Enabled(s, StartReply(id, Refused, now))
    ensures var t := Step(s, StartReply(id, Refused, now));
            IsOver(t, id, if id in s.registered then s.all[id].(phase := FAILED, reason := StartRejected)
                          else s.all[id])
            && (id !in s.registered ==> s.all[id].phase == COMPLETE)
  {
    assert Sound(ViewOf(s, id));
  }

  /** Replacing ends the stream it found as replaced, and touches no other. */
  lemma ReplaceEndsExactlyOne(s: State, d: Device, id: Id)
    requires Inv(s) && Enabled(s, StartReplace(d, Some(id)))
    ensures var t := Step(s, StartReplace(d, Some(id)));
            && s.all[id].device == d
            && IsOver(t, id, s.all[id].(phase := COMPLETE, reason := Replaced))
            && forall i :: i in s.all && i != id ==>
                 i in t.all && t.all[i] == s.all[i] && (i in t.registered <==> i in s.registered)
                 && (i in t.bound <==> i in s.bound)
  {
  }

  /** A stop begins exactly for a registered ACTIVE stream; for any other it changes nothing. */
  lemma StopBeginsIff(s: State, id: Id)
    requires Inv(s)
    ensures var t := Step(s, StopBegin(id));
            if id in s.registered && s.all[id].phase == ACTIVE
            then t == s.(all := s.all[id := s.all[id].(phase := STOPPING)], stopping := s.stopping + {id})
            else t == s
  {
  }

  /** A stop that was begun ends with the stream complete and its socket closed, whatever the reply,
      even when the stream was replaced meanwhile. */
  lemma StopAlwaysCompletes(s: State, id: Id)
    requires Inv(s) && Enabled(s, StopReply(id))
    ensures var t := Step(s, StopReply(id));
            t.all[id].phase == COMPLETE && id !in t.bound && t.registered == s.registered
  {
    assert Sound(ViewOf(s, id));
  }
}
