/** server/internal/control/session_manager.go: how replies find their callers. Callers, inbound
    handlers and timeouts interleave at the manager's lock and at the channels. */
module Correlation {
  import opened Wrappers

  /** Request ids are compared and nothing else, so numbers stand for them. */
  type RequestId = nat

  const NO_ID: RequestId := 0  // the empty id, which correlates with nothing

  type Channel = nat
  type CallId = nat
  type HandlerId = nat

  datatype Kind = Status | Error | StreamStarted | StreamStopped | OtherKind

  /** body stands for everything a message carries besides its request id. */
  datatype Message = Message(kind: Kind, requestId: RequestId, body: nat)

  function RequestIdOf(m: Message): RequestId {
    if m.kind == OtherKind then NO_ID else m.requestId
  }

  function StreamRequestIdOf(m: Message): RequestId {
    if m.kind == StreamStarted || m.kind == StreamStopped || m.kind == Error then m.requestId else NO_ID
  }

  /** The two maps a caller can register in: pending for set_config and get_status, streamCh for
      start_stream and stop_stream. */
  datatype Table = ByRequest | ByStream

  /** A message in a channel, with the time its handler found the channel. */
  datatype Entry = Entry(msg: Message, at: nat)

  datatype Progress = Waiting | Leaving | Returned

  /** A caller: refused as a duplicate, or registered with its own channel at a time. */
  datatype Call =
    | Refused
    | Call(table: Table, rid: RequestId, ch: Channel, since: nat, progress: Progress, got: Option<Entry>)

  /** Where an inbound message is in Handler: before each lookup, and between a lookup and its
      non-blocking send. */
  datatype Handling =
    | AtRequest(msg: Message)
    | OfferRequest(msg: Message, ch: Channel, at: nat)
    | AtStream(msg: Message)
    | OfferStream(msg: Message, ch: Channel, at: nat)

  /** owner says which call made a channel; slots holds each one-message buffer. */
  datatype State = State(
    pending: map<RequestId, Channel>,
    streamCh: map<RequestId, Channel>,
    slots: map<Channel, Option<Entry>>,
    owner: map<Channel, CallId>,
    calls: map<CallId, Call>,
    handlers: map<HandlerId, Handling>,
    clock: nat)

  const INITIAL := State(map[], map[], map[], map[], map[], map[], 0)

  datatype Event =
    | Register(call: CallId, table: Table, rid: RequestId, made: Channel)
    | Receive(call: CallId)
    | GiveUp(call: CallId)
    | Unregister(call: CallId)
    | Inbound(h: HandlerId, msg: Message)
    | LookupRequest(h: HandlerId)
    | LookupStream(h: HandlerId)
    | Offer(h: HandlerId)

  // ---- Steps --------------------------------------------------------------------------------------

  function TableOf(s: State, t: Table): map<RequestId, Channel> {
    if t == ByRequest then s.pending else s.streamCh
  }

  function WithTable(s: State, t: Table, m: map<RequestId, Channel>): State {
    if t == ByRequest then s.(pending := m) else s.(streamCh := m)
  }

  predicate IsCall(s: State, c: CallId, p: Progress) {
    c in s.calls && s.calls[c].Call? && s.calls[c].progress == p
  }

  predicate Holds(s: State, ch: Channel) {
    ch in s.slots && s.slots[ch].Some?
  }

  /** request ids are checked to be non-empty before registering; channels are made fresh. */
  predicate Enabled(s: State, e: Event) {
    match e
    case Register(c, _, rid, ch) => rid != NO_ID && c !in s.calls && ch !in s.slots && ch !in s.owner
    case Receive(c) => IsCall(s, c, Waiting) && Holds(s, s.calls[c].ch)
    case GiveUp(c) => IsCall(s, c, Waiting)
    case Unregister(c) => IsCall(s, c, Leaving)
    case Inbound(h, _) => h !in s.handlers
    case LookupRequest(h) => h in s.handlers && s.handlers[h].AtRequest?
    case LookupStream(h) => h in s.handlers && s.handlers[h].AtStream?
    case Offer(h) => h in s.handlers && (s.handlers[h].OfferRequest? || s.handlers[h].OfferStream?)
  }

  function AfterRegister(s: State, c: CallId, t: Table, rid: RequestId, ch: Channel): State {
    if rid in TableOf(s, t) then s.(calls := s.calls[c := Refused])
    else
      WithTable(s, t, TableOf(s, t)[rid := ch]).(
      slots := s.slots[ch := None], owner := s.owner[ch := c],
      calls := s.calls[c := Call(t, rid, ch, s.clock, Waiting, None)])
  }

  function AfterReceive(s: State, c: CallId): State
    requires IsCall(s, c, Waiting) && Holds(s, s.calls[c].ch)
  {
    var call := s.calls[c];
    s.(slots := s.slots[call.ch := None], calls := s.calls[c := call.(progress := Leaving, got := s.slots[call.ch])])
  }

  function AfterUnregister(s: State, c: CallId): State
    requires IsCall(s, c, Leaving)
  {
    var call := s.calls[c];
    WithTable(s, call.table, TableOf(s, call.table) - {call.rid}).(calls := s.calls[c := call.(progress := Returned)])
  }

  function AfterLookupRequest(s: State, h: HandlerId): State
    requires h in s.handlers && s.handlers[h].AtRequest?
  {
    var msg := s.handlers[h].msg;
    var rid := RequestIdOf(msg);
    s.(handlers := s.handlers[h :=
      if rid != NO_ID && rid in s.pending then OfferRequest(msg, s.pending[rid], s.clock) else AtStream(msg)])
  }

  function AfterLookupStream(s: State, h: HandlerId): State
    requires h in s.handlers && s.handlers[h].AtStream?
  {
    var msg := s.handlers[h].msg;
    var rid := StreamRequestIdOf(msg);
    s.(handlers :=
      if rid != NO_ID && rid in s.streamCh then s.handlers[h := OfferStream(msg, s.streamCh[rid], s.clock)]
      else s.handlers - {h})
  }

  /** The non-blocking send: a full channel refuses, and then a message offered to a request caller
      goes on to the stream callers. */
  function AfterOffer(s: State, h: HandlerId): State
    requires h in s.handlers && (s.handlers[h].OfferRequest? || s.handlers[h].OfferStream?)
  {
    var o := s.handlers[h];
    if Holds(s, o.ch) then
      s.(handlers := if o.OfferRequest? then s.handlers[h := AtStream(o.msg)] else s.handlers - {h})
    else
      s.(slots := s.slots[o.ch := Some(Entry(o.msg, o.at))], handlers := s.handlers - {h})
  }

  function Step(s: State, e: Event): State
    requires Enabled(s, e)
  {
    var t := match e
      case Register(c, table, rid, ch) => AfterRegister(s, c, table, rid, ch)
      case Receive(c) => AfterReceive(s, c)
      case GiveUp(c) => s.(calls := s.calls[c := s.calls[c].(progress := Leaving)])
      case Unregister(c) => AfterUnregister(s, c)
      case Inbound(h, msg) => s.(handlers := s.handlers[h := AtRequest(msg)])
      case LookupRequest(h) => AfterLookupRequest(s, h)
      case LookupStream(h) => AfterLookupStream(s, h)
      case Offer(h) => AfterOffer(s, h);
    t.(clock := s.clock + 1)
  }

  // ---- The invariant --------------------------------------------------------------------------------

  predicate OfKind(t: Table, m: Message, rid: RequestId) {
    if t == ByRequest then RequestIdOf(m) == rid else StreamRequestIdOf(m) == rid
  }

  /** A message meant for the call: it carries the call's request id, is of a kind its table
      accepts, and its handler found the call's channel after the call registered. */
  predicate MeantFor(t: Table, rid: RequestId, since: nat, e: Entry) {
    OfKind(t, e.msg, rid) && e.at >= since
  }

  /** ch belongs to a call, which knows it. */
  predicate Owned(s: State, ch: Channel) {
    && ch in s.slots && ch in s.owner && s.owner[ch] in s.calls
    && s.calls[s.owner[ch]].Call? && s.calls[s.owner[ch]].ch == ch
  }

  predicate CallOk(s: State, c: CallId)
    requires c in s.calls
  {
    var call := s.calls[c];
    call.Call? ==>
      && call.rid != NO_ID && call.since < s.clock && call.ch in s.slots && call.ch in s.owner && s.owner[call.ch] == c
      && (call.progress != Returned ==>
            call.rid in TableOf(s, call.table) && TableOf(s, call.table)[call.rid] == call.ch)
      && (call.got.Some? ==> MeantFor(call.table, call.rid, call.since, call.got.value) && call.progress != Waiting)
  }

  /** A registered id is registered by a call that has not returned. */
  predicate EntryOk(s: State, t: Table, rid: RequestId)
    requires rid in TableOf(s, t)
  {
    var ch := TableOf(s, t)[rid];
    && Owned(s, ch)
    && var call := s.calls[s.owner[ch]]; call.table == t && call.rid == rid && call.progress != Returned
  }

  predicate SlotOk(s: State, ch: Channel)
    requires ch in s.slots
  {
    && Owned(s, ch)
    && var call := s.calls[s.owner[ch]];
       s.slots[ch].Some? ==> MeantFor(call.table, call.rid, call.since, s.slots[ch].value)
  }

  predicate OfferOk(s: State, msg: Message, ch: Channel, at: nat) {
    Owned(s, ch) && var call := s.calls[s.owner[ch]]; MeantFor(call.table, call.rid, call.since, Entry(msg, at))
  }

  predicate HandlerOk(s: State, h: HandlerId)
    requires h in s.handlers
  {
    match s.handlers[h]
    case OfferRequest(msg, ch, at) => OfferOk(s, msg, ch, at)
    case OfferStream(msg, ch, at) => OfferOk(s, msg, ch, at)
    case _ => true
  }

  ghost predicate Inv(s: State) {
    && (forall c :: c in s.calls ==> CallOk(s, c))
    && (forall rid :: rid in s.pending ==> EntryOk(s, ByRequest, rid))
    && (forall rid :: rid in s.streamCh ==> EntryOk(s, ByStream, rid))
    && (forall ch :: ch in s.slots ==> SlotOk(s, ch))
    && (forall h :: h in s.handlers ==> HandlerOk(s, h))
  }

  /** The invariant at what the event touches. */
  predicate EventOk(s: State, e: Event)
    requires Enabled(s, e)
  {
    match e
    case Receive(c) => CallOk(s, c) && SlotOk(s, s.calls[c].ch)
    case GiveUp(c) => CallOk(s, c)
    case Unregister(c) => CallOk(s, c)
    case LookupRequest(h) =>
      var rid := RequestIdOf(s.handlers[h].msg);
      rid in s.pending ==> EntryOk(s, ByRequest, rid) && SlotOk(s, s.pending[rid]) && CallOk(s, s.owner[s.pending[rid]])
    case LookupStream(h) =>
      var rid := StreamRequestIdOf(s.handlers[h].msg);
      rid in s.streamCh ==>
        EntryOk(s, ByStream, rid) && SlotOk(s, s.streamCh[rid]) && CallOk(s, s.owner[s.streamCh[rid]])
    case Offer(h) => HandlerOk(s, h)
    case _ => true
  }

  lemma CallStep(s: State, e: Event, c: CallId)
    requires Enabled(s, e) && EventOk(s, e) && c in Step(s, e).calls
    requires c in s.calls ==> CallOk(s, c)
    ensures CallOk(Step(s, e), c)
  {
    hide Step;
    hide EventOk;
    hide Enabled;
    hide CallOk;
    match e
    case Register(_, _, _, _) => RegisterCallStep(s, e, c);
    case Receive(_) => CallerCallStep(s, e, c);
    case GiveUp(_) => CallerCallStep(s, e, c);
    case Unregister(_) => CallerCallStep(s, e, c);
    case _ => HandlerCallStep(s, e, c);
  }

  lemma StepIsRegister(s: State, e: Event)
    requires e.Register? && Enabled(s, e)
    ensures Step(s, e) == AfterRegister(s, e.call, e.table, e.rid, e.made).(clock := s.clock + 1)
    ensures e.rid != NO_ID && e.call !in s.calls && e.made !in s.slots && e.made !in s.owner
  {
    hide AfterReceive;
    hide AfterUnregister;
    hide AfterLookupRequest;
    hide AfterLookupStream;
    hide AfterOffer;
    hide AfterRegister;
  }

  /** What a registration changes, field by field. */
  lemma RegisterUnfolds(s: State, e: Event)
    requires e.Register? && Enabled(s, e)
    ensures e.rid != NO_ID && e.call !in s.calls && e.made !in s.slots && e.made !in s.owner
    ensures var u, free := Step(s, e), e.rid !in TableOf(s, e.table);
            && u.handlers == s.handlers && u.clock == s.clock + 1
            && u.slots == (if free then s.slots[e.made := None] else s.slots)
            && u.owner == (if free then s.owner[e.made := e.call] else s.owner)
            && u.calls == s.calls[e.call :=
                                     if free then Call(e.table, e.rid, e.made, s.clock, Waiting, None) else Refused]
            && TableOf(u, e.table) == (if free then TableOf(s, e.table)[e.rid := e.made] else TableOf(s, e.table))
            && forall t :: t != e.table ==> TableOf(u, t) == TableOf(s, t)
  {
    hide Step;
    hide Enabled;
    StepIsRegister(s, e);
  }

  lemma RegisterCallStep(s: State, e: Event, c: CallId)
    requires e.Register?
    requires Enabled(s, e) && EventOk(s, e) && c in Step(s, e).calls
    requires c in s.calls ==> CallOk(s, c)
    ensures CallOk(Step(s, e), c)
  {
    hide Step;
    hide Enabled;
    hide AfterRegister;
    hide TableOf;
    hide EventOk;
    hide RequestIdOf;
    hide StreamRequestIdOf;
    hide MeantFor;
    RegisterUnfolds(s, e);
    if c != e.call {
      assert c in s.calls;
    }
  }

  lemma CallerCallStep(s: State, e: Event, c: CallId)
    requires e.Receive? || e.GiveUp? || e.Unregister?
    requires Enabled(s, e) && EventOk(s, e) && c in Step(s, e).calls
    requires c in s.calls ==> CallOk(s, c)
    ensures CallOk(Step(s, e), c)
  {
    hide AfterRegister;
    hide AfterLookupRequest;
    hide AfterLookupStream;
    hide AfterOffer;
    hide MeantFor;
  }

  lemma HandlerCallStep(s: State, e: Event, c: CallId)
    requires e.Inbound? || e.LookupRequest? || e.LookupStream? || e.Offer?
    requires Enabled(s, e) && EventOk(s, e) && c in Step(s, e).calls
    requires c in s.calls ==> CallOk(s, c)
    ensures CallOk(Step(s, e), c)
  {
    hide AfterRegister;
    hide AfterReceive;
    hide AfterUnregister;
    hide MeantFor;
  }

  lemma EntryStep(s: State, e: Event, t: Table, rid: RequestId)
    requires Enabled(s, e) && EventOk(s, e) && rid in TableOf(Step(s, e), t)
    requires rid in TableOf(s, t) ==> EntryOk(s, t, rid)
    ensures EntryOk(Step(s, e), t, rid)
  {
    hide Step;
    hide EventOk;
    hide Enabled;
    hide EntryOk;
    match e
    case Register(_, _, _, _) => RegisterEntryStep(s, e, t, rid);
    case Receive(_) => CallerEntryStep(s, e, t, rid);
    case GiveUp(_) => CallerEntryStep(s, e, t, rid);
    case Unregister(_) => UnregisterEntryStep(s, e, t, rid);
    case _ => HandlerEntryStep(s, e, t, rid);
  }

  lemma RegisterEntryStep(s: State, e: Event, t: Table, rid: RequestId)
    requires e.Register?
    requires Enabled(s, e) && EventOk(s, e) && rid in TableOf(Step(s, e), t)
    requires rid in TableOf(s, t) ==> EntryOk(s, t, rid)
    ensures EntryOk(Step(s, e), t, rid)
  {
    hide Step;
    hide Enabled;
    hide AfterRegister;
    hide TableOf;
    hide EventOk;
    hide RequestIdOf;
    hide StreamRequestIdOf;
    hide CallOk;
    hide SlotOk;
    hide HandlerOk;
    hide OfferOk;
    hide MeantFor;
    RegisterUnfolds(s, e);
    if t != e.table || rid != e.rid {
      assert rid in TableOf(s, t);
    }
  }

  lemma CallerEntryStep(s: State, e: Event, t: Table, rid: RequestId)
    requires e.Receive? || e.GiveUp?
    requires Enabled(s, e) && EventOk(s, e) && rid in TableOf(Step(s, e), t)
    requires rid in TableOf(s, t) ==> EntryOk(s, t, rid)
    ensures EntryOk(Step(s, e), t, rid)
  {
    hide AfterRegister;
    hide AfterUnregister;
    hide AfterLookupRequest;
    hide AfterLookupStream;
    hide AfterOffer;
    hide MeantFor;
  }

  lemma UnregisterEntryStep(s: State, e: Event, t: Table, rid: RequestId)
    requires e.Unregister?
    requires Enabled(s, e) && EventOk(s, e) && rid in TableOf(Step(s, e), t)
    requires rid in TableOf(s, t) ==> EntryOk(s, t, rid)
    ensures EntryOk(Step(s, e), t, rid)
  {
    hide AfterRegister;
    hide AfterReceive;
    hide AfterLookupRequest;
    hide AfterLookupStream;
    hide AfterOffer;
    hide MeantFor;
  }

  lemma HandlerEntryStep(s: State, e: Event, t: Table, rid: RequestId)
    requires e.Inbound? || e.LookupRequest? || e.LookupStream? || e.Offer?
    requires Enabled(s, e) && EventOk(s, e) && rid in TableOf(Step(s, e), t)
    requires rid in TableOf(s, t) ==> EntryOk(s, t, rid)
    ensures EntryOk(Step(s, e), t, rid)
  {
    hide AfterRegister;
    hide AfterReceive;
    hide AfterUnregister;
    hide MeantFor;
  }

  lemma SlotStep(s: State, e: Event, ch: Channel)
    requires Enabled(s, e) && EventOk(s, e) && ch in Step(s, e).slots
    requires ch in s.slots ==> SlotOk(s, ch)
    ensures SlotOk(Step(s, e), ch)
  {
    hide Step;
    hide EventOk;
    hide Enabled;
    hide SlotOk;
    if e.Register? {
      RegisterSlotStep(s, e, ch);
    } else {
      OtherSlotStep(s, e, ch);
    }
  }

  lemma RegisterSlotStep(s: State, e: Event, ch: Channel)
    requires e.Register?
    requires Enabled(s, e) && EventOk(s, e) && ch in Step(s, e).slots
    requires ch in s.slots ==> SlotOk(s, ch)
    ensures SlotOk(Step(s, e), ch)
  {
    hide Step;
    hide Enabled;
    hide AfterRegister;
    hide TableOf;
    hide EventOk;
    hide MeantFor;
    RegisterUnfolds(s, e);
  }

  lemma OtherSlotStep(s: State, e: Event, ch: Channel)
    requires !e.Register?
    requires Enabled(s, e) && EventOk(s, e) && ch in Step(s, e).slots
    requires ch in s.slots ==> SlotOk(s, ch)
    ensures SlotOk(Step(s, e), ch)
  {
    hide AfterRegister;
    hide RequestIdOf;
    hide StreamRequestIdOf;
    hide EntryOk;
    hide MeantFor;
  }

  lemma HandlerStep(s: State, e: Event, h: HandlerId)
    requires Enabled(s, e) && EventOk(s, e) && h in Step(s, e).handlers
    requires h in s.handlers ==> HandlerOk(s, h)
    ensures HandlerOk(Step(s, e), h)
  {
    hide Step;
    hide EventOk;
    hide Enabled;
    hide HandlerOk;
    match e
    case Register(_, _, _, _) => RegisterHandlerStep(s, e, h);
    case Receive(_) => CallerHandlerStep(s, e, h);
    case GiveUp(_) => CallerHandlerStep(s, e, h);
    case Unregister(_) => CallerHandlerStep(s, e, h);
    case LookupRequest(_) => LookupHandlerStep(s, e, h);
    case LookupStream(_) => LookupHandlerStep(s, e, h);
    case _ => OfferHandlerStep(s, e, h);
  }

  lemma RegisterHandlerStep(s: State, e: Event, h: HandlerId)
    requires e.Register?
    requires Enabled(s, e) && EventOk(s, e) && h in Step(s, e).handlers
    requires h in s.handlers ==> HandlerOk(s, h)
    ensures HandlerOk(Step(s, e), h)
  {
    hide Step;
    hide Enabled;
    hide AfterRegister;
    hide TableOf;
    hide EventOk;
    hide RequestIdOf;
    hide StreamRequestIdOf;
    RegisterUnfolds(s, e);
  }

  lemma CallerHandlerStep(s: State, e: Event, h: HandlerId)
    requires e.Receive? || e.GiveUp? || e.Unregister?
    requires Enabled(s, e) && EventOk(s, e) && h in Step(s, e).handlers
    requires h in s.handlers ==> HandlerOk(s, h)
    ensures HandlerOk(Step(s, e), h)
  {
    hide AfterRegister;
    hide AfterLookupRequest;
    hide AfterLookupStream;
    hide AfterOffer;
  }

  lemma LookupHandlerStep(s: State, e: Event, h: HandlerId)
    requires e.LookupRequest? || e.LookupStream?
    requires Enabled(s, e) && EventOk(s, e) && h in Step(s, e).handlers
    requires h in s.handlers ==> HandlerOk(s, h)
    ensures HandlerOk(Step(s, e), h)
  {
    hide AfterRegister;
    hide AfterReceive;
    hide AfterUnregister;
    hide AfterOffer;
  }

  lemma OfferHandlerStep(s: State, e: Event, h: HandlerId)
    requires e.Inbound? || e.Offer?
    requires Enabled(s, e) && EventOk(s, e) && h in Step(s, e).handlers
    requires h in s.handlers ==> HandlerOk(s, h)
    ensures HandlerOk(Step(s, e), h)
  {
    hide AfterRegister;
    hide AfterReceive;
    hide AfterUnregister;
    hide AfterLookupRequest;
    hide AfterLookupStream;
  }

  lemma TouchedIsOk(s: State, e: Event)
    requires Inv(s) && Enabled(s, e)
    ensures EventOk(s, e)
  {
    hide MeantFor;
    match e
    case Receive(c) => assert CallOk(s, c);
    case LookupRequest(h) =>
      var rid := RequestIdOf(s.handlers[h].msg);
      assert rid in s.pending ==> EntryOk(s, ByRequest, rid);
      assert rid in s.pending ==> CallOk(s, s.owner[s.pending[rid]]);
    case LookupStream(h) =>
      var rid := StreamRequestIdOf(s.handlers[h].msg);
      assert rid in s.streamCh ==> EntryOk(s, ByStream, rid);
      assert rid in s.streamCh ==> CallOk(s, s.owner[s.streamCh[rid]]);
    case _ =>
  }

  lemma StepKeepsInv(s: State, e: Event)
    requires Inv(s) && Enabled(s, e)
    ensures Inv(Step(s, e))
  {
    hide Step;
    hide Enabled;
    hide CallOk;
    hide EntryOk;
    hide SlotOk;
    hide HandlerOk;
    hide EventOk;
    TouchedIsOk(s, e);
    var t := Step(s, e);
    forall c | c in t.calls ensures CallOk(t, c) {
      CallStep(s, e, c);
    }
    forall rid | rid in t.pending ensures EntryOk(t, ByRequest, rid) {
      EntryStep(s, e, ByRequest, rid);
    }
    forall rid | rid in t.streamCh ensures EntryOk(t, ByStream, rid) {
      EntryStep(s, e, ByStream, rid);
    }
    forall ch | ch in t.slots ensures SlotOk(t, ch) {
      SlotStep(s, e, ch);
    }
    forall h | h in t.handlers ensures HandlerOk(t, h) {
      HandlerStep(s, e, h);
    }
  }

  // ---- Runs ---------------------------------------------------------------------------------------------

  ghost predicate LegalRun(s: State, es: seq<Event>)
    decreases |es|
  {
    es == [] || (Enabled(s, es[0]) && LegalRun(Step(s, es[0]), es[1..]))
  }

  function Run(s: State, es: seq<Event>): State
    requires LegalRun(s, es)
    decreases |es|
  {
    if es == [] then s else Run(Step(s, es[0]), es[1..])
  }

  lemma {:induction false} RunKeepsInv(s: State, es: seq<Event>)
    requires Inv(s) && LegalRun(s, es)
    ensures Inv(Run(s, es))
    decreases |es|
  {
    hide Inv;
    hide Step;
    hide Enabled;
    if es != [] {
      StepKeepsInv(s, es[0]);
      RunKeepsInv(Step(s, es[0]), es[1..]);
    }
  }

  /** A caller of set_config or get_status awaits any reply that carries a request id; one of start_stream or
      stop_stream awaits only those two replies and errors. */
  predicate IsFor(t: Table, msg: Message) {
    if t == ByRequest then msg.kind in {Status, Error, StreamStarted, StreamStopped}
    else msg.kind in {StreamStarted, StreamStopped, Error}
  }

  /** In every interleaving: whatever a caller received carries the caller's own request id, is of a
      kind it awaits, and was routed after the caller registered. */
  lemma CallersReceiveOnlyTheirOwn(es: seq<Event>, c: CallId)
    requires LegalRun(INITIAL, es) && c in Run(INITIAL, es).calls
    ensures var call := Run(INITIAL, es).calls[c];
            call.Call? && call.got.Some? ==>
              var msg := call.got.value.msg;
              && msg.requestId == call.rid && IsFor(call.table, msg) && call.got.value.at >= call.since
  {
    RunKeepsInv(INITIAL, es);
    hide Run;
    hide LegalRun;
    assert CallOk(Run(INITIAL, es), c);
  }

  /** When every caller has returned, both maps are empty. */
  lemma NothingLeftRegistered(es: seq<Event>)
    requires LegalRun(INITIAL, es)
    requires forall c :: c in Run(INITIAL, es).calls ==>
                           Run(INITIAL, es).calls[c].Refused? || Run(INITIAL, es).calls[c].progress == Returned
    ensures Run(INITIAL, es).pending == map[] && Run(INITIAL, es).streamCh == map[]
  {
    RunKeepsInv(INITIAL, es);
    hide Run;
    hide LegalRun;
    hide Inv;
    var s := Run(INITIAL, es);
    if rid :| rid in s.pending {
      RegisteredIsUnreturned(s, ByRequest, rid);
      assert false;
    }
    if rid :| rid in s.streamCh {
      RegisteredIsUnreturned(s, ByStream, rid);
      assert false;
    }
  }

  predicate Registers(s: State, c: CallId, t: Table, rid: RequestId) {
    c in s.calls && s.calls[c].Call? && s.calls[c].progress != Returned
    && s.calls[c].table == t && s.calls[c].rid == rid
  }

  /** Each map holds exactly the calls that have not returned, one for each id. */
  lemma RegisteredIsUnreturned(s: State, t: Table, rid: RequestId)
    requires Inv(s)
    ensures rid in TableOf(s, t) <==> exists c :: Registers(s, c, t, rid)
    ensures forall c, d :: Registers(s, c, t, rid) && Registers(s, d, t, rid) ==> c == d
  {
    if rid in TableOf(s, t) {
      assert EntryOk(s, t, rid);
      assert Registers(s, s.owner[TableOf(s, t)[rid]], t, rid);
    }
    forall c | Registers(s, c, t, rid) ensures rid in TableOf(s, t) && s.owner[TableOf(s, t)[rid]] == c {
      assert CallOk(s, c);
    }
  }

  /** A registration is refused exactly when a call that has not returned has the same id in the same map, and
      then changes nothing else; otherwise the caller waits at its own empty channel. */
  lemma RegisterRefusesIff(s: State, c: CallId, t: Table, rid: RequestId, ch: Channel)
    requires Inv(s) && Enabled(s, Register(c, t, rid, ch))
    ensures var u := Step(s, Register(c, t, rid, ch));
            && c in u.calls
            && if exists d :: Registers(s, d, t, rid)
               then u == s.(calls := s.calls[c := Refused], clock := s.clock + 1)
               else IsCall(u, c, Waiting) && Registers(u, c, t, rid) && u.calls[c].ch == ch
                     && u.calls[c].since == s.clock
                    && ch in u.slots && u.slots[ch] == None
  {
    hide Inv;
    RegisteredIsUnreturned(s, t, rid);
  }

  /** Giving up, or receiving, lets the caller go, and going frees its id for the next call and touches no
      other registration. */
  lemma ReturnFreesTheId(s: State, c: CallId)
    requires Inv(s) && IsCall(s, c, Waiting)
    ensures var t := Step(s, GiveUp(c));
            t == s.(calls := s.calls[c := s.calls[c].(progress := Leaving)], clock := s.clock + 1)
    ensures var t, call := Step(s, GiveUp(c)), s.calls[c];
            && Enabled(t, Unregister(c))
            && var u := Step(t, Unregister(c));
               && IsCall(u, c, Returned) && u.calls[c].got.None?
               && TableOf(u, call.table) == TableOf(s, call.table) - {call.rid}
               && (forall t' :: t' != call.table ==> TableOf(u, t') == TableOf(s, t'))
  {
    assert CallOk(s, c);
    hide CallOk;
  }

  /** The deferred delete is by key, yet removes only the leaving caller's own registration. */
  lemma UnregisterRemovesItsOwn(s: State, c: CallId, d: CallId)
    requires Inv(s) && Enabled(s, Unregister(c)) && d != c
             && d in s.calls && s.calls[d].Call? && s.calls[d].progress != Returned
    ensures var t := Step(s, Unregister(c)); var call := s.calls[d];
            call.rid in TableOf(t, call.table) && TableOf(t, call.table)[call.rid] == call.ch
  {
    assert CallOk(s, c) && CallOk(s, d);
  }

  // ---- At most one message a registration -----------------------------------------------------------------

  function Stage(p: Progress): nat {
    match p
    case Waiting => 0
    case Leaving => 1
    case Returned => 2
  }

  /** A call only moves on, and what it has received it keeps. */
  predicate Advanced(before: Call, after: Call) {
    if before.Refused? then after == before
    else
      && after.Call? && after.(progress := before.progress, got := before.got) == before
      && Stage(before.progress) <= Stage(after.progress)
      && (before.got.Some? ==> after.got == before.got)
      && (before.progress != Waiting ==> after.got == before.got)
  }

  lemma StepAdvances(s: State, e: Event, c: CallId)
    requires Inv(s) && Enabled(s, e) && c in s.calls
    ensures c in Step(s, e).calls && Advanced(s.calls[c], Step(s, e).calls[c])
  {
    assert CallOk(s, c);
  }

  /** Across any run a registration receives at most one message: once it has one, or has given up,
      nothing that happens later changes what it received. */
  lemma {:induction false} AtMostOneReply(s: State, es: seq<Event>, c: CallId)
    requires Inv(s) && LegalRun(s, es) && c in s.calls
    ensures c in Run(s, es).calls && Advanced(s.calls[c], Run(s, es).calls[c])
    decreases |es|
  {
    hide Inv;
    hide Step;
    hide Enabled;
    if es != [] {
      StepKeepsInv(s, es[0]);
      StepAdvances(s, es[0], c);
      AtMostOneReply(Step(s, es[0]), es[1..], c);
    }
  }

  // ---- A reply on its way ------------------------------------------------------------------------------------

  /** The handler h takes no step. */
  predicate Spares(e: Event, h: HandlerId) {
    match e
    case Inbound(i, _) => i != h
    case LookupRequest(i) => i != h
    case LookupStream(i) => i != h
    case Offer(i) => i != h
    case _ => true
  }

  predicate AllSpare(es: seq<Event>, h: HandlerId) {
    forall i :: 0 <= i < |es| ==> Spares(es[i], h)
  }

  lemma SparedStep(s: State, e: Event, h: HandlerId)
    requires Enabled(s, e) && Spares(e, h) && h in s.handlers
    ensures h in Step(s, e).handlers && Step(s, e).handlers[h] == s.handlers[h]
  {
  }

  /** A handler between two of its steps stays where it is, whatever the others do. */
  lemma {:induction false} SparedRun(s: State, es: seq<Event>, h: HandlerId)
    requires LegalRun(s, es) && AllSpare(es, h) && h in s.handlers
    ensures h in Run(s, es).handlers && Run(s, es).handlers[h] == s.handlers[h]
    decreases |es|
  {
    hide Step;
    hide Enabled;
    hide Spares;
    if es != [] {
      SparedStep(s, es[0], h);
      assert AllSpare(es[1..], h) by {
        assert forall i :: 0 <= i < |es[1..]| ==> es[1..][i] == es[i + 1];
      }
      SparedRun(Step(s, es[0]), es[1..], h);
    }
  }

  /** An inbound message meets the request callers first, whatever happens before its lookup. */
  lemma InboundMeetsRequestsFirst(s: State, h: HandlerId, msg: Message, es: seq<Event>)
    requires Enabled(s, Inbound(h, msg)) && LegalRun(Step(s, Inbound(h, msg)), es) && AllSpare(es, h)
    ensures var e := Run(Step(s, Inbound(h, msg)), es);
            h in e.handlers && e.handlers[h] == AtRequest(msg) && Enabled(e, LookupRequest(h))
  {
    hide Run;
    hide LegalRun;
    hide AllSpare;
    SparedRun(Step(s, Inbound(h, msg)), es, h);
  }

  /** The message is in the channel, or another one already is. */
  predicate Reaches(e: State, f: State, ch: Channel, msg: Message, at: nat) {
    ch in e.slots && ch in f.slots && f.slots[ch] == if Holds(e, ch) then e.slots[ch] else Some(Entry(msg, at))
  }

  /** From the lookup that finds c's channel to the send, whatever runs between them: if c still waits,
      the send puts the message in its channel or finds another reply there. */
  lemma OfferReaches(t: State, es: seq<Event>, h: HandlerId, c: CallId, msg: Message, at: nat)
    requires Inv(t) && LegalRun(t, es) && AllSpare(es, h) && c in t.calls && t.calls[c].Call?
    requires h in t.handlers
    requires t.handlers[h] == OfferRequest(msg, t.calls[c].ch, at)
             || t.handlers[h] == OfferStream(msg, t.calls[c].ch, at)
    ensures var e := Run(t, es);
            && Enabled(e, Offer(h))
            && (IsCall(e, c, Waiting) ==> Reaches(e, Step(e, Offer(h)), t.calls[c].ch, msg, at))
  {
    SparedRun(t, es, h);
    RunKeepsInv(t, es);
    AtMostOneReply(t, es, c);
    var e := Run(t, es);
    hide Run;
    hide LegalRun;
    if IsCall(e, c, Waiting) {
      assert CallOk(e, c);
    }
  }

  /** No reply is lost to a race. A reply with the id of a waiting request caller, once looked up, reaches
      that caller if it still waits when the send comes, whatever happens in between. */
  lemma RoutedToTheWaiter(s: State, h: HandlerId, c: CallId, es: seq<Event>)
    requires Inv(s) && IsCall(s, c, Waiting) && s.calls[c].table == ByRequest
    requires h in s.handlers && s.handlers[h].AtRequest?
    requires s.handlers[h].msg.requestId == s.calls[c].rid && IsFor(ByRequest, s.handlers[h].msg)
    requires LegalRun(Step(s, LookupRequest(h)), es) && AllSpare(es, h)
    ensures var e := Run(Step(s, LookupRequest(h)), es);
            && Enabled(e, Offer(h))
            && (IsCall(e, c, Waiting) ==>
                  Reaches(e, Step(e, Offer(h)), s.calls[c].ch, s.handlers[h].msg, s.clock))
  {
    hide Run;
    hide LegalRun;
    hide AllSpare;
    hide Reaches;
    assert CallOk(s, c);
    StepKeepsInv(s, LookupRequest(h));
    OfferReaches(Step(s, LookupRequest(h)), es, h, c, s.handlers[h].msg, s.clock);
  }

  /** The same for a caller of start_stream or stop_stream, from the moment the message has passed the
      request callers. */
  lemma RoutedToTheStreamWaiter(s: State, h: HandlerId, c: CallId, es: seq<Event>)
    requires Inv(s) && IsCall(s, c, Waiting) && s.calls[c].table == ByStream
    requires h in s.handlers && s.handlers[h].AtStream?
    requires s.handlers[h].msg.requestId == s.calls[c].rid && IsFor(ByStream, s.handlers[h].msg)
    requires LegalRun(Step(s, LookupStream(h)), es) && AllSpare(es, h)
    ensures var e := Run(Step(s, LookupStream(h)), es);
            && Enabled(e, Offer(h))
            && (IsCall(e, c, Waiting) ==>
                  Reaches(e, Step(e, Offer(h)), s.calls[c].ch, s.handlers[h].msg, s.clock))
  {
    hide Run;
    hide LegalRun;
    hide AllSpare;
    hide Reaches;
    assert CallOk(s, c);
    StepKeepsInv(s, LookupStream(h));
    OfferReaches(Step(s, LookupStream(h)), es, h, c, s.handlers[h].msg, s.clock);
  }

  /** The run has no receive of the caller's. */
  predicate NoReceive(es: seq<Event>, c: CallId) {
    forall i :: 0 <= i < |es| ==> es[i] != Receive(c)
  }

  lemma FullStaysFull(s: State, e: Event, c: CallId)
    requires Inv(s) && Enabled(s, e) && e != Receive(c) && c in s.calls && s.calls[c].Call? && Holds(s, s.calls[c].ch)
    ensures var ch := s.calls[c].ch; ch in Step(s, e).slots && Step(s, e).slots[ch] == s.slots[ch]
  {
    assert CallOk(s, c);
    if e.Receive? { assert CallOk(s, e.call); }
    hide CallOk;
  }

  /** What is in a waiting caller's channel is what it receives, however long it takes and whatever happens
      before: its channel keeps the message until the caller itself takes it. */
  lemma {:induction false} WaiterReceives(s: State, es: seq<Event>, c: CallId)
    requires Inv(s) && LegalRun(s, es) && NoReceive(es, c)
    requires c in s.calls && s.calls[c].Call? && Holds(s, s.calls[c].ch)
    ensures var e := Run(s, es);
            && c in e.calls && e.calls[c].Call? && e.calls[c].ch == s.calls[c].ch && Holds(e, s.calls[c].ch)
            && e.slots[s.calls[c].ch] == s.slots[s.calls[c].ch]
            && (IsCall(e, c, Waiting) ==>
                  Enabled(e, Receive(c))
                  && var f := Step(e, Receive(c));
                     f.calls[c] == e.calls[c].(progress := Leaving, got := s.slots[s.calls[c].ch])
                     && f.slots == e.slots[s.calls[c].ch := None])
    decreases |es|
  {
    if es == [] {
      hide Inv;
    } else {
      StepAdvances(s, es[0], c);
      FullStaysFull(s, es[0], c);
      StepKeepsInv(s, es[0]);
      hide Inv;
      hide Step;
      hide Enabled;
      assert NoReceive(es[1..], c) by {
        assert forall i :: 0 <= i < |es[1..]| ==> es[1..][i] == es[i + 1];
      }
      WaiterReceives(Step(s, es[0]), es[1..], c);
    }
  }

  /** And a message passes the request callers exactly when none of them is registered under its id at
      the lookup, or the one that is has its channel full when the send comes; otherwise that caller's
      channel takes it. */
  lemma PassesRequestCallersIff(s: State, h: HandlerId, es: seq<Event>)
    requires Inv(s) && h in s.handlers && s.handlers[h].AtRequest?
    requires LegalRun(Step(s, LookupRequest(h)), es) && AllSpare(es, h)
    ensures var msg := s.handlers[h].msg; var rid := msg.requestId; var e := Run(Step(s, LookupRequest(h)), es);
            if !IsFor(ByRequest, msg) || rid == NO_ID || rid !in s.pending
            then h in e.handlers && e.handlers[h] == AtStream(msg)
            else
              && Enabled(e, Offer(h))
              && var f := Step(e, Offer(h)); var ch := s.pending[rid];
                 if Holds(e, ch) then h in f.handlers && f.handlers[h] == AtStream(msg) && f.slots == e.slots
                 else h !in f.handlers && f.slots == e.slots[ch := Some(Entry(msg, s.clock))]
  {
    hide Run;
    hide LegalRun;
    hide AllSpare;
    hide Inv;
    SparedRun(Step(s, LookupRequest(h)), es, h);
  }

  /** And at the stream callers a message ends: dropped when none of them is registered under its id at the
      lookup, or when the one that is has its channel full at the send; otherwise in that caller's channel. */
  lemma StreamCallersAreLast(s: State, h: HandlerId, es: seq<Event>)
    requires Inv(s) && h in s.handlers && s.handlers[h].AtStream?
    ensures var msg := s.handlers[h].msg; var t := Step(s, LookupStream(h));
            if !IsFor(ByStream, msg) || msg.requestId == NO_ID || msg.requestId !in s.streamCh
            then h !in t.handlers && t.slots == s.slots
            else LegalRun(t, es) && AllSpare(es, h) ==>
              var e := Run(t, es);
              && Enabled(e, Offer(h))
              && var f := Step(e, Offer(h)); var ch := s.streamCh[msg.requestId];
                 && h !in f.handlers
                 && f.slots == if Holds(e, ch) then e.slots else e.slots[ch := Some(Entry(msg, s.clock))]
  {
    hide Run;
    hide LegalRun;
    hide AllSpare;
    hide Inv;
    var t := Step(s, LookupStream(h));
    if h in t.handlers && LegalRun(t, es) && AllSpare(es, h) {
      SparedRun(t, es, h);
    }
  }
}
