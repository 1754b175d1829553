/** server/internal/control/session_manager.go: the manager's maps. Each method is one critical
    section or one channel operation of the source; the ghost fields record who is between which. */
module SessionManager {
  import opened Wrappers
  import Sessions
  import opened Correlation

  class SessionManager {
    var sessions: map<Sessions.Device, Sessions.SessionId>
    var pending: map<RequestId, Channel>
    var streamCh: map<RequestId, Channel>
    var slots: map<Channel, Option<Message>>  // the one-message buffer of each reply channel

    ghost var history: seq<Sessions.Event>
    ghost var entries: map<Channel, Option<Entry>>  // the same buffers, with when each message was routed
    ghost var owner: map<Channel, CallId>
    ghost var calls: map<CallId, Call>
    ghost var handlers: map<HandlerId, Handling>
    ghost var clock: nat

    ghost predicate Valid()
      reads this
    {
      sessions == Sessions.After(history) && Buffers()
    }

    ghost predicate Buffers()
      reads this`slots, this`entries
    {
      && slots.Keys == entries.Keys
      && forall ch :: ch in slots ==> slots[ch] == if entries[ch].None? then None else Some(entries[ch].value.msg)
    }

    ghost function Abs(): State
      reads this
    {
      State(pending, streamCh, entries, owner, calls, handlers, clock)
    }

    constructor ()
      ensures Valid() && history == [] && Abs() == INITIAL
    {
      sessions, pending, streamCh, slots := map[], map[], map[], map[];
      history, entries, owner, calls, handlers, clock := [], map[], map[], map[], map[], 0;
    }

    // ---- Sessions ---------------------------------------------------------------------------------

    method OnReady(device: Sessions.Device, s: Sessions.SessionId)
      requires Valid()
      modifies this`sessions, this`history
      ensures Valid() && history == old(history) + [Sessions.Ready(device, s)]
    {
      history := history + [Sessions.Ready(device, s)];
      assert history[..|history| - 1] == old(history);
      if device != 0 {
        sessions := sessions[device := s];
      }
    }

    method Unregister(device: Sessions.Device)
      requires Valid()
      modifies this`sessions, this`history
      ensures Valid() && history == old(history) + [Sessions.Evict(device)]
    {
      history := history + [Sessions.Evict(device)];
      assert history[..|history| - 1] == old(history);
      sessions := sessions - {device};
    }

    method UnregisterIf(device: Sessions.Device, s: Sessions.SessionId) returns (ok: bool)
      requires Valid()
      modifies this`sessions, this`history
      ensures Valid() && history == old(history) + [Sessions.Close(device, s)]
      ensures ok <==> exists i :: Sessions.ReadySince(old(history), device, s, i)
    {
      Sessions.UnregistersIffMostRecent(history, device, s);
      history := history + [Sessions.Close(device, s)];
      assert history[..|history| - 1] == old(history);
      if device in sessions && sessions[device] == s {
        sessions := sessions - {device};
        return true;
      }
      return false;
    }

    // ---- Callers: SendSetConfig, SendGetStatus, SendStartStream, SendStopStream ---------------------

    method MakeChannel(made: Channel)
      requires Buffers()
      modifies this`slots, this`entries
      ensures Buffers() && entries == old(entries)[made := None]
    {
      slots := slots[made := None];
      entries := entries[made := None];
    }

    method Enter(t: Table, rid: RequestId, ch: Channel)
      modifies this`pending, this`streamCh
      ensures pending == if t == ByRequest then old(pending)[rid := ch] else old(pending)
      ensures streamCh == if t == ByStream then old(streamCh)[rid := ch] else old(streamCh)
    {
      if t == ByRequest { pending := pending[rid := ch]; } else { streamCh := streamCh[rid := ch]; }
    }

    method Admit(c: CallId, t: Table, rid: RequestId, made: Channel)
      requires Valid() && Enabled(Abs(), Event.Register(c, t, rid, made)) && rid !in TableOf(Abs(), t)
      modifies this`pending, this`streamCh, this`slots, this`entries, this`owner, this`calls, this`clock
      ensures Valid() && Abs() == Step(old(Abs()), Event.Register(c, t, rid, made))
    {
      hide Buffers;
      hide Sessions.After;
      hide AfterReceive;
      hide AfterUnregister;
      hide AfterLookupRequest;
      hide AfterLookupStream;
      hide AfterOffer;
      MakeChannel(made);
      Enter(t, rid, made);
      owner := owner[made := c];
      calls := calls[c := Call.Call(t, rid, made, clock, Waiting, None)];
      clock := clock + 1;
    }

    /** Refuse a duplicate, or make a channel and register it. */
    method Register(c: CallId, t: Table, rid: RequestId, made: Channel) returns (ok: bool)
      requires Valid() && Enabled(Abs(), Event.Register(c, t, rid, made))
      modifies this`pending, this`streamCh, this`slots, this`entries, this`owner, this`calls, this`clock
      ensures Valid() && Abs() == Step(old(Abs()), Event.Register(c, t, rid, made))
      ensures ok <==> rid !in old(TableOf(Abs(), t))
    {
      ok := rid !in (if t == ByRequest then pending else streamCh);
      if ok {
        Admit(c, t, rid, made);
      } else {
        calls := calls[c := Refused];
        clock := clock + 1;
      }
    }

    /** The select's receive case. */
    method Receive(c: CallId, ch: Channel) returns (msg: Message)
      requires Valid() && Enabled(Abs(), Event.Receive(c)) && calls[c].ch == ch
      modifies this`slots, this`entries, this`calls, this`clock
      ensures Valid() && Abs() == Step(old(Abs()), Event.Receive(c))
      ensures calls[c].got.Some? && calls[c].got.value.msg == msg
    {
      msg := slots[ch].value;
      calls := calls[c := calls[c].(progress := Leaving, got := entries[ch])];
      slots := slots[ch := None];
      entries := entries[ch := None];
      clock := clock + 1;
    }

    /** Send failed, or the context ended first. */
    method GiveUp(c: CallId)
      requires Valid() && Enabled(Abs(), Event.GiveUp(c))
      modifies this`calls, this`clock
      ensures Valid() && Abs() == Step(old(Abs()), Event.GiveUp(c))
    {
      calls := calls[c := calls[c].(progress := Leaving)];
      clock := clock + 1;
    }

    /** The deferred delete. */
    method Deregister(c: CallId, t: Table, rid: RequestId)
      requires Valid() && Enabled(Abs(), Event.Unregister(c)) && calls[c].table == t && calls[c].rid == rid
      modifies this`pending, this`streamCh, this`calls, this`clock
      ensures Valid() && Abs() == Step(old(Abs()), Event.Unregister(c))
    {
      if t == ByRequest { pending := pending - {rid}; } else { streamCh := streamCh - {rid}; }
      calls := calls[c := calls[c].(progress := Returned)];
      clock := clock + 1;
    }

    // ---- Handlers: deliverRequest, then deliverStream -----------------------------------------------

    method LookupRequest(h: HandlerId, msg: Message) returns (ch: Option<Channel>)
      requires Valid() && Enabled(Abs(), Event.LookupRequest(h)) && handlers[h].msg == msg
      modifies this`handlers, this`clock
      ensures Valid() && Abs() == Step(old(Abs()), Event.LookupRequest(h))
      ensures ch.Some? ==> handlers[h] == OfferRequest(msg, ch.value, old(clock))
    {
      var rid := RequestIdOf(msg);
      ch := None;
      if rid != NO_ID && rid in pending {
        ch := Some(pending[rid]);
        handlers := handlers[h := OfferRequest(msg, pending[rid], clock)];
      } else {
        handlers := handlers[h := AtStream(msg)];
      }
      clock := clock + 1;
    }

    method LookupStream(h: HandlerId, msg: Message) returns (ch: Option<Channel>)
      requires Valid() && Enabled(Abs(), Event.LookupStream(h)) && handlers[h].msg == msg
      modifies this`handlers, this`clock
      ensures Valid() && Abs() == Step(old(Abs()), Event.LookupStream(h))
      ensures ch.Some? ==> h in handlers && handlers[h] == OfferStream(msg, ch.value, old(clock))
    {
      var rid := StreamRequestIdOf(msg);
      ch := None;
      if rid != NO_ID && rid in streamCh {
        ch := Some(streamCh[rid]);
        handlers := handlers[h := OfferStream(msg, streamCh[rid], clock)];
      } else {
        handlers := handlers - {h};
      }
      clock := clock + 1;
    }

    /** The non-blocking send outside the lock; routed says whether the channel took the message. */
    method Offer(h: HandlerId, ch: Channel, msg: Message) returns (routed: bool)
      requires Valid() && Enabled(Abs(), Event.Offer(h)) && handlers[h].ch == ch && handlers[h].msg == msg
      requires ch in slots
      modifies this`slots, this`entries, this`handlers, this`clock
      ensures Valid() && Abs() == Step(old(Abs()), Event.Offer(h))
      ensures routed <==> old(slots[ch]).None?
    {
      routed := slots[ch].None?;
      if routed {
        slots := slots[ch := Some(msg)];
        entries := entries[ch := Some(Entry(msg, handlers[h].at))];
      }
      handlers := if !routed && handlers[h].OfferRequest? then handlers[h := AtStream(msg)] else handlers - {h};
      clock := clock + 1;
    }
  }
}
