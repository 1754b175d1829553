/** server/internal/server/server.go as it keeps its state: the stream registry, a map of stream
    objects, and the receiver's bindings. Every method is proved to be one step of StreamServer. */
module Server {
  import opened Wrappers
  import opened StreamLifecycle
  import opened StreamServer

  class Server {
    var streams: map<Id, Stream>
    var bound: set<Id>

    ghost var all: map<Id, Stream>
    ghost var objects: set<Stream>
    ghost var replacing: multiset<Device>
    ghost var starting: set<Id>
    ghost var stopping: set<Id>

    ghost predicate Valid()
      reads this
    {
      && (forall id :: id in streams ==> id in all && all[id] == streams[id])
      && (forall id :: id in all ==> all[id] in objects && all[id].id == id)
    }

    ghost function Abs(): State
      requires Valid()
      reads this, objects
    {
      State(map id | id in all :: all[id].Rec(), streams.Keys, bound, replacing, starting, stopping)
    }

    constructor ()
      ensures Valid() && Abs() == INITIAL
    {
      streams, bound := map[], {};
      all, objects, replacing, starting, stopping := map[], {}, multiset{}, {}, {};
    }

    /** Some listed stream of the device, if there is one; which one is up to the map's order. */
    method GetByDevice(d: Device) returns (found: Option<Stream>)
      requires Valid()
      ensures found.Some? ==> found.value.id in streams && streams[found.value.id] == found.value
                              && found.value.device == d && Listed(found.value.Rec())
      ensures found.None? ==> forall id :: id in streams ==> !(streams[id].device == d && Listed(streams[id].Rec()))
    {
      var left := streams.Keys;
      while left != {}
        invariant left <= streams.Keys
        invariant forall id :: id in streams && id !in left ==> !(streams[id].device == d && Listed(streams[id].Rec()))
      {
        var id :| id in left;
        var st := streams[id];
        if st.device == d {
          match st.phase
          case ACTIVE | RTP_WAIT | STARTING | CREATED | STOPPING => return Some(st);
          case _ =>
        }
        left := left - {id};
      }
      return None;
    }

    method CloseStream(id: Id)
      modifies this`bound
      ensures bound == old(bound) - {id}
    {
      bound := bound - {id};
    }

    method Remove(id: Id)
      modifies this`streams
      ensures streams == old(streams) - {id}
    {
      streams := streams - {id};
    }

    method CloseAndRemove(id: Id)
      modifies this`bound, this`streams
      ensures bound == old(bound) - {id} && streams == old(streams) - {id}
    {
      CloseStream(id);
      Remove(id);
    }

    /** StartStream up to freeing the device's earlier stream. */
    method StartReplace(d: Device) returns (ghost existing: Option<Id>)
      requires Valid()
      modifies this, objects
      ensures Valid() && all == old(all) && objects == old(objects)
      ensures Enabled(old(Abs()), Event.StartReplace(d, existing))
      ensures Abs() == Step(old(Abs()), Event.StartReplace(d, existing))
    {
      hide Apply;
      hide Accepts;
      hide Listed;
      existing := None;
      var found := GetByDevice(d);
      if found.Some? {
        var st := found.value;
        existing := Some(st.id);
        st.ForceComplete();
        CloseStream(st.id);
        Remove(st.id);
      }
      replacing := replacing + multiset{d};
    }

    static method NewStarting(id: Id, d: Device, cfg: TimeoutConfig, now: int) returns (made: Stream)
      ensures fresh(made) && made.id == id && made.Rec() == StartingRecord(d, cfg, now)
    {
      made := new Stream(id, d, now, cfg);
      var started := made.Start(now);
      var sent := made.DeviceCommandSent();
    }

    /** Bind and Registry.Add. */
    method Register(made: Stream)
      requires Valid() && made.id !in all
      modifies this`bound, this`streams, this`all, this`objects, this`starting
      ensures Valid() && all == old(all)[made.id := made] && objects == old(objects) + {made}
      ensures streams.Keys == old(streams).Keys + {made.id} && bound == old(bound) + {made.id}
      ensures starting == old(starting) + {made.id}
    {
      bound := bound + {made.id};
      streams := streams[made.id := made];
      all, objects := all[made.id := made], objects + {made};
      starting := starting + {made.id};
    }

    /** StartStream from binding to the start_stream command; bindOk is whether the socket opened. */
    method StartBind(d: Device, id: Id, cfg: TimeoutConfig, now: int, bindOk: bool) returns (st: Option<Stream>)
      requires Valid() && Enabled(Abs(), Event.StartBind(d, id, cfg, now, bindOk))
      modifies this
      ensures Valid() && st.Some? == bindOk && (bindOk ==> id in all && all[id] == st.value)
      ensures fresh(objects - old(objects))
      ensures Abs() == Step(old(Abs()), Event.StartBind(d, id, cfg, now, bindOk))
    {
      hide StartingRecord;
      hide Step;
      ghost var before := Abs();
      if !bindOk {
        FailedBindStep(before, d, id, cfg, now);
        replacing := replacing - multiset{d};
        return None;
      }
      var made := NewStarting(id, d, cfg, now);
      Register(made);
      replacing := replacing - multiset{d};
      BindStep(before, Abs(), d, id, cfg, now);
      return Some(made);
    }

    /** SendStartStream returned an error. */
    method OnSendFailed(st: Stream, now: int)
      requires Valid() && st.id in all && all[st.id] == st && st.id in starting
      modifies this`starting, this`bound, this`streams
      ensures Valid() && Abs() == Step(old(Abs()), Event.StartReply(st.id, SendFailed, now))
    {
      hide Step;
      ghost var before := Abs();
      starting := starting - {st.id};
      CloseAndRemove(st.id);
      ReplyStep(before, Abs(), st.id, SendFailed, now);
    }

    /** The device answered with an error or with something unexpected. */
    method OnRefused(st: Stream, now: int)
      requires Valid() && st.id in all && all[st.id] == st && st.id in starting
      modifies this`starting, this`bound, this`streams, st
      ensures Valid() && Abs() == Step(old(Abs()), Event.StartReply(st.id, Refused, now))
    {
      hide Apply;
      hide Accepts;
      hide Step;
      ghost var before := Abs();
      starting := starting - {st.id};
      var rejected := st.DeviceRejected(StartRejected);
      CloseAndRemove(st.id);
      ReplyStep(before, Abs(), st.id, Refused, now);
    }

    /** The device answered stream_started; ok is whether the stream is still bound. */
    method OnStarted(st: Stream, now: int) returns (ok: bool)
      requires Valid() && st.id in all && all[st.id] == st && st.id in starting
      modifies this`starting, this`bound, this`streams, st
      ensures Valid() && Abs() == Step(old(Abs()), Event.StartReply(st.id, Started, now))
      ensures ok <==> st.id in old(bound)
    {
      hide Apply;
      hide Accepts;
      hide Step;
      ghost var before := Abs();
      starting := starting - {st.id};
      var waiting := st.StreamStarted(now);
      ok := st.id in bound;
      if !ok {
        CloseAndRemove(st.id);
      }
      ReplyStep(before, Abs(), st.id, Started, now);
    }

    /** StartStream after the reply; ok is whether it reports success. */
    method StartReply(st: Stream, reply: Reply, now: int) returns (ok: bool)
      requires Valid() && st.id in all && all[st.id] == st && st.id in starting
      modifies this`starting, this`bound, this`streams, st
      ensures Valid() && Abs() == Step(old(Abs()), Event.StartReply(st.id, reply, now))
      ensures ok <==> reply == Started && st.id in old(bound)
    {
      hide Step;
      hide Valid;
      match reply
      case SendFailed =>
        OnSendFailed(st, now);
        return false;
      case Refused =>
        OnRefused(st, now);
        return false;
      case Started =>
        ok := OnStarted(st, now);
    }

    /** StopStream up to sending stop_stream; none when the stream is unknown or not ACTIVE. */
    method StopBegin(id: Id) returns (st: Option<Stream>)
      requires Valid()
      modifies this, objects
      ensures Valid() && all == old(all) && objects == old(objects) && Abs() == Step(old(Abs()), Event.StopBegin(id))
      ensures st.Some? <==> id in old(streams) && old(streams[id].phase) == ACTIVE
      ensures st.Some? ==> st.value == old(streams[id]) && id in stopping
    {
      hide Apply;
      hide Accepts;
      hide Step;
      ghost var before := Abs();
      if id !in streams || streams[id].phase != ACTIVE {
        StopBeginStep(before, Abs(), id);
        return None;
      }
      var requested := streams[id].StopRequested();
      stopping := stopping + {id};
      StopBeginStep(before, Abs(), id);
      return Some(streams[id]);
    }

    /** StopStream after the reply, whatever it was. */
    method StopReply(st: Stream)
      requires Valid() && st.id in all && all[st.id] == st && st.id in stopping
      modifies this, st
      ensures Valid() && all == old(all) && objects == old(objects) && Abs() == Step(old(Abs()), Event.StopReply(st.id))
    {
      hide Apply;
      hide Accepts;
      stopping := stopping - {st.id};
      CloseStream(st.id);
      var stopped := st.Stopped();
    }

    /** The liveness callback of the receive path. */
    method OnPacket(id: Id, now: int)
      requires Valid()
      modifies objects
      ensures Valid() && Abs() == Step(old(Abs()), PacketIn(id, now))
    {
      if id !in streams {
        return;
      }
      var st := streams[id];
      if st.phase == RTP_WAIT {
        var first := st.FirstPacket(now);
      } else {
        st.Packet(now);
      }
    }

    /** Close and remove every listed id. */
    method Cleanup(ids: set<Id>)
      modifies this`bound, this`streams
      ensures bound == old(bound) - ids && streams == old(streams) - ids
    {
      var left := ids;
      while left != {}
        invariant left <= ids && bound == old(bound) - (ids - left) && streams == old(streams) - (ids - left)
      {
        var id :| id in left;
        CloseStream(id);
        Remove(id);
        left := left - {id};
      }
    }

    /** The monitor's look at one stream. */
    static method ExpireOne(st: Stream, now: int) returns (gone: bool)
      modifies st
      ensures st.Rec() == Expire(old(st.Rec()), now) && gone == TimedOut(old(st.Rec()), now)
    {
      hide Apply;
      hide Accepts;
      var waited := st.RTPWaitTimedOut(now);
      var disappeared := st.RTPDisappeared(now);
      if waited {
        var failed := st.RTPWaitTimeout();
      } else if disappeared {
        var failed := st.RTPTimeout();
      }
      return waited || disappeared;
    }

    /** One pass of the monitor over the registry, in any order. */
    method MarkExpired(now: int) returns (toCleanup: set<Id>)
      requires Valid()
      modifies objects
      ensures toCleanup == set id | id in streams && TimedOut(old(streams[id].Rec()), now)
      ensures forall id :: id in all ==>
                             all[id].Rec() ==
                                if id in streams then Expire(old(all[id].Rec()), now) else old(all[id].Rec())
    {
      hide Expire;
      hide TimedOut;
      var left := streams.Keys;
      toCleanup := {};
      while left != {}
        invariant left <= streams.Keys
        invariant forall id :: id in all ==>
                                 all[id].Rec() == if id in streams && id !in left then Expire(old(all[id].Rec()), now)
                                                  else old(all[id].Rec())
        invariant toCleanup == set id | id in streams && id !in left && TimedOut(old(streams[id].Rec()), now)
      {
        var id :| id in left;
        var st := streams[id];
        var gone := ExpireOne(st, now);
        if gone {
          toCleanup := toCleanup + {id};
        }
        left := left - {id};
      }
    }

    method MonitorTick(now: int)
      requires Valid()
      modifies this`bound, this`streams, objects
      ensures Valid() && Abs() == Step(old(Abs()), Event.MonitorTick(now))
    {
      hide Apply;
      hide Expire;
      hide TimedOut;
      hide Step;
      ghost var before := Abs();
      var toCleanup := MarkExpired(now);
      Cleanup(toCleanup);
      TickStep(before, Abs(), now, toCleanup);
    }

    method MarkDisconnected(d: Device) returns (toCleanup: set<Id>)
      requires Valid()
      modifies objects
      ensures toCleanup == set id | id in streams && streams[id].device == d && old(streams[id].phase) == ACTIVE
      ensures forall id :: id in all ==>
                             all[id].Rec() == if id in toCleanup then Apply(old(all[id].Rec()), DeviceDisconnected)
                                              else old(all[id].Rec())
    {
      hide Apply;
      hide Accepts;
      var left := streams.Keys;
      toCleanup := {};
      while left != {}
        invariant left <= streams.Keys
        invariant forall id :: id in all ==>
                                 all[id].Rec() == if id in toCleanup then Apply(old(all[id].Rec()), DeviceDisconnected)
                                                  else old(all[id].Rec())
        invariant toCleanup == set id | id in streams && id !in left && streams[id].device == d
                                        && old(streams[id].phase) == ACTIVE
      {
        var id :| id in left;
        var st := streams[id];
        assert st.Rec() == old(st.Rec());
        if st.device == d && st.phase == ACTIVE {
          var failed := st.DeviceDisconnected();
          toCleanup := toCleanup + {id};
        }
        left := left - {id};
      }
    }

    /** The device's control session has ended: its ACTIVE streams fail. */
    method OnDeviceDisconnect(d: Device)
      requires Valid()
      modifies this`bound, this`streams, objects
      ensures Valid() && Abs() == Step(old(Abs()), Disconnect(d))
    {
      hide Apply;
      hide Accepts;
      hide Step;
      ghost var before := Abs();
      var toCleanup := MarkDisconnected(d);
      Cleanup(toCleanup);
      DisconnectStep(before, Abs(), d, toCleanup);
    }
  }
}
