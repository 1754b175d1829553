/** server/internal/control/session_manager.go: which control session is a device's live one, over
    every history of sessions becoming ready and closing. */
module Sessions {
  type Device = nat   // 0 is the empty device id
  type SessionId = nat

  datatype Event =
    | Ready(device: Device, session: SessionId)   // OnReady
    | Close(device: Device, session: SessionId)   // UnregisterIf
    | Evict(device: Device)                       // Unregister

  /** The sessions map after a history, oldest event first. */
  function After(h: seq<Event>): map<Device, SessionId>
    decreases |h|
  {
    if h == [] then map[]
    else
      var m := After(h[..|h| - 1]);
      match h[|h| - 1]
      case Ready(d, s) => if d != 0 then m[d := s] else m
      case Close(d, s) => if d in m && m[d] == s then m - {d} else m
      case Evict(d) => m - {d}
  }

  /** What UnregisterIf(d, s) answers after the history. */
  predicate Unregisters(h: seq<Event>, d: Device, s: SessionId) {
    d in After(h) && After(h)[d] == s
  }

  /** The i-th event made s the device's session, and since then no session of the device became
      ready, s was not closed, and the device was not evicted. */
  ghost predicate ReadySince(h: seq<Event>, d: Device, s: SessionId, i: nat) {
    && i < |h| && d != 0 && h[i] == Ready(d, s)
    && forall j :: i < j < |h| ==> Leaves(h[j], d, s)
  }

  predicate Leaves(e: Event, d: Device, s: SessionId) {
    !(e.Ready? && e.device == d) && e != Close(d, s) && e != Evict(d)
  }

  /** UnregisterIf succeeds exactly for the most recently ready session of the device, and only while
      it has not been closed or evicted: a stale session's close finds nothing. */
  lemma {:induction false} UnregistersIffMostRecent(h: seq<Event>, d: Device, s: SessionId)
    ensures Unregisters(h, d, s) <==> exists i :: ReadySince(h, d, s, i)
    decreases |h|
  {
    if h != [] {
      var n := |h| - 1;
      var before, e := h[..n], h[n];
      UnregistersIffMostRecent(before, d, s);
      if Unregisters(h, d, s) {
        if Unregisters(before, d, s) && Leaves(e, d, s) {
          var i :| ReadySince(before, d, s, i);
          assert ReadySince(h, d, s, i);
        } else {
          assert ReadySince(h, d, s, n);
        }
      }
      if i: nat :| ReadySince(h, d, s, i) {
        if i < n {
          assert Leaves(h[n], d, s);
          assert before[i] == h[i] && forall j :: i < j < n ==> before[j] == h[j];
          assert ReadySince(before, d, s, i);
        }
      }
    }
  }

  function TimesReady(h: seq<Event>, d: Device, s: SessionId): nat
    decreases |h|
  {
    if h == [] then 0 else TimesReady(h[..|h| - 1], d, s) + if h[|h| - 1] == Ready(d, s) then 1 else 0
  }

  /** How many closes of s have answered true. */
  function TimesUnregistered(h: seq<Event>, d: Device, s: SessionId): nat
    decreases |h|
  {
    if h == [] then 0
    else
      var before := h[..|h| - 1];
      TimesUnregistered(before, d, s) + if h[|h| - 1] == Close(d, s) && Unregisters(before, d, s) then 1 else 0
  }

  /** A session that became ready once is torn down at most once, however often it is closed and
      whatever else happens. */
  lemma {:induction false} AtMostOneTeardown(h: seq<Event>, d: Device, s: SessionId)
    ensures TimesUnregistered(h, d, s) + (if Unregisters(h, d, s) then 1 else 0) <= TimesReady(h, d, s)
    decreases |h|
  {
    if h != [] {
      AtMostOneTeardown(h[..|h| - 1], d, s);
    }
  }

  /** The reconnect case: a device that becomes ready on a new session keeps it when the old one
      closes, however much later. */
  lemma StaleCloseIsIgnored(h: seq<Event>, d: Device, stale: SessionId, current: SessionId)
    requires stale != current && Unregisters(h, d, current)
    ensures !Unregisters(h, d, stale) && Unregisters(h + [Close(d, stale)], d, current)
  {
    assert (h + [Close(d, stale)])[..|h|] == h;
  }
}
