/** server/internal/stream/stream.go: the lifecycle of one stream. Times are nanoseconds from any
    fixed origin; a method's error return is the flag that comes with the new record. */
module StreamLifecycle {
  datatype Phase = CREATED | WAITING_FOR_DEVICE | STARTING | RTP_WAIT | ACTIVE | STOPPING | COMPLETE | FAILED

  datatype Reason =
    NoReason | StartRejected | RtpWaitTimeout | RtpTimeout | DeviceDisc | DecodeError | ServerRestart | Replaced

  const DEFAULT_RTP_WAIT := 5_000_000_000
  const DEFAULT_RTP_DISAPPEAR := 1_000_000_000

  datatype TimeoutConfig = TimeoutConfig(rtpWait: int, rtpDisappear: int) {
    function Wait(): (t: int)
      ensures t > 0
    {
      if rtpWait > 0 then rtpWait else DEFAULT_RTP_WAIT
    }

    function Disappear(): (t: int)
      ensures t > 0
    {
      if rtpDisappear > 0 then rtpDisappear else DEFAULT_RTP_DISAPPEAR
    }
  }

  /** The value of one stream at one moment. */
  datatype Record = Record(
    device: string, phase: Phase, reason: Reason, startedAt: int,
    streamStartedAt: int, lastPacketAt: int, cfg: TimeoutConfig)

  predicate Terminal(r: Record) {
    r.phase == COMPLETE || r.phase == FAILED
  }

  /** The phases Registry.GetByDevice looks for. */
  predicate Listed(r: Record) {
    r.phase == ACTIVE || r.phase == RTP_WAIT || r.phase == STARTING || r.phase == CREATED || r.phase == STOPPING
  }

  predicate WaitTimedOut(r: Record, now: int) {
    r.phase == RTP_WAIT && now - r.streamStartedAt >= r.cfg.Wait()
  }

  predicate Disappeared(r: Record, now: int) {
    r.phase == ACTIVE && now - r.lastPacketAt >= r.cfg.Disappear()
  }

  function New(device: string, startedAt: int, cfg: TimeoutConfig): Record {
    Record(device, CREATED, NoReason, startedAt, 0, 0, cfg)
  }

  datatype Action =
    | Start(now: int)
    | DeviceCommandSent
    | DeviceRejected(why: Reason)
    | MarkServerRestartFailed
    | StreamStarted(now: int)
    | FirstPacket(now: int)
    | Packet(now: int)
    | StopRequested
    | Stopped
    | ForceComplete
    | DeviceDisconnected
    | RTPWaitTimeout
    | RTPTimeout
    | DecodeFailed

  /** The phases an action accepts. */
  predicate Accepts(p: Phase, a: Action) {
    match a
    case Start(_) => p == CREATED
    case DeviceCommandSent => p == CREATED || p == WAITING_FOR_DEVICE
    case DeviceRejected(_) => p == STARTING
    case MarkServerRestartFailed => p == CREATED || p == STARTING || p == RTP_WAIT || p == ACTIVE
    case StreamStarted(_) => p == STARTING
    case FirstPacket(_) => p == RTP_WAIT
    case Packet(_) => p == ACTIVE
    case StopRequested => p == ACTIVE
    case Stopped => p == STOPPING
    case ForceComplete => p != COMPLETE && p != FAILED
    case DeviceDisconnected => p == ACTIVE
    case RTPWaitTimeout => p == RTP_WAIT
    case RTPTimeout => p == ACTIVE
    case DecodeFailed => p == ACTIVE
  }

  function Fail(r: Record, why: Reason): Record {
    r.(phase := FAILED, reason := why)
  }

  /** The record after an action; an action not accepted changes nothing. */
  function Apply(r: Record, a: Action): Record {
    if !Accepts(r.phase, a) then r
    else
      match a
      case Start(now) => r.(phase := WAITING_FOR_DEVICE, startedAt := now)
      case DeviceCommandSent => r.(phase := STARTING)
      case DeviceRejected(why) => Fail(r, if why == NoReason then StartRejected else why)
      case MarkServerRestartFailed => Fail(r, ServerRestart)
      case StreamStarted(now) => r.(phase := RTP_WAIT, streamStartedAt := now)
      case FirstPacket(now) => r.(phase := ACTIVE, lastPacketAt := now)
      case Packet(now) => r.(lastPacketAt := now)
      case StopRequested => r.(phase := STOPPING)
      case Stopped => r.(phase := COMPLETE)
      case ForceComplete => r.(phase := COMPLETE, reason := Replaced)
      case DeviceDisconnected => Fail(r, DeviceDisc)
      case RTPWaitTimeout => Fail(r, RtpWaitTimeout)
      case RTPTimeout => Fail(r, RtpTimeout)
      case DecodeFailed => Fail(r, DecodeError)
  }

  // ---- What every sequence of actions keeps ---------------------------------------------------

  function ApplyAll(r: Record, actions: seq<Action>): Record
    decreases |actions|
  {
    if actions == [] then r else Apply(ApplyAll(r, actions[..|actions| - 1]), actions[|actions| - 1])
  }

  /** How far along a phase is. */
  function Rank(p: Phase): nat {
    match p
    case CREATED => 0
    case WAITING_FOR_DEVICE => 1
    case STARTING => 2
    case RTP_WAIT => 3
    case ACTIVE => 4
    case STOPPING => 5
    case COMPLETE => 6
    case FAILED => 6
  }

  /** How often a sequence of actions changes the phase. */
  function Changes(r: Record, actions: seq<Action>): nat
    decreases |actions|
  {
    if actions == [] then 0
    else
      var n := |actions| - 1;
      var before := ApplyAll(r, actions[..n]);
      Changes(r, actions[..n]) + if Apply(before, actions[n]).phase != before.phase then 1 else 0
  }

  /** No action sequence, legal or not, goes back: the phase only advances, each change advances
      it, so there are at most six, and a terminal record never changes again. */
  lemma {:induction false} PhasesOnlyAdvance(r: Record, actions: seq<Action>)
    ensures Changes(r, actions) <= Rank(ApplyAll(r, actions).phase) - Rank(r.phase) <= 6
    ensures ApplyAll(r, actions).device == r.device && ApplyAll(r, actions).cfg == r.cfg
    ensures Terminal(r) ==> ApplyAll(r, actions) == r
    decreases |actions|
  {
    if actions != [] {
      PhasesOnlyAdvance(r, actions[..|actions| - 1]);
    }
  }

  /** At some point a was called on the stream in one of the phases. */
  ghost predicate Happened(r: Record, actions: seq<Action>, a: Action, phases: set<Phase>) {
    exists i :: 0 <= i < |actions| && HappenedAt(r, actions, a, phases, i)
  }

  ghost predicate HappenedAt(r: Record, actions: seq<Action>, a: Action, phases: set<Phase>, i: nat)
    requires i < |actions|
  {
    actions[i] == a && ApplyAll(r, actions[..i]).phase in phases
  }

  lemma HappenedSnoc(r: Record, actions: seq<Action>, a: Action, phases: set<Phase>)
    requires actions != []
    ensures var n := |actions| - 1;
            Happened(r, actions, a, phases)
            <==> Happened(r, actions[..n], a, phases)
                 || (actions[n] == a && ApplyAll(r, actions[..n]).phase in phases)
  {
    hide ApplyAll;
    var n := |actions| - 1;
    assert forall i: nat :: i < n ==> actions[..n][..i] == actions[..i];
    if i: nat :| i < n && HappenedAt(r, actions[..n], a, phases, i) {
      assert HappenedAt(r, actions, a, phases, i);
    }
    if i: nat :| i < n && HappenedAt(r, actions, a, phases, i) {
      assert HappenedAt(r, actions[..n], a, phases, i);
    }
    if actions[n] == a && ApplyAll(r, actions[..n]).phase in phases {
      assert HappenedAt(r, actions, a, phases, n);
    }
  }

  lemma NothingHappened(r: Record)
    ensures forall a, phases :: !Happened(r, [], a, phases)
  {
  }

  /** The phases of a stream that is not over. */
  const LIVE := {CREATED, WAITING_FOR_DEVICE, STARTING, RTP_WAIT, ACTIVE, STOPPING}

  /** Over any calls on a new stream the final phase and reason tell how it ended: COMPLETE without a
      reason exactly when a stop was requested and confirmed, COMPLETE as replaced exactly when it was
      forced while live, FAILED always with a reason, and no reason before the end. */
  lemma {:induction false} ReasonTellsHowItEnded(
    device: string, startedAt: int, cfg: TimeoutConfig, actions: seq<Action>)
    ensures var s := New(device, startedAt, cfg);
            var r := ApplyAll(s, actions);
            && (!Terminal(r) ==> r.reason == NoReason) && (r.phase == FAILED ==> r.reason != NoReason)
            && (r.phase == COMPLETE ==> r.reason == NoReason || r.reason == Replaced)
            && (r.phase == COMPLETE && r.reason == NoReason <==> Happened(s, actions, Stopped, {STOPPING}))
            && (r.phase == COMPLETE && r.reason == Replaced <==> Happened(s, actions, ForceComplete, LIVE))
    decreases |actions|
  {
    hide Happened;
    var s := New(device, startedAt, cfg);
    if actions == [] {
      NothingHappened(s);
    } else {
      var n := |actions| - 1;
      ReasonTellsHowItEnded(device, startedAt, cfg, actions[..n]);
      HappenedSnoc(s, actions, Stopped, {STOPPING});
      HappenedSnoc(s, actions, ForceComplete, LIVE);
    }
  }

  /** Something happened for which a stream fails with this reason. */
  ghost predicate FailedFor(s: Record, actions: seq<Action>, why: Reason) {
    match why
    case NoReason => false
    case StartRejected =>
      Happened(s, actions, DeviceRejected(StartRejected), {STARTING})
      || Happened(s, actions, DeviceRejected(NoReason), {STARTING})
    case _ => Happened(s, actions, DeviceRejected(why), {STARTING}) || FailedBy(s, actions, why)
  }

  ghost predicate FailedBy(s: Record, actions: seq<Action>, why: Reason) {
    match why
    case RtpWaitTimeout => Happened(s, actions, RTPWaitTimeout, {RTP_WAIT})
    case RtpTimeout => Happened(s, actions, RTPTimeout, {ACTIVE})
    case DeviceDisc => Happened(s, actions, DeviceDisconnected, {ACTIVE})
    case DecodeError => Happened(s, actions, DecodeFailed, {ACTIVE})
    case ServerRestart => Happened(s, actions, MarkServerRestartFailed, {CREATED, STARTING, RTP_WAIT, ACTIVE})
    case _ => false
  }

  lemma FailedSnoc(s: Record, actions: seq<Action>, why: Reason)
    requires actions != []
    ensures var n := |actions| - 1; var r, a := ApplyAll(s, actions[..n]), actions[n];
            FailedFor(s, actions, why) <==>
            FailedFor(s, actions[..n], why)
            || (!Terminal(r) && Apply(r, a).phase == FAILED && Apply(r, a).reason == why)
  {
    hide Happened;
    hide ApplyAll;
    HappenedSnoc(s, actions, DeviceRejected(why), {STARTING});
    HappenedSnoc(s, actions, DeviceRejected(NoReason), {STARTING});
    HappenedSnoc(s, actions, RTPWaitTimeout, {RTP_WAIT});
    HappenedSnoc(s, actions, RTPTimeout, {ACTIVE});
    HappenedSnoc(s, actions, DeviceDisconnected, {ACTIVE});
    HappenedSnoc(s, actions, DecodeFailed, {ACTIVE});
    HappenedSnoc(s, actions, MarkServerRestartFailed, {CREATED, STARTING, RTP_WAIT, ACTIVE});
  }

  /** And which failure it was: a stream has failed with a reason exactly when what that reason stands for
      happened to it in a phase that has it, or the device rejected the start with that reason. */
  lemma {:induction false} FailureTellsWhy(
    device: string, startedAt: int, cfg: TimeoutConfig, actions: seq<Action>, why: Reason)
    ensures var s := New(device, startedAt, cfg);
            var r := ApplyAll(s, actions);
            r.phase == FAILED && r.reason == why <==> FailedFor(s, actions, why)
    decreases |actions|
  {
    hide Happened;
    hide Apply;
    var s := New(device, startedAt, cfg);
    if actions == [] {
      NothingHappened(s);
    } else {
      var n := |actions| - 1;
      FailureTellsWhy(device, startedAt, cfg, actions[..n], why);
      FailedSnoc(s, actions, why);
      OverStaysOver(ApplyAll(s, actions[..n]), actions[n]);
    }
  }

  lemma OverStaysOver(r: Record, a: Action)
    ensures Terminal(r) ==> Apply(r, a) == r
  {
  }

  // ---- How a live phase is reached and kept -----------------------------------------------------

  /** The call that takes a stream from one phase to the next. */
  predicate Enters(p: Phase, from: Phase, a: Action) {
    match p
    case WAITING_FOR_DEVICE => a.Start? && from == CREATED
    case STARTING => a.DeviceCommandSent? && (from == CREATED || from == WAITING_FOR_DEVICE)
    case RTP_WAIT => a.StreamStarted? && from == STARTING
    case ACTIVE => a.FirstPacket? && from == RTP_WAIT
    case STOPPING => a.StopRequested? && from == ACTIVE
    case _ => false
  }

  /** The calls that end a phase. */
  predicate Ends(p: Phase, a: Action) {
    a.ForceComplete?
    || match p
       case CREATED => a.Start? || a.DeviceCommandSent? || a.MarkServerRestartFailed?
       case WAITING_FOR_DEVICE => a.DeviceCommandSent?
       case STARTING => a.StreamStarted? || a.DeviceRejected? || a.MarkServerRestartFailed?
       case RTP_WAIT => a.FirstPacket? || a.RTPWaitTimeout? || a.MarkServerRestartFailed?
       case ACTIVE => a.StopRequested? || a.RTPTimeout? || a.DeviceDisconnected? || a.DecodeFailed?
                      || a.MarkServerRestartFailed?
       case STOPPING => a.Stopped?
       case _ => false
  }

  /** The i-th call entered the phase, or it was there from the start, and no call since ends it. */
  ghost predicate HeldSince(r: Record, actions: seq<Action>, p: Phase, i: nat) {
    && i <= |actions|
    && (if i == 0 then r.phase == p else Enters(p, ApplyAll(r, actions[..i - 1]).phase, actions[i - 1]))
    && forall j :: i <= j < |actions| ==> !Ends(p, actions[j])
  }

  lemma PhaseStep(r: Record, a: Action, p: Phase)
    requires p in LIVE
    ensures Apply(r, a).phase == p <==> (r.phase == p && !Ends(p, a)) || Enters(p, r.phase, a)
  {
  }

  lemma HeldSnoc(r: Record, actions: seq<Action>, p: Phase, i: nat)
    requires actions != []
    ensures var n := |actions| - 1;
            HeldSince(r, actions, p, i) <==>
            if i <= n then HeldSince(r, actions[..n], p, i) && !Ends(p, actions[n])
            else i == n + 1 && Enters(p, ApplyAll(r, actions[..n]).phase, actions[n])
  {
    hide ApplyAll;
    hide Ends;
    hide Enters;
    var n := |actions| - 1;
    if 0 < i <= n {
      assert actions[..n][..i - 1] == actions[..i - 1] && actions[..n][i - 1] == actions[i - 1];
    }
    if HeldSince(r, actions[..n], p, i) && !Ends(p, actions[n]) {
      forall j | i <= j < |actions| ensures !Ends(p, actions[j]) {
        if j < n { assert actions[..n][j] == actions[j]; }
      }
    }
    if HeldSince(r, actions, p, i) && i <= n {
      forall j | i <= j < n ensures !Ends(p, actions[..n][j]) {
        assert actions[..n][j] == actions[j];
      }
    }
  }

  /** Over every sequence of calls, accepted or not: a stream is in a live phase exactly when some call took
      it there from the phase before, or it began there, and no call since is one that ends the phase. */
  lemma {:induction false} PhaseIsHeldSince(r: Record, actions: seq<Action>, p: Phase)
    requires p in LIVE
    ensures ApplyAll(r, actions).phase == p <==> exists i :: HeldSince(r, actions, p, i)
    decreases |actions|
  {
    hide Ends;
    hide Enters;
    hide Apply;
    if actions == [] {
      assert r.phase == p ==> HeldSince(r, actions, p, 0);
    } else {
      var n := |actions| - 1;
      var before := ApplyAll(r, actions[..n]);
      PhaseIsHeldSince(r, actions[..n], p);
      PhaseStep(before, actions[n], p);
      forall i: nat ensures HeldSince(r, actions, p, i) <==>
                            if i <= n then HeldSince(r, actions[..n], p, i) && !Ends(p, actions[n])
                            else i == n + 1 && Enters(p, before.phase, actions[n]) {
        HeldSnoc(r, actions, p, i);
      }
      assert Enters(p, before.phase, actions[n]) ==> HeldSince(r, actions, p, n + 1);
    }
  }

  /** The i-th call was made in the phase p. */
  ghost predicate CalledIn(r: Record, actions: seq<Action>, i: nat, a: Action, p: Phase) {
    i < |actions| && actions[i] == a && ApplyAll(r, actions[..i]).phase == p
  }

  /** The clocks a new stream's deadlines run from: once it waits for RTP, the time of the call that started
      it; while it is active, the time of its last packet; and it counts as started when Start was called on
      it, or else when it was made. */
  ghost predicate ClocksAreRight(s: Record, actions: seq<Action>) {
    WaitsFromStart(s, actions) && LivesFromPacket(s, actions) && StartedWhen(s, actions)
  }

  ghost predicate WaitsFromStart(s: Record, actions: seq<Action>) {
    var r := ApplyAll(s, actions);
    r.phase == RTP_WAIT || r.phase == ACTIVE || r.phase == STOPPING ==>
      exists i :: CalledIn(s, actions, i, StreamStarted(r.streamStartedAt), STARTING)
  }

  ghost predicate LivesFromPacket(s: Record, actions: seq<Action>) {
    var r := ApplyAll(s, actions);
    r.phase == ACTIVE ==> exists i :: LastPacket(s, actions, i, r.lastPacketAt)
  }

  ghost predicate StartedWhen(s: Record, actions: seq<Action>) {
    var r := ApplyAll(s, actions);
    || (exists i :: CalledIn(s, actions, i, Start(r.startedAt), CREATED))
    || (r.startedAt == s.startedAt && NeverStarted(s, actions))
  }

  ghost predicate NeverStarted(s: Record, actions: seq<Action>) {
    forall i, t :: !CalledIn(s, actions, i, Start(t), CREATED)
  }

  /** The i-th call is the stream's first packet or a later one, at time t, and no packet came after it. */
  ghost predicate LastPacket(s: Record, actions: seq<Action>, i: nat, t: int) {
    && (CalledIn(s, actions, i, FirstPacket(t), RTP_WAIT) || CalledIn(s, actions, i, Packet(t), ACTIVE))
    && forall j :: i < j < |actions| ==> !actions[j].Packet?
  }

  lemma CalledInLonger(r: Record, actions: seq<Action>, last: Action, i: nat, a: Action, p: Phase)
    requires CalledIn(r, actions, i, a, p)
    ensures CalledIn(r, actions + [last], i, a, p)
  {
    assert (actions + [last])[..i] == actions[..i];
  }

  lemma CalledInLast(r: Record, actions: seq<Action>, last: Action)
    ensures CalledIn(r, actions + [last], |actions|, last, ApplyAll(r, actions).phase)
  {
    assert (actions + [last])[..|actions|] == actions;
  }

  lemma {:induction false} ClocksTell(s: Record, actions: seq<Action>)
    requires s.phase == CREATED
    ensures ClocksAreRight(s, actions)
    decreases |actions|
  {
    if actions != [] {
      var n := |actions| - 1;
      var front, a := actions[..n], actions[n];
      ClocksTell(s, front);
      assert actions == front + [a];
      WaitsFromStartStep(s, front, a);
      LivesFromPacketStep(s, front, a);
      StartedWhenStep(s, front, a);
    }
  }

  lemma AllSnoc(s: Record, front: seq<Action>, a: Action)
    ensures ApplyAll(s, front + [a]) == Apply(ApplyAll(s, front), a)
  {
    assert (front + [a])[..|front|] == front;
  }

  lemma WaitsFromStartStep(s: Record, front: seq<Action>, a: Action)
    requires WaitsFromStart(s, front)
    ensures WaitsFromStart(s, front + [a])
  {
    hide ApplyAll;
    hide CalledIn;
    AllSnoc(s, front, a);
    CalledInLast(s, front, a);
    var before, r := ApplyAll(s, front), ApplyAll(s, front + [a]);
    if r.phase in {RTP_WAIT, ACTIVE, STOPPING} && !(a.StreamStarted? && before.phase == STARTING) {
      var i :| CalledIn(s, front, i, StreamStarted(before.streamStartedAt), STARTING);
      CalledInLonger(s, front, a, i, StreamStarted(before.streamStartedAt), STARTING);
    }
  }

  lemma LivesFromPacketStep(s: Record, front: seq<Action>, a: Action)
    requires LivesFromPacket(s, front)
    ensures LivesFromPacket(s, front + [a])
  {
    hide ApplyAll;
    hide CalledIn;
    AllSnoc(s, front, a);
    CalledInLast(s, front, a);
    var before, r := ApplyAll(s, front), ApplyAll(s, front + [a]);
    if r.phase == ACTIVE {
      if a.Packet? || before.phase == RTP_WAIT {
        assert LastPacket(s, front + [a], |front|, r.lastPacketAt);
      } else {
        hide LastPacket;
        var i :| LastPacket(s, front, i, before.lastPacketAt);
        LastPacketLonger(s, front, a, i, before.lastPacketAt);
      }
    }
  }

  lemma StartedWhenStep(s: Record, front: seq<Action>, a: Action)
    requires StartedWhen(s, front)
    ensures StartedWhen(s, front + [a])
  {
    hide ApplyAll;
    hide CalledIn;
    hide Apply;
    AllSnoc(s, front, a);
    CalledInLast(s, front, a);
    var before := ApplyAll(s, front);
    StartedAtAfter(before, a);
    if !(a.Start? && before.phase == CREATED) {
      if i :| CalledIn(s, front, i, Start(before.startedAt), CREATED) {
        CalledInLonger(s, front, a, i, Start(before.startedAt), CREATED);
      } else {
        forall i, t ensures !CalledIn(s, front + [a], i, Start(t), CREATED) {
          CalledInShorter(s, front, a, i, Start(t), CREATED);
          assert !CalledIn(s, front, i, Start(t), CREATED);
        }
      }
    }
  }

  lemma StartedAtAfter(r: Record, a: Action)
    ensures Apply(r, a).startedAt == if a.Start? && r.phase == CREATED then a.now else r.startedAt
  {
  }

  lemma CalledInShorter(r: Record, actions: seq<Action>, last: Action, i: nat, a: Action, p: Phase)
    ensures CalledIn(r, actions + [last], i, a, p) ==>
              CalledIn(r, actions, i, a, p) || (i == |actions| && a == last && ApplyAll(r, actions).phase == p)
  {
    if i < |actions| {
      assert (actions + [last])[..i] == actions[..i];
    } else {
      assert (actions + [last])[..|actions|] == actions;
    }
  }

  lemma LastPacketLonger(s: Record, front: seq<Action>, a: Action, i: nat, t: int)
    requires LastPacket(s, front, i, t) && !a.Packet?
    ensures LastPacket(s, front + [a], i, t)
  {
    hide ApplyAll;
    if CalledIn(s, front, i, FirstPacket(t), RTP_WAIT) {
      CalledInLonger(s, front, a, i, FirstPacket(t), RTP_WAIT);
    } else {
      CalledInLonger(s, front, a, i, Packet(t), ACTIVE);
    }
  }

  // ---- The stream object ------------------------------------------------------------------------

  class Stream {
    const id: nat
    const device: string
    const cfg: TimeoutConfig
    var phase: Phase
    var reason: Reason
    var startedAt: int
    var streamStartedAt: int
    var lastPacketAt: int

    ghost function Rec(): Record
      reads this
    {
      Record(device, phase, reason, startedAt, streamStartedAt, lastPacketAt, cfg)
    }

    constructor (id: nat, device: string, startedAt: int, cfg: TimeoutConfig)
      ensures this.id == id && Rec() == New(device, startedAt, cfg)
    {
      this.id, this.device, this.startedAt, this.cfg := id, device, startedAt, cfg;
      phase, reason, streamStartedAt, lastPacketAt := CREATED, NoReason, 0, 0;
    }

    method Start(now: int) returns (ok: bool)
      modifies this
      ensures Rec() == Apply(old(Rec()), Action.Start(now)) && ok == Accepts(old(phase), Action.Start(now))
    {
      if phase != CREATED { return false; }
      phase := WAITING_FOR_DEVICE;
      startedAt := now;
      return true;
    }

    method DeviceCommandSent() returns (ok: bool)
      modifies this
      ensures Rec() == Apply(old(Rec()), Action.DeviceCommandSent)
      ensures ok == Accepts(old(phase), Action.DeviceCommandSent)
    {
      if phase != CREATED && phase != WAITING_FOR_DEVICE { return false; }
      phase := STARTING;
      return true;
    }

    method DeviceRejected(why: Reason) returns (ok: bool)
      modifies this
      ensures Rec() == Apply(old(Rec()), Action.DeviceRejected(why))
      ensures ok == Accepts(old(phase), Action.DeviceRejected(why))
    {
      if phase != STARTING { return false; }
      var given := why;
      if given == NoReason { given := StartRejected; }
      phase, reason := FAILED, given;
      return true;
    }

    method MarkServerRestartFailed() returns (ok: bool)
      modifies this
      ensures Rec() == Apply(old(Rec()), Action.MarkServerRestartFailed)
      ensures ok == Accepts(old(phase), Action.MarkServerRestartFailed)
    {
      match phase
      case CREATED | STARTING | RTP_WAIT | ACTIVE =>
        phase, reason := FAILED, ServerRestart;
        return true;
      case _ => return false;
    }

    method StreamStarted(now: int) returns (ok: bool)
      modifies this
      ensures Rec() == Apply(old(Rec()), Action.StreamStarted(now))
      ensures ok == Accepts(old(phase), Action.StreamStarted(now))
    {
      if phase != STARTING { return false; }
      phase := RTP_WAIT;
      streamStartedAt := now;
      return true;
    }

    method FirstPacket(now: int) returns (ok: bool)
      modifies this
      ensures Rec() == Apply(old(Rec()), Action.FirstPacket(now))
      ensures ok == Accepts(old(phase), Action.FirstPacket(now))
    {
      if phase != RTP_WAIT { return false; }
      phase := ACTIVE;
      lastPacketAt := now;
      return true;
    }

    method Packet(now: int)
      modifies this
      ensures Rec() == Apply(old(Rec()), Action.Packet(now))
    {
      if phase != ACTIVE { return; }
      lastPacketAt := now;
    }

    method RTPWaitTimedOut(now: int) returns (yes: bool)
      ensures yes == WaitTimedOut(Rec(), now)
    {
      if phase != RTP_WAIT { return false; }
      return now - streamStartedAt >= cfg.Wait();
    }

    method RTPDisappeared(now: int) returns (yes: bool)
      ensures yes == Disappeared(Rec(), now)
    {
      if phase != ACTIVE { return false; }
      return now - lastPacketAt >= cfg.Disappear();
    }

    method StopRequested() returns (ok: bool)
      modifies this
      ensures Rec() == Apply(old(Rec()), Action.StopRequested) && ok == Accepts(old(phase), Action.StopRequested)
    {
      if phase != ACTIVE { return false; }
      phase := STOPPING;
      return true;
    }

    method Stopped() returns (ok: bool)
      modifies this
      ensures Rec() == Apply(old(Rec()), Action.Stopped) && ok == Accepts(old(phase), Action.Stopped)
    {
      if phase != STOPPING { return false; }
      phase := COMPLETE;
      return true;
    }

    method ForceComplete()
      modifies this
      ensures Rec() == Apply(old(Rec()), Action.ForceComplete)
    {
      match phase
      case COMPLETE | FAILED => return;
      case _ =>
        phase := COMPLETE;
        reason := Replaced;
    }

    method DeviceDisconnected() returns (ok: bool)
      modifies this
      ensures Rec() == Apply(old(Rec()), Action.DeviceDisconnected)
      ensures ok == Accepts(old(phase), Action.DeviceDisconnected)
    {
      if phase != ACTIVE { return false; }
      phase, reason := FAILED, DeviceDisc;
      return true;
    }

    method RTPWaitTimeout() returns (ok: bool)
      modifies this
      ensures Rec() == Apply(old(Rec()), Action.RTPWaitTimeout) && ok == Accepts(old(phase), Action.RTPWaitTimeout)
    {
      if phase != RTP_WAIT { return false; }
      phase, reason := FAILED, RtpWaitTimeout;
      return true;
    }

    method RTPTimeout() returns (ok: bool)
      modifies this
      ensures Rec() == Apply(old(Rec()), Action.RTPTimeout) && ok == Accepts(old(phase), Action.RTPTimeout)
    {
      if phase != ACTIVE { return false; }
      phase, reason := FAILED, RtpTimeout;
      return true;
    }

    method DecodeError() returns (ok: bool)
      modifies this
      ensures Rec() == Apply(old(Rec()), DecodeFailed) && ok == Accepts(old(phase), DecodeFailed)
    {
      if phase != ACTIVE { return false; }
      phase, reason := FAILED, Reason.DecodeError;
      return true;
    }
  }
}
