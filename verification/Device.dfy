/** client/components/control_task/control_task.c: the control task driving the device state machine
    and the audio pipeline, with Wi-Fi and boot events falling between any two of its own. */
module Device {
  import opened Wrappers
  import opened DeviceState
  import opened AudioManager

  /** What the safety properties are about: the device state and the running stream. */
  datatype View = View(sm: SmState, stream: Option<StreamId>)

  datatype Reply = NoReply | StreamStarted(id: StreamId) | StreamStopped(id: StreamId) | Rejected(code: string)

  /** A start_stream message: what parsing gave, if anything, and what the system answers to the
      first start and to the restart, if it comes to that. */
  datatype StartRequest = StartRequest(params: Option<Params>, first: Answers, again: Answers)

  datatype Step =
    | Outside(w: Gap)
    | Connect(w: Gap)
    | ConnectFailed(w: Gap)
    | HelloAck(w: Gap)
    | StartMessage(r: StartRequest, w0: Gap, w1: Gap)
    | StopMessage(w: Gap)
    | SessionEnded(stillRunning: bool, w0: Gap, w1: Gap)

  // ---- Steps ----------------------------------------------------------------------------------------

  /** The start_stream branch: a start refused with ESP_ERR_INVALID_STATE is retried after a stop. */
  function AfterStart(v: View, r: StartRequest, w0: Gap, w1: Gap): (View, Reply) {
    match r.params
    case None => (v.(sm := RunEnv(v.sm, w0)), Rejected("invalid_request"))
    case Some(p) =>
      var sm := Notify(v.sm, w0, START_STREAM);
      var e := StartResult(true, v.stream, p, r.first);
      if e == ESP_OK then
        (View(Notify(sm, w1, STREAM_STARTED), Some(p.streamId)), StreamStarted(p.streamId))
      else if e == ESP_ERR_INVALID_STATE then
        if StartResult(true, None, p, r.again) == ESP_OK then
          (View(Notify(sm, w1, STREAM_STARTED), Some(p.streamId)), StreamStarted(p.streamId))
        else
          (View(Notify(sm, w1, STOP_STREAM), None), Rejected("internal"))
      else
        (View(Notify(sm, w1, STOP_STREAM), v.stream), Rejected("invalid_config"))
  }

  /** The control-loss path: g.connected was cleared by the task itself, so after the grace period the
      pipeline is stopped whenever the task is still to run. */
  function AfterLoss(v: View, stillRunning: bool, w0: Gap, w1: Gap): View {
    var sm := Notify(v.sm, w0, CONTROL_LOST);
    if v.stream.Some? && stillRunning then View(Notify(sm, w1, STOP_STREAM), None)
    else View(RunEnv(sm, w1), v.stream)
  }

  function After(v: View, s: Step): View {
    match s
    case Outside(w) => v.(sm := RunEnv(v.sm, w))
    case Connect(w) => v.(sm := Notify(v.sm, w, CONTROL_CONNECT))
    case ConnectFailed(w) => v.(sm := Notify(v.sm, w, CONTROL_LOST))
    case HelloAck(w) => v.(sm := Notify(v.sm, w, CONTROL_CONNECTED))
    case StartMessage(r, w0, w1) => AfterStart(v, r, w0, w1).0
    case StopMessage(w) => View(Notify(v.sm, w, STOP_STREAM), None)
    case SessionEnded(stillRunning, w0, w1) => AfterLoss(v, stillRunning, w0, w1)
  }

  function Run(v: View, steps: seq<Step>): View
    decreases |steps|
  {
    if steps == [] then v else After(Run(v, steps[..|steps| - 1]), steps[|steps| - 1])
  }

  /** The stream after a step, told by the messages and the system's answers alone: outside events and
      the state play no part. */
  function StreamAfter(stream: Option<StreamId>, s: Step): Option<StreamId> {
    match s
    case StopMessage(_) => None
    case SessionEnded(stillRunning, _, _) => if stillRunning then None else stream
    case StartMessage(r, _, _) =>
      if r.params.None? then stream
      else if ValidParams(r.params.value) && StartSucceeds(stream, r) then Some(r.params.value.streamId)
      else None
    case _ => stream
  }

  /** The first attempt succeeds only while nothing runs; the second follows a stop, and is made when a
      stream was running or when capture failed with the code that means so. */
  predicate StartSucceeds(stream: Option<StreamId>, r: StartRequest) {
    (stream.None? && AllGiven(r.first))
    || ((stream.Some? || CaptureInvalidState(r.first)) && AllGiven(r.again))
  }

  function StreamAfterAll(stream: Option<StreamId>, steps: seq<Step>): Option<StreamId>
    decreases |steps|
  {
    if steps == [] then stream
    else StreamAfter(StreamAfterAll(stream, steps[..|steps| - 1]), steps[|steps| - 1])
  }

  const BOOTED := View(BOOT, None)

  // ---- Safety -----------------------------------------------------------------------------------------

  /** STREAMING means a stream is running, and STREAM_STARTING has been resolved. */
  predicate Safe(v: View) {
    (v.sm == STREAMING ==> v.stream.Some?) && v.sm != STREAM_STARTING
  }

  lemma StartKeepsSafe(v: View, r: StartRequest, w0: Gap, w1: Gap)
    requires Safe(v)
    ensures Safe(AfterStart(v, r, w0, w1).0)
  {
    hide RunEnv;
    OutsideOnlyLeaves(v.sm, w0);
    OutsideOnlyLeaves(Notify(v.sm, w0, START_STREAM), w1);
  }

  lemma StepKeepsSafe(v: View, s: Step)
    requires Safe(v)
    ensures Safe(After(v, s))
  {
    hide RunEnv;
    match s
    case Outside(w) => OutsideOnlyLeaves(v.sm, w);
    case Connect(w) => OutsideOnlyLeaves(v.sm, w);
    case ConnectFailed(w) => OutsideOnlyLeaves(v.sm, w);
    case HelloAck(w) => OutsideOnlyLeaves(v.sm, w);
    case StartMessage(r, w0, w1) => StartKeepsSafe(v, r, w0, w1);
    case StopMessage(w) => OutsideOnlyLeaves(v.sm, w);
    case SessionEnded(_, w0, w1) =>
      OutsideOnlyLeaves(v.sm, w0);
      OutsideOnlyLeaves(Notify(v.sm, w0, CONTROL_LOST), w1);
  }

  /** Over every run, with outside events between any two events of the control task, whatever fails:
      after each message and each loss, STREAMING implies a running pipeline and STREAM_STARTING does
      not persist. */
  lemma {:induction false} RunIsSafe(v: View, steps: seq<Step>)
    requires Safe(v)
    ensures Safe(Run(v, steps))
    decreases |steps|
  {
    hide After;
    if steps != [] {
      RunIsSafe(v, steps[..|steps| - 1]);
      StepKeepsSafe(Run(v, steps[..|steps| - 1]), steps[|steps| - 1]);
    }
  }

  /** Losing the control connection ends the stream exactly when the task goes on, and leaves the device
      connecting exactly when it had control and nothing disturbed it; it has control at all in no other
      way. */
  lemma LossEndsTheStream(v: View, stillRunning: bool, w0: Gap, w1: Gap)
    ensures AfterLoss(v, stillRunning, w0, w1).stream == if stillRunning then None else v.stream
    ensures var sm := AfterLoss(v, stillRunning, w0, w1).sm;
            if HasControl(v.sm) && Quiet(w0) && Quiet(w1) then sm == CONTROL_CONNECTING else !HasControl(sm)
  {
    hide RunEnv;
    hide Quiet;
    OutsideOnlyLeaves(v.sm, w0);
    OutsideOnlyLeaves(Notify(v.sm, w0, CONTROL_LOST), w1);
    if HasControl(v.sm) {
      GapKeepsControlIff(v.sm, w0);
      GapKeepsControlIff(CONTROL_CONNECTING, w1);
    }
  }

  /** A failed attempt leaves a device that had control connecting, with its stream, unless it was disturbed; it
      gives control to none. */
  lemma FailureKeepsConnecting(v: View, w: Gap)
    ensures var t := After(v, ConnectFailed(w));
            && t.stream == v.stream
            && if HasControl(v.sm) && Quiet(w) then t.sm == CONTROL_CONNECTING else !HasControl(t.sm)
  {
    hide RunEnv;
    hide Quiet;
    OutsideOnlyLeaves(v.sm, w);
    if HasControl(v.sm) {
      GapKeepsControlIff(v.sm, w);
    }
  }

  /** After an undisturbed loss, any number of failed attempts and a connection at last, the device is idle with
      nothing running, whatever ran before. */
  lemma LossThenReconnect(v: View, w0: Gap, w1: Gap, retries: seq<Step>, w2: Gap, w3: Gap)
    requires HasControl(v.sm) && Quiet(w0) && Quiet(w1) && Quiet(w2) && Quiet(w3)
    requires forall i :: 0 <= i < |retries| ==>
               (retries[i].Connect? || retries[i].ConnectFailed?) && Quiet(retries[i].w)
    ensures Run(v, [SessionEnded(true, w0, w1)] + retries + [Connect(w2)] + [HelloAck(w3)]) == View(IDLE, None)
  {
    hide Run;
    hide RunEnv;
    hide Quiet;
    var lost := SessionEnded(true, w0, w1);
    LossEndsTheStream(v, true, w0, w1);
    RunSnoc(v, [], lost);
    assert [] + [lost] == [lost];
    RunConcat(v, [lost], retries);
    RetriesKeepConnecting(Run(v, [lost]), retries);
    RunSnoc(v, [lost] + retries, Connect(w2));
    RunSnoc(v, [lost] + retries + [Connect(w2)], HelloAck(w3));
    GapKeepsControlIff(CONTROL_CONNECTING, w2);
    GapKeepsControlIff(CONTROL_CONNECTING, w3);
  }

  lemma {:induction false} RetriesKeepConnecting(v: View, retries: seq<Step>)
    requires v.sm == CONTROL_CONNECTING
    requires forall i :: 0 <= i < |retries| ==>
               (retries[i].Connect? || retries[i].ConnectFailed?) && Quiet(retries[i].w)
    ensures Run(v, retries) == v
    decreases |retries|
  {
    hide RunEnv;
    hide Quiet;
    if retries != [] {
      var n := |retries| - 1;
      RetriesKeepConnecting(v, retries[..n]);
      GapKeepsControlIff(v.sm, retries[n].w);
    }
  }

  // ---- What the server is told -------------------------------------------------------------------------

  /** stream_started is sent exactly when the requested stream runs afterwards because everything it needs
      was given: at the first attempt, or at the second, which is made when a stream was running or when
      capture alone failed with the code that means so. A start that is rejected leaves nothing running,
      also when it was invalid and a stream ran before it; a malformed one leaves everything as it was. The
      code tells malformed messages and failed second attempts from the other failures. */
  lemma ReplyIsTrue(v: View, r: StartRequest, w0: Gap, w1: Gap)
    ensures var (t, reply) := AfterStart(v, r, w0, w1);
            && (reply.StreamStarted? <==>
                  && r.params.Some? && ValidParams(r.params.value)
                  && if v.stream.Some? then AllGiven(r.again)
                     else AllGiven(r.first) || (CaptureInvalidState(r.first) && AllGiven(r.again)))
            && (reply.StreamStarted? ==> t.stream == Some(reply.id) && reply.id == r.params.value.streamId)
            && (!reply.StreamStarted? ==> t.stream == if r.params.None? then v.stream else None)
            && (reply.Rejected? ==>
                  reply.code == if r.params.None? then "invalid_request"
                                else if v.stream.Some? || (ValidParams(r.params.value) && CaptureInvalidState(r.first))
                                then "internal" else "invalid_config")
  {
    hide RunEnv;
    if r.params.Some? {
      StartSucceedsIff(v.stream, r.params.value, r.first);
      StartSucceedsIff(None, r.params.value, r.again);
      InvalidStateIsAmbiguous(v.stream, r.params.value, r.first);
      hide StartResult;
    }
  }

  lemma StepStream(v: View, s: Step)
    ensures After(v, s).stream == StreamAfter(v.stream, s)
  {
    hide RunEnv;
    hide HandleEvent;
    if s.StartMessage? {
      ReplyIsTrue(v, s.r, s.w0, s.w1);
      hide AfterStart;
    }
  }

  /** Whatever falls between the events of the task, and in whatever state they find it: which stream
      runs is told by the stops, the losses, the starts and the answers to them. */
  lemma {:induction false} StreamIsToldByMessages(v: View, steps: seq<Step>)
    ensures Run(v, steps).stream == StreamAfterAll(v.stream, steps)
    decreases |steps|
  {
    hide After;
    hide StreamAfter;
    if steps != [] {
      StreamIsToldByMessages(v, steps[..|steps| - 1]);
      StepStream(Run(v, steps[..|steps| - 1]), steps[|steps| - 1]);
    }
  }

  lemma StartSucceedsIff(stream: Option<StreamId>, p: Params, a: Answers)
    ensures StartResult(true, stream, p, a) == ESP_OK <==> stream.None? && Validate(p) == ESP_OK && AllGiven(a)
  {
  }

  /** The code means a running stream, or a capture driver that failed with it. */
  lemma InvalidStateIsAmbiguous(stream: Option<StreamId>, p: Params, a: Answers)
    ensures StartResult(true, stream, p, a) == ESP_ERR_INVALID_STATE
            <==> stream.Some? || (Validate(p) == ESP_OK && CaptureInvalidState(a))
  {
  }

  /** Undisturbed, an idle device goes to STREAMING or back to IDLE with the reply, and a stop takes it
      back to IDLE. */
  lemma UndisturbedStart(v: View, r: StartRequest)
    requires v.sm == IDLE && r.params.Some?
    ensures var (t, reply) := AfterStart(v, r, [], []);
            && t.sm == (if reply.StreamStarted? then STREAMING else IDLE) && (t.sm == STREAMING <==> t.stream.Some?)
            && After(t, StopMessage([])) == View(IDLE, None)
  {
  }

  lemma OneOutside(s: SmState, e: SmEvent)
    requires FromOutside(Dispatch(e))
    ensures RunEnv(s, [Dispatch(e)]) == HandleEvent(s, e)
  {
    var w: Gap := [Dispatch(e)];
    assert w[1..] == [];
  }

  lemma RunSnoc(v: View, steps: seq<Step>, s: Step)
    ensures Run(v, steps + [s]) == After(Run(v, steps), s) && Run(v, []) == v
  {
    assert (steps + [s])[..|steps|] == steps;
  }

  // ---- When state and pipeline agree -------------------------------------------------------------------

  /** Idle with no stream, or STREAMING with one. */
  predicate InStep(v: View) {
    (v.sm == IDLE && v.stream.None?) || (v.sm == STREAMING && v.stream.Some?)
  }

  /** Events of one session: messages and outside events, no reconnect. */
  predicate InSession(s: Step) {
    s.Outside? || s.HelloAck? || s.StartMessage? || s.StopMessage?
  }

  /** No gap the step uses disturbs it; a malformed start uses only its first. */
  predicate QuietStep(s: Step) {
    match s
    case Outside(w) => Quiet(w)
    case Connect(w) => Quiet(w)
    case ConnectFailed(w) => Quiet(w)
    case HelloAck(w) => Quiet(w)
    case StartMessage(r, w0, w1) => Quiet(w0) && (r.params.Some? ==> Quiet(w1))
    case StopMessage(w) => Quiet(w)
    case SessionEnded(_, w0, w1) => Quiet(w0) && Quiet(w1)
  }

  predicate AllQuiet(steps: seq<Step>) {
    forall i :: 0 <= i < |steps| ==> QuietStep(steps[i])
  }

  predicate AllInSession(steps: seq<Step>) {
    forall i :: 0 <= i < |steps| ==> InSession(steps[i])
  }

  /** A start with parameters or a stop: whatever the outcome, it decides whether a stream runs. */
  predicate Decides(s: Step) {
    s.StopMessage? || (s.StartMessage? && s.r.params.Some?)
  }

  predicate AnyDecides(steps: seq<Step>) {
    exists i :: 0 <= i < |steps| && Decides(steps[i])
  }

  lemma AnyDecidesSnoc(steps: seq<Step>)
    requires steps != []
    ensures AnyDecides(steps) <==> AnyDecides(steps[..|steps| - 1]) || Decides(steps[|steps| - 1])
    ensures AllQuiet(steps) <==> AllQuiet(steps[..|steps| - 1]) && QuietStep(steps[|steps| - 1])
  {
    hide Decides;
    hide QuietStep;
    var front := steps[..|steps| - 1];
    assert forall i :: 0 <= i < |front| ==> front[i] == steps[i];
    if i :| 0 <= i < |front| && Decides(front[i]) {
      assert Decides(steps[i]);
    }
  }

  lemma StartGaps(v: View, r: StartRequest, w0: Gap, w1: Gap)
    requires HasControl(v.sm)
    ensures var t := AfterStart(v, r, w0, w1).0;
            if QuietStep(StartMessage(r, w0, w1)) then t == AfterStart(v, r, [], []).0 else !HasControl(t.sm)
  {
    hide RunEnv;
    hide StartResult;
    hide Quiet;
    GapKeepsControlIff(v.sm, w0);
    var sm := Notify(v.sm, w0, START_STREAM);
    EmptyGap(v.sm);
    if HasControl(sm) {
      GapKeepsControlIff(sm, w1);
      EmptyGap(sm);
    } else {
      OutsideOnlyLeaves(sm, w1);
    }
  }

  lemma EmptyGap(s: SmState)
    ensures RunEnv(s, []) == s && Quiet([])
  {
  }

  /** A step of a session with control: quiet, it does what it does undisturbed; otherwise control is lost. */
  lemma SessionStep(v: View, s: Step)
    requires HasControl(v.sm) && InSession(s)
    ensures var t := After(v, s);
            if QuietStep(s) then t == Undisturbed(v, s) && HasControl(t.sm) else !HasControl(t.sm)
  {
    hide RunEnv;
    hide StartResult;
    hide Quiet;
    EmptyGap(v.sm);
    match s
    case Outside(w) => GapKeepsControlIff(v.sm, w);
    case HelloAck(w) => GapKeepsControlIff(v.sm, w);
    case StopMessage(w) => GapKeepsControlIff(v.sm, w);
    case StartMessage(r, w0, w1) =>
      StartGaps(v, r, w0, w1);
      EmptyGap(Notify(v.sm, [], START_STREAM));
  }

  /** A session step with nothing in its gaps. */
  function Undisturbed(v: View, s: Step): View
    requires InSession(s)
  {
    match s
    case Outside(_) => v
    case HelloAck(_) => v.(sm := HandleEvent(v.sm, CONTROL_CONNECTED))
    case StopMessage(_) => View(HandleEvent(v.sm, STOP_STREAM), None)
    case StartMessage(r, _, _) => AfterStart(v, r, [], []).0
  }

  lemma UndisturbedKeepsInStep(v: View, s: Step)
    requires InSession(s) && (InStep(v) || (v.sm == IDLE && Decides(s)))
    ensures InStep(Undisturbed(v, s))
  {
    EmptyGap(v.sm);
    EmptyGap(Notify(v.sm, [], START_STREAM));
    hide RunEnv;
  }

  /** From agreement, a message or outside event keeps state and pipeline in step if and only if nothing
      in its gaps disturbs it; otherwise control is lost. */
  lemma StepInStepIff(v: View, s: Step)
    requires InStep(v) && InSession(s)
    ensures InStep(After(v, s)) <==> QuietStep(s)
    ensures !InStep(After(v, s)) ==> !HasControl(After(v, s).sm)
  {
    hide After;
    hide Undisturbed;
    hide QuietStep;
    SessionStep(v, s);
    UndisturbedKeepsInStep(v, s);
  }

  /** Over a whole session: state and pipeline are in step at its end if and only if no event disturbed it.
      In particular a stream runs outside STREAMING exactly when there is one and the session was
      disturbed. */
  lemma {:induction false} SessionInStepIff(v: View, steps: seq<Step>)
    requires InStep(v) && AllInSession(steps)
    ensures InStep(Run(v, steps)) <==> AllQuiet(steps)
    ensures !InStep(Run(v, steps)) ==> !HasControl(Run(v, steps).sm)
    ensures Run(v, steps).stream.Some? ==> (Run(v, steps).sm != STREAMING <==> !AllQuiet(steps))
    decreases |steps|
  {
    hide After;
    hide QuietStep;
    hide InSession;
    if steps != [] {
      var n := |steps| - 1;
      SessionInStepIff(v, steps[..n]);
      var u := Run(v, steps[..n]);
      if InStep(u) {
        StepInStepIff(u, steps[n]);
      } else {
        BlipStep(u, steps[n]);
      }
      AnyDecidesSnoc(steps);
    }
  }

  /** Once control is lost, no message brings it back until the session ends and the task reconnects. */
  lemma {:induction false} BlipOutlastsSession(v: View, steps: seq<Step>)
    requires !HasControl(v.sm) && AllInSession(steps)
    ensures !HasControl(Run(v, steps).sm)
    decreases |steps|
  {
    if steps != [] {
      var n := |steps| - 1;
      BlipOutlastsSession(v, steps[..n]);
      BlipStep(Run(v, steps[..n]), steps[n]);
    }
  }

  lemma BlipStep(v: View, s: Step)
    requires !HasControl(v.sm) && InSession(s)
    ensures !HasControl(After(v, s).sm)
  {
    hide RunEnv;
    hide AfterStart;
    match s
    case Outside(w) => OutsideOnlyLeaves(v.sm, w);
    case HelloAck(w) => OutsideOnlyLeaves(v.sm, w);
    case StopMessage(w) => OutsideOnlyLeaves(v.sm, w);
    case StartMessage(r, w0, w1) => BlipStart(v, r, w0, w1);
  }

  lemma BlipStart(v: View, r: StartRequest, w0: Gap, w1: Gap)
    requires !HasControl(v.sm)
    ensures !HasControl(AfterStart(v, r, w0, w1).0.sm)
  {
    hide RunEnv;
    hide StartResult;
    OutsideOnlyLeaves(v.sm, w0);
    OutsideOnlyLeaves(Notify(v.sm, w0, START_STREAM), w1);
  }

  // ---- From the beginning of a session -----------------------------------------------------------------

  /** Before hello_ack messages are obeyed all the same, so a session may reach IDLE with a stream. */
  lemma {:induction false} EarlyMessages(v: View, steps: seq<Step>)
    requires v.sm == CONTROL_CONNECTING && AllInSession(steps)
    requires forall i :: 0 <= i < |steps| ==> !steps[i].HelloAck?
    ensures if AllQuiet(steps) then Run(v, steps).sm == CONTROL_CONNECTING else !HasControl(Run(v, steps).sm)
    decreases |steps|
  {
    hide After;
    hide QuietStep;
    hide Undisturbed;
    if steps != [] {
      var n := |steps| - 1;
      EarlyMessages(v, steps[..n]);
      var u := Run(v, steps[..n]);
      if u.sm == CONTROL_CONNECTING {
        SessionStep(u, steps[n]);
        EarlyStep(u, steps[n]);
      } else {
        BlipStep(u, steps[n]);
      }
      AnyDecidesSnoc(steps);
    }
  }

  lemma EarlyStep(v: View, s: Step)
    requires v.sm == CONTROL_CONNECTING && InSession(s) && !s.HelloAck?
    ensures Undisturbed(v, s).sm == CONTROL_CONNECTING
  {
    hide RunEnv;
    hide StartResult;
    EmptyGap(v.sm);
  }

  /** From IDLE, with or without a stream: in step at the end exactly when undisturbed and either there was
      no stream or a start with parameters or a stop has decided since. */
  lemma {:induction false} FromIdleInStepIff(v: View, steps: seq<Step>)
    requires v.sm == IDLE && AllInSession(steps)
    ensures InStep(Run(v, steps)) <==> AllQuiet(steps) && (v.stream.None? || AnyDecides(steps))
    ensures AllQuiet(steps) <==> HasControl(Run(v, steps).sm)
    ensures !InStep(Run(v, steps)) && HasControl(Run(v, steps).sm) ==> Run(v, steps) == v
    decreases |steps|
  {
    hide AnyDecides;
    hide AllQuiet;
    hide Decides;
    hide After;
    hide QuietStep;
    hide Undisturbed;
    if steps != [] {
      var n := |steps| - 1;
      FromIdleInStepIff(v, steps[..n]);
      var u, s := Run(v, steps[..n]), steps[n];
      AnyDecidesSnoc(steps);
      if InStep(u) {
        StepInStepIff(u, s);
      } else if HasControl(u.sm) {
        SessionStep(u, s);
        if Decides(s) {
          UndisturbedKeepsInStep(u, s);
        } else {
          UndecidedStep(u, s);
        }
      } else {
        BlipStep(u, s);
      }
    } else {
      NoSteps();
    }
  }

  lemma NoSteps()
    ensures AllQuiet([]) && !AnyDecides([])
  {
  }

  lemma UndecidedStep(v: View, s: Step)
    requires v.sm == IDLE && InSession(s) && !Decides(s)
    ensures Undisturbed(v, s) == v
  {
    EmptyGap(v.sm);
  }

  lemma {:induction false} RunConcat(v: View, a: seq<Step>, b: seq<Step>)
    ensures Run(v, a + b) == Run(Run(v, a), b)
    decreases |b|
  {
    hide After;
    if b == [] {
      assert a + b == a;
    } else {
      var n := |b| - 1;
      assert (a + b)[..|a| + n] == a + b[..n] && (a + b)[|a| + n] == b[n];
      RunConcat(v, a, b[..n]);
    }
  }

  /** A whole session from its connect: state and pipeline are in step at its end if and only if nothing
      disturbed it and either the messages before hello_ack leave no stream running or a start with
      parameters or a stop has decided since. */
  lemma WholeSessionInStepIff(v: View, early: seq<Step>, w: Gap, later: seq<Step>)
    requires v.sm == CONTROL_CONNECTING && AllInSession(early) && AllInSession(later)
    requires forall i :: 0 <= i < |early| ==> !early[i].HelloAck?
    ensures InStep(Run(v, early + [HelloAck(w)] + later)) <==>
            && AllQuiet(early) && Quiet(w) && AllQuiet(later)
            && (StreamAfterAll(v.stream, early).None? || AnyDecides(later))
  {
    StreamIsToldByMessages(v, early);
    hide RunEnv;
    hide QuietStep;
    hide Quiet;
    EarlyMessages(v, early);
    RunConcat(v, early + [HelloAck(w)], later);
    RunSnoc(v, early, HelloAck(w));
    var u := Run(v, early);
    var t := After(u, HelloAck(w));
    if AllQuiet(early) {
      GapKeepsControlIff(u.sm, w);
      if Quiet(w) {
        FromIdleInStepIff(t, later);
      } else {
        BlipStepHello(u, w);
        BlipOutlastsSession(t, later);
      }
    } else {
      BlipStep(u, HelloAck(w));
      BlipOutlastsSession(t, later);
    }
  }

  lemma BlipStepHello(v: View, w: Gap)
    requires !HasControl(RunEnv(v.sm, w))
    ensures !HasControl(After(v, HelloAck(w)).sm)
  {
  }

  const BOOT_STEPS: seq<Step> := [Outside([Dispatch(BOOT_DONE)]), Outside([Dispatch(WIFI_UP)]), Connect([])]

  lemma BootToConnect()
    ensures Run(BOOTED, BOOT_STEPS) == View(CONTROL_CONNECTING, None)
  {
    hide Run;
    hide RunEnv;
    hide AfterStart;
    hide AfterLoss;
    OneOutside(BOOT, BOOT_DONE);
    OneOutside(WIFI_CONNECTING, WIFI_UP);
    EmptyGap(WIFI_CONNECTED);
    var s1, s2, s3 := Outside([Dispatch(BOOT_DONE)]), Outside([Dispatch(WIFI_UP)]), Connect([]);
    RunSnoc(BOOTED, [], s1);
    RunSnoc(BOOTED, [s1], s2);
    RunSnoc(BOOTED, [s1, s2], s3);
    assert [] + [s1] == [s1] && [s1] + [s2] == [s1, s2] && [s1, s2] + [s3] == BOOT_STEPS;
  }

  /** Boot, network and control session lead to IDLE. */
  lemma NominalBoot()
    ensures Run(BOOTED, BOOT_STEPS + [HelloAck([])]) == View(IDLE, None)
  {
    hide Run;
    hide RunEnv;
    BootToConnect();
    EmptyGap(CONTROL_CONNECTING);
    RunSnoc(BOOTED, BOOT_STEPS, HelloAck([]));
  }

  /** A running pipeline does not imply STREAMING: a device that boots, streams, loses Wi-Fi and gets it
      back while the session survives streams on in WIFI_CONNECTED. */
  lemma StreamOutlivesState(r: StartRequest)
    requires r.params.Some? && StartResult(true, None, r.params.value, r.first) == ESP_OK
    ensures Run(BOOTED, BOOT_STEPS + [HelloAck([])] + [StartMessage(r, [], [])]
                       + [Outside([Dispatch(WIFI_LOST), Dispatch(WIFI_UP)])])
            == View(WIFI_CONNECTED, Some(r.params.value.streamId))
  {
    hide Run;
    hide RunEnv;
    hide StartResult;
    var w: Gap := [Dispatch(WIFI_LOST), Dispatch(WIFI_UP)];
    NominalBoot();
    EmptyGap(IDLE);
    EmptyGap(STREAM_STARTING);
    RunSnoc(BOOTED, BOOT_STEPS + [HelloAck([])], StartMessage(r, [], []));
    RunSnoc(BOOTED, BOOT_STEPS + [HelloAck([])] + [StartMessage(r, [], [])], Outside(w));
    TwoOutside(STREAMING, WIFI_LOST, WIFI_UP);
  }

  /** Nor does it take a disturbance: a start_stream that comes before hello_ack is obeyed, so the stream
      runs in CONTROL_CONNECTING and, after hello_ack, in IDLE. */
  lemma EarlyStartOutrunsState(r: StartRequest)
    requires r.params.Some? && StartResult(true, None, r.params.value, r.first) == ESP_OK
    ensures var id := r.params.value.streamId;
            && Run(BOOTED, BOOT_STEPS + [StartMessage(r, [], [])]) == View(CONTROL_CONNECTING, Some(id))
            && AfterStart(Run(BOOTED, BOOT_STEPS), r, [], []).1 == StreamStarted(id)
            && Run(BOOTED, BOOT_STEPS + [StartMessage(r, [], [])] + [HelloAck([])]) == View(IDLE, Some(id))
  {
    hide Run;
    hide RunEnv;
    hide StartResult;
    BootToConnect();
    EmptyGap(CONTROL_CONNECTING);
    RunSnoc(BOOTED, BOOT_STEPS, StartMessage(r, [], []));
    RunSnoc(BOOTED, BOOT_STEPS + [StartMessage(r, [], [])], HelloAck([]));
  }

  lemma TwoOutside(s: SmState, e: SmEvent, f: SmEvent)
    requires FromOutside(Dispatch(e)) && FromOutside(Dispatch(f))
    ensures RunEnv(s, [Dispatch(e), Dispatch(f)]) == HandleEvent(HandleEvent(s, e), f)
  {
    var w: Gap := [Dispatch(e), Dispatch(f)];
    assert w[1..] == [Dispatch(f)];
    OneOutside(HandleEvent(s, e), f);
  }

  // ---- The task ---------------------------------------------------------------------------------------------

  class Device {
    var sm: SmState
    const audio: AudioManager
    var connected: bool

    ghost predicate Valid()
      reads this, audio
    {
      audio.Valid() && audio.inited
    }

    ghost function V(): View
      reads this, audio
    {
      View(sm, audio.Stream())
    }

    constructor ()
      ensures Valid() && fresh(audio) && V() == BOOTED && !connected
    {
      sm, connected := BOOT, false;
      audio := new AudioManager();
    }

    /** w is what other tasks dispatched since the control task's last event. */
    method NotifySm(w: Gap, e: SmEvent)
      modifies this`sm
      ensures sm == Notify(old(sm), w, e)
    {
      Others(w);
      sm := HandleEvent(sm, e);
    }

    method Others(w: Gap)
      modifies this`sm
      ensures sm == RunEnv(old(sm), w)
    {
      var i := 0;
      while i < |w|
        invariant 0 <= i <= |w| && RunEnv(sm, w[i..]) == RunEnv(old(sm), w)
      {
        assert FromOutside(w[i]) && w[i..][1..] == w[i + 1..];
        match w[i] {
          case Dispatch(e) => sm := HandleEvent(sm, e);
          case ForceProvisioning => sm := PROVISIONING;
        }
        i := i + 1;
      }
    }

    method OnHelloAck(w: Gap)
      requires Valid()
      modifies this`sm, this`connected
      ensures Valid() && connected && V() == After(old(V()), HelloAck(w))
    {
      connected := true;
      NotifySm(w, CONTROL_CONNECTED);
    }

    method OnStartStream(r: StartRequest, w0: Gap, w1: Gap) returns (reply: Reply)
      requires Valid()
      modifies this`sm, audio
      ensures Valid() && (V(), reply) == AfterStart(old(V()), r, w0, w1)
    {
      hide HandleEvent;
      hide RunEnv;
      if r.params.None? {
        Others(w0);
        return Rejected("invalid_request");
      }
      var p := r.params.value;
      NotifySm(w0, START_STREAM);
      var e := audio.Start(p, r.first);
      if e == ESP_OK {
        NotifySm(w1, STREAM_STARTED);
        return StreamStarted(p.streamId);
      } else if e == ESP_ERR_INVALID_STATE {
        audio.Stop();
        var e2 := audio.Start(p, r.again);
        if e2 == ESP_OK {
          NotifySm(w1, STREAM_STARTED);
          return StreamStarted(p.streamId);
        }
        NotifySm(w1, STOP_STREAM);
        return Rejected("internal");
      }
      NotifySm(w1, STOP_STREAM);
      return Rejected("invalid_config");
    }

    method OnStopStream(w: Gap) returns (reply: Reply)
      requires Valid()
      modifies this`sm, audio
      ensures Valid() && V() == After(old(V()), StopMessage(w)) && audio.held == {}
      ensures old(V()).stream.Some? ==> reply == StreamStopped(old(V()).stream.value)
    {
      hide HandleEvent;
      hide RunEnv;
      var sid := audio.streamId;
      audio.Stop();
      NotifySm(w, STOP_STREAM);
      return StreamStopped(sid);
    }

    /** The end of run_session up to the next connect; stillRunning is g.running after the grace. */
    method OnSessionEnded(stillRunning: bool, w0: Gap, w1: Gap)
      requires Valid()
      modifies this`sm, this`connected, audio
      ensures Valid() && !connected && V() == After(old(V()), SessionEnded(stillRunning, w0, w1))
      ensures stillRunning ==> audio.held == {}
    {
      hide HandleEvent;
      hide RunEnv;
      connected := false;
      NotifySm(w0, CONTROL_LOST);
      if audio.streaming && stillRunning && !connected && audio.streaming {
        audio.Stop();
        NotifySm(w1, STOP_STREAM);
      } else {
        Others(w1);
      }
    }
  }
}
