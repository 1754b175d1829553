/** client/components/state_machine/device_state.c, and the events main/app_main.c dispatches into
    it from outside the control task. */
module DeviceState {
  import opened Seqs

  datatype SmState =
    BOOT | PROVISIONING | WIFI_CONNECTING | WIFI_CONNECTED | CONTROL_CONNECTING | IDLE
    | STREAM_STARTING | STREAMING | ERROR

  datatype SmEvent =
    | BOOT_DONE | NEED_PROVISION | PROVISIONED | WIFI_UP | CONTROL_CONNECT | CONTROL_CONNECTED
    | START_STREAM | STREAM_STARTED | STOP_STREAM | WIFI_LOST | CONTROL_LOST | FATAL | RECOVER

  predicate HasNetwork(s: SmState) {
    s == WIFI_CONNECTED || HasControl(s)
  }

  predicate HasControl(s: SmState) {
    s == CONTROL_CONNECTING || s == IDLE || s == STREAM_STARTING || s == STREAMING
  }

  function HandleEvent(s: SmState, e: SmEvent): SmState {
    match e
    case FATAL => ERROR
    case WIFI_LOST => if HasNetwork(s) then WIFI_CONNECTING else s
    case CONTROL_LOST => if HasControl(s) then CONTROL_CONNECTING else s
    case RECOVER => if s == ERROR then BOOT else s
    case _ =>
      match (s, e)
      case (BOOT, NEED_PROVISION) => PROVISIONING
      case (BOOT, BOOT_DONE) => WIFI_CONNECTING
      case (PROVISIONING, PROVISIONED) => WIFI_CONNECTING
      case (WIFI_CONNECTING, WIFI_UP) => WIFI_CONNECTED
      case (WIFI_CONNECTED, CONTROL_CONNECT) => CONTROL_CONNECTING
      case (CONTROL_CONNECTING, CONTROL_CONNECTED) => IDLE
      case (IDLE, START_STREAM) => STREAM_STARTING
      case (STREAM_STARTING, STREAM_STARTED) => STREAMING
      case (STREAM_STARTING, STOP_STREAM) => IDLE
      case (STREAMING, STOP_STREAM) => IDLE
      case _ => s
  }

  /** What other tasks do to the state: the events of app_main and the Wi-Fi callbacks, and the
      provisioning callback that sets the state directly. */
  datatype Env = Dispatch(e: SmEvent) | ForceProvisioning

  predicate FromOutside(v: Env) {
    v.Dispatch? ==>
      v.e == BOOT_DONE || v.e == NEED_PROVISION || v.e == PROVISIONED || v.e == WIFI_UP || v.e == WIFI_LOST
      || v.e == FATAL || v.e == RECOVER
  }

  type Gap = w: seq<Env> | forall i :: 0 <= i < |w| ==> FromOutside(w[i])

  function RunEnv(s: SmState, w: Gap): SmState
    decreases |w|
  {
    if w == [] then s
    else
      RunEnv(match w[0] case Dispatch(e) => HandleEvent(s, e) case ForceProvisioning => PROVISIONING, w[1..])
  }

  /** One event of the control task, after whatever other tasks did since its last one. */
  function Notify(s: SmState, w: Gap, e: SmEvent): SmState {
    HandleEvent(RunEnv(s, w), e)
  }

  /** Other tasks can take the control connection away, never give it: a state that has control after
      any sequence of outside events was there all along. */
  lemma {:induction false} OutsideOnlyLeaves(s: SmState, w: Gap)
    ensures HasControl(RunEnv(s, w)) ==> RunEnv(s, w) == s
    decreases |w|
  {
    if w != [] {
      var t := match w[0] case Dispatch(e) => HandleEvent(s, e) case ForceProvisioning => PROVISIONING;
      assert FromOutside(w[0]);
      OutsideOnlyLeaves(t, w[1..]);
    }
  }

  /** The outside events that take a state with control somewhere else. */
  predicate Disturbs(v: Env) {
    v == ForceProvisioning || v == Dispatch(WIFI_LOST) || v == Dispatch(FATAL)
  }

  predicate Quiet(w: Gap) {
    forall i :: 0 <= i < |w| ==> !Disturbs(w[i])
  }

  /** A quiet gap leaves a state with control as it is; one disturbing event in it is enough to lose
      control, and nothing later in the gap brings it back. */
  lemma {:induction false} GapKeepsControlIff(s: SmState, w: Gap)
    requires HasControl(s)
    ensures if Quiet(w) then RunEnv(s, w) == s else !HasControl(RunEnv(s, w))
    decreases |w|
  {
    if w != [] {
      var t := match w[0] case Dispatch(e) => HandleEvent(s, e) case ForceProvisioning => PROVISIONING;
      var rest: Gap := w[1..];
      assert FromOutside(w[0]) && RunEnv(s, w) == RunEnv(t, rest);
      if Disturbs(w[0]) {
        OutsideOnlyLeaves(t, rest);
      } else {
        assert t == s && (Quiet(w) <==> Quiet(rest)) by {
          assert forall i :: 0 < i < |w| ==> w[i] == rest[i - 1];
          assert forall i :: 0 <= i < |rest| ==> rest[i] == w[i + 1];
        }
        GapKeepsControlIff(s, rest);
      }
    }
  }

  /** The state after any events since boot, whoever dispatched them. */
  function Reached(es: seq<Env>): SmState
    decreases |es|
  {
    if es == [] then BOOT else Moved(Reached(es[..|es| - 1]), es[|es| - 1])
  }

  function Moved(s: SmState, v: Env): SmState {
    match v
    case Dispatch(e) => HandleEvent(s, e)
    case ForceProvisioning => PROVISIONING
  }

  /** What must have happened, in this order, before a state is reached. */
  const TO_STREAMING: seq<Env> := [Dispatch(WIFI_UP), Dispatch(CONTROL_CONNECT), Dispatch(CONTROL_CONNECTED),
                                   Dispatch(START_STREAM), Dispatch(STREAM_STARTED)]

  function StepsTo(s: SmState): (n: nat)
    ensures n <= 5
  {
    match s
    case WIFI_CONNECTED => 1
    case CONTROL_CONNECTING => 2
    case IDLE => 3
    case STREAM_STARTING => 4
    case STREAMING => 5
    case _ => 0
  }

  lemma OneStepAtATime(s: SmState, v: Env)
    ensures StepsTo(Moved(s, v)) <= StepsTo(s)
            || (StepsTo(Moved(s, v)) == StepsTo(s) + 1 && v == TO_STREAMING[StepsTo(s)])
  {
  }

  /** No shortcuts: over every sequence of events since boot, STREAMING is reached only after Wi-Fi, a
      control connect, its establishment, a start and its success, in this order; IDLE only after the
      first three; and so on. */
  lemma {:induction false} StatesAreEarned(es: seq<Env>)
    ensures Subsequence(TO_STREAMING[..StepsTo(Reached(es))], es)
    decreases |es|
  {
    hide Moved;
    hide StepsTo;
    if es == [] {
      BootIsFree();
    } else {
      var n := |es| - 1;
      var front, v := es[..n], es[n];
      assert es == front + [v];
      StatesAreEarned(front);
      var done, next := StepsTo(Reached(front)), StepsTo(Reached(es));
      OneStepAtATime(Reached(front), v);
      SubsequenceSnoc(TO_STREAMING[..done], front, v);
      if next <= done {
        SubsequenceTake(TO_STREAMING[..done], es, next);
        assert TO_STREAMING[..done][..next] == TO_STREAMING[..next];
      } else {
        assert TO_STREAMING[..done] + [v] == TO_STREAMING[..next];
      }
    }
  }

  lemma BootIsFree()
    ensures StepsTo(BOOT) == 0
  {
  }

  // ---- How a state is reached and kept ------------------------------------------------------------

  /** The events that enter a state, by the state they find. */
  predicate Enters(s: SmState, from: SmState, v: Env) {
    match s
    case BOOT => from == ERROR && v == Dispatch(RECOVER)
    case PROVISIONING =>
      || (from == BOOT && v == Dispatch(NEED_PROVISION)) || (from != PROVISIONING && v == ForceProvisioning)
    case WIFI_CONNECTING =>
      || (from == BOOT && v == Dispatch(BOOT_DONE)) || (from == PROVISIONING && v == Dispatch(PROVISIONED))
      || (from in {WIFI_CONNECTED, CONTROL_CONNECTING, IDLE, STREAM_STARTING, STREAMING} && v == Dispatch(WIFI_LOST))
    case WIFI_CONNECTED => from == WIFI_CONNECTING && v == Dispatch(WIFI_UP)
    case CONTROL_CONNECTING =>
      || (from == WIFI_CONNECTED && v == Dispatch(CONTROL_CONNECT))
      || (from in {IDLE, STREAM_STARTING, STREAMING} && v == Dispatch(CONTROL_LOST))
    case IDLE =>
      || (from == CONTROL_CONNECTING && v == Dispatch(CONTROL_CONNECTED))
      || (from in {STREAM_STARTING, STREAMING} && v == Dispatch(STOP_STREAM))
    case STREAM_STARTING => from == IDLE && v == Dispatch(START_STREAM)
    case STREAMING => from == STREAM_STARTING && v == Dispatch(STREAM_STARTED)
    case ERROR => from != ERROR && v == Dispatch(FATAL)
  }

  /** The events that end a state. */
  predicate Ends(s: SmState, v: Env) {
    || (s != ERROR && v == Dispatch(FATAL)) || (s != PROVISIONING && v == ForceProvisioning)
    || match s
       case BOOT => v == Dispatch(NEED_PROVISION) || v == Dispatch(BOOT_DONE)
       case PROVISIONING => v == Dispatch(PROVISIONED)
       case WIFI_CONNECTING => v == Dispatch(WIFI_UP)
       case WIFI_CONNECTED => v in {Dispatch(CONTROL_CONNECT), Dispatch(WIFI_LOST)}
       case CONTROL_CONNECTING => v in {Dispatch(CONTROL_CONNECTED), Dispatch(WIFI_LOST)}
       case IDLE => v in {Dispatch(START_STREAM), Dispatch(CONTROL_LOST), Dispatch(WIFI_LOST)}
       case STREAM_STARTING =>
         v in {Dispatch(STREAM_STARTED), Dispatch(STOP_STREAM), Dispatch(CONTROL_LOST), Dispatch(WIFI_LOST)}
       case STREAMING => v in {Dispatch(STOP_STREAM), Dispatch(CONTROL_LOST), Dispatch(WIFI_LOST)}
       case ERROR => v == Dispatch(RECOVER)
  }

  /** The i-th event entered the state, or it was there at boot, and no event since ends it. */
  ghost predicate HeldSince(es: seq<Env>, s: SmState, i: nat) {
    && i <= |es|
    && (if i == 0 then s == BOOT else Enters(s, Reached(es[..i - 1]), es[i - 1]))
    && forall j :: i <= j < |es| ==> !Ends(s, es[j])
  }

  lemma StateStep(from: SmState, v: Env, s: SmState)
    ensures Moved(from, v) == s <==> (from == s && !Ends(s, v)) || Enters(s, from, v)
  {
    hide Moved;
    hide Ends;
    hide Enters;
    if s in {BOOT, PROVISIONING, WIFI_CONNECTING, ERROR} {
      EarlyStateStep(from, v, s);
    } else {
      LateStateStep(from, v, s);
    }
  }

  lemma EarlyStateStep(from: SmState, v: Env, s: SmState)
    requires s in {BOOT, PROVISIONING, WIFI_CONNECTING, ERROR}
    ensures Moved(from, v) == s <==> (from == s && !Ends(s, v)) || Enters(s, from, v)
  {
  }

  lemma LateStateStep(from: SmState, v: Env, s: SmState)
    requires s !in {BOOT, PROVISIONING, WIFI_CONNECTING, ERROR}
    ensures Moved(from, v) == s <==> (from == s && !Ends(s, v)) || Enters(s, from, v)
  {
  }

  lemma HeldSnoc(es: seq<Env>, s: SmState, i: nat)
    requires es != []
    ensures var n := |es| - 1;
            HeldSince(es, s, i) <==> if i <= n then HeldSince(es[..n], s, i) && !Ends(s, es[n])
                                     else i == n + 1 && Enters(s, Reached(es[..n]), es[n])
  {
    hide Reached;
    hide Ends;
    hide Enters;
    var n := |es| - 1;
    if 0 < i <= n {
      assert es[..n][..i - 1] == es[..i - 1] && es[..n][i - 1] == es[i - 1];
    }
    if HeldSince(es[..n], s, i) && !Ends(s, es[n]) {
      forall j | i <= j < |es| ensures !Ends(s, es[j]) {
        if j < n { assert es[..n][j] == es[j]; }
      }
    }
    if HeldSince(es, s, i) && i <= n {
      forall j | i <= j < n ensures !Ends(s, es[..n][j]) {
        assert es[..n][j] == es[j];
      }
    }
  }

  /** Over every sequence of events since boot, whoever dispatched them: the device is in a state exactly when
      some event took it there, or it is still booting, and no event since is one that ends the state. */
  lemma {:induction false} StateIsHeldSince(es: seq<Env>, s: SmState)
    ensures Reached(es) == s <==> exists i :: HeldSince(es, s, i)
    decreases |es|
  {
    hide Ends;
    hide Enters;
    hide Moved;
    if es == [] {
      assert s == BOOT ==> HeldSince(es, s, 0);
    } else {
      var n := |es| - 1;
      StateIsHeldSince(es[..n], s);
      StateStep(Reached(es[..n]), es[n], s);
      forall i: nat ensures HeldSince(es, s, i) <==>
                            if i <= n then HeldSince(es[..n], s, i) && !Ends(s, es[n])
                            else i == n + 1 && Enters(s, Reached(es[..n]), es[n]) {
        HeldSnoc(es, s, i);
      }
      assert Enters(s, Reached(es[..n]), es[n]) ==> HeldSince(es, s, n + 1);
    }
  }
}
