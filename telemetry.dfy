/**
  Telemetry pairing loop (modules/telemetry/telemetry.py).

  `Run` polls the connection for an ATTITUDE and a LOCAL_POSITION_NED message,
  keeps the first of each, and as soon as both are held combines them into a
  `TelemetryData` record stamped with the larger `time_boot_ms`. If the time
  budget runs out first it returns `None`.

  The connection is a parameter: `inbox[i]` holds what `recv_match` would
  return for each message type if asked during loop iteration `i`, and the
  wall-clock budget is the number of iterations, `|inbox|`. Float payload
  fields are only copied, so they have the opaque type `F`.
 */
module Telemetry {
  import opened Wrappers

  /** The fields of a MAVLink ATTITUDE message that the loop reads. */
  datatype AttitudeMsg<F> = AttitudeMsg(
    timeBootMs: nat,
    roll: F, pitch: F, yaw: F,
    rollSpeed: F, pitchSpeed: F, yawSpeed: F)

  /** The fields of a MAVLink LOCAL_POSITION_NED message that the loop reads. */
  datatype PositionMsg<F> = PositionMsg(
    timeBootMs: nat,
    x: F, y: F, z: F,
    vx: F, vy: F, vz: F)

  /** The record `Run` builds: the most recent attitude and position reading. */
  datatype TelemetryData<F> = TelemetryData(
    timeSinceBoot: nat,
    x: F, y: F, z: F,
    xVelocity: F, yVelocity: F, zVelocity: F,
    roll: F, pitch: F, yaw: F,
    rollSpeed: F, pitchSpeed: F, yawSpeed: F)

  /** What the connection answers, per message type, during one loop iteration. */
  datatype Poll<F> = Poll(attitude: Option<AttitudeMsg<F>>, position: Option<PositionMsg<F>>)

  datatype MessageType = Attitude | LocalPositionNed

  /** One call of `recv_match`: in which loop iteration, for which message type. */
  datatype PollRequest = PollRequest(iteration: nat, kind: MessageType)

  function Max(a: nat, b: nat): (m: nat)
    ensures a <= m && b <= m && (m == a || m == b)
  {
    if a < b then b else a
  }

  /** The index of the first present value in `s`, if any. */
  function FirstIndex<T>(s: seq<Option<T>>): (r: Option<nat>)
    ensures r.None? <==> forall j :: 0 <= j < |s| ==> s[j].None?
    ensures r.Some? ==> r.value < |s| && s[r.value].Some?
    ensures r.Some? ==> forall j :: 0 <= j < r.value ==> s[j].None?
  {
    if s == [] then None
    else if s[0].Some? then Some(0)
    else match FirstIndex(s[1..])
      case None => None
      case Some(k) => Some(k + 1)
  }

  /** The ATTITUDE answers of the connection, iteration by iteration. */
  function Attitudes<F>(inbox: seq<Poll<F>>): (s: seq<Option<AttitudeMsg<F>>>)
    ensures |s| == |inbox|
    ensures forall i :: 0 <= i < |inbox| ==> s[i] == inbox[i].attitude
  {
    seq(|inbox|, i requires 0 <= i < |inbox| => inbox[i].attitude)
  }

  /** The LOCAL_POSITION_NED answers of the connection, iteration by iteration. */
  function Positions<F>(inbox: seq<Poll<F>>): (s: seq<Option<PositionMsg<F>>>)
    ensures |s| == |inbox|
    ensures forall i :: 0 <= i < |inbox| ==> s[i] == inbox[i].position
  {
    seq(|inbox|, i requires 0 <= i < |inbox| => inbox[i].position)
  }

  /** Whether a message of this stream has been received before iteration `i`. */
  predicate HeldBefore<T>(s: seq<Option<T>>, i: nat) {
    FirstIndex(s).Some? && FirstIndex(s).value < i
  }

  /** The record built from one attitude and one position message. */
  function Combine<F>(a: AttitudeMsg<F>, p: PositionMsg<F>): TelemetryData<F> {
    TelemetryData(
      Max(0, Max(a.timeBootMs, p.timeBootMs)),
      p.x, p.y, p.z, p.vx, p.vy, p.vz,
      a.roll, a.pitch, a.yaw, a.rollSpeed, a.pitchSpeed, a.yawSpeed)
  }

  /**
    Reference result: the first ATTITUDE and the first LOCAL_POSITION_NED
    answer combined, or `None` when either never arrives within the budget.
   */
  function Expected<F>(inbox: seq<Poll<F>>): Option<TelemetryData<F>> {
    match (FirstIndex(Attitudes(inbox)), FirstIndex(Positions(inbox)))
    case (Some(ka), Some(kp)) => Some(Combine(inbox[ka].attitude.value, inbox[kp].position.value))
    case _ => None
  }

  /** Reference number of loop iterations: up to the one where both are first held, else all. */
  function Iterations<F>(inbox: seq<Poll<F>>): nat {
    match (FirstIndex(Attitudes(inbox)), FirstIndex(Positions(inbox)))
    case (Some(ka), Some(kp)) => Max(ka, kp) + 1
    case _ => |inbox|
  }

  /** Reference calls of iteration `i`: each message type is asked for only while none is held. */
  function IterationPolls<F>(inbox: seq<Poll<F>>, i: nat): seq<PollRequest> {
    (if HeldBefore(Attitudes(inbox), i) then [] else [PollRequest(i, Attitude)])
    + (if HeldBefore(Positions(inbox), i) then [] else [PollRequest(i, LocalPositionNed)])
  }

  /** Reference calls of the first `n` iterations, in order. */
  function PollsUpTo<F>(inbox: seq<Poll<F>>, n: nat): seq<PollRequest> {
    if n == 0 then [] else PollsUpTo(inbox, n - 1) + IterationPolls(inbox, n - 1)
  }

  /**
    The result is present exactly when, within the budget, some iteration
    answers with an ATTITUDE and some iteration answers with a LOCAL_POSITION_NED.
   */
  lemma ExpectedSomeIff<F>(inbox: seq<Poll<F>>)
    ensures Expected(inbox).Some? <==>
      && (exists i :: 0 <= i < |inbox| && inbox[i].attitude.Some?)
      && (exists j :: 0 <= j < |inbox| && inbox[j].position.Some?)
  {
  }

  /**
    With `ka` the iteration of the first ATTITUDE and `kp` that of the first
    LOCAL_POSITION_NED, the record takes its position and velocity from the
    message of iteration `kp` only, its angles and rates from the message of
    iteration `ka` only, its time from the larger of the two `time_boot_ms`,
    and the loop stops in iteration max(ka, kp).
   */
  lemma ExpectedFromFirstMessages<F>(inbox: seq<Poll<F>>, ka: nat, kp: nat)
    requires ka < |inbox| && inbox[ka].attitude.Some?
    requires forall j :: 0 <= j < ka ==> inbox[j].attitude.None?
    requires kp < |inbox| && inbox[kp].position.Some?
    requires forall j :: 0 <= j < kp ==> inbox[j].position.None?
    ensures Expected(inbox).Some?
    ensures Iterations(inbox) == Max(ka, kp) + 1
    ensures var d, a, p := Expected(inbox).value, inbox[ka].attitude.value, inbox[kp].position.value;
      && d.timeSinceBoot == Max(a.timeBootMs, p.timeBootMs)
      && d.x == p.x && d.y == p.y && d.z == p.z
      && d.xVelocity == p.vx && d.yVelocity == p.vy && d.zVelocity == p.vz
      && d.roll == a.roll && d.pitch == a.pitch && d.yaw == a.yaw
      && d.rollSpeed == a.rollSpeed && d.pitchSpeed == a.pitchSpeed && d.yawSpeed == a.yawSpeed
  {
  }

  /** The loop never runs past the budget. */
  lemma IterationsWithinBudget<F>(inbox: seq<Poll<F>>)
    ensures Iterations(inbox) <= |inbox|
  {
  }

  /** Every call made in the first `n` iterations belongs to one of them. */
  lemma {:induction false} PollsBelow<F>(inbox: seq<Poll<F>>, n: nat)
    ensures forall r :: r in PollsUpTo(inbox, n) ==> r.iteration < n
  {
    if n > 0 {
      PollsBelow(inbox, n - 1);
    }
  }

  predicate NoRepeats<T(==)>(s: seq<T>) {
    forall p, q :: 0 <= p < q < |s| ==> s[p] != s[q]
  }

  /** Each iteration asks for each message type at most once. */
  lemma {:induction false} PollsDistinct<F>(inbox: seq<Poll<F>>, n: nat)
    ensures NoRepeats(PollsUpTo(inbox, n))
  {
    if n > 0 {
      PollsDistinct(inbox, n - 1);
      PollsBelow(inbox, n - 1);
      var prev, step := PollsUpTo(inbox, n - 1), IterationPolls(inbox, n - 1);
      var ps := prev + step;
      assert forall r :: r in step ==> r.iteration == n - 1;
      assert |step| == 2 ==> step[0].kind != step[1].kind;
      forall p, q | 0 <= p < q < |ps| ensures ps[p] != ps[q] {
        if q >= |prev| {
          assert ps[q] == step[q - |prev|];
          if p < |prev| {
            assert ps[p] in prev;
          } else {
            assert ps[p] == step[p - |prev|];
          }
        } else {
          assert ps[p] == prev[p] && ps[q] == prev[q];
        }
      }
    }
  }

  /**
    A message type is asked for only while no message of that type is held:
    once the first ATTITUDE (LOCAL_POSITION_NED) has been received, ATTITUDE
    (LOCAL_POSITION_NED) is not polled again.
   */
  lemma {:induction false} NoPollOnceHeld<F>(inbox: seq<Poll<F>>, n: nat)
    ensures forall r :: r in PollsUpTo(inbox, n) && r.kind == Attitude ==>
      !HeldBefore(Attitudes(inbox), r.iteration)
    ensures forall r :: r in PollsUpTo(inbox, n) && r.kind == LocalPositionNed ==>
      !HeldBefore(Positions(inbox), r.iteration)
  {
    if n > 0 {
      NoPollOnceHeld(inbox, n - 1);
    }
  }

  /** Conversely, while no message of a type is held, every iteration asks for it. */
  lemma {:induction false} PollsWhileMissing<F>(inbox: seq<Poll<F>>, n: nat, i: nat)
    requires i < n
    ensures !HeldBefore(Attitudes(inbox), i) ==> PollRequest(i, Attitude) in PollsUpTo(inbox, n)
    ensures !HeldBefore(Positions(inbox), i) ==> PollRequest(i, LocalPositionNed) in PollsUpTo(inbox, n)
  {
    if i < n - 1 {
      PollsWhileMissing(inbox, n - 1, i);
    }
  }

  /** Once a stream has delivered a message, extending it does not move its first index. */
  lemma FirstIndexOfExtension<T>(s: seq<Option<T>>, longer: seq<Option<T>>)
    requires FirstIndex(s).Some?
    requires |s| <= |longer| && forall i :: 0 <= i < |s| ==> longer[i] == s[i]
    ensures FirstIndex(longer) == FirstIndex(s)
  {
  }

  /**
    A longer time budget cannot change a result already produced: the extra
    iterations are never reached.
   */
  lemma LongerBudgetSameResult<F>(inbox: seq<Poll<F>>, more: seq<Poll<F>>)
    requires Expected(inbox).Some?
    ensures Expected(inbox + more) == Expected(inbox)
    ensures Iterations(inbox + more) == Iterations(inbox)
    ensures PollsUpTo(inbox + more, Iterations(inbox)) == PollsUpTo(inbox, Iterations(inbox))
  {
    var whole := inbox + more;
    FirstIndexOfExtension(Attitudes(inbox), Attitudes(whole));
    FirstIndexOfExtension(Positions(inbox), Positions(whole));
    SamePollsOnSameHeld(inbox, whole, Iterations(inbox));
  }

  lemma {:induction false} SamePollsOnSameHeld<F>(inbox: seq<Poll<F>>, other: seq<Poll<F>>, n: nat)
    requires FirstIndex(Attitudes(inbox)) == FirstIndex(Attitudes(other))
    requires FirstIndex(Positions(inbox)) == FirstIndex(Positions(other))
    ensures PollsUpTo(inbox, n) == PollsUpTo(other, n)
  {
    if n > 0 {
      SamePollsOnSameHeld(inbox, other, n - 1);
    }
  }

  /**
    One call of `Telemetry.run`. `polls` records the calls of `recv_match`
    made, in order.
   */
  method Run<F>(inbox: seq<Poll<F>>) returns (data: Option<TelemetryData<F>>, ghost polls: seq<PollRequest>)
    ensures data == Expected(inbox)
    ensures polls == PollsUpTo(inbox, Iterations(inbox))
  {
    var attitudeMsg: Option<AttitudeMsg<F>> := None;
    var positionMsg: Option<PositionMsg<F>> := None;
    var mostRecentTime: nat := 0;
    polls := [];
    ghost var ka: nat, kp: nat := 0, 0;
    var i := 0;
    while i < |inbox|
      invariant i <= |inbox|
      invariant attitudeMsg.Some? <==> HeldBefore(Attitudes(inbox), i)
      invariant positionMsg.Some? <==> HeldBefore(Positions(inbox), i)
      invariant attitudeMsg.Some? ==> FirstIndex(Attitudes(inbox)) == Some(ka) && attitudeMsg == inbox[ka].attitude
      invariant positionMsg.Some? ==> FirstIndex(Positions(inbox)) == Some(kp) && positionMsg == inbox[kp].position
      invariant !(attitudeMsg.Some? && positionMsg.Some?)
      invariant mostRecentTime == Max(
        if attitudeMsg.Some? then attitudeMsg.value.timeBootMs else 0,
        if positionMsg.Some? then positionMsg.value.timeBootMs else 0)
      invariant polls == PollsUpTo(inbox, i)
    {
      ghost var step: seq<PollRequest> := [];
      if attitudeMsg.None? {
        step := step + [PollRequest(i, Attitude)];
        var msg := inbox[i].attitude;
        if msg.Some? {
          attitudeMsg := msg;
          ka := i;
          mostRecentTime := Max(mostRecentTime, msg.value.timeBootMs);
        }
      }
      if positionMsg.None? {
        step := step + [PollRequest(i, LocalPositionNed)];
        var msg := inbox[i].position;
        if msg.Some? {
          positionMsg := msg;
          kp := i;
          mostRecentTime := Max(mostRecentTime, msg.value.timeBootMs);
        }
      }
      assert step == IterationPolls(inbox, i);
      polls := polls + step;
      if attitudeMsg.Some? && positionMsg.Some? {
        var a, p := attitudeMsg.value, positionMsg.value;
        data := Some(TelemetryData(
          mostRecentTime,
          p.x, p.y, p.z, p.vx, p.vy, p.vz,
          a.roll, a.pitch, a.yaw, a.rollSpeed, a.pitchSpeed, a.yawSpeed));
        return;
      }
      i := i + 1;
    }
    data := None;
  }
}
