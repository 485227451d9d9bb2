/**
  Heartbeat connectivity watchdog (modules/heartbeat/heartbeat_receiver.py).

  Each call of `Run` takes one liveness sample: whether a HEARTBEAT message
  came back from the connection. A hit resets the consecutive-miss counter
  and makes the receiver "Connected"; a miss increments the counter, and once
  the counter reaches the threshold of 5 the receiver is "Disconnected".
 */
module Heartbeat {

  const CONNECTED: string := "Connected"
  const DISCONNECTED: string := "Disconnected"

  /** The fixed number of consecutive misses after which the link is declared lost. */
  const MAX_MISSED_HEARTBEATS: nat := 5

  predicate IsConnectivity(s: string) {
    s == CONNECTED || s == DISCONNECTED
  }

  /** The receiver's observable state: its connectivity string and its miss counter. */
  datatype Watchdog = Watchdog(state: string, missed: nat)

  /** A freshly created receiver. */
  function Initial(): Watchdog {
    Watchdog(DISCONNECTED, 0)
  }

  /** One sample: the transition taken by one call of `run()`. */
  function Step(w: Watchdog, received: bool): Watchdog {
    if received then
      Watchdog(CONNECTED, 0)
    else
      var missed := w.missed + 1;
      Watchdog(if missed >= MAX_MISSED_HEARTBEATS then DISCONNECTED else w.state, missed)
  }

  /** The state reached from `w` after the samples `h`, oldest first. */
  function Trace(w: Watchdog, h: seq<bool>): Watchdog
    decreases |h|
  {
    if h == [] then w else Step(Trace(w, h[..|h| - 1]), h[|h| - 1])
  }

  /** The length of the run of misses at the end of the sample history `h`. */
  function TrailingMisses(h: seq<bool>): (n: nat)
    ensures n <= |h|
    ensures forall i :: |h| - n <= i < |h| ==> !h[i]
    ensures n < |h| ==> h[|h| - 1 - n]
    decreases |h|
  {
    if h == [] || h[|h| - 1] then 0 else TrailingMisses(h[..|h| - 1]) + 1
  }

  /** `k` consecutive misses. */
  function Misses(k: nat): (h: seq<bool>)
    ensures |h| == k && true !in h
  {
    seq(k, _ => false)
  }

  lemma TraceSnoc(w: Watchdog, h: seq<bool>, b: bool)
    ensures Trace(w, h + [b]) == Step(Trace(w, h), b)
  {
  }

  /** Whatever happened before, one received heartbeat gives "Connected" with no misses. */
  lemma HitRecovers(w: Watchdog, h: seq<bool>)
    ensures Trace(w, h + [true]) == Watchdog(CONNECTED, 0)
  {
  }

  /** A miss never moves the state to "Connected". */
  lemma MissNeverConnects(w: Watchdog)
    ensures Step(w, false).state == CONNECTED ==> w.state == CONNECTED
  {
  }

  /** The connectivity string only ever takes its two values. */
  lemma {:induction false} TraceKeepsConnectivity(w: Watchdog, h: seq<bool>)
    requires IsConnectivity(w.state)
    ensures IsConnectivity(Trace(w, h).state)
    decreases |h|
  {
    if h != [] {
      TraceKeepsConnectivity(w, h[..|h| - 1]);
    }
  }

  /** From a fresh receiver, the counter is the length of the trailing run of misses. */
  lemma {:induction false} MissedIsTrailingMisses(h: seq<bool>)
    ensures Trace(Initial(), h).missed == TrailingMisses(h)
    decreases |h|
  {
    if h != [] {
      MissedIsTrailingMisses(h[..|h| - 1]);
    }
  }

  /**
    From a fresh receiver, the state is "Connected" exactly when some heartbeat
    has been received and fewer than 5 misses have followed the last one.
   */
  lemma {:induction false} ConnectedIff(h: seq<bool>)
    ensures Trace(Initial(), h).state == CONNECTED
        <==> true in h && TrailingMisses(h) < MAX_MISSED_HEARTBEATS
    decreases |h|
  {
    if h != [] {
      var p := h[..|h| - 1];
      ConnectedIff(p);
      MissedIsTrailingMisses(p);
      assert h == p + [h[|h| - 1]];
      if !h[|h| - 1] {
        assert true in h <==> true in p;
      }
    }
  }

  /**
    From "Connected" with no misses, k consecutive misses leave the receiver
    "Connected" while k < 5 and "Disconnected" from the 5th miss on, so the
    disconnection happens exactly on the 5th consecutive miss.
   */
  lemma {:induction false} MissesFromConnected(k: nat)
    ensures Trace(Watchdog(CONNECTED, 0), Misses(k))
         == Watchdog(if k < MAX_MISSED_HEARTBEATS then CONNECTED else DISCONNECTED, k)
  {
    if k > 0 {
      MissesFromConnected(k - 1);
      assert Misses(k)[..k - 1] == Misses(k - 1);
    }
  }

  /** From "Disconnected", any run of misses keeps the receiver "Disconnected". */
  lemma {:induction false} MissesKeepDisconnected(w: Watchdog, k: nat)
    requires w.state == DISCONNECTED
    ensures Trace(w, Misses(k)) == Watchdog(DISCONNECTED, w.missed + k)
  {
    if k > 0 {
      MissesKeepDisconnected(w, k - 1);
      assert Misses(k)[..k - 1] == Misses(k - 1);
    }
  }

  /**
    4 misses, 1 hit, 1 miss from "Connected": every prefix of the run leaves the
    receiver "Connected", because the hit resets the counter before 5
    consecutive misses accrue.
   */
  lemma FourMissesHitMissStaysConnected(n: nat)
    requires n <= 6
    ensures Trace(Watchdog(CONNECTED, 0), [false, false, false, false, true, false][..n]).state
         == CONNECTED
  {
    var h := [false, false, false, false, true, false];
    if n <= 4 {
      MissesFromConnected(n);
      assert h[..n] == Misses(n);
    } else {
      HitRecovers(Watchdog(CONNECTED, 0), h[..4]);
      assert h[..5] == h[..4] + [true];
      if n == 6 {
        TraceSnoc(Watchdog(CONNECTED, 0), h[..5], false);
        assert h[..6] == h[..5] + [false];
      }
    }
  }

  /** The receiver object: `run()` updates its counter and state in place. */
  class HeartbeatReceiver {
    var state: string
    var missedHeartbeats: nat
    const maxMissedHeartbeats: nat
    /** The liveness samples seen so far, oldest first. */
    ghost var history: seq<bool>

    ghost predicate Valid()
      reads this
    {
      && maxMissedHeartbeats == MAX_MISSED_HEARTBEATS
      && Watchdog(state, missedHeartbeats) == Trace(Initial(), history)
      && IsConnectivity(state)
      && missedHeartbeats == TrailingMisses(history)
    }

    constructor ()
      ensures Valid()
      ensures state == DISCONNECTED && missedHeartbeats == 0
      ensures maxMissedHeartbeats == 5 && history == []
    {
      state := DISCONNECTED;
      missedHeartbeats := 0;
      maxMissedHeartbeats := MAX_MISSED_HEARTBEATS;
      history := [];
    }

    /** Takes one sample (`received`: a HEARTBEAT came back) and returns the new state. */
    method Run(received: bool) returns (r: string)
      requires Valid()
      modifies this
      ensures Valid()
      ensures history == old(history) + [received]
      ensures Watchdog(state, missedHeartbeats) == Step(old(Watchdog(state, missedHeartbeats)), received)
      ensures received ==> missedHeartbeats == 0 && state == CONNECTED
      ensures !received ==> missedHeartbeats == old(missedHeartbeats) + 1
      ensures !received && missedHeartbeats >= maxMissedHeartbeats ==> state == DISCONNECTED
      ensures !received && missedHeartbeats < maxMissedHeartbeats ==> state == old(state)
      ensures state == CONNECTED <==> true in history && missedHeartbeats < maxMissedHeartbeats
      ensures r == state
    {
      if received {
        missedHeartbeats := 0;
        if state != CONNECTED {
          state := CONNECTED;
        }
      } else {
        missedHeartbeats := missedHeartbeats + 1;
        if missedHeartbeats >= maxMissedHeartbeats {
          if state != DISCONNECTED {
            state := DISCONNECTED;
          }
        }
      }
      TraceSnoc(Initial(), old(history), received);
      history := history + [received];
      TraceKeepsConnectivity(Initial(), history);
      MissedIsTrailingMisses(history);
      ConnectedIff(history);
      r := state;
    }
  }
}
