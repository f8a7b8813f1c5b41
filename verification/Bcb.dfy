/** The detector of the BCB toggle, by which an EV wakes up a paused HLC session. */
module BcbToggle {
  import opened ChargerTypes

  /** A pulse begins; the first one begins the sequence. */
  function Started(b: BcbContext, now: int): BcbContext {
    if b.count == 0 then b.(pulseStart := now, sequenceStart := now, started := true) else b.(pulseStart := now)
  }

  /** A pulse ends: one of valid length counts, one of invalid length restarts the count. */
  function Stopped(b: BcbContext, now: int): BcbContext {
    if !b.started then b
    else if IsValid(Pulse(b.pulseStart, now)) then b.(count := b.count + 1)
    else b.(count := 0)
  }

  /** The EV has toggled: three pulses, or the time for them is over. */
  predicate ToggleSeen(b: BcbContext, now: int) {
    b.started && (now - b.sequenceStart > TT_EVSE_VALD_TOGGLE || b.count >= 3)
  }

  datatype Pulse = Pulse(start: int, end: int)

  predicate IsValid(p: Pulse) {
    TP_EV_VALD_STATE_DURATION_MIN < p.end - p.start < TP_EV_VALD_STATE_DURATION_MAX
  }

  /** The detector after a number of pulses. */
  function Replay(b: BcbContext, pulses: seq<Pulse>): BcbContext {
    if pulses == [] then b
    else
      var p := pulses[|pulses| - 1];
      Stopped(Started(Replay(b, pulses[..|pulses| - 1]), p.start), p.end)
  }

  /** The pulses from `k` on are valid, and no earlier one extends them. */
  ghost predicate IsLastRun(pulses: seq<Pulse>, k: nat) {
    && k <= |pulses|
    && (forall j :: k <= j < |pulses| ==> IsValid(pulses[j]))
    && (k > 0 ==> !IsValid(pulses[k - 1]))
  }

  /** The detector counts exactly the unbroken run of valid pulses at the end, and times it from its first pulse. */
  lemma {:induction false} ReplayCounts(b: BcbContext, pulses: seq<Pulse>, k: nat)
    requires b.count == 0 && !b.started && IsLastRun(pulses, k)
    ensures var r := Replay(b, pulses);
      && r.count == |pulses| - k
      && (r.started <==> pulses != [])
      && (k < |pulses| ==> r.sequenceStart == pulses[k].start)
    decreases |pulses|
  {
    if pulses != [] {
      var n := |pulses| - 1;
      if k <= n {
        assert IsLastRun(pulses[..n], k);
        ReplayCounts(b, pulses[..n], k);
      } else {
        var j := LastRun(pulses[..n]);
        ReplayCounts(b, pulses[..n], j);
      }
    }
  }

  lemma LastRun(pulses: seq<Pulse>) returns (k: nat)
    ensures IsLastRun(pulses, k)
    decreases |pulses|
  {
    if pulses == [] || !IsValid(pulses[|pulses| - 1]) {
      k := |pulses|;
    } else {
      k := LastRun(pulses[..|pulses| - 1]);
    }
  }

  /**
   A toggle is seen exactly from the third valid pulse in a row on, or once the time since the sequence began
   is over. A sequence begins with the first pulse and after every invalid one; even an invalid pulse begins one.
   */
  lemma ToggleMeaning(b: BcbContext, pulses: seq<Pulse>, k: nat, now: int)
    requires b.count == 0 && !b.started && pulses != [] && IsLastRun(pulses[..|pulses| - 1], k)
    ensures ToggleSeen(Replay(b, pulses), now) <==>
      || now - pulses[k].start > TT_EVSE_VALD_TOGGLE
      || (IsValid(pulses[|pulses| - 1]) && |pulses| - k >= 3)
  {
    ReplayCounts(b, pulses[..|pulses| - 1], k);
  }
}
