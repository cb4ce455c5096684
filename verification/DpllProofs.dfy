/** What every run of the DPLL keeps. */
module DpllProofs {
  import opened PtpTypes
  import opened HoldoverTimer
  import opened DpllMachine

  // ---------------------------------------------------------------- holdover safety

  ghost predicate Safe(d: Device) {
    && d.parked == (if d.onHoldover then 1 else 0)
    && (d.onHoldover ==> d.inSpec)
    && (d.state == Holdover ==> d.onHoldover)
    && d.state in {Freerun, Holdover, Locked}
    && !d.stuck
  }

  /** The state a decision may start from: like Safe, but the holdover state may be a goroutine's leftover. */
  ghost predicate Sound(d: Device) {
    && d.parked == (if d.onHoldover then 1 else 0)
    && (d.onHoldover ==> d.inSpec)
    && d.state in {Freerun, Holdover, Locked}
    && !d.stuck
  }

  /** With nobody parked a decision wakes nobody, whatever the schedule. */
  lemma {:induction false} QuietDecision(c: Config, d: Device, late: bool)
    requires c.upstream == FromGnss && Sound(d) && !d.onHoldover
    ensures Decide(c, d, late) == Decide(c, d, !late)
    ensures Sound(Decide(c, d, late))
    ensures Decide(c, d, late).onHoldover <==> HoldoverCapable(Status(d)) && d.sourceLost && d.inSpec
    ensures Decide(c, d, late).onHoldover ==> Decide(c, d, late).state == Holdover
    ensures Decide(c, d, late).state == Holdover ==> Decide(c, d, late).onHoldover || d.state == Holdover
    ensures Status(Decide(c, d, late)) == Status(d)
    ensures NoLock(Status(d)) ==> Decide(c, d, late).state == Freerun && !Decide(c, d, late).inSpec
    ensures Status(d) == LOCKED ==> Decide(c, d, late).state != Holdover && Decide(c, d, late).inSpec
    ensures HoldoverCapable(Status(d)) && !d.sourceLost && OffsetInRange(c, d) ==>
              Decide(c, d, late).state == Locked && Decide(c, d, late).inSpec
  {}

  lemma {:induction false} DecisionSafe(c: Config, d: Device, late: bool)
    requires c.upstream == FromGnss && Safe(d)
    ensures Safe(Decide(c, d, late))
  {
    if d.onHoldover {
      var status := Status(d);
      if NoLock(status) {
        var d1 := d.(inSpec := false, sourceLost := true);
        QuietDecision(c, Woken(d1), late);
        QuietDecision(c, Woken(ToFreerun(d1)), late);
      } else {
        QuietDecision(c, Woken(d), late);
        QuietDecision(c, Woken(ToLocked(d)), late);
      }
    } else {
      QuietDecision(c, d, late);
    }
  }

  lemma {:induction false} StepSafe(c: Config, d: Device, st: Step)
    requires ValidConfig(c) && c.upstream == FromGnss && Safe(d)
    ensures Safe(Next(c, d, st))
  {
    var x := Input(c, d, st);
    if x.Some? { DecisionSafe(c, x.value, st.late); }
  }

  /**
   * Over every run of a GNSS-sourced DPLL: one holdover at most, live exactly when onHoldover; onHoldover only
   * in spec; state HOLDOVER only on holdover; no blocking send without a receiver.
   */
  lemma {:induction false} RunSafe(c: Config, steps: seq<Step>)
    requires ValidConfig(c) && c.upstream == FromGnss
    ensures Safe(Run(c, steps))
  {
    if steps != [] {
      RunSafe(c, steps[..|steps| - 1]);
      StepSafe(c, Run(c, steps[..|steps| - 1]), steps[|steps| - 1]);
    }
  }

  /** A decision that tells the holdover to close. */
  predicate Closes(c: Config, x: Device) {
    || NoLock(Status(x))
    || ((Status(x) == LOCKED || HoldoverCapable(Status(x))) && !x.sourceLost && OffsetInRange(c, x))
  }

  predicate Ends(c: Config, d: Device, st: Step)
    requires ValidConfig(c)
  {
    var x := Input(c, d, st);
    x.Some? && (st.Tick? || st.Timeout? || Closes(c, x.value))
  }

  lemma {:induction false} CloseEnds(c: Config, x: Device, late: bool)
    requires c.upstream == FromGnss && Safe(x) && x.onHoldover
    ensures Decide(c, x, late).onHoldover <==> !Closes(c, x)
    ensures Closes(c, x) ==> Decide(c, x, late).state != Holdover
    ensures Closes(c, x) ==> (Decide(c, x, late).inSpec <==> !NoLock(Status(x)))
    ensures !Closes(c, x) ==> Decide(c, x, late).inSpec
  {
    if NoLock(Status(x)) {
      var d1 := x.(inSpec := false, sourceLost := true);
      QuietDecision(c, Woken(d1), late);
      QuietDecision(c, Woken(ToFreerun(d1)), late);
    } else {
      QuietDecision(c, Woken(x), late);
      QuietDecision(c, Woken(ToLocked(x)), late);
    }
  }

  /** A close or an expiry ends the holdover for good: the decision that follows neither keeps nor restarts it. */
  lemma {:induction false} HoldoverEnds(c: Config, d: Device, st: Step)
    requires ValidConfig(c) && c.upstream == FromGnss && Safe(d) && d.onHoldover
    ensures Next(c, d, st).onHoldover <==> !Ends(c, d, st)
    ensures Ends(c, d, st) ==> Next(c, d, st).parked == 0 && Next(c, d, st).state != Holdover
  {
    StepSafe(c, d, st);
    var x := Input(c, d, st);
    if x.Some? {
      if st.Tick? || st.Timeout? {
        QuietDecision(c, x.value, st.late);
      } else {
        CloseEnds(c, x.value, st.late);
      }
    }
  }

  /** Whatever came before, the timeout ends the holdover, and so does a tick from the first out-of-spec second on. */
  lemma {:induction false} EndsBy(c: Config, d: Device, st: Step)
    requires ValidConfig(c) && c.upstream == FromGnss && c.maxHoldoverOffset > 0 && Safe(d) && d.onHoldover
    ensures st.Timeout? ==> !Next(c, d, st).onHoldover
    ensures st.Tick? ==> (Next(c, d, st).onHoldover <==>
                            st.seconds < FirstOutOfSpec(c.maxHoldoverOffset, c.holdoverTimeout, c.maxInSpecOffset))
  {
    HoldoverEnds(c, d, st);
    if st.Tick? { OutOfSpecFrom(c.maxHoldoverOffset, c.holdoverTimeout, c.maxInSpecOffset, st.seconds); }
  }

  /** Off holdover, ticks and timeouts find nobody. */
  lemma {:induction false} Idle(c: Config, d: Device, st: Step)
    requires ValidConfig(c) && Safe(d) && !d.onHoldover && (st.Tick? || st.Timeout?)
    ensures Next(c, d, st) == d
  {}

  /** The last second of the timeout: its tick may come before the timeout itself, or not at all. */
  ghost function LastSecond(c: Config, d: Device, tickFirst: bool, late: bool): Device
    requires ValidConfig(c)
  {
    Next(c, if tickFirst then Next(c, d, Tick(c.holdoverTimeout, late)) else d, Timeout(late))
  }

  /** The device n seconds into an undisturbed holdover: one tick a second, and the timeout at its own second. */
  ghost function Elapsed(c: Config, d: Device, n: nat, tickFirst: bool, late: bool): Device
    requires ValidConfig(c)
  {
    if n == 0 then d
    else
      var before := Elapsed(c, d, n - 1, tickFirst, late);
      if n == c.holdoverTimeout then LastSecond(c, before, tickFirst, late) else Next(c, before, Tick(n, late))
  }

  lemma {:induction false} LastSecondEnds(c: Config, d: Device, tickFirst: bool, late: bool)
    requires ValidConfig(c) && c.upstream == FromGnss && c.maxHoldoverOffset > 0 && Safe(d)
    ensures Safe(LastSecond(c, d, tickFirst, late)) && !LastSecond(c, d, tickFirst, late).onHoldover
  {
    var x := if tickFirst then Next(c, d, Tick(c.holdoverTimeout, late)) else d;
    StepSafe(c, d, Tick(c.holdoverTimeout, late));
    StepSafe(c, x, Timeout(late));
    if x.onHoldover { EndsBy(c, x, Timeout(late)); } else { Idle(c, x, Timeout(late)); }
  }

  /** Undisturbed, a holdover lasts exactly min(T, ceil(T(2S+1)/(2M))) seconds, and is over from then on. */
  lemma {:induction false} HoldoverLasts(c: Config, d: Device, n: nat, tickFirst: bool, late: bool)
    requires ValidConfig(c) && c.upstream == FromGnss && c.maxHoldoverOffset > 0 && Safe(d) && d.onHoldover
    ensures Safe(Elapsed(c, d, n, tickFirst, late))
    ensures Elapsed(c, d, n, tickFirst, late).onHoldover <==>
            n < Min(c.holdoverTimeout, FirstOutOfSpec(c.maxHoldoverOffset, c.holdoverTimeout, c.maxInSpecOffset))
  {
    OutOfSpecFrom(c.maxHoldoverOffset, c.holdoverTimeout, c.maxInSpecOffset, 0);
    if n > 0 {
      var before := Elapsed(c, d, n - 1, tickFirst, late);
      HoldoverLasts(c, d, n - 1, tickFirst, late);
      if n == c.holdoverTimeout {
        LastSecondEnds(c, before, tickFirst, late);
      } else {
        StepSafe(c, before, Tick(n, late));
        if before.onHoldover { EndsBy(c, before, Tick(n, late)); } else { Idle(c, before, Tick(n, late)); }
      }
    }
  }

  // ---------------------------------------------------------------- how holdover is earned

  /** A decision that shows the DPLL in spec: worst status LOCKED, or the source present and the offset in range. */
  predicate ShowsInSpec(c: Config, x: Device) {
    Status(x) == LOCKED || (HoldoverCapable(Status(x)) && !x.sourceLost && OffsetInRange(c, x))
  }

  predicate Earns(c: Config, d: Device, st: Step)
    requires ValidConfig(c)
  {
    st.StartSysfs? || (Input(c, d, st).Some? && ShowsInSpec(c, Input(c, d, st).value))
  }

  lemma {:induction false} DecisionInSpec(c: Config, x: Device, late: bool)
    requires c.upstream == FromGnss && Safe(x)
    ensures Decide(c, x, late).inSpec ==> ShowsInSpec(c, x) || x.inSpec
    ensures !x.onHoldover && Decide(c, x, late).onHoldover ==> x.inSpec
  {
    if x.onHoldover { CloseEnds(c, x, late); } else { QuietDecision(c, x, late); }
  }

  lemma {:induction false} StepInSpec(c: Config, d: Device, st: Step)
    requires ValidConfig(c) && c.upstream == FromGnss && Safe(d)
    ensures Next(c, d, st).inSpec ==> Earns(c, d, st) || d.inSpec
    ensures !d.onHoldover && Next(c, d, st).onHoldover ==> d.inSpec && Next(c, d, st).inSpec
  {
    StepSafe(c, d, st);
    var x := Input(c, d, st);
    if x.Some? { DecisionInSpec(c, x.value, st.late); }
  }

  /** The device at creation and after each step. */
  ghost function Trace(c: Config, steps: seq<Step>): (tr: seq<Device>)
    requires ValidConfig(c)
    ensures |tr| == |steps| + 1 && tr[|steps|] == Run(c, steps)
  {
    (if steps == [] then [] else Trace(c, steps[..|steps| - 1])) + [Run(c, steps)]
  }

  /** Step k showed the DPLL in spec, and inSpec was not cleared after any step since. */
  ghost predicate EarnedAt(c: Config, steps: seq<Step>, tr: seq<Device>, k: nat)
    requires ValidConfig(c) && |tr| == |steps| + 1
  {
    && k < |steps|
    && Earns(c, tr[k], steps[k])
    && forall j :: k < j <= |steps| ==> tr[j].inSpec
  }

  lemma {:induction false} EarnedExtends(c: Config, steps: seq<Step>, tr: seq<Device>, k: nat, st: Step, d: Device)
    requires ValidConfig(c) && |tr| == |steps| + 1 && EarnedAt(c, steps, tr, k) && d.inSpec
    ensures EarnedAt(c, steps + [st], tr + [d], k)
  {}

  /** inSpec always goes back to a step that earned it, with no clearing in between. */
  lemma {:induction false} InSpecEarned(c: Config, steps: seq<Step>) returns (k: nat)
    requires ValidConfig(c) && c.upstream == FromGnss && Run(c, steps).inSpec
    ensures EarnedAt(c, steps, Trace(c, steps), k)
  {
    var n := |steps| - 1;
    var before, st := steps[..n], steps[n];
    var d := Run(c, before);
    RunSafe(c, before);
    StepInSpec(c, d, st);
    assert before + [st] == steps;
    if Earns(c, d, st) {
      k := n;
    } else {
      k := InSpecEarned(c, before);
      EarnedExtends(c, before, Trace(c, before), k, st, Run(c, steps));
    }
  }

  /** Every entry into holdover was earned before the entering step, and inSpec held ever since. */
  lemma {:induction false} HoldoverEarned(c: Config, steps: seq<Step>, st: Step) returns (k: nat)
    requires ValidConfig(c) && c.upstream == FromGnss
    requires !Run(c, steps).onHoldover && Next(c, Run(c, steps), st).onHoldover
    ensures EarnedAt(c, steps, Trace(c, steps), k)
  {
    RunSafe(c, steps);
    StepInSpec(c, Run(c, steps), st);
    k := InSpecEarned(c, steps);
  }

  ghost function After(c: Config, d: Device, steps: seq<Step>): Device
    requires ValidConfig(c)
    decreases steps
  {
    if steps == [] then d else After(c, Next(c, d, steps[0]), steps[1..])
  }

  /** No step of the run shows the DPLL in spec. */
  ghost predicate NeverEarns(c: Config, d: Device, steps: seq<Step>)
    requires ValidConfig(c)
    decreases steps
  {
    steps == [] || (!Earns(c, d, steps[0]) && NeverEarns(c, Next(c, d, steps[0]), steps[1..]))
  }

  lemma {:induction false} UnearnedStays(c: Config, d: Device, steps: seq<Step>)
    requires ValidConfig(c) && c.upstream == FromGnss && Safe(d) && !d.inSpec && NeverEarns(c, d, steps)
    ensures !After(c, d, steps).inSpec && !After(c, d, steps).onHoldover
    decreases steps
  {
    if steps != [] {
      StepSafe(c, d, steps[0]);
      StepInSpec(c, d, steps[0]);
      UnearnedStays(c, Next(c, d, steps[0]), steps[1..]);
    }
  }

  /** An expired holdover cannot simply re-enter: over any run, until the DPLL is shown in spec again, none starts. */
  lemma {:induction false} ExpiryNeedsNewProof(c: Config, d: Device, expiry: Step, steps: seq<Step>)
    requires ValidConfig(c) && c.upstream == FromGnss && Safe(d)
    requires (expiry.Tick? || expiry.Timeout?) && Input(c, d, expiry).Some?
    requires !ShowsInSpec(c, Input(c, d, expiry).value) && NeverEarns(c, Next(c, d, expiry), steps)
    ensures var d' := After(c, Next(c, d, expiry), steps); !d'.inSpec && !d'.onHoldover
  {
    var x := Input(c, d, expiry).value;
    assert !Next(c, d, expiry).inSpec by {
      QuietDecision(c, x, expiry.late);
      DecisionInSpec(c, x, expiry.late);
    }
    StepSafe(c, d, expiry);
    UnearnedStays(c, Next(c, d, expiry), steps);
  }

  // ---------------------------------------------------------------- termination of the monitor

  /** The monitor exits: it closes the channel, so a parked holdover goroutine wakes up and decides once more. */
  function Exit(c: Config, d: Device, late: bool): Device {
    if d.onHoldover && d.parked > 0 then Decide(c, Woken(d), late) else d
  }

  /**
   * Unlike every other close, the one at exit may restart the holdover: exactly when the source is still lost
   * and the hardware can hold over. It leaves a stale HOLDOVER state exactly when no decision arm applies.
   */
  lemma {:induction false} ExitRestartsIff(c: Config, d: Device, late: bool)
    requires c.upstream == FromGnss && Safe(d)
    ensures var d' := Exit(c, d, late);
            && (d'.onHoldover <==> d.onHoldover && d.sourceLost && HoldoverCapable(Status(d)))
            && (d'.state == Holdover && !d'.onHoldover <==>
                  d.state == Holdover && Status(d) != LOCKED && !NoLock(Status(d)) &&
                  (HoldoverCapable(Status(d)) ==> !d.sourceLost && !OffsetInRange(c, d)))
  {
    if d.onHoldover { QuietDecision(c, Woken(d), late); }
  }

  lemma {:induction false} DecidesLocked(c: Config, x: Device, late: bool)
    requires c.upstream == FromGnss && HoldoverCapable(Status(x)) && !x.sourceLost && OffsetInRange(c, x) && !x.onHoldover
    ensures Decide(c, x, late) == ToLocked(x)
  {}

  lemma {:induction false} DecidesHoldover(c: Config, x: Device, late: bool)
    requires c.upstream == FromGnss && HoldoverCapable(Status(x)) && x.sourceLost && x.inSpec && !x.onHoldover
    ensures Decide(c, x, late) == StartHoldover(x)
  {}

  lemma {:induction false} RunStep(c: Config, steps: seq<Step>, st: Step)
    requires ValidConfig(c)
    ensures Run(c, steps + [st]) == Next(c, Run(c, steps), st)
  {
    assert (steps + [st])[..|steps|] == steps;
  }

  /** From creation: a device that can hold over locks, loses GNSS and goes on holdover. */
  lemma {:induction false} SourceLossRun(c: Config, late: bool)
    requires ValidConfig(c) && c.upstream == FromGnss && c.thresholdMin <= 7 <= c.thresholdMax
    ensures var d := Run(c, [StartNetlink, Reading(Some(LOCKED_HO_ACQ), Some(LOCKED_HO_ACQ), Some(7), late),
                             Notify(Locked, late), Notify(Freerun, late)]);
            d.state == Holdover && d.onHoldover && d.sourceLost && HoldoverCapable(Status(d))
  {
    var s1, s2 := StartNetlink, Reading(Some(LOCKED_HO_ACQ), Some(LOCKED_HO_ACQ), Some(7), late);
    var s3, s4 := Notify(Locked, late), Notify(Freerun, late);
    assert [] + [s1] == [s1] && [s1] + [s2] == [s1, s2];
    assert [s1, s2] + [s3] == [s1, s2, s3] && [s1, s2, s3] + [s4] == [s1, s2, s3, s4];
    RunStep(c, [], s1);
    RunStep(c, [s1], s2);
    RunStep(c, [s1, s2], s3);
    RunStep(c, [s1, s2, s3], s4);
    var read := Updated(CREATED.(monitoring := true), s2);
    var locked := ToLocked(read).(gnss := Locked);
    DecidesLocked(c, read, late);
    DecidesLocked(c, locked, late);
    DecidesHoldover(c, locked.(gnss := Freerun, sourceLost := true), late);
  }

  /** The exit of its monitor then starts a second holdover. */
  lemma {:induction false} ExitRestartsExample(c: Config, late: bool)
    requires ValidConfig(c) && c.upstream == FromGnss && c.thresholdMin <= 7 <= c.thresholdMax
    ensures var d := Run(c, [StartNetlink, Reading(Some(LOCKED_HO_ACQ), Some(LOCKED_HO_ACQ), Some(7), late),
                             Notify(Locked, late), Notify(Freerun, late)]);
            d.state == Holdover && Exit(c, d, late).onHoldover
  {
    var steps := [StartNetlink, Reading(Some(LOCKED_HO_ACQ), Some(LOCKED_HO_ACQ), Some(7), late),
                  Notify(Locked, late), Notify(Freerun, late)];
    SourceLossRun(c, late);
    RunSafe(c, steps);
    ExitRestartsIff(c, Run(c, steps), late);
  }

  // ---------------------------------------------------------------- PPS-sourced devices

  ghost predicate Memoryless(d: Device) {
    !d.sourceLost && !d.onHoldover && d.parked == 0 && d.state in {Freerun, Locked} && !d.stuck
  }

  lemma {:induction false} PpsArm(c: Config, x: Device, late: bool)
    requires c.upstream == FromPps && Memoryless(x.(sourceLost := false))
    ensures Memoryless(DecideArm(c, x, late).(sourceLost := false))
  {
    if NoLock(Status(x)) {
      assert DecideArm(c, x, late) == ToFreerun(x.(inSpec := false, sourceLost := true));
    } else if HoldoverCapable(Status(x)) {
      assert DecideArm(c, x, late) == DecidePps(c, x);
    }
  }

  /** Whether or not its source was marked lost, a decision leaves it memoryless. */
  lemma {:induction false} PpsDecision(c: Config, x: Device, late: bool)
    requires c.upstream == FromPps && Memoryless(x.(sourceLost := false))
    ensures Memoryless(Decide(c, x, late))
  {
    var arm := DecideArm(c, x, late);
    assert Memoryless(arm.(sourceLost := false)) by { PpsArm(c, x, late); }
    assert Decide(c, x, late) == arm.(sourceLost := false);
  }

  /** A status outside the known ones decides nothing. */
  predicate KnownStatus(status: int) {
    -1 <= status <= 4
  }

  lemma {:induction false} PpsDecidesLocked(c: Config, x: Device, late: bool)
    requires c.upstream == FromPps && Memoryless(x)
    ensures Decide(c, x, late).state == Locked <==>
            if KnownStatus(Status(x)) then Status(x) in {LOCKED, LOCKED_HO_ACQ} && OffsetInRange(c, x) else x.state == Locked
  {
    if NoLock(Status(x)) {} else if Status(x) == LOCKED {} else if HoldoverCapable(Status(x)) {} else {}
  }

  lemma {:induction false} PpsStep(c: Config, d: Device, st: Step)
    requires ValidConfig(c) && c.upstream == FromPps && Memoryless(d)
    ensures Memoryless(Next(c, d, st))
  {
    var x := Input(c, d, st);
    if x.Some? { PpsDecision(c, x.value, st.late); }
  }

  /** A PPS-sourced device never has its source marked lost between decisions and never enters holdover. */
  lemma {:induction false} PpsMemoryless(c: Config, steps: seq<Step>)
    requires ValidConfig(c) && c.upstream == FromPps
    ensures Memoryless(Run(c, steps))
  {
    if steps != [] {
      PpsMemoryless(c, steps[..|steps| - 1]);
      PpsStep(c, Run(c, steps[..|steps| - 1]), steps[|steps| - 1]);
    }
  }

  /**
   * After any run, a reading makes it LOCKED exactly when status and offset of that moment say so; only a status
   * outside the known ones leaves the last state standing.
   */
  lemma {:induction false} PpsLockedIff(c: Config, steps: seq<Step>, st: Step)
    requires ValidConfig(c) && c.upstream == FromPps && st.Reading?
    ensures var x := Updated(Run(c, steps), st);
            Next(c, Run(c, steps), st).state == Locked <==>
              if KnownStatus(Status(x)) then Status(x) in {LOCKED, LOCKED_HO_ACQ} && OffsetInRange(c, x)
              else Run(c, steps).state == Locked
  {
    PpsMemoryless(c, steps);
    PpsDecidesLocked(c, Updated(Run(c, steps), st), st.late);
  }

  // ---------------------------------------------------------------- either upstream

  /** What a device keeps: holdover safety with GNSS upstream, no memory at all with PPS upstream. */
  ghost predicate Invariant(c: Config, d: Device) {
    match c.upstream
    case FromGnss => Safe(d)
    case FromPps => Memoryless(d)
  }

  lemma {:induction false} DecisionKeeps(c: Config, d: Device, late: bool)
    requires Invariant(c, d)
    ensures Invariant(c, Decide(c, d, late))
  {
    match c.upstream
    case FromGnss => DecisionSafe(c, d, late);
    case FromPps => PpsDecision(c, d, late);
  }

  lemma {:induction false} StepKeeps(c: Config, d: Device, st: Step)
    requires ValidConfig(c) && Invariant(c, d)
    ensures Invariant(c, Next(c, d, st))
  {
    match c.upstream
    case FromGnss => StepSafe(c, d, st);
    case FromPps => PpsStep(c, d, st);
  }
}
