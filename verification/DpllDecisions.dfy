/** What a decision of the DPLL amounts to, written out over status, source, offset and thresholds. */
module DpllDecisions {
  import opened PtpTypes
  import opened HoldoverTimer
  import opened DpllMachine
  import opened DpllProofs

  // ---------------------------------------------------------------- the worse of two statuses

  /** Statuses from the worst to the best: UNKNOWN, INVALID, FREERUN, HOLDOVER, LOCKED, LOCKED_HO_ACQ. */
  const WORST_FIRST := [-1, 0, 1, 4, 2, 3]

  /** Of two statuses the one that comes first in that order decides. */
  lemma {:induction false} WorseComesFirst(i: nat, j: nat)
    requires i < 6 && j < 6
    ensures Worse(WORST_FIRST[i], WORST_FIRST[j]) == WORST_FIRST[if i <= j then i else j]
  {}

  /** A status outside the order counts as INVALID, and the frequency's wins a tie. */
  lemma {:induction false} WorseOfUnknown(phase: int, frequency: int)
    requires phase < -1 || phase > 4
    ensures Worse(phase, frequency) == if frequency == -1 || frequency == 0 || frequency < -1 || frequency > 4 then frequency else phase
    ensures Worse(frequency, phase) == if frequency == -1 then frequency else phase
  {}

  // ---------------------------------------------------------------- GNSS upstream

  /** The source is there and the offset lies between the thresholds. */
  predicate Steered(c: Config, x: Device) {
    !x.sourceLost && c.thresholdMin <= x.phaseOffset && x.phaseOffset <= c.thresholdMax
  }

  predicate CanHoldOver(status: int) {
    status == 3 || status == 4
  }

  /** No arm applies: an unknown status, a holdover that goes on, or an offset out of range while in spec. */
  predicate LeavesState(c: Config, x: Device, status: int) {
    || status < -1 || status > 4
    || (CanHoldOver(status) && x.inSpec && !Steered(c, x) && (x.sourceLost ==> x.onHoldover))
  }

  /** The state after a decision. */
  ghost predicate StateDecided(c: Config, x: Device, y: Device, status: int) {
    && (y.state == Locked <==>
          (2 <= status <= 4 && Steered(c, x)) || (LeavesState(c, x, status) && x.state == Locked))
    && (y.state == Holdover <==>
          (CanHoldOver(status) && x.sourceLost && x.inSpec && !x.onHoldover) ||
          (LeavesState(c, x, status) && x.state == Holdover))
    && (y.state == Freerun <==>
          || -1 <= status <= 1
          || (status == 2 && !Steered(c, x))
          || (CanHoldOver(status) && !x.inSpec && !Steered(c, x))
          || (LeavesState(c, x, status) && x.state == Freerun))
  }

  /** The rest of the device after a decision. */
  ghost predicate RestDecided(c: Config, x: Device, y: Device, status: int) {
    && (y.inSpec <==>
          || status == 2
          || (CanHoldOver(status) && (x.inSpec || Steered(c, x)))
          || ((status < -1 || status > 4) && x.inSpec))
    && (y.sourceLost <==> x.sourceLost || -1 <= status <= 1)
    && (y.onHoldover <==>
          || (CanHoldOver(status) && x.sourceLost && x.inSpec)
          || (x.onHoldover && !(-1 <= status <= 1) && !(2 <= status <= 4 && Steered(c, x))))
    && y.phaseOffset == (if -1 <= status <= 1 || (CanHoldOver(status) && !x.inSpec && !Steered(c, x)) then 99999999999
                         else x.phaseOffset)
    && y.phaseStatus == x.phaseStatus && y.frequencyStatus == x.frequencyStatus
    && y.monitoring == x.monitoring && y.gnss == x.gnss
  }

  lemma {:induction false} QuietState(c: Config, x: Device, late: bool)
    requires c.upstream == FromGnss && Sound(x) && !x.onHoldover
    ensures StateDecided(c, x, Decide(c, x, late), Status(x))
  {}

  lemma {:induction false} QuietRest(c: Config, x: Device, late: bool)
    requires c.upstream == FromGnss && Sound(x) && !x.onHoldover
    ensures RestDecided(c, x, Decide(c, x, late), Status(x))
  {}

  /** On holdover without a lock: the holdover is told to close and decides for itself. */
  lemma {:induction false} ClosesWithoutLock(c: Config, x: Device, late: bool)
    requires c.upstream == FromGnss && Safe(x) && x.onHoldover && -1 <= Status(x) <= 1
    ensures StateDecided(c, x, Decide(c, x, late), Status(x)) && RestDecided(c, x, Decide(c, x, late), Status(x))
  {
    var d1 := x.(inSpec := false, sourceLost := true);
    var woken := if late then Woken(ToFreerun(d1)) else Woken(d1);
    QuietState(c, woken, late);
    QuietRest(c, woken, late);
    assert Decide(c, x, late) == if late then Decide(c, woken, late) else ToFreerun(Decide(c, woken, late));
  }

  /** On holdover with the source back and the offset in range. */
  lemma {:induction false} ClosesSteered(c: Config, x: Device, late: bool)
    requires c.upstream == FromGnss && Safe(x) && x.onHoldover && 2 <= Status(x) <= 4 && Steered(c, x)
    ensures StateDecided(c, x, Decide(c, x, late), Status(x)) && RestDecided(c, x, Decide(c, x, late), Status(x))
  {
    var woken := if late then Woken(ToLocked(x)) else Woken(x);
    QuietState(c, woken, late);
    QuietRest(c, woken, late);
    assert Decide(c, x, late) == if late then Decide(c, woken, late) else ToLocked(Decide(c, woken, late));
  }

  /** On holdover and not told to close. */
  lemma {:induction false} StaysOnHoldover(c: Config, x: Device, late: bool)
    requires c.upstream == FromGnss && Safe(x) && x.onHoldover && !(-1 <= Status(x) <= 1)
    requires !(2 <= Status(x) <= 4 && Steered(c, x))
    ensures StateDecided(c, x, Decide(c, x, late), Status(x)) && RestDecided(c, x, Decide(c, x, late), Status(x))
  {
    assert Decide(c, x, late) == if Status(x) == LOCKED then x.(state := Freerun, inSpec := true) else x;
  }

  /** Whatever the schedule, a decision and the decisions it wakes amount to this. */
  lemma {:induction false} DecisionAmountsTo(c: Config, x: Device, late: bool)
    requires c.upstream == FromGnss && Safe(x)
    ensures StateDecided(c, x, Decide(c, x, late), Status(x)) && RestDecided(c, x, Decide(c, x, late), Status(x))
  {
    if !x.onHoldover {
      QuietState(c, x, late);
      QuietRest(c, x, late);
    } else if -1 <= Status(x) <= 1 {
      ClosesWithoutLock(c, x, late);
    } else if 2 <= Status(x) <= 4 && Steered(c, x) {
      ClosesSteered(c, x, late);
    } else {
      StaysOnHoldover(c, x, late);
    }
  }

  // ---------------------------------------------------------------- what a step decides on

  /** The device a step's decision starts from, field by field; every other field is as before. */
  ghost predicate DecidesOn(c: Config, d: Device, st: Step, x: Device)
    requires ValidConfig(c)
  {
    && x.monitoring == d.monitoring && x.stuck == d.stuck
    && match st
       case Reading(phase, frequency, offset, _) =>
         && x.phaseStatus == (if phase.Some? then phase.value else d.phaseStatus)
         && x.frequencyStatus == (if frequency.Some? then frequency.value else d.frequencyStatus)
         && x.phaseOffset == (if offset.Some? then offset.value else d.phaseOffset)
         && x.state == d.state && x.inSpec == d.inSpec && x.sourceLost == d.sourceLost && x.gnss == d.gnss
         && x.onHoldover == d.onHoldover
       case Notify(gnss, _) =>
         && d.monitoring && gnss != d.gnss && x.gnss == gnss && (x.sourceLost <==> gnss != Locked)
         && x.phaseStatus == d.phaseStatus && x.frequencyStatus == d.frequencyStatus && x.phaseOffset == d.phaseOffset
         && x.state == d.state && x.inSpec == d.inSpec && x.onHoldover == d.onHoldover
       case Tick(seconds, _) =>
         && x.phaseOffset == Drift(c.maxHoldoverOffset, c.holdoverTimeout, seconds) && x.phaseOffset > c.maxInSpecOffset
         && x.state == Freerun && !x.inSpec && !x.onHoldover && x.sourceLost == d.sourceLost && x.gnss == d.gnss
         && x.phaseStatus == d.phaseStatus && x.frequencyStatus == d.frequencyStatus
       case Timeout(_) =>
         && x.phaseOffset == 99999999999
         && x.state == Freerun && !x.inSpec && !x.onHoldover && x.sourceLost == d.sourceLost && x.gnss == d.gnss
         && x.phaseStatus == d.phaseStatus && x.frequencyStatus == d.frequencyStatus
       case _ => false
  }

  lemma {:induction false} InputIs(c: Config, d: Device, st: Step)
    requires ValidConfig(c)
    ensures Input(c, d, st).Some? ==> DecidesOn(c, d, st, Input(c, d, st).value)
    ensures Input(c, d, st).Some? <==>
            match st
            case Reading(_, _, _, _) => true
            case Notify(gnss, _) => d.monitoring && gnss != d.gnss
            case Tick(seconds, _) => d.parked > 0 && Drift(c.maxHoldoverOffset, c.holdoverTimeout, seconds) > c.maxInSpecOffset
            case Timeout(_) => d.parked > 0
            case _ => false
  {}

  /**
   * After any run of a GNSS-sourced DPLL, a step that decides leaves the device LOCKED, FREERUN or HOLDOVER exactly as
   * the worse status, the source, the offset between the thresholds, inSpec and the last state of that moment say.
   */
  lemma {:induction false} GnssStateIff(c: Config, steps: seq<Step>, st: Step) returns (x: Device)
    requires ValidConfig(c) && c.upstream == FromGnss && Input(c, Run(c, steps), st).Some?
    ensures DecidesOn(c, Run(c, steps), st, x)
    ensures var y := Next(c, Run(c, steps), st); StateDecided(c, x, y, Status(x)) && RestDecided(c, x, y, Status(x))
  {
    var d := Run(c, steps);
    x := Input(c, d, st).value;
    RunSafe(c, steps);
    InputIs(c, d, st);
    DecisionAmountsTo(c, x, st.late);
  }

  /** A step that decides nothing leaves state and source alone; a tick in spec only moves the offset. */
  lemma {:induction false} WithoutDecision(c: Config, d: Device, st: Step)
    requires ValidConfig(c) && Input(c, d, st).None?
    ensures Next(c, d, st) ==
            d.(inSpec := d.inSpec || st.StartSysfs?, monitoring := d.monitoring || st.StartSysfs? || st.StartNetlink?,
               phaseOffset := if st.Tick? && d.parked > 0 then Drift(c.maxHoldoverOffset, c.holdoverTimeout, st.seconds)
                              else d.phaseOffset)
  {}

  // ---------------------------------------------------------------- PPS upstream

  /** The whole of a PPS-sourced device after a decision. */
  lemma {:induction false} PpsAmountsTo(c: Config, x: Device, late: bool)
    requires c.upstream == FromPps && Memoryless(x)
    ensures var y, status, inRange := Decide(c, x, late), Status(x), c.thresholdMin <= x.phaseOffset <= c.thresholdMax;
            && (y.state == Locked <==> ((status == 2 || status == 3) && inRange) || (!(-1 <= status <= 4) && x.state == Locked))
            && (y.inSpec <==> status == 2 || (x.inSpec && !(-1 <= status <= 1)))
            && y.phaseOffset == (if -1 <= status <= 1 || status == 4 then 99999999999 else x.phaseOffset)
            && y.phaseStatus == x.phaseStatus && y.frequencyStatus == x.frequencyStatus
  {
    if -1 <= Status(x) <= 1 {
      assert DecideArm(c, x, late) == ToFreerun(x.(inSpec := false, sourceLost := true));
    } else if Status(x) == 3 || Status(x) == 4 {
      assert DecideArm(c, x, late) == DecidePps(c, x);
    }
  }

  /** A device as it is created, before any step. */
  lemma {:induction false} CreatedIs(c: Config)
    requires ValidConfig(c)
    ensures var d := Run(c, []);
            && d.state == Freerun && d.phaseStatus == 0 && d.frequencyStatus == 0 && d.phaseOffset == 99999999999
            && !d.inSpec && !d.sourceLost && !d.onHoldover && d.parked == 0 && !d.monitoring && d.gnss == Unknown
  {}
}
