/** DpllConfig as the object it is in pkg/dpll/dpll.go, proved against DpllMachine. */
module DpllObject {
  import opened PtpTypes
  import opened HoldoverTimer
  import opened DpllMachine
  import opened DpllProofs
  import opened DpllDecisions

  class DpllConfig {
    const config: Config
    var phaseStatus: int
    var frequencyStatus: int
    var phaseOffset: int
    var inSpec: bool
    var sourceLost: bool
    var state: PtpState
    var onHoldover: bool
    var parked: nat
    var stuck: bool
    var isMonitoring: bool
    var gnss: PtpState

    function View(): Device
      reads this
    {
      Device(phaseStatus, frequencyStatus, phaseOffset, inSpec, sourceLost, state, onHoldover, parked, stuck,
             isMonitoring, gnss)
    }

    /** With GNSS upstream at most one holdover, live exactly when onHoldover and in spec; with PPS upstream none. */
    ghost predicate Valid()
      reads this
    {
      Invariant(config, View())
    }

    constructor (config: Config)
      ensures Valid() && this.config == config && View() == CREATED
    {
      this.config := config;
      phaseStatus, frequencyStatus, phaseOffset := INVALID, INVALID, FAULTY_OFFSET;
      inSpec, sourceLost, state := false, false, Freerun;
      onHoldover, parked, stuck := false, 0, false;
      isMonitoring, gnss := false, Unknown;
    }

    method IsOffsetInRange() returns (r: bool)
      ensures r == OffsetInRange(config, View())
    {
      return phaseOffset <= config.thresholdMax && phaseOffset >= config.thresholdMin;
    }

    /** The holdover goroutine's turn after a close: its deferred clean-up decides again. */
    method HoldoverClosed(late: bool)
      requires parked > 0
      modifies this
      ensures View() == Decide(config, Woken(old(View())), late)
      decreases parked, 0
    {
      inSpec := true;
      onHoldover := false;
      parked := parked - 1;
      StateDecision(late);
    }

    method DecideNoLock(late: bool)
      requires NoLock(Status(View()))
      modifies this
      ensures View() == DecideArm(config, old(View()), late)
      decreases parked, 1
    {
      inSpec := false;
      sourceLost := true;
      if config.upstream == FromGnss && onHoldover {
        if parked == 0 {
          stuck := true;
          return;
        }
        if !late { HoldoverClosed(late); }
      }
      var wake := config.upstream == FromGnss && onHoldover && late;
      state := Freerun;
      phaseOffset := FAULTY_OFFSET;
      if wake { HoldoverClosed(late); }
    }

    method DecideLocked(late: bool)
      requires Status(View()) == LOCKED
      modifies this
      ensures View() == DecideArm(config, old(View()), late)
      decreases parked, 1
    {
      var inRange := IsOffsetInRange();
      if !sourceLost && inRange {
        if config.upstream == FromGnss && onHoldover {
          if parked == 0 {
            stuck := true;
            return;
          }
          if late {
            state := Locked;
            inSpec := true;
            HoldoverClosed(late);
            return;
          }
          HoldoverClosed(late);
        }
        state := Locked;
        inSpec := true;
      } else {
        state := Freerun;
        inSpec := true;
      }
    }

    method DecideHoldover(late: bool)
      requires HoldoverCapable(Status(View()))
      modifies this
      ensures View() == DecideArm(config, old(View()), late)
      decreases parked, 1
    {
      var inRange := IsOffsetInRange();
      if config.upstream == FromPps {
        if Worse(phaseStatus, frequencyStatus) == HOLDOVER {
          state := Freerun;
          phaseOffset := FAULTY_OFFSET;
          sourceLost := true;
        } else {
          state := if inRange then Locked else Freerun;
          sourceLost := false;
        }
      } else if !sourceLost && inRange {
        if onHoldover && parked > 0 {
          if late {
            inSpec := true;
            state := Locked;
            HoldoverClosed(late);
            return;
          }
          HoldoverClosed(late);
        }
        inSpec := true;
        state := Locked;
      } else if sourceLost && inSpec {
        if !onHoldover {
          onHoldover := true;
          state := Holdover;
          parked := parked + 1;
        }
      } else if !inSpec {
        state := Freerun;
        phaseOffset := FAULTY_OFFSET;
        if parked > 0 { HoldoverClosed(late); }
      }
    }

    method StateDecision(late: bool)
      modifies this
      ensures View() == Decide(config, old(View()), late)
      ensures old(Valid()) ==> Valid()
      ensures old(Valid()) && config.upstream == FromGnss ==>
                var x := old(View()); StateDecided(config, x, View(), Status(x)) && RestDecided(config, x, View(), Status(x))
      decreases parked, 2
    {
      var status := Worse(phaseStatus, frequencyStatus);
      if NoLock(status) {
        DecideNoLock(late);
      } else if status == LOCKED {
        DecideLocked(late);
      } else if HoldoverCapable(status) {
        DecideHoldover(late);
      }
      if config.upstream == FromPps && !stuck {
        sourceLost := false;
      }
      if old(Valid()) {
        ghost var x := old(View());
        assert Valid() by { DecisionKeeps(config, x, late); }
        if config.upstream == FromGnss { DecisionAmountsTo(config, x, late); }
      }
    }

    method StartMonitoring(sysfs: bool)
      requires ValidConfig(config) && Valid()
      modifies this
      ensures Valid() && View() == Next(config, old(View()), if sysfs then StartSysfs else StartNetlink)
    {
      StepKeeps(config, View(), if sysfs then StartSysfs else StartNetlink);
      isMonitoring := true;
      if sysfs { inSpec := true; }
    }

    /** A sysfs poll or a netlink message that carried something for this DPLL. */
    method Read(phase: Option<int>, frequency: Option<int>, offset: Option<int>, late: bool)
      requires ValidConfig(config) && Valid()
      modifies this
      ensures Valid() && View() == Next(config, old(View()), Reading(phase, frequency, offset, late))
    {
      StepKeeps(config, View(), Reading(phase, frequency, offset, late));
      if phase.Some? { phaseStatus := phase.value; }
      if frequency.Some? { frequencyStatus := frequency.value; }
      if offset.Some? { phaseOffset := offset.value; }
      assert View() == Updated(old(View()), Reading(phase, frequency, offset, late));
      StateDecision(late);
    }

    method OnNotify(reported: PtpState, late: bool)
      requires ValidConfig(config) && Valid()
      modifies this
      ensures Valid() && View() == Next(config, old(View()), Notify(reported, late))
    {
      StepKeeps(config, View(), Notify(reported, late));
      if !isMonitoring { return; }
      if gnss != reported {
        gnss := reported;
        sourceLost := reported != Locked;
        StateDecision(late);
      }
    }

    /** The holdover goroutine's turn at a tick: new offset, and the end of holdover once out of spec. */
    method HoldoverTick(seconds: nat, late: bool)
      requires ValidConfig(config) && Valid() && parked > 0
      modifies this
      ensures Valid() && View() == Next(config, old(View()), Tick(seconds, late))
      ensures config.maxHoldoverOffset > 0 ==>
                (onHoldover <==> seconds < FirstOutOfSpec(config.maxHoldoverOffset, config.holdoverTimeout, config.maxInSpecOffset))
    {
      ghost var was, st := View(), Tick(seconds, late);
      Drifting(seconds, late);
      assert Valid() by { StepKeeps(config, was, st); }
      if config.maxHoldoverOffset > 0 { EndsBy(config, was, st); }
    }

    /** The tick itself. */
    method Drifting(seconds: nat, late: bool)
      requires ValidConfig(config) && parked > 0
      modifies this
      ensures View() == Next(config, old(View()), Tick(seconds, late))
    {
      phaseOffset := Drift(config.maxHoldoverOffset, config.holdoverTimeout, seconds);
      if phaseOffset > config.maxInSpecOffset {
        inSpec := false;
        state := Freerun;
        onHoldover := false;
        parked := parked - 1;
        assert View() == Ended(Drifted(config, old(View()), seconds));
        StateDecision(late);
      }
    }

    method HoldoverTimeout(late: bool)
      requires ValidConfig(config) && Valid() && parked > 0
      modifies this
      ensures Valid() && View() == Next(config, old(View()), Timeout(late))
      ensures !onHoldover && parked == 0 && state != Holdover
    {
      StepKeeps(config, View(), Timeout(late));
      HoldoverEnds(config, View(), Timeout(late));
      inSpec := false;
      state := Freerun;
      phaseOffset := FAULTY_OFFSET;
      onHoldover := false;
      parked := parked - 1;
      StateDecision(late);
    }
  }
}
