/** The DPLL state machine with its holdover goroutine (pkg/dpll/dpll.go). */
module DpllMachine {
  import opened PtpTypes
  import opened HoldoverTimer

  const UNKNOWN := -1
  const INVALID := 0
  const FREERUN := 1
  const LOCKED := 2
  const LOCKED_HO_ACQ := 3
  const HOLDOVER := 4

  const FAULTY_OFFSET := 99999999999

  datatype Upstream = FromGnss | FromPps

  datatype Config = Config(
    upstream: Upstream,
    maxHoldoverOffset: nat,
    holdoverTimeout: nat,
    maxInSpecOffset: nat,
    thresholdMin: int,
    thresholdMax: int)

  predicate ValidConfig(c: Config) {
    c.holdoverTimeout > 0
  }

  /**
   * DpllConfig. `parked` counts the holdover goroutines waiting at their select, `stuck` records a blocking send
   * on the close channel that nobody would receive, `gnss` is the GNSS state last notified.
   */
  datatype Device = Device(
    phaseStatus: int,
    frequencyStatus: int,
    phaseOffset: int,
    inSpec: bool,
    sourceLost: bool,
    state: PtpState,
    onHoldover: bool,
    parked: nat,
    stuck: bool,
    monitoring: bool,
    gnss: PtpState)

  const CREATED := Device(INVALID, INVALID, FAULTY_OFFSET, false, false, Freerun, false, 0, false, false, Unknown)

  // ---------------------------------------------------------------- pure parts

  /** getStateQuality: section 6.3.1 of ITU-T G.781; a status outside the map counts as 0. */
  function Quality(status: int): int {
    match status
    case -1 => -1
    case 1 => 1
    case 4 => 2
    case 2 => 3
    case 3 => 4
    case _ => 0
  }

  function Worse(phase: int, frequency: int): int {
    if Quality(phase) < Quality(frequency) then phase else frequency
  }

  function Status(d: Device): int {
    Worse(d.phaseStatus, d.frequencyStatus)
  }

  predicate OffsetInRange(c: Config, d: Device) {
    c.thresholdMin <= d.phaseOffset <= c.thresholdMax
  }

  predicate InSpecOffset(c: Config, d: Device) {
    d.phaseOffset <= c.maxInSpecOffset
  }

  predicate NoLock(status: int) { status in {FREERUN, INVALID, UNKNOWN} }

  predicate HoldoverCapable(status: int) { status in {LOCKED_HO_ACQ, HOLDOVER} }

  // ---------------------------------------------------------------- decisions

  function ToFreerun(d: Device): Device { d.(state := Freerun, phaseOffset := FAULTY_OFFSET) }

  function ToLocked(d: Device): Device { d.(state := Locked, inSpec := true) }

  /** A holdover goroutine that was told to close: it clears onHoldover and decides again. */
  function Woken(d: Device): Device
    requires d.parked > 0
  {
    d.(inSpec := true, onHoldover := false, parked := d.parked - 1)
  }

  /** The PPS arm of LOCKED_HO_ACQ and HOLDOVER. */
  function DecidePps(c: Config, d: Device): Device {
    if Status(d) == HOLDOVER then ToFreerun(d).(sourceLost := true)
    else if OffsetInRange(c, d) then d.(state := Locked, sourceLost := false)
    else d.(state := Freerun, sourceLost := false)
  }

  function StartHoldover(d: Device): Device {
    if d.onHoldover then d else d.(onHoldover := true, state := Holdover, parked := d.parked + 1)
  }

  /**
   * stateDecision. Where it hands `true` to a parked holdover goroutine, that goroutine's own decision runs
   * either at once or, when `late`, after the rest of this one.
   */
  function Decide(c: Config, d: Device, late: bool): Device
    decreases d.parked, 1
  {
    var decided := DecideArm(c, d, late);
    if c.upstream == FromPps && !decided.stuck then decided.(sourceLost := false) else decided
  }

  function DecideArm(c: Config, d: Device, late: bool): Device
    decreases d.parked, 0
  {
    var status := Status(d);
    if NoLock(status) then
      var d1 := d.(inSpec := false, sourceLost := true);
      if c.upstream == FromGnss && d1.onHoldover then
        if d1.parked == 0 then d1.(stuck := true)
        else if late then Decide(c, Woken(ToFreerun(d1)), late)
        else ToFreerun(Decide(c, Woken(d1), late))
      else ToFreerun(d1)
    else if status == LOCKED then
      if !d.sourceLost && OffsetInRange(c, d) then
        if c.upstream == FromGnss && d.onHoldover then
          if d.parked == 0 then d.(stuck := true)
          else if late then Decide(c, Woken(ToLocked(d)), late)
          else ToLocked(Decide(c, Woken(d), late))
        else ToLocked(d)
      else d.(state := Freerun, inSpec := true)
    else if HoldoverCapable(status) then
      if c.upstream == FromPps then DecidePps(c, d)
      else if !d.sourceLost && OffsetInRange(c, d) then
        if d.onHoldover && d.parked > 0 then
          if late then Decide(c, Woken(ToLocked(d)), late)
          else ToLocked(Decide(c, Woken(d), late))
        else ToLocked(d)
      else if d.sourceLost && d.inSpec then StartHoldover(d)
      else if !d.inSpec then
        if d.parked > 0 then Decide(c, Woken(ToFreerun(d)), late) else ToFreerun(d)
      else d
    else d
  }

  // ---------------------------------------------------------------- steps

  datatype Step =
    // The sysfs monitor starts; it presumes the DPLL in spec.
    | StartSysfs
    | StartNetlink
    // New status or offset values arrive: all three from sysfs, some of them from netlink.
    | Reading(phase: Option<int>, frequency: Option<int>, offset: Option<int>, late: bool)
    // The event handler reports a GNSS state.
    | Notify(gnss: PtpState, late: bool)
    // The parked holdover goroutine wakes up, this many seconds after it started, or at its timeout.
    | Tick(seconds: nat, late: bool)
    | Timeout(late: bool)

  function Updated(d: Device, st: Step): Device
    requires st.Reading?
  {
    d.(phaseStatus := if st.phase.Some? then st.phase.value else d.phaseStatus,
       frequencyStatus := if st.frequency.Some? then st.frequency.value else d.frequencyStatus,
       phaseOffset := if st.offset.Some? then st.offset.value else d.phaseOffset)
  }

  function Drifted(c: Config, d: Device, seconds: nat): Device
    requires ValidConfig(c)
  {
    d.(phaseOffset := Drift(c.maxHoldoverOffset, c.holdoverTimeout, seconds))
  }

  function Ended(d: Device): Device
    requires d.parked > 0
  {
    d.(inSpec := false, state := Freerun, onHoldover := false, parked := d.parked - 1)
  }

  /** The state a step's decision starts from; None when the step decides nothing. */
  function Input(c: Config, d: Device, st: Step): Option<Device>
    requires ValidConfig(c)
  {
    match st
    case StartSysfs => None
    case StartNetlink => None
    case Reading(_, _, _, _) => Some(Updated(d, st))
    case Notify(gnss, _) =>
      if !d.monitoring || d.gnss == gnss then None else Some(d.(gnss := gnss, sourceLost := gnss != Locked))
    case Tick(seconds, _) =>
      if d.parked == 0 || InSpecOffset(c, Drifted(c, d, seconds)) then None
      else Some(Ended(Drifted(c, d, seconds)))
    case Timeout(_) =>
      if d.parked == 0 then None else Some(Ended(d).(phaseOffset := FAULTY_OFFSET))
  }

  function Next(c: Config, d: Device, st: Step): Device
    requires ValidConfig(c)
  {
    match Input(c, d, st)
    case Some(x) => Decide(c, x, st.late)
    case None =>
      match st
      case StartSysfs => d.(inSpec := true, monitoring := true)
      case StartNetlink => d.(monitoring := true)
      case Tick(seconds, _) => if d.parked > 0 then Drifted(c, d, seconds) else d
      case _ => d
  }

  function Run(c: Config, steps: seq<Step>): Device
    requires ValidConfig(c)
  {
    if steps == [] then CREATED else Next(c, Run(c, steps[..|steps| - 1]), steps[|steps| - 1])
  }
}
