/** Vocabulary shared by the event handler, the DPLL and the leap manager. */
module PtpTypes {

  datatype Option<+T> = None | Some(value: T)

  /** PTPState: "s0", "s1", "s2", "-1", "-2" and the empty zero value. */
  datatype PtpState = Freerun | Holdover | Locked | Unknown | NotSet | Blank

  /** EventSource: the process an event comes from; `NoSource` is the empty zero value. */
  datatype Source =
    | Gnss | Dpll | Ts2phc | Ptp4l | Phc2sys | Pps | Synce | Monitoring
    | NoSource | OtherSource(name: string)

  /** An interface name; `Unidentified` is the name "unknown", which the handler reserves. */
  datatype Iface = Unidentified | Iface(name: string)

  datatype ClockType = GM | BC | OC | OtherClock

  // Clock classes of section 6.4, Table 3 of ITU-T G.8275.1.
  const CLASS_UNINITIALIZED := 0
  const CLASS_LOCKED := 6
  const CLASS_HOLDOVER := 7
  const CLASS_OUT_OF_SPEC := 140
  const CLASS_FREERUN := 248

  // Clock accuracies used by the grandmaster.
  const ACCURACY_100NS := 0x21
  const ACCURACY_UNKNOWN := 0xFE

  /**
   * EventChannel. The values map is kept only as far as the handler reads it: `accuracy` is what
   * the library function ClockAccuracyFromOffset gives for the OFFSET value, when there is one.
   */
  datatype Event = Event(
    source: Source,
    state: PtpState,
    iface: Iface,
    cfg: string,
    clockType: ClockType,
    time: int,
    outOfSpec: bool,
    reset: bool,
    sourceLost: bool,
    frequencyTraceable: bool,
    accuracy: Option<int>)
}
