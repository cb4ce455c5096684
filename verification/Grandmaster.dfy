/** Specification of the grandmaster event handler as a function of its state (pkg/event/event.go). */
module Grandmaster {
  import opened PtpTypes
  import opened Stats

  type Table = map<string, seq<Row>>

  datatype GmRecord = GmRecord(state: PtpState, clockClass: int, accuracy: int, sourceLost: bool, iface: Iface)

  datatype Handler = Handler(
    data: Table,
    gm: map<string, GmRecord>,
    outOfSpec: bool,
    frequencyTraceable: bool,
    clockClass: int,
    clockAccuracy: int)

  /** ClockClassRequest. */
  datatype Request = Request(cfg: string, gmState: PtpState, clockType: ClockType, clockClass: int, accuracy: int)

  const INITIAL := Handler(map[], map[], false, false, CLASS_UNINITIALIZED, 0)

  function RowsOf(t: Table, cfg: string): seq<Row> {
    if cfg in t then t[cfg] else []
  }

  function IndexOfSource(rows: seq<Row>, s: Source): (k: nat)
    ensures k <= |rows|
    ensures k < |rows| ==> rows[k].source == s
    ensures forall j :: 0 <= j < k ==> rows[j].source != s
  {
    if rows == [] || rows[0].source == s then 0 else 1 + IndexOfSource(rows[1..], s)
  }

  /** addEvent on the rows of the event's config. */
  function AddToRows(rows: seq<Row>, e: Event): seq<Row> {
    var k := IndexOfSource(rows, e.source);
    if k < |rows| then rows[k := Absorb(rows[k], e)] else rows + [Absorb(Row(e.source, Unknown, []), e)]
  }

  /** Whether the subscribers are told of the event. */
  predicate Notified(rows: seq<Row>, e: Event) {
    var k := IndexOfSource(rows, e.source);
    Notifies(if k < |rows| then rows[k].details else [], e)
  }

  /** isSourceLost */
  function SourceLost(rows: seq<Row>): bool {
    if rows == [] then false
    else if rows[0].source == Gnss && rows[0].details != [] then rows[0].details[0].sourceLost
    else SourceLost(rows[1..])
  }

  function GnssSignal(ds: seq<Detail>): Option<Iface> {
    if ds == [] then None
    else if ds[0].signal == Gnss then Some(ds[0].iface)
    else GnssSignal(ds[1..])
  }

  /** getGNSSInterface */
  function GnssInterface(rows: seq<Row>): Iface {
    if rows == [] then Unidentified
    else if rows[0].source == Gnss && rows[0].details != [] then rows[0].details[0].iface
    else if rows[0].source == Ts2phc && GnssSignal(rows[0].details).Some? then GnssSignal(rows[0].details).value
    else GnssInterface(rows[1..])
  }

  /** The state the scan over all rows ends with for one process. */
  function StateOf(rows: seq<Row>, s: Source, absent: PtpState): PtpState {
    if rows == [] then absent
    else if rows[|rows| - 1].source == s then rows[|rows| - 1].state
    else StateOf(rows[..|rows| - 1], s, absent)
  }

  function FreerunAs(g: GmRecord, clockClass: int): GmRecord {
    g.(state := Freerun, clockClass := clockClass, accuracy := ACCURACY_UNKNOWN)
  }
  function LockedAs6(g: GmRecord): GmRecord {
    g.(state := Locked, clockClass := CLASS_LOCKED, accuracy := ACCURACY_100NS)
  }
  function HoldoverAs7(g: GmRecord): GmRecord {
    g.(state := Holdover, clockClass := CLASS_HOLDOVER)
  }

  /** The decision of updateGMState from the three process states and the previous record. */
  function Decide(g: GmRecord, dpll: PtpState, gnss: PtpState, ts2phc: PtpState, lost: bool, outOfSpecTraceable: bool): GmRecord {
    match dpll
    case Freerun => FreerunAs(g, if outOfSpecTraceable then CLASS_OUT_OF_SPEC else CLASS_FREERUN)
    case Holdover => HoldoverAs7(g)
    case Locked => DecideLocked(g, gnss, ts2phc, lost)
    case NotSet => DecideLocked(g, gnss, ts2phc, lost)
    case _ => DecideDefault(g, gnss, ts2phc)
  }

  function DecideLocked(g: GmRecord, gnss: PtpState, ts2phc: PtpState, lost: bool): GmRecord {
    if gnss == Locked then
      (match ts2phc
       case Freerun => FreerunAs(g, CLASS_FREERUN)
       case Locked => LockedAs6(g)
       case Holdover => HoldoverAs7(g)
       case _ => g)
    else if gnss == Freerun then
      if lost then
        if ts2phc == Holdover then HoldoverAs7(g) else g
      else
        if ts2phc in {Freerun, Locked, Unknown, NotSet} then FreerunAs(g, CLASS_FREERUN) else g
    else g
  }

  function DecideDefault(g: GmRecord, gnss: PtpState, ts2phc: PtpState): GmRecord {
    match gnss
    case Locked =>
      (match ts2phc
       case Freerun => FreerunAs(g, CLASS_FREERUN)
       case Unknown => FreerunAs(g, CLASS_FREERUN)
       case NotSet => FreerunAs(g, CLASS_FREERUN)
       case Locked => LockedAs6(g)
       case Holdover => HoldoverAs7(g)
       case Blank => g)
    case Freerun =>
      (match ts2phc
       case Holdover => HoldoverAs7(g)
       case Blank => g
       case _ => FreerunAs(g, CLASS_FREERUN))
    case _ =>
      (match ts2phc
       case Freerun => FreerunAs(g, CLASS_FREERUN)
       case Locked => g.(state := Locked, clockClass := CLASS_HOLDOVER, accuracy := ACCURACY_100NS)
       case _ => g.(state := ts2phc))
  }

  /** The record updateGMState starts from. */
  function Starting(rows: seq<Row>, previous: Option<GmRecord>): GmRecord {
    var g := if previous.Some? then previous.value
             else GmRecord(Freerun, CLASS_UNINITIALIZED, ACCURACY_UNKNOWN, SourceLost(rows), GnssInterface(rows));
    g.(sourceLost := SourceLost(rows), iface := GnssInterface(rows))
  }

  /** updateGMState: the record it stores, or nothing while the GNSS interface is not identified. */
  function NewRecord(t: Table, gm: map<string, GmRecord>, outOfSpecTraceable: bool, cfg: string): Option<GmRecord> {
    var rows := RowsOf(t, cfg);
    var start := Starting(rows, if cfg in gm then Some(gm[cfg]) else None);
    if GnssInterface(rows) == Unidentified then None
    else if cfg !in t then Some(FreerunAs(start, CLASS_FREERUN))
    else Some(Decide(start, StateOf(rows, Dpll, NotSet), StateOf(rows, Gnss, Freerun),
                     StateOf(rows, Ts2phc, Freerun), SourceLost(rows), outOfSpecTraceable))
  }

  /** The stored records after updateGMState and the event loop's own update of sourceLost. */
  function Stored(gm: map<string, GmRecord>, cfg: string, r: Option<GmRecord>, outOfSpec: bool): map<string, GmRecord> {
    if r.Some? then gm[cfg := r.value.(sourceLost := outOfSpec)]
    else if cfg in gm then gm[cfg := gm[cfg].(sourceLost := outOfSpec)]
    else gm
  }

  function Without(rows: seq<Row>, s: Source): seq<Row> {
    if rows == [] then []
    else (if rows[0].source == s then [] else [rows[0]]) + Without(rows[1..], s)
  }

  // One turn of the event loop, field by field.

  function TurnData(t: Table, e: Event): Table {
    if e.reset then
      if e.source == Ts2phc then t - {e.cfg}
      else if e.cfg in t then t[e.cfg := Without(t[e.cfg], e.source)]
      else t
    else if e.source == Synce then t
    else t[e.cfg := AddToRows(RowsOf(t, e.cfg), e)]
  }

  /** The records after the turn, given the table after it. */
  function TurnGm(t: Table, gm: map<string, GmRecord>, outOfSpecTraceable: bool, e: Event): map<string, GmRecord> {
    if e.reset then
      if e.source == Ts2phc then gm else gm - {e.cfg}
    else if e.source == Synce then gm
    else Stored(gm, e.cfg, NewRecord(t, gm, outOfSpecTraceable, e.cfg), e.outOfSpec)
  }

  function TurnFlag(flag: bool, reported: bool, e: Event): bool {
    if e.reset then e.source == Ts2phc && flag
    else if e.source == Dpll then reported
    else flag
  }

  /** The new outOfSpec && frequencyTraceable. */
  function Traceable(h: Handler, e: Event): bool {
    && TurnFlag(h.outOfSpec, e.outOfSpec, e)
    && TurnFlag(h.frequencyTraceable, e.frequencyTraceable, e)
  }

  predicate ClearsMirror(e: Event) {
    e.reset && e.source == Ts2phc
  }

  function Turn(h: Handler, e: Event): Handler {
    Handler(
      TurnData(h.data, e),
      TurnGm(TurnData(h.data, e), h.gm, Traceable(h, e), e),
      TurnFlag(h.outOfSpec, e.outOfSpec, e),
      TurnFlag(h.frequencyTraceable, e.frequencyTraceable, e),
      if ClearsMirror(e) then CLASS_UNINITIALIZED else h.clockClass,
      if ClearsMirror(e) then ACCURACY_UNKNOWN else h.clockAccuracy)
  }

  /** The handler after a whole run from start-up. */
  function Run(es: seq<Event>): Handler {
    if es == [] then INITIAL else Turn(Run(es[..|es| - 1]), es[|es| - 1])
  }

  // What the turn announces.

  predicate Handled(e: Event) {
    !e.reset && e.source != Synce
  }

  /** The record updateGMState hands to the event loop. */
  function Announced(h: Handler, e: Event): GmRecord {
    var r := NewRecord(TurnData(h.data, e), h.gm, Traceable(h, e), e.cfg);
    if r.Some? then r.value else GmRecord(Blank, CLASS_UNINITIALIZED, 0, false, Unidentified)
  }

  /** The accuracy the event loop asks for: the handler's own, unless a DPLL event measures a holdover. */
  function RequestedAccuracy(own: int, clockClass: int, e: Event): int {
    if clockClass in {CLASS_HOLDOVER, CLASS_OUT_OF_SPEC} && e.source == Dpll && e.accuracy.Some?
    then e.accuracy.value else own
  }

  /** The clock class request for record `g`, given the mirrored class and accuracy. */
  function RequestFor(clockClass: int, clockAccuracy: int, g: GmRecord, e: Event): Option<Request> {
    var accuracy := RequestedAccuracy(clockAccuracy, g.clockClass, e);
    if g.clockClass != CLASS_UNINITIALIZED && (g.clockClass != clockClass || accuracy != clockAccuracy)
    then Some(Request(e.cfg, g.state, e.clockType, g.clockClass, accuracy))
    else None
  }

  function Issued(h: Handler, e: Event): Option<Request> {
    if Handled(e) then RequestFor(h.clockClass, h.clockAccuracy, Announced(h, e), e) else None
  }
}
