/** Per-process records of the event handler (pkg/event/stats.go). */
module Stats {
  import opened PtpTypes

  /** DataDetails: the last accepted event of one interface. */
  datatype Detail = Detail(
    iface: Iface,
    state: PtpState,
    clockType: ClockType,
    time: int,
    sourceLost: bool,
    signal: Source)

  // No code path ever assigns signalSource, so it keeps its zero value.
  const NO_SIGNAL := NoSource

  function FromEvent(e: Event): Detail {
    Detail(e.iface, e.state, e.clockType, e.time, e.sourceLost, NO_SIGNAL)
  }

  /** An event overwrites the detail of its interface unless it is older than that detail. */
  function Refresh(d: Detail, e: Event): Detail {
    if d.time <= e.time
    then d.(state := e.state, sourceLost := e.sourceLost, clockType := e.clockType, time := e.time)
    else d
  }

  function IndexOfIface(ds: seq<Detail>, iface: Iface): (k: nat)
    ensures k <= |ds|
    ensures k < |ds| ==> ds[k].iface == iface
    ensures forall j :: 0 <= j < k ==> ds[j].iface != iface
  {
    if ds == [] || ds[0].iface == iface then 0 else 1 + IndexOfIface(ds[1..], iface)
  }

  function Record(ds: seq<Detail>, e: Event): seq<Detail> {
    var k := IndexOfIface(ds, e.iface);
    if k < |ds| then ds[k := Refresh(ds[k], e)] else ds + [FromEvent(e)]
  }

  /** Subscribers are told of an event that is new to its interface or changes its state. */
  predicate Notifies(ds: seq<Detail>, e: Event) {
    var k := IndexOfIface(ds, e.iface);
    k == |ds| || (ds[k].time <= e.time && ds[k].state != e.state)
  }

  predicate HasState(ds: seq<Detail>, s: PtpState) {
    exists d :: d in ds && d.state == s
  }

  /** The state of a process: HOLDOVER beats FREERUN beats LOCKED, whatever the order of interfaces. */
  function WorstState(ds: seq<Detail>): PtpState {
    if HasState(ds, Holdover) then Holdover
    else if HasState(ds, Freerun) then Freerun
    else if HasState(ds, Locked) then Locked
    else Unknown
  }

  datatype Row = Row(source: Source, state: PtpState, details: seq<Detail>)

  /** AddEvent followed by UpdateState. */
  function Absorb(row: Row, e: Event): Row {
    var ds := Record(row.details, e);
    Row(row.source, WorstState(ds), ds)
  }

  ghost predicate UniqueIfaces(ds: seq<Detail>) {
    forall i, j :: 0 <= i < j < |ds| ==> ds[i].iface != ds[j].iface
  }

  /** Data: one process of one config. */
  class Data {
    var source: Source
    var state: PtpState
    var details: seq<Detail>

    constructor Of(row: Row)
      ensures ToRow() == row
    {
      source, state, details := row.source, row.state, row.details;
    }

    function ToRow(): Row
      reads this
    {
      Row(source, state, details)
    }

    method UpdateState()
      modifies this`state
      ensures state == WorstState(details)
    {
      var s := Unknown;
      for i := 0 to |details|
        invariant s == WorstState(details[..i])
      {
        assert details[..i + 1] == details[..i] + [details[i]];
        ExtendWorst(details[..i], details[i]);
        match details[i].state {
          case Freerun => if s != Holdover { s := Freerun; }
          case Holdover => s := Holdover;
          case Locked => if s != Freerun && s != Holdover { s := Locked; }
          case _ =>
        }
      }
      assert details[..|details|] == details;
      state := s;
    }

    method GetDataDetails(iface: Iface) returns (r: Option<Detail>)
      ensures r == var k := IndexOfIface(details, iface);
                   if k < |details| then Some(details[k]) else None
    {
      for i := 0 to |details|
        invariant forall j :: 0 <= j < i ==> details[j].iface != iface
      {
        if details[i].iface == iface { return Some(details[i]); }
      }
      return None;
    }

    method AddEvent(e: Event) returns (notify: bool)
      modifies this`details
      ensures details == Record(old(details), e)
      ensures notify == Notifies(old(details), e)
    {
      notify := false;
      for i := 0 to |details|
        invariant details == old(details)
        invariant forall j :: 0 <= j < i ==> details[j].iface != e.iface
      {
        if details[i].iface == e.iface {
          if details[i].time <= e.time {
            notify := details[i].state != e.state;
            details := details[i := details[i].(state := e.state, sourceLost := e.sourceLost,
                                                clockType := e.clockType, time := e.time)];
          }
          return;
        }
      }
      notify := true;
      details := details + [Detail(e.iface, e.state, e.clockType, e.time, e.sourceLost, NO_SIGNAL)];
    }
  }

  /** What one more interface does to the process state. */
  lemma {:induction false} ExtendWorst(ds: seq<Detail>, d: Detail)
    ensures WorstState(ds + [d]) ==
            match d.state
            case Holdover => Holdover
            case Freerun => if WorstState(ds) == Holdover then Holdover else Freerun
            case Locked => if WorstState(ds) in {Holdover, Freerun} then WorstState(ds) else Locked
            case _ => WorstState(ds)
  {
    forall s ensures HasState(ds + [d], s) <==> HasState(ds, s) || d.state == s {
      if HasState(ds, s) {
        var x :| x in ds && x.state == s;
        assert x in ds + [d];
      }
      if d.state == s {
        assert d in ds + [d];
      }
    }
  }
}
