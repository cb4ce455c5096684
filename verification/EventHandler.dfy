/** The event handler as the object it is in pkg/event/event.go, proved against Grandmaster. */
module EventHandling {
  import opened PtpTypes
  import opened Stats
  import opened Grandmaster
  import opened GrandmasterProofs

  lemma {:induction false} PutRow(rows: seq<Row>, e: Event, extended: seq<Row>, row: Row)
    requires var k := IndexOfSource(rows, e.source);
             && extended == (if k < |rows| then rows else rows + [Row(e.source, Unknown, [])])
             && row == Absorb(extended[k], e)
    ensures extended[IndexOfSource(rows, e.source) := row] == AddToRows(rows, e)
  {
    var k := IndexOfSource(rows, e.source);
    if k == |rows| { assert extended[k := row] == rows + [row]; }
  }

  lemma {:induction false} Overwrite<K, V>(m: map<K, V>, key: K, v: V, w: V)
    ensures m[key := v][key := w] == m[key := w]
  {}

  class EventHandler {
    var data: map<string, seq<Row>>
    var gmSyncState: map<string, GmRecord>
    var outOfSpec: bool
    var frequencyTraceable: bool
    var clockClass: int
    var clockAccuracy: int

    ghost predicate Valid()
      reads this
    {
      TableOk(data)
    }

    function View(): Handler
      reads this
    {
      Handler(data, gmSyncState, outOfSpec, frequencyTraceable, clockClass, clockAccuracy)
    }

    constructor ()
      ensures Valid() && View() == INITIAL
    {
      data, gmSyncState := map[], map[];
      outOfSpec, frequencyTraceable := false, false;
      clockClass, clockAccuracy := CLASS_UNINITIALIZED, 0;
    }

    /** Finds the record of a process, creating an empty one when there is none. */
    method GetData(cfg: string, source: Source) returns (k: nat)
      modifies this`data
      ensures var rows := RowsOf(old(data), cfg);
              && k == IndexOfSource(rows, source)
              && data == old(data)[cfg := if k < |rows| then rows else rows + [Row(source, Unknown, [])]]
    {
      if cfg !in data { data := data[cfg := []]; }
      var rows := data[cfg];
      assert rows == RowsOf(old(data), cfg);
      k := 0;
      while k < |rows|
        invariant k <= |rows|
        invariant forall j :: 0 <= j < k ==> rows[j].source != source
      {
        if rows[k].source == source {
          FirstIndex(rows, source, k);
          return;
        }
        k := k + 1;
      }
      FirstIndex(rows, source, k);
      data := data[cfg := rows + [Row(source, Unknown, [])]];
    }

    method UpdateRow(row: Row, e: Event) returns (r: Row, notify: bool)
      ensures r == Absorb(row, e) && notify == Notifies(row.details, e)
    {
      var d := new Data.Of(row);
      notify := d.AddEvent(e);
      d.UpdateState();
      r := d.ToRow();
    }

    method AddEvent(e: Event) returns (notify: bool)
      modifies this`data, this`outOfSpec, this`frequencyTraceable
      ensures data == old(data)[e.cfg := AddToRows(RowsOf(old(data), e.cfg), e)]
      ensures notify == Notified(RowsOf(old(data), e.cfg), e)
      ensures outOfSpec == if e.source == Dpll then e.outOfSpec else old(outOfSpec)
      ensures frequencyTraceable == if e.source == Dpll then e.frequencyTraceable else old(frequencyTraceable)
    {
      var k := GetData(e.cfg, e.source);
      var row;
      row, notify := UpdateRow(data[e.cfg][k], e);
      if e.source == Dpll {
        outOfSpec := e.outOfSpec;
        frequencyTraceable := e.frequencyTraceable;
      }
      PutRow(RowsOf(old(data), e.cfg), e, data[e.cfg], row);
      Overwrite(old(data), e.cfg, data[e.cfg], data[e.cfg][k := row]);
      data := data[e.cfg := data[e.cfg][k := row]];
    }

    method IsSourceLost(cfg: string) returns (lost: bool)
      ensures lost == SourceLost(RowsOf(data, cfg))
    {
      var rows := if cfg in data then data[cfg] else [];
      for i := 0 to |rows|
        invariant SourceLost(rows) == SourceLost(rows[i..])
      {
        if rows[i].source == Gnss && rows[i].details != [] { return rows[i].details[0].sourceLost; }
        assert rows[i..][1..] == rows[i + 1..];
      }
      return false;
    }

    method GetGnssInterface(cfg: string) returns (iface: Iface)
      ensures iface == GnssInterface(RowsOf(data, cfg))
    {
      var rows := if cfg in data then data[cfg] else [];
      for i := 0 to |rows|
        invariant GnssInterface(rows) == GnssInterface(rows[i..])
      {
        var ds := rows[i].details;
        if rows[i].source == Gnss && ds != [] {
          return ds[0].iface;
        } else if rows[i].source == Ts2phc && ds != [] {
          for j := 0 to |ds|
            invariant GnssSignal(ds) == GnssSignal(ds[j..])
          {
            if ds[j].signal == Gnss { return ds[j].iface; }
            assert ds[j..][1..] == ds[j + 1..];
          }
        }
        assert rows[i..][1..] == rows[i + 1..];
      }
      return Unidentified;
    }

    /** The scan that picks up the three process states, the last row of a process winning. */
    method ProcessStates(rows: seq<Row>) returns (dpll: PtpState, gnss: PtpState, ts2phc: PtpState)
      ensures dpll == StateOf(rows, Dpll, NotSet)
      ensures gnss == StateOf(rows, Gnss, Freerun)
      ensures ts2phc == StateOf(rows, Ts2phc, Freerun)
    {
      dpll, gnss, ts2phc := NotSet, Freerun, Freerun;
      for i := 0 to |rows|
        invariant dpll == StateOf(rows[..i], Dpll, NotSet)
        invariant gnss == StateOf(rows[..i], Gnss, Freerun)
        invariant ts2phc == StateOf(rows[..i], Ts2phc, Freerun)
      {
        assert rows[..i + 1][..i] == rows[..i];
        match rows[i].source {
          case Dpll => dpll := rows[i].state;
          case Gnss => gnss := rows[i].state;
          case Ts2phc => ts2phc := rows[i].state;
          case _ =>
        }
      }
      assert rows[..|rows|] == rows;
    }

    /** The arm for a DPLL that is locked or absent. */
    method WithDpll(start: GmRecord, gnss: PtpState, ts2phc: PtpState, lost: bool) returns (r: GmRecord)
      ensures r == DecideLocked(start, gnss, ts2phc, lost)
    {
      r := start;
      match gnss {
        case Locked =>
          match ts2phc {
            case Freerun => r := r.(state := Freerun, clockClass := CLASS_FREERUN, accuracy := ACCURACY_UNKNOWN);
            case Locked => r := r.(state := Locked, clockClass := CLASS_LOCKED, accuracy := ACCURACY_100NS);
            case Holdover => r := r.(state := Holdover, clockClass := CLASS_HOLDOVER);
            case _ =>
          }
        case Freerun =>
          if lost {
            // Stay with the last state and wait for the DPLL, unless ts2phc is already on holdover.
            if ts2phc == Holdover { r := r.(state := Holdover, clockClass := CLASS_HOLDOVER); }
          } else {
            match ts2phc {
              case Holdover =>
              case Blank =>
              case _ => r := r.(state := Freerun, clockClass := CLASS_FREERUN, accuracy := ACCURACY_UNKNOWN);
            }
          }
        case _ =>
      }
    }

    /** The arm for a DPLL in no known state. */
    method WithUnknownDpll(start: GmRecord, gnss: PtpState, ts2phc: PtpState) returns (r: GmRecord)
      ensures r == DecideDefault(start, gnss, ts2phc)
    {
      r := start;
      match gnss {
        case Locked =>
          match ts2phc {
            case Locked => r := r.(state := Locked, clockClass := CLASS_LOCKED, accuracy := ACCURACY_100NS);
            case Holdover => r := r.(state := Holdover, clockClass := CLASS_HOLDOVER);
            case Blank =>
            case _ => r := r.(state := Freerun, clockClass := CLASS_FREERUN, accuracy := ACCURACY_UNKNOWN);
          }
        case Freerun =>
          match ts2phc {
            case Holdover => r := r.(state := Holdover, clockClass := CLASS_HOLDOVER);
            case Blank =>
            case _ => r := r.(state := Freerun, clockClass := CLASS_FREERUN, accuracy := ACCURACY_UNKNOWN);
          }
        case _ =>
          r := r.(state := ts2phc);
          if ts2phc == Freerun {
            r := r.(clockClass := CLASS_FREERUN, accuracy := ACCURACY_UNKNOWN);
          } else if ts2phc == Locked {
            r := r.(clockClass := CLASS_HOLDOVER, accuracy := ACCURACY_100NS);
          }
      }
    }

    /** The switch over the DPLL state, on what the scan found. */
    method DecideRecord(start: GmRecord, rows: seq<Row>, lost: bool) returns (r: GmRecord)
      ensures r == Grandmaster.Decide(start, StateOf(rows, Dpll, NotSet), StateOf(rows, Gnss, Freerun),
                                      StateOf(rows, Ts2phc, Freerun), lost, outOfSpec && frequencyTraceable)
    {
      r := start;
      var dpll, gnss, ts2phc := ProcessStates(rows);
      match dpll {
        case Freerun =>
          r := r.(state := dpll, accuracy := ACCURACY_UNKNOWN,
                  clockClass := if outOfSpec && frequencyTraceable then CLASS_OUT_OF_SPEC else CLASS_FREERUN);
        case Holdover =>
          r := r.(state := dpll, clockClass := CLASS_HOLDOVER);
        case Locked =>
          r := WithDpll(r, gnss, ts2phc, lost);
        case NotSet =>
          r := WithDpll(r, gnss, ts2phc, lost);
        case _ =>
          r := WithUnknownDpll(r, gnss, ts2phc);
      }
    }

    /** Stores and returns the new grandmaster record of a config. */
    method UpdateGmState(cfg: string) returns (r: GmRecord)
      modifies this`gmSyncState
      ensures var n := NewRecord(data, old(gmSyncState), outOfSpec && frequencyTraceable, cfg);
              if n.Some? then r == n.value && gmSyncState == old(gmSyncState)[cfg := r]
              else r == GmRecord(Blank, CLASS_UNINITIALIZED, 0, false, Unidentified) && gmSyncState == old(gmSyncState)
    {
      var lost := IsSourceLost(cfg);
      var iface := GetGnssInterface(cfg);
      if iface == Unidentified {
        return GmRecord(Blank, CLASS_UNINITIALIZED, 0, false, iface);
      }
      if cfg !in gmSyncState {
        gmSyncState := gmSyncState[cfg := GmRecord(Freerun, CLASS_UNINITIALIZED, ACCURACY_UNKNOWN, lost, iface)];
      }
      r := gmSyncState[cfg].(sourceLost := lost, iface := iface);
      if cfg !in data {
        r := r.(state := Freerun, clockClass := CLASS_FREERUN, accuracy := ACCURACY_UNKNOWN);
      } else {
        r := DecideRecord(r, data[cfg], lost);
      }
      gmSyncState := gmSyncState[cfg := r];
    }

    /** The rows of a config without those of one process. */
    method RemoveRow(rows: seq<Row>, source: Source) returns (kept: seq<Row>)
      requires UniqueSources(rows)
      ensures kept == Without(rows, source)
    {
      var backing := new Row[|rows|](i requires 0 <= i < |rows| => rows[i]);
      assert backing[..] == rows;
      var len := DeleteWhileRanging(backing, source);
      kept := backing[..len];
    }

    method ResetData(e: Event)
      requires Valid() && e.reset
      modifies this
      ensures Valid() && View() == Turn(old(View()), e)
    {
      TurnKeepsTable(data, e);
      if e.source == Ts2phc {
        data := data - {e.cfg};
        clockClass, clockAccuracy := CLASS_UNINITIALIZED, ACCURACY_UNKNOWN;
      } else {
        if e.cfg in data {
          var kept := RemoveRow(data[e.cfg], e.source);
          data := data[e.cfg := kept];
        }
        gmSyncState := gmSyncState - {e.cfg};
        outOfSpec, frequencyTraceable := false, false;
      }
    }

    method MakeRequest(g: GmRecord, e: Event) returns (request: Option<Request>)
      ensures request == RequestFor(clockClass, clockAccuracy, g, e)
    {
      var accuracy := clockAccuracy;
      if (g.clockClass == CLASS_HOLDOVER || g.clockClass == CLASS_OUT_OF_SPEC) && e.source == Dpll && e.accuracy.Some? {
        accuracy := e.accuracy.value;
      }
      if g.clockClass != CLASS_UNINITIALIZED && (g.clockClass != clockClass || accuracy != clockAccuracy) {
        return Some(Request(e.cfg, g.state, e.clockType, g.clockClass, accuracy));
      }
      return None;
    }

    method UpdateRecord(e: Event) returns (g: GmRecord)
      requires Handled(e)
      modifies this`gmSyncState
      ensures gmSyncState == TurnGm(data, old(gmSyncState), outOfSpec && frequencyTraceable, e)
      ensures var n := NewRecord(data, old(gmSyncState), outOfSpec && frequencyTraceable, e.cfg);
              g == if n.Some? then n.value else GmRecord(Blank, CLASS_UNINITIALIZED, 0, false, Unidentified)
    {
      g := UpdateGmState(e.cfg);
      if e.cfg in gmSyncState {
        gmSyncState := gmSyncState[e.cfg := gmSyncState[e.cfg].(sourceLost := e.outOfSpec)];
      }
    }

    /** The turn of an event that is neither a reset nor from SyncE. */
    method TakeEvent(e: Event) returns (g: GmRecord, notify: bool)
      requires Handled(e)
      modifies this`data, this`outOfSpec, this`frequencyTraceable, this`gmSyncState
      ensures View() == Turn(old(View()), e)
      ensures g == Announced(old(View()), e)
      ensures notify == Notified(RowsOf(old(data), e.cfg), e)
    {
      ghost var h := View();
      notify := AddEvent(e);
      assert data == TurnData(h.data, e);
      assert (outOfSpec && frequencyTraceable) == Traceable(h, e);
      g := UpdateRecord(e);
      assert gmSyncState == TurnGm(TurnData(h.data, e), h.gm, Traceable(h, e), e);
    }

    /** One turn of the event loop: the new state, the clock class request it spawns and whether subscribers hear of it. */
    method ProcessEvent(e: Event) returns (request: Option<Request>, notify: bool)
      requires Valid()
      modifies this
      ensures Valid()
      ensures View() == Turn(old(View()), e)
      ensures request == Issued(old(View()), e)
      ensures notify == (Handled(e) && Notified(RowsOf(old(data), e.cfg), e))
    {
      if e.reset {
        ResetData(e);
        return None, false;
      }
      if e.source == Synce { return None, false; }
      assert TableOk(TurnData(data, e)) by { TurnKeepsTable(data, e); }
      var g;
      g, notify := TakeEvent(e);
      request := MakeRequest(g, e);
    }
  }

  // ---------------------------------------------------------------- the backing array of a slice

  /** The backing array after deleting index k in place: everything behind moves up, the last cell stays. */
  ghost function Shifted(rows: seq<Row>, k: nat): (r: seq<Row>)
    requires k < |rows|
    ensures |r| == |rows|
  {
    rows[..k] + rows[k + 1..] + [rows[|rows| - 1]]
  }

  lemma {:induction false} SeesOnce(rows: seq<Row>, source: Source, i: nat, deleted: bool)
    requires UniqueSources(rows) && i < |rows|
    requires deleted <==> IndexOfSource(rows, source) < i
    requires (if deleted then Shifted(rows, IndexOfSource(rows, source)) else rows)[i].source == source
    ensures !deleted && i == IndexOfSource(rows, source)
  {}

  /** append(s[:k], s[k+1:]...) on a slice that shares its backing array. */
  method ShiftLeft(a: array<Row>, k: nat, len: nat)
    requires k < len == a.Length
    modifies a
    ensures a[..] == Shifted(old(a[..]), k)
  {
    for j := k to len - 1
      invariant forall m :: 0 <= m < k ==> a[m] == old(a[m])
      invariant forall m :: k <= m < j ==> a[m] == old(a[m + 1])
      invariant forall m :: j <= m < len ==> a[m] == old(a[m])
    {
      a[j] := a[j + 1];
    }
  }

  /**
   * The reset loop: it ranges over the rows it started with while deleting from the same backing array,
   * so every deletion shifts what later iterations see. Under one row per process that is harmless.
   */
  method DeleteWhileRanging(backing: array<Row>, source: Source) returns (len: nat)
    requires UniqueSources(backing[..])
    modifies backing
    ensures len <= backing.Length && backing[..len] == Without(old(backing[..]), source)
  {
    ghost var rows := backing[..];
    ghost var k := IndexOfSource(rows, source);
    len := backing.Length;
    for i := 0 to backing.Length
      invariant len == if k < i then |rows| - 1 else |rows|
      invariant backing[..] == if k < i then Shifted(rows, k) else rows
    {
      if backing[i].source == source && i < len {
        assert backing[..][i].source == source;
        SeesOnce(rows, source, i, k < i);
        ShiftLeft(backing, i, len);
        len := len - 1;
      }
    }
    assert backing[..len] == backing[..][..len];
    KeptRows(rows, source);
  }

  lemma {:induction false} RemovedFromTail(rows: seq<Row>, k: nat)
    requires 0 < k < |rows|
    ensures rows[..k] + rows[k + 1..] == [rows[0]] + (rows[1..][..k - 1] + rows[1..][k..])
  {}

  lemma {:induction false} KeptRows(rows: seq<Row>, source: Source)
    requires UniqueSources(rows)
    ensures var k := IndexOfSource(rows, source);
            Without(rows, source) == if k < |rows| then rows[..k] + rows[k + 1..] else rows
  {
    if rows != [] {
      var rest, k := rows[1..], IndexOfSource(rows, source);
      if rows[0].source == source {
        NothingToRemove(rest, source);
      } else {
        KeptRows(rest, source);
        if k < |rows| { RemovedFromTail(rows, k); } else { assert [rows[0]] + rest == rows; }
      }
    }
  }

  lemma {:induction false} NothingToRemove(rows: seq<Row>, source: Source)
    requires forall i :: 0 <= i < |rows| ==> rows[i].source != source
    ensures Without(rows, source) == rows
  {
    if rows != [] { NothingToRemove(rows[1..], source); }
  }
}
