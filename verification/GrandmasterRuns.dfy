/** Runs of the event handler that depart from the documented table of grandmaster states. */
module GrandmasterRuns {
  import opened PtpTypes
  import opened Stats
  import opened Grandmaster
  import opened GrandmasterProofs

  /** An event of a grandmaster's process that is no reset; no producer reports a traceable frequency. */
  function Report(source: Source, state: PtpState, cfg: string, time: int, outOfSpec: bool, lost: bool): Event {
    Event(source, state, Iface("ens1f0"), cfg, GM, time, outOfSpec, false, lost, false, None)
  }

  lemma {:induction false} RunStep(es: seq<Event>, e: Event)
    ensures Run(es + [e]) == Turn(Run(es), e)
  {
    assert (es + [e])[..|es|] == es;
  }

  /** The documented row for the rows of a config. */
  function RowFor(rows: seq<Row>, outOfSpec: bool): Option<Verdict> {
    DocumentedRow(StateOf(rows, Dpll, NotSet), StateOf(rows, Gnss, Freerun), StateOf(rows, Ts2phc, Freerun),
                  SourceLost(rows), outOfSpec)
  }

  /** What a turn stores once the rows it leaves name a GNSS interface. */
  lemma {:induction false} TurnDecides(h: Handler, e: Event, rows: seq<Row>, previous: Option<GmRecord>)
    requires Handled(e) && AddToRows(RowsOf(h.data, e.cfg), e) == rows && GnssInterface(rows) != Unidentified
    requires previous == if e.cfg in h.gm then Some(h.gm[e.cfg]) else None
    ensures RowsOf(Turn(h, e).data, e.cfg) == rows && e.cfg in Turn(h, e).gm
    ensures Turn(h, e).gm[e.cfg] ==
            Decide(Starting(rows, previous), StateOf(rows, Dpll, NotSet), StateOf(rows, Gnss, Freerun),
                   StateOf(rows, Ts2phc, Freerun), SourceLost(rows), Traceable(h, e)).(sourceLost := e.outOfSpec)
  {}

  /** One row of GNSS and one of another process. */
  lemma {:induction false} TwoRows(gnss: Row, other: Row)
    requires gnss.source == Gnss && gnss.details != [] && other.source in {Dpll, Ts2phc}
    ensures var rows := [gnss, other];
            && StateOf(rows, Gnss, Freerun) == gnss.state && StateOf(rows, other.source, NotSet) == other.state
            && StateOf(rows, other.source, Freerun) == other.state
            && (other.source == Ts2phc ==> StateOf(rows, Dpll, NotSet) == NotSet)
            && (other.source == Dpll ==> StateOf(rows, Ts2phc, Freerun) == Freerun)
            && GnssInterface(rows) == gnss.details[0].iface && SourceLost(rows) == gnss.details[0].sourceLost
  {
    OneRow(gnss);
    assert [gnss, other][..1] == [gnss];
  }

  lemma {:induction false} OneRow(gnss: Row)
    requires gnss.source == Gnss && gnss.details != []
    ensures StateOf([gnss], Gnss, Freerun) == gnss.state && StateOf([gnss], Dpll, NotSet) == NotSet
    ensures StateOf([gnss], Ts2phc, Freerun) == Freerun
    ensures GnssInterface([gnss]) == gnss.details[0].iface && SourceLost([gnss]) == gnss.details[0].sourceLost
  {
    assert [gnss][..0] == [];
  }

  /** GNSS reports LOCKED first. */
  lemma {:induction false} FirstGnss(e: Event)
    requires e.source == Gnss && e.state == Locked && Handled(e) && e.iface != Unidentified
    ensures RowsOf(Run([e]).data, e.cfg) == [Row(Gnss, Locked, [FromEvent(e)])]
    ensures e.cfg in Run([e]).gm && Run([e]).gm[e.cfg].state == Freerun
  {
    RunStep([], e);
    assert [] + [e] == [e];
    SingleDetail(Row(Gnss, Unknown, []), e);
    var rows := [Row(Gnss, Locked, [FromEvent(e)])];
    assert AddToRows([], e) == rows;
    OneRow(rows[0]);
    TurnDecides(INITIAL, e, rows, None);
  }

  /** Another process reports next; what the new table says. */
  lemma {:induction false} SecondRow(row: Row, e: Event)
    requires row.source == Gnss && e.source in {Dpll, Ts2phc} && e.state in {Freerun, Locked}
    ensures AddToRows([row], e) == [row, Row(e.source, e.state, [FromEvent(e)])]
  {
    FirstIndex([row], e.source, 1);
    SingleDetail(Row(e.source, Unknown, []), e);
  }

  /** A later report of the only GNSS interface. */
  lemma {:induction false} LaterGnss(first: Event, other: Row, e: Event)
    requires first.source == e.source == Gnss && first.iface == e.iface && first.time <= e.time && e.state == Freerun
    ensures AddToRows([Row(Gnss, Locked, [FromEvent(first)]), other], e) == [Row(Gnss, Freerun, [FromEvent(e)]), other]
  {
    var rows := [Row(Gnss, Locked, [FromEvent(first)]), other];
    FirstIndex(rows, Gnss, 0);
    assert Record([FromEvent(first)], e) == [FromEvent(e)];
    assert FromEvent(e) in [FromEvent(e)];
  }

  /** GNSS and ts2phc lock without a DPLL. */
  lemma {:induction false} LocksWithoutDpll(gnss: Event, ts2phc: Event)
    requires gnss.source == Gnss && gnss.state == Locked && Handled(gnss) && gnss.iface != Unidentified
    requires ts2phc.source == Ts2phc && ts2phc.state == Locked && Handled(ts2phc) && ts2phc.cfg == gnss.cfg
    ensures RowsOf(Run([gnss, ts2phc]).data, gnss.cfg) ==
            [Row(Gnss, Locked, [FromEvent(gnss)]), Row(Ts2phc, Locked, [FromEvent(ts2phc)])]
    ensures gnss.cfg in Run([gnss, ts2phc]).gm
    ensures var g := Run([gnss, ts2phc]).gm[gnss.cfg]; g.state == Locked && g.clockClass == CLASS_LOCKED
  {
    FirstGnss(gnss);
    RunStep([gnss], ts2phc);
    assert [gnss] + [ts2phc] == [gnss, ts2phc];
    var r1, r2 := Row(Gnss, Locked, [FromEvent(gnss)]), Row(Ts2phc, Locked, [FromEvent(ts2phc)]);
    SecondRow(r1, ts2phc);
    TwoRows(r1, r2);
    TurnDecides(Run([gnss]), ts2phc, [r1, r2], Some(Run([gnss]).gm[gnss.cfg]));
  }

  /** GNSS then reports its source lost. */
  lemma {:induction false} SourceLostTurn(h: Handler, e1: Event, e2: Event, e3: Event)
    requires e1.source == e3.source == Gnss && e1.cfg == e3.cfg && e1.iface == e3.iface != Unidentified
    requires e1.time <= e3.time && e3.state == Freerun && e3.sourceLost && Handled(e3)
    requires RowsOf(h.data, e3.cfg) == [Row(Gnss, Locked, [FromEvent(e1)]), Row(Ts2phc, Locked, [FromEvent(e2)])]
    requires e3.cfg in h.gm
    ensures RowFor(RowsOf(Turn(h, e3).data, e3.cfg), false) == Some(Becomes(Freerun, CLASS_FREERUN))
    ensures e3.cfg in Turn(h, e3).gm && Turn(h, e3).gm[e3.cfg].state == h.gm[e3.cfg].state
    ensures Turn(h, e3).gm[e3.cfg].clockClass == h.gm[e3.cfg].clockClass
  {
    var r2, r3 := Row(Ts2phc, Locked, [FromEvent(e2)]), Row(Gnss, Freerun, [FromEvent(e3)]);
    LaterGnss(e1, r2, e3);
    TwoRows(r3, r2);
    TurnDecides(h, e3, [r3, r2], Some(h.gm[e3.cfg]));
  }

  /** A grandmaster without DPLL that was locked stays so when its GNSS source is lost, against the table. */
  lemma {:induction false} LockedWithoutSource(cfg: string)
    ensures var es := [Report(Gnss, Locked, cfg, 1, false, false), Report(Ts2phc, Locked, cfg, 2, false, false),
                       Report(Gnss, Freerun, cfg, 3, false, true)];
            && cfg in Run(es).gm && Run(es).gm[cfg].state == Locked && Run(es).gm[cfg].clockClass == CLASS_LOCKED
            && RowFor(RowsOf(Run(es).data, cfg), false) == Some(Becomes(Freerun, CLASS_FREERUN))
  {
    var e1, e2 := Report(Gnss, Locked, cfg, 1, false, false), Report(Ts2phc, Locked, cfg, 2, false, false);
    var e3 := Report(Gnss, Freerun, cfg, 3, false, true);
    LocksWithoutDpll(e1, e2);
    assert Run([e1, e2, e3]) == Turn(Run([e1, e2]), e3) by {
      RunStep([e1, e2], e3);
      assert [e1, e2] + [e3] == [e1, e2, e3];
    }
    SourceLostTurn(Run([e1, e2]), e1, e2, e3);
  }

  /** A DPLL whose holdover expired freeruns out of spec: class 248, where the table promises 140. */
  lemma {:induction false} ExpiredHoldoverClass(cfg: string)
    ensures var es := [Report(Gnss, Locked, cfg, 1, false, false), Report(Dpll, Freerun, cfg, 2, true, true)];
            && cfg in Run(es).gm && Run(es).gm[cfg].clockClass == CLASS_FREERUN && Run(es).outOfSpec
            && RowFor(RowsOf(Run(es).data, cfg), true) == Some(Becomes(Freerun, CLASS_OUT_OF_SPEC))
  {
    var e1, e2 := Report(Gnss, Locked, cfg, 1, false, false), Report(Dpll, Freerun, cfg, 2, true, true);
    FirstGnss(e1);
    RunStep([e1], e2);
    assert [e1] + [e2] == [e1, e2];
    var r1, r2 := Row(Gnss, Locked, [FromEvent(e1)]), Row(Dpll, Freerun, [FromEvent(e2)]);
    SecondRow(r1, e2);
    TwoRows(r1, r2);
    TurnDecides(Run([e1]), e2, [r1, r2], Some(Run([e1]).gm[cfg]));
  }
}
