/** What every run of the event handler keeps. */
module GrandmasterProofs {
  import opened PtpTypes
  import opened Stats
  import opened Grandmaster

  // ---------------------------------------------------------------- shape of the table

  ghost predicate RowOk(r: Row) {
    && r.details != []
    && UniqueIfaces(r.details)
    && r.state == WorstState(r.details)
    && forall i :: 0 <= i < |r.details| ==> r.details[i].signal == NO_SIGNAL
  }

  ghost predicate UniqueSources(rows: seq<Row>) {
    forall i, j :: 0 <= i < j < |rows| ==> rows[i].source != rows[j].source
  }

  ghost predicate RowsOk(rows: seq<Row>) {
    UniqueSources(rows) && forall i :: 0 <= i < |rows| ==> RowOk(rows[i])
  }

  ghost predicate TableOk(t: Table) {
    forall cfg :: cfg in t ==> RowsOk(t[cfg])
  }

  lemma {:induction false} AbsorbKeepsRow(r: Row, e: Event)
    requires r.details == [] || RowOk(r)
    ensures RowOk(Absorb(r, e))
  {}

  lemma {:induction false} AddKeepsRows(rows: seq<Row>, e: Event)
    requires RowsOk(rows)
    ensures RowsOk(AddToRows(rows, e))
  {
    var k := IndexOfSource(rows, e.source);
    AbsorbKeepsRow(if k < |rows| then rows[k] else Row(e.source, Unknown, []), e);
  }

  lemma {:induction false} WithoutMembers(rows: seq<Row>, s: Source)
    ensures forall r :: r in Without(rows, s) <==> r in rows && r.source != s
  {
    if rows != [] {
      WithoutMembers(rows[1..], s);
      assert rows == [rows[0]] + rows[1..];
    }
  }

  lemma {:induction false} WithoutKeepsRows(rows: seq<Row>, s: Source)
    requires RowsOk(rows)
    ensures RowsOk(Without(rows, s))
  {
    if rows != [] {
      var rest := rows[1..];
      assert RowsOk(rest);
      WithoutKeepsRows(rest, s);
      var kept := Without(rest, s);
      forall i | 0 <= i < |kept| ensures kept[i].source != rows[0].source {
        WithoutMembers(rest, s);
        assert kept[i] in kept;
      }
      assert RowOk(rows[0]);
      assert RowsOk([rows[0]] + kept);
    }
  }

  lemma {:induction false} TurnKeepsTable(t: Table, e: Event)
    requires TableOk(t)
    ensures TableOk(TurnData(t, e))
  {
    if e.reset {
      if e.cfg in t { WithoutKeepsRows(t[e.cfg], e.source); }
    } else if e.source != Synce {
      AddKeepsRows(RowsOf(t, e.cfg), e);
    }
  }

  /** Every reachable state has one row per process, one detail per interface and folded states. */
  lemma {:induction false} ReachableTable(es: seq<Event>)
    ensures TableOk(Run(es).data)
  {
    if es != [] {
      ReachableTable(es[..|es| - 1]);
      TurnKeepsTable(Run(es[..|es| - 1]).data, es[|es| - 1]);
    }
  }

  // ---------------------------------------------------------------- reading a well-formed table

  ghost predicate HasSource(rows: seq<Row>, s: Source) {
    IndexOfSource(rows, s) < |rows|
  }

  lemma {:induction false} StateOfAt(rows: seq<Row>, k: nat, absent: PtpState)
    requires UniqueSources(rows) && k < |rows|
    ensures StateOf(rows, rows[k].source, absent) == rows[k].state
  {
    var n := |rows| - 1;
    if k < n {
      assert rows[..n][k] == rows[k];
      StateOfAt(rows[..n], k, absent);
    }
  }

  lemma {:induction false} StateOfAbsent(rows: seq<Row>, s: Source, absent: PtpState)
    requires forall i :: 0 <= i < |rows| ==> rows[i].source != s
    ensures StateOf(rows, s, absent) == absent
  {
    if rows != [] { StateOfAbsent(rows[..|rows| - 1], s, absent); }
  }

  lemma {:induction false} StateOfRow(rows: seq<Row>, s: Source, absent: PtpState)
    requires UniqueSources(rows)
    ensures StateOf(rows, s, absent) == if HasSource(rows, s) then rows[IndexOfSource(rows, s)].state else absent
  {
    var k := IndexOfSource(rows, s);
    if k < |rows| { StateOfAt(rows, k, absent); } else { StateOfAbsent(rows, s, absent); }
  }

  lemma {:induction false} NoSignal(ds: seq<Detail>)
    requires forall i :: 0 <= i < |ds| ==> ds[i].signal == NO_SIGNAL
    ensures GnssSignal(ds) == None
  {
    if ds != [] { NoSignal(ds[1..]); }
  }

  /** The GNSS row alone decides the interface and the source-lost flag. */
  lemma {:induction false} GnssRowDecides(rows: seq<Row>)
    requires RowsOk(rows)
    ensures var k := IndexOfSource(rows, Gnss);
            if k < |rows|
            then GnssInterface(rows) == rows[k].details[0].iface && SourceLost(rows) == rows[k].details[0].sourceLost
            else GnssInterface(rows) == Unidentified && !SourceLost(rows)
  {
    if rows != [] {
      assert RowOk(rows[0]);
      NoSignal(rows[0].details);
      if rows[0].source != Gnss {
        GnssRowDecides(rows[1..]);
      }
    }
  }

  lemma {:induction false} FirstIndex(rows: seq<Row>, s: Source, k: nat)
    requires k <= |rows|
    requires k < |rows| ==> rows[k].source == s
    requires forall j :: 0 <= j < k ==> rows[j].source != s
    ensures IndexOfSource(rows, s) == k
  {}

  /** Adding an event keeps every process at its index and its first interface in place. */
  lemma {:induction false} SourceAfterAdd(rows: seq<Row>, e: Event, s: Source)
    requires RowsOk(rows) && HasSource(rows, s)
    ensures var k, rows' := IndexOfSource(rows, s), AddToRows(rows, e);
            && IndexOfSource(rows', s) == k && HasSource(rows', s)
            && rows[k].details != [] && rows'[k].details != []
            && rows'[k].details[0].iface == rows[k].details[0].iface
  {
    var k, rows' := IndexOfSource(rows, s), AddToRows(rows, e);
    assert RowOk(rows[k]);
    assert forall j :: 0 <= j < |rows| ==> rows'[j].source == rows[j].source;
    FirstIndex(rows', s, k);
  }

  // ---------------------------------------------------------------- clock classes

  /** What the producers send: GNSS only s0 and s2, DPLL and ts2phc only s0, s1 and s2. */
  predicate InAlphabet(e: Event) {
    && (e.source == Gnss ==> e.state in {Freerun, Locked})
    && (e.source in {Dpll, Ts2phc} ==> e.state in {Freerun, Holdover, Locked})
  }

  ghost predicate Produced(es: seq<Event>) {
    forall i :: 0 <= i < |es| && !es[i].reset ==> InAlphabet(es[i])
  }

  ghost predicate Reported(r: Row) {
    forall i :: 0 <= i < |r.details| ==>
      && (r.source == Gnss ==> r.details[i].state in {Freerun, Locked})
      && (r.source in {Dpll, Ts2phc} ==> r.details[i].state in {Freerun, Holdover, Locked})
  }

  ghost predicate RowsReported(rows: seq<Row>) {
    forall i :: 0 <= i < |rows| ==> Reported(rows[i])
  }

  ghost predicate AllReported(t: Table) {
    forall cfg :: cfg in t ==> RowsReported(t[cfg])
  }

  lemma {:induction false} AbsorbKeepsReported(r: Row, e: Event)
    requires Reported(r) && r.source == e.source && InAlphabet(e)
    ensures Reported(Absorb(r, e))
  {}

  lemma {:induction false} AddKeepsReported(rows: seq<Row>, e: Event)
    requires RowsReported(rows) && InAlphabet(e)
    ensures RowsReported(AddToRows(rows, e))
  {
    var k := IndexOfSource(rows, e.source);
    AbsorbKeepsReported(if k < |rows| then rows[k] else Row(e.source, Unknown, []), e);
  }

  lemma {:induction false} TurnKeepsReported(t: Table, e: Event)
    requires TableOk(t) && AllReported(t)
    requires !e.reset ==> InAlphabet(e)
    ensures AllReported(TurnData(t, e))
  {
    if e.reset {
      if e.cfg in t { WithoutMembers(t[e.cfg], e.source); }
    } else if e.source != Synce {
      AddKeepsReported(RowsOf(t, e.cfg), e);
    }
  }

  /** A non-empty process of the alphabet never aggregates to an unknown state. */
  lemma {:induction false} ReportedState(rows: seq<Row>, s: Source, absent: PtpState)
    requires RowsOk(rows) && RowsReported(rows)
    requires s in {Gnss, Dpll, Ts2phc}
    ensures var st := StateOf(rows, s, absent);
            if HasSource(rows, s) then st in {Freerun, Holdover, Locked} && (s == Gnss ==> st != Holdover)
            else st == absent
  {
    StateOfRow(rows, s, absent);
    var k := IndexOfSource(rows, s);
    if k < |rows| {
      var ds := rows[k].details;
      assert RowOk(rows[k]) && Reported(rows[k]);
      assert ds[0] in ds && HasState(ds, ds[0].state);
    }
  }

  /** The grandmaster record the handler publishes is one of Table 3's rows. */
  ghost predicate GmOk(g: GmRecord) {
    && g.state in {Freerun, Holdover, Locked}
    && (g.state == Locked <==> g.clockClass == CLASS_LOCKED)
    && (g.state == Holdover <==> g.clockClass == CLASS_HOLDOVER)
    && (g.state == Freerun <==> g.clockClass in {CLASS_UNINITIALIZED, CLASS_OUT_OF_SPEC, CLASS_FREERUN})
    && (g.state == Locked ==> g.accuracy == ACCURACY_100NS)
    && (g.state == Freerun ==> g.accuracy == ACCURACY_UNKNOWN)
  }

  ghost predicate RecordsOk(gm: map<string, GmRecord>) {
    forall cfg :: cfg in gm ==> GmOk(gm[cfg])
  }

  ghost predicate HandlerOk(h: Handler) {
    TableOk(h.data) && AllReported(h.data) && RecordsOk(h.gm)
  }

  /** The two arms that the producers can never reach: no data for the config, and an unknown DPLL state. */
  lemma {:induction false} DecisionInputs(t: Table, cfg: string)
    requires TableOk(t) && AllReported(t)
    ensures var rows := RowsOf(t, cfg);
            && (GnssInterface(rows) != Unidentified ==> cfg in t)
            && StateOf(rows, Dpll, NotSet) in {Freerun, Holdover, Locked, NotSet}
            && StateOf(rows, Gnss, Freerun) in {Freerun, Locked}
            && StateOf(rows, Ts2phc, Freerun) in {Freerun, Holdover, Locked}
  {
    var rows := RowsOf(t, cfg);
    ReportedState(rows, Dpll, NotSet);
    ReportedState(rows, Gnss, Freerun);
    ReportedState(rows, Ts2phc, Freerun);
  }

  lemma {:induction false} DecideKeepsGm(g: GmRecord, dpll: PtpState, gnss: PtpState, ts2phc: PtpState, lost: bool, traceable: bool)
    requires GmOk(g)
    requires dpll in {Freerun, Holdover, Locked, NotSet}
    requires gnss in {Freerun, Locked} && ts2phc in {Freerun, Holdover, Locked}
    ensures GmOk(Decide(g, dpll, gnss, ts2phc, lost, traceable))
  {}

  /**
   * The arm for a DPLL in no known state, which the producers never reach: it keeps records paired exactly while GNSS
   * is known. With GNSS unknown it copies the state of ts2phc; a LOCKED one gets class 7, and any other keeps the old class.
   */
  lemma {:induction false} UnknownDpllKeepsGmIff(g: GmRecord, gnss: PtpState, ts2phc: PtpState)
    requires GmOk(g)
    ensures GmOk(DecideDefault(g, gnss, ts2phc)) <==>
            gnss in {Locked, Freerun} || ts2phc == Freerun || (ts2phc == Holdover && g.state == Holdover)
  {}

  // ---------------------------------------------------------------- the documented table

  datatype Verdict = Stay | Becomes(state: PtpState, clockClass: int)

  /**
   * The table of final grandmaster states in the source, read by its own columns: a DPLL that freeruns out of spec
   * has a row of its own, and ts2phc on holdover under a locked or absent DPLL has none.
   */
  function DocumentedRow(dpll: PtpState, gnss: PtpState, ts2phc: PtpState, lost: bool, outOfSpec: bool): Option<Verdict> {
    if dpll == Freerun then Some(Becomes(Freerun, if outOfSpec then CLASS_OUT_OF_SPEC else CLASS_FREERUN))
    else if dpll == Holdover then Some(Becomes(Holdover, CLASS_HOLDOVER))
    else if ts2phc !in {Locked, Freerun} then None
    else if gnss == Locked then Some(if ts2phc == Locked then Becomes(Locked, CLASS_LOCKED) else Becomes(Freerun, CLASS_FREERUN))
    else if dpll == Locked && lost then Some(Stay)
    else Some(Becomes(Freerun, CLASS_FREERUN))
  }

  predicate Follows(v: Verdict, before: GmRecord, after: GmRecord) {
    match v
    case Stay => after == before
    case Becomes(state, clockClass) => after.state == state && after.clockClass == clockClass
  }

  /**
   * The decision follows the documented row exactly except in two cases. Without a DPLL, a lost GNSS source leaves the
   * last record standing, whereas the table promises FREERUN with class 248. A DPLL that freeruns out of spec without
   * traceable frequency gives class 248, whereas the table promises 140.
   */
  lemma {:induction false} FollowsTableIff(g: GmRecord, dpll: PtpState, gnss: PtpState, ts2phc: PtpState, lost: bool,
                                           outOfSpec: bool, frequencyTraceable: bool)
    requires dpll in {Freerun, Holdover, Locked, NotSet}
    requires gnss in {Freerun, Locked} && ts2phc in {Freerun, Holdover, Locked}
    requires DocumentedRow(dpll, gnss, ts2phc, lost, outOfSpec).Some?
    ensures Follows(DocumentedRow(dpll, gnss, ts2phc, lost, outOfSpec).value, g,
                    Decide(g, dpll, gnss, ts2phc, lost, outOfSpec && frequencyTraceable)) <==>
            && (dpll == NotSet && gnss == Freerun && lost ==> g.state == Freerun && g.clockClass == CLASS_FREERUN)
            && (dpll == Freerun && outOfSpec ==> frequencyTraceable)
  {}

  /** Where the table is silent: a ts2phc on holdover decides, unless GNSS freeruns with its source present. */
  lemma {:induction false} SilentRows(g: GmRecord, dpll: PtpState, gnss: PtpState, lost: bool, traceable: bool)
    requires dpll in {Locked, NotSet} && gnss in {Freerun, Locked}
    ensures forall outOfSpec :: DocumentedRow(dpll, gnss, Holdover, lost, outOfSpec).None?
    ensures Follows(if gnss == Locked || lost then Becomes(Holdover, CLASS_HOLDOVER) else Stay, g,
                    Decide(g, dpll, gnss, Holdover, lost, traceable))
  {}

  lemma {:induction false} NewRecordOk(t: Table, gm: map<string, GmRecord>, traceable: bool, cfg: string)
    requires TableOk(t) && AllReported(t) && RecordsOk(gm)
    ensures var r := NewRecord(t, gm, traceable, cfg); r.Some? ==> GmOk(r.value)
  {
    DecisionInputs(t, cfg);
    var rows := RowsOf(t, cfg);
    var start := Starting(rows, if cfg in gm then Some(gm[cfg]) else None);
    DecideKeepsGm(start, StateOf(rows, Dpll, NotSet), StateOf(rows, Gnss, Freerun),
                  StateOf(rows, Ts2phc, Freerun), SourceLost(rows), traceable);
  }

  lemma {:induction false} StoredOk(gm: map<string, GmRecord>, cfg: string, r: Option<GmRecord>, outOfSpec: bool)
    requires RecordsOk(gm) && (r.Some? ==> GmOk(r.value))
    ensures RecordsOk(Stored(gm, cfg, r, outOfSpec))
  {}

  lemma {:induction false} TurnKeepsHandler(h: Handler, e: Event)
    requires HandlerOk(h)
    requires !e.reset ==> InAlphabet(e)
    ensures HandlerOk(Turn(h, e))
    ensures Handled(e) && Announced(h, e).iface != Unidentified ==> GmOk(Announced(h, e))
  {
    var t, traceable := TurnData(h.data, e), Traceable(h, e);
    var r := NewRecord(t, h.gm, traceable, e.cfg);
    assert TableOk(t) by { TurnKeepsTable(h.data, e); }
    assert AllReported(t) by { TurnKeepsReported(h.data, e); }
    assert r.Some? ==> GmOk(r.value) by { NewRecordOk(t, h.gm, traceable, e.cfg); }
    StoredOk(h.gm, e.cfg, r, e.outOfSpec);
  }

  /** Every reachable stored record pairs state, clock class and accuracy as Table 3 does. */
  lemma {:induction false} ReachableRecords(es: seq<Event>)
    requires Produced(es)
    ensures HandlerOk(Run(es))
  {
    if es != [] {
      ReachableRecords(es[..|es| - 1]);
      TurnKeepsHandler(Run(es[..|es| - 1]), es[|es| - 1]);
    }
  }

  // ---------------------------------------------------------------- why a record may say LOCKED

  ghost predicate DpllOk(rows: seq<Row>) {
    StateOf(rows, Dpll, NotSet) in {Locked, NotSet}
  }

  ghost predicate FullyLocked(rows: seq<Row>) {
    && DpllOk(rows)
    && StateOf(rows, Gnss, Freerun) == Locked
    && StateOf(rows, Ts2phc, Freerun) == Locked
  }

  ghost predicate LockedRecord(h: Handler, cfg: string) {
    cfg in h.gm && h.gm[cfg].state == Locked
  }

  /** A reset of ts2phc for the config: it drops the rows but keeps the record. */
  predicate DropsRows(e: Event, cfg: string) {
    e.reset && e.source == Ts2phc && e.cfg == cfg
  }

  /** No reset of ts2phc meets a LOCKED record. */
  ghost predicate ResetsUnlocked(es: seq<Event>, cfg: string) {
    forall i :: 0 <= i < |es| && DropsRows(es[i], cfg) ==> !LockedRecord(Run(es[..i]), cfg)
  }

  /** A LOCKED record implies that a GNSS row is still there. */
  ghost predicate Anchored(h: Handler, cfg: string) {
    LockedRecord(h, cfg) ==> GnssInterface(RowsOf(h.data, cfg)) != Unidentified
  }

  lemma {:induction false} UnlockedPrefix(es: seq<Event>, cfg: string, n: nat)
    requires ResetsUnlocked(es, cfg) && n <= |es|
    ensures ResetsUnlocked(es[..n], cfg)
  {
    forall i | 0 <= i < n && DropsRows(es[..n][i], cfg) ensures !LockedRecord(Run(es[..n][..i]), cfg) {
      assert es[..n][..i] == es[..i];
    }
  }

  lemma {:induction false} AddKeepsInterface(rows: seq<Row>, e: Event)
    requires RowsOk(rows) && GnssInterface(rows) != Unidentified
    ensures GnssInterface(AddToRows(rows, e)) != Unidentified
  {
    GnssRowDecides(rows);
    AddKeepsRows(rows, e);
    SourceAfterAdd(rows, e, Gnss);
    GnssRowDecides(AddToRows(rows, e));
  }

  lemma {:induction false} TurnKeepsAnchor(h: Handler, e: Event, cfg: string)
    requires TableOk(h.data) && Anchored(h, cfg)
    requires DropsRows(e, cfg) ==> !LockedRecord(h, cfg)
    ensures Anchored(Turn(h, e), cfg)
  {
    var t := TurnData(h.data, e);
    if Handled(e) && e.cfg == cfg {
      if LockedRecord(h, cfg) { AddKeepsInterface(RowsOf(h.data, cfg), e); }
    } else if !(e.reset && e.cfg == cfg) {
      assert RowsOf(t, cfg) == RowsOf(h.data, cfg);
    }
  }

  lemma {:induction false} RunAnchored(es: seq<Event>, cfg: string)
    requires ResetsUnlocked(es, cfg)
    ensures Anchored(Run(es), cfg)
  {
    if es != [] {
      var n := |es| - 1;
      UnlockedPrefix(es, cfg, n);
      RunAnchored(es[..n], cfg);
      ReachableTable(es[..n]);
      TurnKeepsAnchor(Run(es[..n]), es[n], cfg);
    }
  }

  lemma {:induction false} DecidesLocked(g: GmRecord, dpll: PtpState, gnss: PtpState, ts2phc: PtpState, lost: bool, traceable: bool)
    requires dpll in {Freerun, Holdover, Locked, NotSet} && gnss in {Freerun, Locked}
    requires Decide(g, dpll, gnss, ts2phc, lost, traceable).state == Locked
    ensures dpll in {Locked, NotSet}
    ensures gnss == ts2phc == Locked || g.state == Locked
  {}

  /** Where a new LOCKED record can come from. */
  lemma {:induction false} NewLocked(t: Table, gm: map<string, GmRecord>, traceable: bool, cfg: string)
    requires TableOk(t) && AllReported(t)
    requires var r := NewRecord(t, gm, traceable, cfg); r.Some? && r.value.state == Locked
    ensures DpllOk(RowsOf(t, cfg))
    ensures FullyLocked(RowsOf(t, cfg)) || (cfg in gm && gm[cfg].state == Locked)
  {
    DecisionInputs(t, cfg);
    var rows := RowsOf(t, cfg);
    var start := Starting(rows, if cfg in gm then Some(gm[cfg]) else None);
    DecidesLocked(start, StateOf(rows, Dpll, NotSet), StateOf(rows, Gnss, Freerun),
                  StateOf(rows, Ts2phc, Freerun), SourceLost(rows), traceable);
  }

  /** Where a LOCKED record can come from in one turn. */
  lemma {:induction false} LockedStep(h: Handler, e: Event, cfg: string)
    requires HandlerOk(h) && Anchored(h, cfg)
    requires !e.reset ==> InAlphabet(e)
    requires DropsRows(e, cfg) ==> !LockedRecord(h, cfg)
    requires LockedRecord(h, cfg) ==> DpllOk(RowsOf(h.data, cfg))
    requires LockedRecord(Turn(h, e), cfg)
    ensures !(e.reset && e.cfg == cfg)
    ensures DpllOk(RowsOf(TurnData(h.data, e), cfg))
    ensures FullyLocked(RowsOf(TurnData(h.data, e), cfg)) || LockedRecord(h, cfg)
  {
    var t := TurnData(h.data, e);
    if Handled(e) && e.cfg == cfg {
      TurnKeepsTable(h.data, e);
      TurnKeepsReported(h.data, e);
      if LockedRecord(h, cfg) {
        AddKeepsInterface(RowsOf(h.data, cfg), e);
      }
      assert NewRecord(t, h.gm, Traceable(h, e), cfg).Some?;
      NewLocked(t, h.gm, Traceable(h, e), cfg);
    } else {
      assert RowsOf(t, cfg) == RowsOf(h.data, cfg);
    }
  }

  /** The rows of one config before the run and after each of its events. */
  ghost function Trace(es: seq<Event>, cfg: string): (tr: seq<seq<Row>>)
    ensures |tr| == |es| + 1
  {
    (if es == [] then [] else Trace(es[..|es| - 1], cfg)) + [RowsOf(Run(es).data, cfg)]
  }

  lemma {:induction false} TraceAt(es: seq<Event>, cfg: string, k: nat)
    requires k <= |es|
    ensures Trace(es, cfg)[k] == RowsOf(Run(es[..k]).data, cfg)
  {
    if k == |es| {
      assert es[..k] == es;
    } else {
      TraceAt(es[..|es| - 1], cfg, k);
      assert es[..|es| - 1][..k] == es[..k];
    }
  }

  /** At `w` all three processes were locked; since then the DPLL never left LOCKED and nothing was reset. */
  ghost predicate IsWitness(es: seq<Event>, tr: seq<seq<Row>>, cfg: string, w: nat)
    requires |tr| == |es| + 1
  {
    && 0 < w <= |es|
    && FullyLocked(tr[w])
    && (forall k :: w <= k <= |es| ==> DpllOk(tr[k]))
    && (forall k :: w <= k < |es| && es[k].reset ==> es[k].cfg != cfg)
  }

  lemma {:induction false} WitnessExtends(es: seq<Event>, tr: seq<seq<Row>>, cfg: string, w: nat, e: Event, rows: seq<Row>)
    requires |tr| == |es| + 1 && IsWitness(es, tr, cfg, w)
    requires DpllOk(rows) && !(e.reset && e.cfg == cfg)
    ensures IsWitness(es + [e], tr + [rows], cfg, w)
  {}

  lemma {:induction false} LockedLast(es: seq<Event>, cfg: string)
    requires es != [] && Produced(es) && ResetsUnlocked(es, cfg)
    requires var h := Run(es[..|es| - 1]); LockedRecord(h, cfg) ==> DpllOk(RowsOf(h.data, cfg))
    requires LockedRecord(Run(es), cfg)
    ensures !(es[|es| - 1].reset && es[|es| - 1].cfg == cfg)
    ensures DpllOk(RowsOf(Run(es).data, cfg))
    ensures FullyLocked(RowsOf(Run(es).data, cfg)) || LockedRecord(Run(es[..|es| - 1]), cfg)
  {
    var before, e := es[..|es| - 1], es[|es| - 1];
    var h := Run(before);
    assert HandlerOk(h) by { ReachableRecords(before); }
    assert Anchored(h, cfg) by {
      UnlockedPrefix(es, cfg, |before|);
      RunAnchored(before, cfg);
    }
    assert DropsRows(e, cfg) ==> !LockedRecord(h, cfg);
    LockedStep(h, e, cfg);
  }

  /** The last entry of a trace is the rows of the whole run. */
  lemma {:induction false} WitnessAtEnd(es: seq<Event>, cfg: string, w: nat)
    requires IsWitness(es, Trace(es, cfg), cfg, w)
    ensures DpllOk(RowsOf(Run(es).data, cfg))
  {
    TraceAt(es, cfg, |es|);
    assert es[..|es|] == es;
  }

  lemma {:induction false} WitnessStays(es: seq<Event>, cfg: string, w: nat)
    requires es != [] && IsWitness(es[..|es| - 1], Trace(es[..|es| - 1], cfg), cfg, w)
    requires DpllOk(RowsOf(Run(es).data, cfg)) && !(es[|es| - 1].reset && es[|es| - 1].cfg == cfg)
    ensures IsWitness(es, Trace(es, cfg), cfg, w)
  {
    var before, e := es[..|es| - 1], es[|es| - 1];
    WitnessExtends(before, Trace(before, cfg), cfg, w, e, RowsOf(Run(es).data, cfg));
    assert before + [e] == es;
  }

  /**
   * A stored LOCKED state has a witness since the config's last reset: a moment when GNSS and ts2phc
   * were LOCKED and the DPLL LOCKED or absent, after which the DPLL stayed LOCKED or absent.
   */
  lemma {:induction false} LockedHasWitness(es: seq<Event>, cfg: string) returns (w: nat)
    requires Produced(es) && ResetsUnlocked(es, cfg)
    requires LockedRecord(Run(es), cfg)
    ensures IsWitness(es, Trace(es, cfg), cfg, w)
  {
    var before := es[..|es| - 1];
    if LockedRecord(Run(before), cfg) {
      UnlockedPrefix(es, cfg, |before|);
      w := LockedHasWitness(before, cfg);
      WitnessAtEnd(before, cfg, w);
      LockedLast(es, cfg);
      WitnessStays(es, cfg, w);
    } else {
      LockedLast(es, cfg);
      w := |es|;
    }
  }

  ghost predicate Witnessed(es: seq<Event>, cfg: string) {
    exists w: nat :: IsWitness(es, Trace(es, cfg), cfg, w)
  }

  /** A reset of ts2phc leaves a LOCKED record standing with no witness at all. */
  lemma {:induction false} ResetLeavesNoWitness(es: seq<Event>, cfg: string)
    requires es != [] && DropsRows(es[|es| - 1], cfg) && LockedRecord(Run(es[..|es| - 1]), cfg)
    ensures LockedRecord(Run(es), cfg) && !Witnessed(es, cfg)
  {
    var n := |es| - 1;
    assert RowsOf(Run(es).data, cfg) == [];
    TraceAt(es, cfg, |es|);
    assert es[..|es|] == es;
    forall w: nat ensures !IsWitness(es, Trace(es, cfg), cfg, w) {
      if w <= n { assert es[n].reset && es[n].cfg == cfg; }
    }
  }

  /** At every moment of the run at which the config's record is LOCKED, there is a witness for it. */
  ghost predicate AlwaysWitnessed(es: seq<Event>, cfg: string) {
    forall n :: 0 <= n <= |es| && LockedRecord(Run(es[..n]), cfg) ==> Witnessed(es[..n], cfg)
  }

  /** Every stored LOCKED of a run has a witness if and only if no reset of ts2phc ever meets a LOCKED record. */
  lemma {:induction false} WitnessedIff(es: seq<Event>, cfg: string)
    requires Produced(es)
    ensures AlwaysWitnessed(es, cfg) <==> ResetsUnlocked(es, cfg)
  {
    if ResetsUnlocked(es, cfg) {
      forall n | 0 <= n <= |es| && LockedRecord(Run(es[..n]), cfg) ensures Witnessed(es[..n], cfg) {
        UnlockedPrefix(es, cfg, n);
        var w := LockedHasWitness(es[..n], cfg);
      }
    } else {
      var i :| 0 <= i < |es| && DropsRows(es[i], cfg) && LockedRecord(Run(es[..i]), cfg);
      assert es[..i + 1][..i] == es[..i];
      ResetLeavesNoWitness(es[..i + 1], cfg);
    }
  }

  /** What such a reset does to a LOCKED record: it outlives a DPLL that reports FREERUN. */
  lemma {:induction false} Ts2phcResetLeavesLocked(h: Handler, reset: Event, dpll: Event)
    requires TableOk(h.data) && LockedRecord(h, dpll.cfg)
    requires reset.reset && reset.source == Ts2phc && reset.cfg == dpll.cfg
    requires !dpll.reset && dpll.source == Dpll && dpll.state == Freerun
    ensures var h' := Turn(Turn(h, reset), dpll);
            LockedRecord(h', dpll.cfg) && StateOf(RowsOf(h'.data, dpll.cfg), Dpll, NotSet) == Freerun
  {
    var t := TurnData(h.data, reset);
    assert RowsOf(t, dpll.cfg) == [];
    SingleDetail(Row(Dpll, Unknown, []), dpll);
    assert AddToRows([], dpll) == [Row(Dpll, Freerun, [FromEvent(dpll)])];
    assert GnssInterface(AddToRows([], dpll)) == Unidentified;
  }

  lemma {:induction false} SingleDetail(r: Row, e: Event)
    requires r.details == [] && e.state in {Freerun, Holdover, Locked}
    ensures Absorb(r, e) == Row(r.source, e.state, [FromEvent(e)])
  {
    assert FromEvent(e) in [FromEvent(e)];
  }
}
