/** What the handler's table, flags and records say in terms of the events of the run. */
module GrandmasterHistory {
  import opened PtpTypes
  import opened Stats
  import opened Grandmaster
  import opened GrandmasterProofs
  import opened GrandmasterRuns
  import opened LastWriter

  // ---------------------------------------------------------------- process states

  /** Some interface of the process has `st` in its latest event. */
  ghost predicate LatestIn(es: seq<Event>, cfg: string, s: Source, st: PtpState) {
    exists i :: 0 <= i < |es| && es[i].cfg == cfg && es[i].source == s && es[i].state == st && IsLatest(es, KeyOf(es[i]), i)
  }

  /** The state of a process from the latest events of its interfaces. */
  ghost function ProcessState(es: seq<Event>, cfg: string, s: Source, absent: PtpState): PtpState {
    if LatestIn(es, cfg, s, Holdover) then Holdover
    else if LatestIn(es, cfg, s, Freerun) then Freerun
    else if LatestIn(es, cfg, s, Locked) then Locked
    else absent
  }

  lemma {:induction false} LatestIsUnique(es: seq<Event>, key: Key, i: int, j: int)
    requires IsLatest(es, key, i) && IsLatest(es, key, j)
    ensures i == j
  {}

  lemma {:induction false} DetailsFromEvents(es: seq<Event>, cfg: string, s: Source, st: PtpState)
    requires s != Synce
    ensures var r := FindRow(RowsOf(Run(es).data, cfg), s);
            (r.Some? && HasState(r.value.details, st)) <==> LatestIn(es, cfg, s, st)
  {
    var rows := RowsOf(Run(es).data, cfg);
    var r := FindRow(rows, s);
    ReachableTable(es);
    if r.Some? {
      assert UniqueIfaces(r.value.details) by { assert RowOk(rows[IndexOfSource(rows, s)]); }
      StateFromDetails(r.value.details, st);
    }
    if r.Some? && HasState(r.value.details, st) {
      var iface :| FindDetail(r.value.details, iface).Some? && FindDetail(r.value.details, iface).value.state == st;
      var i := LatestWins(es, Key(cfg, s, iface));
      assert KeyOf(es[i]) == Key(cfg, s, iface);
    }
    if LatestIn(es, cfg, s, st) {
      var i :| 0 <= i < |es| && es[i].cfg == cfg && es[i].source == s && es[i].state == st && IsLatest(es, KeyOf(es[i]), i);
      var j := LatestWins(es, KeyOf(es[i]));
      if j >= 0 { LatestIsUnique(es, KeyOf(es[i]), i, j); }
      assert FindDetail(r.value.details, es[i].iface).value.state == st;
    }
  }

  /** Over every produced run the state of a process is that of the latest events of its interfaces. */
  lemma {:induction false} ProcessStateIs(es: seq<Event>, cfg: string, s: Source, absent: PtpState)
    requires Produced(es) && s in {Gnss, Dpll, Ts2phc}
    ensures StateOf(RowsOf(Run(es).data, cfg), s, absent) == ProcessState(es, cfg, s, absent)
  {
    var rows := RowsOf(Run(es).data, cfg);
    ReachableRecords(es);
    DetailsFromEvents(es, cfg, s, Holdover);
    DetailsFromEvents(es, cfg, s, Freerun);
    DetailsFromEvents(es, cfg, s, Locked);
    StateOfRow(rows, s, absent);
    ReportedState(rows, s, absent);
    if HasSource(rows, s) { assert RowOk(rows[IndexOfSource(rows, s)]); }
  }

  // ---------------------------------------------------------------- the GNSS source

  /** A reset that removes the GNSS row of the config. */
  predicate DropsGnss(e: Event, cfg: string) {
    e.reset && e.cfg == cfg && (e.source == Gnss || e.source == Ts2phc)
  }

  /** Event j is a GNSS event of the config that no later reset wiped out. */
  ghost predicate GnssAlive(es: seq<Event>, cfg: string, j: int)
    requires 0 <= j < |es|
  {
    !es[j].reset && es[j].cfg == cfg && es[j].source == Gnss && forall k :: j < k < |es| ==> !DropsGnss(es[k], cfg)
  }

  /** The first such event, or a negative number when there is none. */
  ghost predicate FirstGnssEvent(es: seq<Event>, cfg: string, f: int) {
    && f < |es| && (f >= 0 ==> GnssAlive(es, cfg, f))
    && forall j :: 0 <= j < |es| && (f < 0 || j < f) ==> !GnssAlive(es, cfg, j)
  }

  lemma {:induction false} GnssAliveExtends(es: seq<Event>, cfg: string, e: Event)
    ensures forall j :: 0 <= j < |es| ==> (GnssAlive(es + [e], cfg, j) <==> GnssAlive(es, cfg, j) && !DropsGnss(e, cfg))
    ensures GnssAlive(es + [e], cfg, |es|) <==> !e.reset && e.cfg == cfg && e.source == Gnss
  {
    forall j | 0 <= j < |es| ensures GnssAlive(es + [e], cfg, j) <==> GnssAlive(es, cfg, j) && !DropsGnss(e, cfg) {
      assert (es + [e])[j] == es[j] && (es + [e])[|es|] == e;
      assert forall k :: j < k < |es| ==> (es + [e])[k] == es[k];
    }
  }

  /** How the first GNSS event changes when one more arrives. */
  lemma {:induction false} FirstExtends(es: seq<Event>, cfg: string, f: int, e: Event)
    requires FirstGnssEvent(es, cfg, f)
    ensures FirstGnssEvent(es + [e], cfg,
                           if DropsGnss(e, cfg) then -1
                           else if f < 0 && !e.reset && e.cfg == cfg && e.source == Gnss then |es| else f)
  {
    GnssAliveExtends(es, cfg, e);
  }

  /** The GNSS row's first interface is `iface`; without an interface there is no GNSS row. */
  ghost predicate GnssFirst(rows: seq<Row>, iface: Option<Iface>) {
    var r := FindRow(rows, Gnss);
    if iface.Some? then r.Some? && r.value.details != [] && r.value.details[0].iface == iface.value else r.None?
  }

  lemma {:induction false} GnssFirstStep(t: Table, e: Event, cfg: string, iface: Option<Iface>)
    requires GnssFirst(RowsOf(t, cfg), iface)
    ensures GnssFirst(RowsOf(TurnData(t, e), cfg),
                      if DropsGnss(e, cfg) then None
                      else if iface.None? && !e.reset && e.cfg == cfg && e.source == Gnss then Some(e.iface) else iface)
  {
    var rows := RowsOf(t, cfg);
    if e.cfg == cfg {
      if e.reset {
        FindWithout(rows, e.source, Gnss);
      } else if e.source != Synce {
        FindRowAdded(rows, e, Gnss);
      }
    }
  }

  /** Over every run the GNSS interface is that of the first GNSS event since the config's last such reset. */
  lemma {:induction false} FirstInterface(es: seq<Event>, cfg: string) returns (f: int)
    ensures FirstGnssEvent(es, cfg, f)
    ensures GnssFirst(RowsOf(Run(es).data, cfg), if f >= 0 then Some(es[f].iface) else None)
  {
    if es == [] { return -1; }
    var n := |es| - 1;
    var before, e := es[..n], es[n];
    var k := FirstInterface(before, cfg);
    f := if DropsGnss(e, cfg) then -1 else if k < 0 && !e.reset && e.cfg == cfg && e.source == Gnss then n else k;
    GnssFirstStep(Run(before).data, e, cfg, if k >= 0 then Some(before[k].iface) else None);
    FirstExtends(before, cfg, k, e);
    assert es == before + [e];
  }

  /** Over every run the source-lost flag is that of the latest event on that interface. */
  lemma {:induction false} SourceLostIs(es: seq<Event>, cfg: string) returns (f: int, i: int)
    ensures FirstGnssEvent(es, cfg, f)
    ensures f < 0 ==> GnssInterface(RowsOf(Run(es).data, cfg)) == Unidentified && !SourceLost(RowsOf(Run(es).data, cfg))
    ensures f >= 0 ==>
              && IsLatest(es, Key(cfg, Gnss, es[f].iface), i)
              && GnssInterface(RowsOf(Run(es).data, cfg)) == es[f].iface
              && SourceLost(RowsOf(Run(es).data, cfg)) == es[i].sourceLost
  {
    f := FirstInterface(es, cfg);
    i := -1;
    var rows := RowsOf(Run(es).data, cfg);
    ReachableTable(es);
    GnssRowDecides(rows);
    if f >= 0 {
      i := LatestWins(es, Key(cfg, Gnss, es[f].iface));
      var ds := FindRow(rows, Gnss).value.details;
      IfaceIndex(ds, es[f].iface, 0);
      assert Lookup(Run(es).data, Key(cfg, Gnss, es[f].iface)) == Some(ds[0]);
    }
  }

  // ---------------------------------------------------------------- the spec flags

  /** Event j is a DPLL event after which no DPLL event came and no process but ts2phc was reset, of whatever config. */
  ghost predicate LastDpllEvent(es: seq<Event>, j: int) {
    && 0 <= j < |es| && !es[j].reset && es[j].source == Dpll
    && forall k :: j < k < |es| ==> if es[k].reset then es[k].source == Ts2phc else es[k].source != Dpll
  }

  /** The flags are those of that event, and false when there is none. */
  lemma {:induction false} FlagsAre(es: seq<Event>) returns (j: int)
    ensures if j >= 0 then LastDpllEvent(es, j) else forall k :: 0 <= k < |es| ==> !LastDpllEvent(es, k)
    ensures Run(es).outOfSpec == (j >= 0 && es[j].outOfSpec)
    ensures Run(es).frequencyTraceable == (j >= 0 && es[j].frequencyTraceable)
  {
    if es == [] { return -1; }
    var n := |es| - 1;
    var before, e := es[..n], es[n];
    var k := FlagsAre(before);
    assert forall m :: 0 <= m < n ==> before[m] == es[m];
    forall m | 0 <= m < n
      ensures LastDpllEvent(es, m) <==> LastDpllEvent(before, m) && if e.reset then e.source == Ts2phc else e.source != Dpll
    {}
    j := if e.reset then (if e.source == Ts2phc then k else -1) else if e.source == Dpll then n else k;
  }

  // ---------------------------------------------------------------- the stored record

  /** The record before the turn, or the one a first turn starts from. */
  function Previous(h: Handler, cfg: string): GmRecord {
    if cfg in h.gm then h.gm[cfg] else GmRecord(Freerun, 0, 0xFE, false, Unidentified)
  }

  predicate SameVerdict(g: GmRecord, g': GmRecord) {
    g.state == g'.state && g.clockClass == g'.clockClass && g.accuracy == g'.accuracy
  }

  /** A row of the table taken literally, with the accuracy that goes with each state. */
  predicate Obeys(v: Verdict, before: GmRecord, after: GmRecord) {
    match v
    case Stay => SameVerdict(before, after)
    case Becomes(state, clockClass) =>
      && after.state == state && after.clockClass == clockClass
      && after.accuracy == (match state case Locked => 0x21 case Holdover => before.accuracy case _ => 0xFE)
  }

  lemma {:induction false} ObeysIff(g: GmRecord, dpll: PtpState, gnss: PtpState, ts2phc: PtpState, lost: bool,
                                    outOfSpec: bool, frequencyTraceable: bool)
    requires GmOk(g) && dpll in {Freerun, Holdover, Locked, NotSet}
    requires gnss in {Freerun, Locked} && ts2phc in {Freerun, Holdover, Locked}
    ensures var row := DocumentedRow(dpll, gnss, ts2phc, lost, outOfSpec);
            var after := Decide(g, dpll, gnss, ts2phc, lost, outOfSpec && frequencyTraceable);
            && (row.Some? ==>
                  (Obeys(row.value, g, after) <==>
                     && (dpll == NotSet && gnss == Freerun && lost ==> g.state == Freerun && g.clockClass == 248)
                     && (dpll == Freerun && outOfSpec ==> frequencyTraceable)))
            && (row.None? ==> Obeys(if gnss == Locked || lost then Becomes(Holdover, 7) else Stay, g, after))
  {}

  /** What the record stored for a config must be, given the facts of the run that the table speaks of. */
  ghost predicate FollowsEvents(es: seq<Event>, cfg: string, lost: bool, outOfSpec: bool, frequencyTraceable: bool,
                                before: GmRecord, after: GmRecord) {
    var dpll, gnss := ProcessState(es, cfg, Dpll, NotSet), ProcessState(es, cfg, Gnss, Freerun);
    var ts2phc := ProcessState(es, cfg, Ts2phc, Freerun);
    var row := DocumentedRow(dpll, gnss, ts2phc, lost, outOfSpec);
    && (row.Some? ==>
          (Obeys(row.value, before, after) <==>
             && (dpll == NotSet && gnss == Freerun && lost ==> before.state == Freerun && before.clockClass == 248)
             && (dpll == Freerun && outOfSpec ==> frequencyTraceable)))
    && (row.None? ==> Obeys(if gnss == Locked || lost then Becomes(Holdover, 7) else Stay, before, after))
  }

  lemma {:induction false} DecidesFromEvents(es: seq<Event>, cfg: string, g: GmRecord, lost: bool, out: bool, traceable: bool)
    requires Produced(es) && GmOk(g)
    ensures var rows := RowsOf(Run(es).data, cfg);
            FollowsEvents(es, cfg, lost, out, traceable, g,
                          Decide(g, StateOf(rows, Dpll, NotSet), StateOf(rows, Gnss, Freerun), StateOf(rows, Ts2phc, Freerun),
                                 lost, out && traceable))
  {
    ProcessStateIs(es, cfg, Dpll, NotSet);
    ProcessStateIs(es, cfg, Gnss, Freerun);
    ProcessStateIs(es, cfg, Ts2phc, Freerun);
    ReachableRecords(es);
    DecisionInputs(Run(es).data, cfg);
    var rows := RowsOf(Run(es).data, cfg);
    ObeysIff(g, StateOf(rows, Dpll, NotSet), StateOf(rows, Gnss, Freerun), StateOf(rows, Ts2phc, Freerun), lost, out, traceable);
  }

  /** Only state, class and accuracy of the two records matter. */
  lemma {:induction false} SameForVerdicts(es: seq<Event>, cfg: string, lost: bool, out: bool, traceable: bool,
                                           before: GmRecord, after: GmRecord, before': GmRecord, after': GmRecord)
    requires FollowsEvents(es, cfg, lost, out, traceable, before, after)
    requires SameVerdict(before, before') && SameVerdict(after, after')
    ensures FollowsEvents(es, cfg, lost, out, traceable, before', after')
  {}

  /** The record a turn's decision starts from. */
  function StartOf(h: Handler, cfg: string, rows: seq<Row>): GmRecord {
    Starting(rows, if cfg in h.gm then Some(h.gm[cfg]) else None)
  }

  lemma {:induction false} StartIsPrevious(h: Handler, cfg: string, rows: seq<Row>)
    requires RecordsOk(h.gm)
    ensures GmOk(StartOf(h, cfg, rows)) && SameVerdict(StartOf(h, cfg, rows), Previous(h, cfg))
  {}

  lemma {:induction false} DecideKeepsIface(g: GmRecord, dpll: PtpState, gnss: PtpState, ts2phc: PtpState, lost: bool, traceable: bool)
    ensures Decide(g, dpll, gnss, ts2phc, lost, traceable).iface == g.iface
  {}

  lemma {:induction false} NewRecordIs(t: Table, gm: map<string, GmRecord>, traceable: bool, cfg: string)
    requires cfg in t && GnssInterface(RowsOf(t, cfg)) != Unidentified
    ensures var rows := RowsOf(t, cfg);
            NewRecord(t, gm, traceable, cfg) ==
            Some(Decide(Starting(rows, if cfg in gm then Some(gm[cfg]) else None), StateOf(rows, Dpll, NotSet),
                        StateOf(rows, Gnss, Freerun), StateOf(rows, Ts2phc, Freerun), SourceLost(rows), traceable))
  {}

  /** What a turn stores and hands to the loop, given the rows it leaves. */
  lemma {:induction false} TurnStores(h: Handler, e: Event)
    requires Handled(e) && GnssInterface(RowsOf(Turn(h, e).data, e.cfg)) != Unidentified
    ensures var h' := Turn(h, e); var rows := RowsOf(h'.data, e.cfg);
            var after := Decide(StartOf(h, e.cfg, rows), StateOf(rows, Dpll, NotSet), StateOf(rows, Gnss, Freerun),
                                StateOf(rows, Ts2phc, Freerun), SourceLost(rows), h'.outOfSpec && h'.frequencyTraceable);
            && Announced(h, e) == after && e.cfg in h'.gm && h'.gm[e.cfg] == after.(sourceLost := e.outOfSpec)
            && after.iface == GnssInterface(rows)
  {
    var t, traceable := TurnData(h.data, e), Traceable(h, e);
    assert e.cfg in t;
    NewRecordIs(t, h.gm, traceable, e.cfg);
    var rows := RowsOf(t, e.cfg);
    DecideKeepsIface(StartOf(h, e.cfg, rows), StateOf(rows, Dpll, NotSet), StateOf(rows, Gnss, Freerun),
                     StateOf(rows, Ts2phc, Freerun), SourceLost(rows), traceable);
    assert Turn(h, e).data == t && (Turn(h, e).outOfSpec && Turn(h, e).frequencyTraceable) == traceable;
  }

  /** The last turn of a run, told by the facts the handler reads off its own state. */
  lemma {:induction false} LastTurn(es: seq<Event>, cfg: string)
    requires Produced(es) && es != [] && Handled(es[|es| - 1]) && es[|es| - 1].cfg == cfg
    requires GnssInterface(RowsOf(Run(es).data, cfg)) != Unidentified
    ensures var h, e, h', rows := Run(es[..|es| - 1]), es[|es| - 1], Run(es), RowsOf(Run(es).data, cfg);
            && cfg in h'.gm && SameVerdict(h'.gm[cfg], Announced(h, e))
            && h'.gm[cfg].iface == GnssInterface(rows) && h'.gm[cfg].sourceLost == e.outOfSpec
            && FollowsEvents(es, cfg, SourceLost(rows), h'.outOfSpec, h'.frequencyTraceable, Previous(h, cfg), h'.gm[cfg])
  {
    var h, e, h', rows := Run(es[..|es| - 1]), es[|es| - 1], Run(es), RowsOf(Run(es).data, cfg);
    var start := StartOf(h, cfg, rows);
    assert GmOk(start) && SameVerdict(start, Previous(h, cfg)) by {
      ReachableRecords(es[..|es| - 1]);
      StartIsPrevious(h, cfg, rows);
    }
    TurnStores(h, e);
    assert FollowsEvents(es, cfg, SourceLost(rows), h'.outOfSpec, h'.frequencyTraceable, start, Announced(h, e)) by {
      DecidesFromEvents(es, cfg, start, SourceLost(rows), h'.outOfSpec, h'.frequencyTraceable);
    }
    SameForVerdicts(es, cfg, SourceLost(rows), h'.outOfSpec, h'.frequencyTraceable, start, Announced(h, e),
                    Previous(h, cfg), h'.gm[cfg]);
  }

  /**
   * Over every produced run: the turn of a handled event stores a record that obeys the documented row, evaluated on
   * the latest events of each process, the source-lost flag of the latest event on the first GNSS interface and the
   * flags of the last DPLL event, if and only if neither of the two exceptions applies; the loop is handed the same one.
   */
  lemma {:induction false} RecordFollowsEvents(es: seq<Event>, cfg: string) returns (f: int, i: int, j: int)
    requires Produced(es) && es != [] && Handled(es[|es| - 1]) && es[|es| - 1].cfg == cfg
    requires GnssInterface(RowsOf(Run(es).data, cfg)) != Unidentified
    ensures FirstGnssEvent(es, cfg, f) && f >= 0 && IsLatest(es, Key(cfg, Gnss, es[f].iface), i)
    ensures if j >= 0 then LastDpllEvent(es, j) else forall k :: 0 <= k < |es| ==> !LastDpllEvent(es, k)
    ensures var h, e := Run(es[..|es| - 1]), es[|es| - 1];
            && cfg in Run(es).gm && SameVerdict(Run(es).gm[cfg], Announced(h, e))
            && Run(es).gm[cfg].iface == es[f].iface && Run(es).gm[cfg].sourceLost == e.outOfSpec
            && FollowsEvents(es, cfg, es[i].sourceLost, j >= 0 && es[j].outOfSpec, j >= 0 && es[j].frequencyTraceable,
                             Previous(h, cfg), Run(es).gm[cfg])
  {
    LastTurn(es, cfg);
    f, i := SourceLostIs(es, cfg);
    j := FlagsAre(es);
  }

  // ---------------------------------------------------------------- what is asked for

  /**
   * A turn asks for a clock class exactly when it handled an event, announces a class other than 0, and either that
   * class differs from the handler's, or it is 7 or 140 and a DPLL event measured an accuracy that differs.
   */
  lemma {:induction false} IssuedIff(h: Handler, e: Event)
    ensures var a := Announced(h, e);
            var measured := (a.clockClass == 7 || a.clockClass == 140) && e.source == Dpll && e.accuracy.Some?;
            && (Issued(h, e).Some? <==>
                  && !e.reset && e.source != Synce && a.clockClass != 0
                  && (a.clockClass != h.clockClass || (measured && e.accuracy.value != h.clockAccuracy)))
            && (Issued(h, e).Some? ==>
                  var r := Issued(h, e).value;
                  && r.cfg == e.cfg && r.gmState == a.state && r.clockType == e.clockType && r.clockClass == a.clockClass
                  && r.accuracy == if measured then e.accuracy.value else h.clockAccuracy)
  {}

  /** A ts2phc reset clears the handler's class, so the next class announced is asked for again, whatever it is. */
  lemma {:induction false} ResetAsksAgain(h: Handler, reset: Event, e: Event)
    requires reset.reset && reset.source == Ts2phc && !e.reset && e.source != Synce
    requires Announced(Turn(h, reset), e).clockClass != 0
    ensures Issued(Turn(h, reset), e).Some?
    ensures Issued(Turn(h, reset), e).value.clockClass == Announced(Turn(h, reset), e).clockClass
  {
    IssuedIff(Turn(h, reset), e);
  }

  /** No other turn touches the class and accuracy the handler mirrors. */
  lemma {:induction false} MirrorKept(h: Handler, e: Event)
    ensures var h' := Turn(h, e);
            if e.reset && e.source == Ts2phc then h'.clockClass == 0 && h'.clockAccuracy == 0xFE
            else h'.clockClass == h.clockClass && h'.clockAccuracy == h.clockAccuracy
  {}

  /** While no GNSS interface is known nothing is asked for and no verdict changes. */
  lemma {:induction false} SilentWithoutInterface(h: Handler, e: Event)
    requires !e.reset && e.source != Synce && GnssInterface(RowsOf(Turn(h, e).data, e.cfg)) == Unidentified
    ensures Issued(h, e).None? && Turn(h, e).gm.Keys == h.gm.Keys
    ensures forall cfg :: cfg in h.gm ==> SameVerdict(Turn(h, e).gm[cfg], h.gm[cfg])
  {}

  /** A handler starts with nothing known. */
  lemma {:induction false} StartsEmpty()
    ensures var h := Run([]);
            && h.data == map[] && h.gm == map[] && !h.outOfSpec && !h.frequencyTraceable && h.clockClass == 0 && h.clockAccuracy == 0
  {}
}
