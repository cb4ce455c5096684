/** The event table is a last-writer-wins register, so delivery order does not matter. */
module LastWriter {
  import opened PtpTypes
  import opened Stats
  import opened Grandmaster
  import opened GrandmasterProofs

  /** The address of one detail of the table. */
  datatype Key = Key(cfg: string, source: Source, iface: Iface)

  function KeyOf(e: Event): Key {
    Key(e.cfg, e.source, e.iface)
  }

  function FindDetail(ds: seq<Detail>, iface: Iface): Option<Detail> {
    var k := IndexOfIface(ds, iface);
    if k < |ds| then Some(ds[k]) else None
  }

  function FindRow(rows: seq<Row>, s: Source): Option<Row> {
    var k := IndexOfSource(rows, s);
    if k < |rows| then Some(rows[k]) else None
  }

  function Find(rows: seq<Row>, s: Source, iface: Iface): Option<Detail> {
    var r := FindRow(rows, s);
    if r.Some? then FindDetail(r.value.details, iface) else None
  }

  function Lookup(t: Table, key: Key): Option<Detail> {
    Find(RowsOf(t, key.cfg), key.source, key.iface)
  }

  function Write(d: Option<Detail>, e: Event): Detail {
    if d.Some? then Refresh(d.value, e) else FromEvent(e)
  }

  // ---------------------------------------------------------------- one write

  lemma {:induction false} IfaceIndex(ds: seq<Detail>, iface: Iface, k: nat)
    requires k <= |ds|
    requires k < |ds| ==> ds[k].iface == iface
    requires forall j :: 0 <= j < k ==> ds[j].iface != iface
    ensures IndexOfIface(ds, iface) == k
  {}

  lemma {:induction false} FindRecorded(ds: seq<Detail>, e: Event, iface: Iface)
    ensures FindDetail(Record(ds, e), iface) ==
            if iface == e.iface then Some(Write(FindDetail(ds, iface), e)) else FindDetail(ds, iface)
  {
    var ds' := Record(ds, e);
    var k := IndexOfIface(ds, iface);
    assert forall j :: 0 <= j < |ds| ==> ds'[j].iface == ds[j].iface;
    if k < |ds| || iface == e.iface {
      IfaceIndex(ds', iface, k);
    } else {
      IfaceIndex(ds', iface, |ds'|);
    }
  }

  lemma {:induction false} FindRowAdded(rows: seq<Row>, e: Event, s: Source)
    ensures FindRow(AddToRows(rows, e), s) ==
            if s != e.source then FindRow(rows, s)
            else Some(Absorb(if FindRow(rows, s).Some? then FindRow(rows, s).value else Row(s, Unknown, []), e))
  {
    var rows' := AddToRows(rows, e);
    var k := IndexOfSource(rows, s);
    assert forall j :: 0 <= j < |rows| ==> rows'[j].source == rows[j].source;
    if k < |rows| || s == e.source {
      FirstIndex(rows', s, k);
    } else {
      FirstIndex(rows', s, |rows'|);
    }
  }

  lemma {:induction false} FindAdded(rows: seq<Row>, e: Event, s: Source, iface: Iface)
    ensures Find(AddToRows(rows, e), s, iface) ==
            if s == e.source && iface == e.iface then Some(Write(Find(rows, s, iface), e)) else Find(rows, s, iface)
  {
    FindRowAdded(rows, e, s);
    if s == e.source {
      FindRecorded(if FindRow(rows, s).Some? then FindRow(rows, s).value.details else [], e, iface);
    }
  }

  lemma {:induction false} LookupTurn(t: Table, e: Event, key: Key)
    requires Handled(e)
    ensures Lookup(TurnData(t, e), key) == if key == KeyOf(e) then Some(Write(Lookup(t, key), e)) else Lookup(t, key)
  {
    FindAdded(RowsOf(t, e.cfg), e, key.source, key.iface);
  }

  /** Subscribers are told of an event exactly when it makes its entry appear or change state. */
  lemma {:induction false} NotifiedIff(t: Table, e: Event)
    requires Handled(e)
    ensures Lookup(TurnData(t, e), KeyOf(e)).Some?
    ensures Notified(RowsOf(t, e.cfg), e) <==>
            Lookup(t, KeyOf(e)).None? ||
            Lookup(t, KeyOf(e)).value.state != Lookup(TurnData(t, e), KeyOf(e)).value.state
  {
    LookupTurn(t, e, KeyOf(e));
  }

  lemma {:induction false} FindRowCons(r: Row, rest: seq<Row>, s: Source)
    ensures FindRow([r] + rest, s) == if r.source == s then Some(r) else FindRow(rest, s)
  {
    assert ([r] + rest)[1..] == rest;
  }

  lemma {:induction false} FindWithout(rows: seq<Row>, gone: Source, s: Source)
    ensures FindRow(Without(rows, gone), s) == if s == gone then None else FindRow(rows, s)
  {
    if rows != [] {
      var rest := Without(rows[1..], gone);
      FindWithout(rows[1..], gone, s);
      FindRowCons(rows[0], rows[1..], s);
      assert [rows[0]] + rows[1..] == rows;
      if rows[0].source == gone { assert Without(rows, gone) == rest; } else { FindRowCons(rows[0], rest, s); }
    }
  }

  /** A reset that clears the entry: of its own process, or of ts2phc, which clears the whole config. */
  predicate Clears(e: Event, key: Key) {
    e.reset && e.cfg == key.cfg && (e.source == key.source || e.source == Ts2phc)
  }

  lemma {:induction false} LookupReset(t: Table, e: Event, key: Key)
    requires e.reset
    ensures Lookup(TurnData(t, e), key) == if Clears(e, key) then None else Lookup(t, key)
  {
    if e.source != Ts2phc && e.cfg in t && e.cfg == key.cfg { FindWithout(t[e.cfg], e.source, key.source); }
  }

  predicate Hits(e: Event, key: Key) {
    !e.reset && KeyOf(e) == key
  }

  /** The detail that an event leaves when it is the latest. */
  ghost predicate Holds(d: Option<Detail>, x: Option<Event>) {
    match x
    case None => d.None?
    case Some(e) =>
      && d.Some? && d.value.iface == e.iface && d.value.state == e.state && d.value.sourceLost == e.sourceLost
      && d.value.clockType == e.clockType && d.value.time == e.time && d.value.signal == NoSource
  }

  /** An entry that holds event `x`, after one more event. */
  lemma {:induction false} LookupStep(t: Table, e: Event, key: Key, x: Option<Event>)
    requires key.source != Synce && Holds(Lookup(t, key), x) && (x.Some? ==> KeyOf(x.value) == key)
    ensures Holds(Lookup(TurnData(t, e), key),
                  if Clears(e, key) then None
                  else if Hits(e, key) && (x.Some? ==> x.value.time <= e.time) then Some(e) else x)
  {
    if e.reset { LookupReset(t, e, key); } else if e.source != Synce { LookupTurn(t, e, key); }
  }

  // ---------------------------------------------------------------- whole runs

  ghost predicate ResetFree(es: seq<Event>) {
    forall i :: 0 <= i < |es| ==> !es[i].reset
  }

  /** Event j is for `key` and no later reset cleared the entry. */
  ghost predicate Alive(es: seq<Event>, key: Key, j: int)
    requires 0 <= j < |es|
  {
    Hits(es[j], key) && forall k :: j < k < |es| ==> !Clears(es[k], key)
  }

  /** Since the entry's last reset `es[i]` is the event with the greatest timestamp, the latest arrival on ties. */
  ghost predicate IsLatest(es: seq<Event>, key: Key, i: int) {
    && 0 <= i < |es|
    && Alive(es, key, i)
    && (forall j :: 0 <= j < i && Alive(es, key, j) ==> es[j].time <= es[i].time)
    && (forall j :: i < j < |es| && Alive(es, key, j) ==> es[j].time < es[i].time)
  }

  /** The latest event, or a negative number when there is none. */
  ghost predicate LatestOrNone(es: seq<Event>, key: Key, i: int) {
    if i >= 0 then IsLatest(es, key, i) else forall j :: 0 <= j < |es| ==> !Alive(es, key, j)
  }

  lemma {:induction false} AliveExtends(es: seq<Event>, key: Key, e: Event)
    ensures forall j :: 0 <= j < |es| ==> (Alive(es + [e], key, j) <==> Alive(es, key, j) && !Clears(e, key))
    ensures Alive(es + [e], key, |es|) <==> Hits(e, key)
  {
    forall j | 0 <= j < |es| ensures Alive(es + [e], key, j) <==> Alive(es, key, j) && !Clears(e, key) {
      assert (es + [e])[j] == es[j] && (es + [e])[|es|] == e;
      assert forall k :: j < k < |es| ==> (es + [e])[k] == es[k];
    }
  }

  /** How the latest event changes when one more arrives. */
  lemma {:induction false} LatestExtends(es: seq<Event>, key: Key, i: int, e: Event)
    requires LatestOrNone(es, key, i)
    ensures LatestOrNone(es + [e], key,
                         if Clears(e, key) then -1
                         else if Hits(e, key) && (i >= 0 ==> es[i].time <= e.time) then |es| else i)
  {
    AliveExtends(es, key, e);
  }

  /**
   * Over every run each entry holds, field by field, exactly the latest event for its key since its last reset, and
   * is absent when there is none.
   */
  lemma {:induction false} LatestWins(es: seq<Event>, key: Key) returns (i: int)
    requires key.source != Synce
    ensures LatestOrNone(es, key, i)
    ensures i >= 0 ==> KeyOf(es[i]) == key
    ensures Holds(Lookup(Run(es).data, key), if i >= 0 then Some(es[i]) else None)
  {
    if es == [] { return -1; }
    var n := |es| - 1;
    var before, e := es[..n], es[n];
    var k := LatestWins(before, key);
    var t := Run(before).data;
    assert Run(es).data == TurnData(t, e);
    i := if Clears(e, key) then -1 else if Hits(e, key) && (k >= 0 ==> before[k].time <= e.time) then n else k;
    LookupStep(t, e, key, if k >= 0 then Some(before[k]) else None);
    LatestExtends(before, key, k, e);
    assert es == before + [e];
  }

  // ---------------------------------------------------------------- delivery order

  /** No two events for one entry carry the same timestamp. */
  ghost predicate DistinctTimes(es: seq<Event>) {
    forall i, j :: 0 <= i < j < |es| && KeyOf(es[i]) == KeyOf(es[j]) ==> es[i].time != es[j].time
  }

  ghost predicate SameEvents(es: seq<Event>, es': seq<Event>) {
    multiset(es) == multiset(es')
  }

  lemma {:induction false} MemberOfBoth(es: seq<Event>, es': seq<Event>, e: Event)
    requires SameEvents(es, es') && e in es
    ensures e in es'
  {
    assert e in multiset(es);
  }

  lemma {:induction false} LatestCorresponds(es: seq<Event>, es': seq<Event>, key: Key, i: int, i': int)
    requires ResetFree(es') && SameEvents(es, es') && LatestOrNone(es, key, i) && LatestOrNone(es', key, i') && i >= 0
    ensures i' >= 0 && es[i].time <= es'[i'].time
  {
    MemberOfBoth(es, es', es[i]);
    var j' :| 0 <= j' < |es'| && es'[j'] == es[i];
    assert Alive(es', key, j');
  }

  lemma {:induction false} SameLatest(es: seq<Event>, es': seq<Event>, key: Key, i: int, i': int)
    requires ResetFree(es) && ResetFree(es') && SameEvents(es, es') && DistinctTimes(es) && LatestOrNone(es, key, i) && LatestOrNone(es', key, i')
    requires i >= 0
    ensures i' >= 0 && es[i] == es'[i']
  {
    LatestCorresponds(es, es', key, i, i');
    LatestCorresponds(es', es, key, i', i);
    MemberOfBoth(es', es, es'[i']);
    var j :| 0 <= j < |es| && es[j] == es'[i'];
    assert es[i].time == es[j].time && KeyOf(es[j]) == KeyOf(es[i]);
  }

  lemma {:induction false} SameLookup(es: seq<Event>, es': seq<Event>, key: Key)
    requires ResetFree(es) && ResetFree(es') && SameEvents(es, es') && DistinctTimes(es)
    requires key.source != Synce
    ensures Lookup(Run(es).data, key) == Lookup(Run(es').data, key)
  {
    var i := LatestWins(es, key);
    var i' := LatestWins(es', key);
    if i >= 0 {
      SameLatest(es, es', key, i, i');
    } else if i' >= 0 {
      LatestCorresponds(es', es, key, i', i);
    }
  }

  // ---------------------------------------------------------------- process states

  lemma {:induction false} StateFromDetails(ds: seq<Detail>, s: PtpState)
    requires UniqueIfaces(ds)
    ensures HasState(ds, s) <==> exists iface :: FindDetail(ds, iface).Some? && FindDetail(ds, iface).value.state == s
  {
    if HasState(ds, s) {
      var d :| d in ds && d.state == s;
      var k :| 0 <= k < |ds| && ds[k] == d;
      IfaceIndex(ds, d.iface, k);
      assert FindDetail(ds, d.iface) == Some(d);
    }
    if iface :| FindDetail(ds, iface).Some? && FindDetail(ds, iface).value.state == s {
      assert FindDetail(ds, iface).value in ds;
    }
  }

  lemma {:induction false} SameDetailsSameState(ds: seq<Detail>, ds': seq<Detail>)
    requires UniqueIfaces(ds) && UniqueIfaces(ds')
    requires forall iface :: FindDetail(ds, iface) == FindDetail(ds', iface)
    ensures WorstState(ds) == WorstState(ds')
  {
    forall s ensures HasState(ds, s) == HasState(ds', s) {
      StateFromDetails(ds, s);
      StateFromDetails(ds', s);
    }
  }

  lemma {:induction false} RowPresent(rows: seq<Row>, s: Source)
    requires RowsOk(rows) && FindRow(rows, s).Some?
    ensures RowOk(FindRow(rows, s).value)
    ensures exists iface :: Find(rows, s, iface).Some?
  {
    var k := IndexOfSource(rows, s);
    assert RowOk(rows[k]);
    assert Find(rows, s, rows[k].details[0].iface).Some?;
  }

  lemma {:induction false} SameFindSameState(rows: seq<Row>, rows': seq<Row>, s: Source, absent: PtpState)
    requires RowsOk(rows) && RowsOk(rows')
    requires forall iface :: Find(rows, s, iface) == Find(rows', s, iface)
    ensures StateOf(rows, s, absent) == StateOf(rows', s, absent)
  {
    StateOfRow(rows, s, absent);
    StateOfRow(rows', s, absent);
    if FindRow(rows, s).Some? { RowPresent(rows, s); }
    if FindRow(rows', s).Some? { RowPresent(rows', s); }
    if FindRow(rows, s).Some? && FindRow(rows', s).Some? {
      var ds, ds' := FindRow(rows, s).value.details, FindRow(rows', s).value.details;
      assert forall iface {:trigger FindDetail(ds, iface)} :: Find(rows, s, iface) == FindDetail(ds, iface);
      assert forall iface {:trigger FindDetail(ds', iface)} :: Find(rows', s, iface) == FindDetail(ds', iface);
      SameDetailsSameState(ds, ds');
    }
  }

  /** Whatever the delivery order, the same events with distinct timestamps give every process the same state. */
  lemma {:induction false} DeliveryOrderIrrelevant(es: seq<Event>, es': seq<Event>, cfg: string, s: Source, absent: PtpState)
    requires ResetFree(es) && ResetFree(es') && SameEvents(es, es') && DistinctTimes(es)
    requires s != Synce
    ensures StateOf(RowsOf(Run(es).data, cfg), s, absent) == StateOf(RowsOf(Run(es').data, cfg), s, absent)
  {
    var rows, rows' := RowsOf(Run(es).data, cfg), RowsOf(Run(es').data, cfg);
    ReachableTable(es);
    ReachableTable(es');
    forall iface ensures Find(rows, s, iface) == Find(rows', s, iface) {
      SameLookup(es, es', Key(cfg, s, iface));
    }
    SameFindSameState(rows, rows', s, absent);
  }
}
