/** Clock class requests: from the event loop over a one-slot channel to the PMC store (pkg/event/event.go). */
module ClassRequests {
  import opened PtpTypes
  import opened Grandmaster
  import opened Settings

  const SOURCE_GNSS := 0x20
  const SOURCE_OSCILLATOR := 0xa0
  const VARIANCE_LOCKED := 0x4e5d
  const VARIANCE_UNLOCKED := 0xffff

  // ---------------------------------------------------------------- one get-modify-set

  predicate Known(clockClass: int) {
    clockClass in {CLASS_LOCKED, CLASS_HOLDOVER, CLASS_OUT_OF_SPEC, CLASS_FREERUN}
  }

  /** updateCLockClass sends a record only to change the class. */
  predicate Writes(g: Settings, r: Request) {
    r.clockType == GM && Known(r.clockClass) && g.clockClass != r.clockClass
  }

  function AccuracyFor(r: Request): int {
    if r.clockClass == CLASS_LOCKED then ACCURACY_100NS
    else if r.clockClass == CLASS_FREERUN then ACCURACY_UNKNOWN
    else r.accuracy
  }

  /** The record it sends. */
  function Written(g: Settings, r: Request, utcOffset: int): Settings {
    var locked := r.clockClass == CLASS_LOCKED;
    g.(ptpTimescale := true, frequencyTraceable := true, utcOffsetValid := true, utcOffset := utcOffset,
       clockClass := r.clockClass, clockAccuracy := AccuracyFor(r),
       timeTraceable := r.clockClass in {CLASS_LOCKED, CLASS_HOLDOVER},
       timeSource := if locked then SOURCE_GNSS else SOURCE_OSCILLATOR,
       logVariance := if locked then VARIANCE_LOCKED else VARIANCE_UNLOCKED)
  }

  /** updateCLockClass on a record the getter returned: what to send, if anything, and what to report. */
  method UpdateClockClass(stored: Settings, r: Request, utcOffset: int) returns (send: Option<Settings>, clockClass: int, accuracy: int)
    ensures send == if Writes(stored, r) then Some(Written(stored, r, utcOffset)) else None
    ensures clockClass == if Writes(stored, r) then r.clockClass else stored.clockClass
    ensures accuracy == if Writes(stored, r) then AccuracyFor(r) else stored.clockAccuracy
  {
    var g := stored;
    send := None;
    if r.clockType == GM {
      g := g.(ptpTimescale := true, frequencyTraceable := true, utcOffsetValid := true, utcOffset := utcOffset);
      if r.clockClass == CLASS_LOCKED {
        if g.clockClass != CLASS_LOCKED {
          g := g.(clockClass := CLASS_LOCKED, timeTraceable := true, clockAccuracy := ACCURACY_100NS,
                  timeSource := SOURCE_GNSS, logVariance := VARIANCE_LOCKED);
          send := Some(g);
        }
      } else if r.clockClass == CLASS_OUT_OF_SPEC {
        if g.clockClass != CLASS_OUT_OF_SPEC {
          g := g.(clockClass := CLASS_OUT_OF_SPEC, timeTraceable := false, clockAccuracy := r.accuracy,
                  timeSource := SOURCE_OSCILLATOR, logVariance := VARIANCE_UNLOCKED);
          send := Some(g);
        }
      } else if r.clockClass == CLASS_HOLDOVER {
        if g.clockClass != CLASS_HOLDOVER {
          g := g.(clockClass := CLASS_HOLDOVER, timeTraceable := true, clockAccuracy := r.accuracy,
                  timeSource := SOURCE_OSCILLATOR, logVariance := VARIANCE_UNLOCKED);
          send := Some(g);
        }
      } else if r.clockClass == CLASS_FREERUN {
        if g.clockClass != CLASS_FREERUN {
          g := g.(clockClass := CLASS_FREERUN, timeTraceable := false, clockAccuracy := ACCURACY_UNKNOWN,
                  timeSource := SOURCE_OSCILLATOR, logVariance := VARIANCE_UNLOCKED);
          send := Some(g);
        }
      }
    }
    clockClass, accuracy := g.clockClass, g.clockAccuracy;
  }

  // ---------------------------------------------------------------- the protocol

  /**
   * Handler, spawned senders that have not run yet, the channel slot, the request the worker holds,
   * and the PMC record of each config.
   */
  datatype System = System(
    handler: Handler,
    inFlight: seq<Request>,
    slot: Option<Request>,
    held: Option<Request>,
    stores: map<string, Settings>)

  /**
   * What the getter gives: an error, the stored record, or, when every try timed out, a record of zeros with no error,
   * because the error of the last try is shadowed (pkg/pmc/pmc.go:85-102).
   */
  datatype Answer = Failed | TimedOut | Stored

  function Answered(s: System, cfg: string, answer: Answer): Option<Settings> {
    match answer
    case Failed => None
    case TimedOut => Some(ZERO)
    case Stored => if cfg in s.stores then Some(s.stores[cfg]) else None
  }

  datatype Step =
    | Handle(event: Event)
    // A spawned sender runs its select: into the slot, or dropped when the slot is full.
    | Send(index: nat)
    | Receive
    // The worker's get-modify-set. A setter may fail before or after the record took effect.
    | Work(answer: Answer, setOk: bool, applied: bool, utcOffset: int)
    // The leap manager announces a leap second on the record it was given.
    | Announce(cfg: string, timedOut: bool, positive: bool)

  predicate Enabled(s: System, st: Step) {
    match st
    case Handle(_) => true
    case Send(i) => i < |s.inFlight|
    case Receive => s.held.None? && s.slot.Some?
    case Work(_, setOk, applied, _) => s.held.Some? && (setOk ==> applied) && (applied ==> s.held.value.cfg in s.stores)
    case Announce(cfg, _, _) => cfg in s.stores
  }

  function WorkOn(s: System, r: Request, g: Settings, setOk: bool, applied: bool, utcOffset: int): System {
    var done := s.(held := None);
    if !Writes(g, r) then done.(handler := s.handler.(clockClass := g.clockClass, clockAccuracy := g.clockAccuracy))
    else
      var g' := Written(g, r, utcOffset);
      done.(stores := if applied then s.stores[r.cfg := g'] else s.stores,
            handler := if setOk then s.handler.(clockClass := g'.clockClass, clockAccuracy := g'.clockAccuracy)
                       else s.handler)
  }

  function Next(s: System, st: Step): System
    requires Enabled(s, st)
  {
    match st
    case Handle(e) =>
      s.(handler := Turn(s.handler, e), inFlight := s.inFlight + Spawned(s.handler, e))
    case Send(i) =>
      s.(inFlight := s.inFlight[..i] + s.inFlight[i + 1..],
         slot := if s.slot.Some? then s.slot else Some(s.inFlight[i]))
    case Receive =>
      s.(held := s.slot, slot := None)
    case Work(answer, setOk, applied, utcOffset) =>
      var g := Answered(s, s.held.value.cfg, answer);
      if g.Some? then WorkOn(s, s.held.value, g.value, setOk, applied, utcOffset) else s.(held := None)
    case Announce(cfg, timedOut, positive) =>
      s.(stores := s.stores[cfg := WithLeap(if timedOut then ZERO else s.stores[cfg], positive)])
  }

  function Spawned(h: Handler, e: Event): seq<Request> {
    match Issued(h, e)
    case Some(r) => [r]
    case None => []
  }

  ghost predicate Runs(s: System, steps: seq<Step>)
    decreases steps
  {
    steps == [] || (Enabled(s, steps[0]) && Runs(Next(s, steps[0]), steps[1..]))
  }

  ghost function After(s: System, steps: seq<Step>): System
    requires Runs(s, steps)
    decreases steps
  {
    if steps == [] then s else After(Next(s, steps[0]), steps[1..])
  }

  // ---------------------------------------------------------------- records fixed by their class

  /** Section 6.3.5 of ITU-T G.8275.1, as the handler applies it. */
  predicate FixedByClass(g: Settings) {
    && Known(g.clockClass)
    && (g.timeTraceable <==> g.clockClass in {CLASS_LOCKED, CLASS_HOLDOVER})
    && g.timeSource == (if g.clockClass == CLASS_LOCKED then SOURCE_GNSS else SOURCE_OSCILLATOR)
    && g.logVariance == (if g.clockClass == CLASS_LOCKED then VARIANCE_LOCKED else VARIANCE_UNLOCKED)
  }

  ghost predicate SameButLeap(g: Settings, g': Settings) {
    g' == g.(leap59 := g'.leap59, leap61 := g'.leap61)
  }

  ghost predicate SameLeap(g: Settings, g': Settings) {
    g'.leap59 == g.leap59 && g'.leap61 == g.leap61
  }

  /** The step sends a class record for `cfg` and it takes effect. */
  predicate Commits(s: System, st: Step, cfg: string)
    requires Enabled(s, st)
  {
    && st.Work? && st.applied && s.held.value.cfg == cfg
    && var g := Answered(s, cfg, st.answer); g.Some? && Writes(g.value, s.held.value)
  }

  /** The step announces a leap second for `cfg` on a record of zeros. */
  predicate Spoils(st: Step, cfg: string) {
    st.Announce? && st.timedOut && st.cfg == cfg
  }

  /**
   * A class write keeps the leap flags exactly unless it was made on zeros and a flag was set; an announcement keeps
   * all else exactly unless it was made on zeros and something else was not zero; no other step touches a record.
   */
  lemma {:induction false} StepFrames(s: System, st: Step, cfg: string)
    requires Enabled(s, st) && cfg in s.stores
    ensures cfg in Next(s, st).stores
    ensures st.Announce? ==>
              (SameButLeap(s.stores[cfg], Next(s, st).stores[cfg]) <==> !Spoils(st, cfg) || SameButLeap(s.stores[cfg], ZERO))
    ensures Commits(s, st, cfg) ==>
              (SameLeap(s.stores[cfg], Next(s, st).stores[cfg]) <==> st.answer == Stored || SameLeap(s.stores[cfg], ZERO))
    ensures !st.Announce? && !Commits(s, st, cfg) ==> Next(s, st).stores[cfg] == s.stores[cfg]
  {}

  /** A class record that takes effect fixes the record, an announcement on zeros spoils it, nothing else matters. */
  lemma {:induction false} CommitFixes(s: System, st: Step, cfg: string)
    requires Enabled(s, st) && cfg in s.stores
    ensures cfg in Next(s, st).stores
    ensures FixedByClass(Next(s, st).stores[cfg]) <==>
            Commits(s, st, cfg) || (FixedByClass(s.stores[cfg]) && !Spoils(st, cfg))
  {}

  /** The record is fixed by its class at every moment of the run. */
  ghost predicate AlwaysFixed(s: System, steps: seq<Step>, cfg: string)
    requires Runs(s, steps)
    decreases steps
  {
    && cfg in s.stores && FixedByClass(s.stores[cfg])
    && (steps == [] || AlwaysFixed(Next(s, steps[0]), steps[1..], cfg))
  }

  ghost predicate NeverSpoiled(steps: seq<Step>, cfg: string) {
    forall i :: 0 <= i < |steps| ==> !Spoils(steps[i], cfg)
  }

  lemma {:induction false} FixedForeverIff(s: System, steps: seq<Step>, cfg: string)
    requires Runs(s, steps) && cfg in s.stores && FixedByClass(s.stores[cfg])
    ensures AlwaysFixed(s, steps, cfg) <==> NeverSpoiled(steps, cfg)
    decreases steps
  {
    if steps != [] {
      var s', rest := Next(s, steps[0]), steps[1..];
      CommitFixes(s, steps[0], cfg);
      if !Spoils(steps[0], cfg) {
        FixedForeverIff(s', rest, cfg);
        assert NeverSpoiled(steps, cfg) <==> NeverSpoiled(rest, cfg) by { assert [steps[0]] + rest == steps; }
      } else {
        assert !AlwaysFixed(s', rest, cfg);
      }
    }
  }

  /**
   * Whatever state it finds, once a class record took effect every later stored record is fixed by its class, if and
   * only if no leap second is announced on a record of zeros.
   */
  lemma {:induction false} FixedAfterFirstWrite(s: System, write: Step, after: seq<Step>, cfg: string)
    requires Enabled(s, write) && Commits(s, write, cfg) && Runs(Next(s, write), after)
    ensures AlwaysFixed(Next(s, write), after, cfg) <==> NeverSpoiled(after, cfg)
  {
    CommitFixes(s, write, cfg);
    FixedForeverIff(Next(s, write), after, cfg);
  }

  /** What zeros do: an announcement stores class 0, a class write clears both leap flags. */
  lemma {:induction false} ZeroAnswers(s: System, cfg: string, positive: bool, r: Request, utcOffset: int)
    requires cfg in s.stores && r.cfg == cfg && r.clockType == GM && Known(r.clockClass)
    ensures var g := Next(s, Announce(cfg, true, positive)).stores[cfg];
            g.clockClass == CLASS_UNINITIALIZED && !FixedByClass(g)
    ensures var g := Next(s.(held := Some(r)), Work(TimedOut, true, true, utcOffset)).stores[cfg];
            FixedByClass(g) && !g.leap59 && !g.leap61
  {}

  // ---------------------------------------------------------------- what a class record says

  predicate IsClass(c: int) {
    c == 6 || c == 7 || c == 140 || c == 248
  }

  /** When a class record takes effect. */
  lemma {:induction false} CommitsIff(s: System, st: Step, cfg: string)
    requires Enabled(s, st)
    ensures Commits(s, st, cfg) <==>
            && st.Work? && st.applied && s.held.value.cfg == cfg
            && s.held.value.clockType == GM && IsClass(s.held.value.clockClass)
            && (st.answer == TimedOut || (st.answer == Stored && s.stores[cfg].clockClass != s.held.value.clockClass))
  {}

  /** What it then says: everything but the leap flags is settled by the request and the UTC offset in force. */
  lemma {:induction false} CommitSays(s: System, st: Step, cfg: string)
    requires Enabled(s, st) && Commits(s, st, cfg)
    ensures var r, g := s.held.value, Next(s, st).stores[cfg];
            && g.clockClass == r.clockClass && g.utcOffset == st.utcOffset
            && g.utcOffsetValid && g.ptpTimescale && g.frequencyTraceable
            && g.clockAccuracy == (if r.clockClass == 6 then 0x21 else if r.clockClass == 248 then 0xFE else r.accuracy)
            && (g.timeTraceable <==> r.clockClass == 6 || r.clockClass == 7)
            && g.timeSource == (if r.clockClass == 6 then 0x20 else 0xA0)
            && g.logVariance == (if r.clockClass == 6 then 0x4E5D else 0xFFFF)
  {}

  /** After a successful update for any of the four classes the record has it, and the handler mirrors the record. */
  lemma {:induction false} UpdateTakes(s: System, st: Step)
    requires Enabled(s, st) && Succeeds(s, st) && s.held.value.clockType == GM && IsClass(s.held.value.clockClass)
    ensures var r, s' := s.held.value, Next(s, st);
            && s'.stores[r.cfg].clockClass == r.clockClass == s'.handler.clockClass
            && s'.handler.clockAccuracy == s'.stores[r.cfg].clockAccuracy
  {}

  /** No step of the run writes the config's record, except that leap seconds are announced on it. */
  ghost predicate NotRewritten(s: System, steps: seq<Step>, cfg: string)
    requires Runs(s, steps)
    decreases steps
  {
    steps == [] ||
    (!Commits(s, steps[0], cfg) && !Spoils(steps[0], cfg) && NotRewritten(Next(s, steps[0]), steps[1..], cfg))
  }

  lemma {:induction false} RecordStands(s: System, steps: seq<Step>, cfg: string)
    requires Runs(s, steps) && cfg in s.stores && NotRewritten(s, steps, cfg)
    ensures cfg in After(s, steps).stores && SameButLeap(s.stores[cfg], After(s, steps).stores[cfg])
    decreases steps
  {
    if steps != [] {
      StepFrames(s, steps[0], cfg);
      RecordStands(Next(s, steps[0]), steps[1..], cfg);
    }
  }

  /** The UTC offset after a run: that of the last class record, zero after a leap second announced on zeros. */
  ghost function OffsetAfter(s: System, steps: seq<Step>, cfg: string, offset: int): int
    requires Runs(s, steps)
    decreases steps
  {
    if steps == [] then offset
    else OffsetAfter(Next(s, steps[0]), steps[1..], cfg,
                     if Commits(s, steps[0], cfg) then steps[0].utcOffset else if Spoils(steps[0], cfg) then 0 else offset)
  }

  lemma {:induction false} OffsetIsLastWritten(s: System, steps: seq<Step>, cfg: string)
    requires Runs(s, steps) && cfg in s.stores
    ensures cfg in After(s, steps).stores
    ensures After(s, steps).stores[cfg].utcOffset == OffsetAfter(s, steps, cfg, s.stores[cfg].utcOffset)
    decreases steps
  {
    if steps != [] {
      var st, s' := steps[0], Next(s, steps[0]);
      StepFrames(s, st, cfg);
      if Commits(s, st, cfg) { CommitSays(s, st, cfg); }
      OffsetIsLastWritten(s', steps[1..], cfg);
    }
  }

  /** A class record stands as it was sent, leap flags apart, until the next one or an announcement on zeros. */
  lemma {:induction false} LastWriteStands(s: System, write: Step, after: seq<Step>, cfg: string)
    requires Enabled(s, write) && Commits(s, write, cfg) && Runs(Next(s, write), after)
    requires NotRewritten(Next(s, write), after, cfg)
    ensures cfg in After(Next(s, write), after).stores
    ensures var r, g := s.held.value, After(Next(s, write), after).stores[cfg];
            && g.clockClass == r.clockClass && g.utcOffset == write.utcOffset && g.utcOffsetValid
            && g.clockAccuracy == (if r.clockClass == 6 then 0x21 else if r.clockClass == 248 then 0xFE else r.accuracy)
  {
    CommitSays(s, write, cfg);
    RecordStands(Next(s, write), after, cfg);
  }

  // ---------------------------------------------------------------- no request is lost unseen

  function One(r: Option<Request>): multiset<Request> {
    if r.Some? then multiset{r.value} else multiset{}
  }

  /** The requests on their way: with their senders, in the slot, with the worker. */
  function Waiting(s: System): multiset<Request> {
    multiset(s.inFlight) + One(s.slot) + One(s.held)
  }

  /** The requests a step disposes of: dropped because the slot is full, or worked on. */
  function Disposed(s: System, st: Step): multiset<Request>
    requires Enabled(s, st)
  {
    match st
    case Send(i) => if s.slot.Some? then multiset{s.inFlight[i]} else multiset{}
    case Work(_, _, _, _) => One(s.held)
    case _ => multiset{}
  }

  function IssuedBy(s: System, st: Step): seq<Request> {
    if st.Handle? then Spawned(s.handler, st.event) else []
  }

  /** Where a step leaves the requests. */
  lemma {:induction false} Channels(s: System, st: Step)
    requires Enabled(s, st)
    ensures var s' := Next(s, st);
            && s'.inFlight == (match st
                               case Handle(e) => s.inFlight + Spawned(s.handler, e)
                               case Send(i) => s.inFlight[..i] + s.inFlight[i + 1..]
                               case _ => s.inFlight)
            && s'.slot == (match st
                           case Send(i) => (if s.slot.Some? then s.slot else Some(s.inFlight[i]))
                           case Receive => None
                           case _ => s.slot)
            && s'.held == (match st case Receive => s.slot case Work(_, _, _, _) => None case _ => s.held)
  {}

  lemma {:induction false} Removed<T>(q: seq<T>, i: nat)
    requires i < |q|
    ensures multiset(q[..i] + q[i + 1..]) + multiset{q[i]} == multiset(q)
  {
    assert q == q[..i] + ([q[i]] + q[i + 1..]);
  }

  lemma {:induction false} SendConserves(q: seq<Request>, i: nat, slot: Option<Request>)
    requires i < |q|
    ensures multiset(q[..i] + q[i + 1..]) + One(if slot.Some? then slot else Some(q[i])) +
            (if slot.Some? then multiset{q[i]} else multiset{}) == multiset(q) + One(slot)
  {
    Removed(q, i);
  }

  lemma {:induction false} SpawnConserves(s: System, s': System, rs: seq<Request>)
    requires s'.inFlight == s.inFlight + rs && s'.slot == s.slot && s'.held == s.held
    ensures Waiting(s') + multiset{} == Waiting(s) + multiset(rs)
  {}

  lemma {:induction false} SenderConserves(s: System, s': System, i: nat, dropped: multiset<Request>)
    requires i < |s.inFlight| && s'.inFlight == s.inFlight[..i] + s.inFlight[i + 1..] && s'.held == s.held
    requires s'.slot == if s.slot.Some? then s.slot else Some(s.inFlight[i])
    requires dropped == if s.slot.Some? then multiset{s.inFlight[i]} else multiset{}
    ensures Waiting(s') + dropped == Waiting(s) + multiset{}
  {
    SendConserves(s.inFlight, i, s.slot);
  }

  lemma {:induction false} WorkerConserves(s: System, s': System, done: multiset<Request>)
    requires s'.inFlight == s.inFlight
    requires One(s'.slot) + One(s'.held) + done == One(s.slot) + One(s.held)
    ensures Waiting(s') + done == Waiting(s) + multiset{}
  {
    forall r: Request ensures (Waiting(s') + done)[r] == (Waiting(s) + multiset{})[r] {
      assert (One(s'.slot) + One(s'.held) + done)[r] == (One(s.slot) + One(s.held))[r];
    }
  }

  lemma {:induction false} RequestsConserved(s: System, st: Step)
    requires Enabled(s, st)
    ensures Waiting(Next(s, st)) + Disposed(s, st) == Waiting(s) + multiset(IssuedBy(s, st))
  {
    Channels(s, st);
    match st
    case Handle(e) => SpawnConserves(s, Next(s, st), Spawned(s.handler, e));
    case Send(i) => SenderConserves(s, Next(s, st), i, Disposed(s, st));
    case _ => WorkerConserves(s, Next(s, st), Disposed(s, st));
  }

  lemma {:induction false} ConservedTwice<T>(w0: multiset<T>, i0: multiset<T>, d0: multiset<T>, w1: multiset<T>,
                                             i1: multiset<T>, d1: multiset<T>, w2: multiset<T>)
    requires w1 + d0 == w0 + i0 && w2 + d1 == w1 + i1
    ensures w2 + (d0 + d1) == w0 + (i0 + i1)
  {
    forall x: T ensures (w2 + (d0 + d1))[x] == (w0 + (i0 + i1))[x] {
      assert (w1 + d0)[x] == (w0 + i0)[x] && (w2 + d1)[x] == (w1 + i1)[x];
    }
  }

  ghost function DisposedIn(s: System, steps: seq<Step>): multiset<Request>
    requires Runs(s, steps)
    decreases steps
  {
    if steps == [] then multiset{} else Disposed(s, steps[0]) + DisposedIn(Next(s, steps[0]), steps[1..])
  }

  /** Over any run every request that was issued is still on its way, was worked on, or was dropped by a full slot. */
  lemma {:induction false} NoRequestLost(s: System, steps: seq<Step>)
    requires Runs(s, steps)
    ensures Waiting(After(s, steps)) + DisposedIn(s, steps) == Waiting(s) + multiset(Requests(s, steps))
    decreases steps
  {
    if steps != [] {
      var s', rest := Next(s, steps[0]), steps[1..];
      RequestsConserved(s, steps[0]);
      NoRequestLost(s', rest);
      ConservedTwice(Waiting(s), multiset(IssuedBy(s, steps[0])), Disposed(s, steps[0]), Waiting(s'),
                     multiset(Requests(s', rest)), DisposedIn(s', rest), Waiting(After(s', rest)));
      assert multiset(Requests(s, steps)) == multiset(IssuedBy(s, steps[0])) + multiset(Requests(s', rest));
    }
  }

  // ---------------------------------------------------------------- convergence

  /** The grandmaster of `cfg` rests at class c: every handled event announces c and nothing clears the mirror. */
  predicate Resting(s: System, st: Step, cfg: string, c: int) {
    st.Handle? ==>
      && !ClearsMirror(st.event)
      && (Handled(st.event) ==> st.event.cfg == cfg && st.event.clockType == GM &&
                                Announced(s.handler, st.event).clockClass == c)
  }

  predicate Fresh(r: Request, cfg: string, c: int) {
    r.cfg == cfg && r.clockType == GM && r.clockClass == c
  }

  function Stale(r: Request, cfg: string, c: int): nat {
    if Fresh(r, cfg, c) then 0 else 1
  }

  function StaleIn(rs: seq<Request>, cfg: string, c: int): nat {
    if rs == [] then 0 else StaleIn(rs[..|rs| - 1], cfg, c) + Stale(rs[|rs| - 1], cfg, c)
  }

  function StaleAt(r: Option<Request>, cfg: string, c: int): nat {
    if r.Some? then Stale(r.value, cfg, c) else 0
  }

  /** How many requests for something else are still on their way. */
  function StaleCount(s: System, cfg: string, c: int): nat {
    StaleIn(s.inFlight, cfg, c) + StaleAt(s.slot, cfg, c) + StaleAt(s.held, cfg, c)
  }

  /** Stale requests this step disposes of: dropped by a full slot, or worked on. */
  function Retired(s: System, st: Step, cfg: string, c: int): nat
    requires Enabled(s, st)
  {
    match st
    case Send(i) => if s.slot.Some? then Stale(s.inFlight[i], cfg, c) else 0
    case Work(_, _, _, _) => Stale(s.held.value, cfg, c)
    case _ => 0
  }

  lemma {:induction false} StaleRemoved(rs: seq<Request>, i: nat, cfg: string, c: int)
    requires i < |rs|
    ensures StaleIn(rs, cfg, c) == StaleIn(rs[..i] + rs[i + 1..], cfg, c) + Stale(rs[i], cfg, c)
  {
    var n := |rs| - 1;
    if i == n {
      assert rs[..i] + rs[i + 1..] == rs[..n];
    } else {
      StaleRemoved(rs[..n], i, cfg, c);
      var rest := rs[..i] + rs[i + 1..];
      assert rest[..|rest| - 1] == rs[..n][..i] + rs[..n][i + 1..];
      assert rest[|rest| - 1] == rs[n];
    }
  }

  /** At rest an event issues a request exactly while the mirror differs, and only for the resting class. */
  lemma {:induction false} RestingRequests(s: System, e: Event, cfg: string, c: int)
    requires c in {CLASS_LOCKED, CLASS_FREERUN} && Resting(s, Handle(e), cfg, c)
    ensures Issued(s.handler, e).Some? <==> Handled(e) && s.handler.clockClass != c
    ensures Issued(s.handler, e).Some? ==> Fresh(Issued(s.handler, e).value, cfg, c)
  {}

  /** No stale request is ever added: what is retired plus what is left is what there was. */
  lemma {:induction false} StaleConserved(s: System, st: Step, cfg: string, c: int)
    requires c in {CLASS_LOCKED, CLASS_FREERUN}
    requires Enabled(s, st) && Resting(s, st, cfg, c)
    ensures StaleCount(Next(s, st), cfg, c) + Retired(s, st, cfg, c) == StaleCount(s, cfg, c)
  {
    match st {
      case Handle(e) =>
        RestingRequests(s, e, cfg, c);
        var rs := Spawned(s.handler, e);
        if rs != [] {
          assert (s.inFlight + rs)[..|s.inFlight|] == s.inFlight;
        } else {
          assert s.inFlight + rs == s.inFlight;
        }
      case Send(i) => StaleRemoved(s.inFlight, i, cfg, c);
      case _ =>
    }
  }

  ghost predicate Rests(s: System, steps: seq<Step>, cfg: string, c: int)
    requires Runs(s, steps)
    decreases steps
  {
    steps == [] || (Resting(s, steps[0], cfg, c) && Rests(Next(s, steps[0]), steps[1..], cfg, c))
  }

  ghost function RetiredIn(s: System, steps: seq<Step>, cfg: string, c: int): nat
    requires Runs(s, steps)
    decreases steps
  {
    if steps == [] then 0 else Retired(s, steps[0], cfg, c) + RetiredIn(Next(s, steps[0]), steps[1..], cfg, c)
  }

  /** However long the run, only the stale requests of its start can ever be retired. */
  lemma {:induction false} StaleIsFinite(s: System, steps: seq<Step>, cfg: string, c: int)
    requires c in {CLASS_LOCKED, CLASS_FREERUN}
    requires Runs(s, steps) && Rests(s, steps, cfg, c)
    ensures RetiredIn(s, steps, cfg, c) + StaleCount(After(s, steps), cfg, c) == StaleCount(s, cfg, c)
    decreases steps
  {
    if steps != [] {
      StaleConserved(s, steps[0], cfg, c);
      StaleIsFinite(Next(s, steps[0]), steps[1..], cfg, c);
    }
  }

  /** Grandmaster class, handler mirror and PMC record agree and nothing else is on its way. */
  predicate Settled(s: System, cfg: string, c: int) {
    && StaleCount(s, cfg, c) == 0
    && s.handler.clockClass == c
    && cfg in s.stores
    && s.stores[cfg].clockClass == c
    && s.stores[cfg].clockAccuracy == s.handler.clockAccuracy
  }

  /** The worker's update went through: a record was given and, where it had to change, was set. */
  predicate Succeeds(s: System, st: Step)
    requires Enabled(s, st)
  {
    && st.Work? && s.held.value.cfg in s.stores
    && var g := Answered(s, s.held.value.cfg, st.answer); g.Some? && (Writes(g.value, s.held.value) ==> st.setOk)
  }

  lemma {:induction false} OneUpdateSettles(s: System, st: Step, cfg: string, c: int)
    requires c in {CLASS_LOCKED, CLASS_FREERUN}
    requires Enabled(s, st) && Resting(s, st, cfg, c) && StaleCount(s, cfg, c) == 0 && Succeeds(s, st)
    ensures Settled(Next(s, st), cfg, c)
  {
    StaleConserved(s, st, cfg, c);
  }

  /**
   * The two ways in which a getter that timed out unsettles a config: a leap second announced on zeros, and a class
   * write whose setter reported failure although it took effect, where the stored accuracy was not the class's own.
   */
  predicate Disturbs(s: System, st: Step, cfg: string)
    requires Enabled(s, st) && cfg in s.stores
  {
    || Spoils(st, cfg)
    || (Commits(s, st, cfg) && st.answer == TimedOut && !st.setOk &&
        s.stores[cfg].clockAccuracy != AccuracyFor(s.held.value))
  }

  lemma {:induction false} SettledStaysIff(s: System, st: Step, cfg: string, c: int)
    requires c in {CLASS_LOCKED, CLASS_FREERUN}
    requires Enabled(s, st) && Resting(s, st, cfg, c) && Settled(s, cfg, c)
    ensures Settled(Next(s, st), cfg, c) <==> !Disturbs(s, st, cfg)
    ensures st.Handle? ==> Issued(s.handler, st.event) == None
  {
    StaleConserved(s, st, cfg, c);
    if st.Handle? { RestingRequests(s, st.event, cfg, c); }
  }

  /** The requests issued along a run. */
  ghost function Requests(s: System, steps: seq<Step>): seq<Request>
    requires Runs(s, steps)
    decreases steps
  {
    if steps == [] then []
    else IssuedBy(s, steps[0]) + Requests(Next(s, steps[0]), steps[1..])
  }

  /** Class, mirror and record agree at every moment of the run. */
  ghost predicate AlwaysSettled(s: System, steps: seq<Step>, cfg: string, c: int)
    requires Runs(s, steps)
    decreases steps
  {
    Settled(s, cfg, c) && (steps == [] || AlwaysSettled(Next(s, steps[0]), steps[1..], cfg, c))
  }

  ghost predicate Undisturbed(s: System, steps: seq<Step>, cfg: string)
    requires Runs(s, steps)
    decreases steps
  {
    steps == [] || (cfg in s.stores && !Disturbs(s, steps[0], cfg) && Undisturbed(Next(s, steps[0]), steps[1..], cfg))
  }

  lemma {:induction false} SettledForeverIff(s: System, steps: seq<Step>, cfg: string, c: int)
    requires c in {CLASS_LOCKED, CLASS_FREERUN}
    requires Runs(s, steps) && Rests(s, steps, cfg, c) && Settled(s, cfg, c)
    ensures AlwaysSettled(s, steps, cfg, c) <==> Undisturbed(s, steps, cfg)
    ensures AlwaysSettled(s, steps, cfg, c) ==> Requests(s, steps) == []
    decreases steps
  {
    if steps != [] {
      var s', rest := Next(s, steps[0]), steps[1..];
      SettledStaysIff(s, steps[0], cfg, c);
      if Settled(s', cfg, c) {
        SettledForeverIff(s', rest, cfg, c);
      } else {
        assert !AlwaysSettled(s', rest, cfg, c);
      }
    }
  }

  /**
   * Once a grandmaster rests at class 6 or 248 and its stale requests are gone, one successful update makes class,
   * mirror and PMC record agree. They agree for good, and no further request is issued, if and only if no later
   * answer of zeros disturbs them.
   */
  lemma {:induction false} Converges(s: System, before: seq<Step>, update: Step, after: seq<Step>, cfg: string, c: int)
    requires c in {CLASS_LOCKED, CLASS_FREERUN}
    requires Runs(s, before) && Rests(s, before, cfg, c)
    requires RetiredIn(s, before, cfg, c) == StaleCount(s, cfg, c)
    requires Enabled(After(s, before), update) && Resting(After(s, before), update, cfg, c)
    requires Succeeds(After(s, before), update)
    requires var s1 := Next(After(s, before), update); Runs(s1, after) && Rests(s1, after, cfg, c)
    ensures var s1 := Next(After(s, before), update);
            && Settled(s1, cfg, c)
            && (AlwaysSettled(s1, after, cfg, c) <==> Undisturbed(s1, after, cfg))
            && (AlwaysSettled(s1, after, cfg, c) ==> Requests(s1, after) == [])
  {
    StaleIsFinite(s, before, cfg, c);
    OneUpdateSettles(After(s, before), update, cfg, c);
    SettledForeverIff(Next(After(s, before), update), after, cfg, c);
  }
}
