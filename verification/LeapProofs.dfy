/** What every run of the leap-second manager keeps. */
module LeapProofs {
  import opened PtpTypes
  import opened Settings
  import opened Leap

  datatype Step =
    | Indication(now: int, ind: TimeLs)
    | Tick(now: int, answer: Option<Settings>, setOk: bool)

  /**
   * The manager at one moment of a run: the time of the last step and of the last tick, and the indices of
   * the events announced so far.
   */
  datatype World = World(m: Manager, clock: int, lastTick: int, announced: seq<nat>)

  predicate Announces(m: Manager, st: Step)
    requires m.events != []
  {
    st.Tick? && Attempt(m, st.now, st.answer).Some? && st.setOk
  }

  function Next(w: World, st: Step): World
    requires w.m.events != []
  {
    match st
    case Indication(now, ind) => w.(m := Handle(w.m, ind, now), clock := now)
    case Tick(now, answer, setOk) =>
      World(Ticked(w.m, now, answer, setOk), now, now,
            if Announces(w.m, st) then w.announced + [|w.m.events| - 1] else w.announced)
  }

  /** Time does not run backwards. */
  ghost predicate Monotone(clock: int, steps: seq<Step>)
    decreases steps
  {
    steps == [] || (clock <= steps[0].now && Monotone(steps[0].now, steps[1..]))
  }

  lemma {:induction false} NextNonEmpty(w: World, st: Step)
    requires w.m.events != []
    ensures Next(w, st).m.events != []
    ensures w.m.events <= Next(w, st).m.events
  {}

  function After(w: World, steps: seq<Step>): (r: World)
    requires w.m.events != []
    ensures r.m.events != []
    decreases steps
  {
    if steps == [] then w else
      NextNonEmpty(w, steps[0]);
      After(Next(w, steps[0]), steps[1..])
  }

  // ---------------------------------------------------------------- the cached offset

  ghost predicate CacheOk(w: World) {
    && w.m.events != []
    && (forall i :: 0 <= i < |w.m.events| - 1 ==> Passed(w.m.events[i], w.clock))
    && Passed(w.m.events[0], w.clock)
    && w.m.utcOffset == Last(w.m.events).leapSec
    && w.m.utcOffsetTime == Last(w.m.events).time
  }

  lemma {:induction false} StepKeepsCache(w: World, st: Step)
    requires CacheOk(w) && w.clock <= st.now
    ensures CacheOk(Next(w, st))
  {}

  /** The two entries the cache looks at are enough. */
  lemma {:induction false} CacheExact(w: World, now: int)
    requires CacheOk(w) && w.clock <= now
    ensures CachedOffset(w.m, now) == OffsetInForce(w.m.events, now)
    ensures CachedOffset(w.m, now).Some?
  {
    var es := w.m.events;
    if !Passed(Last(es), now) {
      assert |es| > 1;
      var before := es[..|es| - 1];
      assert Last(before) == es[|es| - 2];
      assert OffsetInForce(before, now) == Some(es[|es| - 2].leapSec);
    }
  }

  lemma {:induction false} RunKeepsCache(w: World, steps: seq<Step>)
    requires CacheOk(w) && Monotone(w.clock, steps)
    ensures CacheOk(After(w, steps))
    ensures w.m.events <= After(w, steps).m.events
    decreases steps
  {
    if steps != [] {
      StepKeepsCache(w, steps[0]);
      NextNonEmpty(w, steps[0]);
      RunKeepsCache(Next(w, steps[0]), steps[1..]);
    }
  }

  /** After any run the cached offset is the offset in force, and the table has only grown at its end. */
  lemma {:induction false} CachedOffsetIsInForce(w: World, steps: seq<Step>, now: int)
    requires CacheOk(w) && Monotone(w.clock, steps)
    requires After(w, steps).clock <= now
    ensures CachedOffset(After(w, steps).m, now) == OffsetInForce(After(w, steps).m.events, now)
    ensures CachedOffset(After(w, steps).m, now).Some?
    ensures w.m.events <= After(w, steps).m.events
  {
    RunKeepsCache(w, steps);
    CacheExact(After(w, steps), now);
  }

  /** The table never grows while its last event is pending, and then by one event only. */
  lemma {:induction false} GrowsOnlyWhenPassed(m: Manager, ind: TimeLs, now: int)
    requires m.events != []
    ensures Handle(m, ind, now).events == m.events ||
            (Passed(Last(m.events), now) && |Handle(m, ind, now).events| == |m.events| + 1 && m.events < Handle(m, ind, now).events)
  {}

  /** Repeating an indication with a non-zero total changes nothing once it was taken, or at the same moment. */
  lemma {:induction false} RepeatIsNoOp(m: Manager, ind: TimeLs, now: int, again: int)
    requires m.events != [] && Total(ind) != 0
    requires Handle(m, ind, now) != m || again == now
    ensures Handle(m, ind, now).events != [] && Handle(Handle(m, ind, now), ind, again) == Handle(m, ind, now)
  {}

  /** A zero total is never recorded: it only refreshes the update time. */
  lemma {:induction false} ZeroTotal(m: Manager, ind: TimeLs, now: int)
    requires m.events != [] && Total(ind) == 0
    requires m.utcOffset == Last(m.events).leapSec && m.utcOffsetTime == Last(m.events).time
    ensures Handle(m, ind, now) == m.(updateTime := Handle(m, ind, now).updateTime)
  {}

  // ---------------------------------------------------------------- announcements

  ghost predicate Distinct(s: seq<nat>) {
    forall i, j :: 0 <= i < j < |s| ==> s[i] != s[j]
  }

  ghost function LeapTime(w: World): int
    requires w.m.events != []
  {
    Last(w.m.events).time * SECOND
  }

  /** An announced last event is past its window's start, and still flagged or past its window's end. */
  ghost predicate OnceOk(w: World) {
    && w.m.events != []
    && Distinct(w.announced)
    && (forall i :: 0 <= i < |w.announced| ==> w.announced[i] < |w.m.events|)
    && (|w.m.events| - 1 in w.announced ==>
          && LeapTime(w) - WINDOW_START < w.clock
          && (w.m.pmcLeapSent || LeapTime(w) - WINDOW_END <= w.clock))
  }

  lemma {:induction false} StepKeepsOnce(w: World, st: Step)
    requires OnceOk(w) && w.clock <= st.now
    ensures OnceOk(Next(w, st))
  {}

  /** Each leap event is announced at most once over any run with a monotone clock. */
  lemma {:induction false} AnnouncedOnce(w: World, steps: seq<Step>)
    requires OnceOk(w) && Monotone(w.clock, steps)
    ensures OnceOk(After(w, steps)) && Distinct(After(w, steps).announced)
    decreases steps
  {
    if steps != [] {
      StepKeepsOnce(w, steps[0]);
      AnnouncedOnce(Next(w, steps[0]), steps[1..]);
    }
  }

  /** No step comes more than a tick period after the last tick. */
  ghost predicate Dense(w: World, steps: seq<Step>)
    requires w.m.events != []
    decreases steps
  {
    steps == [] ||
    (steps[0].now - w.lastTick <= TICK_PERIOD && (NextNonEmpty(w, steps[0]); Dense(Next(w, steps[0]), steps[1..])))
  }

  /** A set flag means that the last tick saw the current last event in its window. */
  ghost predicate FlagOk(w: World) {
    w.m.events != [] && (w.m.pmcLeapSent ==> InWindow(w.m.events, w.lastTick))
  }

  lemma {:induction false} StepKeepsFlag(w: World, st: Step)
    requires FlagOk(w) && st.now - w.lastTick <= TICK_PERIOD
    ensures FlagOk(Next(w, st))
    ensures Next(w, st).m.events != w.m.events ==> !w.m.pmcLeapSent
  {}

  /** Every appended event finds the flag cleared. */
  ghost predicate ClearAtAppend(w: World, steps: seq<Step>)
    requires w.m.events != []
    decreases steps
  {
    steps == [] ||
    (NextNonEmpty(w, steps[0]);
     (Next(w, steps[0]).m.events != w.m.events ==> !w.m.pmcLeapSent) && ClearAtAppend(Next(w, steps[0]), steps[1..]))
  }

  /** With ticks at most a minute apart the sent flag is always cleared before a newer event is appended. */
  lemma {:induction false} FlagClearedBeforeAppend(w: World, steps: seq<Step>)
    requires FlagOk(w) && Dense(w, steps)
    ensures ClearAtAppend(w, steps)
    decreases steps
  {
    if steps != [] {
      StepKeepsFlag(w, steps[0]);
      FlagClearedBeforeAppend(Next(w, steps[0]), steps[1..]);
    }
  }

  /** A catch-up event is dated so that it is never in the window. */
  lemma {:induction false} CatchUpNeverInWindow(m: Manager, ind: TimeLs, now: int, later: int)
    requires m.events != [] && CatchUp(ind) && now <= later
    requires Handle(m, ind, now).events != m.events
    ensures !InWindow(Handle(m, ind, now).events, later)
  {}

  /** The announcement touches nothing but the leap flags, and sets exactly one of them. */
  lemma {:induction false} AnnouncementFrame(events: seq<Entry>, g: Settings)
    requires events != [] && Announcement(events, g).Some?
    ensures var g' := Announcement(events, g).value;
            g' == g.(leap59 := g'.leap59, leap61 := g'.leap61) && g'.leap61 == !g'.leap59 &&
            (g'.leap61 <==> Last(events).leapSec > g.utcOffset)
  {}
}
