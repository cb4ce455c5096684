/** When leap seconds are recorded and announced, over all runs of the manager. */
module LeapHistory {
  import opened PtpTypes
  import opened Settings
  import opened Leap
  import opened LeapProofs

  // ---------------------------------------------------------------- recording

  const DAY := 86_400

  /** 6 January 1980 in seconds since 1900: eighty years with nineteen leap days, and five days. */
  const GPS_EPOCH := (80 * 365 + 19 + 5) * 86_400

  /** An indication that asks for a new event: from GPS, fully valid, in range, unlike the last event, which has passed. */
  predicate AsksFor(events: seq<Entry>, ind: TimeLs, now: int)
    requires events != []
  {
    && ind.source == 2 && ind.validCurrLs && ind.validTimeToLsEvent
    && ind.weekNumber * 168 + ind.dayNumber * 24 <= 2_562_047
    && ind.currLs + 19 + ind.lsChange != events[|events| - 1].leapSec
    && events[|events| - 1].time * 1_000_000_000 < now
  }

  /**
   * The table grows exactly when the indication asks for it and its total is not zero. The new event has the current
   * seconds plus 19 plus the change, at the announced week and day since 6 January 1980, or a minute ago when no
   * change is scheduled.
   */
  lemma {:induction false} RecordedIff(m: Manager, ind: TimeLs, now: int)
    requires m.events != []
    ensures Handle(m, ind, now).events != m.events <==> AsksFor(m.events, ind, now) && ind.currLs + 19 + ind.lsChange != 0
    ensures Handle(m, ind, now).events != m.events ==>
              && Handle(m, ind, now).events[..|m.events|] == m.events && |Handle(m, ind, now).events| == |m.events| + 1
              && Handle(m, ind, now).events[|m.events|].leapSec == ind.currLs + 19 + ind.lsChange
              && (!(ind.lsChange == 0 && ind.timeToLsEvent >= 0) ==>
                    Handle(m, ind, now).events[|m.events|].time == GPS_EPOCH + (7 * ind.weekNumber + ind.dayNumber) * DAY)
    ensures AsksFor(m.events, ind, now) && now >= 0 ==> Handle(m, ind, now).updateTime == now / 1_000_000_000
    ensures !AsksFor(m.events, ind, now) ==> Handle(m, ind, now) == m
    ensures Handle(m, ind, now).pmcLeapSent == m.pmcLeapSent
  {
    if AsksFor(m.events, ind, now) { ScheduledSecond(ind); }
  }

  lemma {:induction false} ScheduledSecond(ind: TimeLs)
    ensures WholeSeconds(GPS_START + Hours(ind) * 3600 * SECOND) == GPS_EPOCH + (7 * ind.weekNumber + ind.dayNumber) * DAY
  {
    var n := GPS_EPOCH + (7 * ind.weekNumber + ind.dayNumber) * DAY;
    assert GPS_START + Hours(ind) * 3600 * SECOND == n * SECOND;
    assert n >= 0 && n * SECOND / SECOND == n;
  }

  /** Without a scheduled change the event is dated a minute ago, to the second below. */
  lemma {:induction false} CatchUpSecond(m: Manager, ind: TimeLs, now: int)
    requires m.events != [] && ind.lsChange == 0 && ind.timeToLsEvent >= 0 && now >= 60_000_000_000
    requires Handle(m, ind, now).events != m.events
    ensures var t := Handle(m, ind, now).events[|m.events|].time * 1_000_000_000;
            t <= now - 60_000_000_000 < t + 1_000_000_000
  {}

  // ---------------------------------------------------------------- sending

  /** Strictly between twelve hours and sixty seconds before the last event. */
  predicate Due(events: seq<Entry>, now: int)
    requires events != []
  {
    var t := events[|events| - 1].time * 1_000_000_000;
    t - 43_200_000_000_000 < now && now < t - 60_000_000_000
  }

  /**
   * A tick sends a record exactly when it is due, nothing was settled yet, the PMC answered, and the answer's UTC
   * offset is not yet the event's; it is that answer with one leap flag set, by the sign of the change.
   */
  lemma {:induction false} SentIff(m: Manager, now: int, answer: Option<Settings>)
    requires m.events != []
    ensures Attempt(m, now, answer).Some? <==>
            Due(m.events, now) && !m.pmcLeapSent && answer.Some? && answer.value.utcOffset != m.events[|m.events| - 1].leapSec
    ensures Attempt(m, now, answer).Some? ==>
              var up := m.events[|m.events| - 1].leapSec > answer.value.utcOffset;
              Attempt(m, now, answer).value == answer.value.(leap61 := up, leap59 := !up)
  {}

  /** The flag after a tick: cleared when nothing is due, set when the answer agreed or the record was set. */
  lemma {:induction false} FlagAfter(m: Manager, now: int, answer: Option<Settings>, setOk: bool)
    requires m.events != []
    ensures Ticked(m, now, answer, setOk) == m.(pmcLeapSent := Ticked(m, now, answer, setOk).pmcLeapSent)
    ensures Ticked(m, now, answer, setOk).pmcLeapSent <==>
            Due(m.events, now) &&
            (m.pmcLeapSent || (answer.Some? && (setOk || answer.value.utcOffset == m.events[|m.events| - 1].leapSec)))
  {}

  // ---------------------------------------------------------------- announced exactly once

  /** A tick that settles the last event: due, answered, and either the offset agrees already or the record is set. */
  predicate Settles(events: seq<Entry>, st: Step)
    requires events != []
  {
    && st.Tick? && Due(events, st.now) && st.answer.Some?
    && (st.answer.value.utcOffset == events[|events| - 1].leapSec || st.setOk)
  }

  /** While event n is the last one, the first tick that settles it finds an offset that differs. */
  ghost predicate FirstDiffers(w: World, steps: seq<Step>, n: nat)
    requires w.m.events != []
    decreases steps
  {
    steps != [] && |w.m.events| - 1 == n &&
    if Settles(w.m.events, steps[0]) then steps[0].answer.value.utcOffset != w.m.events[n].leapSec
    else (NextNonEmpty(w, steps[0]); FirstDiffers(Next(w, steps[0]), steps[1..], n))
  }

  /** Event n was not announced and never will be: it is not the last one, or it was settled in its window. */
  ghost predicate Silent(w: World, n: nat) {
    && w.m.events != [] && n < |w.m.events| && n !in w.announced
    && (n == |w.m.events| - 1 ==>
          && LeapTime(w) - WINDOW_START < w.clock
          && (w.m.pmcLeapSent || LeapTime(w) - WINDOW_END <= w.clock))
  }

  lemma {:induction false} StepStaysSilent(w: World, st: Step, n: nat)
    requires Silent(w, n) && w.clock <= st.now
    ensures Silent(Next(w, st), n)
  {}

  lemma {:induction false} StaysSilent(w: World, steps: seq<Step>, n: nat)
    requires Silent(w, n) && Monotone(w.clock, steps)
    ensures n !in After(w, steps).announced
    decreases steps
  {
    if steps != [] {
      StepStaysSilent(w, steps[0], n);
      StaysSilent(Next(w, steps[0]), steps[1..], n);
    }
  }

  lemma {:induction false} StaysAnnounced(w: World, steps: seq<Step>, n: nat)
    requires w.m.events != [] && n in w.announced
    ensures n in After(w, steps).announced
    decreases steps
  {
    if steps != [] {
      NextNonEmpty(w, steps[0]);
      StaysAnnounced(Next(w, steps[0]), steps[1..], n);
    }
  }

  /** One step with the flag clear and the last event not yet announced. */
  lemma {:induction false} OpenStep(w: World, st: Step, n: nat)
    requires w.m.events != [] && n == |w.m.events| - 1 && n !in w.announced && !w.m.pmcLeapSent
    ensures var w' := Next(w, st);
            if Settles(w.m.events, st) then
              if st.answer.value.utcOffset != w.m.events[n].leapSec then n in w'.announced else Silent(w', n)
            else n !in w'.announced && !w'.m.pmcLeapSent && w.m.events <= w'.m.events
  {}

  /** From the moment it is listed, an event is announced if and only if the first tick that settles it finds a difference. */
  lemma {:induction false} AnnouncedIff(w: World, steps: seq<Step>, n: nat)
    requires w.m.events != [] && n == |w.m.events| - 1 && n !in w.announced && !w.m.pmcLeapSent && Monotone(w.clock, steps)
    ensures n in After(w, steps).announced <==> FirstDiffers(w, steps, n)
    decreases steps
  {
    if steps != [] {
      var st, w', rest := steps[0], Next(w, steps[0]), steps[1..];
      NextNonEmpty(w, st);
      OpenStep(w, st, n);
      if Settles(w.m.events, st) {
        if st.answer.value.utcOffset != w.m.events[n].leapSec { StaysAnnounced(w', rest, n); } else { StaysSilent(w', rest, n); }
      } else if |w'.m.events| - 1 == n {
        AnnouncedIff(w', rest, n);
      } else {
        StaysSilent(w', rest, n);
      }
    }
  }

  /** How often event n was announced. */
  ghost function Times(announced: seq<nat>, n: nat): nat {
    multiset(announced)[n]
  }

  lemma {:induction false} DistinctOnce(announced: seq<nat>, n: nat)
    requires Distinct(announced)
    ensures Times(announced, n) == if n in announced then 1 else 0
    decreases announced
  {
    if announced != [] {
      var k := |announced| - 1;
      assert announced == announced[..k] + [announced[k]];
      DistinctOnce(announced[..k], n);
    }
  }

  /**
   * Over every run with a monotone clock and ticks at most a minute apart, an appended event is announced exactly once
   * if the first tick that settles it finds an offset that differs, and not at all otherwise.
   */
  lemma {:induction false} AnnouncedExactlyOnce(w: World, append: Step, steps: seq<Step>)
    requires OnceOk(w) && FlagOk(w) && w.clock <= append.now && append.now - w.lastTick <= TICK_PERIOD
    requires Next(w, append).m.events != w.m.events && Monotone(append.now, steps)
    ensures var w', n := Next(w, append), |w.m.events|;
            && w'.m.events != []
            && Times(After(w', steps).announced, n) == if FirstDiffers(w', steps, n) then 1 else 0
  {
    var w', n := Next(w, append), |w.m.events|;
    StepKeepsFlag(w, append);
    StepKeepsOnce(w, append);
    GrowsOnlyWhenPassed(w.m, append.ind, append.now);
    AnnouncedOnce(w', steps);
    AnnouncedIff(w', steps, n);
    DistinctOnce(After(w', steps).announced, n);
  }

  /** A tick that finds the offset equal silences the event, even if the PMC later answers with another offset. */
  lemma {:induction false} EqualAnswerSilences(w: World, equal: Step, later: Step)
    requires w.m.events != [] && !w.m.pmcLeapSent && |w.m.events| - 1 !in w.announced && equal.Tick? && later.Tick?
    requires Due(w.m.events, equal.now) && Due(w.m.events, later.now) && w.clock <= equal.now <= later.now
    requires equal.answer.Some? && equal.answer.value.utcOffset == w.m.events[|w.m.events| - 1].leapSec
    requires later.answer.Some? && later.answer.value.utcOffset != w.m.events[|w.m.events| - 1].leapSec && later.setOk
    ensures var w' := Next(w, equal); w'.m.events != [] && |w.m.events| - 1 !in Next(w', later).announced
  {}
}
