/** The leap-second manager: event table, cached UTC offset and PMC announcement (pkg/leap/leap-file.go). */
module Leap {
  import opened PtpTypes
  import opened Settings

  // Points in time are nanoseconds since 1900, as the Go code measures them; table times are whole seconds.
  const SECOND := 1_000_000_000
  const GPS_START := 2_524_953_600 * SECOND
  const GPS_TO_TAI := 19
  const LEAP_SOURCE_GPS := 2
  const WINDOW_START := 12 * 3600 * SECOND
  const WINDOW_END := 60 * SECOND
  const TICK_PERIOD := 60 * SECOND
  // The longest duration in hours that time.ParseDuration accepts.
  const MAX_HOURS := 2_562_047

  datatype Entry = Entry(time: int, leapSec: int)

  /** NAV-TIMELS; the validity bits 0 and 1 are already taken apart. */
  datatype TimeLs = TimeLs(
    source: nat,
    currLs: int,
    lsChange: int,
    timeToLsEvent: int,
    weekNumber: nat,
    dayNumber: nat,
    validCurrLs: bool,
    validTimeToLsEvent: bool)

  datatype Manager = Manager(
    events: seq<Entry>,
    utcOffset: int,
    utcOffsetTime: int,
    updateTime: int,
    pmcLeapSent: bool)

  predicate Passed(e: Entry, now: int) {
    e.time * SECOND < now
  }

  function Last(events: seq<Entry>): Entry
    requires events != []
  {
    events[|events| - 1]
  }

  /** int(d.Seconds()) */
  function WholeSeconds(ns: int): int {
    if ns >= 0 then ns / SECOND else -(-ns / SECOND)
  }

  // ---------------------------------------------------------------- indications

  function Total(ind: TimeLs): int {
    ind.currLs + GPS_TO_TAI + ind.lsChange
  }

  function Hours(ind: TimeLs): nat {
    ind.weekNumber * 7 * 24 + ind.dayNumber * 24
  }

  predicate CatchUp(ind: TimeLs) {
    ind.lsChange == 0 && ind.timeToLsEvent >= 0
  }

  /** processLeapIndication: the leap time to record, when the file is outdated and its last event has passed. */
  function Process(events: seq<Entry>, ind: TimeLs, now: int): Option<int>
    requires events != []
  {
    if ind.source == LEAP_SOURCE_GPS && ind.validTimeToLsEvent && ind.validCurrLs
       && Total(ind) != Last(events).leapSec && Passed(Last(events), now) && Hours(ind) <= MAX_HOURS
    then Some(if CatchUp(ind) then now - WINDOW_END else GPS_START + Hours(ind) * 3600 * SECOND)
    else None
  }

  function Appended(events: seq<Entry>, ind: TimeLs, leapTime: int): seq<Entry> {
    if Total(ind) != 0 then events + [Entry(WholeSeconds(leapTime), Total(ind))] else events
  }

  /** handleLeapIndication */
  function Handle(m: Manager, ind: TimeLs, now: int): Manager
    requires m.events != []
  {
    match Process(m.events, ind, now)
    case None => m
    case Some(leapTime) =>
      var events := Appended(m.events, ind, leapTime);
      m.(events := events, updateTime := WholeSeconds(now),
         utcOffset := Last(events).leapSec, utcOffsetTime := Last(events).time)
  }

  /** GetUtcOffset; None where the process would give up. */
  function CachedOffset(m: Manager, now: int): Option<int> {
    if m.utcOffsetTime * SECOND < now then Some(m.utcOffset)
    else if |m.events| > 1 then Some(m.events[|m.events| - 2].leapSec)
    else None
  }

  /** The offset in force: that of the last listed event that has passed. */
  function OffsetInForce(events: seq<Entry>, now: int): Option<int> {
    if events == [] then None
    else if Passed(Last(events), now) then Some(Last(events).leapSec)
    else OffsetInForce(events[..|events| - 1], now)
  }

  // ---------------------------------------------------------------- announcements

  /** IsLeapInWindow with the window of the maintenance tick. */
  predicate InWindow(events: seq<Entry>, now: int)
    requires events != []
  {
    Last(events).time * SECOND - WINDOW_START < now < Last(events).time * SECOND - WINDOW_END
  }

  /** The record to announce with, if the leap second still makes a difference. */
  function Announcement(events: seq<Entry>, g: Settings): Option<Settings>
    requires events != []
  {
    var diff := Last(events).leapSec - g.utcOffset;
    if diff != 0 then Some(WithLeap(g, diff > 0)) else None
  }

  /** What the tick tries to send: nothing outside the window, after an announcement or without an answer. */
  function Attempt(m: Manager, now: int, answer: Option<Settings>): Option<Settings>
    requires m.events != []
  {
    if InWindow(m.events, now) && !m.pmcLeapSent && answer.Some? then Announcement(m.events, answer.value) else None
  }

  function Ticked(m: Manager, now: int, answer: Option<Settings>, setOk: bool): Manager
    requires m.events != []
  {
    if !InWindow(m.events, now) then m.(pmcLeapSent := false)
    else if m.pmcLeapSent || answer.None? then m
    else m.(pmcLeapSent := Announcement(m.events, answer.value).None? || setOk)
  }

  // ---------------------------------------------------------------- the manager as an object

  class LeapManager {
    var events: seq<Entry>
    var utcOffset: int
    var utcOffsetTime: int
    var updateTime: int
    var pmcLeapSent: bool

    function View(): Manager
      reads this
    {
      Manager(events, utcOffset, utcOffsetTime, updateTime, pmcLeapSent)
    }

    constructor (events: seq<Entry>, updateTime: int)
      requires events != []
      ensures View() == Manager(events, Last(events).leapSec, Last(events).time, updateTime, false)
    {
      this.events, this.updateTime, pmcLeapSent := events, updateTime, false;
      utcOffset, utcOffsetTime := Last(events).leapSec, Last(events).time;
    }

    method SetUtcOffset()
      requires events != []
      modifies this`utcOffset, this`utcOffsetTime
      ensures utcOffset == Last(events).leapSec && utcOffsetTime == Last(events).time
    {
      var last := events[|events| - 1];
      utcOffsetTime := last.time;
      utcOffset := last.leapSec;
    }

    method GetUtcOffset(now: int) returns (offset: Option<int>)
      ensures offset == CachedOffset(View(), now)
    {
      if now > utcOffsetTime * SECOND {
        return Some(utcOffset);
      } else if |events| > 1 {
        return Some(events[|events| - 2].leapSec);
      }
      return None;
    }

    method UpdateLeapFile(leapTime: int, leapSec: int, now: int)
      requires events != []
      modifies this
      ensures events == if leapSec != 0 then old(events) + [Entry(WholeSeconds(leapTime), leapSec)] else old(events)
      ensures updateTime == WholeSeconds(now) && pmcLeapSent == old(pmcLeapSent)
      ensures utcOffset == Last(events).leapSec && utcOffsetTime == Last(events).time
    {
      if leapSec != 0 {
        events := events + [Entry(WholeSeconds(leapTime), leapSec)];
      }
      updateTime := WholeSeconds(now);
      SetUtcOffset();
    }

    method ProcessLeapIndication(ind: TimeLs, now: int) returns (leapTime: Option<int>)
      requires events != []
      ensures leapTime == Process(events, ind, now)
    {
      if ind.source != LEAP_SOURCE_GPS { return None; }
      var last := events[|events| - 1];
      if ind.validTimeToLsEvent && ind.validCurrLs {
        var leapSec := ind.currLs + GPS_TO_TAI + ind.lsChange;
        if leapSec != last.leapSec && last.time * SECOND < now {
          var hours := ind.weekNumber * 7 * 24 + ind.dayNumber * 24;
          if hours > MAX_HOURS { return None; }
          if ind.lsChange == 0 && ind.timeToLsEvent >= 0 {
            return Some(now - WINDOW_END);
          }
          return Some(GPS_START + hours * 3600 * SECOND);
        }
      }
      return None;
    }

    method HandleLeapIndication(ind: TimeLs, now: int)
      requires events != []
      modifies this
      ensures View() == Handle(old(View()), ind, now)
    {
      var leapTime := ProcessLeapIndication(ind, now);
      if leapTime.Some? {
        UpdateLeapFile(leapTime.value, ind.currLs + GPS_TO_TAI + ind.lsChange, now);
      }
    }

    /** One maintenance tick; `answer` is the PMC record, None when it could not be read. */
    method Tick(now: int, answer: Option<Settings>, setOk: bool) returns (sent: Option<Settings>)
      requires events != []
      modifies this`pmcLeapSent
      ensures View() == Ticked(old(View()), now, answer, setOk)
      ensures sent == Attempt(old(View()), now, answer)
    {
      sent := None;
      if InWindow(events, now) {
        if !pmcLeapSent {
          if answer.None? { return; }
          var g := answer.value;
          var diff := events[|events| - 1].leapSec - g.utcOffset;
          if diff > 0 {
            g := g.(leap59 := false, leap61 := true);
          } else if diff < 0 {
            g := g.(leap59 := true, leap61 := false);
          } else {
            pmcLeapSent := true;
            return;
          }
          sent := Some(g);
          if !setOk { return; }
          pmcLeapSent := true;
        }
      } else {
        pmcLeapSent := false;
      }
    }
  }
}
