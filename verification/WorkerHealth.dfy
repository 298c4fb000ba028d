/** A worker's counters beside its deliveries, over whole runs: rates, reconnections, downtime. */
module WorkerHealth {
  import opened Sums
  import opened WorkerModel
  import T = TrackerModel
  import L = PeakRate
  import Rings

  /** How often the worker reconnected in a run; a reset does not take any away. */
  function Reconnections(events: seq<Event>): nat {
    if events == [] then 0
    else Reconnections(events[..|events| - 1]) + if events[|events| - 1].Reconnection? then 1 else 0
  }

  /** How many more duplicates can be put down to the last reconnection. */
  function Allowance(h: Health): int {
    if h.recentlyReconnected then RECONNECT_DUPLICATES - h.reconnDupCooldown else 0
  }

  /** Over every run, resets included, at most 100 duplicates are put down to each reconnection. */
  lemma {:induction false} ReconnectDuplicatesBounded(w: nat, events: seq<Event>)
    ensures var h := Run(w, events).health;
            && h.reconnDupCooldown < RECONNECT_DUPLICATES
            && h.reconnDuplicates + Allowance(h) <= RECONNECT_DUPLICATES * Reconnections(events)
  {
    if events != [] {
      hide Step;
      var before, e := events[..|events| - 1], events[|events| - 1];
      ReconnectDuplicatesBounded(w, before);
      AllowanceStep(w, Run(w, before), e);
    }
  }

  lemma AllowanceStep(w: nat, s: State, e: Event)
    requires s.health.reconnDupCooldown < RECONNECT_DUPLICATES
    ensures var h := Step(w, s, e).health;
            && h.reconnDupCooldown < RECONNECT_DUPLICATES
            && h.reconnDuplicates + Allowance(h)
               <= s.health.reconnDuplicates + Allowance(s.health)
                  + if e.Reconnection? then RECONNECT_DUPLICATES else 0
  {
    hide Rejected, Micros, T.RecordAll, CountedFor, Purged, Rings.Recorded, L.Clamped;
  }

  /** Over every run both rate trackers have seen every send since the last reset, in the same
      slots. */
  lemma {:induction false} RatesSeeEverySend(w: nat, events: seq<Event>)
    ensures var s := Run(w, events);
            s.rates.peak == s.rates.sliding && s.rates.peak != [] && Total(s.rates.peak) == s.sent
  {
    if events == [] {
      FirstSlot();
    } else {
      hide Step, Total;
      var before, e := events[..|events| - 1], events[|events| - 1];
      RatesSeeEverySend(w, before);
      RatesStep(w, Run(w, before), e);
    }
  }

  lemma FirstSlot()
    ensures Total([0]) == 0
  {
  }

  lemma RatesStep(w: nat, s: State, e: Event)
    requires s.rates.peak == s.rates.sliding && s.rates.peak != [] && Total(s.rates.peak) == s.sent
    ensures var t := Step(w, s, e);
            t.rates.peak == t.rates.sliding && t.rates.peak != [] && Total(t.rates.peak) == t.sent
  {
    hide Rejected, Micros, DuplicateSeen, T.RecordAll, CountedFor, Purged, Total, L.Clamped;
    match e
    case Send(_, _, _, _) => RecordedTotal(s.rates.peak);
    case Slot => NewSlotTotal(s.rates.peak);
    case ResetAfterWarmup(_) => FirstSlot();
    case _ =>
  }

  lemma RecordedTotal(slots: seq<nat>)
    requires slots != []
    ensures Total(Rings.Recorded(slots)) == Total(slots) + 1
  {
    assert Rings.Recorded(slots)[..|slots| - 1] == slots[..|slots| - 1];
  }

  lemma NewSlotTotal(slots: seq<nat>)
    ensures Total(slots + [0]) == Total(slots)
  {
    assert (slots + [0])[..|slots|] == slots;
  }

  // Downtime.

  /** Is the worker down after these events: was it started last? */
  function IsDown(events: seq<Event>): bool {
    if events == [] then false
    else
      match events[|events| - 1]
      case StartDowntime(_) => true
      case StopDowntime(_) => false
      case ResetAfterWarmup(_) => false
      case _ => IsDown(events[..|events| - 1])
  }

  /** The seconds spent down since the last reset, up to moment `t`, one stretch between two
      events after another. */
  function TimeDown(events: seq<Event>, t: int): real {
    if events == [] then 0.0
    else
      var before := events[..|events| - 1];
      match events[|events| - 1]
      case StartDowntime(now) => TimeDown(before, now) + SecondsFrom(now, t)
      case StopDowntime(now) => TimeDown(before, now)
      case ResetAfterWarmup(_) => 0.0
      case _ => TimeDown(before, t)
  }

  /** downtimeSeconds is the time spent down, also when it is started twice or stopped twice. */
  lemma {:induction false} DowntimeIsTimeDown(w: nat, events: seq<Event>, t: int)
    ensures var h := Run(w, events).health;
            DowntimeSeconds(h, t) == TimeDown(events, t) && (h.downtimeStart.Some? <==> IsDown(events))
  {
    if events != [] {
      hide Step, SecondsFrom;
      var before, e := events[..|events| - 1], events[|events| - 1];
      var s := Run(w, before);
      var from := if e.StartDowntime? || e.StopDowntime? then e.now else t;
      DowntimeIsTimeDown(w, before, from);
      DowntimeStep(w, s, e, t);
    }
  }

  lemma DowntimeStep(w: nat, s: State, e: Event, t: int)
    ensures var h := Step(w, s, e).health;
            match e
            case StartDowntime(now) =>
              && DowntimeSeconds(h, t) == DowntimeSeconds(s.health, now) + SecondsFrom(now, t)
              && h.downtimeStart.Some?
            case StopDowntime(now) =>
              DowntimeSeconds(h, t) == DowntimeSeconds(s.health, now) && h.downtimeStart.None?
            case ResetAfterWarmup(_) => DowntimeSeconds(h, t) == 0.0 && h.downtimeStart.None?
            case _ => DowntimeSeconds(h, t) == DowntimeSeconds(s.health, t)
                      && h.downtimeStart == s.health.downtimeStart
  {
    hide Rejected, Micros, T.RecordAll, CountedFor, Purged, Rings.Recorded, L.Clamped;
  }
}
