/** The cron side: the `cron_schedules` filter that registers sixty
    minute-based recurrences, and `fgp_schedule_cron`, which (re)schedules
    the import hook under a recurrence named from the interval option. */
module Schedule {
  import opened Wrappers
  import opened Strings

  /** A registered recurrence: its interval in seconds and its label. */
  datatype Recurrence = Recurrence(interval: nat, display: string)

  /** The hook the import runs on. */
  const MonitorHook: string := "fgp_monitor_facebook_group"

  /** `"every_{$n}_minutes"`. */
  function ScheduleName(n: int): string {
    "every_" + IntToString(n) + "_minutes"
  }

  /** `sprintf('Every %d Minutes', $i)`, without translation. */
  function Display(i: nat): string {
    "Every " + NatToString(i) + " Minutes"
  }

  /** Different numbers give different schedule names. */
  lemma ScheduleNameInjective(a: int, b: int)
    requires ScheduleName(a) == ScheduleName(b)
    ensures a == b
  {
    var sa, sb := ScheduleName(a), ScheduleName(b);
    assert IntToString(a) == sa[6..|sa| - 8];
    assert IntToString(b) == sb[6..|sb| - 8];
    IntToStringInjective(a, b);
  }

  /** `name` is one of the sixty names the filter registers. */
  predicate IsMinuteSchedule(name: string) {
    exists i :: 1 <= i <= 60 && name == ScheduleName(i)
  }

  /** The `cron_schedules` filter: adds `every_i_minutes` with an interval
      of `i * 60` seconds for every i from 1 to 60, overwriting an entry of
      the same name and keeping every other entry. */
  method AddCronSchedules(schedules: map<string, Recurrence>) returns (r: map<string, Recurrence>)
    ensures forall i :: 1 <= i <= 60 ==> ScheduleName(i) in r && r[ScheduleName(i)] == Recurrence(i * 60, Display(i))
    ensures forall k :: k in r <==> k in schedules || IsMinuteSchedule(k)
    ensures forall k :: k in schedules && !IsMinuteSchedule(k) ==> r[k] == schedules[k]
  {
    r := schedules;
    for i := 1 to 61
      invariant forall j :: 1 <= j < i ==> ScheduleName(j) in r && r[ScheduleName(j)] == Recurrence(j * 60, Display(j))
      invariant forall k :: k in r <==> k in schedules || exists j :: 1 <= j < i && k == ScheduleName(j)
      invariant forall k :: k in schedules && !IsMinuteSchedule(k) ==> r[k] == schedules[k]
    {
      forall j | 1 <= j < i
        ensures ScheduleName(j) != ScheduleName(i)
      {
        if ScheduleName(j) == ScheduleName(i) {
          ScheduleNameInjective(j, i);
        }
      }
      r := r[ScheduleName(i) := Recurrence(i * 60, Display(i))];
    }
  }

  /** `fgp_cron_interval`, read as an integer; 5 when unset. */
  function CronInterval(option: Option<int>): int {
    option.GetOr(5)
  }

  /** The recurrence `fgp_schedule_cron` asks for: the interval option is
      multiplied by 60 before it is put into the name, so the name is one
      the filter registers exactly when the option is 1 (it then asks for
      `every_60_minutes`). */
  function ScheduledName(cronInterval: int): (name: string)
    ensures IsMinuteSchedule(name) <==> cronInterval == 1
  {
    var name := ScheduleName(cronInterval * 60);
    assert IsMinuteSchedule(name) ==> cronInterval == 1 by {
      if IsMinuteSchedule(name) {
        var i :| 1 <= i <= 60 && name == ScheduleName(i);
        ScheduleNameInjective(cronInterval * 60, i);
      }
    }
    assert cronInterval == 1 ==> name == ScheduleName(60);
    name
  }

  /** Against the table the filter leaves, whose other entries do not
      have the requested name, the requested recurrence is registered
      exactly when the option is 1; with the option unset it is not. */
  lemma ScheduledNameInTable(base: map<string, Recurrence>, schedules: map<string, Recurrence>, option: Option<int>)
    requires forall k :: k in schedules <==> k in base || IsMinuteSchedule(k)
    requires ScheduledName(CronInterval(option)) !in base
    ensures ScheduledName(CronInterval(option)) in schedules <==> CronInterval(option) == 1
    ensures option.None? ==> ScheduledName(CronInterval(option)) !in schedules
  {
  }

  // ---------------------------------------------------------------------
  // The WordPress cron table, as far as fgp_schedule_cron touches it

  /** A scheduled recurring event. */
  datatype Event = Event(timestamp: int, recurrence: string, hook: string)

  /** The events of every hook other than `hook`, in order. */
  function Without(events: seq<Event>, hook: string): (r: seq<Event>)
    ensures forall k :: 0 <= k < |r| ==> r[k].hook != hook && r[k] in events
    ensures |r| <= |events|
  {
    if events == [] then []
    else if events[|events| - 1].hook == hook then Without(events[..|events| - 1], hook)
    else Without(events[..|events| - 1], hook) + [events[|events| - 1]]
  }

  /** Every event of another hook survives. */
  lemma {:induction false} WithoutKeepsOthers(events: seq<Event>, hook: string)
    ensures forall e :: e in events && e.hook != hook ==> e in Without(events, hook)
    ensures (forall k :: 0 <= k < |events| ==> events[k].hook != hook) ==> Without(events, hook) == events
  {
    if events != [] {
      var init := events[..|events| - 1];
      WithoutKeepsOthers(init, hook);
      assert events == init + [events[|events| - 1]];
    }
  }

  /** The events scheduled for `hook`. */
  function Hooked(events: seq<Event>, hook: string): seq<Event> {
    if events == [] then []
    else Hooked(events[..|events| - 1], hook)
         + (if events[|events| - 1].hook == hook then [events[|events| - 1]] else [])
  }

  /** Some event carries the hook exactly when it has scheduled events. */
  lemma {:induction false} HookedNonEmpty(events: seq<Event>, hook: string)
    ensures Hooked(events, hook) != [] <==> exists k :: 0 <= k < |events| && events[k].hook == hook
  {
    if events != [] {
      var init := events[..|events| - 1];
      HookedNonEmpty(init, hook);
      assert forall k :: 0 <= k < |init| ==> init[k] == events[k];
    }
  }

  lemma {:induction false} HookedWithout(events: seq<Event>, hook: string, extra: seq<Event>)
    requires forall k :: 0 <= k < |extra| ==> extra[k].hook == hook
    ensures Hooked(Without(events, hook) + extra, hook) == extra
    decreases |events| + |extra|
  {
    if extra != [] {
      var init := extra[..|extra| - 1];
      assert Without(events, hook) + extra == (Without(events, hook) + init) + [extra[|extra| - 1]];
      HookedWithout(events, hook, init);
      assert extra == init + [extra[|extra| - 1]];
    } else if events != [] {
      var init := events[..|events| - 1];
      assert Without(events, hook) + extra == Without(events, hook);
      HookedWithout(init, hook, []);
      assert Without(init, hook) + [] == Without(init, hook);
    }
  }

  /** WordPress's cron table: the registered recurrences and the scheduled
      events. */
  class Cron {
    var schedules: map<string, Recurrence>
    var events: seq<Event>

    constructor (schedules: map<string, Recurrence>, events: seq<Event>)
      ensures this.schedules == schedules && this.events == events
    {
      this.schedules := schedules;
      this.events := events;
    }

    /** `wp_next_scheduled($hook)` finds an event. */
    predicate NextScheduled(hook: string): (b: bool)
      reads this
      ensures b <==> Hooked(events, hook) != []
    {
      HookedNonEmpty(events, hook);
      exists k :: 0 <= k < |events| && events[k].hook == hook
    }

    /** `wp_schedule_event`: refused when the recurrence is not registered. */
    method ScheduleEvent(timestamp: int, recurrence: string, hook: string) returns (ok: bool)
      modifies this
      ensures ok == (recurrence in schedules)
      ensures schedules == old(schedules)
      ensures events == old(events) + (if ok then [Event(timestamp, recurrence, hook)] else [])
    {
      ok := recurrence in schedules;
      if ok {
        events := events + [Event(timestamp, recurrence, hook)];
      }
    }

    /** `wp_clear_scheduled_hook`: removes every event of the hook. */
    method ClearScheduledHook(hook: string)
      modifies this
      ensures schedules == old(schedules)
      ensures events == Without(old(events), hook)
    {
      events := Without(events, hook);
    }

    /** `fgp_schedule_cron`, given `fgp_cron_interval` and the current
        time: when the hook is already scheduled it is cleared first; then it is scheduled under `ScheduledName`, which
        takes effect only if that recurrence is registered. Either way at
        most one event of the hook is left. */
    method ScheduleCron(option: Option<int>, now: int)
      modifies this
      ensures schedules == old(schedules)
      ensures events == Without(old(events), MonitorHook)
                        + (if ScheduledName(CronInterval(option)) in schedules
                           then [Event(now, ScheduledName(CronInterval(option)), MonitorHook)] else [])
      ensures |Hooked(events, MonitorHook)| <= 1
    {
      var name := ScheduledName(CronInterval(option));
      WithoutKeepsOthers(events, MonitorHook);
      if !NextScheduled(MonitorHook) {
        var _ := ScheduleEvent(now, name, MonitorHook);
      } else {
        ClearScheduledHook(MonitorHook);
        var _ := ScheduleEvent(now, name, MonitorHook);
      }
      HookedWithout(old(events), MonitorHook,
                    if name in schedules then [Event(now, name, MonitorHook)] else []);
    }
  }
}
