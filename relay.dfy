/**
 * The relay's task bodies and start-up (src/main.c): `task_protection`,
 * `task_reload_config`, `task_watchdog`, the initial configuration and
 * channel set-up, and the registration of the three tasks.  Measurements,
 * clock readings, the configuration file and the time stamps of log
 * entries are inputs; the breaker actuator and the alert channel are
 * recorded as the sequences of values sent to them.
 */
module Relay {
  import opened Wrappers
  import opened Timing
  import opened Protection
  import opened Supervision
  import opened Scheduling
  import opened AuditLog
  import opened ConfService
  import Config

  /** The identities of the three task functions. */
  const ProtectionTask: TaskId := 0
  const ReloadTask: TaskId := 1
  const WatchdogTask: TaskId := 2

  /** `static int last_state`: -1 before any valid cycle, then 0 (normal)
      or 1 (tripped). */
  const Unknown: int := -1

  /** A negative measurement on either channel marks the cycle invalid. */
  predicate InvalidReading(rmsA: real, rmsV: real)
  {
    rmsA < 0.0 || rmsV < 0.0
  }

  /** The indicator state a valid cycle leaves, and whether it differs from
      the previous one (which is when the source logs). */
  function Indicate(lastState: int, trip: bool): (r: (int, bool))
    ensures r.0 == 0 || r.0 == 1
    ensures r.0 == 1 <==> trip
    ensures r.1 <==> lastState != r.0
  {
    var state := if trip then 1 else 0;
    (state, lastState != state)
  }

  /** The first valid cycle always logs, and a cycle repeating the previous
      decision never does. */
  lemma LogOnTransitionOnly(trip: bool, again: bool)
    ensures Indicate(Unknown, trip).1
    ensures !Indicate(Indicate(Unknown, trip).0, trip).1
    ensures Indicate(Indicate(Unknown, trip).0, again).1 <==> again != trip
  {
  }

  /** The entry logged on a transition. */
  function Indication(stamp: string, trip: bool): Entry
  {
    if trip then MakeEntry(stamp, Some("TRIP_ON"), Some("breaker -> RED (déclenchement)"))
    else MakeEntry(stamp, Some("TRIP_OFF"), Some("breaker -> GREEN (normal)"))
  }

  /** The globals of src/main.c and the module state the tasks share. */
  class Relay {
    var chA: Channel
    var chV: Channel
    var wd: Watchdog
    var cfg: Config.Config
    var log: Ring
    var flag: ReloadFlag
    var lastState: int
    /** The values passed to `bts_set_state`, oldest first. */
    var commands: seq<int>
    /** The values passed to `mms_send`, oldest first. */
    var alerts: seq<real>

    ghost predicate Valid()
      reads this, wd, cfg, log, log.slots
    {
      chA != chV && wd.Valid() && cfg.Valid() && log.Valid()
    }

    /** Start-up as `main` does it: load the configuration (or keep the
        clamped defaults when the file cannot be opened), initialise both
        channels from it, and start the watchdog with the default timeout
        at clock reading `now`. */
    constructor (file: Option<seq<string>>, p: Config.NumberParser, now: Timespec)
      ensures Valid()
      ensures cfg.Snapshot() ==
              Config.Clamp(if file.None? then Config.Defaults() else Config.ApplyLines(Config.Defaults(), file.value, p))
      ensures chA.State() == Fresh(cfg.thrA, cfg.tmsA) && chV.State() == Fresh(cfg.thrV, cfg.tmsV)
      ensures wd.timeoutMs == DefaultTimeoutMs && wd.lastKick == now && !wd.fault
      ensures lastState == Unknown && commands == [] && alerts == []
      ensures log.Contents == [] && !flag.raised
    {
      var c := new Config.Config();
      var _ := c.Load(file, p);
      var a := new Channel(c.ThresholdA(), c.TmsAMs());
      var v := new Channel(c.ThresholdV(), c.TmsVMs());
      var w := new Watchdog();
      var _ := w.Init(DefaultTimeoutMs, now);
      var l := new Ring();
      var f := new ReloadFlag();
      cfg, chA, chV, wd, log, flag := c, a, v, w, l, f;
      lastState, commands, alerts := Unknown, [], [];
    }

    /** `task_protection` with measurements `rmsA` and `rmsV`.  `nowA` and
        `nowV` are the clock readings of the two channel evaluations,
        `kickAt` that of the watchdog kick, `stamp` the time stamp of a
        log entry. */
    method TaskProtection(rmsA: real, rmsV: real, nowA: Timespec, nowV: Timespec, kickAt: Timespec, stamp: string)
      requires Valid()
      modifies this`lastState, this`commands, this`alerts, chA, chV, wd`lastKick, log, log.slots
      ensures Valid()
      ensures wd.lastKick == kickAt
      ensures InvalidReading(rmsA, rmsV) ==>
                && chA.State() == old(chA.State()).(invalid := true)
                && chV.State() == old(chV.State()).(invalid := true)
                && lastState == old(lastState) && commands == old(commands) && alerts == old(alerts)
                && log.Contents == old(log.Contents)
      ensures !InvalidReading(rmsA, rmsV) ==>
                var (sa, tripA) := Step(old(chA.State()).(invalid := false), rmsA, nowA);
                var (sv, tripV) := Step(old(chV.State()).(invalid := false), rmsV, nowV);
                var (state, changed) := Indicate(old(lastState), tripA || tripV);
                && chA.State() == sa && chV.State() == sv
                && lastState == state && commands == old(commands) + [state]
                && alerts == old(alerts) + (if tripA || tripV then [rmsA] else [])
                && log.Contents == (if changed then Keep(old(log.Contents), Indication(stamp, tripA || tripV))
                                    else old(log.Contents))
    {
      if rmsA < 0.0 || rmsV < 0.0 {
        chA.SetInvalid(1);
        chV.SetInvalid(1);
        wd.Kick(kickAt);
        return;
      }
      chA.SetInvalid(0);
      chV.SetInvalid(0);
      var tripA := chA.CheckWithTms(rmsA, nowA);
      var tripV := chV.CheckWithTms(rmsV, nowV);
      Signal(tripA || tripV, rmsA, stamp);
      wd.Kick(kickAt);
    }

    /** The decision half of `task_protection`: the actuator command, the
        log entry on a transition, and the alert carrying `rmsA` on every
        tripping cycle. */
    method Signal(trip: bool, rmsA: real, stamp: string)
      requires log.Valid()
      modifies this`lastState, this`commands, this`alerts, log, log.slots
      ensures log.Valid()
      ensures var (state, changed) := Indicate(old(lastState), trip);
                && lastState == state && commands == old(commands) + [state]
                && alerts == old(alerts) + (if trip then [rmsA] else [])
                && log.Contents == (if changed then Keep(old(log.Contents), Indication(stamp, trip))
                                    else old(log.Contents))
    {
      if trip {
        commands := commands + [1];
        if lastState != 1 {
          log.Append(stamp, Some("TRIP_ON"), Some("breaker -> RED (déclenchement)"));
          lastState := 1;
        }
        alerts := alerts + [rmsA];
      } else {
        commands := commands + [0];
        if lastState != 0 {
          log.Append(stamp, Some("TRIP_OFF"), Some("breaker -> GREEN (normal)"));
          lastState := 0;
        }
      }
    }

    /** `task_reload_config`: nothing unless the reload flag is raised;
        then the configuration is reloaded from `file`, and when that
        succeeds both channels are re-initialised from it and
        `CONFIG_APPLIED` is logged with the `summary` text; the flag is
        cleared either way. */
    method TaskReloadConfig(file: Option<seq<string>>, p: Config.NumberParser, stamp: string, summary: string)
      requires Valid()
      modifies cfg, chA, chV, log, log.slots, flag
      ensures Valid()
      ensures !flag.raised
      ensures !old(flag.raised) ==>
                && cfg.Snapshot() == old(cfg.Snapshot())
                && chA.State() == old(chA.State()) && chV.State() == old(chV.State())
                && log.Contents == old(log.Contents)
      ensures old(flag.raised) ==>
                cfg.Snapshot() ==
                Config.Clamp(if file.None? then old(cfg.Snapshot()) else Config.ApplyLines(old(cfg.Snapshot()), file.value, p))
      ensures old(flag.raised) && file.None? ==>
                && chA.State() == old(chA.State()) && chV.State() == old(chV.State())
                && log.Contents == old(log.Contents)
      ensures old(flag.raised) && file.Some? ==>
                && chA.State() == Fresh(cfg.thrA, cfg.tmsA) && chV.State() == Fresh(cfg.thrV, cfg.tmsV)
                && log.Contents == Keep(old(log.Contents), MakeEntry(stamp, Some("CONFIG_APPLIED"), Some(summary)))
    {
      if flag.NeedReload() {
        var rc := cfg.Load(file, p);
        if rc == 0 {
          chA.Init(cfg.ThresholdA(), cfg.TmsAMs());
          chV.Init(cfg.ThresholdV(), cfg.TmsVMs());
          log.Append(stamp, Some("CONFIG_APPLIED"), Some(summary));
        }
        flag.Clear();
      }
    }

    /** `task_watchdog` at clock reading `now`: the watchdog check, whose
        report is only printed. */
    method TaskWatchdog(now: Timespec) returns (faulty: bool)
      requires Valid()
      modifies wd`fault
      ensures Valid()
      ensures faulty <==> Overdue(wd.lastKick, now, wd.timeoutMs)
      ensures wd.fault == faulty
    {
      faulty := wd.Check(now);
    }
  }

  /** The task registration of `main`: an eight-slot scheduler started at
      `now` holding protection every 100 ms, then reload and watchdog every
      500 ms, none with an offset. */
  method RegisterTasks(now: Timespec) returns (sch: Scheduler)
    ensures fresh(sch) && fresh(sch.tasks) && sch.Valid()
    ensures sch.maxTasks == 8 && sch.count == 3 && sch.startTs == now
    ensures sch.tasks[..3] == [Task(ProtectionTask, 100, 0, now, false),
                               Task(ReloadTask, 500, 0, now, false),
                               Task(WatchdogTask, 500, 0, now, false)]
  {
    var buf := new Task[8](_ => Task(0, 0, 0, Timespec(0, 0), false));
    sch := new Scheduler(buf, 8, now);
    var _ := sch.AddTask(ProtectionTask, 100, 0);
    var _ := sch.AddTask(ReloadTask, 500, 0);
    var _ := sch.AddTask(WatchdogTask, 500, 0);
  }

  /** With no offsets, the first pass of the scheduler at or after start-up
      runs all three tasks, in registration order. */
  lemma FirstPassRunsAll(now: Timespec, start: Timespec)
    requires DiffMs(now, start) >= 0
    ensures RunOrder([Task(ProtectionTask, 100, 0, start, false),
                      Task(ReloadTask, 500, 0, start, false),
                      Task(WatchdogTask, 500, 0, start, false)], now, start) == [0, 1, 2]
  {
    var ts := [Task(ProtectionTask, 100, 0, start, false),
               Task(ReloadTask, 500, 0, start, false),
               Task(WatchdogTask, 500, 0, start, false)];
    assert ts[..1][..0] == [];
    assert RunOrder(ts[..1], now, start) == [0];
    assert ts[..2][..1] == ts[..1];
    assert RunOrder(ts[..2], now, start) == [0, 1];
    assert ts[..3][..2] == ts[..2];
  }
}
