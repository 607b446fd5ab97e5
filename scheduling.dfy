/**
 * The cooperative periodic scheduler (src/scheduler.c, src/scheduler.h): a
 * fixed-capacity task array, a one-shot initial offset per task, then
 * inclusive period checks in registration order.  The callback and its
 * context pointer are abstracted to a task identifier; running a task is
 * reported by listing its index.
 */
module Scheduling {
  import opened Timing

  /** Names the callback/context pair of a task. */
  type TaskId = nat

  /** An `aps_task_t`.  Period and offset are `uint32_t` in C. */
  datatype Task = Task(fn: TaskId, periodMs: nat, offsetMs: nat, lastTs: Timespec, offsetApplied: bool)

  /** Whether one pass of the `aps_run` loop body runs task `t`, the pass
      having read the clock as `now`. */
  predicate Due(t: Task, now: Timespec, start: Timespec)
  {
    if !t.offsetApplied then t.offsetMs <= DiffMs(now, start)
    else t.periodMs <= DiffMs(now, t.lastTs)
  }

  /** The task record after one pass.  `reading` is the fresh clock reading
      the loop takes after a periodic run. */
  function Advance(t: Task, now: Timespec, start: Timespec, reading: Timespec): Task
  {
    if !t.offsetApplied then
      (if t.offsetMs <= DiffMs(now, start) then t.(lastTs := now, offsetApplied := true) else t)
    else if t.periodMs <= DiffMs(now, t.lastTs) then t.(lastTs := reading)
    else t
  }

  /** The indices of the tasks of `ts` that one pass runs, in the order it runs them. */
  function RunOrder(ts: seq<Task>, now: Timespec, start: Timespec): seq<nat>
    decreases |ts|
  {
    if ts == [] then []
    else RunOrder(ts[..|ts| - 1], now, start) + (if Due(ts[|ts| - 1], now, start) then [|ts| - 1] else [])
  }

  /** A pass runs exactly the due tasks, in strictly increasing index order,
      so each task runs at most once per pass and in registration order. */
  lemma {:induction false} RunOrderIsDueTasksInOrder(ts: seq<Task>, now: Timespec, start: Timespec)
    ensures forall k: nat :: k in RunOrder(ts, now, start) <==> k < |ts| && Due(ts[k], now, start)
    ensures forall i, j :: 0 <= i < j < |RunOrder(ts, now, start)| ==>
              RunOrder(ts, now, start)[i] < RunOrder(ts, now, start)[j]
    decreases |ts|
  {
    if ts != [] {
      var n := |ts| - 1;
      var init := ts[..n];
      RunOrderIsDueTasksInOrder(init, now, start);
      var ri := RunOrder(init, now, start);
      var last := if Due(ts[n], now, start) then [n] else [];
      var r := ri + last;
      assert RunOrder(ts, now, start) == r;
      forall k: nat
        ensures k in r <==> k < |ts| && Due(ts[k], now, start)
      {
        if k < n {
          assert init[k] == ts[k];
        }
      }
      forall i, j | 0 <= i < j < |r|
        ensures r[i] < r[j]
      {
        if j >= |ri| {
          assert r[i] == ri[i] && ri[i] in ri;
        }
      }
    }
  }

  /** The offset is consumed exactly once: a pass never un-consumes it, it
      consumes it exactly when the offset has elapsed since start, and the
      consuming run sets the last run time to the pass's clock reading. */
  lemma OffsetConsumedOnce(t: Task, now: Timespec, start: Timespec, reading: Timespec)
    ensures t.offsetApplied ==> Advance(t, now, start, reading).offsetApplied
    ensures !t.offsetApplied ==>
              (Advance(t, now, start, reading).offsetApplied <==> Due(t, now, start))
    ensures !t.offsetApplied && Due(t, now, start) ==> Advance(t, now, start, reading).lastTs == now
    ensures !Due(t, now, start) ==> Advance(t, now, start, reading) == t
  {
  }

  /** Every run a pass makes records a time no earlier than the pass's
      clock reading, given a clock that does not go backwards (the offset
      run records the reading itself, a periodic run the fresh one), and
      leaves the offset consumed. */
  lemma RunNotBeforeNow(t: Task, now: Timespec, start: Timespec, reading: Timespec)
    requires Due(t, now, start)
    requires DiffMs(reading, now) >= 0
    ensures DiffMs(Advance(t, now, start, reading).lastTs, now) >= 0
    ensures Advance(t, now, start, reading).offsetApplied
  {
    if !t.offsetApplied {
      DiffMsSelf(now);
    }
  }

  /** After a run, the period restarts from the recorded time: the task is
      due at a later pass exactly when a full period has passed since then. */
  lemma PeriodRestartsAtRun(t: Task, now: Timespec, start: Timespec, reading: Timespec, later: Timespec)
    requires Due(t, now, start)
    ensures var u := Advance(t, now, start, reading);
              Due(u, later, start) <==> t.periodMs <= DiffMs(later, u.lastTs)
  {
  }

  /** An `aps_scheduler_t` together with the task buffer it points to. */
  class Scheduler {
    var tasks: array<Task>
    var maxTasks: int
    var count: int
    var startTs: Timespec

    ghost predicate Valid()
      reads this
    {
      0 <= count <= maxTasks <= tasks.Length
    }

    /** `aps_init`: adopts the buffer and capacity, no tasks, start time now. */
    constructor (buf: array<Task>, maxTasks: int, now: Timespec)
      requires 0 <= maxTasks <= buf.Length
      ensures Valid()
      ensures tasks == buf && this.maxTasks == maxTasks && count == 0 && startTs == now
    {
      tasks := buf;
      this.maxTasks := maxTasks;
      count := 0;
      startTs := now;
    }

    /** `aps_add_task`: 0 and a new task in slot `count`, or -1 and no change when full. */
    method AddTask(fn: TaskId, periodMs: nat, offsetMs: nat) returns (rc: int)
      requires Valid()
      modifies this`count, tasks
      ensures Valid()
      ensures rc == 0 || rc == -1
      ensures rc == -1 <==> old(count) >= maxTasks
      ensures rc == -1 ==> count == old(count) && tasks[..] == old(tasks[..])
      ensures rc == 0 ==> count == old(count) + 1 &&
                          tasks[..] == old(tasks[..])[old(count) := Task(fn, periodMs, offsetMs, startTs, false)]
    {
      if count >= maxTasks {
        return -1;
      }
      tasks[count] := Task(fn, periodMs, offsetMs, startTs, false);
      count := count + 1;
      return 0;
    }

    /** One pass of the `aps_run` loop body with clock reading `now`.
        `readings[i]` is the clock reading taken right after task `i` runs
        periodically.  Returns the indices of the tasks run, in order. */
    method Tick(now: Timespec, readings: seq<Timespec>) returns (ran: seq<nat>)
      requires Valid()
      requires |readings| >= count
      requires forall i :: 0 <= i < count ==> DiffMs(readings[i], now) >= 0
      modifies tasks
      ensures ran == RunOrder(old(tasks[..count]), now, startTs)
      ensures forall i :: 0 <= i < count ==> tasks[i] == Advance(old(tasks[i]), now, startTs, readings[i])
      ensures forall i :: 0 <= i < count && Due(old(tasks[i]), now, startTs) ==>
                tasks[i].offsetApplied && DiffMs(tasks[i].lastTs, now) >= 0
      ensures forall i :: count <= i < tasks.Length ==> tasks[i] == old(tasks[i])
    {
      ran := [];
      var i := 0;
      while i < count
        invariant 0 <= i <= count
        invariant ran == RunOrder(old(tasks[..count])[..i], now, startTs)
        invariant forall j :: 0 <= j < i ==> tasks[j] == Advance(old(tasks[j]), now, startTs, readings[j])
        invariant forall j :: i <= j < tasks.Length ==> tasks[j] == old(tasks[j])
      {
        var t := tasks[i];
        assert old(tasks[..count])[..i + 1][..i] == old(tasks[..count])[..i];
        if !t.offsetApplied {
          var sinceStart := DiffMs(now, startTs);
          if t.offsetMs <= sinceStart {
            ran := ran + [i];
            tasks[i] := t.(lastTs := now, offsetApplied := true);
          }
          i := i + 1;
          continue;
        }
        var sinceLast := DiffMs(now, t.lastTs);
        if t.periodMs <= sinceLast {
          ran := ran + [i];
          tasks[i] := t.(lastTs := readings[i]);
        }
        i := i + 1;
      }
      assert old(tasks[..count])[..count] == old(tasks[..count]);
      forall j | 0 <= j < count && Due(old(tasks[j]), now, startTs)
        ensures tasks[j].offsetApplied && DiffMs(tasks[j].lastTs, now) >= 0
      {
        RunNotBeforeNow(old(tasks[j]), now, startTs, readings[j]);
      }
    }
  }
}
