/** The secret-scan scheduler (agent/bench.go).

    Tasks wait in a queue. A ticker-driven pass starts them while workers are free,
    ticking fast while there is work and slowly otherwise; each worker that finishes is
    acknowledged by the same loop. Every method below is one critical section. */
module TaskScanner {
  import opened Sequences

  const SCAN_TIMER_SLOW: nat := 5
  const SCAN_TIMER_FAST: nat := 1

  datatype Event<T> = Add(task: T) | Tick | Done

  class Scanner<T> {
    const maxWorkers: nat
    var queue: seq<T>
    var curWorkers: nat
    var caseDone: nat
    var scanTicks: nat
    var timerSetting: nat

    // what has happened so far
    ghost var added: seq<T>
    ghost var started: seq<T>
    ghost var acknowledged: nat
    ghost var busySince: nat

    /** Tasks start in the order they were added, each once; the worker count is the number of
        tasks started and not acknowledged and never exceeds its limit; the timer is slow only when
        idle; and while it is fast `caseDone` counts the tasks finished since it became fast. */
    ghost predicate Valid()
      reads this
    {
      && added == started + queue
      && curWorkers + acknowledged == |started| && curWorkers <= maxWorkers
      && (timerSetting == SCAN_TIMER_SLOW || timerSetting == SCAN_TIMER_FAST)
      && scanTicks < timerSetting
      && (timerSetting == SCAN_TIMER_SLOW ==> curWorkers == 0)
      && (timerSetting == SCAN_TIMER_FAST ==> maxWorkers > 0 && busySince + caseDone + curWorkers == |started|)
    }

    constructor (maxWorkers: nat)
      ensures Valid() && added == [] && this.maxWorkers == maxWorkers
    {
      this.maxWorkers := maxWorkers;
      queue, curWorkers, caseDone, scanTicks, timerSetting := [], 0, 0, 0, SCAN_TIMER_SLOW;
      added, started, acknowledged, busySince := [], [], 0, 0;
    }

    method AddScanTask(task: T)
      requires Valid()
      modifies this`queue, this`added
      ensures Valid() && added == old(added) + [task]
    {
      queue := queue + [task];
      added := added + [task];
    }

    /** Starts tasks from the head of the queue, one for each free worker. */
    method NextScanTasks() returns (bAdded: bool)
      requires added == started + queue && curWorkers + acknowledged == |started| && curWorkers <= maxWorkers
      modifies this`queue, this`curWorkers, this`started
      ensures added == started + queue && curWorkers + acknowledged == |started| && curWorkers <= maxWorkers
      ensures queue == [] || curWorkers == maxWorkers
      ensures curWorkers - old(curWorkers) == |started| - |old(started)| >= 0 && old(started) <= started
      ensures bAdded <==> curWorkers > old(curWorkers)
    {
      bAdded := false;
      for i := 0 to maxWorkers
        invariant added == started + queue && curWorkers + acknowledged == |started| && curWorkers <= maxWorkers
        invariant curWorkers == old(curWorkers) + i && |started| == |old(started)| + i && old(started) <= started
        invariant bAdded <==> i > 0
      {
        if curWorkers >= maxWorkers || |queue| == 0 {
          return;
        }
        var task := queue[0];
        if |queue| > 1 {
          queue := queue[1..];
        } else {
          queue := [];
        }
        bAdded := true;
        curWorkers := curWorkers + 1;
        started := started + [task];
      }
    }

    /** Every setting's worth of ticks a pass runs. The count reported at the end of a busy period,
        returned here, is the number of tasks started in it. */
    method OnTick() returns (pass: bool, finished: nat)
      requires Valid()
      modifies this`queue, this`curWorkers, this`started, this`caseDone, this`scanTicks, this`timerSetting, this`busySince
      ensures Valid()
      ensures pass <==> old(scanTicks) + 1 >= old(timerSetting)
      ensures pass ==> queue == [] || curWorkers == maxWorkers
      ensures !pass ==> queue == old(queue) && curWorkers == old(curWorkers)
      ensures old(timerSetting) == SCAN_TIMER_FAST && timerSetting == SCAN_TIMER_SLOW ==>
                pass && queue == [] && finished == |started| - old(busySince)
      ensures pass && old(queue) != [] && maxWorkers > 0 && old(curWorkers) < maxWorkers ==> timerSetting == SCAN_TIMER_FAST
    {
      scanTicks := scanTicks + 1;
      finished := 0;
      pass := scanTicks >= timerSetting;
      if pass {
        scanTicks := 0;
        ghost var before := |started|;
        var bAdded := NextScanTasks();
        if bAdded {
          if timerSetting == SCAN_TIMER_SLOW {
            caseDone, busySince := 0, before;
            timerSetting := SCAN_TIMER_FAST;
          }
        } else if timerSetting == SCAN_TIMER_FAST && curWorkers == 0 {
          finished := caseDone;
          timerSetting := SCAN_TIMER_SLOW;
        }
      }
    }

    /** A worker that has finished its task is acknowledged. */
    method OnDone()
      requires Valid() && curWorkers > 0
      modifies this`curWorkers, this`caseDone, this`acknowledged
      ensures Valid() && acknowledged == old(acknowledged) + 1
    {
      curWorkers := curWorkers - 1;
      caseDone := caseDone + 1;
      acknowledged := acknowledged + 1;
    }
  }

  function Tasks<T>(events: seq<Event<T>>): seq<T> {
    if events == [] then []
    else if events[|events| - 1].Add? then Tasks(events[..|events| - 1]) + [events[|events| - 1].task]
    else Tasks(events[..|events| - 1])
  }

  function Additions<T>(events: seq<Event<T>>): nat -> bool { (i: nat) => i < |events| && events[i].Add? }

  /** They are those of the additions, in the order of these. */
  lemma {:induction false} TasksInOrder<T>(events: seq<Event<T>>, n: nat)
    requires n <= |events|
    ensures var at := PlacesOf(n, Additions(events));
            && |Tasks(events[..n])| == |at|
            && forall i :: 0 <= i < |at| ==> at[i] < |events| && events[at[i]].Add? && Tasks(events[..n])[i] == events[at[i]].task
  {
    if n > 0 {
      TasksInOrder(events, n - 1);
      assert events[..n][..n - 1] == events[..n - 1];
    }
  }

  /** Any sequence of additions, ticks and completions: tasks start in the order added, each once. */
  method Drive<T>(maxWorkers: nat, events: seq<Event<T>>) returns (scanner: Scanner<T>)
    ensures fresh(scanner) && scanner.Valid() && scanner.maxWorkers == maxWorkers
    ensures scanner.started + scanner.queue == Tasks(events)
    ensures 0 <= scanner.curWorkers == |scanner.started| - scanner.acknowledged <= maxWorkers
  {
    scanner := new Scanner<T>(maxWorkers);
    for i := 0 to |events|
      invariant fresh(scanner) && scanner.Valid() && scanner.maxWorkers == maxWorkers
      invariant scanner.added == Tasks(events[..i])
    {
      assert events[..i + 1][..i] == events[..i];
      match events[i]
      case Add(task) => scanner.AddScanTask(task);
      case Tick => var _, _ := scanner.OnTick();
      case Done =>
        if scanner.curWorkers > 0 {
          scanner.OnDone();
        }
    }
    assert events[..|events|] == events;
  }
}
