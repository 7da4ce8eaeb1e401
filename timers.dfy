/** The shared countdown timers of the timer provider: the one-second tick
    applied to every timer, the completion alerts it raises, and the two
    aggregates derived from the list. */
module Timers {
  import opened Lists

  datatype Status = Running | Paused | Stopped
  datatype Priority = Critical | Warning | Active

  datatype ActiveTimer = ActiveTimer(
    id: string,
    name: string,
    totalSeconds: int,
    remainingSeconds: int,
    status: Status,
    priority: Priority,
    emoji: string)

  /** The alert the tick shows for a timer that reaches zero. */
  datatype Alert = Alert(title: string, message: string)

  /** The timers the tick decrements: running, with time left. */
  predicate Advances(t: ActiveTimer)
  {
    t.status == Running && t.remainingSeconds > 0
  }

  function Max(a: int, b: int): int { if a >= b then a else b }

  /** One timer after one tick. */
  function Step(t: ActiveTimer): ActiveTimer
  {
    if Advances(t) then t.(remainingSeconds := Max(0, t.remainingSeconds - 1)) else t
  }

  /** The timers whose decremented time is exactly zero on this tick. */
  predicate Completes(t: ActiveTimer)
  {
    Advances(t) && t.remainingSeconds - 1 == 0
  }

  /** The whole list after one tick: every timer stepped, in place. */
  function TickTimers(ts: seq<ActiveTimer>): (r: seq<ActiveTimer>)
    ensures |r| == |ts|
    ensures forall i :: 0 <= i < |ts| ==> r[i] == Step(ts[i])
    decreases |ts|
  {
    if ts == [] then [] else [Step(ts[0])] + TickTimers(ts[1..])
  }

  /** The timers that finish on this tick, after the tick, in list order. */
  function Finished(ts: seq<ActiveTimer>): seq<ActiveTimer>
    decreases |ts|
  {
    if ts == [] then []
    else (if Completes(ts[0]) then [Step(ts[0])] else []) + Finished(ts[1..])
  }

  function FinishAlert(t: ActiveTimer): Alert
  {
    Alert("Timer Finished!", t.name + " is done!")
  }

  /** The finished list is the list of completing timers, in list order and
      each exactly once, every one after its tick. */
  lemma {:induction false} FinishedIsFilter(ts: seq<ActiveTimer>)
    ensures |Finished(ts)| == |Filter(ts, Completes)|
    ensures forall k :: 0 <= k < |Finished(ts)| ==> Finished(ts)[k] == Step(Filter(ts, Completes)[k])
    decreases |ts|
  {
    if ts != [] {
      FinishedIsFilter(ts[1..]);
    }
  }

  /** The alerts raised during one tick: exactly one per timer that completes
      on it, in list order, naming that timer. */
  function Alerts(ts: seq<ActiveTimer>): (r: seq<Alert>)
    ensures |r| == |Filter(ts, Completes)|
    ensures forall k :: 0 <= k < |r| ==> r[k] == FinishAlert(Filter(ts, Completes)[k])
  {
    FinishedIsFilter(ts);
    seq(|Finished(ts)|, i requires 0 <= i < |Finished(ts)| => FinishAlert(Finished(ts)[i]))
  }

  /** `n` consecutive ticks. */
  function TickN(ts: seq<ActiveTimer>, n: nat): (r: seq<ActiveTimer>)
    ensures |r| == |ts|
    decreases n
  {
    if n == 0 then ts else TickN(TickTimers(ts), n - 1)
  }

  function RunningTimersCount(ts: seq<ActiveTimer>): nat
  {
    |Filter(ts, (t: ActiveTimer) => t.status == Running)|
  }

  predicate HasActiveTimers(ts: seq<ActiveTimer>)
  {
    |ts| > 0
  }

  // ---------------------------------------------------------------------------
  // What one tick does to each timer
  // ---------------------------------------------------------------------------

  /** A running timer with time left loses exactly one second and never goes
      below zero; every other timer is left exactly as it was. */
  lemma TickDecrementsRunning(ts: seq<ActiveTimer>, i: int)
    requires 0 <= i < |ts|
    ensures Advances(ts[i]) ==> TickTimers(ts)[i].remainingSeconds == ts[i].remainingSeconds - 1
    ensures Advances(ts[i]) ==> TickTimers(ts)[i].remainingSeconds >= 0
    ensures !Advances(ts[i]) ==> TickTimers(ts)[i] == ts[i]
  {
  }

  /** A tick keeps the length, the order and every field other than
      remainingSeconds of every timer. */
  lemma TickKeepsIdentity(ts: seq<ActiveTimer>, i: int)
    requires 0 <= i < |ts|
    ensures var t := TickTimers(ts)[i];
      t.id == ts[i].id && t.name == ts[i].name && t.totalSeconds == ts[i].totalSeconds
      && t.status == ts[i].status && t.priority == ts[i].priority && t.emoji == ts[i].emoji
  {
  }

  /** A timer completes on a tick exactly when it is running with one second left. */
  lemma CompletesIff(t: ActiveTimer)
    ensures Completes(t) <==> t.status == Running && t.remainingSeconds == 1
    ensures Completes(t) ==> Step(t).remainingSeconds == 0
  {
  }

  /** The finished list holds, in order, exactly the ticked versions of the
      timers that complete on this tick. */
  lemma {:induction false} FinishedExactly(ts: seq<ActiveTimer>)
    ensures forall x :: x in Finished(ts) ==>
              exists i :: 0 <= i < |ts| && Completes(ts[i]) && x == TickTimers(ts)[i]
    ensures forall i :: 0 <= i < |ts| && Completes(ts[i]) ==> TickTimers(ts)[i] in Finished(ts)
    ensures forall x :: x in Finished(ts) ==> x.remainingSeconds == 0
    decreases |ts|
  {
    if ts != [] {
      FinishedExactly(ts[1..]);
      var r, rest := TickTimers(ts), TickTimers(ts[1..]);
      assert forall i :: 0 <= i < |rest| ==> rest[i] == r[i + 1];
      forall x | x in Finished(ts)
        ensures exists i :: 0 <= i < |ts| && Completes(ts[i]) && x == r[i]
      {
        if Completes(ts[0]) && x == Step(ts[0]) {
          assert x == r[0];
        } else {
          assert x in Finished(ts[1..]);
          var j :| 0 <= j < |ts[1..]| && Completes(ts[1..][j]) && x == rest[j];
          assert Completes(ts[j + 1]) && x == r[j + 1];
        }
      }
      forall i | 0 <= i < |ts| && Completes(ts[i]) ensures r[i] in Finished(ts) {
        if i > 0 {
          assert Completes(ts[1..][i - 1]);
          assert r[i] == rest[i - 1];
        }
      }
    }
  }

  /** A timer at zero, or not running, raises nothing and is unchanged by a tick. */
  lemma IdleTimerRaisesNothing(t: ActiveTimer)
    requires t.remainingSeconds <= 0 || t.status != Running
    ensures !Completes(t) && Step(t) == t
  {
  }

  /** Completion happens once: a timer that finishes on a tick stays at zero
      and finishes on none of any number of further ticks. */
  lemma {:induction false} CompletionIsOnce(ts: seq<ActiveTimer>, i: int, n: nat)
    requires 0 <= i < |ts| && Completes(ts[i])
    ensures TickN(TickTimers(ts), n)[i].remainingSeconds == 0
    ensures !Completes(TickN(TickTimers(ts), n)[i])
    decreases n
  {
    if n > 0 {
      var once := TickTimers(ts);
      assert once[i].remainingSeconds == 0;
      var twice := TickTimers(once);
      assert twice[i] == once[i];
      CompletionStaysDone(once, i, n);
    }
  }

  /** A timer at zero stays at zero on every further tick. */
  lemma {:induction false} CompletionStaysDone(ts: seq<ActiveTimer>, i: int, n: nat)
    requires 0 <= i < |ts| && ts[i].remainingSeconds == 0
    ensures TickN(ts, n)[i] == ts[i]
    decreases n
  {
    if n > 0 {
      assert TickTimers(ts)[i] == ts[i];
      CompletionStaysDone(TickTimers(ts), i, n - 1);
    }
  }

  // ---------------------------------------------------------------------------
  // Derived aggregates
  // ---------------------------------------------------------------------------

  /** The running count is the number of running timers: at most the list
      length, zero exactly when no timer runs, the length exactly when all do. */
  lemma {:induction false} RunningCountBounds(ts: seq<ActiveTimer>)
    ensures RunningTimersCount(ts) <= |ts|
    ensures RunningTimersCount(ts) == 0 <==> forall i :: 0 <= i < |ts| ==> ts[i].status != Running
    ensures RunningTimersCount(ts) == |ts| <==> forall i :: 0 <= i < |ts| ==> ts[i].status == Running
    decreases |ts|
  {
    if ts != [] {
      RunningCountBounds(ts[1..]);
      var rest := ts[1..];
      assert RunningTimersCount(ts) == (if ts[0].status == Running then 1 else 0) + RunningTimersCount(rest);
      assert forall i :: 1 <= i < |ts| ==> ts[i] == rest[i - 1];
    }
  }

  /** A tick never changes a status, so it keeps the running count. */
  lemma {:induction false} TickKeepsRunningCount(ts: seq<ActiveTimer>)
    ensures RunningTimersCount(TickTimers(ts)) == RunningTimersCount(ts)
    decreases |ts|
  {
    if ts != [] {
      TickKeepsRunningCount(ts[1..]);
      assert TickTimers(ts)[1..] == TickTimers(ts[1..]);
    }
  }

  /** The list has active timers exactly when it is non-empty, whatever their status. */
  lemma HasActiveTimersIff(ts: seq<ActiveTimer>)
    ensures HasActiveTimers(ts) <==> ts != []
    ensures HasActiveTimers(TickTimers(ts)) == HasActiveTimers(ts)
  {
  }

  /** The provider's state: the shared timer list that any screen may replace
      and the one-second interval rewrites. */
  class TimerProvider {
    var activeTimers: seq<ActiveTimer>

    constructor ()
      ensures activeTimers == []
    {
      activeTimers := [];
    }

    function RunningCount(): (n: nat)
      reads this
      ensures n <= |activeTimers|
      ensures n == RunningTimersCount(activeTimers)
    {
      RunningCountBounds(activeTimers);
      RunningTimersCount(activeTimers)
    }

    predicate HasActive()
      reads this
      ensures HasActive() <==> activeTimers != []
    {
      HasActiveTimers(activeTimers)
    }

    /** `setActiveTimers(value)`. */
    method SetActiveTimers(timers: seq<ActiveTimer>)
      modifies this
      ensures activeTimers == timers
    {
      activeTimers := timers;
    }

    /** `setActiveTimers(prev => update(prev))`. */
    method UpdateActiveTimers(update: seq<ActiveTimer> -> seq<ActiveTimer>)
      modifies this
      ensures activeTimers == update(old(activeTimers))
    {
      activeTimers := update(activeTimers);
    }

    /** The interval callback: every timer ticks and the alerts of the timers
        that finish are returned in list order. */
    method OnInterval() returns (alerts: seq<Alert>)
      modifies this
      ensures activeTimers == TickTimers(old(activeTimers))
      ensures alerts == Alerts(old(activeTimers))
      ensures RunningTimersCount(activeTimers) == RunningTimersCount(old(activeTimers))
      ensures HasActiveTimers(activeTimers) == HasActiveTimers(old(activeTimers))
    {
      alerts := Alerts(activeTimers);
      TickKeepsRunningCount(activeTimers);
      activeTimers := TickTimers(activeTimers);
    }
  }
}
