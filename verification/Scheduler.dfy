/** The globals and records of src/pthr_pseudothread.c updated in place.  The object keeps the invariant of
    LifecycleProofs; what a step relies on, such as current_pth being set or a thread being suspended, follows
    from it. */
module Schedulers {
  import opened Common
  import opened Lifecycle
  import opened LifecycleProofs
  import opened LifecycleEffects

  class Scheduler {
    var running: Ctx
    var current: Option<Tid>
    var mainStart: Option<Option<Tid>>
    var threads: map<Tid, Thread>
    var handles: map<nat, Tid>
    var timers: map<nat, Timer>
    var asleep: multiset<Tid>
    var woken: multiset<Tid>
    var aborted: bool
    ghost var broken: bool

    ghost function View(): State
      reads this
    {
      State(running, current, mainStart, threads, handles, timers, asleep, woken, aborted, broken)
    }

    ghost predicate Valid()
      reads this
    {
      Inv(View())
    }

    constructor ()
      ensures Valid() && View() == INIT
    {
      running, current, mainStart := Reactor, None, None;
      threads, handles, timers := map[], map[], map[];
      asleep, woken, aborted, broken := multiset{}, multiset{}, false, false;
      new;
      InitOk();
    }

    // ----- context switches

    /** Where a switch to context `c` comes out. */
    method Return(c: Ctx)
      modifies this
      ensures View() == Land(old(View()), c)
    {
      match c {
        case Reactor =>
          if mainStart.Some? {
            current := mainStart.value;
          }
          running, mainStart := Reactor, None;
        case Code(u) =>
          if u in threads && threads[u].status.InStart? {
            running := c;
            current := threads[u].status.oldPth;
            threads := threads[u := threads[u].(status := Running)];
          } else {
            broken := true;
          }
      }
    }

    method SwitchThreadToCalling(wait: Wait)
      requires current.Some? && current.value in threads
      modifies this
      ensures View() == SwitchAway(old(View()), wait)
    {
      var t := current.value;
      var calling := threads[t].callingCtx;
      threads := threads[t := threads[t].(status := Suspended(wait), threadCtx := running)];
      Return(calling);
    }

    method SwitchCallingToThread(t: Tid)
      requires t in threads && threads[t].status.Suspended?
      modifies this`running, this`current, this`threads
      ensures View() == SwitchInto(old(View()), t)
    {
      current := Some(t);
      threads := threads[t := threads[t].(status := Running, callingCtx := running)];
      running := threads[t].threadCtx;
    }

    /** pth_exit and the rest of thread_trampoline. */
    method EndThread()
      requires current.Some? && current.value in threads
      modifies this
      ensures View() == ExitThread(old(View()))
    {
      var t := current.value;
      var calling := threads[t].callingCtx;
      threads := threads[t := threads[t].(status := Dead)];
      timers := map i | i in timers && timers[i].t != t :: timers[i];
      Return(calling);
    }

    // ----- before the switch

    /** The registrations of _poll, one by one. */
    method RegisterHandles(hs: seq<nat>, t: Tid)
      modifies this`handles
      ensures handles == old(handles) + Naming((set h | h in hs), t)
    {
      var i := 0;
      while i < |hs|
        invariant i <= |hs|
        invariant handles == old(handles) + Naming((set h | h in hs[..i]), t)
      {
        handles := handles[hs[i] := t];
        assert hs[..i + 1] == hs[..i] + [hs[i]];
        i := i + 1;
      }
      assert hs[..i] == hs;
    }

    /** _poll: the handles, then the timer. */
    method RegisterPoll(hs: seq<nat>, timeout: Option<nat>)
      requires current.Some?
      modifies this`handles, this`timers
      ensures View() == Register(old(View()), current.value, Polling(hs, timeout))
    {
      var t := current.value;
      RegisterHandles(hs, t);
      if timeout.Some? {
        timers := timers[timeout.value := Timer(PollTimer, t)];
      }
      assert timers == old(timers) + OwnTimer(Polling(hs, timeout), t);
      assert asleep == asleep + multiset{};
    }

    /** block registers a handle, _sleep a timer, and wq_sleep_on joins the sleepers list. */
    method RegisterOne(w: Wait)
      requires current.Some? && !w.Polling?
      modifies this`handles, this`timers, this`asleep
      ensures View() == Register(old(View()), current.value, w)
    {
      var t := current.value;
      match w {
        case Blocked(h) => handles := handles[h := t];
        case Sleeping(i) => timers := timers[i := Timer(SleepTimer, t)];
        case OnWaitQueue => asleep := asleep + multiset{t};
      }
      assert handles == old(handles) + Naming(HandlesOf(w), t);
      assert timers == old(timers) + OwnTimer(w, t);
      assert asleep == old(asleep) + Entry(w, t);
    }

    /** What a blocking call registers for current_pth. */
    method RegisterFor(w: Wait)
      requires current.Some?
      modifies this`handles, this`timers, this`asleep
      ensures View() == Register(old(View()), current.value, w)
    {
      match w {
        case Polling(hs, timeout) => RegisterPoll(hs, timeout);
        case _ => RegisterOne(w);
      }
    }

    // ----- after the switch back

    method Unregister(hs: seq<nat>)
      requires forall h :: h in hs ==> h in handles
      modifies this`handles
      ensures handles == old(handles) - (set h | h in hs)
    {
      var i := 0;
      while i < |hs|
        invariant i <= |hs|
        invariant handles == old(handles) - (set h | h in hs[..i])
      {
        handles := handles - {hs[i]};
        assert hs[..i + 1] == hs[..i] + [hs[i]];
        i := i + 1;
      }
      assert hs[..i] == hs;
    }

    method UnsetTimer(i: nat)
      modifies this`timers, this`broken
      ensures View() == Lifecycle.UnsetTimer(old(View()), i)
    {
      if i !in timers {
        broken := true;
      }
      timers := timers - {i};
    }

    /** wq_sleep_on looks for current_pth on the sleepers list. */
    method LeaveList()
      modifies this`asleep, this`aborted
      ensures View() == LeaveQueue(old(View()))
    {
      if current.Some? && current.value in asleep {
        asleep := asleep - multiset{current.value};
      } else {
        aborted := true;
      }
    }

    /** The tails of block, _sleep, _poll and wq_sleep_on, up to the test of the alarm. */
    method Tidy(w: Wait, timedOut: bool, alarm: bool)
      requires HandlesOf(w) <= handles.Keys
      modifies this`handles, this`timers, this`asleep, this`aborted, this`broken
      ensures View() == TidyUp(old(View()), w, timedOut, alarm)
    {
      match w {
        case Blocked(h) => Unregister([h]);
        case Sleeping(i) =>
          if alarm {
            UnsetTimer(i);
          }
        case Polling(hs, timeout) =>
          Unregister(hs);
          if timeout.Some? && !timedOut {
            UnsetTimer(timeout.value);
          }
        case OnWaitQueue =>
          if alarm {
            LeaveList();
          }
      }
    }

    /** The callbacks: switch into the thread, which tidies up, and exits if it got an alarm. */
    method ResumeThread(t: Tid, timedOut: bool)
      requires Waits(View(), t)
      modifies this
      ensures View() == ResumeIn(old(View()), t, timedOut)
    {
      var w, alarm := threads[t].status.wait, threads[t].alarmReceived;
      SwitchCallingToThread(t);
      Tidy(w, timedOut, alarm);
      if alarm && !aborted {
        EndThread();
      }
    }

    // ----- the steps

    /** One step, done in place: nothing was used that is not there; and unless a late alarm has aborted the
        process, the step has had its effect and the invariant is kept. */
    ghost predicate Did(s: State, step: Step)
      requires Enabled(s, step)
      reads this
    {
      && View() == Apply(s, step) && !broken
      && (aborted <==> LateAlarm(s, step)) && (!aborted ==> Valid() && Effect(s, step, View()))
    }

    method NewPseudothread(t: Tid)
      requires Valid() && Enabled(View(), New(t))
      modifies this`threads
      ensures Did(old(View()), New(t))
    {
      StepIsDone(View(), New(t));
      threads := threads[t := Thread(NotStarted, Code(t), Reactor, None, false)];
    }

    method PthStart(t: Tid)
      requires Valid() && Enabled(View(), Start(t))
      modifies this
      ensures Did(old(View()), Start(t))
    {
      StepIsDone(View(), Start(t));
      if running.Code? {
        CurrentIsRunning(View());
      }
      CallThread(t);
    }

    /** The switch in pth_start, with the caller's copy of current_pth kept. */
    method CallThread(t: Tid)
      requires t in threads && threads[t].status.NotStarted? && !broken
      requires running.Code? ==> running.t in threads && running.t != t
      modifies this
      ensures View() == StartThread(old(View()), t)
    {
      var oldPth := current;
      match running {
        case Reactor => mainStart := Some(oldPth);
        case Code(u) => threads := threads[u := threads[u].(status := InStart(oldPth))];
      }
      threads := threads[t := threads[t].(status := Running, callingCtx := running)];
      running := threads[t].threadCtx;
      current := Some(t);
    }

    method PthExit()
      requires Valid() && Enabled(View(), Exit)
      modifies this
      ensures Did(old(View()), Exit)
    {
      StepIsDone(View(), Exit);
      CurrentIsRunning(View());
      EndThread();
    }

    method PthTimeout(alarm: Option<nat>)
      requires Valid() && Enabled(View(), SetAlarm(alarm))
      modifies this
      ensures Did(old(View()), SetAlarm(alarm))
    {
      StepIsDone(View(), SetAlarm(alarm));
      CurrentIsRunning(View());
      ReplaceAlarm(alarm);
    }

    method ReplaceAlarm(alarm: Option<nat>)
      requires current.Some? && current.value in threads
      modifies this
      ensures View() == Timeout(old(View()), old(current.value), alarm)
    {
      var t := current.value;
      if threads[t].alarmTimer.Some? {
        UnsetTimer(threads[t].alarmTimer.value);
      }
      threads := threads[t := threads[t].(alarmTimer := alarm)];
      if alarm.Some? {
        timers := timers[alarm.value := Timer(AlarmTimer, t)];
      }
    }

    /** The step that a blocking call is, up to the switch. */
    static function StepOf(w: Wait): Step {
      match w
      case Blocked(h) => Block(h)
      case Sleeping(i) => Sleep(i)
      case Polling(hs, timeout) => Poll(hs, timeout)
      case OnWaitQueue => SleepOnQueue
    }

    /** block, _sleep, _poll and wq_sleep_on: register, then switch away. */
    method Suspend(w: Wait)
      requires Valid() && Enabled(View(), StepOf(w))
      modifies this
      ensures Did(old(View()), StepOf(w))
    {
      StepIsDone(View(), StepOf(w));
      CurrentIsRunning(View());
      RegisterFor(w);
      SwitchThreadToCalling(w);
    }

    /** wake_up moves a thread from the sleepers list to its private list. */
    method MoveToWakeList(t: Tid)
      requires Valid() && Enabled(View(), WakeUp(t))
      modifies this`asleep, this`woken
      ensures Did(old(View()), WakeUp(t))
    {
      StepIsDone(View(), WakeUp(t));
      asleep, woken := asleep - multiset{t}, woken + multiset{t};
    }

    /** do_wake_up: the next thread of the private list. */
    method ReturnFromQueue(t: Tid)
      requires Valid() && Enabled(View(), WakeFromQueue(t))
      modifies this
      ensures Did(old(View()), WakeFromQueue(t))
    {
      StepIsDone(View(), WakeFromQueue(t));
      ReactorFindsThemWaiting(View());
      woken := woken - multiset{t};
      ResumeThread(t, false);
    }

    /** return_from_block and return_from_poll. */
    method ReturnFromHandle(h: nat)
      requires Valid() && Enabled(View(), Dispatch(h))
      modifies this
      ensures Did(old(View()), Dispatch(h))
    {
      StepIsDone(View(), Dispatch(h));
      ReactorFindsThemWaiting(View());
      ResumeThread(handles[h], false);
    }

    /** return_from_sleep, return_from_poll_timeout and return_from_alarm. */
    method ReturnFromTimer(i: nat)
      requires Valid() && Enabled(View(), FireTimer(i))
      modifies this
      ensures Did(old(View()), FireTimer(i))
    {
      StepIsDone(View(), FireTimer(i));
      ReactorFindsThemWaiting(View());
      FireInPlace(i);
    }

    method FireInPlace(i: nat)
      requires i in timers && Waits(View(), timers[i].t)
      modifies this
      ensures View() == Fire(old(View()), i)
    {
      var Timer(kind, t) := timers[i];
      timers := timers - {i};
      if kind.AlarmTimer? {
        threads := threads[t := threads[t].(alarmReceived := true, alarmTimer := None)];
      }
      ResumeThread(t, kind.PollTimer?);
    }

    /** Any step at all. */
    method Perform(step: Step)
      requires Valid() && Enabled(View(), step)
      modifies this
      ensures Did(old(View()), step)
    {
      match step {
        case New(t) => NewPseudothread(t);
        case Start(t) => PthStart(t);
        case SetAlarm(alarm) => PthTimeout(alarm);
        case Block(h) => Suspend(Blocked(h));
        case Sleep(i) => Suspend(Sleeping(i));
        case Poll(hs, timeout) => Suspend(Polling(hs, timeout));
        case SleepOnQueue => Suspend(OnWaitQueue);
        case Exit => PthExit();
        case WakeUp(t) => MoveToWakeList(t);
        case WakeFromQueue(t) => ReturnFromQueue(t);
        case Dispatch(h) => ReturnFromHandle(h);
        case FireTimer(i) => ReturnFromTimer(i);
      }
    }
  }

  lemma StepIsDone(s: State, step: Step)
    requires Inv(s) && Enabled(s, step)
    ensures Apply(s, step).aborted <==> LateAlarm(s, step)
    ensures !Apply(s, step).aborted ==> Inv(Apply(s, step)) && Effect(s, step, Apply(s, step))
    ensures !Apply(s, step).broken
  {
    StepKeepsInv(s, step);
    if !LateAlarm(s, step) {
      StepHasEffect(s, step);
    }
  }

  /** A whole run from the start, in place. */
  method Run(steps: seq<Step>) returns (sch: Scheduler)
    requires CanRun(INIT, steps)
    ensures fresh(sch) && sch.View() == After(INIT, steps)
    ensures !sch.broken && (!sch.aborted ==> Consistent(sch.View()))
  {
    sch := new Scheduler();
    ThreadsAreConsistent(steps);
    var i := 0;
    while i < |steps|
      invariant 0 <= i <= |steps| && fresh(sch)
      invariant CanRun(sch.View(), steps[i..]) && After(sch.View(), steps[i..]) == After(INIT, steps)
      invariant !sch.aborted ==> sch.Valid()
    {
      assert steps[i..][1..] == steps[i + 1..];
      sch.Perform(steps[i]);
      i := i + 1;
    }
    assert steps[i..] == [];
  }
}
