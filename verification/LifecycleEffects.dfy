/** What each step of the thread runtime does: who runs afterwards, in which state it left which thread, and
    what came and went among handles, timers and lists. */
module LifecycleEffects {
  import opened Common
  import opened Lifecycle
  import opened LifecycleProofs

  /** `t` has the processor, and nothing but its alarm names it. */
  ghost predicate HasProcessor(r: State, t: Tid) {
    && r.running == Code(t) && r.current == Some(t) && t in r.threads && r.threads[t].status == Running
    && (forall h :: h in r.handles ==> r.handles[h] != t) && t !in r.asleep && t !in r.woken
    && (forall i :: i in r.timers && r.timers[i].t == t ==> IsAlarmOf(r, t, i))
  }

  /** Nobody's thread record differs but those of `ts`. */
  ghost predicate OnlyThreads(s: State, r: State, ts: set<Tid>) {
    forall u :: u in s.threads && u !in ts ==> u in r.threads && r.threads[u] == s.threads[u]
  }

  ghost predicate SameNames(s: State, r: State) {
    r.handles == s.handles && r.timers == s.timers && r.asleep == s.asleep && r.woken == s.woken
  }

  /** The running thread stops in `w`, what it registered names it, and its caller goes on. */
  ghost predicate Yields(s: State, r: State, t: Tid, w: Wait) {
    && t in s.threads && t in r.threads && r.threads[t].status == Suspended(w)
    && GoesOn(r, s.threads[t].callingCtx)
    && Registers(s, r, t, w) && r.woken == s.woken
  }

  /** What the wait needs to be ended names `t`, and nothing else is new. */
  ghost predicate Registers(s: State, r: State, t: Tid, w: Wait) {
    match w
    case Blocked(h) => r.handles == s.handles[h := t] && r.timers == s.timers && r.asleep == s.asleep
    case Sleeping(i) =>
      r.timers == s.timers[i := Timer(SleepTimer, t)] && r.handles == s.handles && r.asleep == s.asleep
    case Polling(hs, timeout) =>
      && (forall h :: h in hs ==> h in r.handles && r.handles[h] == t)
      && (forall h :: h in r.handles && h !in hs ==> h in s.handles && r.handles[h] == s.handles[h])
      && (forall h :: h in s.handles ==> h in r.handles) && r.asleep == s.asleep
      && r.timers == (if timeout.Some? then s.timers[timeout.value := Timer(PollTimer, t)] else s.timers)
    case OnWaitQueue => r.asleep == s.asleep + multiset{t} && r.handles == s.handles && r.timers == s.timers
  }

  lemma RegisterRegisters(s: State, t: Tid, w: Wait)
    ensures Registers(s, Register(s, t, w), t, w)
  {
    assert s.asleep + multiset{} == s.asleep;
    match w {
      case Blocked(h) => assert s.handles + Naming({h}, t) == s.handles[h := t] && s.timers + map[] == s.timers;
      case Sleeping(i) => NoHandles(s, t);
      case Polling(hs, timeout) => PollRegisters(s, t, hs, timeout);
      case OnWaitQueue =>
        NoHandles(s, t);
        assert s.timers + map[] == s.timers;
    }
  }

  lemma NoHandles(s: State, t: Tid)
    ensures s.handles + Naming({}, t) == s.handles
  {
  }

  lemma PollRegisters(s: State, t: Tid, hs: seq<nat>, timeout: Option<nat>)
    ensures Registers(s, Register(s, t, Polling(hs, timeout)), t, Polling(hs, timeout))
  {
    assert s.asleep + multiset{} == s.asleep;
    if timeout.None? {
      assert s.timers + map[] == s.timers;
    }
  }

  /** The code that context `c` belongs to has the processor. */
  ghost predicate GoesOn(r: State, c: Ctx) {
    && r.running == c
    && (c.Code? ==> r.current == Some(c.t) && c.t in r.threads && r.threads[c.t].status == Running)
  }

  /** A callback switches into `t`: it runs, called from the reactor, and what it had registered for its wait
      is gone, and nothing else. */
  ghost predicate Resumes(s: State, r: State, t: Tid) {
    && HasProcessor(r, t) && r.threads[t].callingCtx == Reactor && OnlyThreads(s, r, {t})
    && (forall h :: h in r.handles <==> h in s.handles && s.handles[h] != t)
    && (forall h :: h in r.handles ==> r.handles[h] == s.handles[h])
    && (forall i :: i in s.timers && s.timers[i].t != t ==> i in r.timers && r.timers[i] == s.timers[i])
    && (forall i :: i in r.timers ==> i in s.timers && r.timers[i] == s.timers[i])
  }

  ghost predicate Effect(s: State, step: Step, r: State) {
    match step
    case New(t) =>
      && t in r.threads && r.threads[t].status == NotStarted && OnlyThreads(s, r, {}) && SameNames(s, r)
      && r.running == s.running && r.current == s.current
    case Start(t) =>
      && HasProcessor(r, t) && r.threads[t].callingCtx == s.running && SameNames(s, r)
      && (s.running.Code? ==>
            && s.running.t in r.threads && r.threads[s.running.t].status == InStart(Some(s.running.t))
            && OnlyThreads(s, r, {t, s.running.t}))
      && (s.running == Reactor ==> OnlyThreads(s, r, {t}))
    case SetAlarm(alarm) =>
      && s.running.Code? && HasProcessor(r, s.running.t) && r.threads[s.running.t].alarmTimer == alarm
      && (alarm.Some? ==> alarm.value in r.timers && r.timers[alarm.value] == Timer(AlarmTimer, s.running.t))
      && (forall i :: i in s.timers && s.timers[i].t != s.running.t ==> i in r.timers && r.timers[i] == s.timers[i])
    case Block(h) => s.running.Code? && Yields(s, r, s.running.t, Blocked(h))
    case Sleep(i) => s.running.Code? && Yields(s, r, s.running.t, Sleeping(i))
    case Poll(hs, timeout) => s.running.Code? && Yields(s, r, s.running.t, Polling(hs, timeout))
    case SleepOnQueue => s.running.Code? && Yields(s, r, s.running.t, OnWaitQueue)
    case Exit =>
      && s.running.Code? && s.running.t in s.threads && Ended(r, s.running.t)
      && GoesOn(r, s.threads[s.running.t].callingCtx)
    case Dispatch(h) => h in s.handles && Resumes(s, r, s.handles[h])
    case FireTimer(i) =>
      && i in s.timers && i !in r.timers
      && if s.timers[i].kind.AlarmTimer? then Ended(r, s.timers[i].t) && r.running == Reactor
         else Resumes(s, r, s.timers[i].t)
    case WakeUp(t) =>
      && r == s.(asleep := r.asleep, woken := r.woken)
      && r.asleep + multiset{t} == s.asleep && r.woken == s.woken + multiset{t}
    case WakeFromQueue(t) => Resumes(s, r, t) && r.woken + multiset{t} == s.woken
  }

  // ----- being resumed

  lemma RunningHasProcessor(r: State, b: Busy)
    requires Ok(r, b) && b.Somebody?
    ensures HasProcessor(r, b.t)
  {
    OkIsConsistent(r, b);
  }

  lemma BackResumes(s: State, t: Tid, w: Wait)
    requires Ok(s, Nobody) && t in s.threads && s.threads[t].status == Suspended(w)
    ensures Resumes(s, Back(s, t, w), t)
  {
    var r := Back(s, t, w);
    BackOk(s, t, w);
    RunningHasProcessor(r, Somebody([], t));
    OwnTimersAlone(s, t, w);
    forall h | h in s.handles && s.handles[h] == t
      ensures h in HandlesOf(w)
    {
    }
  }

  lemma OwnTimersAlone(s: State, t: Tid, w: Wait)
    requires Ok(s, Nobody) && t in s.threads && s.threads[t].status == Suspended(w)
    ensures forall i :: i in OwnTimer(w, t).Keys ==> i in s.timers && s.timers[i].t == t
    ensures forall h :: h in HandlesOf(w) ==> h in s.handles && s.handles[h] == t
  {
    forall i | i in OwnTimer(w, t).Keys
      ensures i in s.timers && s.timers[i].t == t
    {
      assert Known(s.threads[t], KindOf(w), i);
    }
  }

  lemma ReactorIsNobody(s: State, b: Busy)
    requires Ok(s, b) && s.running == Reactor
    ensures b == Nobody
  {
  }

  lemma DispatchResumes(s: State, h: nat)
    requires Ok(s, Nobody) && NoAlarm(s) && h in s.handles && !s.aborted
    ensures Resumes(s, ResumeIn(s, s.handles[h], false), s.handles[h])
  {
    var t := s.handles[h];
    var w := s.threads[t].status.wait;
    ResumeByEvent(s, t, w);
    BackResumes(s, t, w);
  }

  lemma WakeResumes(s: State, t: Tid)
    requires Ok(s, Nobody) && NoAlarm(s) && t in s.woken
    ensures var r := ResumeIn(s.(woken := s.woken - multiset{t}), t, false);
            Resumes(s, r, t) && r.woken + multiset{t} == s.woken
  {
    ResumeByWakeUp(s, t);
    BackResumes(s, t, OnWaitQueue);
  }

  lemma TimerResumes(s: State, i: nat)
    requires Ok(s, Nobody) && NoAlarm(s) && i in s.timers && !s.timers[i].kind.AlarmTimer?
    ensures Resumes(s, Fire(s, i), s.timers[i].t) && i !in Fire(s, i).timers
  {
    var t := s.timers[i].t;
    assert Known(s.threads[t], s.timers[i].kind, i);
    var w := s.threads[t].status.wait;
    ResumeByTimer(s, t, w, i);
    BackResumes(s, t, w);
  }

  lemma AlarmEnds(s: State, i: nat)
    requires Ok(s, Nobody) && i in s.timers && s.timers[i].kind.AlarmTimer? && s.timers[i].t !in s.woken
    ensures Ended(Fire(s, i), s.timers[i].t) && Fire(s, i).running == Reactor && i !in Fire(s, i).timers
  {
    var t := s.timers[i].t;
    AlarmKills(s, i);
    ToldOk(s, t, i);
    AlarmIsExit(s, t, i);
    var back := Back(Told(s, t, i), t, s.threads[t].status.wait);
    assert ExitThread(back).timers.Keys <= back.timers.Keys;
  }

  // ----- yielding

  lemma LandGoesOn(s: State, b: Busy, s0: State, th: Thread)
    requires Retired(s, b, s0, th)
    ensures GoesOn(Land(s0, s.threads[b.t].callingCtx), s.threads[b.t].callingCtx)
  {
    if b.parents == [] {
      LandInReactor(s, b, s0, th);
    } else {
      var n := |b.parents| - 1;
      assert b.parents == b.parents[..n] + [b.parents[n]];
      LandInParent(s, b, s0, th, b.parents[n], b.parents[..n]);
    }
  }

  lemma CallerIsParked(s: State, b: Busy)
    requires Chained(s, b) && b.Somebody?
    ensures var c := s.threads[b.t].callingCtx;
            c.Code? ==> c.t in s.threads && s.threads[c.t].status.InStart? && c.t != b.t
  {
    if b.parents != [] {
      var n := |b.parents| - 1;
      assert b.parents == b.parents[..n] + [b.parents[n]];
      TopParent(s, b, b.parents[n], b.parents[..n]);
    }
  }

  lemma SuspendYields(s: State, b: Busy, w: Wait)
    requires Ok(s, b) && b.Somebody?
    ensures Yields(s, SwitchAway(Register(s, b.t, w), w), b.t, w)
  {
    var th := s.threads[b.t].(status := Suspended(w), threadCtx := s.running);
    var s0 := Set(Register(s, b.t, w), b.t, th);
    var c := s.threads[b.t].callingCtx;
    LandGoesOn(s, b, s0, th);
    CallerIsParked(s, b);
    LandFrame(s0, c);
    RegisterRegisters(s, b.t, w);
    assert Alike(s0.threads[b.t], Land(s0, c).threads[b.t]);
  }

  lemma ExitYields(s: State, b: Busy)
    requires Ok(s, b) && b.Somebody?
    ensures Ended(ExitThread(s), b.t) && GoesOn(ExitThread(s), s.threads[b.t].callingCtx)
  {
    var th := s.threads[b.t].(status := Dead);
    var timers := map i | i in s.timers && s.timers[i].t != b.t :: s.timers[i];
    ExitOk(s, b);
    LandGoesOn(s, b, Set(s, b.t, th).(timers := timers), th);
  }

  lemma StartStarts(s: State, b: Busy, t: Tid)
    requires Ok(s, b) && t in s.threads && s.threads[t].status == NotStarted
    ensures Effect(s, Start(t), StartThread(s, t))
  {
    StartIs(s, b, t);
    StartOk(s, b, t);
    RunningHasProcessor(StartThread(s, t), Somebody(if b.Nobody? then [] else b.parents + [b.t], t));
  }

  lemma TimeoutSets(s: State, b: Busy, alarm: Option<nat>)
    requires Ok(s, b) && b.Somebody? && (alarm.Some? ==> alarm.value !in s.timers)
    ensures Effect(s, SetAlarm(alarm), Timeout(s, b.t, alarm))
  {
    TimeoutOk(s, b, alarm);
    TimeoutIs(s, b, alarm);
    RunningHasProcessor(Timeout(s, b.t, alarm), b);
    var before := s.threads[b.t].alarmTimer;
    if before.Some? {
      assert Known(s.threads[b.t], AlarmTimer, before.value);
    }
  }

  // ----- every step

  lemma CallbackHasEffect(s: State, step: Step)
    requires Ok(s, Nobody) && NoAlarm(s) && Enabled(s, step) && !LateAlarm(s, step)
    requires step.Dispatch? || step.FireTimer? || step.WakeFromQueue?
    ensures Effect(s, step, Apply(s, step))
  {
    match step {
      case Dispatch(h) => DispatchResumes(s, h);
      case WakeFromQueue(t) => WakeResumes(s, t);
      case FireTimer(i) =>
        if s.timers[i].kind.AlarmTimer? {
          AlarmEnds(s, i);
        } else {
          TimerResumes(s, i);
        }
    }
  }

  lemma CallHasEffect(s: State, b: Busy, step: Step)
    requires Ok(s, b) && b.Somebody? && Enabled(s, step)
    requires step.SetAlarm? || step.Block? || step.Sleep? || step.Poll? || step.SleepOnQueue?
    ensures Effect(s, step, Apply(s, step))
  {
    match step {
      case SetAlarm(alarm) => TimeoutSets(s, b, alarm);
      case Block(h) => SuspendYields(s, b, Blocked(h));
      case Sleep(i) => SuspendYields(s, b, Sleeping(i));
      case Poll(hs, timeout) => SuspendYields(s, b, Polling(hs, timeout));
      case SleepOnQueue => SuspendYields(s, b, OnWaitQueue);
    }
  }

  lemma WakeUpMoves(s: State, t: Tid)
    requires t in s.asleep
    ensures Effect(s, WakeUp(t), s.(asleep := s.asleep - multiset{t}, woken := s.woken + multiset{t}))
  {
  }

  /** Every step that does not abort has its effect. */
  lemma StepHasEffect(s: State, step: Step)
    requires Inv(s) && Enabled(s, step) && !LateAlarm(s, step)
    ensures Effect(s, step, Apply(s, step))
  {
    var b :| Ok(s, b);
    if step.Dispatch? || step.FireTimer? || step.WakeFromQueue? {
      ReactorIsNobody(s, b);
      CallbackHasEffect(s, step);
    } else if step.New? || step.Start? || step.WakeUp? || step.Exit? {
      OtherHasEffect(s, b, step);
    } else {
      CallHasEffect(s, b, step);
    }
  }

  lemma OtherHasEffect(s: State, b: Busy, step: Step)
    requires Ok(s, b) && Enabled(s, step) && (step.New? || step.Start? || step.WakeUp? || step.Exit?)
    ensures Effect(s, step, Apply(s, step))
  {
    match step {
      case New(t) => NewIsThere(s, t);
      case Start(t) => StartStarts(s, b, t);
      case WakeUp(t) => WakeUpMoves(s, t);
      case Exit => ExitYields(s, b);
    }
  }

  lemma NewIsThere(s: State, t: Tid)
    requires t !in s.threads
    ensures Effect(s, New(t), Set(s, t, Unborn(t)))
  {
  }
}
