/** The life of pseudothreads, src/pthr_pseudothread.c: who runs, who called whom, what current_pth says, and
    which reactor handles and timers name which thread.  Everything the C code does through current_pth,
    a saved context or a raw pointer is done that way here; using one that is wrong breaks the state. */
module Lifecycle {
  import opened Common

  /** Whose code it is: the reactor's (and main's), or a thread's. */
  datatype Ctx = Reactor | Code(t: Tid)

  /** The blocking primitive a thread is suspended in, with that call's local variables. */
  datatype Wait =
    | Blocked(handle: nat)
    | Sleeping(timer: nat)
    | Polling(handles: seq<nat>, timeout: Option<nat>)
    | OnWaitQueue

  /** InStart: inside pth_start, with its local copy of current_pth. */
  datatype Status = NotStarted | Running | InStart(oldPth: Option<Tid>) | Suspended(wait: Wait) | Dead

  datatype Thread = Thread(
    status: Status,
    threadCtx: Ctx,
    callingCtx: Ctx,
    alarmTimer: Option<nat>,
    alarmReceived: bool)

  datatype Kind = SleepTimer | PollTimer | AlarmTimer

  /** A reactor timer: the callback kind and the thread it is given, whose pool it lives in. */
  datatype Timer = Timer(kind: Kind, t: Tid)

  /** `asleep`: the entries of all sleepers lists; `woken`: those already moved to private wake lists. */
  datatype State = State(
    running: Ctx,
    current: Option<Tid>,
    mainStart: Option<Option<Tid>>,
    threads: map<Tid, Thread>,
    handles: map<nat, Tid>,
    timers: map<nat, Timer>,
    asleep: multiset<Tid>,
    woken: multiset<Tid>,
    aborted: bool,
    broken: bool)

  const INIT := State(Reactor, None, None, map[], map[], map[], multiset{}, multiset{}, false, false)

  datatype Step =
    | New(t: Tid)
    | Start(t: Tid)
    | SetAlarm(alarm: Option<nat>)
    | Block(handle: nat)
    | Sleep(timer: nat)
    | Poll(handles: seq<nat>, timeout: Option<nat>)
    | SleepOnQueue
    | Exit
    | Dispatch(handle: nat)
    | FireTimer(timer: nat)
    | WakeUp(t: Tid)
    | WakeFromQueue(t: Tid)

  // ----- context switches

  function Break(s: State): State {
    s.(broken := true)
  }

  function Set(s: State, t: Tid, th: Thread): State {
    s.(threads := s.threads[t := th])
  }

  /** Code that switched away gets the processor back: the tail of pth_start, or the reactor loop. */
  function Land(s: State, c: Ctx): State {
    match c
    case Reactor =>
      if s.mainStart.Some? then s.(running := Reactor, current := s.mainStart.value, mainStart := None)
      else s.(running := Reactor)
    case Code(u) =>
      if u in s.threads && s.threads[u].status.InStart? then
        Set(s, u, s.threads[u].(status := Running)).(running := c, current := s.threads[u].status.oldPth)
      else Break(s)
  }

  /** pth_start */
  function StartThread(s: State, t: Tid): State {
    if t !in s.threads || !s.threads[t].status.NotStarted? then Break(s)
    else
      var away :=
        match s.running
        case Reactor => s.(mainStart := Some(s.current))
        case Code(u) =>
          if u in s.threads then Set(s, u, s.threads[u].(status := InStart(s.current))) else Break(s);
      if t !in away.threads then Break(s)
      else
        Set(away, t, away.threads[t].(status := Running, callingCtx := s.running))
        .(running := s.threads[t].threadCtx, current := Some(t))
  }

  /** _pth_switch_thread_to_calling_context, from inside a blocking primitive. */
  function SwitchAway(s: State, wait: Wait): State {
    if s.current.None? || s.current.value !in s.threads then Break(s)
    else
      var t := s.current.value;
      var th := s.threads[t];
      Land(Set(s, t, th.(status := Suspended(wait), threadCtx := s.running)), th.callingCtx)
  }

  /** _pth_switch_calling_to_thread_context */
  function SwitchInto(s: State, t: Tid): State {
    if t !in s.threads || !s.threads[t].status.Suspended? then Break(s)
    else
      Set(s, t, s.threads[t].(status := Running, callingCtx := s.running))
      .(running := s.threads[t].threadCtx, current := Some(t))
  }

  /** pth_exit jumps to the trampoline of current_pth; deleting the pool removes its timers. */
  function ExitThread(s: State): State {
    if s.current.None? || s.current.value !in s.threads then Break(s)
    else
      var t := s.current.value;
      var th := s.threads[t];
      Land(Set(s, t, th.(status := Dead)).(timers := map i | i in s.timers && s.timers[i].t != t :: s.timers[i]),
           th.callingCtx)
  }

  // ----- what a primitive does after the switch back

  function Unregister(s: State, hs: set<nat>): State {
    if hs <= s.handles.Keys then s.(handles := s.handles - hs) else Break(s)
  }

  function UnsetTimer(s: State, i: nat): State {
    if i in s.timers then s.(timers := s.timers - {i}) else Break(s)
  }

  function HandlesOf(w: Wait): set<nat> {
    match w
    case Blocked(h) => {h}
    case Polling(hs, _) => set h | h in hs
    case _ => {}
  }

  function TimerOf(w: Wait): Option<nat> {
    match w
    case Sleeping(i) => Some(i)
    case Polling(_, timeout) => timeout
    case _ => None
  }

  /** The code behind the switch in block, _sleep, _poll and wq_sleep_on. */
  function AfterSwitch(s: State, w: Wait, timedOut: bool, alarm: bool): State {
    var r := TidyUp(s, w, timedOut, alarm);
    if alarm && !r.aborted then ExitThread(r) else r
  }

  function TidyUp(s: State, w: Wait, timedOut: bool, alarm: bool): State {
    match w
    case Blocked(h) => Unregister(s, {h})
    case Sleeping(i) => if alarm then UnsetTimer(s, i) else s
    case Polling(hs, timeout) =>
      var r := Unregister(s, set h | h in hs);
      if timeout.Some? && !timedOut then UnsetTimer(r, timeout.value) else r
    case OnWaitQueue => if alarm then LeaveQueue(s) else s
  }

  /** wq_sleep_on after an alarm: current_pth looks for itself on the sleepers list, or aborts. */
  function LeaveQueue(s: State): State {
    if s.current.Some? && s.current.value in s.asleep then s.(asleep := s.asleep - multiset{s.current.value})
    else s.(aborted := true)
  }

  /** A callback switches into thread `t`, which goes on in its primitive. */
  function ResumeIn(s: State, t: Tid, timedOut: bool): State {
    if t !in s.threads || !s.threads[t].status.Suspended? then Break(s)
    else AfterSwitch(SwitchInto(s, t), s.threads[t].status.wait, timedOut, s.threads[t].alarmReceived)
  }

  /** A timer is taken out of the queue and its callback called. */
  function Fire(s: State, i: nat): State
    requires i in s.timers
  {
    var Timer(kind, t) := s.timers[i];
    var s1 := s.(timers := s.timers - {i});
    match kind
    case SleepTimer => ResumeIn(s1, t, false)
    case PollTimer => ResumeIn(s1, t, true)
    case AlarmTimer =>
      if t !in s1.threads then Break(s1)
      else ResumeIn(Set(s1, t, s1.threads[t].(alarmReceived := true, alarmTimer := None)), t, false)
  }

  function KindOf(w: Wait): Kind {
    if w.Sleeping? then SleepTimer else PollTimer
  }

  function OwnTimer(w: Wait, t: Tid): map<nat, Timer> {
    match TimerOf(w)
    case None => map[]
    case Some(i) => map[i := Timer(KindOf(w), t)]
  }

  function Naming(hs: set<nat>, t: Tid): map<nat, Tid> {
    map h | h in hs :: t
  }

  function Entry(w: Wait, t: Tid): multiset<Tid> {
    if w.OnWaitQueue? then multiset{t} else multiset{}
  }

  /** What block, _sleep, _poll and wq_sleep_on register before they switch away: handles, timers and a list
      entry that name current_pth. */
  function Register(s: State, t: Tid, w: Wait): State {
    s.(handles := s.handles + Naming(HandlesOf(w), t), timers := s.timers + OwnTimer(w, t),
       asleep := s.asleep + Entry(w, t))
  }

  /** pth_timeout */
  function Timeout(s: State, t: Tid, timer: Option<nat>): State
    requires t in s.threads
  {
    var off := if s.threads[t].alarmTimer.Some? then UnsetTimer(s, s.threads[t].alarmTimer.value) else s;
    var off' := Set(off, t, s.threads[t].(alarmTimer := timer));
    match timer
    case None => off'
    case Some(i) => off'.(timers := off'.timers[i := Timer(AlarmTimer, t)])
  }

  /** Who may do what: thread code calls the primitives, the reactor calls back.  Handles and timers get
      numbers that are not in use.  A handle, a timer and a wake list name a thread, and nothing is asked
      about the state that thread is in. */
  predicate Enabled(s: State, step: Step) {
    !s.broken && !s.aborted &&
    match step
    case New(t) => t !in s.threads
    case Start(t) => t in s.threads && s.threads[t].status.NotStarted?
    case SetAlarm(timer) => s.running.Code? && (timer.Some? ==> timer.value !in s.timers)
    case Block(h) => s.running.Code? && h !in s.handles
    case Sleep(i) => s.running.Code? && i !in s.timers
    case Poll(hs, timeout) =>
      && s.running.Code? && (forall h :: h in hs ==> h !in s.handles)
      && (timeout.Some? ==> timeout.value !in s.timers)
    case SleepOnQueue => s.running.Code?
    case Exit => s.running.Code?
    case Dispatch(h) => s.running == Reactor && h in s.handles
    case FireTimer(i) => s.running == Reactor && i in s.timers
    case WakeUp(t) => t in s.asleep
    case WakeFromQueue(t) => s.running == Reactor && t in s.woken
  }

  function Apply(s: State, step: Step): State
    requires Enabled(s, step)
  {
    match step
    case New(t) => Set(s, t, Thread(NotStarted, Code(t), Reactor, None, false))
    case Start(t) => StartThread(s, t)
    case Dispatch(h) => ResumeIn(s, s.handles[h], false)
    case FireTimer(i) => Fire(s, i)
    case WakeUp(t) => s.(asleep := s.asleep - multiset{t}, woken := s.woken + multiset{t})
    case WakeFromQueue(t) => ResumeIn(s.(woken := s.woken - multiset{t}), t, false)
    case Exit => ExitThread(s)
    case _ =>
      if s.current.None? || s.current.value !in s.threads then Break(s)
      else Primitive(s, s.current.value, step)
  }

  /** pth_timeout and the blocking calls, on behalf of current_pth. */
  function Primitive(s: State, t: Tid, step: Step): State
    requires t in s.threads
  {
    match step
    case SetAlarm(alarm) => Timeout(s, t, alarm)
    case Block(h) => SwitchAway(Register(s, t, Blocked(h)), Blocked(h))
    case Sleep(i) => SwitchAway(Register(s, t, Sleeping(i)), Sleeping(i))
    case Poll(hs, timeout) => SwitchAway(Register(s, t, Polling(hs, timeout)), Polling(hs, timeout))
    case _ => SwitchAway(Register(s, t, OnWaitQueue), OnWaitQueue)
  }

  ghost predicate CanRun(s: State, run: seq<Step>)
    decreases |run|
  {
    run != [] ==> Enabled(s, run[0]) && CanRun(Apply(s, run[0]), run[1..])
  }

  ghost function After(s: State, run: seq<Step>): State
    requires CanRun(s, run)
    decreases |run|
  {
    if run == [] then s else After(Apply(s, run[0]), run[1..])
  }
}
