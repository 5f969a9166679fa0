/** Every wait queue, mutex and rwlock of a process, together with the prepoll handlers that carry
    wake-ups, as one state machine.  A step is what one thread, or one prepoll handler, or one alarm
    timer does between two context switches. */
module LockProtocol {
  import opened Common
  import opened WaitQueues
  import opened RwLocks

  datatype QId = UserQ(id: nat) | MutexQ(id: nat) | WritersQ(id: nat) | ReadersQ(id: nat)

  datatype LockId = TheMutex(id: nat) | TheRw(id: nat)

  /** One registered do_wake_up handler: the private list and how far the loop has come. */
  datatype Wake = Wake(origin: QId, taken: seq<Tid>, pos: nat)

  /** Where a thread is: not on a wait queue (running or blocked in the reactor), gone, on a sleepers
      list, or already moved to the private list of wake-up `w`. */
  datatype Loc = Awake | Exited | OnQueue(q: QId) | InWake(q: QId, w: nat)

  datatype Resumption = Resumption(w: nat, t: Tid)

  datatype State = State(
    loc: map<Tid, Loc>,
    queues: map<QId, seq<Tid>>,
    wakes: seq<Wake>,
    mutexes: map<nat, Tid>,
    rwlocks: map<nat, Rw>,
    history: seq<Resumption>,
    aborted: bool)

  const INIT := State(map[], map[], [], map[], map[], [], false)

  datatype Step =
    | Spawn(t: Tid)
    | SleepOn(t: Tid, id: nat)
    | WakeAll(id: nat)
    | WakeOne(id: nat)
    | TryEnter(t: Tid, m: nat)
    | Enter(t: Tid, m: nat)
    | Leave(t: Tid, m: nat)
    | TryRead(t: Tid, r: nat)
    | DoEnterRead(t: Tid, r: nat)
    | TryWrite(t: Tid, r: nat)
    | DoEnterWrite(t: Tid, r: nat)
    | LeaveRw(t: Tid, r: nat)
    | SetPriority(r: nat, writers: bool)
    | Exit(t: Tid, order: seq<LockId>)
    | Alarm(t: Tid, order: seq<LockId>)
    | Resume(w: nat)

  // ----- views of the state

  function Q(s: State, q: QId): seq<Tid> {
    if q in s.queues then s.queues[q] else []
  }

  function RwOf(s: State, r: nat): Rw {
    if r in s.rwlocks then s.rwlocks[r] else FREE
  }

  predicate At(s: State, t: Tid, l: Loc) {
    t in s.loc && s.loc[t] == l
  }

  predicate Live(s: State, t: Tid) {
    t in s.loc && s.loc[t] != Exited
  }

  predicate Holds(s: State, t: Tid, l: LockId) {
    match l
    case TheMutex(m) => m in s.mutexes && s.mutexes[m] == t
    case TheRw(r) => t in RwOf(s, r).holders
  }

  predicate Unfinished(s: State, q: QId, w: nat) {
    w < |s.wakes| && s.wakes[w].origin == q && s.wakes[w].pos < |s.wakes[w].taken|
  }

  /** Some thread taken from `q` has still to be resumed. */
  ghost predicate PendingOn(s: State, q: QId) {
    exists w :: Unfinished(s, q, w)
  }

  // ----- atomic actions

  function Abort(s: State): State {
    s.(aborted := true)
  }

  function Sleep(s: State, t: Tid, q: QId): State {
    s.(queues := s.queues[q := Q(s, q) + [t]], loc := s.loc[t := OnQueue(q)])
  }

  /** wake_up with n threads taken (n == -1: all). */
  function WakeUp(s: State, q: QId, n: int): State
    requires n == -1 || 0 <= n <= |Q(s, q)|
  {
    if Q(s, q) == [] then s
    else
      var v := TakenBy(Q(s, q), n);
      s.(queues := s.queues[q := Q(s, q)[|v|..]],
         wakes := s.wakes + [Wake(q, v, 0)],
         loc := map t | t in s.loc :: if t in v then InWake(q, |s.wakes|) else s.loc[t])
  }

  function WakeUpOne(s: State, q: QId): State {
    if Q(s, q) == [] then Abort(s) else WakeUp(s, q, 1)
  }

  function EnterMutex(s: State, t: Tid, m: nat): State {
    s.(mutexes := s.mutexes[m := t])
  }

  function ReleaseMutex(s: State, m: nat): State {
    var free := s.(mutexes := s.mutexes - {m});
    if |Q(s, MutexQ(m))| > 0 then WakeUpOne(free, MutexQ(m)) else free
  }

  function WithRw(s: State, r: nat, rw: Rw): State {
    s.(rwlocks := s.rwlocks[r := rw])
  }

  function ReleaseRw(s: State, t: Tid, r: nat): State {
    match DoRelease(RwOf(s, r), t, |Q(s, WritersQ(r))|, |Q(s, ReadersQ(r))|)
    case Broken => Abort(s)
    case Released(rw, target) =>
      var free := WithRw(s, r, rw);
      match target
      case Nobody => free
      case OneWriter => WakeUpOne(free, WritersQ(r))
      case OneReader => WakeUpOne(free, ReadersQ(r))
  }

  function ReleaseLock(s: State, t: Tid, l: LockId): State {
    match l
    case TheMutex(m) => ReleaseMutex(s, m)
    case TheRw(r) => ReleaseRw(s, t, r)
  }

  /** Deleting the thread's pool runs the cleanup of every lock it still holds, in some order. */
  function ReleaseAll(s: State, t: Tid, order: seq<LockId>): State
    decreases |order|
  {
    if order == [] then s else ReleaseAll(ReleaseLock(s, t, order[0]), t, order[1..])
  }

  function ExitThread(s: State, t: Tid, order: seq<LockId>): State {
    var r := ReleaseAll(s, t, order);
    r.(loc := r.loc[t := Exited])
  }

  /** One turn of the while loops of mutex_enter, rwlock_enter_read and rwlock_enter_write. */
  function AttemptMutex(s: State, t: Tid, m: nat): State {
    if m !in s.mutexes then EnterMutex(s, t, m) else Sleep(s, t, MutexQ(m))
  }

  function AttemptRead(s: State, t: Tid, r: nat): State {
    if MayRead(RwOf(s, r), |Q(s, WritersQ(r))|) then WithRw(s, r, EnterRead(RwOf(s, r), t))
    else Sleep(s, t, ReadersQ(r))
  }

  function AttemptWrite(s: State, t: Tid, r: nat): State {
    if MayWrite(RwOf(s, r)) then WithRw(s, r, EnterWrite(RwOf(s, r), t))
    else Sleep(s, t, WritersQ(r))
  }

  /** do_wake_up switches into the next thread of its private list. */
  function Advance(s: State, w: nat): State
    requires w < |s.wakes| && s.wakes[w].pos < |s.wakes[w].taken|
  {
    var k := s.wakes[w];
    var t := k.taken[k.pos];
    s.(wakes := s.wakes[w := k.(pos := k.pos + 1)],
       history := s.history + [Resumption(w, t)],
       loc := s.loc[t := Awake])
  }

  /** ... which goes round the loop it was sleeping in. */
  function Continue(s: State, t: Tid, q: QId): State {
    match q
    case UserQ(_) => s
    case MutexQ(m) => AttemptMutex(s, t, m)
    case WritersQ(r) => AttemptWrite(s, t, r)
    case ReadersQ(r) => AttemptRead(s, t, r)
  }

  /** return_from_alarm switches into the thread; the primitive it was blocked in exits it. */
  function AlarmIn(s: State, t: Tid, order: seq<LockId>): State
    requires t in s.loc
  {
    match s.loc[t]
    case Awake => ExitThread(s, t, order)
    case Exited => s
    case OnQueue(q) => LeaveQueue(s, t, q, order)
    case InWake(q, _) => LeaveQueue(s, t, q, order)
  }

  function LeaveQueue(s: State, t: Tid, q: QId, order: seq<LockId>): State {
    if t in Q(s, q) then
      ExitThread(s.(queues := s.queues[q := Erase(Q(s, q), t)], loc := s.loc[t := Awake]), t, order)
    else Abort(s)
  }

  ghost predicate IsHeldList(s: State, t: Tid, order: seq<LockId>) {
    Distinct(order) && forall l :: l in order <==> Holds(s, t, l)
  }

  /** Who may do what.  The only demand on callers is that nobody enters an rwlock it is inside. */
  ghost predicate Enabled(s: State, step: Step) {
    !s.aborted &&
    match step
    case Spawn(t) => t !in s.loc
    case SleepOn(t, _) => At(s, t, Awake)
    case WakeAll(_) => true
    case WakeOne(_) => true
    case TryEnter(t, _) => At(s, t, Awake)
    case Enter(t, _) => At(s, t, Awake)
    case Leave(t, _) => At(s, t, Awake)
    case TryRead(t, r) => At(s, t, Awake) && !Holds(s, t, TheRw(r))
    case DoEnterRead(t, r) => At(s, t, Awake) && !Holds(s, t, TheRw(r))
    case TryWrite(t, r) => At(s, t, Awake) && !Holds(s, t, TheRw(r))
    case DoEnterWrite(t, r) => At(s, t, Awake) && !Holds(s, t, TheRw(r))
    case LeaveRw(t, _) => At(s, t, Awake)
    case SetPriority(_, _) => true
    case Exit(t, order) => At(s, t, Awake) && IsHeldList(s, t, order)
    case Alarm(t, order) => Live(s, t) && IsHeldList(s, t, order)
    case Resume(w) => w < |s.wakes| && s.wakes[w].pos < |s.wakes[w].taken|
  }

  ghost function Apply(s: State, step: Step): State
    requires Enabled(s, step)
  {
    match step
    case Spawn(t) => s.(loc := s.loc[t := Awake])
    case SleepOn(t, id) => Sleep(s, t, UserQ(id))
    case WakeAll(id) => WakeUp(s, UserQ(id), -1)
    case WakeOne(id) => WakeUpOne(s, UserQ(id))
    case TryEnter(t, m) => if m !in s.mutexes then EnterMutex(s, t, m) else s
    case Enter(t, m) => AttemptMutex(s, t, m)
    case Leave(t, m) => if Holds(s, t, TheMutex(m)) then ReleaseMutex(s, m) else Abort(s)
    case TryRead(t, r) =>
      if MayRead(RwOf(s, r), |Q(s, WritersQ(r))|) then WithRw(s, r, EnterRead(RwOf(s, r), t)) else s
    case DoEnterRead(t, r) => AttemptRead(s, t, r)
    case TryWrite(t, r) => if MayWrite(RwOf(s, r)) then WithRw(s, r, EnterWrite(RwOf(s, r), t)) else s
    case DoEnterWrite(t, r) => AttemptWrite(s, t, r)
    case LeaveRw(t, r) => if Holds(s, t, TheRw(r)) then ReleaseRw(s, t, r) else Abort(s)
    case SetPriority(r, writers) => WithRw(s, r, RwOf(s, r).(writersFirst := writers))
    case Exit(t, order) => ExitThread(s, t, order)
    case Alarm(t, order) => AlarmIn(s, t, order)
    case Resume(w) =>
      var k := s.wakes[w];
      Continue(Advance(s, w), k.taken[k.pos], k.origin)
  }

  ghost predicate CanRun(s: State, run: seq<Step>)
    decreases |run|
  {
    run == [] || (Enabled(s, run[0]) && CanRun(Apply(s, run[0]), run[1..]))
  }

  ghost function After(s: State, run: seq<Step>): State
    requires CanRun(s, run)
    decreases |run|
  {
    if run == [] then s else After(Apply(s, run[0]), run[1..])
  }
}
