/** The timers of src/pthr_reactor.c as a list of absolute deadlines, and what every run of the reactor
    keeps.  The linked list with its deltas is in TimerQueues. */
module TimerRuns {
  import opened Common

  /** `cb` stands for the callback function and its data. */
  datatype Timer = Timer(deadline: nat, cb: nat)

  datatype Firing = Firing(timer: Timer, at: nat)

  datatype TState = TState(now: nat, queue: seq<Timer>, fired: seq<Firing>)

  datatype TStep =
    | Set(timeout: nat, cb: nat)
    | Unset(i: nat)
    | Fire
    | Tick(later: nat)

  /** Where a new timer goes: before the first one that is not earlier. */
  function Slot(q: seq<Timer>, deadline: nat): (k: nat)
    ensures k <= |q|
    ensures forall i :: 0 <= i < k ==> q[i].deadline < deadline
    ensures k < |q| ==> q[k].deadline >= deadline
  {
    if q == [] || q[0].deadline >= deadline then 0 else 1 + Slot(q[1..], deadline)
  }

  function Inserted<T>(s: seq<T>, x: T, i: nat): (r: seq<T>)
    requires i <= |s|
    ensures |r| == |s| + 1
    ensures forall k {:trigger r[k]} :: 0 <= k < |r| ==> r[k] == if k < i then s[k] else if k == i then x else s[k - 1]
  {
    s[..i] + [x] + s[i..]
  }

  function Insert(q: seq<Timer>, t: Timer): seq<Timer> {
    Inserted(q, t, Slot(q, t.deadline))
  }

  function Without<T>(q: seq<T>, i: nat): (r: seq<T>)
    requires i < |q|
    ensures |r| == |q| - 1
    ensures forall k {:trigger r[k]} :: 0 <= k < |r| ==> r[k] == if k < i then q[k] else q[k + 1]
  {
    q[..i] + q[i + 1..]
  }

  predicate Enabled(s: TState, step: TStep) {
    match step
    case Set(timeout, _) => timeout <= INT_MAX
    case Unset(i) => i < |s.queue|
    case Fire => s.queue != [] && s.queue[0].deadline <= s.now
    case Tick(later) => s.now <= later
  }

  function Apply(s: TState, step: TStep): TState
    requires Enabled(s, step)
  {
    match step
    case Set(timeout, cb) => s.(queue := Insert(s.queue, Timer(s.now + timeout, cb)))
    case Unset(i) => s.(queue := Without(s.queue, i))
    case Fire => s.(queue := s.queue[1..], fired := s.fired + [Firing(s.queue[0], s.now)])
    case Tick(later) => s.(now := later)
  }

  ghost predicate CanRun(s: TState, run: seq<TStep>)
    decreases |run|
  {
    run == [] || (Enabled(s, run[0]) && CanRun(Apply(s, run[0]), run[1..]))
  }

  ghost function After(s: TState, run: seq<TStep>): TState
    requires CanRun(s, run)
    decreases |run|
  {
    if run == [] then s else After(Apply(s, run[0]), run[1..])
  }

  lemma {:induction false} Compose(s: TState, a: seq<TStep>, b: seq<TStep>)
    requires CanRun(s, a) && CanRun(After(s, a), b)
    ensures CanRun(s, a + b) && After(s, a + b) == After(After(s, a), b)
    decreases |a|
  {
    if a == [] {
      assert a + b == b;
    } else {
      assert (a + b)[1..] == a[1..] + b;
      Compose(Apply(s, a[0]), a[1..], b);
    }
  }

  /** One more step at the end. */
  lemma Snoc(s: TState, run: seq<TStep>, step: TStep)
    requires CanRun(s, run) && Enabled(After(s, run), step)
    ensures CanRun(s, run + [step]) && After(s, run + [step]) == Apply(After(s, run), step)
  {
    var s' := After(s, run);
    assert [step][1..] == [] && CanRun(Apply(s', step), []);
    assert CanRun(s', [step]) && After(s', [step]) == Apply(s', step);
    Compose(s, run, [step]);
  }

  // ----- what every run keeps

  ghost predicate Sorted(q: seq<Timer>) {
    forall i, j :: 0 <= i <= j < |q| ==> q[i].deadline <= q[j].deadline
  }

  /** Firings happen in deadline order, none of them early. */
  ghost predicate FiredInOrder(fired: seq<Firing>) {
    && (forall i, j :: 0 <= i <= j < |fired| ==> fired[i].timer.deadline <= fired[j].timer.deadline)
    && (forall i :: 0 <= i < |fired| ==> fired[i].timer.deadline <= fired[i].at)
  }

  ghost predicate Inv(s: TState) {
    && Sorted(s.queue)
    && FiredInOrder(s.fired)
    && (forall f :: f in s.fired ==> f.at <= s.now)
    && (forall f, t :: f in s.fired && t in s.queue ==> f.timer.deadline <= t.deadline)
    && (forall t :: t in s.queue ==> t.deadline <= s.now + INT_MAX)
  }

  lemma InsertSorted(q: seq<Timer>, t: Timer)
    requires Sorted(q)
    ensures Sorted(Insert(q, t))
    ensures forall x :: x in Insert(q, t) ==> x == t || x in q
  {
    var k, r := Slot(q, t.deadline), Insert(q, t);
    forall i, j | 0 <= i <= j < |r|
      ensures r[i].deadline <= r[j].deadline
    {
      assert k < j ==> r[j] == q[j - 1];
      assert k < i ==> r[i] == q[i - 1];
      assert k < |q| && k < j ==> q[k].deadline <= q[j - 1].deadline;
    }
  }

  lemma FiredIsPast(s: TState)
    requires FiredInOrder(s.fired) && forall f :: f in s.fired ==> f.at <= s.now
    ensures forall f :: f in s.fired ==> f.timer.deadline <= s.now
  {
    forall f | f in s.fired
      ensures f.timer.deadline <= s.now
    {
      var i :| 0 <= i < |s.fired| && s.fired[i] == f;
    }
  }

  lemma OneMoreKeepsInv(s: TState, q: seq<Timer>, t: Timer)
    requires Inv(s) && Sorted(q) && (forall x :: x in q ==> x == t || x in s.queue)
    requires s.now <= t.deadline <= s.now + INT_MAX
    ensures Inv(s.(queue := q))
  {
    FiredIsPast(s);
    forall f, x | f in s.fired && x in q
      ensures f.timer.deadline <= x.deadline
    {
      assert f.timer.deadline <= s.now;
    }
  }

  lemma SetKeepsInv(s: TState, timeout: nat, cb: nat)
    requires Inv(s) && timeout <= INT_MAX
    ensures Inv(Apply(s, Set(timeout, cb)))
  {
    var t := Timer(s.now + timeout, cb);
    InsertSorted(s.queue, t);
    OneMoreKeepsInv(s, Insert(s.queue, t), t);
  }

  lemma UnsetKeepsInv(s: TState, i: nat)
    requires Inv(s) && i < |s.queue|
    ensures Inv(s.(queue := Without(s.queue, i)))
  {
    var q := Without(s.queue, i);
    assert forall j :: 0 <= j < |q| ==> q[j] == s.queue[if j < i then j else j + 1];
  }

  lemma FireKeepsInv(s: TState)
    requires Inv(s) && Enabled(s, Fire)
    ensures Inv(Apply(s, Fire))
  {
    assert s.queue[0] in s.queue;
    forall i | 0 <= i < |s.fired|
      ensures s.fired[i].timer.deadline <= s.queue[0].deadline
    {
      assert s.fired[i] in s.fired;
    }
  }

  lemma StepKeepsInv(s: TState, step: TStep)
    requires Inv(s) && Enabled(s, step)
    ensures Inv(Apply(s, step))
  {
    match step {
      case Set(timeout, cb) => SetKeepsInv(s, timeout, cb);
      case Unset(i) => UnsetKeepsInv(s, i);
      case Fire => FireKeepsInv(s);
      case Tick(_) =>
    }
  }

  lemma {:induction false} RunKeepsInv(s: TState, run: seq<TStep>)
    requires Inv(s) && CanRun(s, run)
    ensures Inv(After(s, run))
    decreases |run|
  {
    if run != [] {
      StepKeepsInv(s, run[0]);
      RunKeepsInv(Apply(s, run[0]), run[1..]);
    }
  }

  /** From an empty queue at any time, whatever timers are set, cancelled and fired while the clock goes
      forward: the deadlines fired never decrease, nothing fires early, and every deadline left is within
      an int of the clock. */
  lemma TimersFireInOrder(start: nat, run: seq<TStep>)
    requires CanRun(TState(start, [], []), run)
    ensures var s := After(TState(start, [], []), run);
            && FiredInOrder(s.fired) && Sorted(s.queue)
            && (forall i :: 0 <= i < |s.queue| ==> s.queue[i].deadline - s.now <= INT_MAX)
  {
    RunKeepsInv(TState(start, [], []), run);
  }

  // ----- how long the firing loop goes on

  /** How many timers are due. */
  ghost function Due(q: seq<Timer>, now: nat): nat {
    if q == [] then 0 else (if q[0].deadline <= now then 1 else 0) + Due(q[1..], now)
  }

  lemma {:induction false} DueAppend(a: seq<Timer>, b: seq<Timer>, now: nat)
    ensures Due(a + b, now) == Due(a, now) + Due(b, now)
  {
    if a == [] {
      assert a + b == b;
    } else {
      assert (a + b)[1..] == a[1..] + b;
      DueAppend(a[1..], b, now);
    }
  }

  lemma DueOne(t: Timer, now: nat)
    ensures Due([t], now) == if t.deadline <= now then 1 else 0
  {
    assert [t][1..] == [];
  }

  lemma {:induction false} NoneDue(q: seq<Timer>, now: nat)
    requires forall t :: t in q ==> t.deadline > now
    ensures Due(q, now) == 0
  {
    if q != [] {
      assert q[0] in q;
      NoneDue(q[1..], now);
    }
  }

  /** What a callback may do to the timers. */
  predicate FromCallback(step: TStep) {
    step.Set? || step.Unset?
  }

  function FiresIn(step: TStep): nat {
    if step.Fire? then 1 else 0
  }

  function ZerosIn(step: TStep): nat {
    if step.Set? && step.timeout == 0 then 1 else 0
  }

  function CancelsDue(s: TState, step: TStep): nat
    requires Enabled(s, step)
  {
    if step.Unset? && s.queue[step.i].deadline <= s.now then 1 else 0
  }

  ghost function Fires(run: seq<TStep>): nat {
    if run == [] then 0 else FiresIn(run[0]) + Fires(run[1..])
  }

  /** How often a timeout of zero is asked for. */
  ghost function Zeros(run: seq<TStep>): nat {
    if run == [] then 0 else ZerosIn(run[0]) + Zeros(run[1..])
  }

  /** How many timers are cancelled that were due already. */
  ghost function CancelledDue(s: TState, run: seq<TStep>): nat
    requires CanRun(s, run)
    decreases |run|
  {
    if run == [] then 0 else CancelsDue(s, run[0]) + CancelledDue(Apply(s, run[0]), run[1..])
  }

  lemma {:induction false} ZerosAppend(a: seq<TStep>, b: seq<TStep>)
    ensures Zeros(a + b) == Zeros(a) + Zeros(b)
  {
    if a == [] {
      assert a + b == b;
    } else {
      assert (a + b)[1..] == a[1..] + b;
      ZerosAppend(a[1..], b);
    }
  }

  lemma ZerosOne(step: TStep)
    ensures Zeros([step]) == ZerosIn(step)
  {
    assert [step][1..] == [];
  }

  /** Every timer cancelled in the run is one whose callback is in `may`. */
  ghost predicate CancelsOnly(s: TState, run: seq<TStep>, may: set<nat>)
    requires CanRun(s, run)
    decreases |run|
  {
    run != [] ==>
      && (run[0].Unset? ==> s.queue[run[0].i].cb in may)
      && CancelsOnly(Apply(s, run[0]), run[1..], may)
  }

  lemma {:induction false} CancelsAppend(s: TState, a: seq<TStep>, b: seq<TStep>, may: set<nat>)
    requires CanRun(s, a) && CanRun(After(s, a), b) && CancelsOnly(s, a, may) && CancelsOnly(After(s, a), b, may)
    ensures CanRun(s, a + b) && CancelsOnly(s, a + b, may)
    decreases |a|
  {
    Compose(s, a, b);
    if a == [] {
      assert a + b == b;
    } else {
      assert (a + b)[1..] == a[1..] + b;
      CancelsAppend(Apply(s, a[0]), a[1..], b, may);
    }
  }

  /** `run` leads from `s` to `r`, with the clock standing still, `zeros` timeouts of zero, and no timer
      cancelled but those in `may`. */
  ghost predicate Leads(s: TState, run: seq<TStep>, r: TState, zeros: nat, may: set<nat>) {
    && CanRun(s, run) && After(s, run) == r && Zeros(run) == zeros && CancelsOnly(s, run, may)
    && forall step :: step in run ==> !step.Tick?
  }

  lemma LeadsOn(s: TState, a: seq<TStep>, m: TState, x: nat, b: seq<TStep>, r: TState, y: nat, may: set<nat>)
    requires Leads(s, a, m, x, may) && Leads(m, b, r, y, may)
    ensures Leads(s, a + b, r, x + y, may)
  {
    Compose(s, a, b);
    ZerosAppend(a, b);
    CancelsAppend(s, a, b, may);
  }

  lemma LeadsOne(s: TState, step: TStep, may: set<nat>)
    requires Enabled(s, step) && !step.Tick? && (step.Unset? ==> s.queue[step.i].cb in may)
    ensures Leads(s, [step], Apply(s, step), ZerosIn(step), may)
  {
    assert [step][1..] == [];
    assert CanRun(Apply(s, step), []) && After(Apply(s, step), []) == Apply(s, step);
    ZerosOne(step);
  }

  // ----- nothing due gets lost

  lemma MultisetInserted<T>(q: seq<T>, x: T, k: nat)
    requires k <= |q|
    ensures multiset(Inserted(q, x, k)) == multiset(q) + multiset{x}
  {
    assert q == q[..k] + q[k..];
    assert Inserted(q, x, k) == q[..k] + [x] + q[k..];
  }

  lemma MultisetWithout<T>(q: seq<T>, i: nat)
    requires i < |q|
    ensures multiset(q) == multiset(Without(q, i)) + multiset{q[i]}
  {
    assert Inserted(Without(q, i), q[i], i) == q;
    MultisetInserted(Without(q, i), q[i], i);
  }

  /** How often timer `t` is queued, or has been fired at this time. */
  ghost function Kept(s: TState, t: Timer): nat {
    Queued(s.queue, t) + multiset(s.fired)[Firing(t, s.now)]
  }

  ghost function Queued(q: seq<Timer>, t: Timer): nat {
    multiset(q)[t]
  }

  lemma CountInserted(q: seq<Timer>, x: Timer, k: nat, t: Timer)
    requires k <= |q|
    ensures Queued(Inserted(q, x, k), t) >= Queued(q, t)
  {
    MultisetInserted(q, x, k);
  }

  lemma SetKeeps(s: TState, timeout: nat, cb: nat, t: Timer)
    requires timeout <= INT_MAX
    ensures Kept(Apply(s, Set(timeout, cb)), t) >= Kept(s, t)
  {
    var x := Timer(s.now + timeout, cb);
    var k := Slot(s.queue, x.deadline);
    CountInserted(s.queue, x, k, t);
    assert Apply(s, Set(timeout, cb)) == s.(queue := Inserted(s.queue, x, k));
  }

  lemma FireKeeps(s: TState, t: Timer)
    requires Enabled(s, Fire)
    ensures Kept(Apply(s, Fire), t) >= Kept(s, t)
  {
    assert s.queue == [s.queue[0]] + s.queue[1..];
    assert multiset(s.queue) == multiset{s.queue[0]} + multiset(s.queue[1..]);
  }

  lemma StepKeeps(s: TState, step: TStep, t: Timer, may: set<nat>)
    requires Enabled(s, step) && !step.Tick? && t.cb !in may && (step.Unset? ==> s.queue[step.i].cb in may)
    ensures Kept(Apply(s, step), t) >= Kept(s, t)
  {
    match step {
      case Set(timeout, cb) => SetKeeps(s, timeout, cb, t);
      case Unset(i) => MultisetWithout(s.queue, i);
      case Fire => FireKeeps(s, t);
    }
  }

  /** A timer that nobody may cancel stays queued until it is fired. */
  lemma {:induction false} RunKeeps(s: TState, run: seq<TStep>, t: Timer, may: set<nat>)
    requires CanRun(s, run) && CancelsOnly(s, run, may) && t.cb !in may && forall step :: step in run ==> !step.Tick?
    ensures After(s, run).now == s.now && Kept(After(s, run), t) >= Kept(s, t)
    decreases |run|
  {
    if run != [] {
      assert run[0] in run;
      StepKeeps(s, run[0], t, may);
      RunKeeps(Apply(s, run[0]), run[1..], t, may);
    }
  }

  function Firings(q: seq<Timer>, now: nat): (f: seq<Firing>)
    ensures |f| == |q| && forall i :: 0 <= i < |q| ==> f[i] == Firing(q[i], now)
  {
    seq(|q|, i requires 0 <= i < |q| => Firing(q[i], now))
  }

  lemma {:induction false} DueIsPrefix(q: seq<Timer>, now: nat)
    requires Sorted(q)
    ensures Due(q, now) <= |q| && forall i :: 0 <= i < |q| ==> (q[i].deadline <= now <==> i < Due(q, now))
  {
    if q != [] {
      if q[0].deadline > now {
        NoneDue(q, now);
      } else {
        DueIsPrefix(q[1..], now);
        assert forall i :: 1 <= i < |q| ==> q[i] == q[1..][i - 1];
      }
    }
  }

  /** The timers that are due. */
  ghost function DueTimers(s: TState): seq<Timer>
    requires Sorted(s.queue)
  {
    DueIsPrefix(s.queue, s.now);
    s.queue[..Due(s.queue, s.now)]
  }

  lemma LaterIsBehindDue(q: seq<Timer>, x: Timer, k: nat, now: nat)
    requires Sorted(q) && k <= |q| && x.deadline > now && (k < |q| ==> q[k].deadline >= x.deadline)
    ensures Due(Inserted(q, x, k), now) == Due(q, now) <= k
    ensures Inserted(q, x, k)[..Due(q, now)] == q[..Due(q, now)]
  {
    DueIsPrefix(q, now);
    DueInserted(q, x, k, now);
    DueOne(x, now);
  }

  lemma LaterTimerKeepsDue(s: TState, s': TState, timeout: nat, cb: nat)
    requires Sorted(s.queue) && Sorted(s'.queue) && 0 < timeout <= INT_MAX && s' == Apply(s, Set(timeout, cb))
    ensures DueTimers(s') == DueTimers(s)
  {
    var x := Timer(s.now + timeout, cb);
    var k := Slot(s.queue, x.deadline);
    LaterIsBehindDue(s.queue, x, k, s.now);
    assert s'.queue == Inserted(s.queue, x, k);
  }

  lemma DueTail(q: seq<Timer>, now: nat)
    requires Sorted(q) && q != [] && q[0].deadline <= now
    ensures Sorted(q[1..]) && Due(q, now) == 1 + Due(q[1..], now) && Due(q[1..], now) <= |q[1..]|
    ensures q[..Due(q, now)] == [q[0]] + q[1..][..Due(q[1..], now)]
  {
    DueIsPrefix(q[1..], now);
  }

  lemma FiringsCons(t: Timer, q: seq<Timer>, now: nat)
    ensures Firings([t] + q, now) == [Firing(t, now)] + Firings(q, now)
  {
  }

  lemma FiringIsNext(s: TState)
    requires Inv(s) && Enabled(s, Fire)
    ensures Inv(Apply(s, Fire))
    ensures Apply(s, Fire).fired + Firings(DueTimers(Apply(s, Fire)), s.now) == s.fired + Firings(DueTimers(s), s.now)
  {
    StepKeepsInv(s, Fire);
    DueTail(s.queue, s.now);
    var rest := s.queue[1..][..Due(s.queue[1..], s.now)];
    FiringsCons(s.queue[0], rest, s.now);
    Regroup(s.fired, [Firing(s.queue[0], s.now)], Firings(rest, s.now));
  }

  /** If nobody cancels and nobody asks for a timeout of zero, exactly the due timers fire, in their order. */
  lemma {:induction false} DueFireInTurn(s: TState, run: seq<TStep>)
    requires Inv(s) && CanRun(s, run) && CancelsOnly(s, run, {}) && Zeros(run) == 0
    requires forall step :: step in run ==> !step.Tick?
    ensures Inv(After(s, run))
    ensures After(s, run).fired + Firings(DueTimers(After(s, run)), s.now) == s.fired + Firings(DueTimers(s), s.now)
    decreases |run|
  {
    if run != [] {
      assert run[0] in run;
      match run[0] {
        case Set(timeout, cb) =>
          StepKeepsInv(s, run[0]);
          LaterTimerKeepsDue(s, Apply(s, run[0]), timeout, cb);
        case Fire => FiringIsNext(s);
      }
      DueFireInTurn(Apply(s, run[0]), run[1..]);
    }
  }

  // ----- what the firing loop does

  /** One turn: the head fires, and what follows is the callback's. */
  ghost predicate IsFiring(seg: seq<TStep>) {
    seg != [] && seg[0] == Fire && forall step :: step in seg[1..] ==> FromCallback(step)
  }

  ghost function Flat(segs: seq<seq<TStep>>): seq<TStep> {
    if segs == [] then [] else Flat(segs[..|segs| - 1]) + segs[|segs| - 1]
  }

  ghost predicate InTurns(run: seq<TStep>, segs: seq<seq<TStep>>) {
    run == Flat(segs) && forall seg :: seg in segs ==> IsFiring(seg)
  }

  lemma OneMoreTurn(run: seq<TStep>, segs: seq<seq<TStep>>, seg: seq<TStep>)
    requires InTurns(run, segs) && IsFiring(seg)
    ensures InTurns(run + seg, segs + [seg])
  {
    assert (segs + [seg])[..|segs|] == segs;
  }

  /** What a loop has done that started from `s`, has left nothing due, and cancelled only what it may. */
  ghost predicate AllDueFired(s: TState, run: seq<TStep>, r: TState, may: set<nat>)
    requires Sorted(s.queue) && CanRun(s, run)
  {
    && Fires(run) + CancelledDue(s, run) == Due(s.queue, s.now) + Zeros(run)
    && (forall t :: t in s.queue && t.deadline <= s.now && t.cb !in may ==>
          multiset(r.fired)[Firing(t, s.now)] >= multiset(s.fired)[Firing(t, s.now)] + multiset(s.queue)[t])
    && (may == {} && Zeros(run) == 0 ==> r.fired == s.fired + Firings(DueTimers(s), s.now))
  }

  lemma LoopFiresAllDue(s: TState, run: seq<TStep>, r: TState, zeros: nat, may: set<nat>)
    requires Inv(s) && Leads(s, run, r, zeros, may) && forall t :: t in r.queue ==> t.deadline > s.now
    ensures AllDueFired(s, run, r, may)
  {
    FiringsAreAccountedFor(s, run);
    NoneDue(r.queue, s.now);
    forall t | t in s.queue && t.deadline <= s.now && t.cb !in may
      ensures multiset(r.fired)[Firing(t, s.now)] >= multiset(s.fired)[Firing(t, s.now)] + multiset(s.queue)[t]
    {
      RunKeeps(s, run, t, may);
      assert t !in r.queue;
    }
    if may == {} && Zeros(run) == 0 {
      DueFireInTurn(s, run);
      assert DueTimers(r) == [];
    }
  }

  lemma DueInserted(q: seq<Timer>, t: Timer, k: nat, now: nat)
    requires k <= |q|
    ensures Due(Inserted(q, t, k), now) == Due(q, now) + Due([t], now)
  {
    assert q == q[..k] + q[k..];
    DueAppend(q[..k], q[k..], now);
    DueAppend(q[..k], [t], now);
    DueAppend(q[..k] + [t], q[k..], now);
  }

  lemma DueWithout(q: seq<Timer>, i: nat, now: nat)
    requires i < |q|
    ensures Due(Without(q, i), now) + Due([q[i]], now) == Due(q, now)
  {
    assert Inserted(Without(q, i), q[i], i) == q;
    DueInserted(Without(q, i), q[i], i, now);
  }

  lemma StepIsAccountedFor(s: TState, step: TStep)
    requires Enabled(s, step) && !step.Tick?
    ensures Apply(s, step).now == s.now
    ensures FiresIn(step) + CancelsDue(s, step) + Due(Apply(s, step).queue, s.now) ==
            Due(s.queue, s.now) + ZerosIn(step)
  {
    match step {
      case Set(timeout, cb) =>
        var t := Timer(s.now + timeout, cb);
        DueInserted(s.queue, t, Slot(s.queue, t.deadline), s.now);
        DueOne(t, s.now);
      case Unset(i) =>
        DueWithout(s.queue, i, s.now);
        DueOne(s.queue[i], s.now);
      case Fire =>
    }
  }

  /** While the clock stands still: every timer that was due, and every timeout of zero asked for since, is
      fired, or cancelled, or still due.  So firings go on without end only if timeouts of zero do. */
  lemma {:induction false} FiringsAreAccountedFor(s: TState, run: seq<TStep>)
    requires CanRun(s, run) && forall step :: step in run ==> !step.Tick?
    ensures After(s, run).now == s.now
    ensures Fires(run) + CancelledDue(s, run) + Due(After(s, run).queue, s.now) == Due(s.queue, s.now) + Zeros(run)
    decreases |run|
  {
    if run != [] {
      assert run[0] in run;
      StepIsAccountedFor(s, run[0]);
      FiringsAreAccountedFor(Apply(s, run[0]), run[1..]);
    }
  }

  /** And the bound is reached: with any number of timeouts of zero, as many more firings. */
  lemma {:induction false} ZeroTimeoutsGoOn(s: TState, cb: nat, n: nat) returns (run: seq<TStep>)
    requires Enabled(s, Fire)
    ensures CanRun(s, run) && forall step :: step in run ==> step == Fire || step == Set(0, cb)
    ensures Fires(run) == Zeros(run) == n && CancelledDue(s, run) == 0
    ensures After(s, run).now == s.now && Enabled(After(s, run), Fire)
    decreases n
  {
    run := [];
    if n > 0 {
      var s1 := Apply(s, Fire);
      var s2 := Apply(s1, Set(0, cb));
      assert Slot(s1.queue, s.now) > 0 ==> s2.queue[0] == s1.queue[0];
      var rest := ZeroTimeoutsGoOn(s2, cb, n - 1);
      var tail := [Set(0, cb)] + rest;
      run := [Fire] + tail;
      assert run[1..] == tail && tail[1..] == rest;
      assert CanRun(s1, tail) && After(s1, tail) == After(s2, rest);
      assert Fires(tail) == Fires(rest) && Zeros(tail) == 1 + Zeros(rest) && CancelledDue(s1, tail) == 0;
    }
  }

  /** A callback can bring the first deadline down to the clock, but not below it. */
  lemma {:induction false} CallbackStaysAhead(s: TState, run: seq<TStep>)
    requires CanRun(s, run) && forall step :: step in run ==> FromCallback(step)
    requires forall t :: t in s.queue ==> s.now <= t.deadline
    ensures forall t :: t in After(s, run).queue ==> s.now <= t.deadline
    ensures After(s, run).now == s.now
    decreases |run|
  {
    if run != [] {
      assert run[0] in run;
      var s' := Apply(s, run[0]);
      forall t | t in s'.queue
        ensures s'.now <= t.deadline
      {
        match run[0] {
          case Set(timeout, cb) => assert t in s.queue || t == Timer(s.now + timeout, cb);
          case Unset(_) => assert t in s.queue;
        }
      }
      CallbackStaysAhead(s', run[1..]);
    }
  }

  /** With nothing due in front, nothing is due at all. */
  lemma NothingDue(s: TState)
    requires Sorted(s.queue) && (s.queue == [] || s.queue[0].deadline > s.now)
    ensures forall i :: 0 <= i < |s.queue| ==> s.queue[i].deadline > s.now
  {
    if s.queue != [] {
      assert forall i :: 0 <= i < |s.queue| ==> s.queue[0].deadline <= s.queue[i].deadline;
    }
  }
}
