/** The promises of the wait queue, mutex and rwlock documentation, for every run from the start. */
module LockTheorems {
  import opened Common
  import opened WaitQueues
  import opened RwLocks
  import opened LockProtocol
  import opened LockProofs

  lemma ReachableInv(run: seq<Step>)
    requires CanRun(INIT, run)
    ensures Inv(After(INIT, run))
  {
    RunKeepsInv(INIT, run);
  }

  // ----- critical sections as the threads see them

  /** A critical section, with the way it was entered. */
  datatype Section = Mx(m: nat) | Rd(r: nat) | Wr(r: nat)

  function LockOf(x: Section): LockId {
    match x
    case Mx(m) => TheMutex(m)
    case Rd(r) => TheRw(r)
    case Wr(r) => TheRw(r)
  }

  function SectionOf(q: QId): Option<Section> {
    match q
    case UserQ(_) => None
    case MutexQ(m) => Some(Mx(m))
    case WritersQ(r) => Some(Wr(r))
    case ReadersQ(r) => Some(Rd(r))
  }

  /** What the lock's own fields say. */
  predicate HoldsAs(s: State, t: Tid, x: Section) {
    match x
    case Mx(m) => m in s.mutexes && s.mutexes[m] == t
    case Rd(r) => t in RwOf(s, r).holders && RwOf(s, r).holders[t] == Reader
    case Wr(r) => t in RwOf(s, r).holders && RwOf(s, r).holders[t] == Writer
  }

  /** An enter call of `t` returns to its caller in this step: a try that reports success, or a
      blocking call after which the thread goes on running. */
  ghost predicate Entered(s: State, step: Step, t: Tid, x: Section)
    requires Enabled(s, step)
  {
    match step
    case TryEnter(u, m) => u == t && x == Mx(m) && m !in s.mutexes
    case Enter(u, m) => u == t && x == Mx(m) && At(Apply(s, step), t, Awake)
    case TryRead(u, r) => u == t && x == Rd(r) && MayRead(RwOf(s, r), |Q(s, WritersQ(r))|)
    case DoEnterRead(u, r) => u == t && x == Rd(r) && At(Apply(s, step), t, Awake)
    case TryWrite(u, r) => u == t && x == Wr(r) && MayWrite(RwOf(s, r))
    case DoEnterWrite(u, r) => u == t && x == Wr(r) && At(Apply(s, step), t, Awake)
    case Resume(w) =>
      && t == s.wakes[w].taken[s.wakes[w].pos] && SectionOf(s.wakes[w].origin) == Some(x)
      && At(Apply(s, step), t, Awake)
    case _ => false
  }

  /** `t` leaves, or ceases to exist. */
  ghost predicate Left(s: State, step: Step, t: Tid, x: Section) {
    match step
    case Leave(u, m) => u == t && x == Mx(m)
    case LeaveRw(u, r) => u == t && LockOf(x) == TheRw(r)
    case Exit(u, _) => u == t
    case Alarm(u, _) => u == t && !Misuse(s, step)
    case _ => false
  }

  /** Bookkeeping on the calls alone: is `t` inside `x` after the run, given whether it was before? */
  ghost predicate Inside(s: State, run: seq<Step>, t: Tid, x: Section, before: bool)
    requires CanRun(s, run)
    decreases |run|
  {
    if run == [] then before
    else Inside(Apply(s, run[0]), run[1..], t, x,
                (before || Entered(s, run[0], t, x)) && !Left(s, run[0], t, x))
  }

  lemma WakeUpOneLocks(s: State, q: QId)
    ensures WakeUpOne(s, q).mutexes == s.mutexes && WakeUpOne(s, q).rwlocks == s.rwlocks
  {
  }

  lemma ReleaseRwLocks(s: State, t: Tid, r: nat)
    requires Agree(RwOf(s, r)) && t in RwOf(s, r).holders
    ensures ReleaseRw(s, t, r).mutexes == s.mutexes
    ensures RwOf(ReleaseRw(s, t, r), r).holders == RwOf(s, r).holders - {t}
    ensures forall k :: k != r ==> RwOf(ReleaseRw(s, t, r), k) == RwOf(s, k)
  {
    var rel := DoRelease(RwOf(s, r), t, |Q(s, WritersQ(r))|, |Q(s, ReadersQ(r))|);
    ReleaseKeepsAgreement(RwOf(s, r), t, |Q(s, WritersQ(r))|, |Q(s, ReadersQ(r))|);
    WakeUpOneLocks(WithRw(s, r, rel.rw), WritersQ(r));
    WakeUpOneLocks(WithRw(s, r, rel.rw), ReadersQ(r));
  }

  lemma ReleaseLockSections(s: State, t: Tid, l: LockId, u: Tid, x: Section)
    requires HoldersOk(s) && Holds(s, t, l)
    ensures HoldsAs(ReleaseLock(s, t, l), u, x) <==> HoldsAs(s, u, x) && !(u == t && LockOf(x) == l)
  {
    match l {
      case TheMutex(m) => WakeUpOneLocks(s.(mutexes := s.mutexes - {m}), MutexQ(m));
      case TheRw(r) => ReleaseRwLocks(s, t, r);
    }
  }

  lemma {:induction false} ReleaseAllSections(s: State, t: Tid, order: seq<LockId>, u: Tid, x: Section)
    requires Inv(s) && At(s, t, Awake) && IsHeldList(s, t, order)
    ensures HoldsAs(ReleaseAll(s, t, order), u, x) <==> HoldsAs(s, u, x) && u != t
    decreases |order|
  {
    if order == [] {
      assert !Holds(s, t, LockOf(x));
    } else {
      ReleaseHead(s, t, order);
      ReleaseLockSections(s, t, order[0], u, x);
      ReleaseAllSections(ReleaseLock(s, t, order[0]), t, order[1..], u, x);
    }
  }

  lemma AlarmSections(s: State, t: Tid, order: seq<LockId>, u: Tid, x: Section)
    requires Inv(s) && Live(s, t) && IsHeldList(s, t, order) && !s.loc[t].InWake?
    ensures HoldsAs(AlarmIn(s, t, order), u, x) <==> HoldsAs(s, u, x) && u != t
  {
    match s.loc[t] {
      case Awake => ReleaseAllSections(s, t, order, u, x);
      case OnQueue(q) =>
        var s' := s.(queues := s.queues[q := Erase(Q(s, q), t)], loc := s.loc[t := Awake]);
        LeavingAQueueKeepsInv(s, t, q);
        SameLocks(s, s');
        ReleaseAllSections(s', t, order, u, x);
    }
  }

  predicate Grants(s: State, x: Section) {
    match x
    case Mx(m) => m !in s.mutexes
    case Rd(r) => MayRead(RwOf(s, r), |Q(s, WritersQ(r))|)
    case Wr(r) => MayWrite(RwOf(s, r))
  }

  lemma AttemptOutcome(s: State, t: Tid, q: QId)
    requires At(s, t, Awake)
    ensures q.UserQ? ==> Continue(s, t, q) == s
    ensures !q.UserQ? ==>
              var got := Grants(s, SectionOf(q).value);
              && (At(Continue(s, t, q), t, Awake) <==> got)
              && Continue(s, t, q) == if got then Granted(s, t, SectionOf(q).value) else Sleep(s, t, q)
  {
  }

  function Granted(s: State, t: Tid, x: Section): State {
    match x
    case Mx(m) => EnterMutex(s, t, m)
    case Rd(r) => WithRw(s, r, EnterRead(RwOf(s, r), t))
    case Wr(r) => WithRw(s, r, EnterWrite(RwOf(s, r), t))
  }

  lemma GrantSections(s: State, t: Tid, x: Section, u: Tid, y: Section)
    requires !Holds(s, t, LockOf(x)) && (x.Mx? ==> x.m !in s.mutexes)
    ensures HoldsAs(Granted(s, t, x), u, y) <==> HoldsAs(s, u, y) || (u == t && y == x)
  {
  }

  lemma ContinueSections(s: State, t: Tid, q: QId, u: Tid, x: Section)
    requires At(s, t, Awake)
    requires q.ReadersQ? || q.WritersQ? ==> !Holds(s, t, TheRw(q.id))
    ensures HoldsAs(Continue(s, t, q), u, x) <==>
              || HoldsAs(s, u, x)
              || (u == t && SectionOf(q) == Some(x) && At(Continue(s, t, q), t, Awake))
  {
    AttemptOutcome(s, t, q);
    if !q.UserQ? {
      if Grants(s, SectionOf(q).value) {
        GrantSections(s, t, SectionOf(q).value, u, x);
      } else {
        SameLocks(s, Sleep(s, t, q));
      }
    }
  }

  ghost predicate Tracked(s: State, step: Step, t: Tid, x: Section)
    requires Enabled(s, step)
  {
    HoldsAs(Apply(s, step), t, x) <==> (HoldsAs(s, t, x) || Entered(s, step, t, x)) && !Left(s, step, t, x)
  }

  lemma TryTracked(s: State, step: Step, t: Tid, x: Section)
    requires Enabled(s, step) && (step.TryEnter? || step.TryRead? || step.TryWrite?)
    ensures Tracked(s, step, t, x)
  {
    match step {
      case TryEnter(u, m) =>
        if m !in s.mutexes {
          GrantSections(s, u, Mx(m), t, x);
        }
      case TryRead(u, r) => GrantSections(s, u, Rd(r), t, x);
      case TryWrite(u, r) => GrantSections(s, u, Wr(r), t, x);
    }
  }

  lemma EnterTracked(s: State, step: Step, t: Tid, x: Section)
    requires Inv(s) && Enabled(s, step)
    requires step.Enter? || step.DoEnterRead? || step.DoEnterWrite? || step.Resume?
    ensures Tracked(s, step, t, x)
  {
    match step {
      case Enter(u, m) => ContinueSections(s, u, MutexQ(m), t, x);
      case DoEnterRead(u, r) => ContinueSections(s, u, ReadersQ(r), t, x);
      case DoEnterWrite(u, r) => ContinueSections(s, u, WritersQ(r), t, x);
      case Resume(w) =>
        var k := s.wakes[w];
        var u := k.taken[k.pos];
        AdvanceKeepsPlaces(s, w);
        SameLocks(s, Advance(s, w));
        assert Waiting(s, u, k.origin);
        ContinueSections(Advance(s, w), u, k.origin, t, x);
    }
  }

  lemma LeaveTracked(s: State, step: Step, t: Tid, x: Section)
    requires Inv(s) && Enabled(s, step) && (step.Leave? || step.LeaveRw? || step.Exit? || step.Alarm?)
    ensures Tracked(s, step, t, x)
  {
    match step {
      case Leave(u, m) =>
        if Holds(s, u, TheMutex(m)) {
          ReleaseLockSections(s, u, TheMutex(m), t, x);
        }
      case LeaveRw(u, r) =>
        if Holds(s, u, TheRw(r)) {
          ReleaseLockSections(s, u, TheRw(r), t, x);
        }
      case Exit(u, order) => ReleaseAllSections(s, u, order, t, x);
      case Alarm(_, _) => AlarmTracked(s, step, t, x);
    }
  }

  lemma AlarmTracked(s: State, step: Step, t: Tid, x: Section)
    requires Inv(s) && Enabled(s, step) && step.Alarm?
    ensures Tracked(s, step, t, x)
  {
    if !Misuse(s, step) {
      AlarmSections(s, step.t, step.order, t, x);
    } else {
      assert step.t !in Q(s, s.loc[step.t].q);
    }
  }

  lemma CalmTracked(s: State, step: Step, t: Tid, x: Section)
    requires Enabled(s, step)
    requires step.Spawn? || step.SleepOn? || step.WakeAll? || step.WakeOne? || step.SetPriority?
    ensures Tracked(s, step, t, x)
  {
    if step.WakeOne? {
      WakeUpOneLocks(s, UserQ(step.id));
    }
  }

  lemma StepTracked(s: State, step: Step, t: Tid, x: Section)
    requires Inv(s) && Enabled(s, step)
    ensures Tracked(s, step, t, x)
  {
    if step.Spawn? || step.SleepOn? || step.WakeAll? || step.WakeOne? || step.SetPriority? {
      CalmTracked(s, step, t, x);
    } else if step.TryEnter? || step.TryRead? || step.TryWrite? {
      TryTracked(s, step, t, x);
    } else if step.Enter? || step.DoEnterRead? || step.DoEnterWrite? || step.Resume? {
      EnterTracked(s, step, t, x);
    } else {
      LeaveTracked(s, step, t, x);
    }
  }

  /** The lock fields agree with what the threads were told, for every thread and every lock. */
  lemma {:induction false} InsideIsHolding(s: State, run: seq<Step>, t: Tid, x: Section)
    requires Inv(s) && CanRun(s, run)
    ensures Inside(s, run, t, x, HoldsAs(s, t, x)) <==> HoldsAs(After(s, run), t, x)
    decreases |run|
  {
    if run != [] {
      StepKeepsInv(s, run[0]);
      StepTracked(s, run[0], t, x);
      InsideIsHolding(Apply(s, run[0]), run[1..], t, x);
    }
  }

  // ----- exclusion

  predicate Conflict(x: Section, y: Section) {
    LockOf(x) == LockOf(y) && !(x.Rd? && y.Rd?)
  }

  /** Two threads are never told to be in conflicting sections, whatever the run does with tries,
      barging, alarms and exits. */
  lemma MutualExclusion(run: seq<Step>, t: Tid, x: Section, u: Tid, y: Section)
    requires CanRun(INIT, run) && Conflict(x, y)
    requires Inside(INIT, run, t, x, false) && Inside(INIT, run, u, y, false)
    ensures t == u && x == y
  {
    InsideIsHolding(INIT, run, t, x);
    InsideIsHolding(INIT, run, u, y);
    ReachableInv(run);
    var s := After(INIT, run);
    if !x.Mx? {
      AgreementMeansExclusion(RwOf(s, x.r), t);
      AgreementMeansExclusion(RwOf(s, x.r), u);
    }
  }

  /** A thread that is gone is inside nothing: its locks went with its pool. */
  lemma ExitedThreadsHoldNothing(run: seq<Step>, t: Tid, x: Section)
    requires CanRun(INIT, run) && At(After(INIT, run), t, Exited)
    ensures !Inside(INIT, run, t, x, false) && !Holds(After(INIT, run), t, LockOf(x))
  {
    InsideIsHolding(INIT, run, t, x);
    ReachableInv(run);
    var s := After(INIT, run);
    assert !Live(s, t);
    assert Holds(s, t, LockOf(x)) ==> Live(s, t);
  }

  /** The counter of an rwlock counts the threads inside, or is -1 for one writer alone. */
  lemma RwCounterTellsTheTruth(run: seq<Step>, r: nat)
    requires CanRun(INIT, run)
    ensures var rw := RwOf(After(INIT, run), r);
            && (forall t :: t in rw.holders <==>
                  Inside(INIT, run, t, Rd(r), false) || Inside(INIT, run, t, Wr(r), false))
            && (rw.n == -1 ==> exists w :: rw.holders.Keys == {w} && Inside(INIT, run, w, Wr(r), false))
            && (rw.n != -1 ==> rw.n == |rw.holders| && forall t :: !Inside(INIT, run, t, Wr(r), false))
  {
    ReachableInv(run);
    var rw := RwOf(After(INIT, run), r);
    assert Agree(rw);
    forall t: Tid
      ensures Inside(INIT, run, t, Rd(r), false) <==> t in rw.holders && rw.holders[t] == Reader
      ensures Inside(INIT, run, t, Wr(r), false) <==> t in rw.holders && rw.holders[t] == Writer
    {
      InsideIsHolding(INIT, run, t, Rd(r));
      InsideIsHolding(INIT, run, t, Wr(r));
    }
    if rw.n == -1 {
      assert |rw.holders.Keys| == 1;
      var w :| w in rw.holders;
      assert |rw.holders.Keys - {w}| == 0;
      assert rw.holders.Keys == {w};
    }
  }

  // ----- wake-ups

  /** No lost wake-up for mutexes and for writers. */
  lemma WakeUpsAreNotLost(run: seq<Step>, id: nat)
    requires CanRun(INIT, run)
    ensures var s := After(INIT, run);
            && (id !in s.mutexes && Q(s, MutexQ(id)) != [] ==> PendingOn(s, MutexQ(id)))
            && (RwOf(s, id).n == 0 && Q(s, WritersQ(id)) != [] ==> PendingOn(s, WritersQ(id)))
  {
    ReachableInv(run);
    assert NoLostWakeUp(After(INIT, run), MutexQ(id));
    assert NoLostWakeUp(After(INIT, run), WritersQ(id));
  }

  /** A list some thread can be found on: a sleepers list, or the rest of a private wake list. */
  datatype ListId = Sleepers(q: QId) | Private(w: nat)

  function Members(s: State, l: ListId): seq<Tid> {
    match l
    case Sleepers(q) => Q(s, q)
    case Private(w) =>
      if w < |s.wakes| && s.wakes[w].pos <= |s.wakes[w].taken| then s.wakes[w].taken[s.wakes[w].pos..] else []
  }

  /** In no reachable state is a thread entered twice, on one list or on two; and the threads that are
      on a list are exactly those that sleep. */
  lemma SleepersAreListedOnce(run: seq<Step>, k: ListId, i: nat, l: ListId, j: nat)
    requires CanRun(INIT, run)
    requires i < |Members(After(INIT, run), k)| && j < |Members(After(INIT, run), l)|
    ensures var s := After(INIT, run);
            && (Members(s, k)[i] == Members(s, l)[j] ==> k == l && i == j)
            && Live(s, Members(s, k)[i]) && !At(s, Members(s, k)[i], Awake)
  {
    ReachableInv(run);
    var s := After(INIT, run);
    ListedWhereLocated(s, k, i);
    ListedWhereLocated(s, l, j);
    if k == l && k.Private? && Members(s, k)[i] == Members(s, l)[j] {
      var w := s.wakes[k.w];
      assert w.taken[w.pos + i] == w.taken[w.pos + j];
    }
  }

  lemma ListedWhereLocated(s: State, k: ListId, i: nat)
    requires Inv(s) && i < |Members(s, k)|
    ensures var t := Members(s, k)[i];
            && t in s.loc
            && (k.Sleepers? ==> s.loc[t] == OnQueue(k.q))
            && (k.Private? ==> s.loc[t].InWake? && s.loc[t].w == k.w)
  {
    match k {
      case Sleepers(q) => assert Q(s, q)[i] in Q(s, q);
      case Private(w) => assert At(s, s.wakes[w].taken[s.wakes[w].pos + i], InWake(s.wakes[w].origin, w));
    }
  }

  lemma SleepersAreListed(run: seq<Step>, t: Tid)
    requires CanRun(INIT, run) && Live(After(INIT, run), t) && !At(After(INIT, run), t, Awake)
    ensures exists l :: t in Members(After(INIT, run), l)
  {
    ReachableInv(run);
    var s := After(INIT, run);
    match s.loc[t] {
      case OnQueue(q) => assert t in Members(s, Sleepers(q));
      case InWake(q, w) =>
        assert InPrivateList(s, t, q, w);
        assert t in Members(s, Private(w));
    }
  }

  /** Wake-ups only accumulate and advance; what one has taken never changes. */
  ghost predicate Extends(s: State, s': State) {
    && |s.wakes| <= |s'.wakes|
    && forall w :: 0 <= w < |s.wakes| ==>
         && s'.wakes[w].taken == s.wakes[w].taken && s'.wakes[w].origin == s.wakes[w].origin
         && s.wakes[w].pos <= s'.wakes[w].pos
  }

  lemma {:induction false} ReleaseAllExtends(s: State, t: Tid, order: seq<LockId>)
    ensures Extends(s, ReleaseAll(s, t, order))
    decreases |order|
  {
    if order != [] {
      ReleaseAllExtends(ReleaseLock(s, t, order[0]), t, order[1..]);
    }
  }

  lemma AlarmExtends(s: State, t: Tid, order: seq<LockId>)
    requires t in s.loc
    ensures Extends(s, AlarmIn(s, t, order))
  {
    if s.loc[t].Awake? {
      ReleaseAllExtends(s, t, order);
    } else if !s.loc[t].Exited? {
      var q := s.loc[t].q;
      var s' := s.(queues := s.queues[q := Erase(Q(s, q), t)], loc := s.loc[t := Awake]);
      ReleaseAllExtends(s', t, order);
    }
  }

  lemma StepExtends(s: State, step: Step)
    requires Enabled(s, step)
    ensures Extends(s, Apply(s, step))
  {
    match step {
      case Exit(t, order) => ReleaseAllExtends(s, t, order);
      case Alarm(t, order) => AlarmExtends(s, t, order);
      case Resume(w) =>
        var k := s.wakes[w];
        var a := Advance(s, w);
        assert Continue(a, k.taken[k.pos], k.origin).wakes == a.wakes;
      case _ =>
    }
  }

  lemma {:induction false} RunExtends(s: State, run: seq<Step>)
    requires CanRun(s, run)
    ensures Extends(s, After(s, run))
    decreases |run|
  {
    if run != [] {
      StepExtends(s, run[0]);
      RunExtends(Apply(s, run[0]), run[1..]);
    }
  }

  lemma {:induction false} RunsCompose(s: State, run: seq<Step>, more: seq<Step>)
    requires CanRun(s, run) && CanRun(After(s, run), more)
    ensures CanRun(s, run + more) && After(s, run + more) == After(After(s, run), more)
    decreases |run|
  {
    if run == [] {
      assert run + more == more;
    } else {
      assert (run + more)[1..] == run[1..] + more;
      RunsCompose(Apply(s, run[0]), run[1..], more);
    }
  }

  lemma RunsOne(s: State, a: Step)
    requires Enabled(s, a)
    ensures CanRun(s, [a]) && After(s, [a]) == Apply(s, a)
  {
    var none: seq<Step> := [];
    assert [a][1..] == none;
    assert CanRun(Apply(s, a), none) && After(Apply(s, a), none) == Apply(s, a);
  }

  lemma RunsThree(s: State, a: Step, b: Step, c: Step)
    requires Enabled(s, a) && Enabled(Apply(s, a), b) && Enabled(Apply(Apply(s, a), b), c)
    ensures CanRun(s, [a, b, c]) && After(s, [a, b, c]) == Apply(Apply(Apply(s, a), b), c)
  {
    assert [a, b, c][1..] == [b, c] && [b, c][1..] == [c] && [c][1..] == [];
    var s1, s2 := Apply(s, a), Apply(Apply(s, a), b);
    RunsOne(s2, c);
    assert CanRun(s1, [b, c]) && After(s1, [b, c]) == After(s2, [c]);
  }

  /** Take any wake-up present after `run` and go on with any `more`: the threads it has resumed by then
      are a prefix, in FIFO order, of what it took when it was made, without repetition (so a thread that
      went back to sleep meanwhile was not resumed by it again), and all of it once it has finished. */
  lemma WakeUpsResumeOnceInOrder(run: seq<Step>, more: seq<Step>, w: nat)
    requires CanRun(INIT, run) && CanRun(After(INIT, run), more) && w < |After(INIT, run).wakes|
    ensures var taken, s := After(INIT, run).wakes[w].taken, After(After(INIT, run), more);
            && Distinct(taken)
            && w < |s.wakes| && s.wakes[w].pos <= |taken|
            && ResumedBy(s.history, w) == taken[..s.wakes[w].pos]
            && (s.wakes[w].pos == |taken| ==> ResumedBy(s.history, w) == taken)
  {
    RunsCompose(INIT, run, more);
    ReachableInv(run + more);
    RunExtends(After(INIT, run), more);
  }

  // ----- priority, and the readers

  /** With writers first, no reader is let in while a writer sleeps, by any of the three ways in. */
  lemma NoReaderPasses(s: State, step: Step, t: Tid, r: nat)
    requires Inv(s) && Enabled(s, step) && Entered(s, step, t, Rd(r)) && RwOf(s, r).writersFirst
    ensures Q(s, WritersQ(r)) == []
  {
    match step {
      case TryRead(_, _) =>
      case DoEnterRead(_, _) =>
      case Resume(w) =>
        var a := Advance(s, w);
        assert Q(a, WritersQ(r)) == Q(s, WritersQ(r)) && RwOf(a, r) == RwOf(s, r);
    }
  }

  /** Before every step of the run, writers are first and one is asleep. */
  ghost predicate WriterWaits(s: State, run: seq<Step>, r: nat)
    requires CanRun(s, run)
    decreases |run|
  {
    run != [] ==>
      && RwOf(s, r).writersFirst && Q(s, WritersQ(r)) != []
      && WriterWaits(Apply(s, run[0]), run[1..], r)
  }

  lemma {:induction false} ReadersOnlyLeave(s: State, run: seq<Step>, t: Tid, r: nat)
    requires Inv(s) && CanRun(s, run) && WriterWaits(s, run, r)
    requires HoldsAs(After(s, run), t, Rd(r))
    ensures HoldsAs(s, t, Rd(r))
    decreases |run|
  {
    if run != [] {
      StepKeepsInv(s, run[0]);
      ReadersOnlyLeave(Apply(s, run[0]), run[1..], t, r);
      StepTracked(s, run[0], t, Rd(r));
      if Entered(s, run[0], t, Rd(r)) {
        NoReaderPasses(s, run[0], t, r);
      }
    }
  }

  /** While a writer waits and writers are first, whatever happens: whoever is inside as a reader at the end
      was inside before, so the readers only get fewer; and once nobody is inside, the writer's wake-up
      is pending. */
  lemma WritersGoFirst(run: seq<Step>, more: seq<Step>, t: Tid, r: nat)
    requires CanRun(INIT, run) && CanRun(After(INIT, run), more) && WriterWaits(After(INIT, run), more, r)
    ensures CanRun(INIT, run + more)
    ensures Inside(INIT, run + more, t, Rd(r), false) ==> Inside(INIT, run, t, Rd(r), false)
    ensures var s := After(INIT, run + more);
            Q(s, WritersQ(r)) != [] && RwOf(s, r).holders == map[] ==> PendingOn(s, WritersQ(r))
  {
    RunsCompose(INIT, run, more);
    ReachableInv(run);
    InsideIsHolding(INIT, run, t, Rd(r));
    InsideIsHolding(INIT, run + more, t, Rd(r));
    if Inside(INIT, run + more, t, Rd(r), false) {
      ReadersOnlyLeave(After(INIT, run), more, t, r);
    }
    ReachableInv(run + more);
    AgreementMeansExclusion(RwOf(After(INIT, run + more), r), t);
    WakeUpsAreNotLost(run + more, r);
  }
}
