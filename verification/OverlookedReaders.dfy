/** Readers that sleep although they could enter: which steps leave one behind with no wake-up on its way. */
module OverlookedReaders {
  import opened Common
  import opened WaitQueues
  import opened RwLocks
  import opened LockProtocol
  import opened LockProofs
  import opened LockTheorems
  import opened ReaderWakeups

  /** A reader sleeps on a lock it could enter at once, and nothing is on its way to wake it. */
  ghost predicate Overlooked(s: State, r: nat) {
    && MayRead(RwOf(s, r), |Q(s, WritersQ(r))|)
    && Q(s, ReadersQ(r)) != [] && NothingComing(s, r)
  }

  /** Readers are inside, and only the priority of a sleeping writer keeps others out. */
  ghost predicate HeldBack(s: State, r: nat) {
    RwOf(s, r).n > 0 && RwOf(s, r).writersFirst && Q(s, WritersQ(r)) != []
  }

  /** Wake-up `w` is the only one under way on `q`, and has one thread left. */
  ghost predicate LastPending(s: State, q: QId, w: nat) {
    && Unfinished(s, q, w) && s.wakes[w].pos + 1 == |s.wakes[w].taken|
    && forall v :: Unfinished(s, q, v) ==> v == w
  }

  /** With readers asleep and nothing else on its way: the priority is taken from a sleeping writer; or an
      alarm takes the one sleeping writer away; or the last woken reader enters, and leaves the rest
      behind; or the last woken writer finds readers inside that have priority, and goes back to sleep. */
  ghost predicate Overlooks(s: State, step: Step, r: nat) {
    && Q(s, ReadersQ(r)) != []
    && match step
       case SetPriority(k, writers) => k == r && !writers && HeldBack(s, r) && NothingComing(s, r)
       case Alarm(t, _) => Q(s, WritersQ(r)) == [t] && HeldBack(s, r) && NothingComing(s, r)
       case Resume(w) =>
         || (&& LastPending(s, ReadersQ(r), w) && !PendingOn(s, WritersQ(r))
             && MayRead(RwOf(s, r), |Q(s, WritersQ(r))|))
         || (&& LastPending(s, WritersQ(r), w) && !PendingOn(s, ReadersQ(r))
             && RwOf(s, r).n > 0 && !RwOf(s, r).writersFirst)
       case _ => false
  }

  /** The free lock is a special case. */
  lemma StrandedIsOverlooked(s: State, r: nat)
    requires Inv(s)
    ensures Stranded(s, r) <==> Overlooked(s, r) && RwOf(s, r).n == 0
  {
    assert NoLostWakeUp(s, WritersQ(r));
  }

  lemma SameLockSameReaders(s: State, s': State, r: nat)
    requires SameLock(s, s', r)
    ensures Overlooked(s', r) <==> Overlooked(s, r)
  {
    SameLockSamePending(s, s', r);
    assert Q(s', ReadersQ(r)) == Q(s, ReadersQ(r)) && Q(s', WritersQ(r)) == Q(s, WritersQ(r));
  }

  // ----- releases

  /** Leaving the lock overlooks nobody who was not overlooked before. */
  lemma OwnReleaseIsFair(s: State, t: Tid, r: nat)
    requires Inv(s) && Holds(s, t, TheRw(r)) && !Overlooked(s, r)
    ensures !Overlooked(ReleaseRw(s, t, r), r)
  {
    var rw, s' := RwOf(s, r), ReleaseRw(s, t, r);
    var rel := DoRelease(rw, t, |Q(s, WritersQ(r))|, |Q(s, ReadersQ(r))|);
    ReleaseKeepsAgreement(rw, t, |Q(s, WritersQ(r))|, |Q(s, ReadersQ(r))|);
    match rel.target {
      case Nobody => SilentRelease(s, r, rel.rw);
      case OneWriter => assert Unfinished(s', WritersQ(r), |s.wakes|);
      case OneReader => assert Unfinished(s', ReadersQ(r), |s.wakes|);
    }
  }

  lemma ReleaseIsFair(s: State, t: Tid, l: LockId, r: nat)
    requires Inv(s) && Holds(s, t, l) && !Overlooked(s, r)
    ensures !Overlooked(ReleaseLock(s, t, l), r)
  {
    if l == TheRw(r) {
      OwnReleaseIsFair(s, t, r);
    } else {
      OtherRelease(s, t, l, r);
      SameLockSameReaders(s, ReleaseLock(s, t, l), r);
    }
  }

  lemma {:induction false} ReleaseAllIsFair(s: State, t: Tid, order: seq<LockId>, r: nat)
    requires Inv(s) && At(s, t, Awake) && IsHeldList(s, t, order) && !Overlooked(s, r)
    ensures !Overlooked(ReleaseAll(s, t, order), r)
    decreases |order|
  {
    if order != [] {
      ReleaseHead(s, t, order);
      ReleaseIsFair(s, t, order[0], r);
      ReleaseAllIsFair(ReleaseLock(s, t, order[0]), t, order[1..], r);
    }
  }

  lemma ExitIsFair(s: State, t: Tid, order: seq<LockId>, r: nat)
    requires Inv(s) && At(s, t, Awake) && IsHeldList(s, t, order) && !Overlooked(s, r)
    ensures !Overlooked(ExitThread(s, t, order), r)
  {
    ReleaseAllIsFair(s, t, order, r);
    SameLockSameReaders(ReleaseAll(s, t, order), ExitThread(s, t, order), r);
  }

  // ----- alarms

  function Gone(s: State, t: Tid, q: QId): State {
    s.(queues := s.queues[q := Erase(Q(s, q), t)], loc := s.loc[t := Awake])
  }

  /** A thread that leaves one of the lock's queues holds other locks only. */
  lemma SleeperExits(s: State, t: Tid, q: QId, order: seq<LockId>, r: nat)
    requires Inv(s) && At(s, t, OnQueue(q)) && IsHeldList(s, t, order) && (q == ReadersQ(r) || q == WritersQ(r))
    ensures Overlooked(AlarmIn(s, t, order), r) <==> Overlooked(Gone(s, t, q), r)
  {
    var s' := Gone(s, t, q);
    LeavingAQueueKeepsInv(s, t, q);
    SameLocks(s, s');
    assert Waiting(s, t, q);
    ReleaseOthers(s', t, order, r);
    SameLockSameReaders(s', ReleaseAll(s', t, order), r);
    SameLockSameReaders(ReleaseAll(s', t, order), ExitThread(s', t, order), r);
  }

  lemma GoneFrame(s: State, t: Tid, q: QId)
    ensures forall p :: p != q ==> Q(Gone(s, t, q), p) == Q(s, p)
    ensures Q(Gone(s, t, q), q) == Erase(Q(s, q), t)
    ensures forall p :: PendingOn(Gone(s, t, q), p) <==> PendingOn(s, p)
    ensures forall k :: RwOf(Gone(s, t, q), k) == RwOf(s, k)
  {
    assert forall p, w :: Unfinished(Gone(s, t, q), p, w) <==> Unfinished(s, p, w);
  }

  lemma WriterGone(s: State, t: Tid, r: nat)
    requires Inv(s) && At(s, t, OnQueue(WritersQ(r))) && !Overlooked(s, r)
    ensures Overlooked(Gone(s, t, WritersQ(r)), r) <==>
              Q(s, ReadersQ(r)) != [] && Q(s, WritersQ(r)) == [t] && HeldBack(s, r) && NothingComing(s, r)
  {
    GoneFrame(s, t, WritersQ(r));
    assert NoLostWakeUp(s, WritersQ(r));
    assert |Q(s, WritersQ(r))| == 1 ==> Q(s, WritersQ(r)) == [t];
  }

  lemma ReaderGone(s: State, t: Tid, r: nat)
    requires Inv(s) && At(s, t, OnQueue(ReadersQ(r))) && !Overlooked(s, r)
    ensures !Overlooked(Gone(s, t, ReadersQ(r)), r)
  {
    GoneFrame(s, t, ReadersQ(r));
  }

  lemma OnOneQueue(s: State, t: Tid, p: QId)
    requires Inv(s) && Q(s, p) == [t]
    ensures At(s, t, OnQueue(p))
  {
    assert t in Q(s, p);
  }

  lemma AlarmOverlooks(s: State, t: Tid, order: seq<LockId>, r: nat)
    requires Inv(s) && Live(s, t) && IsHeldList(s, t, order) && !Overlooked(s, r)
    ensures Overlooked(AlarmIn(s, t, order), r) <==> Overlooks(s, Alarm(t, order), r)
  {
    if Q(s, WritersQ(r)) == [t] {
      OnOneQueue(s, t, WritersQ(r));
    }
    match s.loc[t] {
      case Awake => ExitIsFair(s, t, order, r);
      case OnQueue(q) =>
        if q == WritersQ(r) {
          SleeperExits(s, t, q, order, r);
          WriterGone(s, t, r);
        } else if q == ReadersQ(r) {
          SleeperExits(s, t, q, order, r);
          ReaderGone(s, t, r);
        } else {
          OtherSleeperExits(s, t, q, order, r);
        }
      case InWake(q, _) =>
        assert t !in Q(s, q);
        SameFields(s, Abort(s), r);
        SameLockSameReaders(s, Abort(s), r);
    }
  }

  lemma OtherSleeperExits(s: State, t: Tid, q: QId, order: seq<LockId>, r: nat)
    requires Inv(s) && At(s, t, OnQueue(q)) && IsHeldList(s, t, order) && !Overlooked(s, r)
    requires q != ReadersQ(r) && q != WritersQ(r)
    ensures !Overlooked(AlarmIn(s, t, order), r)
  {
    var s' := Gone(s, t, q);
    LeavingAQueueKeepsInv(s, t, q);
    GoneFrame(s, t, q);
    SameLocks(s, s');
    SameFields(s, s', r);
    SameLockSameReaders(s, s', r);
    ExitIsFair(s', t, order, r);
  }

  // ----- being resumed

  lemma AdvanceFrame(s: State, w: nat)
    requires w < |s.wakes| && s.wakes[w].pos < |s.wakes[w].taken|
    ensures var a, q := Advance(s, w), s.wakes[w].origin;
            && (forall p :: Q(a, p) == Q(s, p)) && (forall k :: RwOf(a, k) == RwOf(s, k))
            && (forall p :: p != q ==> (PendingOn(a, p) <==> PendingOn(s, p)))
            && (PendingOn(a, q) <==> !LastPending(s, q, w))
  {
    var a, q := Advance(s, w), s.wakes[w].origin;
    assert forall p, v :: v != w || p != q ==> (Unfinished(a, p, v) <==> Unfinished(s, p, v));
    assert Unfinished(s, q, w);
    assert Unfinished(a, q, w) <==> s.wakes[w].pos + 1 < |s.wakes[w].taken|;
    if !LastPending(s, q, w) && !Unfinished(a, q, w) {
      var v :| Unfinished(s, q, v) && v != w;
      assert Unfinished(a, q, v);
    }
  }

  /** A turn of an enter loop touches no wake-up. */
  lemma AttemptFrame(s: State, t: Tid, q: QId)
    ensures forall p :: PendingOn(Continue(s, t, q), p) <==> PendingOn(s, p)
  {
    assert Continue(s, t, q).wakes == s.wakes;
    assert forall p, w :: Unfinished(Continue(s, t, q), p, w) <==> Unfinished(s, p, w);
  }

  lemma ReadAttempt(s: State, t: Tid, r: nat)
    ensures var s' := AttemptRead(s, t, r);
            Overlooked(s', r) <==>
              MayRead(RwOf(s, r), |Q(s, WritersQ(r))|) && Q(s, ReadersQ(r)) != [] && NothingComing(s, r)
  {
    AttemptFrame(s, t, ReadersQ(r));
    var s' := AttemptRead(s, t, r);
    assert Q(s', WritersQ(r)) == Q(s, WritersQ(r));
  }

  lemma WriteAttempt(s: State, t: Tid, r: nat)
    ensures var s' := AttemptWrite(s, t, r);
            Overlooked(s', r) <==>
              RwOf(s, r).n > 0 && !RwOf(s, r).writersFirst && Q(s, ReadersQ(r)) != [] && NothingComing(s, r)
  {
    AttemptFrame(s, t, WritersQ(r));
    var s' := AttemptWrite(s, t, r);
    assert Q(s', ReadersQ(r)) == Q(s, ReadersQ(r));
  }

  lemma ReaderResumed(s: State, w: nat, r: nat)
    requires w < |s.wakes| && s.wakes[w].pos < |s.wakes[w].taken| && s.wakes[w].origin == ReadersQ(r)
    ensures Overlooked(AttemptRead(Advance(s, w), s.wakes[w].taken[s.wakes[w].pos], r), r) <==>
              && Q(s, ReadersQ(r)) != [] && LastPending(s, ReadersQ(r), w) && !PendingOn(s, WritersQ(r))
              && MayRead(RwOf(s, r), |Q(s, WritersQ(r))|)
  {
    AdvanceFrame(s, w);
    ReadAttempt(Advance(s, w), s.wakes[w].taken[s.wakes[w].pos], r);
  }

  lemma WriterResumed(s: State, w: nat, r: nat)
    requires w < |s.wakes| && s.wakes[w].pos < |s.wakes[w].taken| && s.wakes[w].origin == WritersQ(r)
    ensures Overlooked(AttemptWrite(Advance(s, w), s.wakes[w].taken[s.wakes[w].pos], r), r) <==>
              && Q(s, ReadersQ(r)) != [] && LastPending(s, WritersQ(r), w) && !PendingOn(s, ReadersQ(r))
              && RwOf(s, r).n > 0 && !RwOf(s, r).writersFirst
  {
    AdvanceFrame(s, w);
    WriteAttempt(Advance(s, w), s.wakes[w].taken[s.wakes[w].pos], r);
  }

  lemma OtherResumed(s: State, w: nat, r: nat)
    requires w < |s.wakes| && s.wakes[w].pos < |s.wakes[w].taken|
    requires s.wakes[w].origin != ReadersQ(r) && s.wakes[w].origin != WritersQ(r)
    ensures Overlooked(Continue(Advance(s, w), s.wakes[w].taken[s.wakes[w].pos], s.wakes[w].origin), r) <==>
              Overlooked(s, r)
  {
    var a, t, q := Advance(s, w), s.wakes[w].taken[s.wakes[w].pos], s.wakes[w].origin;
    AdvanceFrame(s, w);
    OtherAttempt(a, t, q, r);
    SameLockSameReaders(a, Continue(a, t, q), r);
  }

  lemma ResumeOverlooks(s: State, w: nat, r: nat)
    requires w < |s.wakes| && s.wakes[w].pos < |s.wakes[w].taken| && !Overlooked(s, r)
    ensures Overlooked(Continue(Advance(s, w), s.wakes[w].taken[s.wakes[w].pos], s.wakes[w].origin), r) <==>
              Overlooks(s, Resume(w), r)
  {
    var q := s.wakes[w].origin;
    if q == ReadersQ(r) {
      ReaderResumed(s, w, r);
    } else if q == WritersQ(r) {
      WriterResumed(s, w, r);
    } else {
      OtherResumed(s, w, r);
    }
  }

  // ----- steps and runs

  /** Exactly when a step leaves a reader asleep that could enter, with nothing on its way to wake it. */
  lemma OverlookedExactlyBy(s: State, step: Step, r: nat)
    requires Inv(s) && Enabled(s, step) && !Overlooked(s, r)
    ensures Overlooked(Apply(s, step), r) <==> Overlooks(s, step, r)
  {
    match step {
      case Resume(w) => ResumeOverlooks(s, w, r);
      case Alarm(t, order) => AlarmOverlooks(s, t, order, r);
      case Exit(t, order) => ExitIsFair(s, t, order, r);
      case Leave(t, m) => LeaveIsFair(s, t, TheMutex(m), r);
      case LeaveRw(t, k) => LeaveIsFair(s, t, TheRw(k), r);
      case SetPriority(k, writers) => PriorityOverlooks(s, k, writers, r);
      case Enter(t, m) => AttemptIsFair(s, t, MutexQ(m), r);
      case DoEnterRead(t, k) => AttemptIsFair(s, t, ReadersQ(k), r);
      case DoEnterWrite(t, k) => AttemptIsFair(s, t, WritersQ(k), r);
      case TryRead(t, k) => TryIsFair(s, t, k, r);
      case TryWrite(t, k) => TryIsFair(s, t, k, r);
      case _ => CalmIsFair(s, step, r);
    }
  }

  lemma LeaveIsFair(s: State, t: Tid, l: LockId, r: nat)
    requires Inv(s) && !Overlooked(s, r)
    ensures !Overlooked(if Holds(s, t, l) then ReleaseLock(s, t, l) else Abort(s), r)
  {
    if Holds(s, t, l) {
      ReleaseIsFair(s, t, l, r);
    } else {
      SameFields(s, Abort(s), r);
      SameLockSameReaders(s, Abort(s), r);
    }
  }

  lemma PriorityOverlooks(s: State, k: nat, writers: bool, r: nat)
    requires Inv(s) && !Overlooked(s, r)
    ensures Overlooked(WithRw(s, k, RwOf(s, k).(writersFirst := writers)), r) <==>
              Overlooks(s, SetPriority(k, writers), r)
  {
    if k == r {
      SilentRelease(s, r, RwOf(s, r).(writersFirst := writers));
      assert NoLostWakeUp(s, WritersQ(r));
    } else {
      OtherRw(s, k, RwOf(s, k).(writersFirst := writers), r);
      SameLockSameReaders(s, WithRw(s, k, RwOf(s, k).(writersFirst := writers)), r);
    }
  }

  lemma AttemptIsFair(s: State, t: Tid, q: QId, r: nat)
    requires !Overlooked(s, r) && !q.UserQ?
    ensures !Overlooked(Continue(s, t, q), r)
  {
    if q == ReadersQ(r) {
      ReadAttempt(s, t, r);
    } else if q == WritersQ(r) {
      WriteAttempt(s, t, r);
    } else {
      OtherAttempt(s, t, q, r);
      SameLockSameReaders(s, Continue(s, t, q), r);
    }
  }

  lemma TryIsFair(s: State, t: Tid, k: nat, r: nat)
    requires !Overlooked(s, r)
    ensures MayRead(RwOf(s, k), |Q(s, WritersQ(k))|) ==> !Overlooked(WithRw(s, k, EnterRead(RwOf(s, k), t)), r)
    ensures MayWrite(RwOf(s, k)) ==> !Overlooked(WithRw(s, k, EnterWrite(RwOf(s, k), t)), r)
  {
    AttemptIsFair(s, t, ReadersQ(k), r);
    AttemptIsFair(s, t, WritersQ(k), r);
  }

  lemma CalmIsFair(s: State, step: Step, r: nat)
    requires Enabled(s, step) && !Overlooked(s, r)
    requires step.Spawn? || step.SleepOn? || step.WakeAll? || step.WakeOne? || step.TryEnter?
    ensures !Overlooked(Apply(s, step), r)
  {
    var s' := Apply(s, step);
    match step {
      case WakeAll(id) => OtherWakeUp(s, UserQ(id), -1, r);
      case WakeOne(id) =>
        if Q(s, UserQ(id)) != [] {
          OtherWakeUp(s, UserQ(id), 1, r);
        } else {
          SameFields(s, s', r);
        }
      case _ => SameFields(s, s', r);
    }
    SameLockSameReaders(s, s', r);
  }

  /** No step of the run is one of those. */
  ghost predicate NeverOverlooks(s: State, run: seq<Step>, r: nat)
    requires CanRun(s, run)
    decreases |run|
  {
    run != [] ==> !Overlooks(s, run[0], r) && NeverOverlooks(Apply(s, run[0]), run[1..], r)
  }

  lemma {:induction false} FairRun(s: State, run: seq<Step>, r: nat)
    requires Inv(s) && CanRun(s, run) && NeverOverlooks(s, run, r) && !Overlooked(s, r)
    ensures !Overlooked(After(s, run), r)
    decreases |run|
  {
    if run != [] {
      OverlookedExactlyBy(s, run[0], r);
      StepKeepsInv(s, run[0]);
      FairRun(Apply(s, run[0]), run[1..], r);
    }
  }

  /** Without those steps, readers lose no wake-up either. */
  lemma ReadersAreNotOverlooked(run: seq<Step>, r: nat)
    requires CanRun(INIT, run) && NeverOverlooks(INIT, run, r)
    ensures !Overlooked(After(INIT, run), r)
  {
    FairRun(INIT, run, r);
  }

  lemma FirstReaderComes()
    ensures CanRun(ASLEEP, [LeaveRw(0, 7)] + [Resume(0)]) && After(ASLEEP, [LeaveRw(0, 7)] + [Resume(0)]) == READING
    ensures Overlooked(READING, 7)
  {
    WriterGoes();
    ReaderComes();
    RunsOne(ASLEEP, LeaveRw(0, 7));
    RunsOne(WOKEN, Resume(0));
    RunsCompose(ASLEEP, [LeaveRw(0, 7)], [Resume(0)]);
  }

  /** Two readers sleep behind a writer; it leaves, the first comes in, and the second sleeps on although it
      could join. */
  lemma ReadersCanBeOverlooked() returns (run: seq<Step>)
    ensures CanRun(INIT, run) && Overlooked(After(INIT, run), 7) && RwOf(After(INIT, run), 7).n == 1
  {
    ThreadsStart();
    ReadersFallAsleep();
    FirstReaderComes();
    var two := [LeaveRw(0, 7)] + [Resume(0)];
    RunsCompose(SPAWNED, FALL_ASLEEP, two);
    RunsCompose(INIT, [Spawn(0), Spawn(1), Spawn(2)], FALL_ASLEEP + two);
    run := [Spawn(0), Spawn(1), Spawn(2)] + (FALL_ASLEEP + two);
  }
}
