/** Sleeping readers have no such guarantee: the wake-up a reader needs can be missing.  This module shows a
    run that leaves one asleep on a free lock and characterises the steps that do it; OverlookedReaders does
    the same for readers asleep on a lock that others are reading. */
module ReaderWakeups {
  import opened Common
  import opened WaitQueues
  import opened RwLocks
  import opened LockProtocol
  import opened LockProofs
  import opened LockTheorems

  /** No wake-up of the lock's sleepers is under way. */
  ghost predicate NothingComing(s: State, r: nat) {
    !PendingOn(s, ReadersQ(r)) && !PendingOn(s, WritersQ(r))
  }

  /** The lock is free, a reader sleeps on it, and nothing is on its way to wake it. */
  ghost predicate Stranded(s: State, r: nat) {
    RwOf(s, r).n == 0 && Q(s, ReadersQ(r)) != [] && NothingComing(s, r)
  }

  /** `t` is the last reader inside, only readers sleep, and no wake-up is under way. */
  ghost predicate LastReader(s: State, t: Tid, r: nat) {
    && RwOf(s, r).n == 1 && t in RwOf(s, r).holders
    && Q(s, WritersQ(r)) == [] && Q(s, ReadersQ(r)) != [] && NothingComing(s, r)
  }

  ghost predicate LastReaderLeaves(s: State, step: Step, r: nat) {
    match step
    case LeaveRw(t, k) => k == r && LastReader(s, t, r)
    case Exit(t, _) => LastReader(s, t, r)
    case Alarm(t, _) => !Misuse(s, step) && LastReader(s, t, r)
    case _ => false
  }

  /** Nothing about lock `r`, its queues and their wake-ups differs. */
  ghost predicate SameLock(s: State, s': State, r: nat) {
    && RwOf(s', r) == RwOf(s, r)
    && (forall q :: q == ReadersQ(r) || q == WritersQ(r) ==>
          Q(s', q) == Q(s, q) && forall w :: Unfinished(s', q, w) <==> Unfinished(s, q, w))
  }

  lemma SameLockSamePending(s: State, s': State, r: nat)
    requires SameLock(s, s', r)
    ensures PendingOn(s', ReadersQ(r)) <==> PendingOn(s, ReadersQ(r))
    ensures PendingOn(s', WritersQ(r)) <==> PendingOn(s, WritersQ(r))
    ensures Stranded(s', r) <==> Stranded(s, r)
    ensures forall t :: LastReader(s', t, r) <==> LastReader(s, t, r)
  {
    assert Q(s', ReadersQ(r)) == Q(s, ReadersQ(r)) && Q(s', WritersQ(r)) == Q(s, WritersQ(r));
  }

  lemma SameLockTransitive(a: State, b: State, c: State, r: nat)
    requires SameLock(a, b, r) && SameLock(b, c, r)
    ensures SameLock(a, c, r)
  {
  }

  lemma SameFields(s: State, s': State, r: nat)
    requires s'.wakes == s.wakes && RwOf(s', r) == RwOf(s, r)
    requires Q(s', ReadersQ(r)) == Q(s, ReadersQ(r)) && Q(s', WritersQ(r)) == Q(s, WritersQ(r))
    ensures SameLock(s, s', r)
  {
  }

  lemma OtherWakeUp(s: State, q: QId, n: int, r: nat)
    requires q != ReadersQ(r) && q != WritersQ(r) && (n == -1 || 0 <= n <= |Q(s, q)|)
    ensures SameLock(s, WakeUp(s, q, n), r)
  {
  }

  lemma OtherRwRelease(s: State, t: Tid, k: nat, r: nat)
    requires Agree(RwOf(s, k)) && t in RwOf(s, k).holders && k != r
    ensures SameLock(s, ReleaseRw(s, t, k), r)
  {
    var rel := DoRelease(RwOf(s, k), t, |Q(s, WritersQ(k))|, |Q(s, ReadersQ(k))|);
    ReleaseKeepsAgreement(RwOf(s, k), t, |Q(s, WritersQ(k))|, |Q(s, ReadersQ(k))|);
    var free := WithRw(s, k, rel.rw);
    OtherRw(s, k, rel.rw, r);
    match rel.target {
      case Nobody =>
      case OneWriter => OtherWakeUp(free, WritersQ(k), 1, r);
      case OneReader => OtherWakeUp(free, ReadersQ(k), 1, r);
    }
    SameLockTransitive(s, free, ReleaseRw(s, t, k), r);
  }

  lemma OtherRelease(s: State, t: Tid, l: LockId, r: nat)
    requires HoldersOk(s) && Holds(s, t, l) && l != TheRw(r)
    ensures SameLock(s, ReleaseLock(s, t, l), r)
  {
    match l {
      case TheMutex(m) =>
        var free := s.(mutexes := s.mutexes - {m});
        SameFields(s, free, r);
        if |Q(s, MutexQ(m))| > 0 {
          OtherWakeUp(free, MutexQ(m), 1, r);
          SameLockTransitive(s, free, ReleaseLock(s, t, l), r);
        }
      case TheRw(k) => OtherRwRelease(s, t, k, r);
    }
  }

  lemma OwnRelease(s: State, t: Tid, r: nat)
    requires Inv(s) && Holds(s, t, TheRw(r))
    ensures Stranded(ReleaseRw(s, t, r), r) <==> LastReader(s, t, r)
  {
    var rw, s' := RwOf(s, r), ReleaseRw(s, t, r);
    var rel := DoRelease(rw, t, |Q(s, WritersQ(r))|, |Q(s, ReadersQ(r))|);
    ReleaseKeepsAgreement(rw, t, |Q(s, WritersQ(r))|, |Q(s, ReadersQ(r))|);
    match rel.target {
      case Nobody => SilentRelease(s, r, rel.rw);
      case OneWriter => assert Unfinished(s', WritersQ(r), |s.wakes|);
      case OneReader => assert Unfinished(s', ReadersQ(r), |s.wakes|);
    }
  }

  lemma SilentRelease(s: State, r: nat, rw: Rw)
    ensures var s' := WithRw(s, r, rw);
            && Q(s', ReadersQ(r)) == Q(s, ReadersQ(r)) && Q(s', WritersQ(r)) == Q(s, WritersQ(r))
            && (PendingOn(s', ReadersQ(r)) <==> PendingOn(s, ReadersQ(r)))
            && (PendingOn(s', WritersQ(r)) <==> PendingOn(s, WritersQ(r)))
  {
    assert forall q, w :: Unfinished(WithRw(s, r, rw), q, w) <==> Unfinished(s, q, w);
  }

  lemma {:induction false} ReleaseAllStrands(s: State, t: Tid, order: seq<LockId>, r: nat)
    requires Inv(s) && At(s, t, Awake) && IsHeldList(s, t, order) && !Stranded(s, r)
    ensures Stranded(ReleaseAll(s, t, order), r) <==> LastReader(s, t, r)
    decreases |order|
  {
    if order == [] {
      assert !Holds(s, t, TheRw(r));
    } else {
      var s', rest := ReleaseLock(s, t, order[0]), order[1..];
      ReleaseHead(s, t, order);
      if order[0] == TheRw(r) {
        OwnRelease(s, t, r);
        assert TheRw(r) !in rest;
        ReleaseOthers(s', t, rest, r);
        SameLockSamePending(s', ReleaseAll(s', t, rest), r);
      } else {
        OtherRelease(s, t, order[0], r);
        SameLockSamePending(s, s', r);
        ReleaseAllStrands(s', t, rest, r);
      }
    }
  }

  lemma {:induction false} ReleaseOthers(s: State, t: Tid, order: seq<LockId>, r: nat)
    requires Inv(s) && At(s, t, Awake) && IsHeldList(s, t, order) && TheRw(r) !in order
    ensures SameLock(s, ReleaseAll(s, t, order), r)
    decreases |order|
  {
    if order != [] {
      ReleaseHead(s, t, order);
      assert order[0] in order;
      OtherRelease(s, t, order[0], r);
      ReleaseOthers(ReleaseLock(s, t, order[0]), t, order[1..], r);
      SameLockTransitive(s, ReleaseLock(s, t, order[0]), ReleaseAll(s, t, order), r);
    }
  }

  lemma ExitStrands(s: State, t: Tid, order: seq<LockId>, r: nat)
    requires Inv(s) && At(s, t, Awake) && IsHeldList(s, t, order) && !Stranded(s, r)
    ensures Stranded(ExitThread(s, t, order), r) <==> LastReader(s, t, r)
  {
    ReleaseAllStrands(s, t, order, r);
    SameLockSamePending(ReleaseAll(s, t, order), ExitThread(s, t, order), r);
  }

  lemma AlarmStrands(s: State, t: Tid, order: seq<LockId>, r: nat)
    requires Inv(s) && Live(s, t) && IsHeldList(s, t, order) && !Stranded(s, r)
    ensures Stranded(AlarmIn(s, t, order), r) <==> !s.loc[t].InWake? && LastReader(s, t, r)
  {
    match s.loc[t] {
      case Awake => ExitStrands(s, t, order, r);
      case OnQueue(q) =>
        var s' := s.(queues := s.queues[q := Erase(Q(s, q), t)], loc := s.loc[t := Awake]);
        LeavingAQueueKeepsInv(s, t, q);
        SameLocks(s, s');
        assert forall p :: p != q ==> Q(s', p) == Q(s, p);
        assert forall p, w :: Unfinished(s', p, w) <==> Unfinished(s, p, w);
        if q == ReadersQ(r) || q == WritersQ(r) {
          assert Waiting(s, t, q);
          assert !Holds(s, t, TheRw(r));
          assert NoLostWakeUp(s, WritersQ(r)) && NoLostWakeUp(s', WritersQ(r));
          assert Q(s', ReadersQ(r)) != [] ==> Q(s, ReadersQ(r)) != [];
          assert !Stranded(s', r);
        } else {
          SameLockSamePending(s, s', r);
        }
        ExitStrands(s', t, order, r);
      case InWake(q, _) =>
        assert t !in Q(s, q);
        SameFields(s, Abort(s), r);
        SameLockSamePending(s, Abort(s), r);
    }
  }

  /** A turn of an enter loop never strands a reader: one that cannot get into a free lock is held back
      by a writer that is about to be woken. */
  lemma AttemptStrandsNobody(s: State, t: Tid, q: QId, r: nat)
    requires At(s, t, Awake)
    requires q != WritersQ(r) ==> NoLostWakeUp(s, WritersQ(r))
    requires q != WritersQ(r) && q != ReadersQ(r) ==> !Stranded(s, r)
    ensures !Stranded(Continue(s, t, q), r)
  {
    if q == ReadersQ(r) {
      ReaderAttempt(s, t, r);
    } else if q == WritersQ(r) {
      assert RwOf(AttemptWrite(s, t, r), r).n != 0;
    } else {
      OtherAttempt(s, t, q, r);
      SameLockSamePending(s, Continue(s, t, q), r);
    }
  }

  lemma OtherSleep(s: State, t: Tid, q: QId, r: nat)
    requires q != WritersQ(r) && q != ReadersQ(r)
    ensures SameLock(s, Sleep(s, t, q), r)
  {
    SameFields(s, Sleep(s, t, q), r);
  }

  lemma OtherRw(s: State, k: nat, rw: Rw, r: nat)
    requires k != r
    ensures SameLock(s, WithRw(s, k, rw), r)
  {
    SameFields(s, WithRw(s, k, rw), r);
  }

  lemma OtherAttempt(s: State, t: Tid, q: QId, r: nat)
    requires q != WritersQ(r) && q != ReadersQ(r)
    ensures SameLock(s, Continue(s, t, q), r)
  {
    OtherSleep(s, t, q, r);
    match q {
      case UserQ(_) =>
      case MutexQ(m) => SameFields(s, EnterMutex(s, t, m), r);
      case WritersQ(k) => OtherRw(s, k, EnterWrite(RwOf(s, k), t), r);
      case ReadersQ(k) => OtherRw(s, k, EnterRead(RwOf(s, k), t), r);
    }
  }

  lemma ReaderAttempt(s: State, t: Tid, r: nat)
    requires NoLostWakeUp(s, WritersQ(r))
    ensures !Stranded(AttemptRead(s, t, r), r)
  {
    var s' := AttemptRead(s, t, r);
    if PendingOn(s, WritersQ(r)) {
      var w :| Unfinished(s, WritersQ(r), w);
      assert Unfinished(s', WritersQ(r), w);
    } else {
      assert RwOf(s', r).n != 0;
    }
  }

  lemma ResumeStrandsNobody(s: State, w: nat, r: nat)
    requires Inv(s) && w < |s.wakes| && s.wakes[w].pos < |s.wakes[w].taken| && !Stranded(s, r)
    ensures !Stranded(Continue(Advance(s, w), s.wakes[w].taken[s.wakes[w].pos], s.wakes[w].origin), r)
  {
    var a, q := Advance(s, w), s.wakes[w].origin;
    assert forall p :: Q(a, p) == Q(s, p);
    assert forall p, v :: p != q ==> (Unfinished(a, p, v) <==> Unfinished(s, p, v));
    if q != WritersQ(r) {
      StillNoneLost(s, a, WritersQ(r));
      if q != ReadersQ(r) {
        SameLockSamePending(s, a, r);
      }
    }
    AttemptStrandsNobody(a, s.wakes[w].taken[s.wakes[w].pos], q, r);
  }

  lemma LeaveStrands(s: State, t: Tid, l: LockId, r: nat)
    requires Inv(s) && !Stranded(s, r)
    ensures var s' := if Holds(s, t, l) then ReleaseLock(s, t, l) else Abort(s);
            Stranded(s', r) <==> l == TheRw(r) && LastReader(s, t, r)
  {
    if !Holds(s, t, l) {
      SameFields(s, Abort(s), r);
      SameLockSamePending(s, Abort(s), r);
    } else if l == TheRw(r) {
      OwnRelease(s, t, r);
    } else {
      OtherRelease(s, t, l, r);
      SameLockSamePending(s, ReleaseLock(s, t, l), r);
    }
  }

  /** Exactly when a step strands sleeping readers: when the last reader goes while only readers sleep
      and none of them is being woken. */
  lemma StrandedExactlyByLastReader(s: State, step: Step, r: nat)
    requires Inv(s) && Enabled(s, step) && !Stranded(s, r)
    ensures Stranded(Apply(s, step), r) <==> LastReaderLeaves(s, step, r)
  {
    match step {
      case Enter(t, m) => AttemptStrandsNobody(s, t, MutexQ(m), r);
      case DoEnterRead(t, k) => AttemptStrandsNobody(s, t, ReadersQ(k), r);
      case DoEnterWrite(t, k) => AttemptStrandsNobody(s, t, WritersQ(k), r);
      case Resume(w) => ResumeStrandsNobody(s, w, r);
      case Exit(t, order) => ExitStrands(s, t, order, r);
      case Alarm(t, order) => AlarmStrands(s, t, order, r);
      case Leave(t, m) => LeaveStrands(s, t, TheMutex(m), r);
      case LeaveRw(t, k) => LeaveStrands(s, t, TheRw(k), r);
      case _ => CalmSteps(s, step, r);
    }
  }

  lemma PriorityStrandsNobody(s: State, k: nat, writers: bool, r: nat)
    requires !Stranded(s, r)
    ensures !Stranded(WithRw(s, k, RwOf(s, k).(writersFirst := writers)), r)
  {
    var rw := RwOf(s, k).(writersFirst := writers);
    if k == r {
      SilentRelease(s, r, rw);
    } else {
      OtherRw(s, k, rw, r);
      SameLockSamePending(s, WithRw(s, k, rw), r);
    }
  }

  lemma CalmSteps(s: State, step: Step, r: nat)
    requires Enabled(s, step) && !Stranded(s, r)
    requires step.Spawn? || step.SleepOn? || step.WakeAll? || step.WakeOne? || step.TryEnter? ||
             step.TryRead? || step.TryWrite? || step.SetPriority?
    ensures !Stranded(Apply(s, step), r)
  {
    var s' := Apply(s, step);
    if step.SetPriority? {
      PriorityStrandsNobody(s, step.r, step.writers, r);
    } else if RwOf(s', r).n == 0 {
      match step {
        case WakeAll(id) => OtherWakeUp(s, UserQ(id), -1, r);
        case WakeOne(id) =>
          if Q(s, UserQ(id)) != [] {
            OtherWakeUp(s, UserQ(id), 1, r);
          } else {
            SameFields(s, s', r);
          }
        case TryRead(_, k) => OtherTry(s, s', step, r);
        case TryWrite(_, k) => OtherTry(s, s', step, r);
        case _ => SameFields(s, s', r);
      }
      SameLockSamePending(s, s', r);
    }
  }

  lemma OtherTry(s: State, s': State, step: Step, r: nat)
    requires Enabled(s, step) && (step.TryRead? || step.TryWrite?)
    requires s' == Apply(s, step) && RwOf(s', r).n == 0
    ensures SameLock(s, s', r)
  {
    assert RwOf(s', r) == RwOf(s, r);
    SameFields(s, s', r);
  }

  // ----- a run that does it

  /** Writer 0 is inside and readers 1 and 2 have fallen asleep. */
  const FALL_ASLEEP: seq<Step> := [DoEnterWrite(0, 7), DoEnterRead(1, 7), DoEnterRead(2, 7)]

  const ASLEEP := State(
    map[0 := Awake, 1 := OnQueue(ReadersQ(7)), 2 := OnQueue(ReadersQ(7))],
    map[ReadersQ(7) := [1, 2]], [], map[], map[7 := Rw(-1, map[0 := Writer], true)], [], false)

  /** The writer leaves, which wakes reader 1 alone; reader 1 comes and goes. */
  const COME_AND_GO: seq<Step> := [LeaveRw(0, 7), Resume(0), LeaveRw(1, 7)]

  const SPAWNED := State(map[0 := Awake, 1 := Awake, 2 := Awake], map[], [], map[], map[], [], false)

  lemma ThreadsStart()
    ensures CanRun(INIT, [Spawn(0), Spawn(1), Spawn(2)]) && After(INIT, [Spawn(0), Spawn(1), Spawn(2)]) == SPAWNED
  {
    RunsThree(INIT, Spawn(0), Spawn(1), Spawn(2));
  }

  lemma ReadersFallAsleep()
    ensures CanRun(SPAWNED, FALL_ASLEEP) && After(SPAWNED, FALL_ASLEEP) == ASLEEP
  {
    var inside := SPAWNED.(rwlocks := map[7 := Rw(-1, map[0 := Writer], true)]);
    var one := inside.(loc := inside.loc[1 := OnQueue(ReadersQ(7))], queues := map[ReadersQ(7) := [1]]);
    assert Apply(SPAWNED, DoEnterWrite(0, 7)) == inside;
    assert Q(inside, ReadersQ(7)) + [1] == [1];
    assert Apply(inside, DoEnterRead(1, 7)) == one;
    assert Q(one, ReadersQ(7)) + [2] == [1, 2];
    assert Apply(one, DoEnterRead(2, 7)) == ASLEEP;
    RunsThree(SPAWNED, DoEnterWrite(0, 7), DoEnterRead(1, 7), DoEnterRead(2, 7));
  }

  /** Reader 1 is on its way. */
  const WOKEN := State(
    map[0 := Awake, 1 := InWake(ReadersQ(7), 0), 2 := OnQueue(ReadersQ(7))],
    map[ReadersQ(7) := [2]], [Wake(ReadersQ(7), [1], 0)], map[], map[7 := Rw(0, map[], true)], [], false)

  /** Reader 1 is inside. */
  const READING := State(
    map[0 := Awake, 1 := Awake, 2 := OnQueue(ReadersQ(7))],
    map[ReadersQ(7) := [2]], [Wake(ReadersQ(7), [1], 1)], map[], map[7 := Rw(1, map[1 := Reader], true)],
    [Resumption(0, 1)], false)

  lemma WriterGoes()
    ensures Enabled(ASLEEP, LeaveRw(0, 7)) && Apply(ASLEEP, LeaveRw(0, 7)) == WOKEN
  {
    assert map[0 := Writer] - {0} == map[];
    assert [1, 2][..1] == [1] && [1, 2][1..] == [2];
  }

  lemma ReaderComes()
    ensures Enabled(WOKEN, Resume(0)) && Apply(WOKEN, Resume(0)) == READING
  {
    var a := Advance(WOKEN, 0);
    assert a.wakes == READING.wakes && a.history == READING.history && a.loc == READING.loc;
    assert EnterRead(RwOf(a, 7), 1) == Rw(1, map[1 := Reader], true);
  }

  lemma ReaderGoes()
    ensures Enabled(READING, LeaveRw(1, 7)) && Stranded(Apply(READING, LeaveRw(1, 7)), 7)
  {
    assert map[1 := Reader] - {1} == map[];
    var s := Apply(READING, LeaveRw(1, 7));
    assert s.wakes == READING.wakes && s.queues == READING.queues && RwOf(s, 7).n == 0;
  }

  lemma OneComesAndGoes()
    ensures CanRun(ASLEEP, COME_AND_GO) && Stranded(After(ASLEEP, COME_AND_GO), 7)
  {
    WriterGoes();
    ReaderComes();
    ReaderGoes();
    RunsThree(ASLEEP, LeaveRw(0, 7), Resume(0), LeaveRw(1, 7));
  }

  /** A reader can be left asleep on a free lock with nobody to wake it. */
  lemma ReadersCanBeStranded() returns (run: seq<Step>)
    ensures CanRun(INIT, run) && Stranded(After(INIT, run), 7)
  {
    ThreadsStart();
    ReadersFallAsleep();
    OneComesAndGoes();
    RunsCompose(SPAWNED, FALL_ASLEEP, COME_AND_GO);
    RunsCompose(INIT, [Spawn(0), Spawn(1), Spawn(2)], FALL_ASLEEP + COME_AND_GO);
    run := [Spawn(0), Spawn(1), Spawn(2)] + (FALL_ASLEEP + COME_AND_GO);
  }
}
