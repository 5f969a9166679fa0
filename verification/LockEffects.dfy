/** What each step of the lock protocol does, seen from outside: who is inside, who sleeps where, who is being
    woken.  Stated without the functions that the protocol is built from. */
module LockEffects {
  import opened Common
  import opened WaitQueues
  import opened RwLocks
  import opened LockProtocol
  import opened LockProofs
  import opened LockTheorems

  // ----- wake-ups

  /** Queue `q` loses the threads `v` to one new wake-up, and nothing else about queues and wake-ups changes. */
  ghost predicate Woken(s: State, s': State, q: QId, v: seq<Tid>) {
    && s'.wakes == s.wakes + [Wake(q, v, 0)]
    && (forall t :: t in v ==> At(s', t, InWake(q, |s.wakes|)))
    && v + Q(s', q) == Q(s, q) && (forall p :: p != q ==> Q(s', p) == Q(s, p))
  }

  ghost predicate NobodyWoken(s: State, s': State) {
    s'.wakes == s.wakes && forall p :: Q(s', p) == Q(s, p)
  }

  lemma TakenAreWoken(s: State, q: QId, n: int)
    requires QueuesOk(s) && Q(s, q) != [] && (n == -1 || 1 <= n <= |Q(s, q)|)
    ensures Woken(s, WakeUp(s, q, n), q, if n == -1 then Q(s, q) else Q(s, q)[..n])
  {
    var v := if n == -1 then Q(s, q) else Q(s, q)[..n];
    assert forall t :: t in v ==> t in Q(s, q);
    assert v + Q(s, q)[|v|..] == Q(s, q);
  }

  /** wq_wake_up: everybody on the queue goes to one new wake-up, in order; locks are untouched. */
  lemma WakeAllTakesEverybody(s: State, id: nat)
    requires Inv(s) && Enabled(s, WakeAll(id))
    ensures var s' := Apply(s, WakeAll(id));
            && Q(s', UserQ(id)) == [] && s'.mutexes == s.mutexes && s'.rwlocks == s.rwlocks
            && (if Q(s, UserQ(id)) == [] then s' == s else Woken(s, s', UserQ(id), Q(s, UserQ(id))))
  {
    if Q(s, UserQ(id)) != [] {
      TakenAreWoken(s, UserQ(id), -1);
    }
  }

  /** wq_wake_up_one: the first one alone. */
  lemma WakeOneTakesFirst(s: State, id: nat)
    requires Inv(s) && Enabled(s, WakeOne(id)) && Q(s, UserQ(id)) != []
    ensures var s' := Apply(s, WakeOne(id));
            && s'.mutexes == s.mutexes && s'.rwlocks == s.rwlocks
            && Woken(s, s', UserQ(id), [Q(s, UserQ(id))[0]])
  {
    TakenAreWoken(s, UserQ(id), 1);
    assert Q(s, UserQ(id))[..1] == [Q(s, UserQ(id))[0]];
  }

  /** wq_sleep_on: the thread joins the back of the queue. */
  lemma SleepJoinsTheBack(s: State, t: Tid, id: nat)
    requires Inv(s) && Enabled(s, SleepOn(t, id))
    ensures var s' := Apply(s, SleepOn(t, id));
            Q(s', UserQ(id)) == Q(s, UserQ(id)) + [t] && At(s', t, OnQueue(UserQ(id))) && s'.wakes == s.wakes
  {
  }

  // ----- entering

  /** Is there room for one more, by what is held and who sleeps? */
  ghost predicate Room(s: State, x: Section) {
    match x
    case Mx(m) => forall u :: !HoldsAs(s, u, Mx(m))
    case Rd(r) => (forall u :: !HoldsAs(s, u, Wr(r))) && (RwOf(s, r).writersFirst ==> Q(s, WritersQ(r)) == [])
    case Wr(r) => forall u :: !HoldsAs(s, u, Rd(r)) && !HoldsAs(s, u, Wr(r))
  }

  lemma RoomIsGrant(s: State, x: Section)
    requires HoldersOk(s)
    ensures Room(s, x) <==> Grants(s, x)
  {
    match x {
      case Mx(m) =>
        if m in s.mutexes {
          assert HoldsAs(s, s.mutexes[m], Mx(m));
        }
      case Rd(r) => ReadersRoom(s, r);
      case Wr(r) => WritersRoom(s, r);
    }
  }

  lemma ReadersRoom(s: State, r: nat)
    requires HoldersOk(s)
    ensures (forall u :: !HoldsAs(s, u, Wr(r))) <==> RwOf(s, r).n >= 0
  {
    var rw := RwOf(s, r);
    assert Agree(rw);
    if rw.n < 0 {
      var w := SomeHolder(rw);
      assert HoldsAs(s, w, Wr(r));
    }
  }

  lemma WritersRoom(s: State, r: nat)
    requires HoldersOk(s)
    ensures (forall u :: !HoldsAs(s, u, Rd(r)) && !HoldsAs(s, u, Wr(r))) <==> RwOf(s, r).n == 0
  {
    var rw := RwOf(s, r);
    assert Agree(rw);
    if rw.n != 0 {
      var w := SomeHolder(rw);
      assert HoldsAs(s, w, Rd(r)) || HoldsAs(s, w, Wr(r));
    }
  }

  lemma SomeHolder(rw: Rw) returns (w: Tid)
    requires Agree(rw) && rw.n != 0
    ensures w in rw.holders
  {
    assert |rw.holders| > 0;
    w :| w in rw.holders;
  }

  /** A try by `t` for section `x` that does not block. */
  predicate TriesFor(step: Step, t: Tid, x: Section) {
    match x
    case Mx(m) => step == TryEnter(t, m)
    case Rd(r) => step == TryRead(t, r)
    case Wr(r) => step == TryWrite(t, r)
  }

  /** A try succeeds exactly if there is room, and otherwise changes nothing. */
  lemma TryNeedsRoom(s: State, step: Step, t: Tid, x: Section)
    requires Inv(s) && Enabled(s, step) && TriesFor(step, t, x)
    ensures HoldsAs(Apply(s, step), t, x) <==> Room(s, x) || HoldsAs(s, t, x)
    ensures !Room(s, x) ==> Apply(s, step) == s
    ensures Room(s, x) ==> NobodyWoken(s, Apply(s, step))
  {
    RoomIsGrant(s, x);
    TryTracked(s, step, t, x);
  }

  /** `t` goes round the loop of a blocking enter for `x`, for the first time or after being woken. */
  ghost predicate TurnsFor(s: State, step: Step, t: Tid, x: Section) {
    match step
    case Enter(u, m) => u == t && x == Mx(m)
    case DoEnterRead(u, r) => u == t && x == Rd(r)
    case DoEnterWrite(u, r) => u == t && x == Wr(r)
    case Resume(w) =>
      && w < |s.wakes| && s.wakes[w].pos < |s.wakes[w].taken|
      && t == s.wakes[w].taken[s.wakes[w].pos] && SectionOf(s.wakes[w].origin) == Some(x)
    case _ => false
  }

  function QueueOf(x: Section): QId {
    match x
    case Mx(m) => MutexQ(m)
    case Rd(r) => ReadersQ(r)
    case Wr(r) => WritersQ(r)
  }

  lemma AttemptNeedsRoom(s: State, t: Tid, x: Section)
    requires HoldersOk(s) && At(s, t, Awake) && (!x.Mx? ==> !Holds(s, t, LockOf(x)))
    ensures var s' := Continue(s, t, QueueOf(x));
            && (Room(s, x) ==> HoldsAs(s', t, x) && At(s', t, Awake) && NobodyWoken(s, s'))
            && (!Room(s, x) ==>
                  At(s', t, OnQueue(QueueOf(x))) && Q(s', QueueOf(x)) == Q(s, QueueOf(x)) + [t] && s'.wakes == s.wakes)
  {
    RoomIsGrant(s, x);
    AttemptOutcome(s, t, QueueOf(x));
  }

  /** A turn of an enter loop gets in exactly if there is room, and otherwise goes to the back of the queue. */
  lemma TurnNeedsRoom(s: State, step: Step, t: Tid, x: Section)
    requires Inv(s) && Enabled(s, step) && TurnsFor(s, step, t, x)
    ensures var s' := Apply(s, step);
            && (Room(s, x) ==> HoldsAs(s', t, x) && At(s', t, Awake))
            && (!Room(s, x) ==> At(s', t, OnQueue(QueueOf(x))) && Q(s', QueueOf(x)) == Q(s, QueueOf(x)) + [t])
  {
    if step.Resume? {
      ResumedNeedsRoom(s, step.w, t, x);
    } else {
      AttemptNeedsRoom(s, t, x);
    }
  }

  lemma ResumedNeedsRoom(s: State, w: nat, t: Tid, x: Section)
    requires Inv(s) && Enabled(s, Resume(w)) && TurnsFor(s, Resume(w), t, x)
    ensures var s' := Apply(s, Resume(w));
            && (Room(s, x) ==> HoldsAs(s', t, x) && At(s', t, Awake))
            && (!Room(s, x) ==> At(s', t, OnQueue(QueueOf(x))) && Q(s', QueueOf(x)) == Q(s, QueueOf(x)) + [t])
  {
    var a, q := Advance(s, w), s.wakes[w].origin;
    AdvanceKeepsPlaces(s, w);
    SameLocks(s, a);
    assert Waiting(s, t, q);
    FewerHolders(s, a);
    assert q == QueueOf(x) && (forall p :: Q(a, p) == Q(s, p));
    RoomIsGrant(s, x);
    RoomIsGrant(a, x);
    assert Grants(a, x) <==> Grants(s, x);
    AttemptNeedsRoom(a, t, x);
  }

  // ----- leaving

  /** mutex_leave: the lock is free, and the first sleeper, if any, is being woken. */
  lemma LeavingMutexWakesFirst(s: State, t: Tid, m: nat)
    requires Inv(s) && Enabled(s, Leave(t, m)) && HoldsAs(s, t, Mx(m))
    ensures var s', q := Apply(s, Leave(t, m)), MutexQ(m);
            && (forall u :: !HoldsAs(s', u, Mx(m)))
            && (if Q(s, q) == [] then NobodyWoken(s, s') else Woken(s, s', q, [Q(s, q)[0]]))
  {
    var q := MutexQ(m);
    var free := s.(mutexes := s.mutexes - {m});
    FreeMutex(s, m, free);
    if Q(s, q) != [] {
      TakenAreWoken(free, q, 1);
      assert Q(s, q)[..1] == [Q(s, q)[0]];
    }
  }

  /** Somebody other than `t` is inside. */
  ghost predicate OthersInside(s: State, t: Tid, r: nat) {
    exists u :: u != t && Holds(s, u, TheRw(r))
  }

  /** rwlock_leave: while others are inside nobody is woken; after the last one a sleeping writer goes first;
      only behind a writer, and without sleeping writers, a reader. */
  lemma LeavingRwWakesFirst(s: State, t: Tid, r: nat)
    requires Inv(s) && Enabled(s, LeaveRw(t, r)) && Holds(s, t, TheRw(r))
    ensures var s', ws, rs := Apply(s, LeaveRw(t, r)), Q(s, WritersQ(r)), Q(s, ReadersQ(r));
            && !Holds(s', t, TheRw(r))
            && (OthersInside(s, t, r) ==> NobodyWoken(s, s'))
            && (!OthersInside(s, t, r) && ws != [] ==> Woken(s, s', WritersQ(r), [ws[0]]))
            && (!OthersInside(s, t, r) && ws == [] && rs != [] && HoldsAs(s, t, Wr(r)) ==>
                  Woken(s, s', ReadersQ(r), [rs[0]]))
            && (!OthersInside(s, t, r) && ws == [] && (rs == [] || HoldsAs(s, t, Rd(r))) ==> NobodyWoken(s, s'))
  {
    var rw := RwOf(s, r);
    ReleaseKeepsAgreement(rw, t, |Q(s, WritersQ(r))|, |Q(s, ReadersQ(r))|);
    ReleaseRwLocks(s, t, r);
    LastOneOut(s, t, r);
    LeavingRwWakes(s, t, r);
  }

  lemma LastOneOut(s: State, t: Tid, r: nat)
    requires HoldersOk(s) && Holds(s, t, TheRw(r))
    ensures !OthersInside(s, t, r) <==> RwOf(s, r).n == 1 || RwOf(s, r).n == -1
    ensures HoldsAs(s, t, Wr(r)) <==> RwOf(s, r).n == -1
    ensures HoldsAs(s, t, Rd(r)) <==> RwOf(s, r).n > 0
  {
    var hs := RwOf(s, r).holders;
    assert Agree(RwOf(s, r));
    AgreementMeansExclusion(RwOf(s, r), t);
    assert |hs.Keys - {t}| == |hs| - 1;
    if |hs| > 1 {
      var u :| u in hs.Keys - {t};
      assert Holds(s, u, TheRw(r));
    } else {
      assert hs.Keys - {t} == {};
      assert forall u :: u in hs ==> u == t || u in hs.Keys - {t};
    }
  }

  lemma LeavingRwWakes(s: State, t: Tid, r: nat)
    requires Inv(s) && Holds(s, t, TheRw(r))
    ensures var s', ws, rs, n := ReleaseRw(s, t, r), Q(s, WritersQ(r)), Q(s, ReadersQ(r)), RwOf(s, r).n;
            && (n > 1 ==> NobodyWoken(s, s'))
            && (n == 1 && ws == [] ==> NobodyWoken(s, s'))
            && (n == -1 && ws == [] && rs == [] ==> NobodyWoken(s, s'))
            && ((n == 1 || n == -1) && ws != [] ==> Woken(s, s', WritersQ(r), [ws[0]]))
            && (n == -1 && ws == [] && rs != [] ==> Woken(s, s', ReadersQ(r), [rs[0]]))
  {
    var rw, ws, rs := RwOf(s, r), Q(s, WritersQ(r)), Q(s, ReadersQ(r));
    ReleaseKeepsAgreement(rw, t, |ws|, |rs|);
    var rel := DoRelease(rw, t, |ws|, |rs|);
    match rel.target {
      case Nobody => assert forall p :: Q(ReleaseRw(s, t, r), p) == Q(s, p);
      case OneWriter => FirstIsWoken(s, r, rel.rw, WritersQ(r));
      case OneReader => FirstIsWoken(s, r, rel.rw, ReadersQ(r));
    }
  }

  lemma FirstIsWoken(s: State, r: nat, rw: Rw, q: QId)
    requires Places(s) && Q(s, q) != []
    ensures Woken(s, WakeUpOne(WithRw(s, r, rw), q), q, [Q(s, q)[0]])
  {
    var free := WithRw(s, r, rw);
    SamePlaces(s, free);
    assert forall p :: Q(free, p) == Q(s, p);
    TakenAreWoken(free, q, 1);
    assert Q(s, q)[..1] == [Q(s, q)[0]];
  }

  /** An exit, or an alarm that does not abort: the thread is gone, and inside nothing. */
  lemma ExitEnds(s: State, step: Step, t: Tid, x: Section)
    requires Inv(s) && Enabled(s, step) && !Misuse(s, step) && (step.Exit? || step.Alarm?) && t == step.t
    ensures At(Apply(s, step), t, Exited) && !HoldsAs(Apply(s, step), t, x) && !Apply(s, step).aborted
  {
    StepKeepsInv(s, step);
    LeaveTracked(s, step, t, x);
    if step.Alarm? && s.loc[t].OnQueue? {
      assert t in Q(s, s.loc[t].q);
    }
  }

  /** The remaining steps: a new thread is awake; a change of priority changes that alone. */
  lemma SmallSteps(s: State, step: Step)
    requires Enabled(s, step)
    ensures step.Spawn? ==> At(Apply(s, step), step.t, Awake) && NobodyWoken(s, Apply(s, step))
    ensures step.SetPriority? ==>
              && RwOf(Apply(s, step), step.r).writersFirst == step.writers && NobodyWoken(s, Apply(s, step))
              && forall t, x :: HoldsAs(Apply(s, step), t, x) <==> HoldsAs(s, t, x)
  {
  }

  // ----- first come, first served

  /** `b` is `a` with some elements left out. */
  ghost predicate Sub(b: seq<Tid>, a: seq<Tid>) {
    if b == [] then true
    else a != [] && ((b[0] == a[0] && Sub(b[1..], a[1..])) || Sub(b, a[1..]))
  }

  lemma {:induction false} SubSelf(a: seq<Tid>)
    ensures Sub(a, a)
  {
    if a != [] {
      SubSelf(a[1..]);
    }
  }

  lemma {:induction false} SubSuffix(a: seq<Tid>, k: nat)
    requires k <= |a|
    ensures Sub(a[k..], a)
  {
    if k == 0 {
      SubSelf(a);
      assert a[0..] == a;
    } else {
      SubSuffix(a[1..], k - 1);
      assert a[1..][k - 1..] == a[k..];
    }
  }

  lemma {:induction false} SubErase(a: seq<Tid>, t: Tid)
    ensures Sub(Erase(a, t), a)
  {
    if a != [] {
      if a[0] == t {
        SubSuffix(a, 1);
      } else {
        SubErase(a[1..], t);
        assert ([a[0]] + Erase(a[1..], t))[1..] == Erase(a[1..], t);
      }
    }
  }

  lemma {:induction false} SubTransitive(c: seq<Tid>, b: seq<Tid>, a: seq<Tid>)
    requires Sub(c, b) && Sub(b, a)
    ensures Sub(c, a)
    decreases |a|
  {
    if c != [] {
      if b[0] == a[0] && Sub(b[1..], a[1..]) {
        if c[0] == b[0] && Sub(c[1..], b[1..]) {
          SubTransitive(c[1..], b[1..], a[1..]);
        } else {
          SubTransitive(c, b[1..], a[1..]);
        }
      } else {
        SubTransitive(c, b, a[1..]);
      }
    }
  }

  lemma ReleaseShrinks(s: State, t: Tid, l: LockId, q: QId)
    requires Places(s)
    ensures Sub(Q(ReleaseLock(s, t, l), q), Q(s, q))
  {
    SubSelf(Q(s, q));
    if Q(s, q) != [] {
      SubSuffix(Q(s, q), 1);
    }
    match l {
      case TheMutex(m) =>
      case TheRw(r) =>
        var rel := DoRelease(RwOf(s, r), t, |Q(s, WritersQ(r))|, |Q(s, ReadersQ(r))|);
        if rel.Released? {
          assert Q(WithRw(s, r, rel.rw), q) == Q(s, q);
        }
    }
  }

  lemma {:induction false} ReleaseAllShrinks(s: State, t: Tid, order: seq<LockId>, q: QId)
    requires Inv(s) && At(s, t, Awake) && IsHeldList(s, t, order)
    ensures Sub(Q(ReleaseAll(s, t, order), q), Q(s, q))
    decreases |order|
  {
    if order == [] {
      SubSelf(Q(s, q));
    } else {
      ReleaseHead(s, t, order);
      ReleaseShrinks(s, t, order[0], q);
      ReleaseAllShrinks(ReleaseLock(s, t, order[0]), t, order[1..], q);
      SubTransitive(Q(ReleaseAll(s, t, order), q), Q(ReleaseLock(s, t, order[0]), q), Q(s, q));
    }
  }

  lemma AlarmShrinks(s: State, t: Tid, order: seq<LockId>, q: QId)
    requires Inv(s) && Live(s, t) && IsHeldList(s, t, order)
    ensures Sub(Q(AlarmIn(s, t, order), q), Q(s, q))
  {
    match s.loc[t] {
      case Awake => ReleaseAllShrinks(s, t, order, q);
      case InWake(p, _) =>
        assert t !in Q(s, p);
        SubSelf(Q(s, q));
      case OnQueue(p) =>
        var s' := s.(queues := s.queues[p := Erase(Q(s, p), t)], loc := s.loc[t := Awake]);
        LeavingAQueueKeepsInv(s, t, p);
        SameLocks(s, s');
        ReleaseAllShrinks(s', t, order, q);
        if q == p {
          SubErase(Q(s, q), t);
        } else {
          SubSelf(Q(s, q));
        }
        SubTransitive(Q(ReleaseAll(s', t, order), q), Q(s', q), Q(s, q));
    }
  }

  /** Every queue is first come, first served: a step takes threads out without disturbing the order of the
      rest, or adds one new thread behind all the others. */
  lemma QueuesAreFair(s: State, step: Step, q: QId)
    requires Inv(s) && Enabled(s, step)
    ensures var b, a := Q(Apply(s, step), q), Q(s, q);
            Sub(b, a) || exists t :: b == a + [t] && t !in a
  {
    SubSelf(Q(s, q));
    match step {
      case Exit(t, order) => ReleaseAllShrinks(s, t, order, q);
      case Alarm(t, order) => AlarmShrinks(s, t, order, q);
      case Leave(t, m) => ReleaseShrinks(s, t, TheMutex(m), q);
      case LeaveRw(t, r) => ReleaseShrinks(s, t, TheRw(r), q);
      case WakeAll(id) => WakingShrinks(s, UserQ(id), -1, q);
      case WakeOne(id) =>
        if Q(s, UserQ(id)) != [] {
          WakingShrinks(s, UserQ(id), 1, q);
        }
      case Enter(t, m) => JoinsBehind(s, t, MutexQ(m), q);
      case DoEnterRead(t, r) => JoinsBehind(s, t, ReadersQ(r), q);
      case DoEnterWrite(t, r) => JoinsBehind(s, t, WritersQ(r), q);
      case SleepOn(t, id) => SleepsBehind(s, t, UserQ(id), q);
      case Resume(w) => ResumedJoinsBehind(s, w, q);
      case _ =>
    }
  }

  lemma ResumedJoinsBehind(s: State, w: nat, q: QId)
    requires Inv(s) && Enabled(s, Resume(w))
    ensures var b, a := Q(Apply(s, Resume(w)), q), Q(s, q);
            Sub(b, a) || exists t :: b == a + [t] && t !in a
  {
    AdvanceKeepsPlaces(s, w);
    assert Q(Advance(s, w), q) == Q(s, q);
    JoinsBehind(Advance(s, w), s.wakes[w].taken[s.wakes[w].pos], s.wakes[w].origin, q);
  }

  lemma WakingShrinks(s: State, p: QId, n: int, q: QId)
    requires n == -1 || 0 <= n <= |Q(s, p)|
    ensures Sub(Q(WakeUp(s, p, n), q), Q(s, q))
  {
    SubSelf(Q(s, q));
    if p == q && Q(s, q) != [] {
      SubSuffix(Q(s, q), if n == -1 then |Q(s, q)| else n);
    }
  }

  lemma SleepsBehind(s: State, t: Tid, p: QId, q: QId)
    requires Places(s) && At(s, t, Awake)
    ensures var b, a := Q(Sleep(s, t, p), q), Q(s, q);
            Sub(b, a) || exists t :: b == a + [t] && t !in a
  {
    SubSelf(Q(s, q));
    if p == q {
      assert t !in Q(s, q);
      assert Q(Sleep(s, t, p), q) == Q(s, q) + [t];
    }
  }

  lemma JoinsBehind(s: State, t: Tid, p: QId, q: QId)
    requires Places(s) && At(s, t, Awake)
    ensures var b, a := Q(Continue(s, t, p), q), Q(s, q);
            Sub(b, a) || exists t :: b == a + [t] && t !in a
  {
    SubSelf(Q(s, q));
    SleepsBehind(s, t, p, q);
    AttemptOutcome(s, t, p);
    if !p.UserQ? && Grants(s, SectionOf(p).value) {
      assert Q(Granted(s, t, SectionOf(p).value), q) == Q(s, q);
    }
  }
}
