/** What every run of the lock protocol keeps. */
module LockProofs {
  import opened Common
  import opened WaitQueues
  import opened RwLocks
  import opened LockProtocol

  // ----- the invariant

  /** A thread is on a sleepers list exactly when it is located there, and at most once. */
  ghost predicate QueuesOk(s: State) {
    && (forall q, t :: t in Q(s, q) ==> At(s, t, OnQueue(q)))
    && (forall t :: t in s.loc && s.loc[t].OnQueue? ==> t in Q(s, s.loc[t].q))
    && (forall q :: Distinct(Q(s, q)))
  }

  /** The same for the part of each private list that is still to be walked. */
  ghost predicate WakesOk(s: State) {
    && (forall w :: 0 <= w < |s.wakes| ==> s.wakes[w].pos <= |s.wakes[w].taken| && Distinct(s.wakes[w].taken))
    && (forall w, i :: 0 <= w < |s.wakes| && s.wakes[w].pos <= i < |s.wakes[w].taken| ==>
          At(s, s.wakes[w].taken[i], InWake(s.wakes[w].origin, w)))
    && (forall t :: t in s.loc && s.loc[t].InWake? ==> InPrivateList(s, t, s.loc[t].q, s.loc[t].w))
  }

  ghost predicate InPrivateList(s: State, t: Tid, q: QId, w: nat) {
    w < |s.wakes| && s.wakes[w].origin == q && s.wakes[w].pos <= |s.wakes[w].taken| &&
    t in s.wakes[w].taken[s.wakes[w].pos..]
  }

  /** The threads that wake-up `w` has resumed, in order. */
  ghost function ResumedBy(h: seq<Resumption>, w: nat): seq<Tid> {
    if h == [] then []
    else
      var last := h[|h| - 1];
      ResumedBy(h[..|h| - 1], w) + if last.w == w then [last.t] else []
  }

  ghost predicate HistoryOk(s: State) {
    && (forall i :: 0 <= i < |s.history| ==> s.history[i].w < |s.wakes|)
    && (forall w :: 0 <= w < |s.wakes| ==>
          s.wakes[w].pos <= |s.wakes[w].taken| && ResumedBy(s.history, w) == s.wakes[w].taken[..s.wakes[w].pos])
  }

  ghost predicate Waiting(s: State, t: Tid, q: QId) {
    t in s.loc && (s.loc[t] == OnQueue(q) || (s.loc[t].InWake? && s.loc[t].q == q))
  }

  ghost predicate HoldersOk(s: State) {
    && (forall t, l :: Holds(s, t, l) ==> Live(s, t))
    && (forall r :: Agree(RwOf(s, r)))
    && (forall t, r :: Waiting(s, t, ReadersQ(r)) || Waiting(s, t, WritersQ(r)) ==> !Holds(s, t, TheRw(r)))
  }

  /** Could a thread that waits on `q` get in at once?  (Claimed for mutexes and writers only.) */
  predicate Free(s: State, q: QId) {
    match q
    case MutexQ(m) => m !in s.mutexes
    case WritersQ(r) => RwOf(s, r).n == 0
    case _ => false
  }

  /** A free lock with sleepers has a wake-up on its way. */
  ghost predicate NoLostWakeUp(s: State, q: QId) {
    Free(s, q) && Q(s, q) != [] ==> PendingOn(s, q)
  }

  ghost predicate Places(s: State) {
    QueuesOk(s) && WakesOk(s) && HistoryOk(s)
  }

  ghost predicate Inv(s: State) {
    Places(s) && HoldersOk(s) && forall q :: NoLostWakeUp(s, q)
  }

  // ----- places

  lemma SameWakes(s: State, s': State)
    requires WakesOk(s) && HistoryOk(s) && s'.wakes == s.wakes && s'.history == s.history
    requires forall t :: t in s.loc && s.loc[t].InWake? ==> At(s', t, s.loc[t])
    requires forall t :: t in s'.loc && s'.loc[t].InWake? ==> At(s, t, s'.loc[t])
    ensures WakesOk(s') && HistoryOk(s')
  {
    forall u | u in s'.loc && s'.loc[u].InWake?
      ensures InPrivateList(s', u, s'.loc[u].q, s'.loc[u].w)
    {
      assert InPrivateList(s, u, s.loc[u].q, s.loc[u].w);
    }
  }

  lemma SleepKeepsQueues(s: State, t: Tid, q: QId)
    requires QueuesOk(s) && At(s, t, Awake)
    ensures QueuesOk(Sleep(s, t, q))
  {
    var s' := Sleep(s, t, q);
    assert t !in Q(s, q);
    assert Distinct(Q(s, q) + [t]);
    assert forall p :: Q(s', p) == if p == q then Q(s, q) + [t] else Q(s, p);
  }

  lemma SleepKeepsPlaces(s: State, t: Tid, q: QId)
    requires Places(s) && At(s, t, Awake)
    ensures Places(Sleep(s, t, q))
  {
    var s' := Sleep(s, t, q);
    SleepKeepsQueues(s, t, q);
    SameWakes(s, s');
  }

  lemma {:induction false} NewWakeResumedNobody(h: seq<Resumption>, w: nat)
    requires forall i :: 0 <= i < |h| ==> h[i].w < w
    ensures ResumedBy(h, w) == []
  {
    if h != [] {
      NewWakeResumedNobody(h[..|h| - 1], w);
    }
  }

  lemma SplitIsDisjoint(v: seq<Tid>, rest: seq<Tid>)
    requires Distinct(v + rest)
    ensures forall t :: t in rest ==> t !in v
  {
    forall i, j | 0 <= i < |v| && 0 <= j < |rest|
      ensures v[i] != rest[j]
    {
      assert (v + rest)[i] == v[i] && (v + rest)[|v| + j] == rest[j];
    }
  }

  lemma WakeUpKeepsQueues(s: State, q: QId, n: int)
    requires QueuesOk(s) && (n == -1 || 0 <= n <= |Q(s, q)|) && Q(s, q) != []
    ensures QueuesOk(WakeUp(s, q, n))
  {
    var s' := WakeUp(s, q, n);
    var v := TakenBy(Q(s, q), n);
    assert forall p :: Q(s', p) == if p == q then Q(s, q)[|v|..] else Q(s, p);
    assert Q(s, q) == v + Q(s', q);
    SplitIsDisjoint(v, Q(s', q));
    assert forall t :: t in v ==> t in Q(s, q);
    forall p, t | t in Q(s', p)
      ensures At(s', t, OnQueue(p))
    {
      assert t in Q(s, p);
    }
    forall t | t in s'.loc && s'.loc[t].OnQueue?
      ensures t in Q(s', s'.loc[t].q)
    {
      assert t in Q(s, s.loc[t].q);
    }
  }

  lemma WakeUpKeepsWakes(s: State, q: QId, n: int)
    requires QueuesOk(s) && WakesOk(s) && (n == -1 || 0 <= n <= |Q(s, q)|) && Q(s, q) != []
    ensures WakesOk(WakeUp(s, q, n))
  {
    var s' := WakeUp(s, q, n);
    var v := TakenBy(Q(s, q), n);
    forall w, i | 0 <= w < |s'.wakes| && s'.wakes[w].pos <= i < |s'.wakes[w].taken|
      ensures At(s', s'.wakes[w].taken[i], InWake(s'.wakes[w].origin, w))
    {
      if w < |s.wakes| {
        assert At(s, s.wakes[w].taken[i], InWake(s.wakes[w].origin, w));
        assert s.wakes[w].taken[i] !in Q(s, q);
      } else {
        assert v[i] in Q(s, q);
      }
    }
    forall t | t in s'.loc && s'.loc[t].InWake?
      ensures InPrivateList(s', t, s'.loc[t].q, s'.loc[t].w)
    {
      if t !in v {
        assert InPrivateList(s, t, s.loc[t].q, s.loc[t].w);
      }
    }
  }

  lemma WakeUpKeepsPlaces(s: State, q: QId, n: int)
    requires Places(s) && (n == -1 || 0 <= n <= |Q(s, q)|)
    ensures Places(WakeUp(s, q, n))
  {
    if Q(s, q) != [] {
      WakeUpKeepsQueues(s, q, n);
      WakeUpKeepsWakes(s, q, n);
      NewWakeResumedNobody(s.history, |s.wakes|);
    }
  }

  lemma AdvanceKeepsWakes(s: State, w: nat)
    requires WakesOk(s) && w < |s.wakes| && s.wakes[w].pos < |s.wakes[w].taken|
    ensures WakesOk(Advance(s, w))
  {
    var s', k := Advance(s, w), s.wakes[w];
    var t := k.taken[k.pos];
    assert At(s, t, InWake(k.origin, w));
    forall u | u in s'.loc && s'.loc[u].InWake?
      ensures InPrivateList(s', u, s'.loc[u].q, s'.loc[u].w)
    {
      assert InPrivateList(s, u, s.loc[u].q, s.loc[u].w);
      assert k.taken[k.pos..] == [t] + k.taken[k.pos + 1..];
    }
  }

  lemma AdvanceKeepsHistory(s: State, w: nat)
    requires HistoryOk(s) && w < |s.wakes| && s.wakes[w].pos < |s.wakes[w].taken|
    ensures HistoryOk(Advance(s, w))
  {
    var s', k := Advance(s, w), s.wakes[w];
    assert s'.history[..|s.history|] == s.history;
    assert k.taken[..k.pos + 1] == k.taken[..k.pos] + [k.taken[k.pos]];
  }

  lemma AdvanceKeepsPlaces(s: State, w: nat)
    requires Places(s) && w < |s.wakes| && s.wakes[w].pos < |s.wakes[w].taken|
    ensures Places(Advance(s, w))
    ensures At(s, s.wakes[w].taken[s.wakes[w].pos], InWake(s.wakes[w].origin, w))
  {
    AdvanceKeepsWakes(s, w);
    AdvanceKeepsHistory(s, w);
    assert forall p :: Q(Advance(s, w), p) == Q(s, p);
  }

  lemma EraseKeepsQueues(s: State, t: Tid, q: QId)
    requires QueuesOk(s) && t in Q(s, q)
    ensures QueuesOk(s.(queues := s.queues[q := Erase(Q(s, q), t)], loc := s.loc[t := Awake]))
  {
    var s' := s.(queues := s.queues[q := Erase(Q(s, q), t)], loc := s.loc[t := Awake]);
    EraseDistinct(Q(s, q), t);
    assert forall p :: Q(s', p) == if p == q then Erase(Q(s, q), t) else Q(s, p);
  }

  lemma EraseKeepsPlaces(s: State, t: Tid, q: QId)
    requires Places(s) && t in Q(s, q)
    ensures Places(s.(queues := s.queues[q := Erase(Q(s, q), t)], loc := s.loc[t := Awake]))
  {
    EraseKeepsQueues(s, t, q);
    SameWakes(s, s.(queues := s.queues[q := Erase(Q(s, q), t)], loc := s.loc[t := Awake]));
  }

  // ----- holders

  /** Locks are only given up, by threads that stay alive, and nobody new waits. */
  lemma FewerHolders(s: State, s': State)
    requires HoldersOk(s)
    requires forall t, l :: Holds(s', t, l) ==> Holds(s, t, l)
    requires forall t, l :: Holds(s', t, l) && Live(s, t) ==> Live(s', t)
    requires forall r :: Agree(RwOf(s', r))
    requires forall t, q :: Waiting(s', t, q) ==> Waiting(s, t, q)
    ensures HoldersOk(s')
  {
    forall t, r | Waiting(s', t, ReadersQ(r)) || Waiting(s', t, WritersQ(r))
      ensures !Holds(s', t, TheRw(r))
    {
      assert !Holds(s, t, TheRw(r));
    }
  }

  lemma SameLocks(s: State, s': State)
    requires s'.mutexes == s.mutexes && s'.rwlocks == s.rwlocks
    ensures forall t, l :: Holds(s', t, l) <==> Holds(s, t, l)
    ensures forall r :: RwOf(s', r) == RwOf(s, r)
    ensures forall q :: Free(s', q) <==> Free(s, q)
  {
    assert forall r :: RwOf(s', r) == RwOf(s, r);
  }

  lemma StillNoneLost(s: State, s': State, p: QId)
    requires NoLostWakeUp(s, p) && (Free(s', p) ==> Free(s, p)) && (Q(s', p) != [] ==> Q(s, p) != [])
    requires forall w :: Unfinished(s, p, w) ==> Unfinished(s', p, w)
    ensures NoLostWakeUp(s', p)
  {
    if PendingOn(s, p) {
      var w :| Unfinished(s, p, w);
      assert Unfinished(s', p, w);
    }
  }

  lemma SleepKeepsInv(s: State, t: Tid, q: QId)
    requires Places(s) && HoldersOk(s) && At(s, t, Awake)
    requires forall p :: p != q ==> NoLostWakeUp(s, p)
    requires !Free(s, q)
    requires q.ReadersQ? || q.WritersQ? ==> !Holds(s, t, TheRw(q.id))
    ensures Inv(Sleep(s, t, q))
  {
    var s' := Sleep(s, t, q);
    SleepKeepsPlaces(s, t, q);
    assert forall p :: Q(s', p) == if p == q then Q(s, q) + [t] else Q(s, p);
    SameLocks(s, s');
    forall u, r | Waiting(s', u, ReadersQ(r)) || Waiting(s', u, WritersQ(r))
      ensures !Holds(s', u, TheRw(r))
    {
      if u != t {
        assert Waiting(s, u, ReadersQ(r)) || Waiting(s, u, WritersQ(r));
      }
    }
    forall p
      ensures NoLostWakeUp(s', p)
    {
      if p != q {
        StillNoneLost(s, s', p);
      }
    }
  }

  /** A wake-up of one thread keeps everything and leaves something pending on its queue. */
  lemma WakeUpKeepsInv(s: State, q: QId, n: int)
    requires Places(s) && HoldersOk(s) && (n == -1 || 1 <= n <= |Q(s, q)|)
    requires forall p :: p != q ==> NoLostWakeUp(s, p)
    requires Q(s, q) != [] || NoLostWakeUp(s, q)
    ensures Inv(WakeUp(s, q, n))
  {
    if Q(s, q) != [] {
      var s' := WakeUp(s, q, n);
      WakeUpKeepsPlaces(s, q, n);
      assert forall p :: p != q ==> Q(s', p) == Q(s, p);
      forall t, p | Waiting(s', t, p)
        ensures Waiting(s, t, p)
      {
        if t in TakenBy(Q(s, q), n) {
          assert t in Q(s, q);
        }
      }
      SameLocks(s, s');
      FewerHolders(s, s');
      assert Unfinished(s', q, |s.wakes|);
      forall p | p != q
        ensures NoLostWakeUp(s', p)
      {
        StillNoneLost(s, s', p);
      }
    }
  }

  // ----- releases

  lemma SamePlaces(s: State, s': State)
    requires Places(s)
    requires s'.loc == s.loc && s'.queues == s.queues && s'.wakes == s.wakes && s'.history == s.history
    ensures Places(s')
  {
    assert forall p :: Q(s', p) == Q(s, p);
    SameWakes(s, s');
  }

  /** Waking one sleeper touches no lock and no thread that is awake. */
  lemma WakeUpFrame(s: State, q: QId, t: Tid)
    requires Places(s) && Q(s, q) != [] && At(s, t, Awake)
    ensures At(WakeUp(s, q, 1), t, Awake)
    ensures forall u, l :: Holds(WakeUp(s, q, 1), u, l) <==> Holds(s, u, l)
  {
    assert t !in Q(s, q);
    SameLocks(s, WakeUp(s, q, 1));
  }

  lemma FreeMutex(s: State, m: nat, free: State)
    requires Inv(s) && m in s.mutexes && free == s.(mutexes := s.mutexes - {m})
    ensures Places(free) && HoldersOk(free)
    ensures forall p :: p != MutexQ(m) ==> NoLostWakeUp(free, p)
    ensures forall u, l :: Holds(free, u, l) <==> Holds(s, u, l) && l != TheMutex(m)
  {
    SamePlaces(s, free);
    assert forall r :: RwOf(free, r) == RwOf(s, r);
    FewerHolders(s, free);
    forall p | p != MutexQ(m)
      ensures NoLostWakeUp(free, p)
    {
      StillNoneLost(s, free, p);
    }
  }

  lemma ReleaseMutexKeepsInv(s: State, t: Tid, m: nat)
    requires Inv(s) && Holds(s, t, TheMutex(m)) && At(s, t, Awake)
    ensures Inv(ReleaseMutex(s, m)) && ReleaseMutex(s, m).aborted == s.aborted
    ensures At(ReleaseMutex(s, m), t, Awake)
    ensures forall u, l :: Holds(ReleaseMutex(s, m), u, l) <==> Holds(s, u, l) && l != TheMutex(m)
  {
    var free := s.(mutexes := s.mutexes - {m});
    FreeMutex(s, m, free);
    if |Q(s, MutexQ(m))| > 0 {
      WakeUpKeepsInv(free, MutexQ(m), 1);
      WakeUpFrame(free, MutexQ(m), t);
    }
  }

  lemma FreeRw(s: State, t: Tid, r: nat, free: State)
    requires Inv(s) && Holds(s, t, TheRw(r))
    requires DoRelease(RwOf(s, r), t, |Q(s, WritersQ(r))|, |Q(s, ReadersQ(r))|).Released?
    requires free == WithRw(s, r, DoRelease(RwOf(s, r), t, |Q(s, WritersQ(r))|, |Q(s, ReadersQ(r))|).rw)
    ensures Places(free) && HoldersOk(free)
    ensures forall p :: p != WritersQ(r) ==> NoLostWakeUp(free, p)
    ensures forall u, l :: Holds(free, u, l) <==> Holds(s, u, l) && !(l == TheRw(r) && u == t)
  {
    SamePlaces(s, free);
    ReleaseKeepsAgreement(RwOf(s, r), t, |Q(s, WritersQ(r))|, |Q(s, ReadersQ(r))|);
    assert forall x :: x != r ==> RwOf(free, x) == RwOf(s, x);
    FewerHolders(s, free);
    forall p | p != WritersQ(r)
      ensures NoLostWakeUp(free, p)
    {
      OtherRwLosesNone(s, r, free.rwlocks[r], p);
    }
  }

  lemma ReleaseRwKeepsInv(s: State, t: Tid, r: nat)
    requires Inv(s) && Holds(s, t, TheRw(r)) && At(s, t, Awake)
    ensures Inv(ReleaseRw(s, t, r)) && ReleaseRw(s, t, r).aborted == s.aborted
    ensures At(ReleaseRw(s, t, r), t, Awake)
    ensures forall u, l :: Holds(ReleaseRw(s, t, r), u, l) <==> Holds(s, u, l) && !(l == TheRw(r) && u == t)
  {
    ReleaseKeepsAgreement(RwOf(s, r), t, |Q(s, WritersQ(r))|, |Q(s, ReadersQ(r))|);
    var rel := DoRelease(RwOf(s, r), t, |Q(s, WritersQ(r))|, |Q(s, ReadersQ(r))|);
    var free := WithRw(s, r, rel.rw);
    FreeRw(s, t, r, free);
    match rel.target
    case Nobody =>
    case OneWriter =>
      WakeUpKeepsInv(free, WritersQ(r), 1);
      WakeUpFrame(free, WritersQ(r), t);
    case OneReader =>
      WakeUpKeepsInv(free, ReadersQ(r), 1);
      WakeUpFrame(free, ReadersQ(r), t);
  }

  lemma ReleaseHead(s: State, t: Tid, order: seq<LockId>)
    requires Inv(s) && At(s, t, Awake) && IsHeldList(s, t, order) && order != []
    ensures Holds(s, t, order[0])
    ensures var s' := ReleaseLock(s, t, order[0]);
            Inv(s') && s'.aborted == s.aborted && At(s', t, Awake) && IsHeldList(s', t, order[1..])
  {
    var l, rest := order[0], order[1..];
    assert l in order;
    ReleaseLockKeepsInv(s, t, l);
    assert order == [l] + rest;
  }

  lemma ReleaseLockKeepsInv(s: State, t: Tid, l: LockId)
    requires Inv(s) && Holds(s, t, l) && At(s, t, Awake)
    ensures Inv(ReleaseLock(s, t, l)) && ReleaseLock(s, t, l).aborted == s.aborted
    ensures At(ReleaseLock(s, t, l), t, Awake)
    ensures forall k :: Holds(ReleaseLock(s, t, l), t, k) <==> Holds(s, t, k) && k != l
  {
    match l {
      case TheMutex(m) => ReleaseMutexKeepsInv(s, t, m);
      case TheRw(r) => ReleaseRwKeepsInv(s, t, r);
    }
  }

  lemma {:induction false} ReleaseAllKeepsInv(s: State, t: Tid, order: seq<LockId>)
    requires Inv(s) && At(s, t, Awake) && IsHeldList(s, t, order)
    ensures Inv(ReleaseAll(s, t, order)) && ReleaseAll(s, t, order).aborted == s.aborted
    ensures At(ReleaseAll(s, t, order), t, Awake)
    ensures forall l :: !Holds(ReleaseAll(s, t, order), t, l)
    decreases |order|
  {
    if order != [] {
      ReleaseHead(s, t, order);
      ReleaseAllKeepsInv(ReleaseLock(s, t, order[0]), t, order[1..]);
    }
  }

  lemma ExitKeepsPlaces(s: State, t: Tid)
    requires Places(s) && At(s, t, Awake)
    ensures Places(s.(loc := s.loc[t := Exited]))
  {
    var s' := s.(loc := s.loc[t := Exited]);
    assert forall p :: Q(s', p) == Q(s, p);
    SameWakes(s, s');
  }

  lemma ExitKeepsInv(s: State, t: Tid, order: seq<LockId>)
    requires Inv(s) && At(s, t, Awake) && IsHeldList(s, t, order)
    ensures Inv(ExitThread(s, t, order)) && ExitThread(s, t, order).aborted == s.aborted
  {
    ReleaseAllKeepsInv(s, t, order);
    var r := ReleaseAll(s, t, order);
    var s' := r.(loc := r.loc[t := Exited]);
    ExitKeepsPlaces(r, t);
    SameLocks(r, s');
    FewerHolders(r, s');
    forall p
      ensures NoLostWakeUp(s', p)
    {
      StillNoneLost(r, s', p);
    }
  }

  // ----- entering

  lemma OneMoreHolder(s: State, s': State, t: Tid)
    requires HoldersOk(s) && At(s, t, Awake) && s'.loc == s.loc
    requires forall u, l :: Holds(s', u, l) ==> Holds(s, u, l) || u == t
    requires forall r :: Agree(RwOf(s', r))
    ensures HoldersOk(s')
  {
    forall u, r | Waiting(s', u, ReadersQ(r)) || Waiting(s', u, WritersQ(r))
      ensures !Holds(s', u, TheRw(r))
    {
      assert Waiting(s, u, ReadersQ(r)) || Waiting(s, u, WritersQ(r));
      assert u != t;
    }
  }

  lemma EnterMutexKeepsInv(s: State, t: Tid, m: nat)
    requires Places(s) && HoldersOk(s) && At(s, t, Awake) && m !in s.mutexes
    requires forall p :: p != MutexQ(m) ==> NoLostWakeUp(s, p)
    ensures Inv(EnterMutex(s, t, m))
  {
    var s' := EnterMutex(s, t, m);
    SamePlaces(s, s');
    assert forall r :: RwOf(s', r) == RwOf(s, r);
    OneMoreHolder(s, s', t);
    forall p
      ensures NoLostWakeUp(s', p)
    {
      if p != MutexQ(m) {
        StillNoneLost(s, s', p);
      }
    }
  }

  lemma EnterRwKeepsHolders(s: State, t: Tid, r: nat, rw: Rw)
    requires HoldersOk(s) && At(s, t, Awake)
    requires Agree(rw) && rw.holders.Keys == RwOf(s, r).holders.Keys + {t}
    ensures HoldersOk(WithRw(s, r, rw))
  {
    var s' := WithRw(s, r, rw);
    assert forall x :: RwOf(s', x) == if x == r then rw else RwOf(s, x);
    forall u, l | Holds(s', u, l) && u != t
      ensures Holds(s, u, l)
    {
      if l == TheRw(r) {
        assert u in rw.holders.Keys;
      }
    }
    OneMoreHolder(s, s', t);
  }

  lemma EnterRwKeepsInv(s: State, t: Tid, r: nat, rw: Rw)
    requires Places(s) && HoldersOk(s) && At(s, t, Awake)
    requires Agree(rw) && rw.n != 0 && rw.holders.Keys == RwOf(s, r).holders.Keys + {t}
    requires forall p :: p != WritersQ(r) ==> NoLostWakeUp(s, p)
    ensures Inv(WithRw(s, r, rw))
  {
    var s' := WithRw(s, r, rw);
    SamePlaces(s, s');
    EnterRwKeepsHolders(s, t, r, rw);
    forall p
      ensures NoLostWakeUp(s', p)
    {
      if p != WritersQ(r) {
        OtherRwLosesNone(s, r, rw, p);
      }
    }
  }

  lemma OtherRwLosesNone(s: State, r: nat, rw: Rw, p: QId)
    requires NoLostWakeUp(s, p) && p != WritersQ(r)
    ensures NoLostWakeUp(WithRw(s, r, rw), p)
  {
    StillNoneLost(s, WithRw(s, r, rw), p);
  }

  lemma EnterReadKeepsInv(s: State, t: Tid, r: nat)
    requires Places(s) && HoldersOk(s) && At(s, t, Awake) && !Holds(s, t, TheRw(r)) && RwOf(s, r).n >= 0
    requires forall p :: p != WritersQ(r) ==> NoLostWakeUp(s, p)
    ensures Inv(WithRw(s, r, EnterRead(RwOf(s, r), t)))
  {
    EnterKeepsAgreement(RwOf(s, r), t);
    EnterRwKeepsInv(s, t, r, EnterRead(RwOf(s, r), t));
  }

  lemma EnterWriteKeepsInv(s: State, t: Tid, r: nat)
    requires Places(s) && HoldersOk(s) && At(s, t, Awake) && !Holds(s, t, TheRw(r)) && RwOf(s, r).n == 0
    requires forall p :: p != WritersQ(r) ==> NoLostWakeUp(s, p)
    ensures Inv(WithRw(s, r, EnterWrite(RwOf(s, r), t)))
  {
    EnterKeepsAgreement(RwOf(s, r), t);
    EnterRwKeepsInv(s, t, r, EnterWrite(RwOf(s, r), t));
  }

  /** Any turn of an enter loop restores the invariant, even if it has just used up the one pending
      wake-up of the queue it was sleeping on. */
  lemma ContinueKeepsInv(s: State, t: Tid, q: QId)
    requires Places(s) && HoldersOk(s) && At(s, t, Awake)
    requires forall p :: p != q ==> NoLostWakeUp(s, p)
    requires q.ReadersQ? || q.WritersQ? ==> !Holds(s, t, TheRw(q.id))
    ensures Inv(Continue(s, t, q)) && Continue(s, t, q).aborted == s.aborted
  {
    match q {
      case UserQ(_) =>
      case MutexQ(m) =>
        if m !in s.mutexes {
          EnterMutexKeepsInv(s, t, m);
        } else {
          SleepKeepsInv(s, t, q);
        }
      case WritersQ(r) =>
        if MayWrite(RwOf(s, r)) {
          EnterWriteKeepsInv(s, t, r);
        } else {
          SleepKeepsInv(s, t, q);
        }
      case ReadersQ(r) =>
        if MayRead(RwOf(s, r), |Q(s, WritersQ(r))|) {
          EnterReadKeepsInv(s, t, r);
        } else {
          SleepKeepsInv(s, t, q);
        }
    }
  }

  lemma ResumeKeepsInv(s: State, w: nat)
    requires Inv(s) && w < |s.wakes| && s.wakes[w].pos < |s.wakes[w].taken|
    ensures var k := s.wakes[w];
            var s' := Continue(Advance(s, w), k.taken[k.pos], k.origin);
            Inv(s') && s'.aborted == s.aborted
  {
    var k := s.wakes[w];
    var t, q, a := k.taken[k.pos], k.origin, Advance(s, w);
    AdvanceKeepsPlaces(s, w);
    SameLocks(s, a);
    assert Waiting(s, t, q);
    FewerHolders(s, a);
    forall p | p != q
      ensures NoLostWakeUp(a, p)
    {
      assert Q(a, p) == Q(s, p);
      StillNoneLost(s, a, p);
    }
    ContinueKeepsInv(a, t, q);
  }

  lemma LeavingAQueueKeepsInv(s: State, t: Tid, q: QId)
    requires Inv(s) && At(s, t, OnQueue(q))
    ensures Inv(s.(queues := s.queues[q := Erase(Q(s, q), t)], loc := s.loc[t := Awake]))
  {
    var s' := s.(queues := s.queues[q := Erase(Q(s, q), t)], loc := s.loc[t := Awake]);
    EraseKeepsPlaces(s, t, q);
    SameLocks(s, s');
    FewerHolders(s, s');
    forall p
      ensures NoLostWakeUp(s', p)
    {
      StillNoneLost(s, s', p);
    }
  }

  lemma AlarmKeepsInv(s: State, t: Tid, order: seq<LockId>)
    requires Inv(s) && Live(s, t) && IsHeldList(s, t, order)
    ensures Inv(AlarmIn(s, t, order))
    ensures AlarmIn(s, t, order).aborted <==> s.aborted || s.loc[t].InWake?
  {
    match s.loc[t] {
      case Awake => ExitKeepsInv(s, t, order);
      case OnQueue(q) =>
        var s' := s.(queues := s.queues[q := Erase(Q(s, q), t)], loc := s.loc[t := Awake]);
        LeavingAQueueKeepsInv(s, t, q);
        SameLocks(s, s');
        ExitKeepsInv(s', t, order);
      case InWake(q, _) =>
        assert t !in Q(s, q);
        AbortKeepsInv(s);
    }
  }

  lemma AbortKeepsInv(s: State)
    requires Inv(s)
    ensures Inv(Abort(s))
  {
    SamePlaces(s, Abort(s));
    SameLocks(s, Abort(s));
    FewerHolders(s, Abort(s));
    forall p
      ensures NoLostWakeUp(Abort(s), p)
    {
      StillNoneLost(s, Abort(s), p);
    }
  }

  // ----- steps and runs

  /** The uses of the library that reach an abort or a failed assert: leaving a lock one is not in,
      waking one thread of an empty queue, and an alarm for a thread that is already being woken. */
  predicate Misuse(s: State, step: Step) {
    match step
    case WakeOne(id) => Q(s, UserQ(id)) == []
    case Leave(t, m) => !Holds(s, t, TheMutex(m))
    case LeaveRw(t, r) => !Holds(s, t, TheRw(r))
    case Alarm(t, _) => t in s.loc && s.loc[t].InWake?
    case _ => false
  }

  lemma SpawnKeepsInv(s: State, t: Tid)
    requires Inv(s) && t !in s.loc
    ensures Inv(s.(loc := s.loc[t := Awake]))
  {
    var s' := s.(loc := s.loc[t := Awake]);
    assert forall p :: Q(s', p) == Q(s, p);
    SameWakes(s, s');
    SameLocks(s, s');
    FewerHolders(s, s');
    forall p
      ensures NoLostWakeUp(s', p)
    {
      StillNoneLost(s, s', p);
    }
  }

  lemma PriorityKeepsInv(s: State, r: nat, writers: bool)
    requires Inv(s)
    ensures Inv(WithRw(s, r, RwOf(s, r).(writersFirst := writers)))
  {
    var s' := WithRw(s, r, RwOf(s, r).(writersFirst := writers));
    SamePlaces(s, s');
    assert forall x :: RwOf(s', x).holders == RwOf(s, x).holders && RwOf(s', x).n == RwOf(s, x).n;
    forall x
      ensures Agree(RwOf(s', x))
    {
      assert Agree(RwOf(s, x));
    }
    FewerHolders(s, s');
    forall p
      ensures NoLostWakeUp(s', p)
    {
      if p != WritersQ(r) {
        OtherRwLosesNone(s, r, s'.rwlocks[r], p);
      } else {
        StillNoneLost(s, s', p);
      }
    }
  }

  lemma MutexStepKeepsInv(s: State, step: Step)
    requires Inv(s) && Enabled(s, step) && (step.TryEnter? || step.Enter? || step.Leave?)
    ensures Inv(Apply(s, step))
    ensures Apply(s, step).aborted <==> Misuse(s, step)
  {
    match step {
      case TryEnter(t, m) =>
        if m !in s.mutexes {
          EnterMutexKeepsInv(s, t, m);
        }
      case Enter(t, m) => ContinueKeepsInv(s, t, MutexQ(m));
      case Leave(t, m) =>
        if Holds(s, t, TheMutex(m)) {
          ReleaseMutexKeepsInv(s, t, m);
        } else {
          AbortKeepsInv(s);
        }
    }
  }

  predicate IsRwStep(step: Step) {
    || step.TryRead? || step.DoEnterRead? || step.TryWrite? || step.DoEnterWrite?
    || step.LeaveRw? || step.SetPriority?
  }

  lemma RwStepKeepsInv(s: State, step: Step)
    requires Inv(s) && Enabled(s, step) && IsRwStep(step)
    ensures Inv(Apply(s, step))
    ensures Apply(s, step).aborted <==> Misuse(s, step)
  {
    match step {
      case TryRead(t, r) =>
        if MayRead(RwOf(s, r), |Q(s, WritersQ(r))|) {
          EnterReadKeepsInv(s, t, r);
        }
      case DoEnterRead(t, r) => ContinueKeepsInv(s, t, ReadersQ(r));
      case TryWrite(t, r) =>
        if MayWrite(RwOf(s, r)) {
          EnterWriteKeepsInv(s, t, r);
        }
      case DoEnterWrite(t, r) => ContinueKeepsInv(s, t, WritersQ(r));
      case LeaveRw(t, r) =>
        if Holds(s, t, TheRw(r)) {
          ReleaseRwKeepsInv(s, t, r);
        } else {
          AbortKeepsInv(s);
        }
      case SetPriority(r, writers) => PriorityKeepsInv(s, r, writers);
    }
  }

  /** Every step keeps the invariant, and aborts exactly on misuse: in particular neither the assert
      nor the hash_erase abort of the rwlock release, nor the abort of a lock's own wake-up, is ever
      reached by a holder. */
  lemma StepKeepsInv(s: State, step: Step)
    requires Inv(s) && Enabled(s, step)
    ensures Inv(Apply(s, step))
    ensures Apply(s, step).aborted <==> Misuse(s, step)
  {
    match step {
      case Spawn(t) => SpawnKeepsInv(s, t);
      case SleepOn(t, id) => SleepKeepsInv(s, t, UserQ(id));
      case WakeAll(id) => WakeUpKeepsInv(s, UserQ(id), -1);
      case WakeOne(id) =>
        if Q(s, UserQ(id)) == [] {
          AbortKeepsInv(s);
        } else {
          WakeUpKeepsInv(s, UserQ(id), 1);
        }
      case Exit(t, order) => ExitKeepsInv(s, t, order);
      case Alarm(t, order) => AlarmKeepsInv(s, t, order);
      case Resume(w) => ResumeKeepsInv(s, w);
      case _ =>
        if IsRwStep(step) {
          RwStepKeepsInv(s, step);
        } else {
          MutexStepKeepsInv(s, step);
        }
    }
  }

  lemma {:induction false} RunKeepsInv(s: State, run: seq<Step>)
    requires Inv(s) && CanRun(s, run)
    ensures Inv(After(s, run))
    decreases |run|
  {
    if run != [] {
      StepKeepsInv(s, run[0]);
      RunKeepsInv(Apply(s, run[0]), run[1..]);
    }
  }
}
