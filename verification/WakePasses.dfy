/** A prepoll pass of reactor_invoke over the handlers that carry wake-ups: which wake-ups are finished when
    poll is entered. */
module WakePasses {
  import opened Common
  import opened WaitQueues
  import opened RwLocks
  import opened LockProtocol
  import opened LockProofs
  import opened LockTheorems

  // ----- wake-ups are only ever added

  ghost predicate NonEmpty(s: State) {
    forall w :: 0 <= w < |s.wakes| ==> s.wakes[w].taken != []
  }

  /** The old wake-ups are untouched, and new ones take somebody and have not begun. */
  ghost predicate Grows(s: State, s': State) {
    && |s.wakes| <= |s'.wakes| && s'.wakes[..|s.wakes|] == s.wakes
    && forall w :: |s.wakes| <= w < |s'.wakes| ==> s'.wakes[w].taken != [] && s'.wakes[w].pos == 0
  }

  lemma WakeUpGrows(s: State, q: QId, n: int)
    requires n == -1 || 1 <= n <= |Q(s, q)|
    ensures Grows(s, WakeUp(s, q, n))
  {
  }

  lemma ReleaseGrows(s: State, t: Tid, l: LockId)
    ensures Grows(s, ReleaseLock(s, t, l))
  {
    match l {
      case TheMutex(m) =>
        var free := s.(mutexes := s.mutexes - {m});
        if |Q(s, MutexQ(m))| > 0 {
          WakeUpGrows(free, MutexQ(m), 1);
        }
      case TheRw(r) => ReleaseRwGrows(s, t, r);
    }
  }

  lemma ReleaseRwGrows(s: State, t: Tid, r: nat)
    ensures Grows(s, ReleaseRw(s, t, r))
  {
    var rel := DoRelease(RwOf(s, r), t, |Q(s, WritersQ(r))|, |Q(s, ReadersQ(r))|);
    if rel.Released? {
      var free := WithRw(s, r, rel.rw);
      match rel.target {
        case Nobody =>
        case OneWriter => WakeUpGrows(free, WritersQ(r), 1);
        case OneReader => WakeUpGrows(free, ReadersQ(r), 1);
      }
    }
  }

  lemma GrowsTransitive(a: State, b: State, c: State)
    requires Grows(a, b) && Grows(b, c)
    ensures Grows(a, c)
  {
    assert c.wakes[..|a.wakes|] == c.wakes[..|b.wakes|][..|a.wakes|];
    forall w | |a.wakes| <= w < |c.wakes|
      ensures c.wakes[w].taken != [] && c.wakes[w].pos == 0
    {
      assert w < |b.wakes| ==> c.wakes[..|b.wakes|][w] == c.wakes[w];
    }
  }

  lemma {:induction false} ReleaseAllGrows(s: State, t: Tid, order: seq<LockId>)
    ensures Grows(s, ReleaseAll(s, t, order))
    decreases |order|
  {
    if order != [] {
      ReleaseGrows(s, t, order[0]);
      ReleaseAllGrows(ReleaseLock(s, t, order[0]), t, order[1..]);
      GrowsTransitive(s, ReleaseLock(s, t, order[0]), ReleaseAll(s, t, order));
    }
  }

  lemma AlarmGrows(s: State, t: Tid, order: seq<LockId>)
    requires t in s.loc
    ensures Grows(s, AlarmIn(s, t, order))
  {
    if s.loc[t].Awake? {
      ReleaseAllGrows(s, t, order);
    } else if !s.loc[t].Exited? {
      var q := s.loc[t].q;
      ReleaseAllGrows(s.(queues := s.queues[q := Erase(Q(s, q), t)], loc := s.loc[t := Awake]), t, order);
    }
  }

  lemma StepGrows(s: State, step: Step)
    requires Enabled(s, step) && !step.Resume?
    ensures Grows(s, Apply(s, step))
  {
    match step {
      case WakeAll(id) => WakeUpGrows(s, UserQ(id), -1);
      case WakeOne(id) =>
        if Q(s, UserQ(id)) != [] {
          WakeUpGrows(s, UserQ(id), 1);
        }
      case Leave(t, m) => ReleaseGrows(s, t, TheMutex(m));
      case LeaveRw(t, r) => ReleaseGrows(s, t, TheRw(r));
      case Exit(t, order) => ReleaseAllGrows(s, t, order);
      case Alarm(t, order) => AlarmGrows(s, t, order);
      case _ =>
    }
  }

  /** A resumed thread goes on in its loop, which makes no wake-up. */
  lemma ResumeWakes(s: State, w: nat)
    requires Enabled(s, Resume(w))
    ensures Apply(s, Resume(w)).wakes == s.wakes[w := s.wakes[w].(pos := s.wakes[w].pos + 1)]
  {
    var k := s.wakes[w];
    assert Continue(Advance(s, w), k.taken[k.pos], k.origin).wakes == Advance(s, w).wakes;
  }

  lemma {:induction false} RunNonEmpty(s: State, run: seq<Step>)
    requires CanRun(s, run) && NonEmpty(s)
    ensures NonEmpty(After(s, run))
    decreases |run|
  {
    if run != [] {
      var s' := Apply(s, run[0]);
      if run[0].Resume? {
        ResumeWakes(s, run[0].w);
      } else {
        StepGrows(s, run[0]);
        assert forall w :: 0 <= w < |s.wakes| ==> s'.wakes[..|s.wakes|][w] == s'.wakes[w];
      }
      RunNonEmpty(s', run[1..]);
    }
  }

  // ----- the pass

  /** `born` remembers the flag each handler had when the pass first saw it: clear for those on the list at
      the start, whatever the memory held for those registered since. */
  datatype Pass = Pass(s: State, fired: seq<bool>, born: seq<bool>, active: Option<nat>)

  datatype PassStep =
    | Call(w: nat)
    | Next
    | Return
    | Meanwhile(step: Step, flags: seq<bool>)

  function Begin(s: State): Pass {
    var clear := seq(|s.wakes|, _ => false);
    Pass(s, clear, clear, None)
  }

  predicate Finished(s: State, w: nat) {
    w < |s.wakes| && s.wakes[w].pos == |s.wakes[w].taken|
  }

  /** A handler that has not fired is called; its loop resumes one thread after another, each of which, like
      other handlers, may do anything meanwhile; at the end of its list it unregisters itself. */
  ghost predicate MayPass(p: Pass, step: PassStep) {
    match step
    case Call(w) => p.active == None && w < |p.fired| && !p.fired[w] && !Finished(p.s, w)
    case Next => p.active.Some? && Enabled(p.s, Resume(p.active.value))
    case Return => p.active.Some? && Finished(p.s, p.active.value)
    case Meanwhile(step, flags) =>
      && Enabled(p.s, step) && !step.Resume?
      && |Apply(p.s, step).wakes| == |p.s.wakes| + |flags|
  }

  ghost function DoPass(p: Pass, step: PassStep): Pass
    requires MayPass(p, step)
  {
    match step
    case Call(w) => p.(fired := p.fired[w := true], active := Some(w))
    case Next => p.(s := Apply(p.s, Resume(p.active.value)))
    case Return => p.(active := None)
    case Meanwhile(step, flags) => p.(s := Apply(p.s, step), fired := p.fired + flags, born := p.born + flags)
  }

  ghost predicate CanPass(p: Pass, run: seq<PassStep>)
    decreases |run|
  {
    run != [] ==> MayPass(p, run[0]) && CanPass(DoPass(p, run[0]), run[1..])
  }

  ghost function AfterPass(p: Pass, run: seq<PassStep>): Pass
    requires CanPass(p, run)
    decreases |run|
  {
    if run == [] then p else AfterPass(DoPass(p, run[0]), run[1..])
  }

  /** No handler is left that has not fired. */
  ghost predicate PassEnds(p: Pass) {
    p.active == None && forall w :: 0 <= w < |p.fired| ==> p.fired[w] || Finished(p.s, w)
  }

  /** What holds of each wake-up during a pass. */
  ghost predicate Sound(p: Pass, w: nat)
    requires w < |p.s.wakes| && |p.fired| == |p.born| == |p.s.wakes|
  {
    && p.s.wakes[w].taken != []
    && (p.born[w] ==> p.fired[w] && p.s.wakes[w].pos == 0)
    && (p.active == Some(w) ==> p.fired[w] && !p.born[w])
    && (!p.born[w] && p.fired[w] && p.active != Some(w) ==> Finished(p.s, w))
  }

  ghost predicate PassInv(p: Pass) {
    && Inv(p.s) && |p.fired| == |p.born| == |p.s.wakes|
    && (forall w :: 0 <= w < |p.s.wakes| ==> Sound(p, w))
    && (p.active.Some? ==> p.active.value < |p.s.wakes|)
  }

  lemma GrowthIsSound(p: Pass, s': State, flags: seq<bool>)
    requires |p.fired| == |p.born| == |p.s.wakes| && (forall w :: 0 <= w < |p.s.wakes| ==> Sound(p, w))
    requires p.active.Some? ==> p.active.value < |p.s.wakes|
    requires Grows(p.s, s') && |s'.wakes| == |p.s.wakes| + |flags|
    ensures var p' := p.(s := s', fired := p.fired + flags, born := p.born + flags);
            forall w :: 0 <= w < |s'.wakes| ==> Sound(p', w)
  {
    var p' := p.(s := s', fired := p.fired + flags, born := p.born + flags);
    forall w | 0 <= w < |s'.wakes|
      ensures Sound(p', w)
    {
      if w < |p.s.wakes| {
        assert s'.wakes[..|p.s.wakes|][w] == s'.wakes[w];
        assert Sound(p, w);
      }
    }
  }

  lemma MeanwhileKeeps(p: Pass, step: Step, flags: seq<bool>)
    requires PassInv(p) && MayPass(p, Meanwhile(step, flags))
    ensures PassInv(DoPass(p, Meanwhile(step, flags)))
  {
    StepKeepsInv(p.s, step);
    StepGrows(p.s, step);
    GrowthIsSound(p, Apply(p.s, step), flags);
  }

  lemma NextKeeps(p: Pass)
    requires PassInv(p) && MayPass(p, Next)
    ensures PassInv(DoPass(p, Next))
  {
    var p', a := DoPass(p, Next), p.active.value;
    StepKeepsInv(p.s, Resume(a));
    ResumeWakes(p.s, a);
    forall w | 0 <= w < |p'.s.wakes|
      ensures Sound(p', w)
    {
      assert Sound(p, w);
    }
  }

  lemma TurnKeeps(p: Pass, step: PassStep)
    requires PassInv(p) && MayPass(p, step) && (step.Call? || step.Return?)
    ensures PassInv(DoPass(p, step))
  {
    var p' := DoPass(p, step);
    forall w | 0 <= w < |p'.s.wakes|
      ensures Sound(p', w)
    {
      assert Sound(p, w);
    }
  }

  lemma {:induction false} PassKeepsInv(p: Pass, run: seq<PassStep>)
    requires PassInv(p) && CanPass(p, run)
    ensures PassInv(AfterPass(p, run))
    ensures p.born <= AfterPass(p, run).born
    decreases |run|
  {
    if run != [] {
      match run[0] {
        case Meanwhile(step, flags) => MeanwhileKeeps(p, step, flags);
        case Next => NextKeeps(p);
        case Call(_) => TurnKeeps(p, run[0]);
        case Return => TurnKeeps(p, run[0]);
      }
      PassKeepsInv(DoPass(p, run[0]), run[1..]);
    }
  }

  lemma BeginsSound(run: seq<Step>)
    requires CanRun(INIT, run)
    ensures PassInv(Begin(After(INIT, run)))
  {
    ReachableInv(run);
    RunNonEmpty(INIT, run);
  }

  /** From any reachable state, however a pass goes: when it ends, every wake-up made before it has resumed all
      the threads it took, in order; and one made during it has if and only if its fired flag happened to
      be clear. */
  lemma PassFinishesWakeUps(run: seq<Step>, pass: seq<PassStep>, w: nat)
    requires CanRun(INIT, run) && CanPass(Begin(After(INIT, run)), pass)
    requires PassEnds(AfterPass(Begin(After(INIT, run)), pass))
    requires w < |AfterPass(Begin(After(INIT, run)), pass).s.wakes|
    ensures var s, p := After(INIT, run), AfterPass(Begin(After(INIT, run)), pass);
            && |p.born| == |p.s.wakes|
            && (w < |s.wakes| ==> Finished(p.s, w))
            && (Finished(p.s, w) <==> !p.born[w])
            && (Finished(p.s, w) ==> ResumedBy(p.s.history, w) == p.s.wakes[w].taken)
  {
    var b := Begin(After(INIT, run));
    BeginsSound(run);
    PassKeepsInv(b, pass);
    var p := AfterPass(b, pass);
    assert Sound(p, w);
    assert w < |b.born| ==> p.born[w] == b.born[w];
  }

  /** So poll is entered with a wake-up pending exactly if one was made during the pass with its flag set. */
  lemma PendingAtPollExactlyIfStale(run: seq<Step>, pass: seq<PassStep>, q: QId)
    requires CanRun(INIT, run) && CanPass(Begin(After(INIT, run)), pass)
    requires PassEnds(AfterPass(Begin(After(INIT, run)), pass))
    ensures var p := AfterPass(Begin(After(INIT, run)), pass);
            |p.born| == |p.s.wakes| &&
            (PendingOn(p.s, q) <==> exists w :: 0 <= w < |p.born| && p.born[w] && p.s.wakes[w].origin == q)
  {
    var b := Begin(After(INIT, run));
    BeginsSound(run);
    PassKeepsInv(b, pass);
    var p := AfterPass(b, pass);
    forall w: nat | w < |p.s.wakes|
      ensures Unfinished(p.s, q, w) <==> p.born[w] && p.s.wakes[w].origin == q
    {
      PassFinishesWakeUps(run, pass, w);
      assert Sound(p, w);
    }
    if PendingOn(p.s, q) {
      var w :| Unfinished(p.s, q, w);
    }
    if w :| 0 <= w < |p.born| && p.born[w] && p.s.wakes[w].origin == q {
      assert Unfinished(p.s, q, w);
    }
  }

  /** No handler had its flag set when it was registered during the pass. */
  ghost predicate NoStaleFlag(p: Pass) {
    forall w :: 0 <= w < |p.born| ==> !p.born[w]
  }

  /** Then poll is entered with nobody forgotten: every mutex that has a sleeper is held, and every rwlock
      that has a sleeping writer is occupied. */
  lemma NobodyForgottenAtPoll(run: seq<Step>, pass: seq<PassStep>, id: nat)
    requires CanRun(INIT, run) && CanPass(Begin(After(INIT, run)), pass)
    requires PassEnds(AfterPass(Begin(After(INIT, run)), pass)) && NoStaleFlag(AfterPass(Begin(After(INIT, run)), pass))
    ensures var s := AfterPass(Begin(After(INIT, run)), pass).s;
            && (Q(s, MutexQ(id)) != [] ==> id in s.mutexes)
            && (Q(s, WritersQ(id)) != [] ==> RwOf(s, id).n != 0)
  {
    BeginsSound(run);
    PassKeepsInv(Begin(After(INIT, run)), pass);
    var s := AfterPass(Begin(After(INIT, run)), pass).s;
    PendingAtPollExactlyIfStale(run, pass, MutexQ(id));
    PendingAtPollExactlyIfStale(run, pass, WritersQ(id));
    assert NoLostWakeUp(s, MutexQ(id)) && NoLostWakeUp(s, WritersQ(id));
  }

  /** Thread 0 sleeps on queue 5. */
  const SLEEPING := State(map[0 := OnQueue(UserQ(5))], map[UserQ(5) := [0]], [], map[], map[], [], false)

  /** ... and is being woken. */
  const WAKING := State(
    map[0 := InWake(UserQ(5), 0)], map[UserQ(5) := []], [Wake(UserQ(5), [0], 0)], map[], map[], [], false)

  lemma FallsAsleep()
    ensures CanRun(INIT, [Spawn(0), SleepOn(0, 5)]) && After(INIT, [Spawn(0), SleepOn(0, 5)]) == SLEEPING
  {
    var s1 := Apply(INIT, Spawn(0));
    assert Q(s1, UserQ(5)) + [0] == [0];
    assert Apply(s1, SleepOn(0, 5)) == SLEEPING;
    RunsOne(s1, SleepOn(0, 5));
    assert [Spawn(0), SleepOn(0, 5)][1..] == [SleepOn(0, 5)];
  }

  lemma IsWoken()
    ensures Enabled(SLEEPING, WakeOne(5)) && Apply(SLEEPING, WakeOne(5)) == WAKING
  {
    assert TakenBy(Q(SLEEPING, UserQ(5)), 1) == [0];
    assert Q(SLEEPING, UserQ(5))[1..] == [];
  }

  /** A handler wakes the thread during the pass, and the memory of the new handler holds a set flag: the
      pass ends, and the thread has not been resumed. */
  lemma StaleFlagDelaysWakeUp()
    ensures var run, pass := [Spawn(0), SleepOn(0, 5)], [Meanwhile(WakeOne(5), [true])];
            && CanRun(INIT, run) && CanPass(Begin(After(INIT, run)), pass)
            && PassEnds(AfterPass(Begin(After(INIT, run)), pass))
            && PendingOn(AfterPass(Begin(After(INIT, run)), pass).s, UserQ(5))
  {
    FallsAsleep();
    IsWoken();
    assert Unfinished(WAKING, UserQ(5), 0);
    OnePassStep(Begin(SLEEPING), Meanwhile(WakeOne(5), [true]));
  }

  /** The thread's alarm goes off while it is being woken. */
  lemma AlarmCanAbort()
    ensures var run := [Spawn(0), SleepOn(0, 5)] + [WakeOne(5)] + [Alarm(0, [])];
            CanRun(INIT, run) && After(INIT, run).aborted
  {
    FallsAsleep();
    IsWoken();
    RunsOne(SLEEPING, WakeOne(5));
    RunsCompose(INIT, [Spawn(0), SleepOn(0, 5)], [WakeOne(5)]);
    assert IsHeldList(WAKING, 0, []);
    assert Apply(WAKING, Alarm(0, [])) == Abort(WAKING);
    RunsOne(WAKING, Alarm(0, []));
    RunsCompose(INIT, [Spawn(0), SleepOn(0, 5)] + [WakeOne(5)], [Alarm(0, [])]);
  }

  lemma OnePassStep(p: Pass, step: PassStep)
    requires MayPass(p, step)
    ensures CanPass(p, [step]) && AfterPass(p, [step]) == DoPass(p, step)
  {
    var none: seq<PassStep> := [];
    assert [step][1..] == none;
    assert CanPass(DoPass(p, step), none) && AfterPass(DoPass(p, step), none) == DoPass(p, step);
  }
}
