/** What every run of the thread runtime keeps. */
module LifecycleProofs {
  import opened Common
  import opened Lifecycle

  // ----- contexts

  /** Where control returns to from above a stack of threads that are inside pth_start. */
  function Top(parents: seq<Tid>): Ctx {
    if parents == [] then Reactor else Code(parents[|parents| - 1])
  }

  /** `parents`, outermost first: each is inside pth_start, holds itself as old_pth, and was itself called
      from the one below. */
  ghost predicate Parents(threads: map<Tid, Thread>, parents: seq<Tid>) {
    parents != [] ==>
      var n := |parents| - 1;
      && parents[n] in threads && parents[n] !in parents[..n]
      && threads[parents[n]].status == InStart(Some(parents[n]))
      && threads[parents[n]].callingCtx == Top(parents[..n])
      && Parents(threads, parents[..n])
  }

  /** Who has the processor: the reactor, or thread `t` on top of its parents. */
  datatype Busy = Nobody | Somebody(parents: seq<Tid>, t: Tid)

  ghost predicate Chained(s: State, b: Busy) {
    && (forall t :: t in s.threads ==> s.threads[t].threadCtx == Code(t))
    && match b
       case Nobody =>
         && s.running == Reactor && s.mainStart == None
         && (forall t :: t in s.threads ==> !OnChain(s.threads[t].status))
       case Somebody(parents, t) =>
         && s.running == Code(t) && s.current == Some(t) && t in s.threads && t !in parents
         && s.threads[t].status == Running && s.threads[t].callingCtx == Top(parents)
         && Parents(s.threads, parents)
         && (forall u :: u in s.threads && OnChain(s.threads[u].status) ==> u == t || u in parents)
  }

  predicate OnChain(st: Status) {
    st.Running? || st.InStart?
  }

  lemma {:induction false} ParentsFrame(a: map<Tid, Thread>, b: map<Tid, Thread>, parents: seq<Tid>)
    requires Parents(a, parents)
    requires forall u :: u in parents && u in a ==>
               u in b && b[u].status == a[u].status && b[u].callingCtx == a[u].callingCtx
    ensures Parents(b, parents)
  {
    if parents != [] {
      var n := |parents| - 1;
      assert parents[n] in parents;
      ParentsFrame(a, b, parents[..n]);
    }
  }

  lemma {:induction false} ParentsAreInStart(threads: map<Tid, Thread>, parents: seq<Tid>, u: Tid)
    requires Parents(threads, parents) && u in parents
    ensures u in threads && threads[u].status.InStart?
  {
    var n := |parents| - 1;
    if u != parents[n] {
      assert parents == parents[..n] + [parents[n]];
      ParentsAreInStart(threads, parents[..n], u);
    }
  }

  lemma SameControl(s: State, r: State, b: Busy)
    requires Chained(s, b) && r.running == s.running && r.current == s.current && r.mainStart == s.mainStart
    requires r.threads.Keys == s.threads.Keys
    requires forall t :: t in s.threads ==>
               && r.threads[t].status == s.threads[t].status && r.threads[t].threadCtx == s.threads[t].threadCtx
               && r.threads[t].callingCtx == s.threads[t].callingCtx
    ensures Chained(r, b)
  {
    if b.Somebody? {
      ParentsFrame(s.threads, r.threads, b.parents);
    }
  }

  // ----- handles and timers

  predicate Active(th: Thread) {
    th.status != NotStarted && th.status != Dead
  }

  /** Timer `i` is one that thread record `th` knows about. */
  predicate Known(th: Thread, kind: Kind, i: nat) {
    match kind
    case AlarmTimer => Active(th) && th.alarmTimer == Some(i)
    case SleepTimer => th.status == Suspended(Sleeping(i))
    case PollTimer => th.status.Suspended? && th.status.wait.Polling? && th.status.wait.timeout == Some(i)
  }

  /** A handle names a thread that is suspended in the call that registered it, and no other. */
  ghost predicate HandlesOk(s: State) {
    && (forall h :: h in s.handles ==>
          && s.handles[h] in s.threads && s.threads[s.handles[h]].status.Suspended?
          && h in HandlesOf(s.threads[s.handles[h]].status.wait))
    && (forall t, h :: t in s.threads && s.threads[t].status.Suspended? && h in HandlesOf(s.threads[t].status.wait) ==>
          h in s.handles && s.handles[h] == t)
  }

  /** A timer names a live thread that knows it, and the timers a thread knows are in the queue. */
  ghost predicate TimersOk(s: State) {
    && (forall i :: i in s.timers ==>
          s.timers[i].t in s.threads && Known(s.threads[s.timers[i].t], s.timers[i].kind, i))
    && (forall t, k, i :: t in s.threads && Known(s.threads[t], k, i) ==> i in s.timers && s.timers[i] == Timer(k, t))
    && (forall t :: t in s.threads && s.threads[t].status == NotStarted ==> s.threads[t].alarmTimer == None)
  }

  predicate OnQueue(s: State, t: Tid) {
    t in s.threads && s.threads[t].status == Suspended(OnWaitQueue)
  }

  /** A thread suspended on a wait queue has one entry, on a sleepers list or a wake list; others have none. */
  ghost predicate ListsOk(s: State) {
    forall t :: s.asleep[t] + s.woken[t] == if OnQueue(s, t) then 1 else 0
  }

  ghost predicate Ok(s: State, b: Busy) {
    !s.broken && !s.aborted && Chained(s, b) && HandlesOk(s) && TimersOk(s) && ListsOk(s)
  }

  /** An alarm is never left pending in a thread that goes on. */
  ghost predicate NoAlarm(s: State) {
    forall t :: t in s.threads && s.threads[t].status != Dead ==> !s.threads[t].alarmReceived
  }

  ghost predicate Inv(s: State) {
    NoAlarm(s) && exists b :: Ok(s, b)
  }

  /** The two records agree on everything handles and timers depend on. */
  predicate Alike(a: Thread, b: Thread) {
    && a.alarmTimer == b.alarmTimer && a.alarmReceived == b.alarmReceived
    && (a.status == b.status || (OnChain(a.status) && OnChain(b.status)))
  }

  lemma AlikeKeepsHandles(s: State, s': State)
    requires HandlesOk(s) && s'.handles == s.handles && s'.threads.Keys == s.threads.Keys
    requires forall t :: t in s.threads ==> Alike(s.threads[t], s'.threads[t])
    ensures HandlesOk(s')
  {
    forall t | t in s.threads && (s.threads[t].status.Suspended? || s'.threads[t].status.Suspended?)
      ensures s'.threads[t].status == s.threads[t].status
    {
      assert Alike(s.threads[t], s'.threads[t]);
    }
  }

  lemma AlikeKeepsTimers(s: State, s': State)
    requires TimersOk(s) && s'.timers == s.timers && s'.threads.Keys == s.threads.Keys
    requires forall t :: t in s.threads ==> Alike(s.threads[t], s'.threads[t])
    ensures TimersOk(s')
  {
    forall t, k, i | t in s.threads
      ensures Known(s'.threads[t], k, i) <==> Known(s.threads[t], k, i)
    {
      assert Alike(s.threads[t], s'.threads[t]);
    }
    forall t | t in s'.threads && s'.threads[t].status == NotStarted
      ensures s'.threads[t].alarmTimer == None
    {
      assert Alike(s.threads[t], s'.threads[t]);
    }
  }

  lemma AlikeKeepsLists(s: State, s': State)
    requires ListsOk(s) && s'.asleep == s.asleep && s'.woken == s.woken && s'.threads.Keys == s.threads.Keys
    requires forall t :: t in s.threads ==> Alike(s.threads[t], s'.threads[t])
    ensures ListsOk(s')
  {
    forall t
      ensures OnQueue(s', t) <==> OnQueue(s, t)
    {
      assert t in s.threads ==> Alike(s.threads[t], s'.threads[t]);
    }
  }

  // ----- leaving the processor

  /** Who runs after the one on top has gone. */
  function Below(b: Busy): Busy
    requires b.Somebody?
  {
    var n := |b.parents| - 1;
    if b.parents == [] then Nobody else Somebody(b.parents[..n], b.parents[n])
  }

  /** `s0` is `s` with the running thread's record replaced by one that is off the chain. */
  ghost predicate Retired(s: State, b: Busy, s0: State, th: Thread) {
    && Chained(s, b) && b.Somebody?
    && s0.running == s.running && s0.current == s.current && s0.mainStart == s.mainStart
    && s0.threads == s.threads[b.t := th] && !OnChain(th.status) && th.threadCtx == Code(b.t)
  }

  lemma LandInReactor(s: State, b: Busy, s0: State, th: Thread)
    requires Retired(s, b, s0, th) && b.parents == []
    ensures s.threads[b.t].callingCtx == Reactor && Chained(Land(s0, Reactor), Nobody)
  {
    assert Land(s0, Reactor).threads == s0.threads;
    forall u | u in s0.threads
      ensures !OnChain(s0.threads[u].status) && s0.threads[u].threadCtx == Code(u)
    {
      assert u != b.t ==> s0.threads[u] == s.threads[u];
    }
  }

  /** The parent on top: what is known of it, and that those below it do not notice its return. */
  lemma TopParent(s: State, b: Busy, u: Tid, rest: seq<Tid>)
    requires Chained(s, b) && b.Somebody? && b.parents == rest + [u]
    ensures s.threads[b.t].callingCtx == Code(u) && u in s.threads && u != b.t && u !in rest
    ensures s.threads[u].status == InStart(Some(u)) && s.threads[u].callingCtx == Top(rest)
    ensures Parents(s.threads, rest) && b.t !in rest
  {
    var n := |rest|;
    assert b.parents[n] == u && b.parents[..n] == rest && u in b.parents;
    assert forall v :: v in rest ==> v in b.parents;
  }

  lemma LandInParent(s: State, b: Busy, s0: State, th: Thread, u: Tid, rest: seq<Tid>)
    requires Retired(s, b, s0, th) && b.parents == rest + [u]
    ensures s.threads[b.t].callingCtx == Code(u)
    ensures u in s0.threads && s0.threads[u].status == InStart(Some(u))
    ensures Chained(Land(s0, Code(u)), Somebody(rest, u))
  {
    TopParent(s, b, u, rest);
    var threads' := s0.threads[u := s0.threads[u].(status := Running)];
    ParentsFrame(s.threads, threads', rest);
    assert Land(s0, Code(u)) == s0.(threads := threads', running := Code(u), current := Some(u));
    forall v | v in threads'
      ensures threads'[v].threadCtx == Code(v) && (OnChain(threads'[v].status) ==> v == u || v in rest)
    {
      if v != b.t && v != u {
        assert threads'[v] == s.threads[v];
        assert v in b.parents ==> v in rest;
      }
    }
  }

  lemma LandFrame(s0: State, c: Ctx)
    requires c.Code? ==> c.t in s0.threads && s0.threads[c.t].status.InStart?
    ensures var s' := Land(s0, c);
            && s'.broken == s0.broken && s'.aborted == s0.aborted && s'.handles == s0.handles
            && s'.timers == s0.timers && s'.asleep == s0.asleep && s'.woken == s0.woken
            && s'.threads.Keys == s0.threads.Keys && forall t :: t in s0.threads ==> Alike(s0.threads[t], s'.threads[t])
  {
  }

  /** The running thread has been marked suspended or dead and jumps to its calling context. */
  lemma LandPops(s: State, b: Busy, s0: State, th: Thread)
    requires Retired(s, b, s0, th) && !s0.broken && !s0.aborted && HandlesOk(s0) && TimersOk(s0) && ListsOk(s0)
    ensures Ok(Land(s0, s.threads[b.t].callingCtx), Below(b))
  {
    var c := s.threads[b.t].callingCtx;
    if b.parents == [] {
      LandInReactor(s, b, s0, th);
    } else {
      var n := |b.parents| - 1;
      LandInParent(s, b, s0, th, b.parents[n], b.parents[..n]);
    }
    LandFrame(s0, c);
    AlikeKeepsHandles(s0, Land(s0, c));
    AlikeKeepsTimers(s0, Land(s0, c));
    AlikeKeepsLists(s0, Land(s0, c));
  }

  // ----- blocking

  lemma SuspendHandles(s: State, t: Tid, w: Wait, s0: State)
    requires HandlesOk(s) && t in s.threads && s.threads[t].status == Running && HandlesOf(w) !! s.handles.Keys
    requires s0.handles == s.handles + Naming(HandlesOf(w), t)
    requires exists c :: s0.threads == s.threads[t := s.threads[t].(status := Suspended(w), threadCtx := c)]
    ensures HandlesOk(s0)
  {
    forall u, h | u in s0.threads && s0.threads[u].status.Suspended? && h in HandlesOf(s0.threads[u].status.wait)
      ensures h in s0.handles && s0.handles[h] == u
    {
      if u != t {
        assert h in s.handles && s.handles[h] == u;
      }
    }
  }

  lemma SuspendTimers(s: State, t: Tid, w: Wait, s0: State)
    requires TimersOk(s) && t in s.threads && s.threads[t].status == Running && OwnTimer(w, t).Keys !! s.timers.Keys
    requires s0.timers == s.timers + OwnTimer(w, t)
    requires exists c :: s0.threads == s.threads[t := s.threads[t].(status := Suspended(w), threadCtx := c)]
    ensures TimersOk(s0)
  {
    forall i | i in s0.timers
      ensures s0.timers[i].t in s0.threads && Known(s0.threads[s0.timers[i].t], s0.timers[i].kind, i)
    {
      if i in s.timers {
        assert Known(s.threads[s.timers[i].t], s.timers[i].kind, i);
      }
    }
    forall u, k, i | u in s0.threads && Known(s0.threads[u], k, i)
      ensures i in s0.timers && s0.timers[i] == Timer(k, u)
    {
      if u != t || k == AlarmTimer {
        assert Known(s.threads[u], k, i);
      }
    }
  }

  lemma SuspendLists(s: State, t: Tid, w: Wait, s0: State)
    requires ListsOk(s) && t in s.threads && s.threads[t].status == Running
    requires s0.asleep == s.asleep + Entry(w, t) && s0.woken == s.woken
    requires exists c :: s0.threads == s.threads[t := s.threads[t].(status := Suspended(w), threadCtx := c)]
    ensures ListsOk(s0)
  {
    forall u
      ensures s0.asleep[u] + s0.woken[u] == if OnQueue(s0, u) then 1 else 0
    {
      assert OnQueue(s0, u) <==> OnQueue(s, u) || (u == t && w.OnWaitQueue?);
    }
  }

  lemma SwitchAwayOk(s: State, b: Busy, w: Wait)
    requires Ok(s, b) && b.Somebody?
    requires HandlesOf(w) !! s.handles.Keys && OwnTimer(w, b.t).Keys !! s.timers.Keys
    ensures Ok(SwitchAway(Register(s, b.t, w), w), Below(b))
  {
    var th := s.threads[b.t].(status := Suspended(w), threadCtx := s.running);
    var s0 := Set(Register(s, b.t, w), b.t, th);
    SuspendHandles(s, b.t, w, s0);
    SuspendTimers(s, b.t, w, s0);
    SuspendLists(s, b.t, w, s0);
    LandPops(s, b, s0, th);
  }

  // ----- exit

  lemma ExitOk(s: State, b: Busy)
    requires Ok(s, b) && b.Somebody?
    ensures Ok(ExitThread(s), Below(b)) && Ended(ExitThread(s), b.t)
  {
    var th := s.threads[b.t].(status := Dead);
    var s0 := Set(s, b.t, th).(timers := map i | i in s.timers && s.timers[i].t != b.t :: s.timers[i]);
    DeadResources(s, b.t, s0, th);
    assert forall t :: OnQueue(s0, t) <==> OnQueue(s, t);
    LandPops(s, b, s0, th);
    LandKeepsDead(s0, s.threads[b.t].callingCtx, b.t);
    DeadIsUnnamed(ExitThread(s), b.t);
  }

  lemma LandKeepsDead(s0: State, c: Ctx, t: Tid)
    requires t in s0.threads && s0.threads[t].status == Dead
    ensures t in Land(s0, c).threads && Land(s0, c).threads[t].status == Dead
  {
  }

  /** The thread is dead, and no handle, timer or list names it. */
  ghost predicate Ended(s: State, t: Tid) {
    && t in s.threads && s.threads[t].status == Dead && t !in s.handles.Values
    && (forall i :: i in s.timers ==> s.timers[i].t != t) && t !in s.asleep && t !in s.woken
  }

  lemma DeadIsUnnamed(s: State, t: Tid)
    requires HandlesOk(s) && TimersOk(s) && ListsOk(s) && t in s.threads && s.threads[t].status == Dead
    ensures Ended(s, t)
  {
    forall i | i in s.timers
      ensures s.timers[i].t != t
    {
      assert Known(s.threads[s.timers[i].t], s.timers[i].kind, i);
    }
    assert s.asleep[t] + s.woken[t] == if OnQueue(s, t) then 1 else 0;
  }

  lemma DeadResources(s: State, t: Tid, s0: State, th: Thread)
    requires HandlesOk(s) && TimersOk(s) && t in s.threads && s.threads[t].status == Running && th.status == Dead
    requires s0.threads == s.threads[t := th] && s0.handles == s.handles
    requires s0.timers == map i | i in s.timers && s.timers[i].t != t :: s.timers[i]
    ensures HandlesOk(s0) && TimersOk(s0)
  {
    forall i | i in s0.timers
      ensures Known(s0.threads[s0.timers[i].t], s0.timers[i].kind, i)
    {
      assert Known(s.threads[s.timers[i].t], s.timers[i].kind, i);
    }
    forall u, k, i | u in s0.threads && Known(s0.threads[u], k, i)
      ensures i in s0.timers && s0.timers[i] == Timer(k, u)
    {
      assert u != t && Known(s.threads[u], k, i);
    }
  }

  // ----- being resumed

  /** `r` is `s` with thread `t`, which was suspended in `w`, back on the processor and rid of everything
      it had registered for the wait. */
  ghost predicate Resumed(s: State, t: Tid, w: Wait, r: State) {
    && t in s.threads && s.threads[t].status == Suspended(w)
    && r.threads == s.threads[t := s.threads[t].(status := Running, callingCtx := Reactor)]
    && r.handles == s.handles - HandlesOf(w) && r.timers == s.timers - OwnTimer(w, t).Keys
    && r.asleep == s.asleep - Entry(w, t) && r.woken == s.woken - Entry(w, t)
    && r.running == Code(t) && r.current == Some(t) && !r.broken && !r.aborted
  }

  lemma ResumedOk(s: State, t: Tid, w: Wait, r: State)
    requires Ok(s, Nobody) && Resumed(s, t, w, r)
    ensures Ok(r, Somebody([], t))
  {
    ResumedHandles(s, t, w, r);
    ResumedTimers(s, t, w, r);
    ResumedLists(s, t, w, r);
    forall u | u in r.threads && OnChain(r.threads[u].status)
      ensures u == t
    {
    }
  }

  lemma ResumedLists(s: State, t: Tid, w: Wait, r: State)
    requires ListsOk(s) && Resumed(s, t, w, r)
    ensures ListsOk(r)
  {
    forall u
      ensures r.asleep[u] + r.woken[u] == if OnQueue(r, u) then 1 else 0
    {
      assert OnQueue(r, u) <==> OnQueue(s, u) && u != t;
      assert s.asleep[u] + s.woken[u] == if OnQueue(s, u) then 1 else 0;
    }
  }

  lemma ResumedHandles(s: State, t: Tid, w: Wait, r: State)
    requires HandlesOk(s) && Resumed(s, t, w, r)
    ensures HandlesOk(r)
  {
    forall h | h in r.handles
      ensures r.handles[h] in r.threads && r.threads[r.handles[h]].status.Suspended?
      ensures h in HandlesOf(r.threads[r.handles[h]].status.wait)
    {
      assert h in HandlesOf(s.threads[s.handles[h]].status.wait);
      assert s.handles[h] != t;
    }
    assert forall h :: h in HandlesOf(w) ==> h in s.handles && s.handles[h] == t;
    forall u, h | u in r.threads && r.threads[u].status.Suspended? && h in HandlesOf(r.threads[u].status.wait)
      ensures h in r.handles && r.handles[h] == u
    {
      assert u != t && h in s.handles && s.handles[h] == u;
    }
  }

  lemma ResumedTimers(s: State, t: Tid, w: Wait, r: State)
    requires TimersOk(s) && Resumed(s, t, w, r)
    ensures TimersOk(r)
  {
    forall i | i in r.timers
      ensures Known(r.threads[r.timers[i].t], r.timers[i].kind, i)
    {
      assert Known(s.threads[s.timers[i].t], s.timers[i].kind, i);
    }
    forall u, k, i | u in r.threads && Known(r.threads[u], k, i)
      ensures i in r.timers && r.timers[i] == Timer(k, u)
    {
      assert Known(s.threads[u], k, i);
      if i in OwnTimer(w, t) {
        assert Known(s.threads[t], KindOf(w), i);
      }
    }
  }

  /** What a resumed thread finds is what it left: its handles, and its timer unless that is what fired. */
  lemma OwnThings(s: State, t: Tid, w: Wait)
    requires Ok(s, Nobody) && t in s.threads && s.threads[t].status == Suspended(w)
    ensures HandlesOf(w) <= s.handles.Keys && OwnTimer(w, t).Keys <= s.timers.Keys
    ensures w.OnWaitQueue? ==> s.asleep[t] + s.woken[t] == 1
  {
    if TimerOf(w).Some? {
      assert Known(s.threads[t], KindOf(w), TimerOf(w).value);
    }
    assert w.OnWaitQueue? ==> OnQueue(s, t);
  }

  /** Without anything that was registered for the wait on the thread's own account. */
  function Tidied(s: State, t: Tid, w: Wait): State {
    s.(handles := s.handles - HandlesOf(w), timers := s.timers - OwnTimer(w, t).Keys, asleep := s.asleep - Entry(w, t))
  }

  /** Tidying up after a wait gives back exactly what was registered for it. */
  lemma TidyUpIs(s: State, t: Tid, w: Wait, timedOut: bool, alarm: bool)
    requires HandlesOf(w) <= s.handles.Keys
    requires w.Sleeping? ==> (alarm <==> w.timer in s.timers)
    requires w.Polling? && w.timeout.Some? ==> (timedOut <==> w.timeout.value !in s.timers)
    requires w.OnWaitQueue? ==> s.current == Some(t) && (alarm <==> t in s.asleep)
    ensures TidyUp(s, w, timedOut, alarm) == Tidied(s, t, w)
  {
    match w {
      case Blocked(h) => TidyBlock(s, t, h, timedOut, alarm);
      case Sleeping(i) => TidySleep(s, t, i, timedOut, alarm);
      case Polling(hs, timeout) => TidyPoll(s, t, hs, timeout, timedOut, alarm);
      case OnWaitQueue => TidyQueue(s, t, timedOut, alarm);
    }
  }

  lemma Untouched(s: State)
    ensures s.handles - {} == s.handles && s.timers - {} == s.timers && s.asleep - multiset{} == s.asleep
  {
  }

  lemma TidyBlock(s: State, t: Tid, h: nat, timedOut: bool, alarm: bool)
    requires h in s.handles
    ensures TidyUp(s, Blocked(h), timedOut, alarm) == Tidied(s, t, Blocked(h))
  {
    Untouched(s);
    assert OwnTimer(Blocked(h), t).Keys == {};
  }

  lemma TidySleep(s: State, t: Tid, i: nat, timedOut: bool, alarm: bool)
    requires alarm <==> i in s.timers
    ensures TidyUp(s, Sleeping(i), timedOut, alarm) == Tidied(s, t, Sleeping(i))
  {
    Untouched(s);
    assert OwnTimer(Sleeping(i), t).Keys == {i};
    assert i !in s.timers ==> s.timers - {i} == s.timers;
  }

  lemma TidyPoll(s: State, t: Tid, hs: seq<nat>, timeout: Option<nat>, timedOut: bool, alarm: bool)
    requires HandlesOf(Polling(hs, timeout)) <= s.handles.Keys
    requires timeout.Some? ==> (timedOut <==> timeout.value !in s.timers)
    ensures TidyUp(s, Polling(hs, timeout), timedOut, alarm) == Tidied(s, t, Polling(hs, timeout))
  {
    Untouched(s);
    if timeout.Some? {
      assert OwnTimer(Polling(hs, timeout), t).Keys == {timeout.value};
      assert timeout.value !in s.timers ==> s.timers - {timeout.value} == s.timers;
    } else {
      assert OwnTimer(Polling(hs, timeout), t).Keys == {};
    }
  }

  lemma TidyQueue(s: State, t: Tid, timedOut: bool, alarm: bool)
    requires s.current == Some(t) && (alarm <==> t in s.asleep)
    ensures TidyUp(s, OnWaitQueue, timedOut, alarm) == Tidied(s, t, OnWaitQueue)
  {
    Untouched(s);
    assert OwnTimer(OnWaitQueue, t).Keys == {};
    assert t !in s.asleep ==> s.asleep - multiset{t} == s.asleep;
  }

  function Back(s: State, t: Tid, w: Wait): State
    requires t in s.threads
  {
    s.(threads := s.threads[t := s.threads[t].(status := Running, callingCtx := Reactor)],
       handles := s.handles - HandlesOf(w), timers := s.timers - OwnTimer(w, t).Keys,
       asleep := s.asleep - Entry(w, t), woken := s.woken - Entry(w, t),
       running := Code(t), current := Some(t))
  }

  /** The part of the wait's timer that is no longer queued when the thread gets the processor back. */
  function FiredPart(w: Wait, t: Tid, timedOut: bool, alarm: bool): set<nat> {
    if timedOut || (w.Sleeping? && !alarm) then OwnTimer(w, t).Keys else {}
  }

  /** The state in which a callback switches into the thread: its timer is gone if that is what fired, and so
      is its place on the wake list if that is where it was. */
  function Handed(s: State, t: Tid, w: Wait, timedOut: bool, alarm: bool): State {
    s.(timers := s.timers - FiredPart(w, t, timedOut, alarm), woken := s.woken - Entry(w, t))
  }

  lemma BackIs(s: State, t: Tid, w: Wait, timedOut: bool, alarm: bool)
    requires t in s.threads && s.threads[t].status == Suspended(w) && s.threads[t].threadCtx == Code(t)
    requires s.running == Reactor && HandlesOf(w) <= s.handles.Keys && OwnTimer(w, t).Keys <= s.timers.Keys
    requires timedOut ==> w.Polling? && w.timeout.Some?
    requires w.OnWaitQueue? ==> (alarm <==> t in s.asleep)
    ensures TidyUp(SwitchInto(Handed(s, t, w, timedOut, alarm), t), w, timedOut, alarm) == Back(s, t, w)
  {
    var s1 := Handed(s, t, w, timedOut, alarm);
    TimerGone(s, t, w, timedOut, alarm);
    TidyUpIs(SwitchInto(s1, t), t, w, timedOut, alarm);
  }

  /** The timer is gone exactly if it is what fired, and gone after the tidying up in any case. */
  lemma TimerGone(s: State, t: Tid, w: Wait, timedOut: bool, alarm: bool)
    requires OwnTimer(w, t).Keys <= s.timers.Keys && (timedOut ==> w.Polling? && w.timeout.Some?)
    ensures var timers := Handed(s, t, w, timedOut, alarm).timers;
            && (w.Sleeping? ==> (alarm <==> w.timer in timers))
            && (w.Polling? && w.timeout.Some? ==> (timedOut <==> w.timeout.value !in timers))
            && timers - OwnTimer(w, t).Keys == s.timers - OwnTimer(w, t).Keys
  {
    assert TimerOf(w).Some? ==> OwnTimer(w, t).Keys == {TimerOf(w).value};
  }

  /** Thread `t` back on the processor after `w`. */
  lemma ResumeInIs(s: State, s1: State, t: Tid, w: Wait, timedOut: bool)
    requires t in s.threads && s.threads[t].status == Suspended(w) && s.threads[t].threadCtx == Code(t)
    requires s.running == Reactor && HandlesOf(w) <= s.handles.Keys && OwnTimer(w, t).Keys <= s.timers.Keys
    requires timedOut ==> w.Polling? && w.timeout.Some?
    requires w.OnWaitQueue? ==> (s.threads[t].alarmReceived <==> t in s.asleep)
    requires s1 == Handed(s, t, w, timedOut, s.threads[t].alarmReceived) && !s.aborted
    ensures ResumeIn(s1, t, timedOut) ==
            if s.threads[t].alarmReceived then ExitThread(Back(s, t, w)) else Back(s, t, w)
  {
    BackIs(s, t, w, timedOut, s.threads[t].alarmReceived);
    assert ResumeIn(s1, t, timedOut) == AfterSwitch(SwitchInto(s1, t), w, timedOut, s.threads[t].alarmReceived);
  }

  lemma BackOk(s: State, t: Tid, w: Wait)
    requires Ok(s, Nobody) && t in s.threads && s.threads[t].status == Suspended(w)
    ensures Ok(Back(s, t, w), Somebody([], t))
  {
    ResumedOk(s, t, w, Back(s, t, w));
  }

  /** A descriptor resumes a thread that waits for one. */
  lemma ResumeByEvent(s: State, t: Tid, w: Wait)
    requires Ok(s, Nobody) && NoAlarm(s) && t in s.threads && s.threads[t].status == Suspended(w)
    requires w.Blocked? || w.Polling?
    ensures ResumeIn(s, t, false) == Back(s, t, w)
  {
    OwnThings(s, t, w);
    assert s.woken - multiset{} == s.woken;
    ResumeInIs(s, s, t, w, false);
  }

  /** A prepoll handler resumes a thread that is on its private list: it is suspended in wq_sleep_on. */
  lemma ResumeByWakeUp(s: State, t: Tid)
    requires Ok(s, Nobody) && NoAlarm(s) && t in s.woken
    ensures OnQueue(s, t) && ResumeIn(s.(woken := s.woken - multiset{t}), t, false) == Back(s, t, OnWaitQueue)
  {
    assert s.asleep[t] + s.woken[t] == if OnQueue(s, t) then 1 else 0;
    OwnThings(s, t, OnWaitQueue);
    ResumeInIs(s, s.(woken := s.woken - multiset{t}), t, OnWaitQueue, false);
  }

  /** The thread's own timer has been taken out of the queue and fires. */
  lemma ResumeByTimer(s: State, t: Tid, w: Wait, i: nat)
    requires Ok(s, Nobody) && NoAlarm(s) && t in s.threads && s.threads[t].status == Suspended(w)
    requires TimerOf(w) == Some(i)
    ensures ResumeIn(s.(timers := s.timers - {i}), t, w.Polling?) == Back(s, t, w)
  {
    OwnThings(s, t, w);
    HandedByTimer(s, t, w, i);
    ResumeInIs(s, s.(timers := s.timers - {i}), t, w, w.Polling?);
  }

  lemma HandedByTimer(s: State, t: Tid, w: Wait, i: nat)
    requires TimerOf(w) == Some(i)
    ensures Handed(s, t, w, w.Polling?, false) == s.(timers := s.timers - {i})
  {
    assert OwnTimer(w, t).Keys == {i};
    assert s.woken - multiset{} == s.woken;
  }

  /** An alarm takes the thread from none of its own things. */
  lemma HandedByAlarm(s: State, t: Tid, w: Wait)
    requires w.OnWaitQueue? ==> t !in s.woken
    ensures Handed(s, t, w, false, true) == s
  {
    assert s.timers - {} == s.timers;
    assert s.woken - Entry(w, t) == s.woken;
  }

  /** return_from_alarm before the switch: the timer is gone and the thread is told. */
  function Told(s: State, t: Tid, i: nat): State
    requires t in s.threads
  {
    Set(s.(timers := s.timers - {i}), t, s.threads[t].(alarmReceived := true, alarmTimer := None))
  }

  lemma ToldOk(s: State, t: Tid, i: nat)
    requires Ok(s, Nobody) && i in s.timers && s.timers[i] == Timer(AlarmTimer, t)
    ensures t in s.threads && s.threads[t].status.Suspended? && Ok(Told(s, t, i), Nobody)
  {
    assert Known(s.threads[t], AlarmTimer, i);
    var r := Told(s, t, i);
    SameControl(s, r, Nobody);
    SameStatuses(s, r);
    assert forall u :: OnQueue(r, u) <==> OnQueue(s, u);
    forall j | j in r.timers
      ensures Known(r.threads[r.timers[j].t], r.timers[j].kind, j)
    {
      assert Known(s.threads[s.timers[j].t], s.timers[j].kind, j);
    }
    forall u, k, j | u in r.threads && Known(r.threads[u], k, j)
      ensures j in r.timers && r.timers[j] == Timer(k, u)
    {
      assert Known(s.threads[u], k, j);
    }
  }

  lemma AlarmIsExit(s: State, t: Tid, i: nat)
    requires Ok(s, Nobody) && i in s.timers && s.timers[i] == Timer(AlarmTimer, t)
    requires t in s.threads && s.threads[t].status.Suspended? && Ok(Told(s, t, i), Nobody) && t !in s.woken
    ensures Fire(s, i) == ExitThread(Back(Told(s, t, i), t, s.threads[t].status.wait))
  {
    var told, w := Told(s, t, i), s.threads[t].status.wait;
    OwnThings(told, t, w);
    HandedByAlarm(told, t, w);
    ResumeInIs(told, told, t, w, false);
  }

  lemma ExitToReactor(s: State, t: Tid)
    requires t in s.threads && s.current == Some(t) && s.threads[t].callingCtx == Reactor
    ensures ExitThread(s).threads == s.threads[t := s.threads[t].(status := Dead)]
  {
  }

  /** An alarm ends the thread, whatever it was waiting in, and leaves nothing of it behind; unless the thread
      is on a wake list already. */
  lemma AlarmKills(s: State, i: nat)
    requires Ok(s, Nobody) && i in s.timers && s.timers[i].kind == AlarmTimer && s.timers[i].t !in s.woken
    ensures Ok(Fire(s, i), Nobody) && Ended(Fire(s, i), s.timers[i].t)
    ensures NoAlarm(s) ==> NoAlarm(Fire(s, i))
  {
    var t := s.timers[i].t;
    ToldOk(s, t, i);
    var told, w := Told(s, t, i), s.threads[t].status.wait;
    AlarmIsExit(s, t, i);
    BackOk(told, t, w);
    ExitOk(Back(told, t, w), Somebody([], t));
    ExitToReactor(Back(told, t, w), t);
  }

  /** An alarm for a thread on a wake list is the abort of wq_sleep_on. */
  lemma AlarmAborts(s: State, i: nat)
    requires Ok(s, Nobody) && i in s.timers && s.timers[i].kind == AlarmTimer && s.timers[i].t in s.woken
    ensures Fire(s, i).aborted && !Fire(s, i).broken
  {
    var t := s.timers[i].t;
    assert s.asleep[t] + s.woken[t] == if OnQueue(s, t) then 1 else 0;
    assert t !in s.asleep;
  }

  // ----- starting, and setting alarms

  /** The caller, if it is a thread, waits inside pth_start. */
  function Parked(s: State, b: Busy): map<Tid, Thread>
    requires b.Somebody? ==> b.t in s.threads
  {
    if b.Nobody? then s.threads else s.threads[b.t := s.threads[b.t].(status := InStart(Some(b.t)))]
  }

  lemma StartIs(s: State, b: Busy, t: Tid)
    requires Chained(s, b) && t in s.threads && s.threads[t].status == NotStarted
    ensures StartThread(s, t) ==
            s.(threads := Parked(s, b)[t := s.threads[t].(status := Running, callingCtx := s.running)],
               mainStart := if b.Nobody? then Some(s.current) else s.mainStart, running := Code(t), current := Some(t))
  {
    if b.Somebody? {
      assert t != b.t;
    }
  }

  lemma StartOk(s: State, b: Busy, t: Tid)
    requires Ok(s, b) && t in s.threads && s.threads[t].status == NotStarted
    ensures Ok(StartThread(s, t), Somebody(if b.Nobody? then [] else b.parents + [b.t], t))
  {
    var r := StartThread(s, t);
    StartIs(s, b, t);
    StartSettled(s, b, t, r);
    StartHandles(s, r, t);
    StartTimers(s, r, t);
    assert forall u :: OnQueue(r, u) <==> OnQueue(s, u);
    if b.Somebody? {
      StartChained(s, b, t, r);
    }
  }

  lemma StartChained(s: State, b: Busy, t: Tid, r: State)
    requires Chained(s, b) && b.Somebody? && t in s.threads && s.threads[t].status == NotStarted
    requires r.threads == Parked(s, b)[t := s.threads[t].(status := Running, callingCtx := s.running)]
    requires r.running == Code(t) && r.current == Some(t)
    ensures Chained(r, Somebody(b.parents + [b.t], t))
  {
    var parents := b.parents + [b.t];
    if t in b.parents {
      ParentsAreInStart(s.threads, b.parents, t);
    }
    assert parents[..|b.parents|] == b.parents;
    ParentsFrame(s.threads, r.threads, b.parents);
    assert Parents(r.threads, parents);
  }

  /** Only `t` starts, and only threads on the chain otherwise differ. */
  ghost predicate OnlyStarts(s: State, r: State, t: Tid) {
    && t in s.threads && s.threads[t].status == NotStarted && r.threads.Keys == s.threads.Keys
    && OnChain(r.threads[t].status) && r.threads[t].alarmTimer == s.threads[t].alarmTimer
    && forall u :: u in s.threads && u != t ==> Alike(s.threads[u], r.threads[u])
  }

  lemma StartSettled(s: State, b: Busy, t: Tid, r: State)
    requires Chained(s, b) && t in s.threads && s.threads[t].status == NotStarted
    requires r.threads == Parked(s, b)[t := s.threads[t].(status := Running, callingCtx := s.running)]
    ensures OnlyStarts(s, r, t)
  {
  }

  lemma StartHandles(s: State, r: State, t: Tid)
    requires HandlesOk(s) && r.handles == s.handles && OnlyStarts(s, r, t)
    ensures HandlesOk(r)
  {
    forall u | u in s.threads && (s.threads[u].status.Suspended? || r.threads[u].status.Suspended?)
      ensures r.threads[u].status == s.threads[u].status
    {
      assert u != t ==> Alike(s.threads[u], r.threads[u]);
    }
  }

  lemma StartTimers(s: State, r: State, t: Tid)
    requires TimersOk(s) && r.timers == s.timers && OnlyStarts(s, r, t)
    ensures TimersOk(r)
  {
    forall u, k, i | u in r.threads
      ensures Known(r.threads[u], k, i) <==> Known(s.threads[u], k, i)
    {
      assert u != t ==> Alike(s.threads[u], r.threads[u]);
    }
    forall u | u in r.threads && r.threads[u].status == NotStarted
      ensures r.threads[u].alarmTimer == None
    {
      assert Alike(s.threads[u], r.threads[u]);
    }
  }

  lemma SameStatuses(s: State, r: State)
    requires HandlesOk(s) && r.handles == s.handles && r.threads.Keys == s.threads.Keys
    requires forall t :: t in s.threads ==> r.threads[t].status == s.threads[t].status
    ensures HandlesOk(r)
  {
  }

  lemma TimeoutIs(s: State, b: Busy, alarm: Option<nat>)
    requires Ok(s, b) && b.Somebody?
    ensures var r := Timeout(s, b.t, alarm);
            r == s.(timers := r.timers, threads := s.threads[b.t := s.threads[b.t].(alarmTimer := alarm)])
  {
    var before := s.threads[b.t].alarmTimer;
    if before.Some? {
      assert Known(s.threads[b.t], AlarmTimer, before.value);
    }
  }

  lemma TimeoutOk(s: State, b: Busy, alarm: Option<nat>)
    requires Ok(s, b) && b.Somebody? && (alarm.Some? ==> alarm.value !in s.timers)
    ensures Ok(Timeout(s, b.t, alarm), b)
  {
    var r := Timeout(s, b.t, alarm);
    TimeoutIs(s, b, alarm);
    SameControl(s, r, b);
    SameStatuses(s, r);
    SameLists(s, r);
    TimeoutTimers(s, b.t, alarm);
  }

  lemma SameLists(s: State, r: State)
    requires ListsOk(s) && r.asleep == s.asleep && r.woken == s.woken && r.threads.Keys == s.threads.Keys
    requires forall t :: t in s.threads ==> r.threads[t].status == s.threads[t].status
    ensures ListsOk(r)
  {
    assert forall u :: OnQueue(r, u) <==> OnQueue(s, u);
  }

  lemma TimeoutTimers(s: State, t: Tid, alarm: Option<nat>)
    requires TimersOk(s) && t in s.threads && s.threads[t].status == Running
    requires alarm.Some? ==> alarm.value !in s.timers
    ensures TimersOk(Timeout(s, t, alarm))
  {
    var r := Timeout(s, t, alarm);
    var before := s.threads[t].alarmTimer;
    if before.Some? {
      assert Known(s.threads[t], AlarmTimer, before.value);
    }
    forall i | i in r.timers
      ensures r.timers[i].t in r.threads && Known(r.threads[r.timers[i].t], r.timers[i].kind, i)
    {
      if i in s.timers {
        assert Known(s.threads[s.timers[i].t], s.timers[i].kind, i);
      }
    }
    forall u, k, i | u in r.threads && Known(r.threads[u], k, i)
      ensures i in r.timers && r.timers[i] == Timer(k, u)
    {
      if u != t || k != AlarmTimer {
        assert Known(s.threads[u], k, i);
      }
    }
  }

  // ----- steps and runs

  function Unborn(t: Tid): Thread {
    Thread(NotStarted, Code(t), Reactor, None, false)
  }

  lemma NewOk(s: State, b: Busy, t: Tid)
    requires Ok(s, b) && t !in s.threads
    ensures Ok(Set(s, t, Unborn(t)), b)
  {
    var r := Set(s, t, Unborn(t));
    if b.Somebody? {
      ParentsFrame(s.threads, r.threads, b.parents);
    }
    assert forall u :: OnQueue(r, u) <==> OnQueue(s, u);
    NewResources(s, t, r);
  }

  lemma NewResources(s: State, t: Tid, r: State)
    requires HandlesOk(s) && TimersOk(s) && t !in s.threads && r == Set(s, t, Unborn(t))
    ensures HandlesOk(r) && TimersOk(r)
  {
    forall u, k, i | u in r.threads && Known(r.threads[u], k, i)
      ensures i in r.timers && r.timers[i] == Timer(k, u)
    {
      assert Known(s.threads[u], k, i);
    }
  }

  lemma PrimitiveOk(s: State, b: Busy, step: Step) returns (b': Busy)
    requires Ok(s, b) && b.Somebody? && Enabled(s, step)
    requires step.SetAlarm? || step.Block? || step.Sleep? || step.Poll? || step.SleepOnQueue?
    ensures Ok(Primitive(s, b.t, step), b')
  {
    b' := Below(b);
    match step {
      case SetAlarm(alarm) =>
        TimeoutOk(s, b, alarm);
        b' := b;
      case Block(h) => SwitchAwayOk(s, b, Blocked(h));
      case Sleep(i) => SwitchAwayOk(s, b, Sleeping(i));
      case Poll(hs, timeout) => PollOk(s, b, hs, timeout);
      case SleepOnQueue => SwitchAwayOk(s, b, OnWaitQueue);
    }
  }

  lemma PollOk(s: State, b: Busy, hs: seq<nat>, timeout: Option<nat>)
    requires Ok(s, b) && b.Somebody? && (forall h :: h in hs ==> h !in s.handles)
    requires timeout.Some? ==> timeout.value !in s.timers
    ensures Ok(SwitchAway(Register(s, b.t, Polling(hs, timeout)), Polling(hs, timeout)), Below(b))
  {
    SwitchAwayOk(s, b, Polling(hs, timeout));
  }

  /** The alarm that the source answers with an abort: its thread is on a wake list already. */
  predicate LateAlarm(s: State, step: Step) {
    && step.FireTimer? && step.timer in s.timers && s.timers[step.timer].kind.AlarmTimer?
    && s.timers[step.timer].t in s.woken
  }

  lemma BackNoAlarm(s: State, t: Tid, w: Wait)
    requires NoAlarm(s) && t in s.threads && s.threads[t].status == Suspended(w)
    ensures NoAlarm(Back(s, t, w))
  {
  }

  lemma TimerOk(s: State, i: nat) returns (b': Busy)
    requires Ok(s, Nobody) && NoAlarm(s) && i in s.timers && !LateAlarm(s, FireTimer(i))
    ensures Ok(Fire(s, i), b') && NoAlarm(Fire(s, i))
  {
    var t := s.timers[i].t;
    assert Known(s.threads[t], s.timers[i].kind, i);
    if s.timers[i].kind.AlarmTimer? {
      AlarmKills(s, i);
      b' := Nobody;
    } else {
      var w := s.threads[t].status.wait;
      ResumeByTimer(s, t, w, i);
      BackOk(s, t, w);
      BackNoAlarm(s, t, w);
      b' := Somebody([], t);
    }
  }

  /** The reactor's callbacks always find the thread suspended where they expect it. */
  lemma CallbackOk(s: State, step: Step) returns (b': Busy)
    requires Ok(s, Nobody) && NoAlarm(s) && Enabled(s, step) && !LateAlarm(s, step)
    requires step.Dispatch? || step.FireTimer? || step.WakeFromQueue?
    ensures Ok(Apply(s, step), b') && NoAlarm(Apply(s, step))
  {
    match step {
      case Dispatch(h) =>
        var t := s.handles[h];
        var w := s.threads[t].status.wait;
        ResumeByEvent(s, t, w);
        BackOk(s, t, w);
        BackNoAlarm(s, t, w);
        b' := Somebody([], t);
      case WakeFromQueue(t) =>
        ResumeByWakeUp(s, t);
        BackOk(s, t, OnWaitQueue);
        BackNoAlarm(s, t, OnWaitQueue);
        b' := Somebody([], t);
      case FireTimer(i) => b' := TimerOk(s, i);
    }
  }

  lemma WakeUpOk(s: State, b: Busy, t: Tid)
    requires Ok(s, b) && t in s.asleep
    ensures Ok(s.(asleep := s.asleep - multiset{t}, woken := s.woken + multiset{t}), b)
  {
    var r := s.(asleep := s.asleep - multiset{t}, woken := s.woken + multiset{t});
    SameControl(s, r, b);
    SameStatuses(s, r);
    assert forall u :: OnQueue(r, u) <==> OnQueue(s, u);
  }

  lemma LandNoAlarm(s: State, c: Ctx)
    requires NoAlarm(s)
    ensures NoAlarm(Land(s, c))
  {
    if c.Code? && c.t in s.threads && s.threads[c.t].status.InStart? {
      assert !s.threads[c.t].alarmReceived;
    }
  }

  lemma StartNoAlarm(s: State, b: Busy, t: Tid)
    requires NoAlarm(s) && Ok(s, b) && t in s.threads && s.threads[t].status == NotStarted
    ensures NoAlarm(StartThread(s, t))
  {
    StartIs(s, b, t);
    assert !s.threads[t].alarmReceived;
    assert b.Somebody? ==> !s.threads[b.t].alarmReceived;
  }

  lemma SwitchAwayNoAlarm(s: State, w: Wait)
    requires NoAlarm(s)
    requires s.current.Some? && s.current.value in s.threads ==> s.threads[s.current.value].status != Dead
    ensures NoAlarm(SwitchAway(s, w))
  {
    if s.current.Some? && s.current.value in s.threads {
      var t := s.current.value;
      assert !s.threads[t].alarmReceived;
      LandNoAlarm(Set(s, t, s.threads[t].(status := Suspended(w), threadCtx := s.running)), s.threads[t].callingCtx);
    }
  }

  lemma ExitNoAlarm(s: State, b: Busy)
    requires NoAlarm(s) && Chained(s, b) && b.Somebody?
    ensures NoAlarm(ExitThread(s))
  {
    var th := s.threads[b.t].(status := Dead);
    var timers := map i | i in s.timers && s.timers[i].t != b.t :: s.timers[i];
    LandNoAlarm(Set(s, b.t, th).(timers := timers), th.callingCtx);
  }

  lemma SuspendNoAlarm(s: State, b: Busy, w: Wait)
    requires NoAlarm(s) && Chained(s, b) && b.Somebody?
    ensures NoAlarm(SwitchAway(Register(s, b.t, w), w))
  {
    assert Register(s, b.t, w).threads == s.threads;
    SwitchAwayNoAlarm(Register(s, b.t, w), w);
  }

  lemma TimeoutNoAlarm(s: State, t: Tid, alarm: Option<nat>)
    requires NoAlarm(s) && t in s.threads && s.threads[t].status == Running
    ensures NoAlarm(Timeout(s, t, alarm))
  {
    assert !s.threads[t].alarmReceived;
    assert Timeout(s, t, alarm).threads == s.threads[t := s.threads[t].(alarmTimer := alarm)];
  }

  lemma PrimitiveNoAlarm(s: State, b: Busy, step: Step)
    requires NoAlarm(s) && Chained(s, b) && b.Somebody?
    requires step.SetAlarm? || step.Block? || step.Sleep? || step.Poll? || step.SleepOnQueue?
    ensures NoAlarm(Primitive(s, b.t, step))
  {
    match step {
      case SetAlarm(alarm) => TimeoutNoAlarm(s, b.t, alarm);
      case Block(h) => SuspendNoAlarm(s, b, Blocked(h));
      case Sleep(i) => SuspendNoAlarm(s, b, Sleeping(i));
      case Poll(hs, timeout) => SuspendNoAlarm(s, b, Polling(hs, timeout));
      case SleepOnQueue => SuspendNoAlarm(s, b, OnWaitQueue);
    }
  }

  lemma NoAlarmKept(s: State, b: Busy, step: Step)
    requires Enabled(s, step) && NoAlarm(s) && Ok(s, b)
    requires !step.Dispatch? && !step.FireTimer? && !step.WakeFromQueue?
    ensures NoAlarm(Apply(s, step))
  {
    match step {
      case New(t) =>
      case WakeUp(t) =>
      case Start(t) => StartNoAlarm(s, b, t);
      case Exit => ExitNoAlarm(s, b);
      case _ => PrimitiveNoAlarm(s, b, step);
    }
  }

  lemma CallOk(s: State, b: Busy, step: Step) returns (b': Busy)
    requires Ok(s, b) && Enabled(s, step)
    requires !step.Dispatch? && !step.FireTimer? && !step.WakeFromQueue?
    ensures Ok(Apply(s, step), b')
  {
    match step {
      case New(t) =>
        NewOk(s, b, t);
        b' := b;
      case WakeUp(t) =>
        WakeUpOk(s, b, t);
        b' := b;
      case Start(t) =>
        StartOk(s, b, t);
        b' := Somebody(if b.Nobody? then [] else b.parents + [b.t], t);
      case Exit =>
        ExitOk(s, b);
        b' := Below(b);
      case _ =>
        b' := PrimitiveOk(s, b, step);
    }
  }

  /** Every step keeps the invariant and uses nothing that is not there, except that a late alarm aborts. */
  lemma StepKeepsInv(s: State, step: Step)
    requires Inv(s) && Enabled(s, step)
    ensures Apply(s, step).aborted <==> LateAlarm(s, step)
    ensures !Apply(s, step).aborted ==> Inv(Apply(s, step))
    ensures !Apply(s, step).broken
  {
    var b :| Ok(s, b);
    if LateAlarm(s, step) {
      AlarmAborts(s, step.timer);
    } else {
      var b' := OrdinaryStep(s, b, step);
      assert Ok(Apply(s, step), b');
    }
  }

  lemma OrdinaryStep(s: State, b: Busy, step: Step) returns (b': Busy)
    requires Ok(s, b) && NoAlarm(s) && Enabled(s, step) && !LateAlarm(s, step)
    ensures Ok(Apply(s, step), b') && NoAlarm(Apply(s, step))
  {
    if step.Dispatch? || step.FireTimer? || step.WakeFromQueue? {
      b' := CallbackOk(s, step);
    } else {
      NoAlarmKept(s, b, step);
      b' := CallOk(s, b, step);
    }
  }

  lemma {:induction false} RunKeepsInv(s: State, run: seq<Step>)
    requires Inv(s) && CanRun(s, run)
    ensures !After(s, run).broken && (!After(s, run).aborted ==> Inv(After(s, run)))
    decreases |run|
  {
    if run != [] {
      StepKeepsInv(s, run[0]);
      if Apply(s, run[0]).aborted {
        assert run[1..] == [];
      } else {
        RunKeepsInv(Apply(s, run[0]), run[1..]);
      }
    }
  }

  // ----- what the code may rely on

  lemma CurrentIsRunning(s: State)
    requires Inv(s) && s.running.Code?
    ensures s.current == Some(s.running.t) && s.running.t in s.threads
    ensures s.threads[s.running.t].status == Running
  {
    var b :| Ok(s, b);
  }

  ghost predicate Waits(s: State, t: Tid) {
    && t in s.threads && s.threads[t].status.Suspended?
    && HandlesOf(s.threads[t].status.wait) <= s.handles.Keys
  }

  /** Whatever names a thread to the reactor, the thread is suspended and its handles are registered. */
  lemma ReactorFindsThemWaiting(s: State)
    requires Inv(s) && s.running == Reactor
    ensures forall h :: h in s.handles ==> Waits(s, s.handles[h])
    ensures forall i :: i in s.timers ==> Waits(s, s.timers[i].t)
    ensures forall t :: t in s.woken ==> Waits(s, t)
  {
    var b :| Ok(s, b);
    forall i | i in s.timers
      ensures Waits(s, s.timers[i].t)
    {
      assert Known(s.threads[s.timers[i].t], s.timers[i].kind, i);
    }
    forall t | t in s.woken
      ensures Waits(s, t)
    {
      assert s.asleep[t] + s.woken[t] == if OnQueue(s, t) then 1 else 0;
    }
  }

  // ----- theorems

  /** What a running thread owns, and what may name whom. */
  ghost predicate Consistent(s: State) {
    && (s.running.Code? ==> s.current == Some(s.running.t))
    && (s.running.Code? ==> forall h :: h in s.handles ==> s.handles[h] != s.running.t)
    && (s.running.Code? ==> s.running.t !in s.asleep && s.running.t !in s.woken)
    && (s.running.Code? ==> forall i :: i in s.timers && s.timers[i].t == s.running.t ==> IsAlarmOf(s, s.running.t, i))
    && (forall h :: h in s.handles ==> Alive(s, s.handles[h]))
    && (forall i :: i in s.timers ==> Alive(s, s.timers[i].t))
    && (forall t :: t in s.asleep || t in s.woken ==> Alive(s, t))
    && (forall t :: s.asleep[t] + s.woken[t] <= 1)
  }

  predicate IsAlarmOf(s: State, t: Tid, i: nat)
    requires i in s.timers
  {
    s.timers[i].kind == AlarmTimer && t in s.threads && s.threads[t].alarmTimer == Some(i)
  }

  predicate Alive(s: State, t: Tid) {
    t in s.threads && Active(s.threads[t])
  }

  lemma OkIsConsistent(s: State, b: Busy)
    requires Ok(s, b)
    ensures Consistent(s)
  {
    forall i | i in s.timers
      ensures Alive(s, s.timers[i].t)
      ensures s.running.Code? && s.timers[i].t == s.running.t ==> IsAlarmOf(s, s.running.t, i)
    {
      assert Known(s.threads[s.timers[i].t], s.timers[i].kind, i);
    }
    ListsAreShort(s);
  }

  lemma ListsAreShort(s: State)
    requires ListsOk(s)
    ensures forall t :: t in s.asleep || t in s.woken ==> OnQueue(s, t)
    ensures forall t :: s.asleep[t] + s.woken[t] <= 1
  {
    forall t
      ensures t in s.asleep || t in s.woken ==> OnQueue(s, t)
      ensures s.asleep[t] + s.woken[t] <= 1
    {
      assert s.asleep[t] + s.woken[t] == if OnQueue(s, t) then 1 else 0;
    }
  }

  /** In every run nothing is ever used that is not there; and unless it ended in the abort, current_pth is the
      thread whose code runs, which has no handle, no place on a wait queue and no timer but its alarm; and
      no handle, timer or list names a thread that is gone or has not started. */
  lemma ThreadsAreConsistent(run: seq<Step>)
    requires CanRun(INIT, run)
    ensures !After(INIT, run).broken
    ensures !After(INIT, run).aborted ==> Consistent(After(INIT, run))
  {
    InitOk();
    RunKeepsInv(INIT, run);
    var s := After(INIT, run);
    if !s.aborted {
      var b :| Ok(s, b);
      OkIsConsistent(s, b);
    }
  }

  lemma InitOk()
    ensures Inv(INIT)
  {
    assert Ok(INIT, Nobody);
  }

  /** The reactor only ever runs when every thread is suspended, unstarted or dead; otherwise exactly one
      thread is running, and the others that are under way wait inside pth_start, each for the next. */
  lemma OneThreadRuns(run: seq<Step>) returns (b: Busy)
    requires CanRun(INIT, run) && !After(INIT, run).aborted
    ensures Chained(After(INIT, run), b)
  {
    InitOk();
    RunKeepsInv(INIT, run);
    b :| Ok(After(INIT, run), b);
  }
}
