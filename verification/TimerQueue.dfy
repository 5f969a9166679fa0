/** The delta queue of src/pthr_reactor.c: a doubly linked list in which each timer stores only the time
    between its deadline and the one before it. */
module TimerQueues {
  import opened Common
  import opened TimerRuns

  class Node {
    var prev: Node?
    var next: Node?
    var delta: nat
    const cb: nat

    constructor (cb: nat)
      ensures this.cb == cb
    {
      this.cb := cb;
      prev, next, delta := null, null, 0;
    }
  }

  /** The deadline in front of position `i`; the epoch for the first. */
  ghost function Before(q: seq<Timer>, i: nat): nat
    requires i <= |q|
  {
    if i == 0 then 0 else q[i - 1].deadline
  }

  lemma BeforeInserted(q: seq<Timer>, t: Timer, i: nat, k: nat)
    requires i <= |q| && k <= |q| + 1
    ensures Before(Inserted(q, t, i), k) ==
            if k <= i then Before(q, k) else if k == i + 1 then t.deadline else Before(q, k - 1)
  {
  }

  lemma SlotIsUnique(q: seq<Timer>, deadline: nat, k: nat)
    requires k <= |q| && (forall i :: 0 <= i < k ==> q[i].deadline < deadline)
    requires k < |q| ==> q[k].deadline >= deadline
    ensures k == Slot(q, deadline)
  {
  }

  lemma InsertDistinct<T>(s: seq<T>, x: T, i: nat)
    requires Distinct(s) && x !in s && i <= |s|
    ensures Distinct(Inserted(s, x, i))
  {
  }

  lemma WithoutDistinct<T>(s: seq<T>, i: nat)
    requires Distinct(s) && i < |s|
    ensures Distinct(Without(s, i))
  {
  }

  ghost function Sum(ds: seq<nat>): nat {
    if ds == [] then 0 else Sum(ds[..|ds| - 1]) + ds[|ds| - 1]
  }

  /** What poll may do: the clock does not go back, and a result of 0 means that a timeout was given and
      has passed. */
  predicate PollReturns(now: nat, timeout: int, r: int, later: nat) {
    now <= later && (r == 0 ==> 0 <= timeout && now + timeout <= later)
  }

  method Poll(now: nat, timeout: int) returns (r: int, later: nat)
    ensures PollReturns(now, timeout, r, later)
  {
    assert PollReturns(now, timeout, -1, now);
    r, later :| PollReturns(now, timeout, r, later);
  }

  /** A firing and its callback: with no timeout of zero, fewer timers are due. */
  lemma FiringRun(s: TState, run: seq<TStep>)
    requires CanRun(s, run) && run != [] && run[0] == Fire && forall step :: step in run[1..] ==> FromCallback(step)
    ensures (forall step :: step in run ==> !step.Tick?) && After(s, run).now == s.now
    ensures Zeros(run) == 0 ==> Due(After(s, run).queue, s.now) < Due(s.queue, s.now)
  {
    assert run == [run[0]] + run[1..];
    FiringsAreAccountedFor(s, run);
  }

  ghost predicate TimeToFirst(s: TState, timeout: int) {
    && timeout == (if s.queue == [] then -1 else s.queue[0].deadline - s.now)
    && -1 <= timeout <= INT_MAX && (s.queue != [] ==> 0 <= timeout)
  }

  /** The clock is read; then, for a result of 0, the head fires, which is due by then; for a negative one
      nothing happens. */
  ghost predicate FollowsPoll(s: TState, r: int, run: seq<TStep>) {
    && run != [] && run[0].Tick?
    && (r == 0 ==> IsFiring(run[1..]) && s.queue != [] && s.queue[0].deadline <= run[0].later)
    && (r < 0 ==> run[1..] == [])
    && (r > 0 ==> forall step :: step in run[1..] ==> FromCallback(step))
  }

  lemma {:induction false} FiredStays(s: TState, run: seq<TStep>)
    requires CanRun(s, run)
    ensures s.fired <= After(s, run).fired
    decreases |run|
  {
    if run != [] {
      FiredStays(Apply(s, run[0]), run[1..]);
    }
  }

  lemma StaysAhead(s: TState, run: seq<TStep>)
    requires Inv(s) && CanRun(s, run) && (forall step :: step in run ==> FromCallback(step))
    requires forall t :: t in s.queue ==> s.now <= t.deadline
    ensures Inv(After(s, run)) && After(s, run).now == s.now && s.fired <= After(s, run).fired
    ensures forall t :: t in After(s, run).queue ==> s.now <= t.deadline
  {
    CallbackStaysAhead(s, run);
    FiredStays(s, run);
    RunKeepsInv(s, run);
  }

  lemma DueAreOnRecord(s: TState, run: seq<TStep>, r: TState, may: set<nat>)
    requires Sorted(s.queue) && CanRun(s, run) && AllDueFired(s, run, r, may)
    ensures forall t :: t in s.queue && t.deadline <= s.now && t.cb !in may ==> Firing(t, s.now) in r.fired
  {
    forall t | t in s.queue && t.deadline <= s.now && t.cb !in may
      ensures Firing(t, s.now) in r.fired
    {
      assert multiset(s.queue)[t] > 0;
      assert multiset(r.fired)[Firing(t, s.now)] > 0;
    }
  }

  class TimerQueue {
    var head: Node?
    var now: nat
    ghost var nodes: seq<Node>
    ghost var queue: seq<Timer>
    ghost var fired: seq<Firing>
    ghost var Repr: set<Node>

    /** The links spell out `nodes`, in both directions. */
    ghost predicate Linked()
      reads this, nodes
    {
      && Distinct(nodes)
      && head == (if nodes == [] then null else nodes[0])
      && (forall i {:trigger nodes[i].prev} :: 0 <= i < |nodes| ==>
            nodes[i].prev == if i == 0 then null else nodes[i - 1])
      && (forall i {:trigger nodes[i].next} :: 0 <= i < |nodes| ==>
            nodes[i].next == if i == |nodes| - 1 then null else nodes[i + 1])
    }

    /** The deltas encode the deadlines of `queue`. */
    ghost predicate Encodes()
      reads this, nodes
    {
      && |queue| == |nodes|
      && (forall i {:trigger nodes[i].delta} :: 0 <= i < |nodes| ==>
            Before(queue, i) + nodes[i].delta == queue[i].deadline)
      && (forall i {:trigger nodes[i].cb} :: 0 <= i < |nodes| ==> nodes[i].cb == queue[i].cb)
    }

    ghost predicate Valid()
      reads this, nodes
    {
      Linked() && Encodes() && forall i :: 0 <= i < |nodes| ==> nodes[i] in Repr
    }

    ghost function View(): TState
      reads this
    {
      TState(now, queue, fired)
    }

    /** Any slice of the stored deltas: the deadline of a timer is the sum of the deltas up to it. */
    lemma {:induction false} DeadlinesArePrefixSums(ds: seq<nat>)
      requires Encodes() && |ds| <= |nodes| && forall i :: 0 <= i < |ds| ==> ds[i] == nodes[i].delta
      ensures Sum(ds) == Before(queue, |ds|)
      decreases |ds|
    {
      if ds != [] {
        var n := |ds| - 1;
        DeadlinesArePrefixSums(ds[..n]);
        assert ds[n] == nodes[n].delta;
      }
    }

    constructor (now: nat)
      ensures Valid() && nodes == [] && Repr == {} && View() == TState(now, [], [])
    {
      head, this.now, nodes, queue, fired, Repr := null, now, [], [], [], {};
    }

    /** reactor_set_timer */
    method SetTimer(timeout: nat, cb: nat) returns (timer: Node)
      requires Valid()
      modifies this, Repr
      ensures Valid() && fresh(timer) && Repr == old(Repr) + {timer}
      ensures View() == old(View()).(queue := Insert(old(queue), Timer(old(now) + timeout, cb)))
    {
      timer := new Node(cb);
      Repr := Repr + {timer};
      Place(timer, now + timeout, Repr);
    }

    method Place(timer: Node, trigger: nat, ghost all: set<Node>)
      requires Linked() && Encodes() && timer !in nodes
      requires timer in all && forall i :: 0 <= i < |nodes| ==> nodes[i] in all
      modifies this`head, this`nodes, this`queue, nodes, timer
      ensures Linked() && Encodes() && queue == Insert(old(queue), Timer(trigger, timer.cb))
      ensures nodes == Inserted(old(nodes), timer, Slot(old(queue), trigger))
      ensures forall i :: 0 <= i < |nodes| ==> nodes[i] in all
    {
      if head == null {
        InsertFirst(timer, trigger);
      } else {
        var p, last, time, i := FindPlace(trigger);
        if p != null {
          InsertBefore(timer, p, i, trigger, time);
        } else {
          Append(timer, last, trigger, time);
        }
      }
    }

    /** The search in reactor_set_timer: the first timer that is not earlier, with the sum of the deltas up
        to and including it; or the end of the list. */
    method FindPlace(trigger: nat) returns (p: Node?, last: Node?, time: nat, ghost i: nat)
      requires Linked() && Encodes() && head != null
      ensures i == Slot(queue, trigger)
      ensures p == if i == |nodes| then null else nodes[i]
      ensures last == if i == 0 then null else nodes[i - 1]
      ensures p != null ==> time == queue[i].deadline >= trigger
      ensures p == null ==> time == Before(queue, i)
    {
      time, last, p, i := 0, null, head, 0;
      while p != null
        invariant 0 <= i <= |nodes|
        invariant p == if i == |nodes| then null else nodes[i]
        invariant last == if i == 0 then null else nodes[i - 1]
        invariant time == Before(queue, i)
        invariant forall j :: 0 <= j < i ==> queue[j].deadline < trigger
        decreases |nodes| - i
      {
        time := time + p.delta;
        if time >= trigger {
          SlotIsUnique(queue, trigger, i);
          return;
        }
        last, p, i := p, p.next, i + 1;
      }
      SlotIsUnique(queue, trigger, i);
    }

    method InsertFirst(timer: Node, trigger: nat)
      requires nodes == [] && queue == []
      modifies this`head, this`nodes, this`queue, timer
      ensures Linked() && Encodes() && nodes == [timer] && queue == [Timer(trigger, timer.cb)]
    {
      timer.prev, timer.next, timer.delta := null, null, trigger;
      head := timer;
      nodes, queue := [timer], [Timer(trigger, timer.cb)];
    }

    /** `timer` goes in front of `p`, whose delta is split. */
    method InsertBefore(timer: Node, p: Node, ghost i: nat, trigger: nat, time: nat)
      requires Linked() && Encodes() && i < |nodes| && p == nodes[i] && timer !in nodes
      requires time == queue[i].deadline && Before(queue, i) <= trigger <= time
      modifies this`head, this`nodes, this`queue, nodes, timer
      ensures Linked() && Encodes() && nodes == Inserted(old(nodes), timer, i)
      ensures queue == Inserted(old(queue), Timer(trigger, timer.cb), i)
    {
      ghost var ns, q := nodes, queue;
      timer.delta := trigger - (time - p.delta);
      p.delta := time - trigger;
      assert forall k {:trigger ns[k].delta} :: 0 <= k < |ns| && k != i ==> Before(q, k) + ns[k].delta == q[k].deadline;
      Link(timer, p, i);
      queue := Inserted(q, Timer(trigger, timer.cb), i);
      forall k | 0 <= k < |nodes|
        ensures Before(queue, k) + nodes[k].delta == queue[k].deadline
      {
        BeforeInserted(q, Timer(trigger, timer.cb), i, k);
      }
      assert forall k {:trigger nodes[k].cb} :: 0 <= k < |nodes| ==> nodes[k].cb == queue[k].cb;
    }

    method Append(timer: Node, last: Node, trigger: nat, time: nat)
      requires Linked() && Encodes() && nodes != [] && last == nodes[|nodes| - 1] && timer !in nodes
      requires time == Before(queue, |queue|) <= trigger
      modifies this`nodes, this`queue, nodes`next, timer
      ensures Linked() && Encodes() && nodes == old(nodes) + [timer]
      ensures queue == old(queue) + [Timer(trigger, timer.cb)]
    {
      last.next := timer;
      timer.prev, timer.next, timer.delta := last, null, trigger - time;
      ghost var ns := nodes;
      nodes, queue := nodes + [timer], queue + [Timer(trigger, timer.cb)];
      assert forall k :: 0 <= k < |ns| ==> nodes[k] == ns[k];
    }

    /** remove_timer */
    method RemoveTimer(timer: Node, ghost i: nat)
      requires Valid() && i < |nodes| && timer == nodes[i]
      modifies this`head, this`nodes, this`queue, nodes
      ensures Valid() && nodes == Without(old(nodes), i)
      ensures queue == Without(old(queue), i)
    {
      ghost var ns, q := nodes, queue;
      if timer.next != null {
        timer.next.delta := timer.next.delta + timer.delta;
      }
      assert forall k {:trigger ns[k].delta} :: 0 <= k < |ns| ==>
          (if k == i + 1 then Before(q, i) else Before(q, k)) + ns[k].delta == q[k].deadline;
      Unlink(timer, i);
      queue := Without(q, i);
      forall k | 0 <= k < |nodes|
        ensures Before(queue, k) + nodes[k].delta == queue[k].deadline
        ensures nodes[k].cb == queue[k].cb && nodes[k] in Repr
      {
      }
    }

    /** The splice in reactor_set_timer: the links that put `timer` in front of `p`. */
    method Link(timer: Node, p: Node, ghost i: nat)
      requires Linked() && i < |nodes| && p == nodes[i] && timer !in nodes
      modifies this`head, this`nodes, nodes`prev, nodes`next, timer`prev, timer`next
      ensures Linked() && nodes == Inserted(old(nodes), timer, i)
    {
      timer.prev, timer.next := p.prev, p;
      if p.prev != null {
        p.prev.next := timer;
      } else {
        head := timer;
      }
      p.prev := timer;
      ghost var ns := nodes;
      assert forall k {:trigger ns[k].prev} :: 0 <= k < |ns| ==>
          ns[k].prev == if k == i then timer else old(ns[k].prev);
      assert forall k {:trigger ns[k].next} :: 0 <= k < |ns| ==>
          ns[k].next == if k == i - 1 then timer else old(ns[k].next);
      nodes := Inserted(ns, timer, i);
      InsertDistinct(ns, timer, i);
      forall k | 0 <= k < |nodes|
        ensures nodes[k].prev == if k == 0 then null else nodes[k - 1]
        ensures nodes[k].next == if k == |nodes| - 1 then null else nodes[k + 1]
      {
      }
    }

    /** The links in remove_timer. */
    method Unlink(timer: Node, ghost i: nat)
      requires Linked() && i < |nodes| && timer == nodes[i]
      modifies this`head, this`nodes, nodes`prev, nodes`next
      ensures Linked() && nodes == Without(old(nodes), i)
      ensures timer.next == if i + 1 < |old(nodes)| then old(nodes)[i + 1] else null
    {
      if timer.prev != null {
        timer.prev.next := timer.next;
      } else {
        head := timer.next;
      }
      if timer.next != null {
        timer.next.prev := timer.prev;
      }
      ghost var ns := nodes;
      assert forall k {:trigger ns[k].prev} :: 0 <= k < |ns| ==>
          ns[k].prev == if k == i + 1 then old(timer.prev) else old(ns[k].prev);
      assert forall k {:trigger ns[k].next} :: 0 <= k < |ns| ==>
          ns[k].next == if k == i - 1 then old(timer.next) else old(ns[k].next);
      nodes := Without(ns, i);
      WithoutDistinct(ns, i);
      forall k | 0 <= k < |nodes|
        ensures nodes[k].prev == if k == 0 then null else nodes[k - 1]
        ensures nodes[k].next == if k == |nodes| - 1 then null else nodes[k + 1]
      {
      }
    }

    // ----- firing

    /** The code of a callback, as far as the timers see it: any number of timers set, at most `budget` of them
        with a timeout of zero, and any number cancelled whose callbacks are in `may`.  `run` is what it
        did. */
    method Callback(budget: nat, may: set<nat>) returns (left: nat, ghost run: seq<TStep>)
      requires Valid()
      modifies this, Repr
      ensures Valid() && fresh(Repr - old(Repr))
      ensures left <= budget && Leads(old(View()), run, View(), budget - left, may)
      ensures forall step :: step in run ==> FromCallback(step)
    {
      left, run := budget, [];
      var calls: nat := *;
      while calls > 0
        invariant Valid() && fresh(Repr - old(Repr))
        invariant left <= budget && Leads(old(View()), run, View(), budget - left, may)
        invariant forall step :: step in run ==> FromCallback(step)
      {
        ghost var was, mid, more := left, View(), [];
        left, more := OneCall(left, may);
        LeadsOn(old(View()), run, mid, budget - was, more, View(), was - left, may);
        run := run + more;
        calls := calls - 1;
      }
    }

    method OneCall(budget: nat, may: set<nat>) returns (left: nat, ghost run: seq<TStep>)
      requires Valid()
      modifies this, Repr
      ensures Valid() && fresh(Repr - old(Repr))
      ensures left <= budget && Leads(old(View()), run, View(), budget - left, may)
      ensures forall step :: step in run ==> FromCallback(step)
    {
      var cancel: bool := *;
      if cancel {
        left := budget;
        run := CancelSome(may);
      } else {
        ghost var step;
        left, step := SetSome(budget);
        run := [step];
        LeadsOne(old(View()), step, may);
      }
    }

    method SetSome(budget: nat) returns (left: nat, ghost step: TStep)
      requires Valid()
      modifies this, Repr
      ensures Valid() && fresh(Repr - old(Repr))
      ensures step.Set? && left + ZerosIn(step) == budget
      ensures Enabled(old(View()), step) && View() == Apply(old(View()), step)
    {
      var timeout: nat, cb: nat := *, *;
      timeout := timeout % (INT_MAX + 1);
      if timeout == 0 && budget == 0 {
        timeout := 1;
      }
      var _ := SetTimer(timeout, cb);
      left, step := if timeout == 0 then budget - 1 else budget, Set(timeout, cb);
    }

    /** Cancelling one timer or another, if its callback is in `may`. */
    method CancelSome(may: set<nat>) returns (ghost run: seq<TStep>)
      requires Valid()
      modifies this`head, this`nodes, this`queue, Repr
      ensures Valid() && Leads(old(View()), run, View(), 0, may) && forall step :: step in run ==> FromCallback(step)
    {
      run := [];
      if head == null {
        return;
      }
      var p := head;
      ghost var i := 0;
      var hops: nat := *;
      while p.next != null && hops > 0
        invariant 0 <= i < |nodes| && p == nodes[i]
        decreases |nodes| - i
      {
        p, i, hops := p.next, i + 1, hops - 1;
      }
      if p.cb in may {
        run := [Unset(i)];
        LeadsOne(View(), Unset(i), may);
        RemoveTimer(p, i);
      }
    }

    /** fn (data): the timer's own callback.  Every call is on the record. */
    method Call(ghost timer: Timer, budget: nat, may: set<nat>) returns (left: nat, ghost run: seq<TStep>)
      requires Valid()
      modifies this, Repr
      ensures Valid() && fresh(Repr - old(Repr)) && left <= budget
      ensures Leads(old(View()).(fired := old(fired) + [Firing(timer, now)]), run, View(), budget - left, may)
      ensures now == old(now) && forall step :: step in run ==> FromCallback(step)
    {
      fired := fired + [Firing(timer, now)];
      ghost var s := View();
      left, run := Callback(budget, may);
      FiringsAreAccountedFor(s, run);
    }

    /** Both firing sites: take the head out of the queue, then call it. */
    method FireHead(budget: nat, may: set<nat>) returns (left: nat, ghost run: seq<TStep>)
      requires Valid() && head != null && queue[0].deadline <= now
      modifies this, Repr
      ensures Valid() && fresh(Repr - old(Repr)) && IsFiring(run)
      ensures left <= budget && Leads(old(View()), run, View(), budget - left, may)
    {
      ghost var before := View();
      var timer := head;
      RemoveTimer(timer, 0);
      LeadsOne(before, Fire, may);
      assert Without(before.queue, 0) == before.queue[1..];
      assert View().(fired := fired + [Firing(before.queue[0], now)]) == Apply(before, Fire);
      ghost var more;
      left, more := Call(before.queue[0], budget, may);
      LeadsOn(before, [Fire], Apply(before, Fire), 0, more, View(), budget - left, may);
      run := [Fire] + more;
      assert run[1..] == more;
    }

    /** The firing loop of reactor_invoke, for callbacks that ask for any timeouts, at most `budget` of them
        zero, and cancel any timers whose callbacks are in `may`.  It ends, and leaves nothing that is due.
        It goes turn by turn, a firing and what its callback does, so every timer that was due has fired,
        unless a callback cancelled it; and if none does, and none asks for zero, exactly those have fired,
        in order. */
    method FireDue(budget: nat, may: set<nat>) returns (ghost run: seq<TStep>, ghost segs: seq<seq<TStep>>)
      requires Valid() && Inv(View())
      modifies this, Repr
      ensures Valid() && fresh(Repr - old(Repr)) && now == old(now) && Inv(View())
      ensures Zeros(run) <= budget && Leads(old(View()), run, View(), Zeros(run), may) && InTurns(run, segs)
      ensures AllDueFired(old(View()), run, View(), may)
      ensures forall t :: t in queue ==> t.deadline > now
    {
      ghost var before := View();
      run, segs := FireLoop(budget, may);
      if head != null {
        assert nodes[0].delta == queue[0].deadline;
      }
      NothingDue(View());
      LoopFiresAllDue(before, run, View(), Zeros(run), may);
    }

    method FireLoop(budget: nat, may: set<nat>) returns (ghost run: seq<TStep>, ghost segs: seq<seq<TStep>>)
      requires Valid() && Inv(View())
      modifies this, Repr
      ensures Valid() && fresh(Repr - old(Repr)) && now == old(now) && Inv(View())
      ensures Zeros(run) <= budget && Leads(old(View()), run, View(), Zeros(run), may) && InTurns(run, segs)
      ensures head == null || head.delta > now
    {
      run, segs := [], [];
      var left: nat := budget;
      while head != null && head.delta <= now
        invariant Valid() && fresh(Repr - old(Repr)) && now == old(now) && Inv(View())
        invariant left <= budget && Leads(old(View()), run, View(), budget - left, may) && InTurns(run, segs)
        decreases left, Due(queue, now)
      {
        ghost var was, mid, more := left, View(), [];
        left, more := FireOne(left, may);
        LeadsOn(old(View()), run, mid, budget - was, more, View(), was - left, may);
        OneMoreTurn(run, segs, more);
        run, segs := run + more, segs + [more];
      }
    }

    /** One turn of the firing loop: some of the budget is used, or fewer timers are due. */
    method FireOne(budget: nat, may: set<nat>) returns (left: nat, ghost run: seq<TStep>)
      requires Valid() && Inv(View()) && head != null && head.delta <= now
      modifies this, Repr
      ensures Valid() && fresh(Repr - old(Repr)) && now == old(now) && Inv(View()) && IsFiring(run)
      ensures left <= budget && Leads(old(View()), run, View(), budget - left, may)
      ensures left == budget ==> Due(queue, now) < Due(old(queue), now)
    {
      ghost var before := View();
      assert nodes[0].delta == queue[0].deadline;
      left, run := FireHead(budget, may);
      FiringRun(before, run);
      RunKeepsInv(before, run);
    }

    /** One reactor_invoke, as far as timers go.  All callbacks may set timers of any timeout and cancel those
        in `may`; `budget` bounds the timeouts of zero in the firing loop.  Every timer that was due has
        fired at the time it began, if nobody may cancel it.  `early` is what happens up to the poll, and
        `late` what follows it; `timeout` is what poll is given: -1 without timers, otherwise the time to the
        first deadline, never negative and never more than an int holds. */
    method Invoke(budget: nat, may: set<nat>)
      returns (timeout: int, r: int, ghost early: seq<TStep>, ghost late: seq<TStep>)
      requires Valid() && Inv(View())
      modifies this, Repr
      ensures Valid() && fresh(Repr - old(Repr)) && Inv(View())
      ensures CanRun(old(View()), early) && CanRun(After(old(View()), early), late)
      ensures View() == After(After(old(View()), early), late)
      ensures TimeToFirst(After(old(View()), early), timeout) && FollowsPoll(After(old(View()), early), r, late)
      ensures forall t :: t in old(queue) && t.deadline <= old(now) && t.cb !in may ==> Firing(t, old(now)) in fired
    {
      early := FireAndPrepoll(budget, may);
      ghost var mid := View();
      timeout := PollTimeout();
      r, late := PollAndDispatch(timeout);
      FiredStays(mid, late);
    }

    /** Up to the poll: every deadline is still to come, or due this very millisecond. */
    method FireAndPrepoll(budget: nat, may: set<nat>) returns (ghost run: seq<TStep>)
      requires Valid() && Inv(View())
      modifies this, Repr
      ensures Valid() && fresh(Repr - old(Repr)) && Inv(View())
      ensures CanRun(old(View()), run) && View() == After(old(View()), run)
      ensures now == old(now) && forall t :: t in queue ==> now <= t.deadline
      ensures forall t :: t in old(queue) && t.deadline <= old(now) && t.cb !in may ==> Firing(t, old(now)) in fired
    {
      ghost var before := View();
      run := FireFirst(budget, may);
      ghost var s := View();
      ghost var prepoll := Elsewhere(may);
      StaysAhead(s, prepoll);
      Compose(before, run, prepoll);
      run := run + prepoll;
    }

    method FireFirst(budget: nat, may: set<nat>) returns (ghost run: seq<TStep>)
      requires Valid() && Inv(View())
      modifies this, Repr
      ensures Valid() && fresh(Repr - old(Repr)) && Inv(View())
      ensures CanRun(old(View()), run) && View() == After(old(View()), run)
      ensures now == old(now) && forall t :: t in queue ==> now <= t.deadline
      ensures forall t :: t in old(queue) && t.deadline <= old(now) && t.cb !in may ==> Firing(t, old(now)) in fired
    {
      ghost var before, segs := View(), [];
      run, segs := FireDue(budget, may);
      DueAreOnRecord(before, run, View(), may);
    }

    /** Prepoll handlers and descriptor callbacks: any timeouts at all. */
    method Elsewhere(may: set<nat>) returns (ghost run: seq<TStep>)
      requires Valid()
      modifies this, Repr
      ensures Valid() && fresh(Repr - old(Repr))
      ensures CanRun(old(View()), run) && View() == After(old(View()), run)
      ensures forall step :: step in run ==> FromCallback(step)
    {
      var any: nat := *;
      any, run := Callback(any, may);
    }

    /** The call of poll, and what follows it.  A result of 0 fires the head, which is due by then; a negative
        one fires and dispatches nothing. */
    method PollAndDispatch(timeout: int) returns (r: int, ghost run: seq<TStep>)
      requires Valid() && Inv(View()) && timeout == if queue == [] then -1 else queue[0].deadline - now
      modifies this, Repr
      ensures Valid() && fresh(Repr - old(Repr)) && Inv(View())
      ensures CanRun(old(View()), run) && View() == After(old(View()), run)
      ensures FollowsPoll(old(View()), r, run)
    {
      var later;
      r, later := Poll(now, timeout);
      SetClock(later);
      StepKeepsInv(old(View()), Tick(later));
      ghost var more := AfterPoll(r);
      run := [Tick(later)] + more;
      assert run[1..] == more;
    }

    method AfterPoll(r: int) returns (ghost run: seq<TStep>)
      requires Valid() && Inv(View()) && (r == 0 ==> head != null && queue[0].deadline <= now)
      modifies this, Repr
      ensures Valid() && fresh(Repr - old(Repr)) && Inv(View())
      ensures CanRun(old(View()), run) && View() == After(old(View()), run)
      ensures r == 0 ==> IsFiring(run)
      ensures r < 0 ==> run == []
      ensures r > 0 ==> forall step :: step in run ==> FromCallback(step)
    {
      run := [];
      var may: set<nat> := *;
      if r > 0 {
        run := Elsewhere(may);
      } else if r == 0 {
        var any: nat := *;
        any, run := FireHead(any, may);
      }
      RunKeepsInv(old(View()), run);
    }

    method SetClock(later: nat)
      requires Valid() && now <= later
      modifies this`now
      ensures Valid() && View() == Apply(old(View()), Tick(later))
    {
      now := later;
    }

    method PollTimeout() returns (timeout: int)
      requires Valid() && Inv(View()) && forall t :: t in queue ==> now <= t.deadline
      ensures timeout == if queue == [] then -1 else queue[0].deadline - now
      ensures -1 <= timeout <= INT_MAX && (queue != [] ==> 0 <= timeout)
    {
      if head != null {
        assert nodes[0].delta == queue[0].deadline && queue[0] in queue;
        timeout := head.delta - now;
      } else {
        timeout := -1;
      }
    }
  }
}
