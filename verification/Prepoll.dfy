/** The prepoll handlers of src/pthr_reactor.c and the pass of reactor_invoke over them, whose callbacks add
    and remove handlers while it runs. */
module Prepolls {
  import opened Common

  /** `id` names a registration; ids are never reused. */
  datatype Prepoll = Prepoll(id: nat, fired: bool)

  /** What happened during a pass.  The fired flag of a new handler is whatever its memory held. */
  datatype Event = Ran(id: nat) | Added(id: nat, flag: bool) | Removed(id: nat)

  ghost function Ids(list: seq<Prepoll>): set<nat> {
    set p | p in list :: p.id
  }

  ghost predicate UniqueIds(list: seq<Prepoll>) {
    forall i, j :: 0 <= i < j < |list| ==> list[i].id != list[j].id
  }

  ghost function Replay(ids: set<nat>, trace: seq<Event>): set<nat> {
    if trace == [] then ids
    else
      var before, last := Replay(ids, trace[..|trace| - 1]), trace[|trace| - 1];
      match last
      case Ran(_) => before
      case Added(id, _) => before + {id}
      case Removed(id) => before - {id}
  }

  /** Only handlers that are on the list at that moment are run or removed. */
  ghost predicate Legal(ids: set<nat>, trace: seq<Event>) {
    trace != [] ==>
      && Legal(ids, trace[..|trace| - 1])
      && var before, last := Replay(ids, trace[..|trace| - 1]), trace[|trace| - 1];
         if last.Added? then last.id !in before else last.id in before
  }

  /** The state of a pass that started with the handlers `start`, all numbered below `base`. */
  ghost predicate Passing(start: set<nat>, base: nat, list: seq<Prepoll>, next: nat, trace: seq<Event>) {
    && Legal(start, trace) && Ids(list) == Replay(start, trace)
    && (forall id :: id in start ==> id < base) && base <= next
    && Listed(list, next, trace) && Recorded(base, next, trace)
  }

  /** The handlers on the list: numbered apart, and fired if they have run or came with their flag set. */
  ghost predicate Listed(list: seq<Prepoll>, next: nat, trace: seq<Event>) {
    && UniqueIds(list) && (forall p :: p in list ==> p.id < next)
    && (forall p :: p in list ==> (p.fired <==> Ran(p.id) in trace || Added(p.id, true) in trace))
  }

  /** The events: nobody runs twice, or comes back, or runs after coming with its flag set. */
  ghost predicate Recorded(base: nat, next: nat, trace: seq<Event>) {
    && (forall e :: e in trace ==> e.id < next && (e.Added? ==> base <= e.id))
    && (forall j, k :: 0 <= j < k < |trace| && trace[j].id == trace[k].id ==>
          !(trace[j].Ran? && trace[k].Ran?) && !trace[k].Added?)
    && (forall id :: Added(id, true) in trace ==> Ran(id) !in trace)
  }

  lemma RunListed(list: seq<Prepoll>, next: nat, trace: seq<Event>, i: nat)
    requires Listed(list, next, trace) && i < |list|
    ensures Listed(list[i := list[i].(fired := true)], next, trace + [Ran(list[i].id)])
    ensures Ids(list[i := list[i].(fired := true)]) == Ids(list)
  {
    var list', trace' := list[i := list[i].(fired := true)], trace + [Ran(list[i].id)];
    SameIds(list, list');
    forall p | p in list'
      ensures p.id < next && (p.fired <==> Ran(p.id) in trace' || Added(p.id, true) in trace')
    {
      var k :| 0 <= k < |list'| && list'[k] == p;
      assert list[k] in list && list[k].id == p.id;
    }
  }

  lemma RunOne(start: set<nat>, base: nat, list: seq<Prepoll>, next: nat, trace: seq<Event>, i: nat)
    requires Passing(start, base, list, next, trace) && i < |list| && !list[i].fired
    ensures Passing(start, base, list[i := list[i].(fired := true)], next, trace + [Ran(list[i].id)])
  {
    var trace' := trace + [Ran(list[i].id)];
    assert trace'[..|trace|] == trace && list[i] in list;
    RunListed(list, next, trace, i);
    forall j | 0 <= j < |trace| && trace[j].id == list[i].id
      ensures !trace[j].Ran?
    {
      assert trace[j] in trace;
    }
  }

  lemma AddListed(list: seq<Prepoll>, base: nat, next: nat, trace: seq<Event>, flag: bool)
    requires Listed(list, next, trace) && Recorded(base, next, trace)
    ensures Listed([Prepoll(next, flag)] + list, next + 1, trace + [Added(next, flag)])
    ensures Ids([Prepoll(next, flag)] + list) == Ids(list) + {next}
  {
    var list', trace' := [Prepoll(next, flag)] + list, trace + [Added(next, flag)];
    assert list'[0] in list';
    assert forall p :: p in list' <==> p in list || p == Prepoll(next, flag);
    assert Ran(next) !in trace && Added(next, true) !in trace;
    forall p | p in list
      ensures p.fired <==> Ran(p.id) in trace' || Added(p.id, true) in trace'
    {
      assert p.id < next;
    }
  }

  lemma AddOne(start: set<nat>, base: nat, list: seq<Prepoll>, next: nat, trace: seq<Event>, flag: bool)
    requires Passing(start, base, list, next, trace)
    ensures Passing(start, base, [Prepoll(next, flag)] + list, next + 1, trace + [Added(next, flag)])
  {
    var trace' := trace + [Added(next, flag)];
    assert trace'[..|trace|] == trace;
    AddListed(list, base, next, trace, flag);
    assert next !in Replay(start, trace) by {
      assert forall p :: p in list ==> p.id != next;
    }
    assert forall e :: e in trace ==> e.id != next;
  }

  lemma RemoveListed(list: seq<Prepoll>, next: nat, trace: seq<Event>, i: nat)
    requires Listed(list, next, trace) && i < |list|
    ensures Listed(list[..i] + list[i + 1..], next, trace + [Removed(list[i].id)])
  {
    assert forall p :: p in list[..i] + list[i + 1..] ==> p in list;
  }

  lemma RemoveOne(start: set<nat>, base: nat, list: seq<Prepoll>, next: nat, trace: seq<Event>, i: nat)
    requires Passing(start, base, list, next, trace) && i < |list|
    ensures Passing(start, base, list[..i] + list[i + 1..], next, trace + [Removed(list[i].id)])
  {
    var trace' := trace + [Removed(list[i].id)];
    assert trace'[..|trace|] == trace && list[i] in list;
    RemoveListed(list, next, trace, i);
    IdsWithout(list, i);
  }

  lemma IdsWithout(list: seq<Prepoll>, i: nat)
    requires UniqueIds(list) && i < |list|
    ensures Ids(list[..i] + list[i + 1..]) == Ids(list) - {list[i].id}
  {
    var list' := list[..i] + list[i + 1..];
    forall id
      ensures id in Ids(list') <==> id in Ids(list) && id != list[i].id
    {
      if id in Ids(list) && id != list[i].id {
        var k :| 0 <= k < |list| && list[k].id == id;
        assert list'[if k < i then k else k - 1] == list[k];
      }
      if id in Ids(list') {
        var k :| 0 <= k < |list'| && list'[k].id == id;
        assert list[if k < i then k else k + 1] == list'[k];
      }
    }
  }

  lemma BeginsPassing(list: seq<Prepoll>, next: nat)
    requires UniqueIds(list) && forall p :: p in list ==> !p.fired && p.id < next
    ensures Passing(Ids(list), next, list, next, [])
  {
  }

  /** What a finished pass has done. */
  ghost predicate Complete(start: set<nat>, final: set<nat>, trace: seq<Event>) {
    && Legal(start, trace) && final == Replay(start, trace)
    && (forall j, k :: 0 <= j < k < |trace| && trace[j].Ran? && trace[k].Ran? ==> trace[j].id != trace[k].id)
    && (forall id :: id in start && Removed(id) !in trace ==> Ran(id) in trace)
    && (forall id :: Added(id, false) in trace && Removed(id) !in trace ==> Ran(id) in trace)
    && (forall id :: Added(id, true) in trace ==> Ran(id) !in trace)
  }

  lemma {:induction false} StaysUnlessRemoved(start: set<nat>, trace: seq<Event>, id: nat)
    requires id in start || Added(id, false) in trace || Added(id, true) in trace
    requires Removed(id) !in trace
    ensures id in Replay(start, trace)
  {
    if trace != [] {
      var n := |trace| - 1;
      assert trace == trace[..n] + [trace[n]];
      assert trace[n] in trace;
      if !(trace[n].Added? && trace[n].id == id) {
        StaysUnlessRemoved(start, trace[..n], id);
      }
    }
  }

  lemma AllFiredIsComplete(start: set<nat>, base: nat, list: seq<Prepoll>, next: nat, trace: seq<Event>)
    requires Passing(start, base, list, next, trace) && forall p :: p in list ==> p.fired
    ensures Complete(start, Ids(list), trace)
  {
    forall id | (id in start || Added(id, false) in trace) && Removed(id) !in trace
      ensures Ran(id) in trace
    {
      StaysUnlessRemoved(start, trace, id);
      var p :| p in list && p.id == id;
      if Added(id, true) in trace {
        assert false;
      }
    }
  }

  /** A pass in which a handler that was added does not run: handler 0 runs and registers handler 1, whose
      flag happens to be set. */
  lemma AddedHandlerCanBeSkipped()
    ensures var trace := [Ran(0), Added(1, true)];
            && Passing({0}, 1, [Prepoll(1, true), Prepoll(0, true)], 2, trace)
            && Complete({0}, {0, 1}, trace) && Ran(1) !in trace && Removed(1) !in trace
  {
    var start := [Prepoll(0, false)];
    assert Ids(start) == {0} by {
      assert start[0] in start;
    }
    assert Passing({0}, 1, start, 1, []);
    RunOne({0}, 1, start, 1, [], 0);
    var ran := start[0 := Prepoll(0, true)];
    AddOne({0}, 1, ran, 1, [] + [Ran(0)], true);
    var list := [Prepoll(1, true)] + ran;
    assert list == [Prepoll(1, true), Prepoll(0, true)];
    assert [] + [Ran(0)] + [Added(1, true)] == [Ran(0), Added(1, true)];
    AllFiredIsComplete({0}, 1, list, 2, [Ran(0), Added(1, true)]);
    assert Ids(list) == {0, 1} by {
      assert list[0] in list && list[1] in list;
    }
  }

  /** What a callback may have done: handlers added, and handlers of `may` removed. */
  predicate FromCallback(more: seq<Event>, may: set<nat>) {
    forall e :: e in more ==> !e.Ran? && (e.Removed? ==> e.id in may)
  }

  /** One turn of the pass: a handler runs, and what follows is its callback's. */
  predicate IsTurn(seg: seq<Event>, may: set<nat>) {
    seg != [] && seg[0].Ran? && FromCallback(seg[1..], may)
  }

  ghost function Flat(segs: seq<seq<Event>>): seq<Event> {
    if segs == [] then [] else Flat(segs[..|segs| - 1]) + segs[|segs| - 1]
  }

  ghost predicate InTurns(trace: seq<Event>, segs: seq<seq<Event>>, may: set<nat>) {
    trace == Flat(segs) && forall seg :: seg in segs ==> IsTurn(seg, may)
  }

  lemma OneMoreTurn(trace: seq<Event>, segs: seq<seq<Event>>, seg: seq<Event>, may: set<nat>)
    requires InTurns(trace, segs, may) && IsTurn(seg, may)
    ensures InTurns(trace + seg, segs + [seg], may)
  {
    assert (segs + [seg])[..|segs|] == segs;
  }

  lemma {:induction false} RemovedOnlyByCallbacks(segs: seq<seq<Event>>, may: set<nat>, id: nat)
    requires (forall seg :: seg in segs ==> IsTurn(seg, may)) && Removed(id) in Flat(segs)
    ensures id in may
  {
    var n := |segs| - 1;
    var seg := segs[n];
    assert seg in segs && seg == [seg[0]] + seg[1..];
    if Removed(id) in Flat(segs[..n]) {
      RemovedOnlyByCallbacks(segs[..n], may, id);
    }
  }

  lemma UnremovableHaveRun(start: set<nat>, final: set<nat>, trace: seq<Event>, segs: seq<seq<Event>>, may: set<nat>)
    requires Complete(start, final, trace) && InTurns(trace, segs, may)
    ensures forall id :: id in start && id !in may ==> Ran(id) in trace && id in final
  {
    forall id | id in start && id !in may
      ensures Ran(id) in trace && id in final
    {
      if Removed(id) in trace {
        RemovedOnlyByCallbacks(segs, may, id);
      }
      StaysUnlessRemoved(start, trace, id);
    }
  }

  ghost function Runs(trace: seq<Event>): nat {
    if trace == [] then 0 else Runs(trace[..|trace| - 1]) + if trace[|trace| - 1].Ran? then 1 else 0
  }

  lemma RunsTwo(trace: seq<Event>, a: nat, b: nat)
    ensures Runs(trace + [Ran(a)] + [Added(b, false)]) == Runs(trace) + 1
  {
    var one := trace + [Ran(a)];
    assert one[..|trace|] == trace && (one + [Added(b, false)])[..|one|] == one;
  }

  /** Without a bound on additions the pass can go on for any number of runs: each handler adds the next. */
  lemma {:induction false} PassCanGoOn(start: set<nat>, base: nat, list: seq<Prepoll>, next: nat, trace: seq<Event>,
                                       n: nat)
    returns (list': seq<Prepoll>, next': nat, trace': seq<Event>)
    requires Passing(start, base, list, next, trace) && list != [] && !list[0].fired
    ensures Passing(start, base, list', next', trace') && list' != [] && !list'[0].fired
    ensures trace <= trace' && Runs(trace') == Runs(trace) + n
    decreases n
  {
    list', next', trace' := list, next, trace;
    if n > 0 {
      RunOne(start, base, list, next, trace, 0);
      var ran, after := list[0 := list[0].(fired := true)], trace + [Ran(list[0].id)];
      AddOne(start, base, ran, next, after, false);
      RunsTwo(trace, list[0].id, next);
      list', next', trace' :=
        PassCanGoOn(start, base, [Prepoll(next, false)] + ran, next + 1, after + [Added(next, false)], n - 1);
    }
  }

  class Node {
    var next: Node?
    var fired: bool
    const id: nat

    constructor (id: nat, fired: bool, next: Node?)
      ensures this.id == id && this.fired == fired && this.next == next
    {
      this.id, this.fired, this.next := id, fired, next;
    }
  }

  class PrepollList {
    var head: Node?
    var next: nat
    ghost var nodes: seq<Node>
    ghost var list: seq<Prepoll>
    ghost var Repr: set<Node>

    ghost predicate Linked()
      reads this, nodes
    {
      && Distinct(nodes)
      && head == (if nodes == [] then null else nodes[0])
      && (forall i {:trigger nodes[i].next} :: 0 <= i < |nodes| ==>
            nodes[i].next == if i == |nodes| - 1 then null else nodes[i + 1])
    }

    /** The nodes hold the handlers of `list`. */
    ghost predicate Encodes()
      reads this, nodes
    {
      && |list| == |nodes| && (forall i {:trigger nodes[i].id} :: 0 <= i < |nodes| ==> list[i].id == nodes[i].id)
      && (forall i {:trigger nodes[i].fired} :: 0 <= i < |nodes| ==> list[i].fired == nodes[i].fired)
    }

    ghost predicate Valid()
      reads this, nodes
    {
      && Linked() && Encodes() && UniqueIds(list) && (forall p :: p in list ==> p.id < next)
      && (forall i :: 0 <= i < |nodes| ==> nodes[i] in Repr)
    }

    constructor ()
      ensures Valid() && list == [] && Repr == {}
    {
      head, next, nodes, list, Repr := null, 0, [], [], {};
    }

    /** reactor_register_prepoll: a new head, its flag not initialised. */
    method Register() returns (id: nat, flag: bool)
      requires Valid()
      modifies this
      ensures Valid() && id == old(next) && next == old(next) + 1 && fresh(Repr - old(Repr))
      ensures list == [Prepoll(id, flag)] + old(list)
    {
      id := next;
      flag := *;
      var node := new Node(id, flag, head);
      ghost var before := nodes;
      head, next := node, next + 1;
      nodes, list, Repr := [node] + nodes, [Prepoll(id, flag)] + list, Repr + {node};
      assert forall k :: 1 <= k < |nodes| ==> nodes[k] == before[k - 1];
    }

    /** remove_prepoll: search for the handle and unlink it. */
    method Remove(handle: Node, ghost i: nat)
      requires Valid() && i < |nodes| && nodes[i] == handle
      modifies this`head, this`nodes, this`list, nodes`next
      ensures Valid() && list == old(list)[..i] + old(list)[i + 1..]
    {
      var prev: Node?, at := null, head;
      ghost var k := 0;
      while at != handle
        invariant 0 <= k <= i && at == nodes[k] && prev == if k == 0 then null else nodes[k - 1]
        decreases i - k
      {
        if k == i {
          assert false;
        }
        prev, at, k := at, at.next, k + 1;
      }
      ghost var ns, l := nodes, list;
      Unlink(prev, handle, i);
      list := l[..i] + l[i + 1..];
      forall k | 0 <= k < |nodes|
        ensures nodes[k] == ns[if k < i then k else k + 1] && list[k] == l[if k < i then k else k + 1]
      {
      }
      assert forall p :: p in list ==> p in l;
    }

    method Unlink(prev: Node?, handle: Node, ghost i: nat)
      requires Linked() && i < |nodes| && nodes[i] == handle && prev == if i == 0 then null else nodes[i - 1]
      modifies this`head, this`nodes, nodes`next
      ensures Linked() && nodes == old(nodes)[..i] + old(nodes)[i + 1..]
    {
      ghost var ns := nodes;
      if prev == null {
        head := head.next;
      } else {
        prev.next := handle.next;
      }
      assert forall k {:trigger ns[k].next} :: 0 <= k < |ns| ==>
          ns[k].next == if k == i - 1 then old(handle.next) else old(ns[k].next);
      nodes := ns[..i] + ns[i + 1..];
      forall k | 0 <= k < |nodes|
        ensures nodes[k] == ns[if k < i then k else k + 1]
        ensures nodes[k].next == if k == |nodes| - 1 then null else nodes[k + 1]
      {
      }
    }

    /** The handler that a callback removes, wherever it is. */
    method PickOne(hops: nat) returns (p: Node, ghost i: nat)
      requires Valid() && head != null
      ensures i < |nodes| && p == nodes[i]
    {
      p, i := head, 0;
      var left := hops;
      while p.next != null && left > 0
        invariant 0 <= i < |nodes| && p == nodes[i]
        decreases |nodes| - i
      {
        p, i, left := p.next, i + 1, left - 1;
      }
    }

    /** The code of a callback: it may remove handlers that are in `may`, its own included, and add at most
        `budget`.  `more` is what it did. */
    method Callback(budget: nat, may: set<nat>, ghost start: set<nat>, ghost base: nat, ghost before: seq<Event>)
      returns (left: nat, ghost more: seq<Event>)
      requires Valid() && Passing(start, base, list, next, before)
      modifies this, Repr
      ensures Valid() && fresh(Repr - old(Repr)) && Passing(start, base, list, next, before + more)
      ensures FromCallback(more, may)
      ensures left < budget || (left == budget && Unfired(list) <= Unfired(old(list)))
    {
      left, more := budget, [];
      assert before + [] == before;
      var calls: nat := *;
      while calls > 0
        invariant Valid() && fresh(Repr - old(Repr)) && Passing(start, base, list, next, before + more)
        invariant FromCallback(more, may)
        invariant left < budget || (left == budget && Unfired(list) <= Unfired(old(list)))
      {
        ghost var event;
        left, event := OneCall(left, may, start, base, before + more);
        Regroup(before, more, event);
        more := more + event;
        calls := calls - 1;
      }
    }

    method OneCall(budget: nat, may: set<nat>, ghost start: set<nat>, ghost base: nat, ghost before: seq<Event>)
      returns (left: nat, ghost more: seq<Event>)
      requires Valid() && Passing(start, base, list, next, before)
      modifies this, Repr
      ensures Valid() && fresh(Repr - old(Repr)) && Passing(start, base, list, next, before + more)
      ensures FromCallback(more, may)
      ensures left < budget || (left == budget && Unfired(list) <= Unfired(old(list)))
    {
      left := budget;
      var add: bool := *;
      if add && left > 0 {
        more := AddSome(start, base, before);
        left := left - 1;
      } else {
        more := RemoveSome(may, start, base, before);
      }
    }

    method AddSome(ghost start: set<nat>, ghost base: nat, ghost before: seq<Event>) returns (ghost more: seq<Event>)
      requires Valid() && Passing(start, base, list, next, before)
      modifies this
      ensures Valid() && fresh(Repr - old(Repr)) && Passing(start, base, list, next, before + more)
      ensures FromCallback(more, {})
    {
      ghost var l, n := list, next;
      var added, flag := Register();
      AddOne(start, base, l, n, before, flag);
      more := [Added(added, flag)];
    }

    method RemoveSome(may: set<nat>, ghost start: set<nat>, ghost base: nat, ghost before: seq<Event>)
      returns (ghost more: seq<Event>)
      requires Valid() && Passing(start, base, list, next, before)
      modifies this`head, this`nodes, this`list, nodes`next
      ensures Valid() && Passing(start, base, list, next, before + more) && Unfired(list) <= Unfired(old(list))
      ensures FromCallback(more, may)
    {
      more := [];
      assert before + [] == before;
      if head == null {
        return;
      }
      ghost var l := list;
      var hops: nat := *;
      var victim, i := PickOne(hops);
      if victim.id in may {
        Remove(victim, i);
        RemoveOne(start, base, l, next, before, i);
        UnfiredWithout(l, i);
        more := [Removed(l[i].id)];
      }
    }

    /** The first handler that has not fired. */
    method FindUnfired() returns (p: Node?, ghost i: nat)
      requires Valid()
      ensures p == null ==> forall q :: q in list ==> q.fired
      ensures p != null ==> i < |nodes| && p == nodes[i] && !p.fired && forall k :: 0 <= k < i ==> list[k].fired
    {
      p, i := head, 0;
      while p != null && p.fired
        invariant 0 <= i <= |nodes| && p == if i == |nodes| then null else nodes[i]
        invariant forall k :: 0 <= k < i ==> list[k].fired
        decreases |nodes| - i
      {
        p, i := p.next, i + 1;
      }
    }

    method SetFired(p: Node, ghost i: nat, flag: bool)
      requires Valid() && i < |nodes| && p == nodes[i]
      modifies this`list, p`fired
      ensures Valid() && list == old(list)[i := old(list)[i].(fired := flag)]
    {
      ghost var l := list;
      p.fired := flag;
      list := l[i := l[i].(fired := flag)];
      SameIds(l, list);
      forall q | q in list
        ensures q.id < next
      {
        var k :| 0 <= k < |list| && list[k] == q;
        assert l[k] in l;
      }
    }

    /** The prepoll pass of reactor_invoke.  It ends when its callbacks add at most `budget` handlers.  It goes
        turn by turn, a handler that runs and what its callback does; then every handler has run that
        should have, once; and those that no callback may remove have run and are still there. */
    method Pass(budget: nat, may: set<nat>) returns (ghost trace: seq<Event>, ghost segs: seq<seq<Event>>)
      requires Valid()
      modifies this, Repr
      ensures Valid() && fresh(Repr - old(Repr)) && Complete(old(Ids(list)), Ids(list), trace)
      ensures InTurns(trace, segs, may)
      ensures forall id :: id in old(Ids(list)) && id !in may ==> Ran(id) in trace && id in Ids(list)
    {
      ghost var start, base := Ids(list), next;
      ClearFired();
      BeginsPassing(list, next);
      trace, segs := [], [];
      var left := budget;
      var p, i := FindUnfired();
      while p != null
        invariant Valid() && fresh(Repr - old(Repr)) && Passing(start, base, list, next, trace)
        invariant InTurns(trace, segs, may)
        invariant p == null ==> forall q :: q in list ==> q.fired
        invariant p != null ==> 0 <= i < |nodes| && p == nodes[i] && !p.fired
        decreases left, Unfired(list)
      {
        ghost var seg;
        left, seg := CallOne(p, i, left, may, start, base, trace);
        OneMoreTurn(trace, segs, seg, may);
        trace, segs := trace + seg, segs + [seg];
        p, i := FindUnfired();
      }
      AllFiredIsComplete(start, base, list, next, trace);
      UnremovableHaveRun(start, Ids(list), trace, segs, may);
    }

    /** Mark a handler as fired and run it. */
    method CallOne(p: Node, ghost i: nat, budget: nat, may: set<nat>, ghost start: set<nat>, ghost base: nat,
                   ghost before: seq<Event>)
      returns (left: nat, ghost seg: seq<Event>)
      requires Valid() && Passing(start, base, list, next, before) && i < |nodes| && p == nodes[i] && !p.fired
      modifies this, Repr
      ensures Valid() && fresh(Repr - old(Repr)) && Passing(start, base, list, next, before + seg)
      ensures IsTurn(seg, may) && seg[0] == Ran(p.id)
      ensures left < budget || (left == budget && Unfired(list) < Unfired(old(list)))
    {
      RunOne(start, base, list, next, before, i);
      UnfiredRun(list, i);
      SetFired(p, i, true);
      left, seg := Call(p.id, budget, may, start, base, before);
    }

    /** fn (data): the handler's own callback.  Every call is on the record. */
    method Call(id: nat, budget: nat, may: set<nat>, ghost start: set<nat>, ghost base: nat, ghost before: seq<Event>)
      returns (left: nat, ghost seg: seq<Event>)
      requires Valid() && Passing(start, base, list, next, before + [Ran(id)])
      modifies this, Repr
      ensures Valid() && fresh(Repr - old(Repr)) && Passing(start, base, list, next, before + seg)
      ensures IsTurn(seg, may) && seg[0] == Ran(id)
      ensures left < budget || (left == budget && Unfired(list) <= Unfired(old(list)))
    {
      ghost var more;
      left, more := Callback(budget, may, start, base, before + [Ran(id)]);
      seg := [Ran(id)] + more;
      assert seg[1..] == more;
      Regroup(before, [Ran(id)], more);
    }

    method ClearFired()
      requires Valid()
      modifies this`list, nodes`fired
      ensures Valid() && Ids(list) == old(Ids(list)) && forall p :: p in list ==> !p.fired
    {
      var p := head;
      ghost var i := 0;
      while p != null
        invariant 0 <= i <= |nodes| && p == if i == |nodes| then null else nodes[i]
        invariant Valid() && |list| == |old(list)|
        invariant forall k :: 0 <= k < |list| ==> list[k].id == old(list)[k].id
        invariant forall k :: 0 <= k < i ==> !list[k].fired
        decreases |nodes| - i
      {
        SetFired(p, i, false);
        p, i := p.next, i + 1;
      }
      SameIds(old(list), list);
    }
  }

  lemma SameIds(a: seq<Prepoll>, b: seq<Prepoll>)
    requires |a| == |b| && forall k :: 0 <= k < |a| ==> a[k].id == b[k].id
    ensures Ids(a) == Ids(b) && (UniqueIds(a) <==> UniqueIds(b))
  {
    forall id
      ensures id in Ids(a) <==> id in Ids(b)
    {
      if id in Ids(a) {
        var k :| 0 <= k < |a| && a[k].id == id;
        assert b[k] in b;
      }
      if id in Ids(b) {
        var k :| 0 <= k < |b| && b[k].id == id;
        assert a[k] in a;
      }
    }
  }

  // ----- termination

  ghost function Unfired(list: seq<Prepoll>): nat {
    if list == [] then 0 else (if list[0].fired then 0 else 1) + Unfired(list[1..])
  }

  lemma {:induction false} UnfiredAppend(a: seq<Prepoll>, b: seq<Prepoll>)
    ensures Unfired(a + b) == Unfired(a) + Unfired(b)
  {
    if a == [] {
      assert a + b == b;
    } else {
      assert (a + b)[1..] == a[1..] + b;
      UnfiredAppend(a[1..], b);
    }
  }

  lemma UnfiredSplit(a: seq<Prepoll>, x: Prepoll, b: seq<Prepoll>)
    ensures Unfired(a + [x] + b) == Unfired(a) + Unfired([x]) + Unfired(b)
  {
    UnfiredAppend(a + [x], b);
    UnfiredAppend(a, [x]);
  }

  lemma Around(list: seq<Prepoll>, i: nat)
    requires i < |list|
    ensures list == list[..i] + [list[i]] + list[i + 1..]
  {
  }

  lemma UnfiredWithout(list: seq<Prepoll>, i: nat)
    requires i < |list|
    ensures Unfired(list[..i] + list[i + 1..]) == Unfired(list) - (if list[i].fired then 0 else 1)
  {
    Around(list, i);
    UnfiredSplit(list[..i], list[i], list[i + 1..]);
    UnfiredAppend(list[..i], list[i + 1..]);
    UnfiredOne(list[i]);
  }

  lemma UnfiredOne(x: Prepoll)
    ensures Unfired([x]) == if x.fired then 0 else 1
  {
    assert [x][1..] == [];
  }

  lemma UnfiredRun(list: seq<Prepoll>, i: nat)
    requires i < |list| && !list[i].fired
    ensures Unfired(list[i := list[i].(fired := true)]) == Unfired(list) - 1
  {
    var list' := list[i := list[i].(fired := true)];
    assert list'[..i] == list[..i] && list'[i + 1..] == list[i + 1..];
    UnfiredWithout(list, i);
    UnfiredWithout(list', i);
  }
}
