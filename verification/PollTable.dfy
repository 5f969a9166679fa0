/** The handle table and the poll array of src/pthr_reactor.c: a stable index into a compacted, shared
    array of poll descriptors. */
module PollTables {
  import opened Common

  /** `offset` is -1 for an unused handle. */
  datatype Handle = Handle(offset: int, fn: nat, data: nat)

  datatype PollFd = PollFd(fd: int, events: int, revents: int)

  /** What a registered handle stands for. */
  datatype Reg = Reg(poll: PollFd, fn: nat, data: nat)

  // ----- the two arrays as sequences

  /** Offsets point into the poll array, its entries differ in what they ask for, and each is in use. */
  ghost predicate Table(hs: seq<Handle>, ps: seq<PollFd>) {
    && (forall i :: 0 <= i < |hs| ==> -1 <= hs[i].offset < |ps|)
    && (forall a, b :: 0 <= a < b < |ps| ==> !(ps[a].fd == ps[b].fd && ps[a].events == ps[b].events))
    && (forall a :: 0 <= a < |ps| ==> Used(hs, a))
  }

  ghost predicate Used(hs: seq<Handle>, a: int) {
    exists i :: 0 <= i < |hs| && hs[i].offset == a
  }

  ghost function Meaning(hs: seq<Handle>, ps: seq<PollFd>): map<nat, Reg>
    requires Table(hs, ps)
  {
    map i: nat | i < |hs| && hs[i].offset >= 0 :: Reg(ps[hs[i].offset], hs[i].fn, hs[i].data)
  }

  /** The loop at the end of reactor_unregister. */
  ghost function Lowered(hs: seq<Handle>, a: int): (r: seq<Handle>)
    ensures |r| == |hs|
    ensures forall i :: 0 <= i < |hs| ==> r[i] == if hs[i].offset > a then hs[i].(offset := hs[i].offset - 1) else hs[i]
  {
    seq(|hs|, i requires 0 <= i < |hs| => if hs[i].offset > a then hs[i].(offset := hs[i].offset - 1) else hs[i])
  }

  ghost function WithoutEntry(ps: seq<PollFd>, a: nat): seq<PollFd>
    requires a < |ps|
  {
    ps[..a] + ps[a + 1..]
  }

  lemma ShareAddsOne(hs: seq<Handle>, ps: seq<PollFd>, h: nat, a: nat, fn: nat, data: nat)
    requires Table(hs, ps) && h < |hs| && hs[h].offset == -1 && a < |ps|
    ensures Table(hs[h := Handle(a, fn, data)], ps)
    ensures Meaning(hs[h := Handle(a, fn, data)], ps) == Meaning(hs, ps)[h := Reg(ps[a], fn, data)]
    ensures h !in Meaning(hs, ps)
  {
    var hs' := hs[h := Handle(a, fn, data)];
    forall b | 0 <= b < |ps|
      ensures Used(hs', b)
    {
      assert Used(hs, b);
      var i :| 0 <= i < |hs| && hs[i].offset == b;
      assert hs'[i].offset == b;
    }
  }

  lemma ExtendAddsOne(hs: seq<Handle>, ps: seq<PollFd>, h: nat, p: PollFd, fn: nat, data: nat)
    requires Table(hs, ps) && h < |hs| && hs[h].offset == -1
    requires forall a :: 0 <= a < |ps| ==> !(ps[a].fd == p.fd && ps[a].events == p.events)
    ensures Table(hs[h := Handle(|ps|, fn, data)], ps + [p])
    ensures Meaning(hs[h := Handle(|ps|, fn, data)], ps + [p]) == Meaning(hs, ps)[h := Reg(p, fn, data)]
    ensures h !in Meaning(hs, ps)
  {
    var hs' := hs[h := Handle(|ps|, fn, data)];
    forall b | 0 <= b < |ps + [p]|
      ensures Used(hs', b)
    {
      if b == |ps| {
        assert hs'[h].offset == b;
      } else {
        assert Used(hs, b);
        var i :| 0 <= i < |hs| && hs[i].offset == b;
        assert hs'[i].offset == b;
      }
    }
  }

  lemma GrowKeepsMeaning(hs: seq<Handle>, more: seq<Handle>, ps: seq<PollFd>)
    requires Table(hs, ps) && forall i :: 0 <= i < |more| ==> more[i].offset == -1
    ensures Table(hs + more, ps) && Meaning(hs + more, ps) == Meaning(hs, ps)
  {
    forall b | 0 <= b < |ps|
      ensures Used(hs + more, b)
    {
      assert Used(hs, b);
      var i :| 0 <= i < |hs| && hs[i].offset == b;
      assert (hs + more)[i].offset == b;
    }
  }

  lemma ClearShared(hs: seq<Handle>, ps: seq<PollFd>, h: nat)
    requires Table(hs, ps) && h < |hs| && hs[h].offset >= 0
    requires Used(hs[h := hs[h].(offset := -1)], hs[h].offset)
    ensures Table(hs[h := hs[h].(offset := -1)], ps)
    ensures Meaning(hs[h := hs[h].(offset := -1)], ps) == Meaning(hs, ps) - {h}
  {
    var hs' := hs[h := hs[h].(offset := -1)];
    forall b | 0 <= b < |ps|
      ensures Used(hs', b)
    {
      if b != hs[h].offset {
        assert Used(hs, b);
        var i :| 0 <= i < |hs| && hs[i].offset == b;
        assert hs'[i].offset == b;
      }
    }
  }

  lemma GapCloses(hs: seq<Handle>, ps: seq<PollFd>, a: nat)
    requires a < |ps| && !Used(hs, a)
    requires forall i :: 0 <= i < |hs| ==> -1 <= hs[i].offset < |ps|
    requires forall b, c :: 0 <= b < c < |ps| ==> !(ps[b].fd == ps[c].fd && ps[b].events == ps[c].events)
    requires forall b :: 0 <= b < |ps| && b != a ==> Used(hs, b)
    ensures Table(Lowered(hs, a), WithoutEntry(ps, a))
    ensures forall i :: 0 <= i < |hs| ==> (Lowered(hs, a)[i].offset >= 0 <==> hs[i].offset >= 0)
    ensures forall i :: 0 <= i < |hs| && hs[i].offset >= 0 ==>
              WithoutEntry(ps, a)[Lowered(hs, a)[i].offset] == ps[hs[i].offset]
  {
    var hs', ps' := Lowered(hs, a), WithoutEntry(ps, a);
    assert forall i :: 0 <= i < |hs| ==> hs[i].offset != a;
    assert forall b :: 0 <= b < a ==> ps'[b] == ps[b];
    assert forall b :: a <= b < |ps'| ==> ps'[b] == ps[b + 1];
    forall b | 0 <= b < |ps'|
      ensures Used(hs', b)
    {
      var c := if b < a then b else b + 1;
      assert Used(hs, c);
      var i :| 0 <= i < |hs| && hs[i].offset == c;
      assert hs'[i].offset == b;
    }
  }

  /** Shifting the poll array down and lowering the offsets behind the gap changes nobody's meaning. */
  lemma ClearUnshared(hs: seq<Handle>, ps: seq<PollFd>, h: nat)
    requires Table(hs, ps) && h < |hs| && hs[h].offset >= 0
    requires !Used(hs[h := hs[h].(offset := -1)], hs[h].offset)
    ensures var a := hs[h].offset;
            var hs', ps' := Lowered(hs[h := hs[h].(offset := -1)], a), WithoutEntry(ps, a);
            Table(hs', ps') && Meaning(hs', ps') == Meaning(hs, ps) - {h}
  {
    var a := hs[h].offset;
    var cleared := hs[h := hs[h].(offset := -1)];
    forall b | 0 <= b < |ps| && b != a
      ensures Used(cleared, b)
    {
      assert Used(hs, b);
      var i :| 0 <= i < |hs| && hs[i].offset == b;
      assert cleared[i].offset == b;
    }
    GapCloses(cleared, ps, a);
  }

  // ----- what a dispatch pass did

  datatype Event = Called(h: nat, reg: Reg) | Registered(h: nat, reg: Reg) | Unregistered(h: nat)

  /** Every call goes to a handle that is registered at that moment, with its own descriptor and data and a
      result of poll to report; a registration takes an unused handle. */
  ghost predicate Legal(m: map<nat, Reg>, trace: seq<Event>)
    decreases |trace|
  {
    trace != [] ==> Fits(m, trace[0]) && Legal(Replay1(m, trace[0]), trace[1..])
  }

  ghost predicate Fits(m: map<nat, Reg>, e: Event) {
    match e
    case Called(h, reg) => h in m && m[h] == reg && reg.poll.revents != 0
    case Registered(h, _) => h !in m
    case Unregistered(h) => h in m
  }

  ghost function Replay1(m: map<nat, Reg>, e: Event): map<nat, Reg> {
    match e
    case Called(_, _) => m
    case Registered(h, reg) => m[h := reg]
    case Unregistered(h) => m - {h}
  }

  ghost function Replay(m: map<nat, Reg>, trace: seq<Event>): map<nat, Reg>
    decreases |trace|
  {
    if trace == [] then m else Replay(Replay1(m, trace[0]), trace[1..])
  }

  lemma {:induction false} TraceAppend(m: map<nat, Reg>, a: seq<Event>, b: seq<Event>)
    requires Legal(m, a) && Legal(Replay(m, a), b)
    ensures Legal(m, a + b) && Replay(m, a + b) == Replay(Replay(m, a), b)
    decreases |a|
  {
    if a == [] {
      assert a + b == b;
    } else {
      assert (a + b)[1..] == a[1..] + b;
      TraceAppend(Replay1(m, a[0]), a[1..], b);
    }
  }

  /** Nothing but its own removal changes what a handle means. */
  lemma {:induction false} OthersKeepMeaning(m: map<nat, Reg>, trace: seq<Event>, h: nat)
    requires Legal(m, trace) && h in m && Unregistered(h) !in trace
    ensures h in Replay(m, trace) && Replay(m, trace)[h] == m[h]
    decreases |trace|
  {
    if trace != [] {
      assert trace[0] in trace;
      OthersKeepMeaning(Replay1(m, trace[0]), trace[1..], h);
    }
  }

  /** What a callback may have done: handles registered, and handles of `may` unregistered. */
  predicate FromCallback(more: seq<Event>, may: set<nat>) {
    forall e :: e in more ==> !e.Called? && (e.Unregistered? ==> e.h in may)
  }

  /** One turn of the dispatch: a call, and what follows is the callback's. */
  predicate IsTurn(seg: seq<Event>, may: set<nat>) {
    seg != [] && seg[0].Called? && FromCallback(seg[1..], may)
  }

  ghost function Flat(segs: seq<seq<Event>>): seq<Event> {
    if segs == [] then [] else Flat(segs[..|segs| - 1]) + segs[|segs| - 1]
  }

  ghost predicate InTurns(trace: seq<Event>, segs: seq<seq<Event>>, may: set<nat>) {
    trace == Flat(segs) && forall seg :: seg in segs ==> IsTurn(seg, may)
  }

  lemma OneMoreTurn(trace: seq<Event>, segs: seq<seq<Event>>, seg: seq<Event>, may: set<nat>)
    requires InTurns(trace, segs, may) && IsTurn(seg, may)
    ensures InTurns(trace + seg, segs + [seg], may)
  {
    assert (segs + [seg])[..|segs|] == segs;
  }

  lemma {:induction false} UnregisteredOnlyByCallbacks(segs: seq<seq<Event>>, may: set<nat>, h: nat)
    requires (forall seg :: seg in segs ==> IsTurn(seg, may)) && Unregistered(h) in Flat(segs)
    ensures h in may
  {
    var n := |segs| - 1;
    var seg := segs[n];
    assert seg in segs && seg == [seg[0]] + seg[1..];
    if Unregistered(h) in Flat(segs[..n]) {
      UnregisteredOnlyByCallbacks(segs[..n], may, h);
    }
  }

  /** The end of the dispatch loop, with all handles of the start dealt with. */
  lemma Dispatched(m: map<nat, Reg>, trace: seq<Event>, segs: seq<seq<Event>>, may: set<nat>, n: nat)
    requires Progress(m, trace, n) && InTurns(trace, segs, may)
    requires forall h :: h in Replay(m, trace) ==> h < n
    ensures forall h :: h in m && m[h].poll.revents != 0 ==> Called(h, m[h]) in trace || Unregistered(h) in trace
    ensures forall h :: h in m && h !in may ==> h in Replay(m, trace) && Replay(m, trace)[h] == m[h]
    ensures forall h :: h in m && h !in may && m[h].poll.revents != 0 ==> Called(h, m[h]) in trace
  {
    forall h | h in m && Unregistered(h) !in trace
      ensures h in Replay(m, trace) && Replay(m, trace)[h] == m[h]
    {
      OthersKeepMeaning(m, trace, h);
    }
    forall h | h in m && h !in may
      ensures Unregistered(h) !in trace
    {
      if Unregistered(h) in trace {
        UnregisteredOnlyByCallbacks(segs, may, h);
      }
    }
  }

  /** Handles below `i` have been dealt with. */
  ghost predicate Progress(m: map<nat, Reg>, trace: seq<Event>, i: nat) {
    && Legal(m, trace)
    && (forall k :: 0 <= k < |trace| && trace[k].Called? ==> trace[k].h < i)
    && (forall j, k :: 0 <= j < k < |trace| && trace[j].Called? && trace[k].Called? ==> trace[j].h < trace[k].h)
    && (forall h :: h in m && h < i && m[h].poll.revents != 0 ==> Called(h, m[h]) in trace || Unregistered(h) in trace)
  }

  lemma ProgressStep(m: map<nat, Reg>, trace: seq<Event>, more: seq<Event>, i: nat, may: set<nat>)
    requires Progress(m, trace, i) && Legal(Replay(m, trace), more)
    requires more != [] ==> IsTurn(more, may) && more[0].h == i
    requires var now := Replay(m, trace);
             i in now && now[i].poll.revents != 0 ==> more != [] && more[0] == Called(i, now[i])
    ensures Progress(m, trace + more, i + 1)
  {
    TraceAppend(m, trace, more);
    assert forall k :: 1 <= k < |more| ==> more[k] == more[1..][k - 1];
    if i in m && Unregistered(i) !in trace {
      OthersKeepMeaning(m, trace, i);
      assert m[i].poll.revents != 0 ==> more[0] in more;
    }
  }

  // ----- the arrays

  class PollTable {
    var handles: array<Handle>
    var polls: array<PollFd>
    var used: nat

    ghost predicate Valid()
      reads this, handles, polls
    {
      && used <= polls.Length && handles.Length <= INT_MAX
      && Table(handles[..], polls[..used])
    }

    ghost function View(): map<nat, Reg>
      requires Valid()
      reads this, handles, polls
    {
      Meaning(handles[..], polls[..used])
    }

    constructor ()
      ensures Valid() && View() == map[] && fresh(handles) && fresh(polls)
    {
      handles := new Handle[0];
      polls := new PollFd[0];
      used := 0;
    }

    /** The first unused handle; a table without one grows by eight. */
    method FindHandle() returns (h: nat)
      requires Valid() && handles.Length <= INT_MAX - 8
      modifies this`handles
      ensures Valid() && View() == old(View())
      ensures handles == old(handles) || fresh(handles)
      ensures h < handles.Length && handles[h].offset == -1
      ensures forall k :: 0 <= k < h ==> handles[k].offset != -1
      ensures handles.Length == old(handles.Length) || (h == old(handles.Length) && handles.Length == h + 8)
    {
      h := 0;
      while h < handles.Length
        invariant 0 <= h <= handles.Length
        invariant forall k :: 0 <= k < h ==> handles[k].offset != -1
      {
        if handles[h].offset == -1 {
          return;
        }
        h := h + 1;
      }
      ghost var hs := handles[..];
      var bigger := new Handle[handles.Length + 8];
      for i := 0 to handles.Length
        modifies bigger
        invariant forall k :: 0 <= k < i ==> bigger[k] == handles[k]
      {
        bigger[i] := handles[i];
      }
      for i := handles.Length to bigger.Length
        modifies bigger
        invariant forall k :: 0 <= k < handles.Length ==> bigger[k] == handles[k]
        invariant forall k :: handles.Length <= k < i ==> bigger[k].offset == -1
      {
        bigger[i] := bigger[i].(offset := -1);
      }
      handles := bigger;
      assert handles[..] == hs + handles[|hs|..];
      GrowKeepsMeaning(hs, handles[|hs|..], polls[..used]);
    }

    /** The poll entry that asks for the same, or `used`. */
    method FindPoll(fd: int, events: int) returns (a: nat)
      requires Valid()
      ensures a <= used
      ensures a < used ==> polls[a].fd == fd && polls[a].events == events
      ensures a == used ==> forall b :: 0 <= b < used ==> !(polls[b].fd == fd && polls[b].events == events)
    {
      a := 0;
      while a < used
        invariant a <= used
        invariant forall b :: 0 <= b < a ==> !(polls[b].fd == fd && polls[b].events == events)
      {
        if polls[a].fd == fd && polls[a].events == events {
          return;
        }
        a := a + 1;
      }
    }

    /** Room for one more poll entry. */
    method Reserve()
      requires Valid()
      modifies this`polls
      ensures Valid() && View() == old(View()) && used < polls.Length
      ensures polls == old(polls) || fresh(polls)
      ensures used < old(polls.Length) ==> polls == old(polls)
      ensures polls[..used] == old(polls[..used])
    {
      if used >= polls.Length {
        var bigger := new PollFd[polls.Length + 8];
        for i := 0 to used
          modifies bigger
          invariant forall k :: 0 <= k < i ==> bigger[k] == polls[k]
        {
          bigger[i] := polls[i];
        }
        polls := bigger;
        assert polls[..used] == old(polls[..used]);
      }
    }

    /** reactor_register.  A new poll entry keeps the stale revents of its slot. */
    method Register(fd: int, events: int, fn: nat, data: nat) returns (h: nat, ghost reg: Reg)
      requires Valid() && handles.Length <= INT_MAX - 8
      modifies this, handles, polls
      ensures Valid() && (handles == old(handles) || fresh(handles)) && (polls == old(polls) || fresh(polls))
      ensures h !in old(View()) && View() == old(View())[h := reg]
      ensures reg.poll.fd == fd && reg.poll.events == events && reg.fn == fn && reg.data == data
      ensures forall b :: 0 <= b < old(used) && old(polls[b].fd) == fd && old(polls[b].events) == events ==>
                reg.poll == old(polls[b]) && used == old(used)
      ensures used > old(used) && old(used) < old(polls.Length) ==> reg.poll.revents == old(polls[used].revents)
    {
      h := FindHandle();
      var a := FindPoll(fd, events);
      ghost var hs, ps := handles[..], polls[..used];
      if a < used {
        handles[h] := Handle(a, fn, data);
        assert handles[..] == hs[h := Handle(a, fn, data)];
        ShareAddsOne(hs, ps, h, a, fn, data);
        reg := Reg(ps[a], fn, data);
      } else {
        reg := AddPoll(h, fd, events, fn, data);
      }
    }

    method AddPoll(h: nat, fd: int, events: int, fn: nat, data: nat) returns (ghost reg: Reg)
      requires Valid() && h < handles.Length && handles[h].offset == -1
      requires forall b :: 0 <= b < used ==> !(polls[b].fd == fd && polls[b].events == events)
      modifies this`polls, this`used, handles, polls
      ensures Valid() && (polls == old(polls) || fresh(polls))
      ensures h !in old(View()) && View() == old(View())[h := reg]
      ensures reg.poll.fd == fd && reg.poll.events == events && reg.fn == fn && reg.data == data
      ensures used == old(used) + 1
      ensures old(used) < old(polls.Length) ==> reg.poll.revents == old(polls[used].revents)
    {
      Reserve();
      ghost var hs, ps := handles[..], polls[..used];
      polls[used] := PollFd(fd, events, polls[used].revents);
      ghost var p := polls[used];
      handles[h] := Handle(used, fn, data);
      used := used + 1;
      assert polls[..used] == ps + [p];
      assert handles[..] == hs[h := Handle(|ps|, fn, data)];
      ExtendAddsOne(hs, ps, h, p, fn, data);
      reg := Reg(p, fn, data);
    }

    /** reactor_unregister */
    method Unregister(h: nat)
      requires Valid() && h in View()
      modifies this, handles, polls
      ensures Valid() && View() == old(View()) - {h}
      ensures handles == old(handles) && polls == old(polls)
    {
      ghost var hs, ps := handles[..], polls[..used];
      var a := handles[h].offset;
      handles[h] := handles[h].(offset := -1);
      ghost var cleared := hs[h := hs[h].(offset := -1)];
      assert handles[..] == cleared;
      var i := 0;
      while i < handles.Length
        invariant 0 <= i <= handles.Length && handles[..] == cleared
        invariant forall k :: 0 <= k < i ==> cleared[k].offset != a
      {
        if handles[i].offset == a {
          assert cleared[i].offset == a;
          ClearShared(hs, ps, h);
          return;
        }
        i := i + 1;
      }
      ClearUnshared(hs, ps, h);
      ShiftDown(a);
      LowerOffsets(a);
    }

    /** The memcpy over the removed entry, read as a left shift. */
    method ShiftDown(a: nat)
      requires a < used <= polls.Length
      modifies polls, this`used
      ensures used == old(used) - 1 && polls[..used] == WithoutEntry(old(polls[..used]), a)
    {
      var k := a;
      while k < used - 1
        invariant a <= k <= used - 1 && used == old(used) && polls == old(polls)
        invariant forall j :: 0 <= j < a ==> polls[j] == old(polls[j])
        invariant forall j :: a <= j < k ==> polls[j] == old(polls[j + 1])
        invariant forall j :: k < j < used ==> polls[j] == old(polls[j])
      {
        polls[k] := polls[k + 1];
        k := k + 1;
      }
      used := used - 1;
    }

    method LowerOffsets(a: int)
      modifies handles
      ensures handles[..] == Lowered(old(handles[..]), a)
    {
      ghost var hs := handles[..];
      for i := 0 to handles.Length
        invariant forall k :: 0 <= k < i ==> handles[k] == Lowered(hs, a)[k]
        invariant forall k :: i <= k < handles.Length ==> handles[k] == hs[k]
      {
        if handles[i].offset > a {
          handles[i] := handles[i].(offset := handles[i].offset - 1);
        }
      }
    }

    // ----- dispatch

    /** The code of a callback, as far as the table sees it: any registrations, and removals of handles that
        are in `may`. */
    method Callback(may: set<nat>) returns (ghost trace: seq<Event>)
      requires Valid()
      modifies this, handles, polls
      ensures Valid() && (handles == old(handles) || fresh(handles)) && (polls == old(polls) || fresh(polls))
      ensures FromCallback(trace, may)
      ensures Legal(old(View()), trace) && View() == Replay(old(View()), trace)
    {
      trace := [];
      var calls: nat := *;
      while calls > 0
        invariant Valid() && (handles == old(handles) || fresh(handles)) && (polls == old(polls) || fresh(polls))
        invariant FromCallback(trace, may)
        invariant Legal(old(View()), trace) && View() == Replay(old(View()), trace)
      {
        ghost var more := OneCall(may);
        TraceAppend(old(View()), trace, more);
        trace := trace + more;
        calls := calls - 1;
      }
    }

    method OneCall(may: set<nat>) returns (ghost trace: seq<Event>)
      requires Valid()
      modifies this, handles, polls
      ensures Valid() && (handles == old(handles) || fresh(handles)) && (polls == old(polls) || fresh(polls))
      ensures FromCallback(trace, may)
      ensures Legal(old(View()), trace) && View() == Replay(old(View()), trace)
    {
      trace := [];
      var fd: int, events: int, fn: nat, data: nat, h: nat, register: bool := *, *, *, *, *, *;
      if register && handles.Length <= INT_MAX - 8 {
        ghost var reg;
        h, reg := Register(fd, events, fn, data);
        trace := [Registered(h, reg)];
      } else if h in may && h < handles.Length && handles[h].offset >= 0 {
        Unregister(h);
        trace := [Unregistered(h)];
      }
      assert |trace| == 1 ==> trace[1..] == [];
    }

    /** fn (fd, revents, data): the handle's own callback.  Every call is on the record. */
    method Call(h: nat, ghost reg: Reg, may: set<nat>) returns (ghost seg: seq<Event>)
      requires Valid() && h in View() && View()[h] == reg && reg.poll.revents != 0
      modifies this, handles, polls
      ensures Valid() && (handles == old(handles) || fresh(handles)) && (polls == old(polls) || fresh(polls))
      ensures IsTurn(seg, may) && seg[0] == Called(h, reg)
      ensures Legal(old(View()), seg) && View() == Replay(old(View()), seg)
    {
      ghost var call := [Called(h, reg)];
      assert call[1..] == [];
      ghost var more := Callback(may);
      TraceAppend(old(View()), call, more);
      seg := call + more;
      assert seg[1..] == more;
    }

    /** The dispatch loop of reactor_invoke, over a table its own callbacks change.  It goes turn by turn, a
        call and what the callback does.  Every call goes to a handle registered at that moment, with its
        revents set; handles are called in increasing order, so none twice; a handle that was ready at the
        start is called unless it is unregistered first; and one that no callback may unregister is called
        and keeps its meaning. */
    method Dispatch(may: set<nat>) returns (ghost trace: seq<Event>, ghost segs: seq<seq<Event>>)
      requires Valid()
      modifies this, handles, polls
      ensures Valid()
      ensures Legal(old(View()), trace) && View() == Replay(old(View()), trace)
      ensures InTurns(trace, segs, may)
      ensures forall j, k :: 0 <= j < k < |trace| && trace[j].Called? && trace[k].Called? ==> trace[j].h < trace[k].h
      ensures forall h :: h in old(View()) && old(View())[h].poll.revents != 0 ==>
                Called(h, old(View())[h]) in trace || Unregistered(h) in trace
      ensures forall h :: h in old(View()) && h !in may ==> h in View() && View()[h] == old(View())[h]
      ensures forall h :: h in old(View()) && h !in may && old(View())[h].poll.revents != 0 ==>
                Called(h, old(View())[h]) in trace
    {
      trace, segs := [], [];
      ghost var m := View();
      var i := 0;
      while i < handles.Length
        invariant Valid() && (handles == old(handles) || fresh(handles)) && (polls == old(polls) || fresh(polls))
        invariant Progress(m, trace, i) && View() == Replay(m, trace) && InTurns(trace, segs, may)
        decreases INT_MAX - i
      {
        ghost var more := Visit(i, may);
        ProgressStep(m, trace, more, i, may);
        TraceAppend(m, trace, more);
        if more != [] {
          OneMoreTurn(trace, segs, more, may);
          segs := segs + [more];
        } else {
          assert trace + more == trace;
        }
        trace := trace + more;
        i := i + 1;
      }
      Dispatched(m, trace, segs, may, i);
    }

    /** One turn of the dispatch loop. */
    method Visit(i: nat, may: set<nat>) returns (ghost trace: seq<Event>)
      requires Valid() && i < handles.Length
      modifies this, handles, polls
      ensures Valid() && (handles == old(handles) || fresh(handles)) && (polls == old(polls) || fresh(polls))
      ensures Legal(old(View()), trace) && View() == Replay(old(View()), trace)
      ensures trace != [] ==> IsTurn(trace, may) && trace[0].h == i
      ensures i in old(View()) && old(View())[i].poll.revents != 0 ==>
                trace != [] && trace[0] == Called(i, old(View())[i])
    {
      trace := [];
      var a := handles[i].offset;
      if a >= 0 && polls[a].revents != 0 {
        trace := Call(i, Reg(polls[a], handles[i].fn, handles[i].data), may);
      }
    }
  }
}
