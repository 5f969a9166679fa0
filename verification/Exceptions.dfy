/** pth_catch, pth_die and pth_exit of src/pthr_pseudothread.c: a vector of jump buffers pushed and popped
    by hand, against ordinary structured exceptions. */
module Exceptions {
  import opened Common

  /** The code of a thread, as far as it catches, dies and exits.  `Catch(body, ok, handler)` calls
      pth_catch on `body` and goes on with `ok` or `handler` according to the result. */
  datatype Prog =
    | Skip
    | Out(x: nat)
    | Seq(first: Prog, second: Prog)
    | Die(msg: nat)
    | Exit
    | Catch(body: Prog, ok: Prog, handler: Prog)

  /** What can be seen: output, the result of a pth_catch, and the message of an uncaught pth_die. */
  datatype Event = Wrote(x: nat) | Returned(result: Option<nat>) | Printed(msg: nat)

  // ----- structured semantics

  datatype End = Done | Threw(msg: nat) | Exited

  datatype Outcome = Outcome(trace: seq<Event>, end: End)

  function Eval(p: Prog, trace: seq<Event>): Outcome {
    match p
    case Skip => Outcome(trace, Done)
    case Out(x) => Outcome(trace + [Wrote(x)], Done)
    case Seq(first, second) =>
      var o := Eval(first, trace);
      if o.end.Done? then Eval(second, o.trace) else o
    case Die(msg) => Outcome(trace, Threw(msg))
    case Exit => Outcome(trace, Exited)
    case Catch(body, ok, handler) =>
      var o := Eval(body, trace);
      match o.end
      case Done => Eval(ok, o.trace + [Returned(None)])
      case Threw(msg) => Eval(handler, o.trace + [Returned(Some(msg))])
      case Exited => o
  }

  /** What a whole thread shows: an uncaught message is printed. */
  function Behaviour(p: Prog): seq<Event> {
    var o := Eval(p, []);
    if o.end.Threw? then o.trace + [Printed(o.end.msg)] else o.trace
  }

  // ----- what that comes to

  /** `n` pth_catches around `p`, one inside the other. */
  function Nest(n: nat, p: Prog): Prog {
    if n == 0 then p else Catch(Nest(n - 1, p), Skip, Skip)
  }

  function Returns(n: nat): (r: seq<Event>)
    ensures |r| == n && forall i :: 0 <= i < n ==> r[i] == Returned(None)
  {
    seq(n, _ => Returned(None))
  }

  /** A die is caught by the innermost of any number of pth_catches, which returns its message; the others
      return null, and nothing is printed. */
  lemma {:induction false} InnermostCatches(n: nat, msg: nat, trace: seq<Event>)
    requires n > 0
    ensures Eval(Nest(n, Die(msg)), trace) == Outcome(trace + [Returned(Some(msg))] + Returns(n - 1), Done)
  {
    if n == 1 {
      assert Nest(1, Die(msg)) == Catch(Nest(0, Die(msg)), Skip, Skip) == Catch(Die(msg), Skip, Skip);
      assert trace + [Returned(Some(msg))] + Returns(0) == trace + [Returned(Some(msg))];
      assert Eval(Die(msg), trace) == Outcome(trace, Threw(msg));
    } else {
      InnermostCatches(n - 1, msg, trace);
      assert Returns(n - 1) == Returns(n - 2) + [Returned(None)];
      Regroup(trace + [Returned(Some(msg))], Returns(n - 2), [Returned(None)]);
      assert Nest(n, Die(msg)) == Catch(Nest(n - 1, Die(msg)), Skip, Skip);
    }
  }

  /** An exit is caught by none of them. */
  lemma {:induction false} NobodyCatchesExit(n: nat, trace: seq<Event>)
    ensures Eval(Nest(n, Exit), trace) == Outcome(trace, Exited)
  {
    if n > 0 {
      NobodyCatchesExit(n - 1, trace);
    }
  }

  /** What pth_catch returns decides how its caller goes on. */
  lemma CatchDecides(ok: Prog, handler: Prog, msg: nat, trace: seq<Event>)
    ensures Eval(Catch(Skip, ok, handler), trace) == Eval(ok, trace + [Returned(None)])
    ensures Eval(Catch(Die(msg), ok, handler), trace) == Eval(handler, trace + [Returned(Some(msg))])
  {
    assert Eval(Skip, trace) == Outcome(trace, Done) && Eval(Die(msg), trace) == Outcome(trace, Threw(msg));
  }

  /** Neither is followed by what comes after it; an uncaught die is printed, last. */
  lemma NothingAfterTheEnd(p: Prog, msg: nat)
    ensures Behaviour(Seq(Die(msg), p)) == [Printed(msg)] && Behaviour(Seq(Exit, p)) == []
    ensures Behaviour(Seq(Out(msg), Skip)) == [Wrote(msg)]
  {
    assert [] + [Wrote(msg)] == [Wrote(msg)];
    assert Eval(Out(msg), []) == Outcome([Wrote(msg)], Done);
    assert Eval(Skip, [Wrote(msg)]) == Outcome([Wrote(msg)], Done);
    assert Eval(Die(msg), []) == Outcome([], Threw(msg)) && Eval(Exit, []) == Outcome([], Exited);
  }

  /** What has been shown stays shown. */
  lemma {:induction false} EvalExtends(p: Prog, trace: seq<Event>)
    ensures trace <= Eval(p, trace).trace
  {
    match p {
      case Seq(first, second) =>
        EvalExtends(first, trace);
        EvalExtends(second, Eval(first, trace).trace);
      case Catch(body, ok, handler) =>
        EvalExtends(body, trace);
        var o := Eval(body, trace);
        EvalExtends(ok, o.trace + [Returned(None)]);
        if o.end.Threw? {
          EvalExtends(handler, o.trace + [Returned(Some(o.end.msg))]);
        }
      case _ =>
    }
  }

  // ----- the machine

  /** What is left to do on the C stack: run code, return normally from the function given to pth_catch,
      or arrive in pth_catch by longjmp. */
  datatype Frame = Run(p: Prog) | EndCatch(ok: Prog) | Land(handler: Prog)

  /** A jmp_buf restores the stack as it was when setjmp was called. */
  type JmpBuf = seq<Frame>

  datatype Machine = Machine(
    stack: seq<Frame>,
    handlers: seq<JmpBuf>,
    message: Option<nat>,
    trace: seq<Event>,
    halted: bool)

  function Step(m: Machine): Machine {
    if m.halted then m
    else if m.stack == [] then m.(halted := true)
    else
      var rest := m.stack[1..];
      match m.stack[0]
      case Run(p) => RunStep(m, p, rest)
      case EndCatch(ok) =>
        if m.handlers == [] then m.(halted := true)
        else
          m.(stack := [Run(ok)] + rest, handlers := m.handlers[..|m.handlers| - 1],
             trace := m.trace + [Returned(None)])
      case Land(handler) => m.(stack := [Run(handler)] + rest, trace := m.trace + [Returned(m.message)])
  }

  function RunStep(m: Machine, p: Prog, rest: seq<Frame>): Machine {
    match p
    case Skip => m.(stack := rest)
    case Out(x) => m.(stack := rest, trace := m.trace + [Wrote(x)])
    case Seq(first, second) => m.(stack := [Run(first), Run(second)] + rest)
    case Die(msg) =>
      if m.handlers == [] then m.(trace := m.trace + [Printed(msg)], halted := true)
      else
        m.(stack := m.handlers[|m.handlers| - 1], handlers := m.handlers[..|m.handlers| - 1],
           message := Some(msg))
    case Exit => m.(halted := true)
    case Catch(body, ok, handler) =>
      m.(stack := [Run(body), EndCatch(ok)] + rest, handlers := m.handlers + [[Land(handler)] + rest])
  }

  function Steps(m: Machine, n: nat): Machine
    decreases n
  {
    if n == 0 then m else Steps(Step(m), n - 1)
  }

  lemma {:induction false} StepsAdd(m: Machine, a: nat, b: nat)
    ensures Steps(m, a + b) == Steps(Steps(m, a), b)
    decreases a
  {
    if a > 0 {
      StepsAdd(Step(m), a - 1, b);
    }
  }

  lemma {:induction false} StepAfterSteps(m: Machine, n: nat)
    ensures Steps(m, n + 1) == Step(Steps(m, n))
  {
    StepsAdd(m, n, 1);
    assert Steps(Steps(m, n), 1) == Steps(Step(Steps(m, n)), 0);
  }

  /** The machine about to run `p` with the rest of the stack below it. */
  function Start(p: Prog, rest: seq<Frame>, hs: seq<JmpBuf>, message: Option<nat>, trace: seq<Event>): Machine {
    Machine([Run(p)] + rest, hs, message, trace, false)
  }

  /** Where the machine must get to: back to the rest of the stack with the handlers it started from, or
      into the innermost of those handlers with the message set, or to the end of the thread. */
  predicate Arrives(m: Machine, o: Outcome, rest: seq<Frame>, hs: seq<JmpBuf>) {
    match o.end
    case Done => m == Machine(rest, hs, m.message, o.trace, false)
    case Threw(msg) =>
      if hs == [] then m.halted && m.trace == o.trace + [Printed(msg)]
      else m == Machine(hs[|hs| - 1], hs[..|hs| - 1], Some(msg), o.trace, false)
    case Exited => m.halted && m.trace == o.trace
  }

  /** The jump-buffer machine does what structured exceptions do, in any context. */
  lemma {:induction false} Simulates(p: Prog, rest: seq<Frame>, hs: seq<JmpBuf>, message: Option<nat>,
                                     trace: seq<Event>) returns (n: nat)
    ensures Arrives(Steps(Start(p, rest, hs, message, trace), n), Eval(p, trace), rest, hs)
    decreases p
  {
    var m := Start(p, rest, hs, message, trace);
    assert m.stack[1..] == rest;
    match p {
      case Seq(first, second) => n := SimulatesSeq(first, second, rest, hs, message, trace);
      case Catch(body, ok, handler) => n := SimulatesCatch(body, ok, handler, rest, hs, message, trace);
      case _ =>
        n := 1;
        assert Steps(m, 1) == Steps(Step(m), 0);
    }
  }

  lemma {:induction false} SimulatesSeq(first: Prog, second: Prog, rest: seq<Frame>, hs: seq<JmpBuf>,
                                        message: Option<nat>, trace: seq<Event>) returns (n: nat)
    ensures Arrives(Steps(Start(Seq(first, second), rest, hs, message, trace), n),
                    Eval(Seq(first, second), trace), rest, hs)
    decreases Seq(first, second), 0
  {
    var m := Start(Seq(first, second), rest, hs, message, trace);
    assert m.stack[1..] == rest;
    var m1 := Step(m);
    assert m1.stack == [Run(first)] + ([Run(second)] + rest);
    var a := Simulates(first, [Run(second)] + rest, hs, message, trace);
    StepsAdd(m, 1, a);
    assert Steps(m, 1) == m1;
    n := 1 + a;
    var m2 := Steps(m, n);
    var o := Eval(first, trace);
    if o.end.Done? {
      var b := Simulates(second, rest, hs, m2.message, o.trace);
      StepsAdd(m, n, b);
      n := n + b;
    }
  }

  lemma {:induction false} SimulatesCatch(body: Prog, ok: Prog, handler: Prog, rest: seq<Frame>, hs: seq<JmpBuf>,
                                          message: Option<nat>, trace: seq<Event>) returns (n: nat)
    ensures Arrives(Steps(Start(Catch(body, ok, handler), rest, hs, message, trace), n),
                    Eval(Catch(body, ok, handler), trace), rest, hs)
    decreases Catch(body, ok, handler), 0
  {
    var m := Start(Catch(body, ok, handler), rest, hs, message, trace);
    assert m.stack[1..] == rest;
    var m1, jb := Step(m), [Land(handler)] + rest;
    assert m1.stack == [Run(body)] + ([EndCatch(ok)] + rest);
    var a := Simulates(body, [EndCatch(ok)] + rest, hs + [jb], message, trace);
    StepsAdd(m, 1, a);
    assert Steps(m, 1) == m1;
    n := 1 + a;
    var m2 := Steps(m, n);
    var o := Eval(body, trace);
    assert (hs + [jb])[..|hs|] == hs;
    if !o.end.Exited? {
      StepAfterSteps(m, n);
      n := n + 1;
      var m3 := Steps(m, n);
      var next, result := if o.end.Done? then ok else handler, if o.end.Done? then None else Some(o.end.msg);
      assert m2.stack[1..] == rest;
      assert m3 == Start(next, rest, hs, m3.message, o.trace + [Returned(result)]);
      var b := Simulates(next, rest, hs, m3.message, o.trace + [Returned(result)]);
      StepsAdd(m, n, b);
      n := n + b;
    }
  }

  lemma {:induction false} HaltedStays(m: Machine, n: nat)
    requires m.halted
    ensures Steps(m, n) == m
  {
    if n > 0 {
      HaltedStays(m, n - 1);
    }
  }

  /** A whole thread: the machine halts and has shown exactly the structured behaviour; a thread function
      that returns leaves no handler behind. */
  lemma ThreadBehaves(p: Prog) returns (n: nat)
    ensures var m := Steps(Start(p, [], [], None, []), n);
            m.halted && m.trace == Behaviour(p) && (Eval(p, []).end.Done? ==> m.handlers == [])
  {
    var m := Start(p, [], [], None, []);
    n := Simulates(p, [], [], None, []);
    if Eval(p, []).end.Done? {
      StepAfterSteps(m, n);
      n := n + 1;
    }
  }

  class Pseudothread {
    var jumpBuffers: seq<JmpBuf>
    var message: Option<nat>

    constructor ()
      ensures jumpBuffers == [] && message == None
    {
      jumpBuffers, message := [], None;
    }

    /** Run the thread function: pth_catch pushes and pops, pth_die pops and jumps. */
    method RunThread(p: Prog) returns (trace: seq<Event>)
      requires jumpBuffers == [] && message == None
      modifies this
      ensures trace == Behaviour(p)
      ensures Eval(p, []).end.Done? ==> jumpBuffers == []
    {
      ghost var m := Start(p, [], [], None, []);
      ghost var n := ThreadBehaves(p);
      ghost var i := 0;
      var stack := [Run(p)];
      var running := true;
      trace := [];
      while running
        invariant i <= n && Steps(m, i) == Machine(stack, jumpBuffers, message, trace, !running)
        decreases n - i, running
      {
        StepAfterSteps(m, i);
        if i == n {
          assert false;
        }
        i := i + 1;
        if stack == [] {
          running := false;
        } else {
          running, stack, trace := Execute(stack, trace);
        }
      }
      StepsAdd(m, i, n - i);
      HaltedStays(Steps(m, i), n - i);
    }

    method Execute(stack: seq<Frame>, trace: seq<Event>)
      returns (running: bool, stack': seq<Frame>, trace': seq<Event>)
      requires stack != []
      modifies this
      ensures Machine(stack', jumpBuffers, message, trace', !running) ==
              Step(Machine(stack, old(jumpBuffers), old(message), trace, false))
    {
      running, stack', trace' := true, stack[1..], trace;
      match stack[0] {
        case Run(p) => running, stack', trace' := RunCode(p, stack, trace);
        case EndCatch(ok) =>
          if jumpBuffers == [] {
            running, stack' := false, stack;
          } else {
            jumpBuffers := jumpBuffers[..|jumpBuffers| - 1];
            stack', trace' := [Run(ok)] + stack[1..], trace + [Returned(None)];
          }
        case Land(handler) =>
          stack', trace' := [Run(handler)] + stack[1..], trace + [Returned(message)];
      }
    }

    method RunCode(p: Prog, stack: seq<Frame>, trace: seq<Event>)
      returns (running: bool, stack': seq<Frame>, trace': seq<Event>)
      requires stack != [] && stack[0] == Run(p)
      modifies this
      ensures Machine(stack', jumpBuffers, message, trace', !running) ==
              Step(Machine(stack, old(jumpBuffers), old(message), trace, false))
    {
      var rest := stack[1..];
      running, stack', trace' := true, rest, trace;
      match p {
        case Skip =>
        case Out(x) => trace' := trace + [Wrote(x)];
        case Seq(first, second) => stack' := [Run(first), Run(second)] + rest;
        case Exit => running, stack' := false, stack;
        case Catch(body, ok, handler) =>
          jumpBuffers := jumpBuffers + [[Land(handler)] + rest];
          stack' := [Run(body), EndCatch(ok)] + rest;
        case Die(msg) =>
          if |jumpBuffers| > 0 {
            message := Some(msg);
            stack' := jumpBuffers[|jumpBuffers| - 1];
            jumpBuffers := jumpBuffers[..|jumpBuffers| - 1];
          } else {
            running, stack', trace' := false, stack, trace + [Printed(msg)];
          }
      }
    }
  }
}
