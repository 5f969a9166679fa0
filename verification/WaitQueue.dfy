/** Wait queues: src/pthr_wait_queue.c.  A queue is one vector of sleeping threads; a wake-up moves a
    prefix of it into a private list that a prepoll handler walks later. */
module WaitQueues {
  import opened Common

  /** What a wake-up of `n` threads takes: everything for -1, otherwise the first `n`. */
  function TakenBy(sleepers: seq<Tid>, n: int): seq<Tid>
    requires n == -1 || 0 <= n <= |sleepers|
  {
    if n == -1 then sleepers else sleepers[..n]
  }

  /** The queue without the first occurrence of `t` (all of it when `t` is absent). */
  function Erase(sleepers: seq<Tid>, t: Tid): (r: seq<Tid>)
    ensures t !in sleepers ==> r == sleepers
    ensures t in sleepers ==> |r| == |sleepers| - 1
  {
    if sleepers == [] then []
    else if sleepers[0] == t then sleepers[1..]
    else [sleepers[0]] + Erase(sleepers[1..], t)
  }

  lemma {:induction false} EraseAt(s: seq<Tid>, t: Tid, i: nat)
    requires i < |s| && s[i] == t && t !in s[..i]
    ensures Erase(s, t) == s[..i] + s[i + 1..]
  {
    if i > 0 {
      var rest := s[1..];
      assert s[0] != t;
      assert rest[..i - 1] == s[..i][1..];
      EraseAt(rest, t, i - 1);
      assert rest[..i - 1] + rest[i..] == s[1..i] + s[i + 1..];
    }
  }

  lemma {:induction false} EraseDistinct(s: seq<Tid>, t: Tid)
    requires Distinct(s)
    ensures Distinct(Erase(s, t))
    ensures t !in Erase(s, t)
    ensures forall u :: u in Erase(s, t) <==> u in s && u != t
  {
    if s != [] {
      var rest := s[1..];
      assert s == [s[0]] + rest;
      if s[0] != t {
        EraseDistinct(rest, t);
        assert forall k :: 0 <= k < |rest| ==> rest[k] == s[k + 1];
        assert s[0] !in Erase(rest, t);
      }
    }
  }

  class WaitQueue {
    var sleepers: seq<Tid>

    constructor ()
      ensures sleepers == []
    {
      sleepers := [];
    }

    /** First half of wq_sleep_on: the caller joins the back of the queue and switches away. */
    method SleepOn(current: Tid)
      modifies this
      ensures sleepers == old(sleepers) + [current]
    {
      sleepers := sleepers + [current];
    }

    /** Second half of wq_sleep_on after an alarm: look for ourselves and leave the queue.
        `found == false` is the abort in the source. */
    method LeaveOnAlarm(current: Tid) returns (found: bool)
      modifies this
      ensures found <==> current in old(sleepers)
      ensures sleepers == Erase(old(sleepers), current)
    {
      var i := 0;
      while i < |sleepers|
        invariant i <= |sleepers|
        invariant sleepers == old(sleepers)
        invariant current !in sleepers[..i]
      {
        if sleepers[i] == current {
          EraseAt(sleepers, current, i);
          sleepers := sleepers[..i] + sleepers[i + 1..];
          return true;
        }
        i := i + 1;
      }
      return false;
    }

    /** wake_up: the private list handed to the prepoll handler; empty means no handler. */
    method WakeUp(n: int) returns (v: seq<Tid>)
      requires n == -1 || 0 <= n <= |sleepers|
      modifies this
      ensures v == TakenBy(old(sleepers), n)
      ensures v + sleepers == old(sleepers)
      ensures n == -1 ==> v == old(sleepers) && sleepers == []
      ensures n >= 0 ==> |v| == n
    {
      if |sleepers| == 0 {
        return [];
      }
      if n == -1 {
        v := sleepers;
        sleepers := [];
      } else {
        v := [];
        var left := n;
        while left > 0
          invariant 0 <= left <= n
          invariant |v| == n - left
          invariant v + sleepers == old(sleepers)
        {
          v := v + [sleepers[0]];
          sleepers := sleepers[1..];
          left := left - 1;
        }
      }
    }

    /** wq_wake_up_one: None is the abort on an empty queue. */
    method WakeUpOne() returns (v: Option<Tid>)
      modifies this
      ensures v.None? <==> old(sleepers) == []
      ensures v.None? ==> sleepers == []
      ensures v.Some? ==> old(sleepers) == [v.value] + sleepers
    {
      if |sleepers| < 1 {
        return None;
      }
      var woken := WakeUp(1);
      v := Some(woken[0]);
    }
  }
}
