/** Mutual exclusion locks: src/pthr_mutex.c. */
module Mutexes {
  import opened Common
  import opened WaitQueues

  class Mutex {
    var pth: Option<Tid>
    const wq: WaitQueue

    constructor ()
      ensures pth == None && fresh(wq) && wq.sleepers == []
    {
      pth := None;
      wq := new WaitQueue();
    }

    method TryEnter(current: Tid) returns (entered: bool)
      modifies this
      ensures entered <==> old(pth) == None
      ensures pth == if entered then Some(current) else old(pth)
    {
      if pth == None {
        pth := Some(current);
        return true;
      }
      return false;
    }

    /** mutex_leave: None is its failed assert, otherwise the private wake list. */
    method Leave(current: Tid) returns (woken: Option<seq<Tid>>)
      modifies this, wq
      ensures woken.None? <==> old(pth) != Some(current)
      ensures woken.None? ==> unchanged(this) && unchanged(wq)
      ensures woken.Some? ==> pth == None && woken.value + wq.sleepers == old(wq.sleepers)
      ensures woken.Some? ==> |woken.value| == if old(wq.sleepers) == [] then 0 else 1
    {
      if pth != Some(current) {
        return None;
      }
      var v := Release();
      return Some(v);
    }

    /** _do_release: also runs when the holder's pool is deleted at thread exit. */
    method Release() returns (v: seq<Tid>)
      modifies this, wq
      ensures pth == None && v + wq.sleepers == old(wq.sleepers)
      ensures |v| == if old(wq.sleepers) == [] then 0 else 1
    {
      pth := None;
      v := [];
      if |wq.sleepers| > 0 {
        v := wq.WakeUp(1);
      }
    }
  }
}
