/** Multiple-reader single-writer locks: src/pthr_rwlock.c. */
module RwLocks {
  import opened Common
  import opened WaitQueues

  datatype Mode = Reader | Writer

  /** `n` as the source counts it, the keys of the `pools` hash with the mode each thread entered in
      (the source does not store the mode), and the priority bit. */
  datatype Rw = Rw(n: int, holders: map<Tid, Mode>, writersFirst: bool)

  const FREE := Rw(0, map[], true)

  /** The counter tells the truth about who is inside. */
  ghost predicate Agree(rw: Rw) {
    || (rw.n == -1 && |rw.holders| == 1 && forall t :: t in rw.holders ==> rw.holders[t] == Writer)
    || (rw.n == |rw.holders| && forall t :: t in rw.holders ==> rw.holders[t] == Reader)
  }

  predicate MayRead(rw: Rw, nrWriters: nat) {
    rw.n >= 0 && (!rw.writersFirst || nrWriters == 0)
  }

  predicate MayWrite(rw: Rw) {
    rw.n == 0
  }

  function EnterRead(rw: Rw, t: Tid): Rw {
    rw.(n := rw.n + 1, holders := rw.holders[t := Reader])
  }

  function EnterWrite(rw: Rw, t: Tid): Rw {
    rw.(n := -1, holders := rw.holders[t := Writer])
  }

  /** Which queue a release wakes one thread of. */
  datatype Target = Nobody | OneWriter | OneReader

  datatype Release = Broken | Released(rw: Rw, target: Target)

  /** _do_release; Broken is its assert or its abort. */
  function DoRelease(rw: Rw, t: Tid, nrWriters: nat, nrReaders: nat): Release {
    if rw.n == 0 || t !in rw.holders then Broken
    else
      var left := rw.(holders := rw.holders - {t});
      if rw.n > 0 then
        Released(left.(n := rw.n - 1), if rw.n == 1 && nrWriters > 0 then OneWriter else Nobody)
      else
        Released(left.(n := 0),
                 if nrWriters > 0 then OneWriter else if nrReaders > 0 then OneReader else Nobody)
  }

  lemma EnterKeepsAgreement(rw: Rw, t: Tid)
    requires Agree(rw) && t !in rw.holders
    ensures rw.n >= 0 ==> Agree(EnterRead(rw, t))
    ensures rw.n == 0 ==> Agree(EnterWrite(rw, t))
  {
    assert rw.holders[t := Reader].Keys == rw.holders.Keys + {t};
    assert rw.holders[t := Writer].Keys == rw.holders.Keys + {t};
  }

  /** A holder's release never trips the assert or the abort, and keeps the count true. */
  lemma ReleaseKeepsAgreement(rw: Rw, t: Tid, nrWriters: nat, nrReaders: nat)
    requires Agree(rw) && t in rw.holders
    ensures DoRelease(rw, t, nrWriters, nrReaders).Released?
    ensures Agree(DoRelease(rw, t, nrWriters, nrReaders).rw)
  {
    assert (rw.holders - {t}).Keys == rw.holders.Keys - {t};
  }

  /** Exclusion: a writer inside is alone, and the counter separates the three cases. */
  lemma AgreementMeansExclusion(rw: Rw, w: Tid)
    requires Agree(rw)
    ensures rw.n == 0 <==> rw.holders == map[]
    ensures w in rw.holders && rw.holders[w] == Writer <==> rw.n == -1 && rw.holders == map[w := Writer]
    ensures rw.n > 0 ==> forall t :: t in rw.holders ==> rw.holders[t] == Reader
  {
    if w in rw.holders {
      assert |rw.holders.Keys - {w}| == |rw.holders| - 1;
      if rw.n == -1 {
        assert rw.holders.Keys == {w};
      }
    }
  }

  class RwLock {
    var n: int
    var holders: map<Tid, Mode>
    var writersFirst: bool
    const writersWq: WaitQueue
    const readersWq: WaitQueue

    ghost function View(): Rw
      reads this
    {
      Rw(n, holders, writersFirst)
    }

    constructor ()
      ensures View() == FREE
      ensures fresh(writersWq) && fresh(readersWq) && writersWq != readersWq
      ensures writersWq.sleepers == [] && readersWq.sleepers == []
    {
      n, holders, writersFirst := 0, map[], true;
      writersWq := new WaitQueue();
      readersWq := new WaitQueue();
    }

    method SetPriority(writers: bool)
      modifies this
      ensures View() == old(View()).(writersFirst := writers)
      ensures old(Agree(View())) ==> Agree(View())
    {
      writersFirst := writers;
    }

    method TryEnterRead(current: Tid) returns (entered: bool)
      modifies this
      ensures entered == old(MayRead(View(), |writersWq.sleepers|))
      ensures View() == if entered then EnterRead(old(View()), current) else old(View())
      ensures old(Agree(View())) && current !in old(holders) ==> Agree(View())
    {
      if current !in holders && Agree(View()) {
        EnterKeepsAgreement(View(), current);
      }
      if n >= 0 && (!writersFirst || |writersWq.sleepers| == 0) {
        holders := holders[current := Reader];
        n := n + 1;
        return true;
      }
      return false;
    }

    method TryEnterWrite(current: Tid) returns (entered: bool)
      modifies this
      ensures entered == old(MayWrite(View()))
      ensures View() == if entered then EnterWrite(old(View()), current) else old(View())
      ensures old(Agree(View())) && current !in old(holders) ==> Agree(View())
      ensures old(Agree(View())) && entered ==> holders == map[current := Writer]
    {
      if current !in holders && Agree(View()) {
        EnterKeepsAgreement(View(), current);
      }
      if Agree(View()) {
        AgreementMeansExclusion(View(), current);
      }
      if n == 0 {
        holders := holders[current := Writer];
        n := -1;
        return true;
      }
      return false;
    }

    /** rwlock_leave, and the cleanup that runs when the holder's pool is deleted.  None is an abort;
        otherwise the private wake list (empty when nobody is woken). */
    method Leave(t: Tid) returns (woken: Option<seq<Tid>>)
      requires Agree(View()) && writersWq != readersWq
      modifies this, writersWq, readersWq
      ensures woken.None? <==> t !in old(holders)
      ensures woken.None? ==> View() == old(View()) && unchanged(writersWq) && unchanged(readersWq)
      ensures var r := DoRelease(old(View()), t, old(|writersWq.sleepers|), old(|readersWq.sleepers|));
              woken.Some? ==>
                && r.Released? && View() == r.rw && Agree(View())
                && (r.target.Nobody? ==> woken.value == [])
                && (!r.target.Nobody? ==> |woken.value| == 1)
                && old(writersWq.sleepers) == (if r.target.OneWriter? then woken.value else []) + writersWq.sleepers
                && old(readersWq.sleepers) == (if r.target.OneReader? then woken.value else []) + readersWq.sleepers
    {
      if t !in holders {
        return None;
      }
      ReleaseKeepsAgreement(View(), t, |writersWq.sleepers|, |readersWq.sleepers|);
      holders := holders - {t};
      var v: seq<Tid> := [];
      if n > 0 {
        n := n - 1;
        if n == 0 {
          if |writersWq.sleepers| > 0 {
            v := writersWq.WakeUp(1);
          }
        }
      } else {
        n := 0;
        if |writersWq.sleepers| > 0 {
          v := writersWq.WakeUp(1);
        } else if |readersWq.sleepers| > 0 {
          v := readersWq.WakeUp(1);
        }
      }
      return Some(v);
    }
  }
}
