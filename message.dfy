/**
 * k_send_message on the kernel snapshot of module Process.
 *
 * The envelope sits just below the message and is appended to the
 * destination's mailbox.  A destination blocked on receive (WAIT) becomes RDY
 * at the tail of its ready level.  When that level is numerically below the
 * sender's priority, the sender gives up the processor.  The call always
 * returns RTX_OK.  The in-place version, which writes the envelope words and
 * the mailbox ends, is `Kernel.Rtx.SendMessage`.
 */
module Message {
  import opened Links
  import opened Process

  /** The destination made RDY and appended to its ready level (processEnqueue, then the state change). */
  function Readied(k: KState, d: int): (r: KState)
    requires Shape(k) && 0 <= d < NUM_PROCS
    ensures Shape(r) && r.current == k.current && r.mail == k.mail && r.msp == k.msp
  {
    IndicesEnqueue(k.qs, ReadyPQ, d, k.pcbs[d].priority);
    StateShape(k, d, RDY, Enqueue(k.qs, ReadyPQ, d, k.pcbs[d].priority));
    k.(pcbs := k.pcbs[d := k.pcbs[d].(state := RDY)], qs := Enqueue(k.qs, ReadyPQ, d, k.pcbs[d].priority))
  }

  /**
   * The second half of k_send_message: a receiver `d` blocked on receive is
   * readied, and the running process yields to it when `d` is more urgent.
   */
  function Notify(k: KState, d: int): (r: KState)
    requires Shape(k) && 0 <= k.current < NUM_PROCS && 0 <= d < NUM_PROCS
    ensures Shape(r) && r.mail == k.mail
  {
    if k.pcbs[d].state != WAIT then k
    else
      var k2 := Readied(k, d);
      ReleaseOthers(k2);
      if k.pcbs[d].priority < k.pcbs[k.current].priority then Release(k2).0 else k2
  }

  /** k_send_message(dest, msg) with `env` the envelope of `msg`, sent by the running process. */
  function Send(k: KState, dest: int, env: int): (r: (KState, int))
    requires Shape(k) && 0 <= k.current < NUM_PROCS && 0 <= dest < NUM_PROCS
    ensures Shape(r.0) && r.1 == RTX_OK
  {
    (Notify(k.(mail := k.mail[dest := k.mail[dest] + [env]]), dest), RTX_OK)
  }

  /**
   * The envelope joins the tail of the destination's mailbox, behind the
   * messages already there, and every other mailbox is left as it was.
   */
  lemma SendDelivers(k: KState, dest: int, env: int)
    requires Shape(k) && 0 <= k.current < NUM_PROCS && 0 <= dest < NUM_PROCS
    ensures var m := Send(k, dest, env).0.mail;
      m[dest] == k.mail[dest] + [env] && forall x :: 0 <= x < NUM_PROCS && x != dest ==> m[x] == k.mail[x]
  {
    if k.pcbs[dest].state == WAIT {
      var k2 := Readied(k.(mail := k.mail[dest := k.mail[dest] + [env]]), dest);
      ReleaseOthers(k2);
    }
  }

  /** A destination that is not waiting keeps its PCB, and no queue and no running process changes. */
  lemma SendLeavesOthers(k: KState, dest: int, env: int)
    requires Shape(k) && 0 <= k.current < NUM_PROCS && 0 <= dest < NUM_PROCS && k.pcbs[dest].state != WAIT
    ensures var r := Send(k, dest, env).0;
      r.pcbs == k.pcbs && r.qs == k.qs && r.current == k.current && r.msp == k.msp
  {
  }

  /** A waiting destination is queued once more, at the tail of its ready level, with nothing else disturbed. */
  lemma WaitWoken(k: KState, d: int)
    requires Inv(k) && k.current != NIL && 0 <= d < NUM_PROCS && k.pcbs[d].state == WAIT
    ensures Inv(Readied(k, d))
    ensures Readied(k, d).qs[Slot(ReadyPQ, k.pcbs[d].priority)] == k.qs[Slot(ReadyPQ, k.pcbs[d].priority)] + [d]
  {
    var k' := Readied(k, d);
    var c := k.current;
    assert d != c && d !in Members(k.qs);
    Requeue1(k.pcbs, k.qs, d, Members(k.qs) + multiset{d});
    forall x | 0 <= x < NUM_PROCS && x != c
      ensures k'.pcbs[x].state != RUN && (x in Members(k'.qs) <==> k'.pcbs[x].state != WAIT)
    {
      assert Members(k'.qs)[x] == Members(k.qs)[x] + multiset{d}[x];
    }
    assert c !in Members(k'.qs) by {
      assert Members(k'.qs)[c] == Members(k.qs)[c] + multiset{d}[c];
    }
  }

  /** k_send_message keeps the kernel invariant. */
  lemma SendKeepsInv(k: KState, dest: int, env: int)
    requires Inv(k) && k.current != NIL && 0 <= dest < NUM_PROCS
    ensures Inv(Send(k, dest, env).0)
  {
    MailKeepsInv(k, dest, env);
    NotifyKeepsInv(k.(mail := k.mail[dest := k.mail[dest] + [env]]), dest);
  }

  /** The invariant does not look into the mailboxes. */
  lemma MailKeepsInv(k: KState, dest: int, env: int)
    requires Inv(k) && 0 <= dest < NUM_PROCS
    ensures Inv(k.(mail := k.mail[dest := k.mail[dest] + [env]]))
  {
  }

  lemma NotifyKeepsInv(k: KState, d: int)
    requires Inv(k) && k.current != NIL && 0 <= d < NUM_PROCS
    ensures Inv(Notify(k, d))
  {
    if k.pcbs[d].state == WAIT {
      WaitWoken(k, d);
      Yield(Readied(k, d));
    }
  }

  /**
   * With the running process yielding and a ready PCB `d` on a level
   * numerically below its priority, a different PCB runs afterwards, one at
   * least as urgent as `d`.
   */
  lemma Preempted(k: KState, d: int)
    requires Inv(k) && k.current != NIL && 0 <= d < NUM_PROCS
    requires 0 <= k.pcbs[d].priority < k.pcbs[k.current].priority && d in k.qs[Slot(ReadyPQ, k.pcbs[d].priority)]
    ensures Release(k).0.current != k.current && 0 <= Release(k).0.current < NUM_PROCS
    ensures k.pcbs[Release(k).0.current].priority <= k.pcbs[d].priority
  {
    var c := k.current;
    var dp, cp := k.pcbs[d].priority, k.pcbs[c].priority;
    var qs1 := Requeue(k);
    Requeued(k, RUN);
    assert qs1 == Enqueue(k.qs, ReadyPQ, c, cp);
    assert d in qs1[Slot(ReadyPQ, dp)];
    DequeueHighest(qs1, ReadyPQ);
    var (qs2, p) := Dequeue(qs1, ReadyPQ);
    var l :| 0 <= l < NUM_OF_PRIORITIES && qs1[Slot(ReadyPQ, l)] != [] && p == qs1[Slot(ReadyPQ, l)][0]
      && (forall i :: 0 <= i < l ==> qs1[Slot(ReadyPQ, i)] == []);
    assert l <= dp;
    assert Good(k.pcbs, Slot(ReadyPQ, l), qs1[Slot(ReadyPQ, l)][0]);
    assert p != c && k.pcbs[p].state in {NEW, RDY};
    assert Release(k).0.current == p;
  }

  /**
   * The sender loses the processor exactly when the destination was waiting
   * and its priority is numerically lower than the sender's; the process that
   * then runs is at least as urgent as the destination.
   */
  lemma SendPreempts(k: KState, dest: int, env: int)
    requires Inv(k) && k.current != NIL && 0 <= dest < NUM_PROCS
    ensures var r := Send(k, dest, env).0;
      && (r.current != k.current <==> k.pcbs[dest].state == WAIT && k.pcbs[dest].priority < k.pcbs[k.current].priority)
      && (r.current != k.current ==> 0 <= r.current < NUM_PROCS && k.pcbs[r.current].priority <= k.pcbs[dest].priority)
  {
    var k1 := k.(mail := k.mail[dest := k.mail[dest] + [env]]);
    assert Inv(k1);
    NotifyPreempts(k1, dest);
  }

  lemma NotifyPreempts(k: KState, d: int)
    requires Inv(k) && k.current != NIL && 0 <= d < NUM_PROCS
    ensures var r := Notify(k, d);
      && (r.current != k.current <==> k.pcbs[d].state == WAIT && k.pcbs[d].priority < k.pcbs[k.current].priority)
      && (r.current != k.current ==> 0 <= r.current < NUM_PROCS && k.pcbs[r.current].priority <= k.pcbs[d].priority)
  {
    if k.pcbs[d].state == WAIT && k.pcbs[d].priority < k.pcbs[k.current].priority {
      WakePreempts(k, d);
    }
  }

  /** Readying a waiting `d` more urgent than the running process hands the processor to a process as urgent as `d`. */
  lemma WakePreempts(k: KState, d: int)
    requires Inv(k) && k.current != NIL && 0 <= d < NUM_PROCS
    requires k.pcbs[d].state == WAIT && k.pcbs[d].priority < k.pcbs[k.current].priority
    ensures var r := Release(Readied(k, d)).0;
      r.current != k.current && 0 <= r.current < NUM_PROCS && k.pcbs[r.current].priority <= k.pcbs[d].priority
  {
    WaitWoken(k, d);
    var k2 := Readied(k, d);
    assert forall x :: 0 <= x < NUM_PROCS ==> k2.pcbs[x].priority == k.pcbs[x].priority;
    Preempted(k2, d);
  }

  /** A waiting destination is ready or running afterwards; any other keeps its state. */
  lemma SendWakes(k: KState, dest: int, env: int)
    requires Inv(k) && k.current != NIL && 0 <= dest < NUM_PROCS
    ensures var r := Send(k, dest, env).0;
      && (k.pcbs[dest].state == WAIT ==> r.pcbs[dest].state in {RDY, RUN} && (dest in Members(r.qs) || r.current == dest))
      && (k.pcbs[dest].state != WAIT ==> r.pcbs[dest] == k.pcbs[dest])
  {
    var k1 := k.(mail := k.mail[dest := k.mail[dest] + [env]]);
    assert Inv(k1);
    NotifyWakes(k1, dest);
  }

  lemma NotifyWakes(k: KState, d: int)
    requires Inv(k) && k.current != NIL && 0 <= d < NUM_PROCS
    ensures var r := Notify(k, d);
      && (k.pcbs[d].state == WAIT ==> r.pcbs[d].state in {RDY, RUN} && (d in Members(r.qs) || r.current == d))
      && (k.pcbs[d].state != WAIT ==> r.pcbs[d] == k.pcbs[d])
  {
    if k.pcbs[d].state == WAIT {
      WaitWoken(k, d);
      var k2 := Readied(k, d);
      if k.pcbs[d].priority < k.pcbs[k.current].priority {
        assert Notify(k, d) == Release(k2).0;
        ReadiedRuns(k2, d);
      } else {
        assert Notify(k, d) == k2;
        MemberOf(k2.qs, Slot(ReadyPQ, k.pcbs[d].priority), d);
      }
    }
  }

  /** A ready PCB other than the running one is, after a yield, still ready and queued, or running. */
  lemma ReadiedRuns(k: KState, d: int)
    requires Inv(k) && k.current != NIL && 0 <= d < NUM_PROCS && d != k.current && k.pcbs[d].state == RDY
    ensures var r := Release(k).0; r.pcbs[d].state in {RDY, RUN} && (d in Members(r.qs) || r.current == d)
  {
    Yield(k);
    ReleaseOthers(k);
  }
}
