/**
 * The process-management globals of k_process.c as one object: the PCB
 * table `gp_pcbs`, the ReadyPQ and BlockPQ arrays of head/tail pairs, the
 * `nextPCB` links, `gp_current_process` and the main stack pointer; and the
 * mailbox ends of each PCB with the envelope words k_send_message writes.
 *
 * Every method relinks the queues in place and is proved to leave the
 * snapshot `Abs()` equal to the corresponding function of module Process on
 * the old snapshot, so the invariant lemmas proved there carry over.
 */
module Kernel {
  import opened Links
  import Ipc
  import opened Process
  import KMemory
  import Message

  const NULL: int := 0

  /**
   * The queue links are well formed: each slot's head/tail pair and `next`
   * spell out its list, no PCB is queued twice, every queued entry is a PCB
   * index, and a PCB outside every queue has a NULL `next`.
   */
  ghost predicate Lists(next: map<int, int>, pqs: seq<Ends>, qs: seq<seq<int>>) {
    && |pqs| == NUM_SLOTS && |qs| == NUM_SLOTS && Once(qs) && Indices(qs)
    && Threads(next, pqs, qs) && Unqueued(next, qs)
  }

  ghost predicate Threads(next: map<int, int>, pqs: seq<Ends>, qs: seq<seq<int>>)
    requires |pqs| == NUM_SLOTS && |qs| == NUM_SLOTS
  {
    forall s {:trigger IsList(next, NIL, pqs[s], qs[s])} :: 0 <= s < NUM_SLOTS ==> IsList(next, NIL, pqs[s], qs[s])
  }

  ghost predicate Unqueued(next: map<int, int>, qs: seq<seq<int>>) {
    && (forall x :: 0 <= x < NUM_PROCS ==> x in next)
    && (forall x {:trigger Members(qs)[x]} :: 0 <= x < NUM_PROCS && x !in Members(qs) ==> next[x] == NIL)
  }

  /** Every priority is a level and no two PCBs share a pid. */
  ghost predicate Ranked(pcbs: seq<Pcb>)
    requires |pcbs| == NUM_PROCS
  {
    && (forall x :: 0 <= x < NUM_PROCS ==> 0 <= pcbs[x].priority < NUM_OF_PRIORITIES)
    && (forall x, y :: 0 <= x < y < NUM_PROCS ==> pcbs[x].pid != pcbs[y].pid)
  }

  /** Outside slot `s`, a change of links at `changed` leaves every other slot's list as it was. */
  lemma OtherLists(next: map<int, int>, next': map<int, int>, pqs: seq<Ends>, qs: seq<seq<int>>, s: int, changed: set<int>)
    requires |pqs| == |qs| == NUM_SLOTS && 0 <= s < NUM_SLOTS && Once(qs) && Threads(next, pqs, qs)
    requires forall x :: x in next && x !in changed ==> x in next' && next'[x] == next[x]
    requires forall x :: x in changed ==> x in qs[s] || x !in Members(qs)
    ensures forall t :: 0 <= t < NUM_SLOTS && t != s ==> IsList(next', NIL, pqs[t], qs[t])
  {
    forall t | 0 <= t < NUM_SLOTS && t != s ensures IsList(next', NIL, pqs[t], qs[t]) {
      assert IsList(next, NIL, pqs[t], qs[t]);
      forall x | x in qs[t] ensures x in next' && next'[x] == next[x] {
        MemberOf(qs, t, x);
        if x in qs[s] {
          OnlyLevel(qs, s, t, x);
        }
        assert x in next by {
          var k :| 0 <= k < |qs[t]| && qs[t][k] == x;
        }
      }
      Frame(next, next', NIL, pqs[t], qs[t]);
    }
  }

  /** Replacing slot `s` by a new list `q` over links `next'` keeps the other slots' lists. */
  lemma ThreadsUpdate(next: map<int, int>, next': map<int, int>, pqs: seq<Ends>, qs: seq<seq<int>>, s: int, e: Ends, q: seq<int>, changed: set<int>)
    requires |pqs| == |qs| == NUM_SLOTS && 0 <= s < NUM_SLOTS && Once(qs) && Threads(next, pqs, qs)
    requires forall x :: x in next && x !in changed ==> x in next' && next'[x] == next[x]
    requires forall x :: x in changed ==> x in qs[s] || x !in Members(qs)
    requires IsList(next', NIL, e, q)
    ensures Threads(next', pqs[s := e], qs[s := q])
  {
    OtherLists(next, next', pqs, qs, s, changed);
    var pqs' := pqs[s := e];
    var qs' := qs[s := q];
    forall t | 0 <= t < NUM_SLOTS ensures IsList(next', NIL, pqs'[t], qs'[t]) {
      if t != s {
        assert pqs'[t] == pqs[t] && qs'[t] == qs[t];
      }
    }
  }

  /** What the links of one slot say about its list. */
  lemma SlotFacts(next: map<int, int>, pqs: seq<Ends>, qs: seq<seq<int>>, s: int)
    requires Lists(next, pqs, qs) && 0 <= s < NUM_SLOTS
    ensures IsList(next, NIL, pqs[s], qs[s])
    ensures pqs[s].head == NIL <==> qs[s] == []
    ensures pqs[s].head != NIL ==> pqs[s].head == qs[s][0] && 0 <= pqs[s].head < NUM_PROCS && pqs[s].head in next
    ensures pqs[s].head != NIL ==> (next[pqs[s].head] == NIL <==> |qs[s]| == 1)
    ensures pqs[s].head != NIL ==> (pqs[s].head == pqs[s].tail <==> |qs[s]| == 1)
  {
    var q := qs[s];
    assert IsList(next, NIL, pqs[s], q);
    if q != [] {
      assert 0 <= q[0] < NUM_PROCS;
      if |q| > 1 {
        assert next[q[0]] == q[1] && q[1] in q && q[0] != q[|q| - 1];
      }
    }
  }

  /** The links after processEnqueue of an unqueued PCB `p` on slot `s`. */
  lemma ListsAppend(next: map<int, int>, pqs: seq<Ends>, qs: seq<seq<int>>, s: int, p: int, next': map<int, int>, pqs': seq<Ends>)
    requires Lists(next, pqs, qs) && 0 <= s < NUM_SLOTS && 0 <= p < NUM_PROCS && p !in Members(qs)
    requires next' == if pqs[s].tail == NIL then next else next[pqs[s].tail := p]
    requires pqs' == pqs[s := Ends(if pqs[s].tail == NIL then p else pqs[s].head, p)]
    ensures Lists(next', pqs', qs[s := qs[s] + [p]])
  {
    var e := pqs[s];
    var e' := pqs'[s];
    var q := qs[s];
    assert IsList(next, NIL, e, q);
    var qs' := qs[s := q + [p]];
    assert p !in q by {
      if p in q {
        MemberOf(qs, s, p);
      }
    }
    Append(next, NIL, e, q, p);
    assert IsList(next', NIL, e', q + [p]);
    assert Threads(next', pqs', qs') by {
      ThreadsUpdate(next, next', pqs, qs, s, e', q + [p], if q == [] then {} else {q[|q| - 1]});
    }
    assert Members(qs') == Members(qs) + multiset{p} by {
      FlattenSnoc(qs, s, p);
    }
    Enqueued(qs, qs', p);
    assert Unqueued(next', qs') by {
      if q != [] {
        assert q[|q| - 1] in q;
        MemberOf(qs, s, q[|q| - 1]);
      }
      forall x | 0 <= x < NUM_PROCS && x !in Members(qs') ensures next'[x] == NIL {
        assert x !in Members(qs) && x != p;
      }
    }
    assert Indices(qs') by {
      forall t, j | 0 <= t < NUM_SLOTS && 0 <= j < |qs'[t]| ensures 0 <= qs'[t][j] < NUM_PROCS {
        if t != s || j < |q| {
          assert qs'[t][j] == qs[t][j];
        }
      }
    }
  }

  /**
   * The links after taking the head of a non-empty slot `s`, as processDequeue
   * does: the head's successor becomes the head (both ends NULL when there is
   * none) and the old head's link is cleared.
   */
  lemma ListsBehead(next: map<int, int>, pqs: seq<Ends>, qs: seq<seq<int>>, s: int, next': map<int, int>, pqs': seq<Ends>)
    requires Lists(next, pqs, qs) && 0 <= s < NUM_SLOTS && qs[s] != [] && pqs[s].head != NIL && pqs[s].head in next
    requires next' == next[pqs[s].head := NIL]
    requires pqs' == pqs[s := if next[pqs[s].head] == NIL then Ends(NIL, NIL) else Ends(next[pqs[s].head], pqs[s].tail)]
    ensures Lists(next', pqs', qs[s := qs[s][1..]])
    ensures var qs' := qs[s := qs[s][1..]];
      qs[s][0] !in Members(qs') && Members(qs') + multiset{qs[s][0]} == Members(qs)
  {
    SlotFacts(next, pqs, qs, s);
    var e := pqs[s];
    var e' := pqs'[s];
    var q := qs[s];
    var h := e.head;
    Pop(next, NIL, e, q);
    var qs' := qs[s := q[1..]];
    assert Distinct(q);
    assert h !in q[1..];
    Frame(next, next', NIL, e', q[1..]);
    assert Threads(next', pqs', qs') by {
      ThreadsUpdate(next, next', pqs, qs, s, e', q[1..], {h});
    }
    assert Members(qs') + multiset{h} == Members(qs) by {
      FlattenBehead(qs, s);
    }
    Dequeued(qs, qs', h);
    assert Unqueued(next', qs');
    assert Indices(qs') by {
      forall t, j | 0 <= t < NUM_SLOTS && 0 <= j < |qs'[t]| ensures 0 <= qs'[t][j] < NUM_PROCS {
        if t != s {
          assert qs'[t] == qs[t];
        } else {
          assert qs'[t][j] == q[j + 1];
        }
      }
    }
  }

  /**
   * The links after unlinking the member at position `j > 0` of slot `s`, as
   * the middle case of moveProcessToPriority does: its predecessor takes over
   * its successor (and the tail, if it was the tail), and its own link is cleared.
   */
  lemma ListsCut(next: map<int, int>, pqs: seq<Ends>, qs: seq<seq<int>>, s: int, j: int, next': map<int, int>, pqs': seq<Ends>)
    requires Lists(next, pqs, qs) && 0 <= s < NUM_SLOTS && 0 < j < |qs[s]| && qs[s][j] in next
    requires next' == next[qs[s][j - 1] := next[qs[s][j]]][qs[s][j] := NIL]
    requires pqs' == pqs[s := if qs[s][j] == pqs[s].tail then Ends(pqs[s].head, qs[s][j - 1]) else pqs[s]]
    ensures Lists(next', pqs', qs[s := qs[s][..j] + qs[s][j + 1..]])
    ensures var qs' := qs[s := qs[s][..j] + qs[s][j + 1..]];
      qs[s][j] !in Members(qs') && Members(qs') + multiset{qs[s][j]} == Members(qs)
  {
    var e := pqs[s];
    var q := qs[s];
    var p := q[j];
    assert IsList(next, NIL, e, q);
    CutList(next, e, q, j);
    var e' := pqs'[s];
    assert e' == Ends(e.head, if j == |q| - 1 then q[j - 1] else e.tail);
    var r := q[..j] + q[j + 1..];
    var qs' := qs[s := r];
    assert Members(qs') + multiset{p} == Members(qs) by {
      FlattenCut(qs, s, j);
    }
    Dequeued(qs, qs', p);
    assert Threads(next', pqs', qs') by {
      ThreadsUpdate(next, next', pqs, qs, s, e', r, {q[j - 1], p});
    }
    assert Unqueued(next', qs') by {
      MemberOf(qs', s, q[j - 1]);
      forall x | 0 <= x < NUM_PROCS && x !in Members(qs') ensures next'[x] == NIL {
        assert x !in Members(qs) || x == p;
      }
    }
    IndicesCut(qs, s, j);
  }

  /** Unlinking position `j > 0` of one list and clearing the unlinked member's link. */
  lemma CutList(next: map<int, int>, e: Ends, q: seq<int>, j: int)
    requires IsList(next, NIL, e, q) && 0 < j < |q|
    ensures q[j - 1] in next && next[q[j - 1]] == q[j] && q[j] in next
    ensures q[j] == e.tail <==> j == |q| - 1
    ensures q[j] !in q[..j] + q[j + 1..] && q[j - 1] in q[..j] + q[j + 1..]
    ensures IsList(next[q[j - 1] := next[q[j]]][q[j] := NIL], NIL,
                   Ends(e.head, if j == |q| - 1 then q[j - 1] else e.tail), q[..j] + q[j + 1..])
  {
    Unlink(next, NIL, e, q, j);
    var r := q[..j] + q[j + 1..];
    assert q[j] !in r by {
      forall i | 0 <= i < |r| ensures r[i] != q[j] {
        assert r[i] == if i < j then q[i] else q[i + 1];
      }
    }
    assert r[j - 1] == q[j - 1];
    Frame(next[q[j - 1] := next[q[j]]], next[q[j - 1] := next[q[j]]][q[j] := NIL], NIL,
          Ends(e.head, if j == |q| - 1 then q[j - 1] else e.tail), r);
  }

  /** Move, unfolded: the cut-and-append when `p` is on its old level, no change otherwise. */
  lemma MoveUnfold(k: KState, p: int, oldPriority: int)
    requires Shape(k) && 0 <= p < NUM_PROCS && 0 <= oldPriority < NUM_OF_PRIORITIES
    ensures var w := if k.pcbs[p].state == BLK then BlockPQ else ReadyPQ;
      var q := k.qs[Slot(w, oldPriority)];
      var j := IndexOf(q, p);
      && (p !in q ==> Move(k, p, oldPriority) == k)
      && (p in q ==>
            Move(k, p, oldPriority) == k.(qs := Enqueue(k.qs[Slot(w, oldPriority) := q[..j] + q[j + 1..]], w, p, k.pcbs[p].priority)))
  {
  }

  /** Wake, unfolded at the dequeued PCB. */
  lemma WakeUnfold(k: KState, qs: seq<seq<int>>, p: int)
    requires Shape(k) && !AllEmpty(k.qs, BlockPQ) && (qs, p) == Dequeue(k.qs, BlockPQ) && 0 <= p < NUM_PROCS
    ensures Process.Wake(k) == k.(pcbs := k.pcbs[p := k.pcbs[p].(state := RDY)], qs := Enqueue(qs, ReadyPQ, p, k.pcbs[p].priority))
  {
  }

  /** After an enqueue of a PCB that was in no queue, it is queued once and every other non-member stays one. */
  lemma Enqueued(qs0: seq<seq<int>>, qs: seq<seq<int>>, p: int)
    requires Once(qs0) && p !in Members(qs0) && Members(qs) == Members(qs0) + multiset{p}
    ensures Once(qs) && p in Members(qs)
    ensures forall x :: x !in Members(qs) ==> x !in Members(qs0) && x != p
  {
    forall x ensures multiset(Flatten(qs))[x] <= 1 {
      assert Members(qs)[x] == Members(qs0)[x] + multiset{p}[x];
    }
  }

  /** After a removal of `p`, the non-members are the old non-members and `p`. */
  lemma Dequeued(qs0: seq<seq<int>>, qs: seq<seq<int>>, p: int)
    requires Once(qs0) && Members(qs) + multiset{p} == Members(qs0)
    ensures Once(qs) && p !in Members(qs) && p in Members(qs0)
    ensures forall x :: x !in Members(qs) ==> x !in Members(qs0) || x == p
  {
    forall x ensures multiset(Flatten(qs))[x] <= 1 && (x !in Members(qs) ==> x !in Members(qs0) || x == p) {
      assert Members(qs)[x] + multiset{p}[x] == Members(qs0)[x];
    }
    assert Members(qs)[p] + 1 == Members(qs0)[p] <= 1;
  }

  /** A change of state keeps priorities and pids. */
  lemma RankedState(pcbs: seq<Pcb>, p: int, st: State)
    requires |pcbs| == NUM_PROCS && Ranked(pcbs) && 0 <= p < NUM_PROCS
    ensures Ranked(pcbs[p := pcbs[p].(state := st)])
  {
  }

  /** A new priority that is a level keeps priorities levels and pids distinct. */
  lemma RankedPriority(pcbs: seq<Pcb>, p: int, priority: int)
    requires |pcbs| == NUM_PROCS && Ranked(pcbs) && 0 <= p < NUM_PROCS && 0 <= priority < NUM_OF_PRIORITIES
    ensures Ranked(pcbs[p := pcbs[p].(priority := priority)])
  {
  }

  /** Taking `p` out and enqueueing it again keeps the members. */
  lemma Rejoined(qs0: seq<seq<int>>, qs1: seq<seq<int>>, qs2: seq<seq<int>>, w: Which, p: int, priority: int)
    requires |qs1| == NUM_SLOTS && 0 <= priority < NUM_OF_PRIORITIES
    requires Members(qs1) + multiset{p} == Members(qs0) && qs2 == Enqueue(qs1, w, p, priority)
    ensures Members(qs2) == Members(qs0)
  {
    EnqueueMembers(qs1, w, p, priority);
  }

  /** Empty slots over PCBs whose links are all NULL are well formed. */
  lemma EmptyLists(next: map<int, int>, pqs: seq<Ends>)
    requires |pqs| == NUM_SLOTS && forall s :: 0 <= s < NUM_SLOTS ==> pqs[s] == Ends(NIL, NIL)
    requires forall x :: 0 <= x < NUM_PROCS ==> x in next && next[x] == NIL
    ensures Lists(next, pqs, NoQueues())
  {
    var qs := NoQueues();
    FlattenEmpty(qs);
    Empty(next, NIL);
    assert Threads(next, pqs, qs) by {
      forall s | 0 <= s < NUM_SLOTS ensures IsList(next, NIL, pqs[s], qs[s]) {
        assert pqs[s] == Ends(NIL, NIL) && qs[s] == [];
      }
    }
  }

  /** `next` with the links of PCBs 0 .. n-1 set to NULL. */
  function Cleared(next: map<int, int>, n: int): map<int, int>
    decreases n
  {
    if n <= 0 then next else Cleared(next, n - 1)[n - 1 := NIL]
  }

  lemma {:induction false} ClearedAll(next: map<int, int>, n: int)
    ensures forall x :: 0 <= x < n ==> x in Cleared(next, n) && Cleared(next, n)[x] == NIL
  {
    if n > 0 {
      ClearedAll(next, n - 1);
    }
  }

  /** The PCBs process_init fills in have levels for priorities and distinct pids. */
  lemma InitRanked(pcbs: seq<Pcb>, t: seq<ProcInit>, sps: seq<int>)
    requires GoodTable(t) && |sps| == NUM_PROCS && pcbs == InitPcbs(t, sps)
    ensures Ranked(pcbs)
  {
  }

  /** A PCB dequeued from `qs0` and enqueued again leaves the same members. */
  lemma Requeued1(qs0: seq<seq<int>>, qs1: seq<seq<int>>, p: int, priority: int)
    requires |qs1| == NUM_SLOTS && 0 <= priority < NUM_OF_PRIORITIES && Members(qs1) + multiset{p} == Members(qs0)
    ensures Members(Enqueue(qs1, ReadyPQ, p, priority)) == Members(qs0)
  {
    EnqueueMembers(qs1, ReadyPQ, p, priority);
  }

  /**
   * Clearing a fresh envelope's `next` and appending it at the tail of mailbox
   * `d` (an empty mailbox gets it as head and tail) keeps every mailbox a
   * list, and no envelope in two of them.
   */
  lemma BoxAppend(next: map<int, int>, mbox: seq<Ends>, mail: seq<seq<int>>, d: int, env: int)
    requires |mbox| == NUM_PROCS && |mail| == NUM_PROCS && Once(mail)
    requires forall x :: 0 <= x < NUM_PROCS ==> IsList(next, NULL, mbox[x], mail[x])
    requires 0 <= d < NUM_PROCS && env != NULL && env !in Members(mail)
    ensures var e, n1 := mbox[d], next[env := NULL];
      var next' := if mail[d] == [] then n1 else n1[e.tail := env];
      var mbox' := mbox[d := Ends(if mail[d] == [] then env else e.head, env)];
      var mail' := mail[d := mail[d] + [env]];
      && env !in mail[d] && Once(mail')
      && forall x :: 0 <= x < NUM_PROCS ==> IsList(next', NULL, mbox'[x], mail'[x])
  {
    var e, q, n1 := mbox[d], mail[d], next[env := NULL];
    var next' := if q == [] then n1 else n1[e.tail := env];
    var mbox' := mbox[d := Ends(if q == [] then env else e.head, env)];
    var mail' := mail[d := q + [env]];
    forall y | 0 <= y < NUM_PROCS ensures env !in mail[y] && IsList(n1, NULL, mbox[y], mail[y]) {
      if env in mail[y] {
        MemberOf(mail, y, env);
      }
      Frame(next, n1, NULL, mbox[y], mail[y]);
    }
    Append(n1, NULL, e, q, env);
    forall y | 0 <= y < NUM_PROCS && y != d ensures IsList(next', NULL, mbox'[y], mail'[y]) {
      forall x | x in mail[y] ensures x in next' && next'[x] == n1[x] {
        if q != [] {
          assert e.tail in q;
          if x == e.tail {
            OnlyLevel(mail, d, y, x);
          }
        }
      }
      Frame(n1, next', NULL, mbox[y], mail[y]);
    }
    FlattenSnoc(mail, d, env);
    Enqueued(mail, mail', env);
  }

  /** Empty mailboxes with NULL ends are well formed. */
  lemma NoMailBoxed(envNext: map<int, int>, mbox: seq<Ends>)
    requires |mbox| == NUM_PROCS && forall x :: 0 <= x < NUM_PROCS ==> mbox[x] == Ends(NULL, NULL)
    ensures Once(NoMail()) && forall x :: 0 <= x < NUM_PROCS ==> IsList(envNext, NULL, mbox[x], NoMail()[x])
  {
    FlattenEmpty(NoMail());
    Empty(envNext, NULL);
  }

  lemma InitPcbsAre(pcbs: seq<Pcb>, t: seq<ProcInit>, gp: int)
    requires GoodTable(t) && 0 <= gp < Ipc.U32_LIMIT && |pcbs| == NUM_PROCS
    requires forall x :: 0 <= x < NUM_PROCS ==> pcbs[x] == Pcb(Below(GpAfter(t, gp, x), 8), t[x].pid, t[x].priority, NEW)
    ensures pcbs == InitPcbs(t, Sps(t, gp))
  {
  }

  class Rtx {
    /** The value part of each PCB of `gp_pcbs`. */
    var pcbs: seq<Pcb>
    /** `nextPCB` of each PCB. */
    var nextPCB: map<int, int>
    /** ReadyPQ[0..4] followed by BlockPQ[0..4]. */
    var pqs: seq<Ends>
    /** `gp_current_process`, as an index. */
    var current: int
    /** The main stack pointer, read by `__get_MSP` and written by `__set_MSP`. */
    var msp: int
    /** `msgHead` and `msgTail` of each PCB. */
    var mbox: seq<Ends>
    /** The `next`, `sender_id` and `recv_id` words of each envelope. */
    var envNext: map<int, int>
    var senderId: map<int, int>
    var recvId: map<int, int>
    /** The words process_init writes on the process stacks. */
    var ram: map<int, int>
    /** The process initialization table `g_proc_table`. */
    var procTable: seq<ProcInit>
    /** The contents of each queue slot and of each mailbox, head first. */
    ghost var qs: seq<seq<int>>
    ghost var mail: seq<seq<int>>

    ghost function Abs(): KState
      reads this
    {
      KState(pcbs, qs, current, msp, mail)
    }

    /** The queue links are well formed over PCBs whose priorities are levels and whose pids are distinct. */
    ghost predicate Linked()
      reads this
      ensures Linked() ==> Shape(Abs())
    {
      |pcbs| == NUM_PROCS && |mail| == NUM_PROCS && Ranked(pcbs) && Lists(nextPCB, pqs, qs)
    }

    /** Each mailbox is a NULL-terminated list through the envelopes' `next`, and no envelope is in two. */
    ghost predicate Boxed()
      reads this`mbox, this`mail, this`envNext
    {
      && |mbox| == NUM_PROCS && |mail| == NUM_PROCS && Once(mail)
      && (forall x :: 0 <= x < NUM_PROCS ==> IsList(envNext, NULL, mbox[x], mail[x]))
    }

    /**
     * process_init: fill the table (the null process first), give each PCB
     * its pid and priority, state NEW, NULL links and a fresh stack holding
     * its initial exception frame; empty every level; then enqueue the PCBs
     * on ReadyPQ in index order.  `gp_current_process` is not touched: it is
     * still NULL from its initializer.
     */
    method ProcessInit(tests: seq<ProcInit>, nullPc: int, mem: KMemory.Memory)
      requires |tests| == NUM_TEST_PROCS && GoodTable(ProcTable(tests, nullPc)) && mem.Valid() && current == NIL
      requires |procTable| == NUM_PROCS && |pcbs| == NUM_PROCS && |mbox| == NUM_PROCS && |pqs| == NUM_SLOTS
      modifies this, mem`gpStack
      ensures procTable == ProcTable(tests, nullPc)
      ensures mem.Valid() && mem.gpStack == GpAfter(procTable, old(mem.gpStack), NUM_PROCS)
      ensures ram == Frames(old(ram), procTable, old(mem.gpStack), NUM_PROCS)
      ensures Linked() && Boxed() && forall x :: 0 <= x < NUM_PROCS ==> mbox[x] == Ends(NULL, NULL)
      ensures Abs() == InitState(procTable, Sps(procTable, old(mem.gpStack)), old(msp))
    {
      ghost var gp, msp0 := mem.gpStack, msp;
      SetUpTable(tests, nullPc, mem);
      ghost var t, ps, g, rm, mb := procTable, pcbs, mem.gpStack, ram, mbox;
      InitQueues();
      assert pcbs == ps && procTable == t && mem.gpStack == g && ram == rm && mbox == mb && msp == msp0 && current == NIL;
      assert Abs() == KState(InitPcbs(t, Sps(t, gp)), InitQs(t, NUM_PROCS), NIL, msp0, NoMail());
    }

    /** The table and PCB part of process_init. */
    method SetUpTable(tests: seq<ProcInit>, nullPc: int, mem: KMemory.Memory)
      requires |tests| == NUM_TEST_PROCS && GoodTable(ProcTable(tests, nullPc)) && mem.Valid()
      requires |procTable| == NUM_PROCS && |pcbs| == NUM_PROCS && |mbox| == NUM_PROCS
      modifies this`procTable, this`pcbs, this`nextPCB, this`mbox, this`ram, mem`gpStack
      ensures procTable == ProcTable(tests, nullPc)
      ensures mem.Valid() && mem.gpStack == GpAfter(procTable, old(mem.gpStack), NUM_PROCS)
      ensures ram == Frames(old(ram), procTable, old(mem.gpStack), NUM_PROCS)
      ensures pcbs == InitPcbs(procTable, Sps(procTable, old(mem.gpStack))) && Ranked(pcbs)
      ensures forall x :: 0 <= x < NUM_PROCS ==> pcbs[x].priority == procTable[x].priority
      ensures forall x :: 0 <= x < NUM_PROCS ==> x in nextPCB && nextPCB[x] == NIL
      ensures |mbox| == NUM_PROCS && forall x :: 0 <= x < NUM_PROCS ==> mbox[x] == Ends(NULL, NULL)
    {
      FillTable(tests, nullPc);
      SetUpPcbs(mem);
      InitRanked(pcbs, procTable, Sps(procTable, old(mem.gpStack)));
    }

    /** The queue part of process_init: no mail, every level emptied, then every PCB enqueued on ReadyPQ. */
    method InitQueues()
      requires GoodTable(procTable) && |pcbs| == NUM_PROCS && Ranked(pcbs) && |pqs| == NUM_SLOTS
      requires forall x :: 0 <= x < NUM_PROCS ==> pcbs[x].priority == procTable[x].priority
      requires forall x :: 0 <= x < NUM_PROCS ==> x in nextPCB && nextPCB[x] == NIL
      requires |mbox| == NUM_PROCS && forall x :: 0 <= x < NUM_PROCS ==> mbox[x] == Ends(NULL, NULL)
      modifies this`nextPCB, this`pqs, this`qs, this`mail
      ensures Linked() && Boxed() && qs == InitQs(procTable, NUM_PROCS) && mail == NoMail()
    {
      ClearMail();
      ClearQueues();
      EnqueueAll();
    }

    /** Every mailbox starts empty. */
    method ClearMail()
      requires |mbox| == NUM_PROCS && forall x :: 0 <= x < NUM_PROCS ==> mbox[x] == Ends(NULL, NULL)
      modifies this`mail
      ensures mail == NoMail() && Boxed()
    {
      mail := NoMail();
      NoMailBoxed(envNext, mbox);
    }

    /** The first part of process_init: the null process's entry, then a copy of each test process's entry. */
    method FillTable(tests: seq<ProcInit>, nullPc: int)
      requires |tests| == NUM_TEST_PROCS && |procTable| == NUM_PROCS
      modifies this`procTable
      ensures procTable == ProcTable(tests, nullPc)
    {
      procTable := procTable[0 := ProcInit(0, NULL_PRIORITY, NULL_STACK_SIZE, nullPc)];
      for i := 1 to NUM_PROCS
        invariant |procTable| == NUM_PROCS && procTable[..i] == ProcTable(tests, nullPc)[..i]
      {
        procTable := procTable[i := tests[i - 1]];
      }
    }

    /** The PCB loop of process_init: pid, NEW, priority, NULL links, then a stack with its initial frame. */
    method SetUpPcbs(mem: KMemory.Memory)
      requires GoodTable(procTable) && mem.Valid() && |pcbs| == NUM_PROCS && |mbox| == NUM_PROCS
      modifies this`pcbs, this`nextPCB, this`mbox, this`ram, mem`gpStack
      ensures mem.Valid() && mem.gpStack == GpAfter(procTable, old(mem.gpStack), NUM_PROCS)
      ensures pcbs == InitPcbs(procTable, Sps(procTable, old(mem.gpStack)))
      ensures forall x :: 0 <= x < NUM_PROCS ==> x in nextPCB && nextPCB[x] == NIL
      ensures |mbox| == NUM_PROCS && forall x :: 0 <= x < NUM_PROCS ==> mbox[x] == Ends(NULL, NULL)
      ensures ram == Frames(old(ram), procTable, old(mem.gpStack), NUM_PROCS)
    {
      ghost var gp := mem.gpStack;
      for i := 0 to NUM_PROCS
        invariant |pcbs| == NUM_PROCS && |mbox| == NUM_PROCS && mem.Valid()
        invariant mem.gpStack == GpAfter(procTable, gp, i)
        invariant forall x :: 0 <= x < i ==> pcbs[x] == Pcb(Below(GpAfter(procTable, gp, x), 8), procTable[x].pid, procTable[x].priority, NEW)
        invariant nextPCB == Cleared(old(nextPCB), i)
        invariant forall x :: 0 <= x < i ==> mbox[x] == Ends(NULL, NULL)
        invariant ram == Frames(old(ram), procTable, gp, i)
      {
        SetUpPcb(i, mem, gp, old(ram), old(nextPCB));
      }
      ClearedAll(old(nextPCB), NUM_PROCS);
      InitPcbsAre(pcbs, procTable, gp);
    }

    /**
     * One round of that loop, for PCB `i`: its fields, its stack and its
     * frame, which extends the state the rounds before it left.
     */
    method SetUpPcb(i: int, mem: KMemory.Memory, ghost gp: int, ghost ram0: map<int, int>, ghost next0: map<int, int>)
      requires 0 <= i < NUM_PROCS && GoodTable(procTable) && mem.Valid() && |pcbs| == NUM_PROCS && |mbox| == NUM_PROCS
      requires 0 <= gp < Ipc.U32_LIMIT && mem.gpStack == GpAfter(procTable, gp, i)
      requires forall x :: 0 <= x < i ==> pcbs[x] == Pcb(Below(GpAfter(procTable, gp, x), 8), procTable[x].pid, procTable[x].priority, NEW)
      requires nextPCB == Cleared(next0, i)
      requires forall x :: 0 <= x < i ==> mbox[x] == Ends(NULL, NULL)
      requires ram == Frames(ram0, procTable, gp, i)
      modifies this`pcbs, this`nextPCB, this`mbox, this`ram, mem`gpStack
      ensures pcbs == old(pcbs)[i := Pcb(Below(old(mem.gpStack), 8), procTable[i].pid, procTable[i].priority, NEW)]
      ensures nextPCB == old(nextPCB)[i := NIL] && mbox == old(mbox)[i := Ends(NULL, NULL)]
      ensures |pcbs| == NUM_PROCS && |mbox| == NUM_PROCS && mem.Valid()
      ensures mem.gpStack == GpAfter(procTable, gp, i + 1)
      ensures forall x :: 0 <= x < i + 1 ==> pcbs[x] == Pcb(Below(GpAfter(procTable, gp, x), 8), procTable[x].pid, procTable[x].priority, NEW)
      ensures nextPCB == Cleared(next0, i + 1)
      ensures forall x :: 0 <= x < i + 1 ==> mbox[x] == Ends(NULL, NULL)
      ensures ram == Frames(ram0, procTable, gp, i + 1)
    {
      pcbs := pcbs[i := pcbs[i].(pid := procTable[i].pid, state := NEW, priority := procTable[i].priority)];
      nextPCB := nextPCB[i := NIL];
      mbox := mbox[i := Ends(NULL, NULL)];
      var top := mem.AllocStack(procTable[i].stackSize);
      var sp := PushFrame(top, procTable[i].pc);
      pcbs := pcbs[i := pcbs[i].(sp := sp)];
    }

    /** Push the initial exception frame below `top`, one word at a time, and return the lowered stack pointer. */
    method PushFrame(top: int, pc: int) returns (sp: int)
      modifies this`ram
      ensures sp == Below(top, 8) && ram == InitFrame(old(ram), top, pc)
    {
      sp := Ipc.Wrap(top - 4);
      ram := ram[sp := INITIAL_XPSR];
      BelowNext(top, 1);
      sp := Ipc.Wrap(sp - 4);
      ram := ram[sp := pc];
      for j := 2 to 8
        invariant sp == Below(top, j) && ram == PushWords(old(ram), top, pc, j)
      {
        BelowNext(top, j);
        sp := Ipc.Wrap(sp - 4);
        ram := ram[sp := 0];
      }
    }

    /** The level loop of process_init: both ends of every ReadyPQ and BlockPQ level become NULL. */
    method ClearQueues()
      requires |pqs| == NUM_SLOTS && forall x :: 0 <= x < NUM_PROCS ==> x in nextPCB && nextPCB[x] == NIL
      modifies this`pqs, this`qs
      ensures |pqs| == NUM_SLOTS && (forall s :: 0 <= s < NUM_SLOTS ==> pqs[s] == Ends(NIL, NIL)) && qs == NoQueues()
      ensures Lists(nextPCB, pqs, qs)
    {
      for i := 0 to NUM_OF_PRIORITIES
        invariant |pqs| == NUM_SLOTS
        invariant forall l :: 0 <= l < i ==> pqs[Slot(ReadyPQ, l)] == Ends(NIL, NIL) && pqs[Slot(BlockPQ, l)] == Ends(NIL, NIL)
      {
        pqs := pqs[Slot(ReadyPQ, i) := Ends(NIL, NIL)];
        pqs := pqs[Slot(BlockPQ, i) := Ends(NIL, NIL)];
      }
      forall s | 0 <= s < NUM_SLOTS ensures pqs[s] == Ends(NIL, NIL) {
        if s < NUM_OF_PRIORITIES {
          assert s == Slot(ReadyPQ, s);
        } else {
          assert s == Slot(BlockPQ, s - NUM_OF_PRIORITIES);
        }
      }
      qs := NoQueues();
      EmptyLists(nextPCB, pqs);
    }

    /** The last loop of process_init: processEnqueue(ReadyPQ, gp_pcbs[i]) for i = 0 .. 6. */
    method EnqueueAll()
      requires Lists(nextPCB, pqs, qs) && qs == NoQueues() && GoodTable(procTable) && |pcbs| == NUM_PROCS
      requires forall x :: 0 <= x < NUM_PROCS ==> pcbs[x].priority == procTable[x].priority
      modifies this`nextPCB, this`pqs, this`qs
      ensures Lists(nextPCB, pqs, qs) && qs == InitQs(procTable, NUM_PROCS)
    {
      for i := 0 to NUM_PROCS
        invariant Lists(nextPCB, pqs, qs) && qs == InitQs(procTable, i)
      {
        InitMembers(procTable, i);
        assert Members(qs)[i] == 0;
        ProcessEnqueue(ReadyPQ, i);
      }
    }

    /** processEnqueue(pq, p): append `p` at the tail of the level of its priority. */
    method ProcessEnqueue(w: Which, p: int)
      requires Lists(nextPCB, pqs, qs) && 0 <= p < NUM_PROCS && p !in Members(qs)
      requires |pcbs| == NUM_PROCS && 0 <= pcbs[p].priority < NUM_OF_PRIORITIES
      modifies this`nextPCB, this`pqs, this`qs
      ensures Lists(nextPCB, pqs, qs) && qs == Enqueue(old(qs), w, p, pcbs[p].priority)
    {
      var s := Slot(w, pcbs[p].priority);
      if pqs[s].tail == NIL {
        pqs := pqs[s := Ends(p, p)];
      } else {
        nextPCB := nextPCB[pqs[s].tail := p];
        pqs := pqs[s := Ends(pqs[s].head, p)];
      }
      qs := qs[s := qs[s] + [p]];
      ListsAppend(old(nextPCB), old(pqs), old(qs), s, p, nextPCB, pqs);
    }

    /** processDequeue(pq): unlink the head of the highest non-empty level, or NIL. */
    method ProcessDequeue(w: Which) returns (p: int)
      requires Lists(nextPCB, pqs, qs)
      modifies this`nextPCB, this`pqs, this`qs
      ensures Lists(nextPCB, pqs, qs) && (qs, p) == Dequeue(old(qs), w)
      ensures p != NIL ==> 0 <= p < NUM_PROCS && p !in Members(qs) && Members(qs) + multiset{p} == Members(old(qs))
    {
      for i := 0 to NUM_OF_PRIORITIES
        invariant qs == old(qs) && pqs == old(pqs) && nextPCB == old(nextPCB)
        invariant forall l :: 0 <= l < i ==> qs[Slot(w, l)] == []
      {
        SlotFacts(nextPCB, pqs, qs, Slot(w, i));
        if pqs[Slot(w, i)].head != NIL {
          assert First(qs, w, 0) == i;
          p := Behead(Slot(w, i));
          return;
        }
      }
      p := NIL;
    }

    /** The body of processDequeue at a non-empty level: unlink its head, clear its link, empty the tail with the level. */
    method Behead(s: int) returns (p: int)
      requires Lists(nextPCB, pqs, qs) && 0 <= s < NUM_SLOTS && pqs[s].head != NIL
      modifies this`nextPCB, this`pqs, this`qs
      ensures old(qs)[s] != [] && p == old(qs)[s][0] && 0 <= p < NUM_PROCS
      ensures Lists(nextPCB, pqs, qs) && qs == old(qs)[s := old(qs)[s][1..]]
      ensures p !in Members(qs) && Members(qs) + multiset{p} == Members(old(qs))
    {
      SlotFacts(nextPCB, pqs, qs, s);
      p := pqs[s].head;
      pqs := pqs[s := Ends(nextPCB[p], pqs[s].tail)];
      nextPCB := nextPCB[p := NIL];
      if pqs[s].head == NIL {
        pqs := pqs[s := Ends(NIL, NIL)];
      }
      qs := qs[s := qs[s][1..]];
      ListsBehead(old(nextPCB), old(pqs), old(qs), s, nextPCB, pqs);
    }

    /** queueIsEmpty(pq): 1 when every level of `w` is empty, 0 otherwise. */
    method QueueIsEmpty(w: Which) returns (r: int)
      requires Lists(nextPCB, pqs, qs)
      ensures r == (if AllEmpty(qs, w) then 1 else 0)
    {
      for i := 0 to NUM_OF_PRIORITIES
        invariant forall l :: 0 <= l < i ==> qs[Slot(w, l)] == []
      {
        SlotFacts(nextPCB, pqs, qs, Slot(w, i));
        if pqs[Slot(w, i)].head != NIL {
          return 0;
        }
      }
      return 1;
    }

    /** blockPQIsEmpty: whether no process is blocked. */
    method BlockPQIsEmpty() returns (r: int)
      requires Lists(nextPCB, pqs, qs)
      ensures r == (if AllEmpty(qs, BlockPQ) then 1 else 0)
    {
      r := QueueIsEmpty(BlockPQ);
    }

    /**
     * scheduler, corrected: a BLK current process joins BlockPQ, a RDY or RUN
     * one (it yields) joins ReadyPQ; then the head of the highest ready level.
     */
    method Scheduler() returns (p: int)
      requires Linked() && (current == NIL || (0 <= current < NUM_PROCS && current !in Members(qs)))
      modifies this`nextPCB, this`pqs, this`qs
      ensures Linked() && (Abs(), p) == Schedule(old(Abs()))
    {
      if current != NIL {
        if pcbs[current].state == BLK {
          ProcessEnqueue(BlockPQ, current);
        } else if pcbs[current].state == RDY || pcbs[current].state == RUN {
          ProcessEnqueue(ReadyPQ, current);
        }
      }
      p := ProcessDequeue(ReadyPQ);
    }

    /**
     * process_switch(p_pcb_old) with `current` already the incoming PCB.  A
     * NEW one starts (`__rte` does not come back); a RDY one resumes; the
     * outgoing PCB keeps BLK or WAIT and otherwise becomes RDY, and gets the
     * saved stack pointer; any other incoming state reverts to the old PCB.
     */
    method ProcessSwitch(prev: int) returns (r: int)
      requires Linked() && 0 <= current < NUM_PROCS && 0 <= prev < NUM_PROCS
      modifies this`pcbs, this`current, this`msp
      ensures Linked() && (Abs(), r) == Switch(old(Abs()), prev)
    {
      var state := pcbs[current].state;
      if state == NEW {
        if current != prev && pcbs[prev].state != NEW {
          SwitchOut(prev);
        }
        pcbs := pcbs[current := pcbs[current].(state := RUN)];
        msp := pcbs[current].sp;
        return RTX_OK;
      }
      if current != prev {
        if state == RDY {
          SwitchOut(prev);
          pcbs := pcbs[current := pcbs[current].(state := RUN)];
          msp := pcbs[current].sp;
        } else {
          current := prev;
          return RTX_ERR;
        }
      }
      return RTX_OK;
    }

    /** The outgoing half of process_switch: BLK and WAIT stay, anything else becomes RDY; the stack pointer is saved. */
    method SwitchOut(prev: int)
      requires 0 <= prev < |pcbs|
      modifies this`pcbs
      ensures pcbs == old(pcbs)[prev := Outgoing(old(pcbs)[prev], msp)]
    {
      if pcbs[prev].state != BLK && pcbs[prev].state != WAIT {
        pcbs := pcbs[prev := pcbs[prev].(state := RDY)];
      }
      pcbs := pcbs[prev := pcbs[prev].(sp := msp)];
    }

    /** k_release_processor: schedule and switch; with nothing ready the old process stays, with RTX_ERR. */
    method ReleaseProcessor() returns (r: int)
      requires Linked() && (current == NIL || (0 <= current < NUM_PROCS && current !in Members(qs)))
      modifies this`nextPCB, this`pqs, this`qs, this`pcbs, this`current, this`msp
      ensures Linked() && (Abs(), r) == Release(old(Abs()))
    {
      var prev := current;
      current := Scheduler();
      if current == NIL {
        current := prev;
        return RTX_ERR;
      }
      if prev == NIL {
        prev := current;
      }
      var switched := ProcessSwitch(prev);
      return RTX_OK;
    }

    /** makeReady: the head of the highest blocked level becomes RDY and joins ReadyPQ; then a yield. */
    method MakeReady()
      requires Linked() && (current == NIL || (0 <= current < NUM_PROCS && current !in Members(qs)))
      requires !AllEmpty(qs, BlockPQ)
      modifies this`nextPCB, this`pqs, this`qs, this`pcbs, this`current, this`msp
      ensures Linked() && Abs() == Process.MakeReady(old(Abs())).0
    {
      Wake();
      var released := ReleaseProcessor();
    }

    /** The first half of makeReady: dequeue from BlockPQ, mark RDY, enqueue on ReadyPQ. */
    method Wake()
      requires Linked() && (current == NIL || (0 <= current < NUM_PROCS && current !in Members(qs)))
      requires !AllEmpty(qs, BlockPQ)
      modifies this`nextPCB, this`pqs, this`qs, this`pcbs
      ensures Linked() && (current == NIL || current !in Members(qs))
      ensures Abs() == Process.Wake(old(Abs()))
    {
      ghost var k0 := Abs();
      var p := Unblock();
      ghost var qs1 := qs;
      ProcessEnqueue(ReadyPQ, p);
      Requeued1(k0.qs, qs1, p, k0.pcbs[p].priority);
      WakeUnfold(k0, qs1, p);
    }

    /** Takes the first PCB off the highest non-empty BlockPQ level and marks it RDY. */
    method Unblock() returns (p: int)
      requires Linked() && !AllEmpty(qs, BlockPQ)
      modifies this`nextPCB, this`pqs, this`qs, this`pcbs
      ensures |pcbs| == NUM_PROCS && Ranked(pcbs) && Lists(nextPCB, pqs, qs) && (qs, p) == Dequeue(old(qs), BlockPQ)
      ensures 0 <= p < NUM_PROCS && p !in Members(qs) && Members(qs) + multiset{p} == Members(old(qs))
      ensures pcbs == old(pcbs)[p := old(pcbs)[p].(state := RDY)]
    {
      p := ProcessDequeue(BlockPQ);
      assert p != NIL by {
        DequeueHighest(old(qs), BlockPQ);
      }
      RankedState(pcbs, p, RDY);
      pcbs := pcbs[p := pcbs[p].(state := RDY)];
    }

    /** makeBlock: the running process becomes BLK and gives up the processor. */
    method MakeBlock()
      requires Linked() && 0 <= current < NUM_PROCS && current !in Members(qs)
      modifies this`nextPCB, this`pqs, this`qs, this`pcbs, this`current, this`msp
      ensures Linked() && Abs() == Process.MakeBlock(old(Abs())).0
    {
      pcbs := pcbs[current := pcbs[current].(state := BLK)];
      var released := ReleaseProcessor();
    }

    /**
     * moveProcessToPriority, corrected: unlink `p` from its old level
     * (BlockPQ if it is BLK, else ReadyPQ) and append it to the level of its
     * current priority; a PCB not found on the old level is left alone.
     */
    method MoveProcessToPriority(p: int, oldPriority: int)
      requires Linked() && 0 <= p < NUM_PROCS && 0 <= oldPriority < NUM_OF_PRIORITIES
      modifies this`nextPCB, this`pqs, this`qs
      ensures Linked() && Abs() == Move(old(Abs()), p, oldPriority)
      ensures Members(qs) == Members(old(qs))
    {
      var w := if pcbs[p].state == BLK then BlockPQ else ReadyPQ;
      ghost var k0 := Abs();
      var found := Detach(Slot(w, oldPriority), p);
      ghost var qs1 := qs;
      if found {
        Rejoin(w, p, k0.qs);
      }
      assert Abs() == k0.(qs := qs);
      assert qs == if found then Enqueue(qs1, w, p, k0.pcbs[p].priority) else k0.qs;
      MoveUnfold(k0, p, oldPriority);
    }

    /** The second half of moveProcessToPriority: the unlinked `p` is appended to the level of its new priority. */
    method Rejoin(w: Which, p: int, ghost qs0: seq<seq<int>>)
      requires Lists(nextPCB, pqs, qs) && 0 <= p < NUM_PROCS && p !in Members(qs) && Members(qs) + multiset{p} == Members(qs0)
      requires |pcbs| == NUM_PROCS && 0 <= pcbs[p].priority < NUM_OF_PRIORITIES
      modifies this`nextPCB, this`pqs, this`qs
      ensures Lists(nextPCB, pqs, qs) && qs == Enqueue(old(qs), w, p, pcbs[p].priority) && Members(qs) == Members(qs0)
    {
      ProcessEnqueue(w, p);
      Rejoined(qs0, old(qs), qs, w, p, pcbs[p].priority);
    }

    /**
     * The removal half of moveProcessToPriority on level slot `s`: an empty
     * level, or a single PCB that is not `p`, gives up; a single `p` or a head
     * `p` is taken off the front; otherwise the level is walked for `p`'s
     * predecessor.  A removed `p` gets a NULL link.
     */
    method Detach(s: int, p: int) returns (found: bool)
      requires Lists(nextPCB, pqs, qs) && 0 <= s < NUM_SLOTS && 0 <= p < NUM_PROCS
      modifies this`nextPCB, this`pqs, this`qs
      ensures found <==> p in old(qs)[s]
      ensures !found ==> nextPCB == old(nextPCB) && pqs == old(pqs) && qs == old(qs)
      ensures found ==> Lists(nextPCB, pqs, qs) && p !in Members(qs) && Members(qs) + multiset{p} == Members(old(qs))
      ensures found ==> var q := old(qs)[s]; var j := IndexOf(q, p); qs == old(qs)[s := q[..j] + q[j + 1..]]
    {
      ghost var q, next0, pqs0, qs0 := qs[s], nextPCB, pqs, qs;
      SlotFacts(nextPCB, pqs, qs, s);
      if pqs[s].head == NIL {
        return false;
      } else if pqs[s].head == pqs[s].tail {
        if p != pqs[s].head {
          return false;
        }
        pqs := pqs[s := Ends(NIL, NIL)];
      } else if pqs[s].head == p {
        pqs := pqs[s := Ends(nextPCB[p], pqs[s].tail)];
      } else {
        found := DetachInner(s, p);
        return;
      }
      nextPCB := nextPCB[p := NIL];
      assert q[0] == p && IndexOf(q, p) == 0 && q[..0] + q[1..] == q[1..];
      qs := qs[s := q[1..]];
      ListsBehead(next0, pqs0, qs0, s, nextPCB, pqs);
      assert Lists(nextPCB, pqs, qs);
      return true;
    }

    /** Unlink `p` at position `j > 0` of slot `s`: its predecessor `cur` takes over its successor (and the tail). */
    method Splice(s: int, ghost j: int, cur: int, p: int)
      requires Lists(nextPCB, pqs, qs) && 0 <= s < NUM_SLOTS && 0 < j < |qs[s]| && cur == qs[s][j - 1] && p == qs[s][j]
      modifies this`nextPCB, this`pqs, this`qs
      ensures Lists(nextPCB, pqs, qs) && qs == old(qs)[s := old(qs)[s][..j] + old(qs)[s][j + 1..]]
      ensures p !in Members(qs) && Members(qs) + multiset{p} == Members(old(qs))
    {
      ghost var next0, pqs0, qs0 := nextPCB, pqs, qs;
      nextPCB := nextPCB[cur := nextPCB[p]];
      if p == pqs[s].tail {
        pqs := pqs[s := Ends(pqs[s].head, cur)];
      }
      nextPCB := nextPCB[p := NIL];
      qs := qs[s := qs[s][..j] + qs[s][j + 1..]];
      ListsCut(next0, pqs0, qs0, s, j, nextPCB, pqs);

    }

    /**
     * k_set_process_priority: look for `pid` among the PCBs after the null
     * process; a changed priority is stored, the PCB moved to its new level
     * unless it is the running one, and the processor released.
     */
    method SetProcessPriority(pid: int, priority: int) returns (r: int)
      requires Linked() && 0 <= current < NUM_PROCS && current !in Members(qs)
      modifies this`nextPCB, this`pqs, this`qs, this`pcbs, this`current, this`msp
      ensures Linked() && (Abs(), r) == SetPriority(old(Abs()), pid, priority)
    {
      if 0 <= priority < NUM_OF_PRIORITIES - 1 {
        for i := 1 to NUM_PROCS
          invariant Abs() == old(Abs()) && nextPCB == old(nextPCB) && pqs == old(pqs)
          invariant forall j :: 1 <= j < i ==> pcbs[j].pid != pid
        {
          if pcbs[i].pid == pid {
            assert IndexOfPid(pcbs, pid, 1) == i;
            if pcbs[i].priority != priority {
              ghost var k0 := Abs();
              var oldPriority := pcbs[i].priority;
              RankedPriority(pcbs, i, priority);
              pcbs := pcbs[i := pcbs[i].(priority := priority)];
              ghost var k1 := Abs();
              assert k1 == k0.(pcbs := k0.pcbs[i := k0.pcbs[i].(priority := priority)]);
              if pid != pcbs[current].pid {
                MoveProcessToPriority(i, oldPriority);
              }
              ghost var k2 := Abs();
              assert k2 == if pid != k0.pcbs[k0.current].pid then Move(k1, i, oldPriority) else k1;
              var released := ReleaseProcessor();
              SetPriorityUnfold(k0, pid, priority, i);
            }
            return RTX_OK;
          }
        }
      }
      return RTX_ERR;
    }

    /** k_get_process_priority: the priority of the first PCB with id `pid`, or -1. */
    method GetProcessPriority(pid: int) returns (r: int)
      requires |pcbs| == NUM_PROCS
      ensures r == GetPriority(Abs(), pid)
    {
      for i := 0 to NUM_PROCS
        invariant forall j :: 0 <= j < i ==> pcbs[j].pid != pid
      {
        if pcbs[i].pid == pid {
          assert IndexOfPid(pcbs, pid, 0) == i;
          return pcbs[i].priority;
        }
      }
      return -1;
    }

    /**
     * k_send_message(process_id, message_envelope): the envelope just below
     * the message gets a NULL `next`, the sender's pid and the receiver and
     * joins the tail of the receiver's mailbox; a receiver blocked on receive
     * joins ReadyPQ as RDY and, when more urgent than the sender, takes over
     * the processor.
     */
    method SendMessage(processId: int, messageEnvelope: int) returns (r: int)
      requires Linked() && Boxed() && Inv(Abs()) && current != NIL && 0 <= processId < NUM_PROCS
      requires Ipc.MsgBufToEnvelope(messageEnvelope) != NULL && Ipc.MsgBufToEnvelope(messageEnvelope) !in Members(mail)
      modifies this`envNext, this`senderId, this`recvId, this`mbox, this`mail
      modifies this`nextPCB, this`pqs, this`qs, this`pcbs, this`current, this`msp
      ensures Linked() && Boxed() && Inv(Abs())
      ensures (Abs(), r) == Message.Send(old(Abs()), processId, Ipc.MsgBufToEnvelope(messageEnvelope))
      ensures var env := Ipc.MsgBufToEnvelope(messageEnvelope);
        senderId == old(senderId)[env := old(pcbs)[old(current)].pid] && recvId == old(recvId)[env := processId]
    {
      ghost var k0 := Abs();
      var env := Ipc.MsgBufToEnvelope(messageEnvelope);
      Deliver(processId, env);
      assert Abs() == k0.(mail := k0.mail[processId := k0.mail[processId] + [env]]);
      Message.MailKeepsInv(k0, processId, env);
      Notify(processId);
      return RTX_OK;
    }

    /** The first half of k_send_message: fill in the envelope and append it to the receiver's mailbox. */
    method Deliver(d: int, env: int)
      requires Boxed() && 0 <= current < |pcbs| && 0 <= d < NUM_PROCS && env != NULL && env !in Members(mail)
      modifies this`envNext, this`senderId, this`recvId, this`mbox, this`mail
      ensures Boxed() && mail == old(mail)[d := old(mail)[d] + [env]]
      ensures senderId == old(senderId)[env := pcbs[current].pid] && recvId == old(recvId)[env := d]
    {
      senderId := senderId[env := pcbs[current].pid];
      recvId := recvId[env := d];
      Post(d, env);
    }

    /** The second half of k_send_message: ready a receiver blocked on receive and yield to it if it is more urgent. */
    method Notify(d: int)
      requires Linked() && Inv(Abs()) && current != NIL && 0 <= d < NUM_PROCS
      modifies this`nextPCB, this`pqs, this`qs, this`pcbs, this`current, this`msp
      ensures Linked() && Inv(Abs()) && Abs() == Message.Notify(old(Abs()), d)
    {
      Message.NotifyKeepsInv(Abs(), d);
      if pcbs[d].state == WAIT {
        WakeReceiver(d);
        if pcbs[d].priority < pcbs[current].priority {
          var released := ReleaseProcessor();
        }
      }
    }

    /** The receiver, blocked on receive, joins the tail of its ready level and becomes RDY. */
    method WakeReceiver(d: int)
      requires Linked() && Inv(Abs()) && current != NIL && 0 <= d < NUM_PROCS && pcbs[d].state == WAIT
      modifies this`nextPCB, this`pqs, this`qs, this`pcbs
      ensures Linked() && Inv(Abs()) && Abs() == Message.Readied(old(Abs()), d)
    {
      ghost var k1 := Abs();
      Message.WaitWoken(k1, d);
      ProcessEnqueue(ReadyPQ, d);
      RankedState(pcbs, d, RDY);
      pcbs := pcbs[d := pcbs[d].(state := RDY)];
    }

    /** Sets the `next` of envelope `env` to NULL and appends it at the tail of mailbox `d`. */
    method Post(d: int, env: int)
      requires Boxed() && 0 <= d < NUM_PROCS && env != NULL && env !in Members(mail)
      modifies this`envNext, this`mbox, this`mail
      ensures Boxed() && mail == old(mail)[d := old(mail)[d] + [env]]
      ensures env in envNext && envNext[env] == NULL
    {
      BoxAppend(envNext, mbox, mail, d, env);
      assert IsList(envNext, NULL, mbox[d], mail[d]);
      envNext := envNext[env := NULL];
      if mbox[d].tail == NULL {
        mbox := mbox[d := Ends(env, env)];
      } else {
        envNext := envNext[mbox[d].tail := env];
        mbox := mbox[d := Ends(mbox[d].head, env)];
      }
      mail := mail[d := mail[d] + [env]];
    }

    /** The middle case of moveProcessToPriority: walk from the head for the PCB whose successor is `p`. */
    method DetachInner(s: int, p: int) returns (found: bool)
      requires Lists(nextPCB, pqs, qs) && 0 <= s < NUM_SLOTS && 0 <= p < NUM_PROCS
      requires pqs[s].head != NIL && pqs[s].head != pqs[s].tail && pqs[s].head != p
      modifies this`nextPCB, this`pqs, this`qs
      ensures found <==> p in old(qs)[s]
      ensures !found ==> nextPCB == old(nextPCB) && pqs == old(pqs) && qs == old(qs)
      ensures found ==> Lists(nextPCB, pqs, qs) && p !in Members(qs) && Members(qs) + multiset{p} == Members(old(qs))
      ensures found ==> var q := old(qs)[s]; var j := IndexOf(q, p); qs == old(qs)[s := q[..j] + q[j + 1..]]
    {
      ghost var q := qs[s];
      assert IsList(nextPCB, NIL, pqs[s], q);
      var cur := pqs[s].head;
      ghost var i := 0;
      while cur != NIL
        invariant 0 <= i <= |q| && (i < |q| ==> cur == q[i]) && (i == |q| ==> cur == NIL)
        invariant forall m :: 0 <= m <= i && m < |q| ==> q[m] != p
        invariant nextPCB == old(nextPCB) && pqs == old(pqs) && qs == old(qs)
        decreases |q| - i
      {
        if nextPCB[cur] == p {
          assert i + 1 < |q| && q[i + 1] == p;
          Splice(s, i + 1, cur, p);
          assert IndexOf(q, p) == i + 1 by {
            assert Distinct(q);
          }
          return true;
        }
        cur := nextPCB[cur];
        i := i + 1;
      }
      return false;
    }
  }
}
