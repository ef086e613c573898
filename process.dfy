/**
 * Process management: the PCB table, the ready and blocked priority queues
 * (one intrusive FIFO per priority level, threaded through `nextPCB`), the
 * scheduler, the context-switch state transitions, and priority changes.
 *
 * A PCB pointer is modelled as its index in `gp_pcbs` (0 is the null
 * process), and NULL as NIL.  The ten queues are kept as one sequence of
 * slots: slot `l` is ReadyPQ[l] and slot 5 + l is BlockPQ[l].
 *
 * The module is the specification: pure functions on a snapshot of the
 * kernel state, and the invariant they keep.  The methods of `Kernel.Rtx`
 * relink the queues in place and are proved against these functions.
 */
module Process {
  import opened Links
  import opened Ipc
  import KMemory

  const NIL: int := -1
  const NUM_OF_PRIORITIES: int := 5
  const NULL_PRIORITY: int := 4
  const NUM_TEST_PROCS: int := 6
  const NUM_PROCS: int := 7
  const NUM_SLOTS: int := 10
  const RTX_OK: int := 0
  const RTX_ERR: int := -1
  const INITIAL_XPSR: int := 0x0100_0000
  /** Stack size of the null process, in bytes. */
  const NULL_STACK_SIZE: int := 0x100

  datatype State = NEW | RDY | RUN | BLK | WAIT

  /** The value part of a PCB; `nextPCB` and the mailbox ends are kept apart. */
  datatype Pcb = Pcb(sp: int, pid: int, priority: int, state: State)

  /** Which array of queues a call works on. */
  datatype Which = ReadyPQ | BlockPQ

  function Slot(w: Which, priority: int): (s: int)
    requires 0 <= priority < NUM_OF_PRIORITIES
    ensures 0 <= s < NUM_SLOTS && (s < NUM_OF_PRIORITIES <==> w == ReadyPQ)
  {
    if w == ReadyPQ then priority else NUM_OF_PRIORITIES + priority
  }

  /** A snapshot of the kernel: PCBs, queues, the running PCB, the main stack pointer, mailboxes. */
  datatype KState = KState(pcbs: seq<Pcb>, qs: seq<seq<int>>, current: int, msp: int, mail: seq<seq<int>>)

  // ---------------------------------------------------------------- queues

  /** The first level at or after `l` whose queue in `w` is not empty, or -1. */
  function First(qs: seq<seq<int>>, w: Which, l: int): (r: int)
    requires |qs| == NUM_SLOTS && 0 <= l <= NUM_OF_PRIORITIES
    ensures r == -1 || l <= r < NUM_OF_PRIORITIES
    ensures r == -1 <==> forall i :: l <= i < NUM_OF_PRIORITIES ==> qs[Slot(w, i)] == []
    ensures r != -1 ==> qs[Slot(w, r)] != [] && forall i :: l <= i < r ==> qs[Slot(w, i)] == []
    decreases NUM_OF_PRIORITIES - l
  {
    if l == NUM_OF_PRIORITIES then -1
    else if qs[Slot(w, l)] != [] then l
    else First(qs, w, l + 1)
  }

  ghost predicate AllEmpty(qs: seq<seq<int>>, w: Which)
    requires |qs| == NUM_SLOTS
  {
    forall i :: 0 <= i < NUM_OF_PRIORITIES ==> qs[Slot(w, i)] == []
  }

  /** processEnqueue: append at the tail of the level of the PCB's priority. */
  function Enqueue(qs: seq<seq<int>>, w: Which, p: int, priority: int): (r: seq<seq<int>>)
    requires |qs| == NUM_SLOTS && 0 <= priority < NUM_OF_PRIORITIES
    ensures |r| == NUM_SLOTS
  {
    qs[Slot(w, priority) := qs[Slot(w, priority)] + [p]]
  }

  /** processDequeue: the head of the highest-priority non-empty level, and the queues without it. */
  function Dequeue(qs: seq<seq<int>>, w: Which): (r: (seq<seq<int>>, int))
    requires |qs| == NUM_SLOTS
    ensures |r.0| == NUM_SLOTS
  {
    var l := First(qs, w, 0);
    if l == -1 then (qs, NIL)
    else (qs[Slot(w, l) := qs[Slot(w, l)][1..]], qs[Slot(w, l)][0])
  }

  ghost function Members(qs: seq<seq<int>>): multiset<int> {
    multiset(Flatten(qs))
  }

  /** No PCB is queued twice, on one level or across levels. */
  ghost predicate Once(qs: seq<seq<int>>) {
    forall x :: multiset(Flatten(qs))[x] <= 1
  }

  /**
   * Dequeue yields NIL exactly when every level is empty; otherwise the head
   * of the lowest-numbered non-empty level, every level before it being empty,
   * and it removes that PCB and nothing else.
   */
  lemma DequeueHighest(qs: seq<seq<int>>, w: Which)
    requires |qs| == NUM_SLOTS && Indices(qs)
    ensures var (qs', p) := Dequeue(qs, w);
      && (p == NIL <==> AllEmpty(qs, w))
      && (p == NIL ==> qs' == qs)
      && (p != NIL ==>
            exists l :: 0 <= l < NUM_OF_PRIORITIES && qs[Slot(w, l)] != [] && p == qs[Slot(w, l)][0]
              && (forall i :: 0 <= i < l ==> qs[Slot(w, i)] == [])
              && qs' == qs[Slot(w, l) := qs[Slot(w, l)][1..]])
  {
    var l := First(qs, w, 0);
    if l != -1 {
      assert qs[Slot(w, l)] != [];
    }
  }

  lemma EnqueueMembers(qs: seq<seq<int>>, w: Which, p: int, priority: int)
    requires |qs| == NUM_SLOTS && 0 <= priority < NUM_OF_PRIORITIES
    ensures Members(Enqueue(qs, w, p, priority)) == Members(qs) + multiset{p}
  {
    FlattenSnoc(qs, Slot(w, priority), p);
  }

  lemma DequeueMembers(qs: seq<seq<int>>, w: Which)
    requires |qs| == NUM_SLOTS && Indices(qs)
    ensures var (qs', p) := Dequeue(qs, w);
      (p == NIL ==> qs' == qs) && (p != NIL ==> Members(qs') + multiset{p} == Members(qs))
  {
    var l := First(qs, w, 0);
    if l != -1 {
      FlattenBehead(qs, Slot(w, l));
    }
  }

  /** A PCB on level `s` (connected to its slot's priority and to the kind of queue). */
  ghost predicate Good(pcbs: seq<Pcb>, s: int, x: int)
    requires |pcbs| == NUM_PROCS
  {
    && 0 <= x < NUM_PROCS && 0 <= s < NUM_SLOTS
    && if s < NUM_OF_PRIORITIES then pcbs[x].priority == s && pcbs[x].state in {NEW, RDY, RUN}
       else pcbs[x].priority == s - NUM_OF_PRIORITIES && pcbs[x].state == BLK
  }

  /** Every queued PCB sits on the level of its priority, ready ones in ReadyPQ, blocked ones in BlockPQ. */
  ghost predicate Placed(pcbs: seq<Pcb>, qs: seq<seq<int>>)
    requires |pcbs| == NUM_PROCS
  {
    forall s, j :: 0 <= s < |qs| && 0 <= j < |qs[s]| ==> Good(pcbs, s, qs[s][j])
  }

  lemma PlacedEnqueue(pcbs: seq<Pcb>, qs: seq<seq<int>>, w: Which, p: int)
    requires |pcbs| == NUM_PROCS && |qs| == NUM_SLOTS && Placed(pcbs, qs)
    requires 0 <= p < NUM_PROCS && 0 <= pcbs[p].priority < NUM_OF_PRIORITIES
    requires Good(pcbs, Slot(w, pcbs[p].priority), p)
    ensures Placed(pcbs, Enqueue(qs, w, p, pcbs[p].priority))
  {
    var s := Slot(w, pcbs[p].priority);
    var qs' := Enqueue(qs, w, p, pcbs[p].priority);
    forall t, j | 0 <= t < |qs'| && 0 <= j < |qs'[t]| ensures Good(pcbs, t, qs'[t][j]) {
      if t == s && j == |qs[s]| {
        assert qs'[t][j] == p;
      } else {
        assert qs'[t][j] == qs[t][j];
      }
    }
  }

  lemma PlacedDequeue(pcbs: seq<Pcb>, qs: seq<seq<int>>, w: Which)
    requires |pcbs| == NUM_PROCS && |qs| == NUM_SLOTS && Placed(pcbs, qs)
    ensures Placed(pcbs, Dequeue(qs, w).0)
    ensures var p := Dequeue(qs, w).1;
      p != NIL ==> (0 <= p < NUM_PROCS && 0 <= pcbs[p].priority < NUM_OF_PRIORITIES
                    && Good(pcbs, Slot(w, pcbs[p].priority), p))
  {
    var l := First(qs, w, 0);
    if l != -1 {
      var s := Slot(w, l);
      var qs' := Dequeue(qs, w).0;
      assert Good(pcbs, s, qs[s][0]);
      forall t, j | 0 <= t < |qs'| && 0 <= j < |qs'[t]| ensures Good(pcbs, t, qs'[t][j]) {
        if t == s {
          assert qs'[t][j] == qs[s][j + 1];
        } else {
          assert qs'[t][j] == qs[t][j];
        }
      }
    }
  }

  /** Placement only depends on the priority and the kind of state of the queued PCBs. */
  lemma PlacedFrame(pcbs: seq<Pcb>, pcbs': seq<Pcb>, qs: seq<seq<int>>)
    requires |pcbs| == |pcbs'| == NUM_PROCS && Placed(pcbs, qs)
    requires forall x :: 0 <= x < NUM_PROCS && x in Members(qs) ==>
      pcbs'[x].priority == pcbs[x].priority && Kind(pcbs'[x].state) == Kind(pcbs[x].state)
    ensures Placed(pcbs', qs)
  {
    forall s, j | 0 <= s < |qs| && 0 <= j < |qs[s]| ensures Good(pcbs', s, qs[s][j]) {
      assert qs[s][j] in qs[s];
      FlattenMember(qs, s, qs[s][j]);
      assert Good(pcbs, s, qs[s][j]);
    }
  }

  /** 0 for states found in ReadyPQ, 1 for BLK, 2 for WAIT. */
  function Kind(st: State): int {
    if st == BLK then 1 else if st == WAIT then 2 else 0
  }

  lemma MemberOf(qs: seq<seq<int>>, s: int, x: int)
    requires 0 <= s < |qs| && x in qs[s]
    ensures x in Members(qs)
  {
    FlattenMember(qs, s, x);
    assert x in multiset(Flatten(qs));
  }

  /** Under Once, a queued PCB lies on one level only. */
  lemma OnlyLevel(qs: seq<seq<int>>, s: int, t: int, x: int)
    requires Once(qs) && 0 <= s < |qs| && 0 <= t < |qs| && x in qs[s] && x in qs[t]
    ensures s == t
  {
    if s != t {
      FlattenTwice(qs, s, t, x);
    }
  }

  // ---------------------------------------------------------------- the invariant

  ghost predicate Shape(k: KState) {
    && |k.pcbs| == NUM_PROCS && |k.qs| == NUM_SLOTS && |k.mail| == NUM_PROCS
    && (forall x :: 0 <= x < NUM_PROCS ==> 0 <= k.pcbs[x].priority < NUM_OF_PRIORITIES)
    && (forall x, y :: 0 <= x < y < NUM_PROCS ==> k.pcbs[x].pid != k.pcbs[y].pid)
    && Indices(k.qs)
  }

  /** Every queued entry is a PCB index. */
  ghost predicate Indices(qs: seq<seq<int>>) {
    forall s, j :: 0 <= s < |qs| && 0 <= j < |qs[s]| ==> 0 <= qs[s][j] < NUM_PROCS
  }

  lemma IndicesEnqueue(qs: seq<seq<int>>, w: Which, p: int, priority: int)
    requires |qs| == NUM_SLOTS && Indices(qs) && 0 <= p < NUM_PROCS && 0 <= priority < NUM_OF_PRIORITIES
    ensures Indices(Enqueue(qs, w, p, priority))
  {
    var s := Slot(w, priority);
    var qs' := Enqueue(qs, w, p, priority);
    forall t, j | 0 <= t < |qs'| && 0 <= j < |qs'[t]| ensures 0 <= qs'[t][j] < NUM_PROCS {
      if t != s || j < |qs[s]| {
        assert qs'[t][j] == qs[t][j];
      }
    }
  }

  /** Cutting one entry out of a level leaves only PCB indices. */
  lemma IndicesCut(qs: seq<seq<int>>, s: int, j: int)
    requires Indices(qs) && 0 <= s < |qs| && 0 <= j < |qs[s]|
    ensures Indices(qs[s := qs[s][..j] + qs[s][j + 1..]])
  {
    var q := qs[s];
    var r := q[..j] + q[j + 1..];
    forall i | 0 <= i < |r| ensures 0 <= r[i] < NUM_PROCS {
      if i < j {
        assert r[i] == q[i];
      } else {
        assert r[i] == q[i + 1];
      }
    }
  }

  lemma IndicesDequeue(qs: seq<seq<int>>, w: Which)
    requires |qs| == NUM_SLOTS && Indices(qs)
    ensures Indices(Dequeue(qs, w).0)
    ensures Dequeue(qs, w).1 == NIL || 0 <= Dequeue(qs, w).1 < NUM_PROCS
  {
    var l := First(qs, w, 0);
    if l != -1 {
      var s := Slot(w, l);
      var qs' := Dequeue(qs, w).0;
      assert 0 <= qs[s][0] < NUM_PROCS;
      forall t, j | 0 <= t < |qs'| && 0 <= j < |qs'[t]| ensures 0 <= qs'[t][j] < NUM_PROCS {
        if t == s {
          assert qs'[t][j] == qs[s][j + 1];
        } else {
          assert qs'[t][j] == qs[t][j];
        }
      }
    }
  }

  /**
   * Between kernel calls: every PCB is queued at most once, on the level and
   * kind of queue its priority and state call for; the running PCB is in no
   * queue and is RUN; every other PCB is queued exactly when it is not WAIT
   * (blocked on receive); before the first switch every PCB is NEW.
   */
  ghost predicate Inv(k: KState) {
    InvWith(k, RUN)
  }

  /** The invariant with the running PCB in state `cs` (BLK while makeBlock gives up the processor). */
  ghost predicate InvWith(k: KState, cs: State) {
    && Shape(k) && Placed(k.pcbs, k.qs) && Once(k.qs)
    && (k.current == NIL ==> forall x :: 0 <= x < NUM_PROCS ==> k.pcbs[x].state == NEW)
    && (k.current != NIL ==> 0 <= k.current < NUM_PROCS && k.current !in Members(k.qs) && k.pcbs[k.current].state == cs)
    && (forall x :: 0 <= x < NUM_PROCS && x != k.current ==>
          k.pcbs[x].state != RUN && (x in Members(k.qs) <==> k.pcbs[x].state != WAIT))
  }

  // ---------------------------------------------------------------- scheduling

  /**
   * The first half of scheduler, corrected: a current process that is BLK
   * goes to BlockPQ, one that is RDY or RUN (it yields) back to ReadyPQ.
   */
  function Requeue(k: KState): (qs: seq<seq<int>>)
    requires Shape(k) && (k.current == NIL || 0 <= k.current < NUM_PROCS)
    ensures |qs| == NUM_SLOTS && Indices(qs)
  {
    var c := k.current;
    if c == NIL then k.qs
    else
      IndicesEnqueue(k.qs, ReadyPQ, c, k.pcbs[c].priority);
      IndicesEnqueue(k.qs, BlockPQ, c, k.pcbs[c].priority);
      if k.pcbs[c].state == BLK then Enqueue(k.qs, BlockPQ, c, k.pcbs[c].priority)
      else if k.pcbs[c].state in {RDY, RUN} then Enqueue(k.qs, ReadyPQ, c, k.pcbs[c].priority)
      else k.qs
  }

  /** The first half of scheduler as written: a current process in state RUN is put in no queue. */
  function RequeueAsWritten(k: KState): (qs: seq<seq<int>>)
    requires Shape(k) && (k.current == NIL || 0 <= k.current < NUM_PROCS)
    ensures |qs| == NUM_SLOTS && Indices(qs)
  {
    var c := k.current;
    if c == NIL then k.qs
    else
      IndicesEnqueue(k.qs, ReadyPQ, c, k.pcbs[c].priority);
      IndicesEnqueue(k.qs, BlockPQ, c, k.pcbs[c].priority);
      if k.pcbs[c].state == BLK then Enqueue(k.qs, BlockPQ, c, k.pcbs[c].priority)
      else if k.pcbs[c].state == RDY then Enqueue(k.qs, ReadyPQ, c, k.pcbs[c].priority)
      else k.qs
  }

  /** scheduler, corrected: requeue the current process, then take the head of the highest ready level. */
  function Schedule(k: KState): (r: (KState, int))
    requires Shape(k) && (k.current == NIL || 0 <= k.current < NUM_PROCS)
    ensures Shape(r.0) && (r.1 == NIL || 0 <= r.1 < NUM_PROCS)
  {
    var qs := Requeue(k);
    IndicesDequeue(qs, ReadyPQ);
    var (qs', p) := Dequeue(qs, ReadyPQ);
    (k.(qs := qs'), p)
  }

  /** scheduler as written. */
  function ScheduleAsWritten(k: KState): (r: (KState, int))
    requires Shape(k) && (k.current == NIL || 0 <= k.current < NUM_PROCS)
    ensures Shape(r.0) && (r.1 == NIL || 0 <= r.1 < NUM_PROCS)
  {
    var qs := RequeueAsWritten(k);
    IndicesDequeue(qs, ReadyPQ);
    var (qs', p) := Dequeue(qs, ReadyPQ);
    (k.(qs := qs'), p)
  }

  /** The outgoing PCB: BLK and WAIT stay, anything else becomes RDY; its stack pointer is saved. */
  function Outgoing(pcb: Pcb, msp: int): Pcb {
    pcb.(state := if pcb.state in {BLK, WAIT} then pcb.state else RDY, sp := msp)
  }

  /**
   * process_switch(p_pcb_old) with `k.current` the incoming PCB.  A NEW one starts
   * (the frame is popped by __rte and the call does not come back); a RDY one
   * is resumed; any other state reverts to `prev` with RTX_ERR, unless the
   * incoming PCB is `prev` itself.
   */
  function Switch(k: KState, prev: int): (r: (KState, int))
    requires Shape(k) && 0 <= k.current < NUM_PROCS && 0 <= prev < NUM_PROCS
    ensures Shape(r.0)
  {
    var c := k.current;
    var st := k.pcbs[c].state;
    if st == NEW then
      var pcbs := if c != prev && k.pcbs[prev].state != NEW then k.pcbs[prev := Outgoing(k.pcbs[prev], k.msp)] else k.pcbs;
      (k.(pcbs := pcbs[c := pcbs[c].(state := RUN)], msp := pcbs[c].sp), RTX_OK)
    else if c != prev then
      if st == RDY then
        var pcbs := k.pcbs[prev := Outgoing(k.pcbs[prev], k.msp)];
        (k.(pcbs := pcbs[c := pcbs[c].(state := RUN)], msp := pcbs[c].sp), RTX_OK)
      else (k.(current := prev), RTX_ERR)
    else (k, RTX_OK)
  }

  /**
   * process_switch's error path: it is taken exactly when the incoming PCB is
   * another one, neither NEW nor RDY, and then only the running PCB goes back
   * to `prev`.
   */
  lemma SwitchFails(k: KState, prev: int)
    requires Shape(k) && 0 <= k.current < NUM_PROCS && 0 <= prev < NUM_PROCS
    ensures Switch(k, prev).1 == RTX_ERR <==> k.current != prev && k.pcbs[k.current].state !in {NEW, RDY}
    ensures Switch(k, prev).1 == RTX_ERR ==> Switch(k, prev).0 == k.(current := prev)
  {
  }

  /** k_release_processor: schedule, then switch; with nothing ready the old process stays with RTX_ERR. */
  function Release(k: KState): (r: (KState, int))
    requires Shape(k) && (k.current == NIL || 0 <= k.current < NUM_PROCS)
    ensures Shape(r.0)
  {
    var prev := k.current;
    var (k1, p) := Schedule(k);
    if p == NIL then (k1, RTX_ERR)
    else
      (Switch(k1.(current := p), if prev == NIL then p else prev).0, RTX_OK)
  }

  /** k_release_processor over the scheduler as written. */
  function ReleaseAsWritten(k: KState): (r: (KState, int))
    requires Shape(k) && (k.current == NIL || 0 <= k.current < NUM_PROCS)
    ensures Shape(r.0)
  {
    var prev := k.current;
    var (k1, p) := ScheduleAsWritten(k);
    if p == NIL then (k1, RTX_ERR)
    else
      (Switch(k1.(current := p), if prev == NIL then p else prev).0, RTX_OK)
  }

  // ---------------------------------------------------------------- the invariant kept

  lemma Requeued(k: KState, cs: State)
    requires InvWith(k, cs) && cs in {RUN, BLK}
    ensures var c := k.current; var qs := Requeue(k);
      && Placed(k.pcbs, qs) && Once(qs)
      && Members(qs) == Members(k.qs) + (if c == NIL then multiset{} else multiset{c})
      && (c == NIL ==> qs == k.qs)
      && (c != NIL && cs == RUN ==> !AllEmpty(qs, ReadyPQ))
      && (c != NIL && cs == BLK ==> forall i :: 0 <= i < NUM_OF_PRIORITIES ==> qs[Slot(ReadyPQ, i)] == k.qs[Slot(ReadyPQ, i)])
  {
    var c := k.current;
    if c != NIL {
      var w := if cs == BLK then BlockPQ else ReadyPQ;
      var pr := k.pcbs[c].priority;
      EnqueueMembers(k.qs, w, c, pr);
      PlacedEnqueue(k.pcbs, k.qs, w, c);
      var qs := Enqueue(k.qs, w, c, pr);
      assert Requeue(k) == qs;
      forall x ensures multiset(Flatten(qs))[x] <= 1 {
        assert Members(qs)[x] == Members(k.qs)[x] + multiset{c}[x];
      }
      if cs == RUN {
        assert qs[Slot(ReadyPQ, pr)] != [];
      }
    }
  }

  /** When nothing is ready, the null process must be blocked or waiting, so the kernel cannot be at its start. */
  lemma StartHasReady(k: KState)
    requires InvWith(k, RUN) && k.current == NIL
    ensures !AllEmpty(k.qs, ReadyPQ)
  {
    assert k.pcbs[0].state == NEW;
    assert 0 in Members(k.qs);
    var s := FlattenWitness(k.qs, 0);
    var j :| 0 <= j < |k.qs[s]| && k.qs[s][j] == 0;
    assert Good(k.pcbs, s, 0);
    assert k.qs[Slot(ReadyPQ, s)] != [];
  }

  /** The PCB taken from the ready queues is out of every queue afterwards, and no PCB is queued twice. */
  lemma Taken(qs1: seq<seq<int>>, qs2: seq<seq<int>>, p: int)
    requires Once(qs1) && p != NIL && Members(qs2) + multiset{p} == Members(qs1)
    ensures p !in Members(qs2) && Once(qs2)
    ensures forall x :: x != p ==> Members(qs2)[x] == Members(qs1)[x]
  {
    assert Members(qs2)[p] + 1 == Members(qs1)[p];
    forall x ensures multiset(Flatten(qs2))[x] <= 1 {
      assert Members(qs2)[x] + multiset{p}[x] == Members(qs1)[x];
    }
    forall x | x != p ensures Members(qs2)[x] == Members(qs1)[x] {
      assert Members(qs2)[x] + multiset{p}[x] == Members(qs1)[x];
    }
  }

  /** Switching from `c` to a different, ready `p` leaves the invariant with `p` running. */
  lemma SwitchOther(k: KState, cs: State, qs2: seq<seq<int>>, p: int)
    requires InvWith(k, cs) && cs in {RUN, BLK}
    requires |qs2| == NUM_SLOTS && Indices(qs2) && Placed(k.pcbs, qs2) && Once(qs2)
    requires 0 <= p < NUM_PROCS && p != k.current && p !in Members(qs2) && p in Members(k.qs)
    requires 0 <= k.pcbs[p].priority < NUM_OF_PRIORITIES && Good(k.pcbs, Slot(ReadyPQ, k.pcbs[p].priority), p)
    requires k.current == NIL ==> Members(qs2) + multiset{p} == Members(k.qs)
    requires k.current != NIL ==> Members(qs2) + multiset{p} == Members(k.qs) + multiset{k.current}
    ensures Inv(Switch(k.(qs := qs2, current := p), if k.current == NIL then p else k.current).0)
  {
    var c := k.current;
    var k' := Switch(k.(qs := qs2, current := p), if c == NIL then p else c).0;
    var pcbs := if c == NIL then k.pcbs else k.pcbs[c := Outgoing(k.pcbs[c], k.msp)];
    SwitchTo(k, qs2, p);
    SwitchPlaced(k.pcbs, c, k.msp, p, qs2);
    SwitchStates(k, cs, qs2, p, k'.pcbs);
  }

  /** Saving the outgoing PCB and running a NEW or RDY `p` keeps every queued PCB on its level. */
  lemma SwitchPlaced(pcbs: seq<Pcb>, c: int, msp: int, p: int, qs: seq<seq<int>>)
    requires |pcbs| == NUM_PROCS && Placed(pcbs, qs) && (c == NIL || 0 <= c < NUM_PROCS)
    requires 0 <= p < NUM_PROCS && pcbs[p].state in {NEW, RDY}
    ensures var pc := if c == NIL then pcbs else pcbs[c := Outgoing(pcbs[c], msp)];
      Placed(pc[p := pc[p].(state := RUN)], qs)
  {
    var pc := if c == NIL then pcbs else pcbs[c := Outgoing(pcbs[c], msp)];
    var pcbs' := pc[p := pc[p].(state := RUN)];
    assert forall x :: 0 <= x < NUM_PROCS ==>
      pcbs'[x].priority == pcbs[x].priority && Kind(pcbs'[x].state) == Kind(pcbs[x].state);
    PlacedFrame(pcbs, pcbs', qs);
  }

  /** The state after switching from the current PCB (which is not NEW) to a NEW or RDY `p`. */
  lemma SwitchTo(k: KState, qs2: seq<seq<int>>, p: int)
    requires Shape(k) && |qs2| == NUM_SLOTS && Indices(qs2) && 0 <= p < NUM_PROCS && p != k.current
    requires k.current == NIL || (0 <= k.current < NUM_PROCS && k.pcbs[k.current].state != NEW)
    requires k.pcbs[p].state in {NEW, RDY} && (k.current == NIL ==> k.pcbs[p].state == NEW)
    ensures var c := k.current;
      var pcbs := if c == NIL then k.pcbs else k.pcbs[c := Outgoing(k.pcbs[c], k.msp)];
      Switch(k.(qs := qs2, current := p), if c == NIL then p else c).0 ==
        k.(pcbs := pcbs[p := pcbs[p].(state := RUN)], qs := qs2, current := p, msp := pcbs[p].sp)
  {
  }

  /** After the switch only `p` runs, and the queued PCBs are exactly those not waiting. */
  lemma SwitchStates(k: KState, cs: State, qs2: seq<seq<int>>, p: int, pcbs: seq<Pcb>)
    requires InvWith(k, cs) && cs in {RUN, BLK} && 0 <= p < NUM_PROCS && p != k.current
    requires k.current == NIL ==> Members(qs2) + multiset{p} == Members(k.qs)
    requires k.current != NIL ==> Members(qs2) + multiset{p} == Members(k.qs) + multiset{k.current}
    requires k.current == NIL ==> pcbs == k.pcbs[p := k.pcbs[p].(state := RUN)]
    requires k.current != NIL ==>
      var c := k.current; var pc := k.pcbs[c := Outgoing(k.pcbs[c], k.msp)];
      pcbs == pc[p := pc[p].(state := RUN)]
    ensures forall x :: 0 <= x < NUM_PROCS && x != p ==>
      pcbs[x].state != RUN && (x in Members(qs2) <==> pcbs[x].state != WAIT)
  {
    var c := k.current;
    forall x | 0 <= x < NUM_PROCS && x != p
      ensures pcbs[x].state != RUN && (x in Members(qs2) <==> pcbs[x].state != WAIT)
    {
      if x != c {
        assert (Members(qs2) + multiset{p})[x] == Members(qs2)[x];
        if c != NIL {
          assert (Members(k.qs) + multiset{c})[x] == Members(k.qs)[x];
        }
      } else {
        assert (Members(k.qs) + multiset{c})[x] >= 1;
      }
    }
  }

  /** k_release_processor fails exactly when the current process has blocked and nothing is ready. */
  lemma ReleaseFails(k: KState, cs: State)
    requires InvWith(k, cs) && cs in {RUN, BLK}
    ensures Release(k).1 == RTX_ERR <==> k.current != NIL && cs == BLK && AllEmpty(k.qs, ReadyPQ)
  {
    Requeued(k, cs);
    if k.current == NIL {
      StartHasReady(k);
    }
    DequeueHighest(Requeue(k), ReadyPQ);
  }

  /** k_release_processor keeps the invariant whenever it succeeds, from a process that yields or has just blocked. */
  lemma ReleaseKeepsInv(k: KState, cs: State)
    requires InvWith(k, cs) && cs in {RUN, BLK}
    ensures Release(k).1 == RTX_OK ==> Inv(Release(k).0)
  {
    var c := k.current;
    var (qs2, p) := Dequeue(Requeue(k), ReadyPQ);
    Scheduled(k, cs);
    if p != NIL {
      if p == c {
        assert cs == RUN;
        assert Release(k).0 == k.(qs := qs2);
        assert Members(qs2) == Members(k.qs) by {
          forall x ensures Members(qs2)[x] == Members(k.qs)[x] {
            assert (Members(qs2) + multiset{c})[x] == (Members(k.qs) + multiset{c})[x];
          }
        }
        SameMembers(k, k.(qs := qs2));
      } else {
        assert p in Members(k.qs) by {
          if c != NIL {
            assert (Members(k.qs) + multiset{c})[p] >= 1;
          }
        }
        SwitchOther(k, cs, qs2, p);
      }
    }
  }

  /**
   * Under the invariant, the PCB the scheduler picks is one process_switch
   * accepts, so k_release_processor never reaches the error path of the switch.
   */
  lemma ReleaseSwitches(k: KState, cs: State)
    requires InvWith(k, cs) && cs in {RUN, BLK}
    ensures var (k1, p) := Schedule(k);
      p != NIL ==> Switch(k1.(current := p), if k.current == NIL then p else k.current).1 == RTX_OK
  {
    Scheduled(k, cs);
  }

  /** What the scheduler leaves: the chosen PCB came from its ready level and is out of every queue. */
  lemma Scheduled(k: KState, cs: State)
    requires InvWith(k, cs) && cs in {RUN, BLK}
    ensures var (qs2, p) := Dequeue(Requeue(k), ReadyPQ); var c := k.current;
      p != NIL ==>
        && |qs2| == NUM_SLOTS && Indices(qs2) && Placed(k.pcbs, qs2) && Once(qs2)
        && 0 <= p < NUM_PROCS && p !in Members(qs2)
        && 0 <= k.pcbs[p].priority < NUM_OF_PRIORITIES && Good(k.pcbs, Slot(ReadyPQ, k.pcbs[p].priority), p)
        && (c == NIL ==> Members(qs2) + multiset{p} == Members(k.qs))
        && (c != NIL ==> Members(qs2) + multiset{p} == Members(k.qs) + multiset{c})
  {
    var qs1 := Requeue(k);
    Requeued(k, cs);
    DequeueMembers(qs1, ReadyPQ);
    PlacedDequeue(k.pcbs, qs1, ReadyPQ);
    IndicesDequeue(qs1, ReadyPQ);
    var (qs2, p) := Dequeue(qs1, ReadyPQ);
    if p != NIL {
      Taken(qs1, qs2, p);
    }
  }

  /**
   * As written, the scheduler loses a process that yields: the running
   * process leaves every queue while another ready process takes over, and
   * nothing will ever dequeue it again, so the invariant fails.
   */
  lemma ReleaseAsWrittenLosesYielder(k: KState)
    requires Inv(k) && k.current != NIL && !AllEmpty(k.qs, ReadyPQ)
    ensures var (k', r) := ReleaseAsWritten(k);
      && r == RTX_OK && k'.current != k.current
      && k.current !in Members(k'.qs) && k'.pcbs[k.current].state == RDY
      && !Inv(k')
  {
    var c := k.current;
    assert RequeueAsWritten(k) == k.qs;
    DequeueHighest(k.qs, ReadyPQ);
    DequeueMembers(k.qs, ReadyPQ);
    PlacedDequeue(k.pcbs, k.qs, ReadyPQ);
    var (qs2, p) := Dequeue(k.qs, ReadyPQ);
    assert p in Members(k.qs) by {
      assert (Members(qs2) + multiset{p})[p] >= 1;
    }
    assert p != c;
    assert c !in Members(qs2) by {
      assert (Members(qs2) + multiset{p})[c] == Members(k.qs)[c];
    }
  }

  // ---------------------------------------------------------------- priorities

  /** The first PCB at index `i` or later with process id `pid`, or -1. */
  function IndexOfPid(pcbs: seq<Pcb>, pid: int, i: int): (r: int)
    requires 0 <= i <= |pcbs|
    ensures r == -1 || (i <= r < |pcbs| && pcbs[r].pid == pid)
    ensures r == -1 <==> forall j :: i <= j < |pcbs| ==> pcbs[j].pid != pid
    ensures r != -1 ==> forall j :: i <= j < r ==> pcbs[j].pid != pid
    decreases |pcbs| - i
  {
    if i == |pcbs| then -1
    else if pcbs[i].pid == pid then i
    else IndexOfPid(pcbs, pid, i + 1)
  }

  /** Position of `x` in `q`, or -1. */
  function IndexOf(q: seq<int>, x: int): (j: int)
    ensures j == -1 <==> x !in q
    ensures j != -1 ==> 0 <= j < |q| && q[j] == x
  {
    if q == [] then -1
    else if q[0] == x then 0
    else var j := IndexOf(q[1..], x); if j == -1 then -1 else j + 1
  }

  /**
   * moveProcessToPriority, corrected: a PCB found on its old level (in
   * BlockPQ if it is BLK, else ReadyPQ) is unlinked there and appended to the
   * level of its new priority; a PCB not found there stays where it is.
   */
  function Move(k: KState, p: int, oldPriority: int): (r: KState)
    requires Shape(k) && 0 <= p < NUM_PROCS && 0 <= oldPriority < NUM_OF_PRIORITIES
    ensures Shape(r) && r.pcbs == k.pcbs && r.current == k.current && r.mail == k.mail
  {
    var w := if k.pcbs[p].state == BLK then BlockPQ else ReadyPQ;
    var s := Slot(w, oldPriority);
    var q := k.qs[s];
    if p !in q then k
    else
      var j := IndexOf(q, p);
      var qs := k.qs[s := q[..j] + q[j + 1..]];
      IndicesCut(k.qs, s, j);
      IndicesEnqueue(qs, w, p, k.pcbs[p].priority);
      k.(qs := Enqueue(qs, w, p, k.pcbs[p].priority))
  }

  /**
   * moveProcessToPriority as written: besides the two early returns (empty
   * old level; a single PCB that is not `p`), a PCB that the loop does not
   * find is still appended to its new level.
   */
  function MoveAsWritten(k: KState, p: int, oldPriority: int): (r: KState)
    requires Shape(k) && 0 <= p < NUM_PROCS && 0 <= oldPriority < NUM_OF_PRIORITIES
  {
    var w := if k.pcbs[p].state == BLK then BlockPQ else ReadyPQ;
    var s := Slot(w, oldPriority);
    var q := k.qs[s];
    if q == [] || (|q| == 1 && q[0] != p) then k
    else if p in q then Move(k, p, oldPriority)
    else k.(qs := Enqueue(k.qs, w, p, k.pcbs[p].priority))
  }

  /**
   * As written, a PCB blocked on receive (WAIT, so in no queue) whose
   * priority changes while its old ready level holds two or more PCBs ends
   * up in ReadyPQ still in state WAIT, and the invariant fails.
   */
  lemma MoveAsWrittenQueuesWaiting(k: KState, p: int, oldPriority: int)
    requires Inv(k) && 0 <= p < NUM_PROCS && k.pcbs[p].state == WAIT
    requires 0 <= oldPriority < NUM_OF_PRIORITIES && |k.qs[Slot(ReadyPQ, oldPriority)]| >= 2
    ensures var k' := MoveAsWritten(k, p, oldPriority);
      p in k'.qs[Slot(ReadyPQ, k.pcbs[p].priority)] && k'.pcbs[p].state == WAIT && !Inv(k')
  {
    var k' := MoveAsWritten(k, p, oldPriority);
    var s := Slot(ReadyPQ, oldPriority);
    assert p !in Members(k.qs);
    if p in k.qs[s] {
      MemberOf(k.qs, s, p);
    }
    var t := Slot(ReadyPQ, k.pcbs[p].priority);
    assert k'.qs[t] == k.qs[t] + [p];
    assert p in k'.qs[t];
    MemberOf(k'.qs, t, p);
  }

  lemma PlacedCut(pcbs: seq<Pcb>, qs: seq<seq<int>>, s: int, j: int)
    requires |pcbs| == NUM_PROCS && Placed(pcbs, qs) && 0 <= s < |qs| && 0 <= j < |qs[s]|
    ensures Placed(pcbs, qs[s := qs[s][..j] + qs[s][j + 1..]])
  {
    var qs' := qs[s := qs[s][..j] + qs[s][j + 1..]];
    forall t, i | 0 <= t < |qs'| && 0 <= i < |qs'[t]| ensures Good(pcbs, t, qs'[t][i]) {
      if t == s {
        assert qs'[t][i] == if i < j then qs[s][i] else qs[s][i + 1];
      } else {
        assert qs'[t][i] == qs[t][i];
      }
    }
  }

  /**
   * k_set_process_priority: RTX_ERR for a priority outside 0..3 or a pid not
   * held by any PCB after the null process; otherwise RTX_OK, and a changed
   * priority moves the PCB (unless it is running) and yields.
   */
  function SetPriority(k: KState, pid: int, priority: int): (r: (KState, int))
    requires Shape(k) && 0 <= k.current < NUM_PROCS
    ensures Shape(r.0)
  {
    if !(0 <= priority < NUM_OF_PRIORITIES - 1) then (k, RTX_ERR)
    else
      var i := IndexOfPid(k.pcbs, pid, 1);
      if i == -1 then (k, RTX_ERR)
      else if k.pcbs[i].priority == priority then (k, RTX_OK)
      else
        var k1 := k.(pcbs := k.pcbs[i := k.pcbs[i].(priority := priority)]);
        var k2 := if pid != k.pcbs[k.current].pid then Move(k1, i, k.pcbs[i].priority) else k1;
        (Release(k2).0, RTX_OK)
  }

  /** k_get_process_priority: the priority of the first PCB with that pid, or -1. */
  function GetPriority(k: KState, pid: int): (r: int)
    requires |k.pcbs| == NUM_PROCS
    ensures (forall j :: 0 <= j < NUM_PROCS ==> k.pcbs[j].pid != pid) ==> r == -1
    ensures forall j :: 0 <= j < NUM_PROCS && k.pcbs[j].pid == pid && (forall i :: 0 <= i < j ==> k.pcbs[i].pid != pid) ==>
      r == k.pcbs[j].priority
  {
    var i := IndexOfPid(k.pcbs, pid, 0);
    if i == -1 then -1 else k.pcbs[i].priority
  }

  /** Moving a PCB to its new level keeps the invariant (with the running PCB left where it is). */
  lemma MoveKeepsInv(k: KState, p: int, oldPriority: int)
    requires Shape(k) && 0 <= p < NUM_PROCS && p != k.current && 0 <= oldPriority < NUM_OF_PRIORITIES
    requires InvWith(k.(pcbs := k.pcbs[p := k.pcbs[p].(priority := oldPriority)]), RUN)
    ensures InvWith(Move(k, p, oldPriority), RUN)
  {
    var w := if k.pcbs[p].state == BLK then BlockPQ else ReadyPQ;
    if p in k.qs[Slot(w, oldPriority)] {
      MoveFound(k, p, oldPriority);
    } else {
      MoveNotFound(k, p, oldPriority);
    }
  }

  lemma MoveFound(k: KState, p: int, oldPriority: int)
    requires Shape(k) && 0 <= p < NUM_PROCS && p != k.current && 0 <= oldPriority < NUM_OF_PRIORITIES
    requires InvWith(k.(pcbs := k.pcbs[p := k.pcbs[p].(priority := oldPriority)]), RUN)
    requires p in k.qs[Slot(if k.pcbs[p].state == BLK then BlockPQ else ReadyPQ, oldPriority)]
    ensures InvWith(Move(k, p, oldPriority), RUN)
  {
    var k0 := k.(pcbs := k.pcbs[p := k.pcbs[p].(priority := oldPriority)]);
    MemberOf(k.qs, Slot(if k.pcbs[p].state == BLK then BlockPQ else ReadyPQ, oldPriority), p);
    Relinked(k0.pcbs, k, p, oldPriority);
    var k' := Move(k, p, oldPriority);
    assert k'.pcbs == k.pcbs && k'.current == k0.current;
    Reprioritised(k0, k', p, oldPriority);
  }

  /** Relinking with the same members, after only `p`'s priority changed, keeps the invariant. */
  lemma Reprioritised(k0: KState, k': KState, p: int, oldPriority: int)
    requires InvWith(k0, RUN) && Shape(k') && Placed(k'.pcbs, k'.qs) && Once(k'.qs)
    requires Members(k'.qs) == Members(k0.qs) && k'.current == k0.current
    requires 0 <= p < NUM_PROCS && k0.pcbs == k'.pcbs[p := k'.pcbs[p].(priority := oldPriority)]
    ensures InvWith(k', RUN)
  {
    assert forall x :: 0 <= x < NUM_PROCS ==> k0.pcbs[x].state == k'.pcbs[x].state;
    SameMembers(k0, k');
  }

  /** The queues after a move hold the same PCBs, each once and on its level. */
  lemma Relinked(pcbs0: seq<Pcb>, k: KState, p: int, oldPriority: int)
    requires Shape(k) && 0 <= p < NUM_PROCS && 0 <= oldPriority < NUM_OF_PRIORITIES
    requires pcbs0 == k.pcbs[p := k.pcbs[p].(priority := oldPriority)]
    requires Placed(pcbs0, k.qs) && Once(k.qs) && k.pcbs[p].state in {NEW, RDY, BLK}
    requires p in k.qs[Slot(if k.pcbs[p].state == BLK then BlockPQ else ReadyPQ, oldPriority)]
    ensures var k' := Move(k, p, oldPriority);
      Placed(k'.pcbs, k'.qs) && Once(k'.qs) && Members(k'.qs) == Members(k.qs)
  {
    var w := if k.pcbs[p].state == BLK then BlockPQ else ReadyPQ;
    var s := Slot(w, oldPriority);
    var j := IndexOf(k.qs[s], p);
    var qs := k.qs[s := k.qs[s][..j] + k.qs[s][j + 1..]];
    assert Move(k, p, oldPriority) == k.(qs := Enqueue(qs, w, p, k.pcbs[p].priority));
    CutOut(pcbs0, k.pcbs, k.qs, s, j);
    assert Good(k.pcbs, Slot(w, k.pcbs[p].priority), p);
    Appended(k.pcbs, qs, w, p);
  }

  /** Appending a placed PCB that is in no queue keeps every PCB placed and queued once. */
  lemma Appended(pcbs: seq<Pcb>, qs: seq<seq<int>>, w: Which, p: int)
    requires |pcbs| == NUM_PROCS && |qs| == NUM_SLOTS && Placed(pcbs, qs) && Once(qs) && p !in Members(qs)
    requires 0 <= p < NUM_PROCS && 0 <= pcbs[p].priority < NUM_OF_PRIORITIES
    requires Good(pcbs, Slot(w, pcbs[p].priority), p)
    ensures var qs' := Enqueue(qs, w, p, pcbs[p].priority);
      Placed(pcbs, qs') && Once(qs') && Members(qs') == Members(qs) + multiset{p}
  {
    var qs' := Enqueue(qs, w, p, pcbs[p].priority);
    PlacedEnqueue(pcbs, qs, w, p);
    EnqueueMembers(qs, w, p, pcbs[p].priority);
    forall x ensures multiset(Flatten(qs'))[x] <= 1 {
      assert Members(qs')[x] == Members(qs)[x] + multiset{p}[x];
    }
  }

  /** Cutting the `j`th PCB out of level `s` leaves it in no queue, and re-places the others under the new priorities. */
  lemma CutOut(pcbs0: seq<Pcb>, pcbs: seq<Pcb>, qs0: seq<seq<int>>, s: int, j: int)
    requires |pcbs0| == |pcbs| == NUM_PROCS && |qs0| == NUM_SLOTS && Placed(pcbs0, qs0) && Once(qs0)
    requires 0 <= s < NUM_SLOTS && 0 <= j < |qs0[s]|
    requires forall x :: 0 <= x < NUM_PROCS && x != qs0[s][j] ==> pcbs[x] == pcbs0[x]
    ensures var qs := qs0[s := qs0[s][..j] + qs0[s][j + 1..]];
      && Placed(pcbs, qs) && Once(qs) && qs0[s][j] !in Members(qs)
      && Members(qs) + multiset{qs0[s][j]} == Members(qs0)
  {
    var p := qs0[s][j];
    var qs := qs0[s := qs0[s][..j] + qs0[s][j + 1..]];
    assert Good(pcbs0, s, p);
    FlattenCut(qs0, s, j);
    Taken(qs0, qs, p);
    PlacedCut(pcbs0, qs0, s, j);
    PlacedFrame(pcbs0, pcbs, qs);
  }

  /** Relinking that keeps the members, the states and the placement keeps the invariant. */
  lemma SameMembers(k0: KState, k': KState)
    requires InvWith(k0, RUN) && Shape(k') && Placed(k'.pcbs, k'.qs) && Once(k'.qs)
    requires Members(k'.qs) == Members(k0.qs) && k'.current == k0.current
    requires forall x :: 0 <= x < NUM_PROCS ==>
      (k'.pcbs[x].state == RUN <==> k0.pcbs[x].state == RUN) && (k'.pcbs[x].state == WAIT <==> k0.pcbs[x].state == WAIT)
    requires k0.current == NIL ==> forall x :: 0 <= x < NUM_PROCS ==> k'.pcbs[x].state == NEW
    ensures InvWith(k', RUN)
  {
  }

  lemma MoveNotFound(k: KState, p: int, oldPriority: int)
    requires Shape(k) && 0 <= p < NUM_PROCS && p != k.current && 0 <= oldPriority < NUM_OF_PRIORITIES
    requires InvWith(k.(pcbs := k.pcbs[p := k.pcbs[p].(priority := oldPriority)]), RUN)
    requires p !in k.qs[Slot(if k.pcbs[p].state == BLK then BlockPQ else ReadyPQ, oldPriority)]
    ensures InvWith(Move(k, p, oldPriority), RUN)
  {
    var k0 := k.(pcbs := k.pcbs[p := k.pcbs[p].(priority := oldPriority)]);
    var s := Slot(if k.pcbs[p].state == BLK then BlockPQ else ReadyPQ, oldPriority);
    forall t | 0 <= t < NUM_SLOTS ensures p !in k.qs[t] {
      if t != s {
        assert !Good(k0.pcbs, t, p);
        assert forall i :: 0 <= i < |k.qs[t]| ==> Good(k0.pcbs, t, k.qs[t][i]);
      }
    }
    FlattenAbsent(k.qs, p);
    PlacedFrame(k0.pcbs, k.pcbs, k.qs);
  }

  /** A failed k_set_process_priority changes nothing. */
  lemma SetPriorityFails(k: KState, pid: int, priority: int)
    requires Inv(k) && k.current != NIL
    ensures SetPriority(k, pid, priority).1 == RTX_ERR <==>
      !(0 <= priority < NUM_OF_PRIORITIES - 1 && exists j :: 1 <= j < NUM_PROCS && k.pcbs[j].pid == pid)
    ensures SetPriority(k, pid, priority).1 == RTX_ERR ==> SetPriority(k, pid, priority).0 == k
  {
    if 0 <= priority < NUM_OF_PRIORITIES - 1 {
      var i := IndexOfPid(k.pcbs, pid, 1);
      if i != -1 {
        assert 1 <= i < NUM_PROCS && k.pcbs[i].pid == pid;
      }
    }
  }

  /** The PCB gets its new priority and the invariant survives the move and the yield. */
  lemma SetPriorityChanges(k: KState, pid: int, priority: int, i: int)
    requires Inv(k) && k.current != NIL && 0 <= priority < NUM_OF_PRIORITIES - 1
    requires i == IndexOfPid(k.pcbs, pid, 1) && i != -1 && k.pcbs[i].priority != priority
    ensures var k1 := k.(pcbs := k.pcbs[i := k.pcbs[i].(priority := priority)]);
      var k2 := if pid != k.pcbs[k.current].pid then Move(k1, i, k.pcbs[i].priority) else k1;
      && Inv(Release(k2).0) && Release(k2).0.pcbs[i].priority == priority
      && forall x :: 0 <= x < NUM_PROCS ==> Release(k2).0.pcbs[x].pid == k.pcbs[x].pid
  {
    var k2 := Moved(k, pid, priority, i);
    Yield(k2);
  }

  /** The changed-priority path of k_set_process_priority: set the priority, move the PCB unless it runs, yield. */
  lemma SetPriorityUnfold(k: KState, pid: int, priority: int, i: int)
    requires Shape(k) && 0 <= k.current < NUM_PROCS && 0 <= priority < NUM_OF_PRIORITIES - 1
    requires i == IndexOfPid(k.pcbs, pid, 1) && i != -1 && k.pcbs[i].priority != priority
    ensures var k1 := k.(pcbs := k.pcbs[i := k.pcbs[i].(priority := priority)]);
      var k2 := if pid != k.pcbs[k.current].pid then Move(k1, i, k.pcbs[i].priority) else k1;
      SetPriority(k, pid, priority) == (Release(k2).0, RTX_OK)
  {
  }

  /** A running process that yields leaves a state satisfying the invariant, with every priority as it was. */
  lemma Yield(k: KState)
    requires InvWith(k, RUN) && k.current != NIL
    ensures Inv(Release(k).0)
    ensures forall x :: 0 <= x < NUM_PROCS ==>
      Release(k).0.pcbs[x].priority == k.pcbs[x].priority && Release(k).0.pcbs[x].pid == k.pcbs[x].pid
  {
    ReleaseKeepsInv(k, RUN);
    ReleaseFails(k, RUN);
    ReleasePriorities(k);
  }

  /** Before the yield: the priority is set and the PCB is on its new level. */
  lemma Moved(k: KState, pid: int, priority: int, i: int) returns (k2: KState)
    requires Inv(k) && k.current != NIL && 0 <= priority < NUM_OF_PRIORITIES - 1
    requires i == IndexOfPid(k.pcbs, pid, 1) && i != -1 && k.pcbs[i].priority != priority
    ensures var k1 := k.(pcbs := k.pcbs[i := k.pcbs[i].(priority := priority)]);
       && k2 == (if pid != k.pcbs[k.current].pid then Move(k1, i, k.pcbs[i].priority) else k1)
       && InvWith(k2, RUN) && k2.pcbs == k1.pcbs
  {
    var k1 := k.(pcbs := k.pcbs[i := k.pcbs[i].(priority := priority)]);
    assert k1.(pcbs := k1.pcbs[i := k1.pcbs[i].(priority := k.pcbs[i].priority)]) == k;
    if pid != k.pcbs[k.current].pid {
      MoveKeepsInv(k1, i, k.pcbs[i].priority);
      k2 := Move(k1, i, k.pcbs[i].priority);
    } else {
      assert i == k.current;
      PlacedFrame(k.pcbs, k1.pcbs, k.qs);
      k2 := k1;
    }
  }

  /** Scheduling and switching never change a priority or a pid. */
  lemma ReleasePriorities(k: KState)
    requires Shape(k) && (k.current == NIL || 0 <= k.current < NUM_PROCS)
    ensures forall x :: 0 <= x < NUM_PROCS ==>
      Release(k).0.pcbs[x].priority == k.pcbs[x].priority && Release(k).0.pcbs[x].pid == k.pcbs[x].pid
  {
    var (k1, p) := Schedule(k);
    assert k1.pcbs == k.pcbs;
    if p != NIL {
      SwitchPriorities(k1.(current := p), if k.current == NIL then p else k.current);
    }
  }

  /** process_switch changes states and saved stack pointers only. */
  lemma SwitchPriorities(k: KState, prev: int)
    requires Shape(k) && 0 <= k.current < NUM_PROCS && 0 <= prev < NUM_PROCS
    ensures forall x :: 0 <= x < NUM_PROCS ==>
      Switch(k, prev).0.pcbs[x].priority == k.pcbs[x].priority && Switch(k, prev).0.pcbs[x].pid == k.pcbs[x].pid
  {
  }

  /**
   * k_set_process_priority keeps the invariant; it succeeds exactly for a
   * priority in 0..3 and a pid held by some PCB after the null process, and
   * then k_get_process_priority gives back the new priority.  Setting the
   * priority a PCB already has returns RTX_OK with nothing moved and no yield.
   */
  lemma SetThenGet(k: KState, pid: int, priority: int)
    requires Inv(k) && k.current != NIL
    ensures var (k', r) := SetPriority(k, pid, priority);
      && Inv(k')
      && (r == RTX_OK <==> 0 <= priority < NUM_OF_PRIORITIES - 1 && exists j :: 1 <= j < NUM_PROCS && k.pcbs[j].pid == pid)
      && (r == RTX_OK ==> GetPriority(k', pid) == priority)
      && (r == RTX_ERR ==> k' == k)
    ensures var i := IndexOfPid(k.pcbs, pid, 1);
      0 <= priority < NUM_OF_PRIORITIES - 1 && i != -1 && k.pcbs[i].priority == priority ==>
        SetPriority(k, pid, priority) == (k, RTX_OK)
  {
    SetPriorityFails(k, pid, priority);
    if 0 <= priority < NUM_OF_PRIORITIES - 1 {
      var i := IndexOfPid(k.pcbs, pid, 1);
      if i != -1 {
        SetPriorityOk(k, pid, priority, i);
      }
    }
  }

  /** A successful k_set_process_priority is seen by k_get_process_priority. */
  lemma SetPriorityOk(k: KState, pid: int, priority: int, i: int)
    requires Inv(k) && k.current != NIL && 0 <= priority < NUM_OF_PRIORITIES - 1
    requires i == IndexOfPid(k.pcbs, pid, 1) && i != -1
    ensures Inv(SetPriority(k, pid, priority).0) && GetPriority(SetPriority(k, pid, priority).0, pid) == priority
  {
    assert IndexOfPid(k.pcbs, pid, 0) == i;
    if k.pcbs[i].priority != priority {
      SetPriorityChanges(k, pid, priority, i);
      SetPriorityUnfold(k, pid, priority, i);
      PidsKept(k, SetPriority(k, pid, priority).0, pid, i);
    }
  }

  /** With the pids unchanged, the lookup by pid finds the same PCB. */
  lemma PidsKept(k: KState, k': KState, pid: int, i: int)
    requires |k.pcbs| == |k'.pcbs| == NUM_PROCS && 0 <= i < NUM_PROCS
    requires forall x :: 0 <= x < NUM_PROCS ==> k'.pcbs[x].pid == k.pcbs[x].pid
    requires IndexOfPid(k.pcbs, pid, 0) == i
    ensures IndexOfPid(k'.pcbs, pid, 0) == i
  {
    assert k'.pcbs[i].pid == pid;
  }


  // ---------------------------------------------------------------- blocking and waking

  /**
   * makeReady: the head of the highest blocked level becomes RDY and joins the
   * ready queue of its priority, then the running process yields.  The source
   * dereferences the dequeued PCB unchecked, so some PCB must be blocked.
   */
  function MakeReady(k: KState): (r: (KState, int))
    requires Shape(k) && (k.current == NIL || 0 <= k.current < NUM_PROCS) && !AllEmpty(k.qs, BlockPQ)
    ensures Shape(r.0)
  {
    Release(Wake(k))
  }

  /** The first half of makeReady: the dequeued PCB, made RDY, at the tail of its ready level. */
  function Wake(k: KState): (r: KState)
    requires Shape(k) && !AllEmpty(k.qs, BlockPQ)
    ensures Shape(r) && r.current == k.current && r.msp == k.msp && r.mail == k.mail
  {
    IndicesDequeue(k.qs, BlockPQ);
    DequeueHighest(k.qs, BlockPQ);
    var (qs, p) := Dequeue(k.qs, BlockPQ);
    IndicesEnqueue(qs, ReadyPQ, p, k.pcbs[p].priority);
    k.(pcbs := k.pcbs[p := k.pcbs[p].(state := RDY)], qs := Enqueue(qs, ReadyPQ, p, k.pcbs[p].priority))
  }

  /** makeBlock: the running process becomes BLK and gives up the processor. */
  function MakeBlock(k: KState): (r: (KState, int))
    requires Shape(k) && 0 <= k.current < NUM_PROCS
    ensures Shape(r.0)
  {
    Release(k.(pcbs := k.pcbs[k.current := k.pcbs[k.current].(state := BLK)]))
  }

  /** A release touches only the outgoing and the incoming PCB and never the mailboxes. */
  lemma ReleaseOthers(k: KState)
    requires Shape(k) && (k.current == NIL || 0 <= k.current < NUM_PROCS)
    ensures Release(k).0.mail == k.mail
    ensures forall x :: 0 <= x < NUM_PROCS && x != k.current && x != Release(k).0.current ==>
      Release(k).0.pcbs[x] == k.pcbs[x]
  {
  }

  /**
   * makeReady keeps the invariant and always succeeds (the yielding process
   * is ready again); the woken PCB is no longer blocked: it is ready or running.
   */
  lemma MakeReadyWakes(k: KState)
    requires Inv(k) && k.current != NIL && !AllEmpty(k.qs, BlockPQ)
    ensures var (k', r) := MakeReady(k); var p := Dequeue(k.qs, BlockPQ).1;
      && r == RTX_OK && Inv(k')
      && 0 <= p < NUM_PROCS && k.pcbs[p].state == BLK && k'.pcbs[p].state in {RDY, RUN}
  {
    var (qs, p) := Dequeue(k.qs, BlockPQ);
    DequeueHighest(k.qs, BlockPQ);
    DequeueMembers(k.qs, BlockPQ);
    PlacedDequeue(k.pcbs, k.qs, BlockPQ);
    Taken(k.qs, qs, p);
    var k1 := k.(pcbs := k.pcbs[p := k.pcbs[p].(state := RDY)], qs := Enqueue(qs, ReadyPQ, p, k.pcbs[p].priority));
    Woken(k, qs, p);
    Yield(k1);
    ReleaseFails(k1, RUN);
    ReleaseOthers(k1);
  }

  /** The PCB taken from BlockPQ, made RDY and put in ReadyPQ, leaves the invariant intact. */
  lemma Woken(k: KState, qs: seq<seq<int>>, p: int)
    requires Inv(k) && k.current != NIL && |qs| == NUM_SLOTS && Indices(qs)
    requires 0 <= p < NUM_PROCS && 0 <= k.pcbs[p].priority < NUM_OF_PRIORITIES
    requires Good(k.pcbs, Slot(BlockPQ, k.pcbs[p].priority), p) && Placed(k.pcbs, qs)
    requires Members(qs) + multiset{p} == Members(k.qs) && p !in Members(qs) && Once(qs)
    ensures k.pcbs[p].state == BLK
    ensures InvWith(k.(pcbs := k.pcbs[p := k.pcbs[p].(state := RDY)], qs := Enqueue(qs, ReadyPQ, p, k.pcbs[p].priority)), RUN)
  {
    var k' := k.(pcbs := k.pcbs[p := k.pcbs[p].(state := RDY)], qs := Enqueue(qs, ReadyPQ, p, k.pcbs[p].priority));
    Requeue1(k.pcbs, qs, p, Members(k.qs));
    IndicesEnqueue(qs, ReadyPQ, p, k.pcbs[p].priority);
    StateShape(k, p, RDY, k'.qs);
    assert k.pcbs[p].state == BLK;
    Rekinded(k, k', p);
  }

  /** A BLK PCB made RDY, with the queues' members unchanged, keeps the invariant. */
  lemma Rekinded(k: KState, k': KState, p: int)
    requires InvWith(k, RUN) && Shape(k') && Placed(k'.pcbs, k'.qs) && Once(k'.qs)
    requires Members(k'.qs) == Members(k.qs) && k'.current == k.current != NIL
    requires 0 <= p < NUM_PROCS && k.pcbs[p].state == BLK && k'.pcbs == k.pcbs[p := k.pcbs[p].(state := RDY)]
    ensures InvWith(k', RUN)
  {
    assert forall x :: 0 <= x < NUM_PROCS ==> k'.pcbs[x].state == if x == p then RDY else k.pcbs[x].state;
    SameMembers(k, k');
  }

  /** Changing one PCB's state and replacing the queues keeps the shape of the state. */
  lemma StateShape(k: KState, p: int, st: State, qs: seq<seq<int>>)
    requires Shape(k) && 0 <= p < NUM_PROCS && |qs| == NUM_SLOTS && Indices(qs)
    ensures Shape(k.(pcbs := k.pcbs[p := k.pcbs[p].(state := st)], qs := qs))
  {
    var pcbs' := k.pcbs[p := k.pcbs[p].(state := st)];
    assert forall x :: 0 <= x < NUM_PROCS ==> pcbs'[x].pid == k.pcbs[x].pid && pcbs'[x].priority == k.pcbs[x].priority;
  }

  /** PCB `p`, made RDY and appended to its ready level, is queued once more and placed. */
  lemma Requeue1(pcbs: seq<Pcb>, qs: seq<seq<int>>, p: int, m: multiset<int>)
    requires |pcbs| == NUM_PROCS && |qs| == NUM_SLOTS && Indices(qs) && Placed(pcbs, qs)
    requires 0 <= p < NUM_PROCS && 0 <= pcbs[p].priority < NUM_OF_PRIORITIES
    requires Members(qs) + multiset{p} == m && p !in Members(qs) && Once(qs)
    ensures var qs' := Enqueue(qs, ReadyPQ, p, pcbs[p].priority); var pcbs' := pcbs[p := pcbs[p].(state := RDY)];
      Indices(qs') && Placed(pcbs', qs') && Members(qs') == m && Once(qs')
  {
    var pcbs' := pcbs[p := pcbs[p].(state := RDY)];
    EnqueueMembers(qs, ReadyPQ, p, pcbs[p].priority);
    PlacedFrame(pcbs, pcbs', qs);
    PlacedEnqueue(pcbs', qs, ReadyPQ, p);
    IndicesEnqueue(qs, ReadyPQ, p, pcbs[p].priority);
  }

  /**
   * makeBlock fails exactly when nothing is ready; otherwise the invariant
   * holds again with the blocked process at the tail of its BlockPQ level.
   */
  lemma MakeBlockParks(k: KState)
    requires Inv(k) && k.current != NIL
    ensures var (k', r) := MakeBlock(k); var c := k.current; var s := Slot(BlockPQ, k.pcbs[c].priority);
      && (r == RTX_ERR <==> AllEmpty(k.qs, ReadyPQ))
      && (r == RTX_OK ==> Inv(k') && k'.qs[s] == k.qs[s] + [c] && k'.pcbs[c].state == BLK)
  {
    var c := k.current;
    var k1 := k.(pcbs := k.pcbs[c := k.pcbs[c].(state := BLK)]);
    Blocking(k);
    ReleaseFails(k1, BLK);
    ReleaseKeepsInv(k1, BLK);
    Parked(k1);
  }

  /** The running process marked BLK satisfies the invariant for a process that has just blocked. */
  lemma Blocking(k: KState)
    requires Inv(k) && k.current != NIL
    ensures InvWith(k.(pcbs := k.pcbs[k.current := k.pcbs[k.current].(state := BLK)]), BLK)
  {
    PlacedFrame(k.pcbs, k.pcbs[k.current := k.pcbs[k.current].(state := BLK)], k.qs);
  }

  /** A process that has blocked and releases the processor ends at the tail of its BlockPQ level, still BLK. */
  lemma Parked(k: KState)
    requires InvWith(k, BLK) && k.current != NIL
    ensures var (k', r) := Release(k); var c := k.current; var s := Slot(BlockPQ, k.pcbs[c].priority);
      r == RTX_OK ==> k'.qs[s] == k.qs[s] + [c] && k'.pcbs[c].state == BLK
  {
    var c := k.current;
    var qs1 := Requeue(k);
    assert qs1 == Enqueue(k.qs, BlockPQ, c, k.pcbs[c].priority);
    DequeueHighest(qs1, ReadyPQ);
    PlacedDequeue(k.pcbs, qs1, ReadyPQ);
  }

  // ---------------------------------------------------------------- process_init

  /** One entry of the process initialization table; `pc` is the entry point's address. */
  datatype ProcInit = ProcInit(pid: int, priority: int, stackSize: int, pc: int)

  /** The initialization table: the null process first, then the six test processes. */
  function ProcTable(tests: seq<ProcInit>, nullPc: int): (t: seq<ProcInit>)
    requires |tests| == NUM_TEST_PROCS
    ensures |t| == NUM_PROCS && t[0] == ProcInit(0, NULL_PRIORITY, NULL_STACK_SIZE, nullPc)
    ensures forall i :: 1 <= i < NUM_PROCS ==> t[i] == tests[i - 1]
  {
    [ProcInit(0, NULL_PRIORITY, NULL_STACK_SIZE, nullPc)] + tests
  }

  /** What the table must satisfy for the kernel to start: priorities in range, distinct pids. */
  ghost predicate GoodTable(t: seq<ProcInit>) {
    && |t| == NUM_PROCS
    && (forall i :: 0 <= i < NUM_PROCS ==> 0 <= t[i].priority < NUM_OF_PRIORITIES)
    && (forall i, j :: 0 <= i < j < NUM_PROCS ==> t[i].pid != t[j].pid)
    && (forall i :: 0 <= i < NUM_PROCS ==> 0 <= t[i].stackSize < U32_LIMIT)
  }

  /** The indices below `n` whose priority is `l`, in index order. */
  function Level(t: seq<ProcInit>, l: int, n: int): (q: seq<int>)
    requires 0 <= n <= |t|
    ensures forall x :: x in q <==> 0 <= x < n && t[x].priority == l
    ensures forall i, j :: 0 <= i < j < |q| ==> q[i] < q[j]
  {
    if n == 0 then []
    else
      var q := Level(t, l, n - 1);
      assert forall i :: 0 <= i < |q| ==> q[i] < n - 1 by {
        forall i | 0 <= i < |q| ensures q[i] < n - 1 {
          assert q[i] in q;
        }
      }
      var r := q + (if t[n - 1].priority == l then [n - 1] else []);
      assert forall i :: 0 <= i < |q| ==> r[i] == q[i];
      r
  }

  /** The ten queues, all empty. */
  function NoQueues(): (qs: seq<seq<int>>)
    ensures |qs| == NUM_SLOTS && forall s :: 0 <= s < NUM_SLOTS ==> qs[s] == []
  {
    seq(NUM_SLOTS, s => [])
  }

  /** The queues after processEnqueue(ReadyPQ, ...) of PCBs 0 .. n-1, in that order, on empty queues. */
  function InitQs(t: seq<ProcInit>, n: int): (qs: seq<seq<int>>)
    requires GoodTable(t) && 0 <= n <= NUM_PROCS
    ensures |qs| == NUM_SLOTS
  {
    if n == 0 then NoQueues() else Enqueue(InitQs(t, n - 1), ReadyPQ, n - 1, t[n - 1].priority)
  }

  /** The state process_init leaves: every PCB NEW at its table priority, all ready in index order, no mail. */
  function InitState(t: seq<ProcInit>, sps: seq<int>, msp: int): KState
    requires GoodTable(t) && |sps| == NUM_PROCS
  {
    KState(InitPcbs(t, sps), InitQs(t, NUM_PROCS), NIL, msp, NoMail())
  }

  /** Every mailbox empty. */
  function NoMail(): (mail: seq<seq<int>>)
    ensures |mail| == NUM_PROCS && forall x :: 0 <= x < NUM_PROCS ==> mail[x] == []
  {
    seq(NUM_PROCS, x => [])
  }

  /** The PCBs process_init fills in from the table and the stack pointers. */
  function InitPcbs(t: seq<ProcInit>, sps: seq<int>): (pcbs: seq<Pcb>)
    requires |t| == NUM_PROCS && |sps| == NUM_PROCS
    ensures |pcbs| == NUM_PROCS
    ensures forall i :: 0 <= i < NUM_PROCS ==> pcbs[i] == Pcb(sps[i], t[i].pid, t[i].priority, NEW)
  {
    seq(NUM_PROCS, i requires 0 <= i < NUM_PROCS => Pcb(sps[i], t[i].pid, t[i].priority, NEW))
  }

  /** Each ReadyPQ level holds, in index order, exactly the PCBs of its priority; BlockPQ is empty. */
  lemma {:induction false} InitLevels(t: seq<ProcInit>, n: int)
    requires GoodTable(t) && 0 <= n <= NUM_PROCS
    ensures forall s :: 0 <= s < NUM_SLOTS ==> InitQs(t, n)[s] == if s < NUM_OF_PRIORITIES then Level(t, s, n) else []
  {
    if n > 0 {
      var qs := InitQs(t, n - 1);
      var pr := t[n - 1].priority;
      InitLevels(t, n - 1);
      assert InitQs(t, n) == qs[pr := qs[pr] + [n - 1]];
      forall s | 0 <= s < NUM_SLOTS
        ensures InitQs(t, n)[s] == if s < NUM_OF_PRIORITIES then Level(t, s, n) else []
      {
        if s == pr {
          assert Level(t, s, n) == Level(t, s, n - 1) + [n - 1];
        } else if s < NUM_OF_PRIORITIES {
          assert Level(t, s, n) == Level(t, s, n - 1);
        }
      }
    }
  }

  /** After enqueueing PCBs 0 .. n-1 each of them is queued exactly once and nothing else is. */
  lemma {:induction false} InitMembers(t: seq<ProcInit>, n: int)
    requires GoodTable(t) && 0 <= n <= NUM_PROCS
    ensures forall x :: Members(InitQs(t, n))[x] == if 0 <= x < n then 1 else 0
  {
    if n == 0 {
      FlattenEmpty(NoQueues());
    } else {
      var qs := InitQs(t, n - 1);
      InitMembers(t, n - 1);
      assert InitQs(t, n) == Enqueue(qs, ReadyPQ, n - 1, t[n - 1].priority);
      EnqueueMembers(qs, ReadyPQ, n - 1, t[n - 1].priority);
      forall x ensures Members(InitQs(t, n))[x] == if 0 <= x < n then 1 else 0 {
        assert Members(InitQs(t, n))[x] == Members(qs)[x] + multiset{n - 1}[x];
        assert multiset{n - 1}[x] == if x == n - 1 then 1 else 0;
      }
    }
  }

  /** After enqueueing PCBs 0 .. n-1 every queued entry is a PCB index on the ready level of its priority. */
  lemma {:induction false} InitQueued(t: seq<ProcInit>, pcbs: seq<Pcb>, n: int)
    requires GoodTable(t) && 0 <= n <= NUM_PROCS && |pcbs| == NUM_PROCS
    requires forall i :: 0 <= i < NUM_PROCS ==> pcbs[i].priority == t[i].priority && pcbs[i].state == NEW
    ensures Indices(InitQs(t, n)) && Placed(pcbs, InitQs(t, n))
  {
    if n > 0 {
      var qs := InitQs(t, n - 1);
      InitQueued(t, pcbs, n - 1);
      IndicesEnqueue(qs, ReadyPQ, n - 1, t[n - 1].priority);
      PlacedEnqueue(pcbs, qs, ReadyPQ, n - 1);
    }
  }

  /** process_init's state satisfies the invariant: nothing runs, every PCB is NEW and queued once. */
  lemma InitInv(t: seq<ProcInit>, sps: seq<int>, msp: int)
    requires GoodTable(t) && |sps| == NUM_PROCS
    ensures Inv(InitState(t, sps, msp))
  {
    var k := InitState(t, sps, msp);
    InitMembers(t, NUM_PROCS);
    InitQueued(t, k.pcbs, NUM_PROCS);
    assert Once(k.qs) by {
      forall x ensures multiset(Flatten(k.qs))[x] <= 1 {
        assert Members(k.qs)[x] <= 1;
      }
    }
    forall x | 0 <= x < NUM_PROCS ensures x in Members(k.qs) {
      assert Members(k.qs)[x] == 1;
    }
  }

  // ---------------------------------------------------------------- the initial exception frame

  /** The address `k` words below `top`, in 32-bit pointer arithmetic. */
  function Below(top: int, k: int): (a: int)
    ensures 0 <= a < U32_LIMIT
  {
    Wrap(top - 4 * k)
  }

  /** The first eight words below a stack top are eight different addresses. */
  lemma BelowDistinct(top: int, k: int, n: int)
    requires 0 <= k < n <= 8
    ensures Below(top, k) != Below(top, n)
  {
    var a, b := top - 4 * k, top - 4 * n;
    assert a == b + 4 * (n - k);
    assert a == (a / 0x1_0000_0000) * 0x1_0000_0000 + Wrap(a);
    assert b == (b / 0x1_0000_0000) * 0x1_0000_0000 + Wrap(b);
  }

  /** The `k`-th word process_init pushes (from 1): the initial xPSR, the entry point, then six zeros (R0-R3, R12, LR). */
  function FrameWord(k: int, pc: int): int {
    if k == 1 then INITIAL_XPSR else if k == 2 then pc else 0
  }

  /** The addresses of the first `n` words below `top`. */
  ghost function Addrs(top: int, n: int): set<int>
    decreases n
  {
    if n <= 0 then {} else Addrs(top, n - 1) + {Below(top, n)}
  }

  /** Memory after the first `n` pushes of the initial frame below `top`. */
  function PushWords(ram: map<int, int>, top: int, pc: int, n: int): map<int, int>
    decreases n
  {
    if n <= 0 then ram else PushWords(ram, top, pc, n - 1)[Below(top, n) := FrameWord(n, pc)]
  }

  /** The first `n` pushes write word `k` at `k` words below `top` and leave every other address as it was. */
  lemma {:induction false} PushWordsLayout(ram: map<int, int>, top: int, pc: int, n: int)
    requires 0 <= n <= 8
    ensures var r := PushWords(ram, top, pc, n);
      && (forall k :: 1 <= k <= n ==> Below(top, k) in r && r[Below(top, k)] == FrameWord(k, pc))
      && r.Keys == ram.Keys + Addrs(top, n)
      && (forall a :: a in ram && a !in Addrs(top, n) ==> r[a] == ram[a])
  {
    if n > 0 {
      PushWordsLayout(ram, top, pc, n - 1);
      var r := PushWords(ram, top, pc, n);
      forall k | 1 <= k < n ensures r[Below(top, k)] == FrameWord(k, pc) {
        BelowDistinct(top, k, n);
      }
    }
  }

  /** The whole initial frame below `top`. */
  function InitFrame(ram: map<int, int>, top: int, pc: int): map<int, int> {
    PushWords(ram, top, pc, 8)
  }

  /** The address `k` words above `sp`, in 32-bit pointer arithmetic. */
  function Above(sp: int, k: int): (a: int)
    ensures 0 <= a < 0x1_0000_0000
  {
    Wrap(sp + 4 * k)
  }

  /**
   * The saved stack pointer sits at the bottom of a hardware exception frame:
   * popping it (R0-R3, R12, LR, then PC, then xPSR) loads zeros, the entry
   * point and the initial xPSR.
   */
  lemma FrameAtSp(ram: map<int, int>, top: int, pc: int)
    ensures forall k :: 0 <= k < 6 ==> Above(Below(top, 8), k) in InitFrame(ram, top, pc) && InitFrame(ram, top, pc)[Above(Below(top, 8), k)] == 0
    ensures Above(Below(top, 8), 6) in InitFrame(ram, top, pc) && InitFrame(ram, top, pc)[Above(Below(top, 8), 6)] == pc
    ensures Above(Below(top, 8), 7) in InitFrame(ram, top, pc) && InitFrame(ram, top, pc)[Above(Below(top, 8), 7)] == INITIAL_XPSR
  {
    PushWordsLayout(ram, top, pc, 8);
    forall k | 0 <= k < 8 ensures Above(Below(top, 8), k) in InitFrame(ram, top, pc) && InitFrame(ram, top, pc)[Above(Below(top, 8), k)] == FrameWord(8 - k, pc) {
      BelowShift(top, 8, k);
    }
  }

  /** Going `k` words up from `n` words below `top` is `n - k` words below it. */
  lemma BelowShift(top: int, n: int, k: int)
    ensures Above(Below(top, n), k) == Below(top, n - k)
  {
    var a := top - 4 * n;
    assert a == (a / 0x1_0000_0000) * 0x1_0000_0000 + Wrap(a);
    assert Wrap(a) + 4 * k == a + 4 * k - (a / 0x1_0000_0000) * 0x1_0000_0000;
    ModShift(a + 4 * k, -(a / 0x1_0000_0000));
  }

  /** One more push moves the stack pointer one word further down. */
  lemma BelowNext(top: int, n: int)
    ensures Wrap(Below(top, n) - 4) == Below(top, n + 1)
  {
    BelowShift(top, n, -1);
  }

  lemma ModShift(x: int, q: int)
    ensures Wrap(x + q * 0x1_0000_0000) == Wrap(x)
  {
  }

  /** gp_stack after alloc_stack for table entries 0 .. n-1, from `gp` on; entry `n` gets this value as its stack top. */
  function GpAfter(t: seq<ProcInit>, gp: int, n: int): (r: int)
    requires GoodTable(t) && 0 <= n <= NUM_PROCS && 0 <= gp < U32_LIMIT
    ensures 0 <= r < U32_LIMIT
  {
    if n == 0 then gp else KMemory.Lowered(GpAfter(t, gp, n - 1), t[n - 1].stackSize)
  }

  /** The saved stack pointer of each PCB: eight words below its stack top. */
  function Sps(t: seq<ProcInit>, gp: int): (sps: seq<int>)
    requires GoodTable(t) && 0 <= gp < U32_LIMIT
    ensures |sps| == NUM_PROCS
  {
    seq(NUM_PROCS, i requires 0 <= i < NUM_PROCS => Below(GpAfter(t, gp, i), 8))
  }

  /** Memory after the initial frames of table entries 0 .. n-1. */
  function Frames(ram: map<int, int>, t: seq<ProcInit>, gp: int, n: int): map<int, int>
    requires GoodTable(t) && 0 <= n <= NUM_PROCS && 0 <= gp < U32_LIMIT
  {
    if n == 0 then ram else InitFrame(Frames(ram, t, gp, n - 1), GpAfter(t, gp, n - 1), t[n - 1].pc)
  }
}
