/**
 * Timer 0's delay queue: envelopes waiting for their `send_time`, kept in a
 * list sorted by non-decreasing send time; the millisecond counter; and the
 * tick handler that moves newly delayed envelopes into the queue and passes on
 * every envelope that has come due.
 *
 * The envelope as declared (k_message.h) has no `send_time`; the model adds it
 * as a 32-bit unsigned word, the type `get_time` returns.
 */
module Timer {
  import opened Links
  import opened Ipc

  const NULL: int := 0

  /** Every member has a send time, and send times never decrease along the list. */
  ghost predicate Sorted(q: seq<int>, t: map<int, int>) {
    && (forall k :: 0 <= k < |q| ==> q[k] in t)
    && (forall i, j :: 0 <= i < j < |q| ==> t[q[i]] <= t[q[j]])
  }

  /** Every send time is a 32-bit unsigned word. */
  ghost predicate Words(t: map<int, int>) {
    forall e :: e in t ==> 0 <= t[e] < U32_LIMIT
  }

  ghost predicate Timed(q: seq<int>, t: map<int, int>) {
    forall k :: 0 <= k < |q| ==> q[k] in t
  }

  /** The place of a new envelope with send time `v`: before the first entry whose send time is at least `v`. */
  function InsertPoint(q: seq<int>, t: map<int, int>, v: int): (k: nat)
    requires Timed(q, t)
    ensures k <= |q|
    ensures forall i :: 0 <= i < k ==> t[q[i]] < v
    ensures k < |q| ==> v <= t[q[k]]
  {
    if q == [] || v <= t[q[0]] then 0
    else
      var k := InsertPoint(q[1..], t, v);
      assert forall i :: 1 <= i < k + 1 ==> q[i] == q[1..][i - 1];
      k + 1
  }

  /** The queue after inserting `x` at its place. */
  function InsertSorted(q: seq<int>, t: map<int, int>, x: int): (r: seq<int>)
    requires Timed(q, t) && x in t
    ensures multiset(r) == multiset(q) + multiset{x} && Timed(r, t)
  {
    var k := InsertPoint(q, t, t[x]);
    InsertAt(q, t, k, x);
    q[..k] + [x] + q[k..]
  }

  lemma InsertAt(q: seq<int>, t: map<int, int>, k: nat, x: int)
    requires Timed(q, t) && x in t && k <= |q|
    ensures var r := q[..k] + [x] + q[k..]; multiset(r) == multiset(q) + multiset{x} && Timed(r, t)
  {
    var r := q[..k] + [x] + q[k..];
    assert q[..k] + q[k..] == q;
    assert multiset(r) == multiset(q[..k]) + multiset{x} + multiset(q[k..]);
    assert forall i :: 0 <= i < |r| ==> r[i] == if i < k then q[i] else if i == k then x else q[i - 1];
  }

  /** Putting `x` between entries with smaller send times and entries with send times at least its own keeps a sorted queue sorted. */
  lemma SortedInsertAt(q: seq<int>, t: map<int, int>, k: nat, x: int)
    requires Sorted(q, t) && x in t && k <= |q|
    requires forall i :: 0 <= i < k ==> t[q[i]] < t[x]
    requires k < |q| ==> t[x] <= t[q[k]]
    ensures Sorted(q[..k] + [x] + q[k..], t)
  {
    var r := q[..k] + [x] + q[k..];
    assert forall i :: 0 <= i < |r| ==> r[i] == if i < k then q[i] else if i == k then x else q[i - 1];
    forall i, j | 0 <= i < j < |r| ensures t[r[i]] <= t[r[j]] {
      if j > k && i <= k {
        assert t[q[k]] <= t[q[j - 1]];
      }
    }
  }

  /**
   * Insertion keeps the queue sorted, and on a tie the new envelope goes
   * before the ones already there with the same send time.
   */
  lemma InsertKeepsSorted(q: seq<int>, t: map<int, int>, x: int)
    requires Sorted(q, t) && x in t
    ensures Sorted(InsertSorted(q, t, x), t)
    ensures var r := InsertSorted(q, t, x); var k := InsertPoint(q, t, t[x]);
      r[k] == x && (forall i :: 0 <= i < k ==> t[r[i]] < t[x]) && (forall i :: k < i < |r| ==> t[x] <= t[r[i]])
  {
    var r := InsertSorted(q, t, x);
    var k := InsertPoint(q, t, t[x]);
    SortedInsertAt(q, t, k, x);
    assert forall i :: 0 <= i < |r| ==> r[i] == if i < k then q[i] else if i == k then x else q[i - 1];
    forall i | k < i < |r| ensures t[x] <= t[r[i]] {
      assert t[q[k]] <= t[q[i - 1]];
    }
  }

  /** Each pending envelope inserted in turn, first one first. */
  function InsertAll(q: seq<int>, t: map<int, int>, ps: seq<int>): (r: seq<int>)
    requires Timed(q, t) && Timed(ps, t)
    ensures multiset(r) == multiset(q) + multiset(ps) && Timed(r, t)
    decreases |ps|
  {
    if ps == [] then q
    else
      var r := InsertAll(InsertSorted(q, t, ps[0]), t, ps[1..]);
      assert ps == [ps[0]] + ps[1..];
      r
  }

  lemma {:induction false} InsertAllSorted(q: seq<int>, t: map<int, int>, ps: seq<int>)
    requires Sorted(q, t) && Timed(ps, t)
    ensures Sorted(InsertAll(q, t, ps), t)
    decreases |ps|
  {
    if ps != [] {
      InsertKeepsSorted(q, t, ps[0]);
      InsertAllSorted(InsertSorted(q, t, ps[0]), t, ps[1..]);
    }
  }

  /** Inserting the next pending envelope leaves the rest still to insert, and none of them queued. */
  lemma PendingStep(q: seq<int>, t: map<int, int>, pending: seq<int>, k: int)
    requires Timed(q, t) && Timed(pending, t) && Distinct(pending) && 0 <= k < |pending|
    requires forall j :: k <= j < |pending| ==> pending[j] !in q
    ensures var q' := InsertSorted(q, t, pending[k]);
      && InsertAll(q, t, pending[k..]) == InsertAll(q', t, pending[k + 1..])
      && forall j :: k < j < |pending| ==> pending[j] !in q'
  {
    assert pending[k..][1..] == pending[k + 1..];
    var q' := InsertSorted(q, t, pending[k]);
    forall j | k < j < |pending| ensures pending[j] !in q' {
      assert pending[j] != pending[k];
      assert pending[j] !in multiset(q) + multiset{pending[k]};
    }
  }

  /** One more due entry moved from the front of the queue to the delivered list. */
  lemma Delivered(delivered: seq<int>, before: seq<int>, t: map<int, int>, now: int)
    requires before != [] && Timed(before, t) && t[before[0]] < now
    requires Timed(delivered, t) && forall j :: 0 <= j < |delivered| ==> t[delivered[j]] < now
    ensures var d := delivered + [before[0]]; d + before[1..] == delivered + before
    ensures var d := delivered + [before[0]]; Timed(d, t) && forall j :: 0 <= j < |d| ==> t[d[j]] < now
  {
    var d := delivered + [before[0]];
    assert before == [before[0]] + before[1..];
    assert forall j :: 0 <= j < |d| ==> d[j] == if j < |delivered| then delivered[j] else before[0];
  }

  class Timer0 {
    /** `g_timer_count`: milliseconds since start, a 32-bit counter. */
    var gTimerCount: int
    /** `Q`: the ends of the delay queue. */
    var Q: Ends
    /** The `next` word of each envelope. */
    var next: map<int, int>
    /** The `send_time` word of each envelope. */
    var sendTime: map<int, int>
    /** The delay queue, head first. */
    ghost var q: seq<int>

    ghost predicate Valid()
      reads this
    {
      0 <= gTimerCount < U32_LIMIT && IsList(next, NULL, Q, q) && Sorted(q, sendTime) && Words(sendTime)
    }

    /** The counter starts at 0 and timer_init empties the queue. */
    constructor (times: map<int, int>)
      requires Words(times)
      ensures Valid() && q == [] && gTimerCount == 0 && sendTime == times
    {
      gTimerCount := 0;
      Q := Ends(NULL, NULL);
      next := map[];
      sendTime := times;
      q := [];
      Empty(map[], NULL);
    }

    /** get_time */
    method GetTime() returns (r: int)
      ensures r == gTimerCount
    {
      r := gTimerCount;
    }

    /**
     * timer_insert: walks the queue and links `env` in before the first entry
     * whose send time is at least its own, or at the end.  The code reads
     * `curr->next` before it checks `curr` for NULL; that value is unused on
     * the empty-queue path, so here it is read after the check.
     */
    method TimerInsert(env: int)
      requires Valid() && env != NULL && env !in q && env in sendTime
      modifies this`Q, this`next, this`q
      ensures Valid() && q == InsertSorted(old(q), sendTime, env)
      ensures forall a :: a in old(next) && a != env && a !in old(q) ==> a in next && next[a] == old(next)[a]
    {
      var curr := Q.head;
      if curr == NULL {
        LinkFirst(env);
        return;
      }
      var nxt := next[curr];
      if sendTime[env] <= sendTime[curr] {
        LinkFirst(env);
        return;
      }
      ghost var i := 0;
      while true
        invariant 0 <= i < |q| && curr == q[i] && nxt == (if i < |q| - 1 then q[i + 1] else NULL)
        invariant forall j :: 0 <= j <= i ==> sendTime[q[j]] < sendTime[env]
        invariant Valid() && Q == old(Q) && next == old(next) && q == old(q)
        decreases |q| - i
      {
        if nxt == NULL || sendTime[env] <= sendTime[nxt] {
          LinkAfter(curr, i, env);
          return;
        }
        curr := nxt;
        nxt := next[curr];
        i := i + 1;
      }
    }

    /** The two exits before timer_insert's loop: `env` becomes the only entry, or goes in front of the head. */
    method LinkFirst(env: int)
      requires Valid() && env != NULL && env !in q && env in sendTime
      requires InsertPoint(q, sendTime, sendTime[env]) == 0
      modifies this`Q, this`next, this`q
      ensures Valid() && q == InsertSorted(old(q), sendTime, env)
      ensures forall a :: a in old(next) && a != env && a !in old(q) ==> a in next && next[a] == old(next)[a]
    {
      InsertKeepsSorted(q, sendTime, env);
      Push(next, NULL, Q, q, env);
      if Q.head == NULL {
        next := next[env := NULL];
        Q := Ends(env, env);
      } else {
        next := next[env := Q.head];
        Q := Ends(env, Q.tail);
      }
      q := [env] + q;
    }

    /**
     * The two exits of timer_insert's loop: `env` goes between `curr` and its
     * successor, and becomes the tail when `curr` had none.
     */
    method LinkAfter(curr: int, ghost i: nat, env: int)
      requires Valid() && env != NULL && env !in q && env in sendTime
      requires i < |q| && curr == q[i] && InsertPoint(q, sendTime, sendTime[env]) == i + 1
      modifies this`Q, this`next, this`q
      ensures Valid() && q == InsertSorted(old(q), sendTime, env)
      ensures forall a :: a in old(next) && a != env && a !in old(q) ==> a in next && next[a] == old(next)[a]
    {
      InsertKeepsSorted(q, sendTime, env);
      InsertAfter(next, NULL, Q, q, i, env);
      var nxt := next[curr];
      next := next[curr := env][env := nxt];
      if nxt == NULL {
        Q := Ends(Q.head, env);
      }
      q := q[..i + 1] + [env] + q[i + 1..];
    }

    /** timer_dequeue: unlinks and returns the head.  It does not check for an empty queue. */
    method TimerDequeue() returns (env: int)
      requires Valid() && q != []
      modifies this`Q, this`next, this`q
      ensures Valid() && env == old(q)[0] && q == old(q)[1..]
      ensures next == old(next)[env := NULL]
    {
      Pop(next, NULL, Q, q);
      env := Q.head;
      var rest := next[env];
      Q := Ends(rest, Q.tail);
      next := next[env := NULL];
      if Q.head == NULL {
        Q := Ends(Q.head, NULL);
      }
      Frame(old(next), next, NULL, Q, q[1..]);
      q := q[1..];
    }

    /** message_ready: the head exists and its send time is strictly before now. */
    method MessageReady() returns (r: bool)
      requires Valid()
      ensures r == (q != [] && sendTime[q[0]] < gTimerCount)
    {
      var now := GetTime();
      r := Q.head != NULL && sendTime[Q.head] < now;
    }

    /** The handler's first loop: every pending envelope goes into the queue, in order. */
    method InsertPending(pending: seq<int>)
      requires Valid() && Distinct(pending) && NULL !in pending
      requires forall k :: 0 <= k < |pending| ==> pending[k] in sendTime && pending[k] !in q
      modifies this`Q, this`next, this`q
      ensures Valid() && q == InsertAll(old(q), sendTime, pending)
    {
      var k := 0;
      while k < |pending|
        invariant 0 <= k <= |pending| && Valid()
        invariant InsertAll(q, sendTime, pending[k..]) == InsertAll(old(q), sendTime, pending)
        invariant forall j :: k <= j < |pending| ==> pending[j] !in q
      {
        PendingStep(q, sendTime, pending, k);
        TimerInsert(pending[k]);
        k := k + 1;
      }
    }

    /** The handler's second loop: while the head is due, dequeue it and pass it on. */
    method DeliverDue() returns (delivered: seq<int>)
      requires Valid()
      modifies this`Q, this`next, this`q
      ensures Valid() && delivered + q == old(q) && Timed(delivered, sendTime)
      ensures forall k :: 0 <= k < |delivered| ==> sendTime[delivered[k]] < gTimerCount
      ensures q == [] || gTimerCount <= sendTime[q[0]]
    {
      delivered := [];
      var ready := MessageReady();
      while ready
        invariant Valid() && delivered + q == old(q) && Timed(delivered, sendTime)
        invariant forall j :: 0 <= j < |delivered| ==> sendTime[delivered[j]] < gTimerCount
        invariant ready == (q != [] && sendTime[q[0]] < gTimerCount)
        decreases |q|
      {
        ghost var before := q;
        var env := TimerDequeue();
        Delivered(delivered, before, sendTime, gTimerCount);
        delivered := delivered + [env];
        ready := MessageReady();
      }
    }

    /**
     * c_TIMER0_IRQHandler: one tick.  `pending` is what the non-blocking
     * receive returns, in order, until it returns NULL; `delivered` is what the
     * handler passes to timer_send_message, in order.
     */
    method TimerIRQHandler(pending: seq<int>) returns (delivered: seq<int>)
      requires Valid() && Distinct(pending) && NULL !in pending
      requires forall k :: 0 <= k < |pending| ==> pending[k] in sendTime && pending[k] !in q
      modifies this`gTimerCount, this`Q, this`next, this`q
      ensures Valid() && gTimerCount == Wrap(old(gTimerCount) + 1)
      ensures delivered + q == InsertAll(old(q), sendTime, pending)
      ensures Sorted(delivered, sendTime)
      ensures forall k :: 0 <= k < |delivered| ==> sendTime[delivered[k]] < gTimerCount
      ensures q == [] || gTimerCount <= sendTime[q[0]]
    {
      gTimerCount := Wrap(gTimerCount + 1);
      InsertPending(pending);
      ghost var all := q;
      delivered := DeliverDue();
      assert Sorted(delivered, sendTime) by {
        forall i, j | 0 <= i < j < |delivered| ensures sendTime[delivered[i]] <= sendTime[delivered[j]] {
          assert delivered[i] == all[i] && delivered[j] == all[j];
        }
      }
    }
  }
}
