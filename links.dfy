/**
 * Intrusive singly linked lists threaded through a link table.
 *
 * Every queue of the kernel (the per-priority PCB queues, the mailboxes, the
 * timer's delay queue, the free list of memory blocks and the deferred queue of
 * the stress process) is a head/tail pair plus one `next` word per member.  The
 * model keeps the `next` words in a map from a member (a PCB index or a block
 * address) to its successor, and relates the pair and the map to the sequence of
 * members the list stands for.
 */
module Links {

  /** The head and tail of one queue (`PCBQ`, `timerQ`, `MemQueue`, a mailbox). */
  datatype Ends = Ends(head: int, tail: int)

  ghost predicate Distinct(q: seq<int>)
  {
    forall i, j :: 0 <= i < j < |q| ==> q[i] != q[j]
  }

  /**
   * `q` is the list that starts at `e.head`, follows `next` and ends at
   * `e.tail`, whose `next` is `nil`; an empty list has both ends `nil`.
   */
  ghost predicate IsList(next: map<int, int>, nil: int, e: Ends, q: seq<int>)
  {
    && nil !in q
    && Distinct(q)
    && (forall k :: 0 <= k < |q| ==> q[k] in next)
    && e.head == (if q == [] then nil else q[0])
    && e.tail == (if q == [] then nil else q[|q| - 1])
    && (forall k :: 0 <= k < |q| - 1 ==> next[q[k]] == q[k + 1])
    && (q != [] ==> next[q[|q| - 1]] == nil)
  }

  /** The empty list: both ends null. */
  lemma Empty(next: map<int, int>, nil: int)
    ensures IsList(next, nil, Ends(nil, nil), [])
  {
  }

  /** A list only depends on the links of its own members. */
  lemma Frame(next: map<int, int>, next': map<int, int>, nil: int, e: Ends, q: seq<int>)
    requires IsList(next, nil, e, q)
    requires forall x :: x in q ==> x in next' && next'[x] == next[x]
    ensures IsList(next', nil, e, q)
  {
    forall k | 0 <= k < |q|
      ensures q[k] in next' && next'[q[k]] == next[q[k]]
    {
      assert q[k] in q;
    }
  }

  /**
   * Appending at the tail: link the old tail to `x` (an empty list gets `x` as
   * head and tail); `x` must already end with `nil`.
   */
  lemma Append(next: map<int, int>, nil: int, e: Ends, q: seq<int>, x: int)
    requires IsList(next, nil, e, q)
    requires x != nil && x !in q && x in next && next[x] == nil
    ensures IsList(if q == [] then next else next[e.tail := x], nil,
                   Ends(if q == [] then x else e.head, x), q + [x])
  {
    var q' := q + [x];
    if q != [] {
      var next' := next[e.tail := x];
      forall k | 0 <= k < |q'| - 1
        ensures next'[q'[k]] == q'[k + 1]
      {
        if k < |q| - 1 {
          assert q[k] != q[|q| - 1];
        }
      }
      forall i, j | 0 <= i < j < |q'|
        ensures q'[i] != q'[j]
      {
        if j < |q| {
          assert q'[i] == q[i] && q'[j] == q[j];
        } else {
          assert q'[i] in q;
        }
      }
    }
  }

  /**
   * Taking the head: the rest of the list starts at the head's successor; the
   * list becomes empty exactly when that successor is `nil`.
   */
  lemma Pop(next: map<int, int>, nil: int, e: Ends, q: seq<int>)
    requires IsList(next, nil, e, q) && q != []
    ensures e.head in next && e.head == q[0]
    ensures (next[e.head] == nil) <==> (|q| == 1)
    ensures IsList(next, nil, Ends(next[e.head], if |q| == 1 then nil else e.tail), q[1..])
  {
    if |q| > 1 {
      assert next[q[0]] == q[1];
      assert q[1] in q;
    }
    var r := q[1..];
    forall i, j | 0 <= i < j < |r|
      ensures r[i] != r[j]
    {
      assert r[i] == q[i + 1] && r[j] == q[j + 1];
    }
  }

  /**
   * Unlinking the member at position `k > 0`: its predecessor takes over its
   * successor; if it was the tail, the predecessor becomes the tail.
   */
  lemma Unlink(next: map<int, int>, nil: int, e: Ends, q: seq<int>, k: int)
    requires IsList(next, nil, e, q) && 0 < k < |q|
    ensures q[k - 1] in next && next[q[k - 1]] == q[k] && q[k] in next
    ensures IsList(next[q[k - 1] := next[q[k]]], nil,
                   Ends(e.head, if k == |q| - 1 then q[k - 1] else e.tail),
                   q[..k] + q[k + 1..])
  {
    var r := q[..k] + q[k + 1..];
    var next' := next[q[k - 1] := next[q[k]]];
    assert |r| == |q| - 1;
    assert forall i :: 0 <= i < k ==> r[i] == q[i];
    assert forall i :: k <= i < |r| ==> r[i] == q[i + 1];
    forall i, j | 0 <= i < j < |r|
      ensures r[i] != r[j]
    {
      var i' := if i < k then i else i + 1;
      var j' := if j < k then j else j + 1;
      assert r[i] == q[i'] && r[j] == q[j'];
    }
    forall i | 0 <= i < |r|
      ensures r[i] in next'
    {
    }
    forall i | 0 <= i < |r| - 1
      ensures next'[r[i]] == r[i + 1]
    {
      if i < k - 1 {
        assert r[i] == q[i] && q[i] != q[k - 1];
      } else if i == k - 1 {
        assert r[i] == q[k - 1];
      } else {
        assert r[i] == q[i + 1] && q[i + 1] != q[k - 1];
      }
    }
    if k < |q| - 1 {
      assert r[|r| - 1] == q[|q| - 1] && q[|q| - 1] != q[k - 1];
    } else if k > 1 {
      assert r[|r| - 1] == q[k - 1];
    }
    assert nil !in r by {
      forall i | 0 <= i < |r| ensures r[i] != nil {
        var i' := if i < k then i else i + 1;
        assert r[i] == q[i'];
      }
    }
    assert IsList(next', nil, Ends(e.head, if k == |q| - 1 then q[k - 1] else e.tail), r);
  }

  /**
   * Inserting `x` right after the member at position `k`: that member is linked
   * to `x` and `x` to its old successor; after the tail, `x` becomes the tail.
   */
  lemma InsertAfter(next: map<int, int>, nil: int, e: Ends, q: seq<int>, k: int, x: int)
    requires IsList(next, nil, e, q) && 0 <= k < |q|
    requires x != nil && x !in q
    ensures q[k] in next
    ensures IsList(next[q[k] := x][x := next[q[k]]], nil,
                   Ends(e.head, if k == |q| - 1 then x else e.tail),
                   q[..k + 1] + [x] + q[k + 1..])
  {
    var r := q[..k + 1] + [x] + q[k + 1..];
    var next' := next[q[k] := x][x := next[q[k]]];
    assert |r| == |q| + 1;
    assert forall i :: 0 <= i <= k ==> r[i] == q[i];
    assert r[k + 1] == x;
    assert forall i :: k + 1 < i < |r| ==> r[i] == q[i - 1];
    forall i, j | 0 <= i < j < |r|
      ensures r[i] != r[j]
    {
      if i == k + 1 {
        assert r[j] == q[j - 1];
      } else if j == k + 1 {
        assert r[i] == q[i];
      } else {
        var i' := if i <= k then i else i - 1;
        var j' := if j <= k then j else j - 1;
        assert r[i] == q[i'] && r[j] == q[j'];
      }
    }
    forall i | 0 <= i < |r|
      ensures r[i] in next' && r[i] != nil
    {
      if i != k + 1 {
        var i' := if i <= k then i else i - 1;
        assert r[i] == q[i'];
      }
    }
    forall i | 0 <= i < |r| - 1
      ensures next'[r[i]] == r[i + 1]
    {
      if i < k {
        assert r[i] == q[i] && q[i] != q[k];
      } else if i == k {
      } else if i == k + 1 {
        if k < |q| - 1 {
          assert next[q[k]] == q[k + 1];
        }
      } else {
        assert r[i] == q[i - 1] && q[i - 1] != q[k];
      }
    }
    if k < |q| - 1 {
      assert r[|r| - 1] == q[|q| - 1] && q[|q| - 1] != q[k];
    }
    assert IsList(next', nil, Ends(e.head, if k == |q| - 1 then x else e.tail), r);
  }

  /** Pushing `x` in front: `x` becomes the head and is linked to the old head. */
  lemma Push(next: map<int, int>, nil: int, e: Ends, q: seq<int>, x: int)
    requires IsList(next, nil, e, q)
    requires x != nil && x !in q
    ensures IsList(next[x := e.head], nil, Ends(x, if q == [] then x else e.tail), [x] + q)
  {
    var r := [x] + q;
    var next' := next[x := e.head];
    forall i, j | 0 <= i < j < |r|
      ensures r[i] != r[j]
    {
      assert r[j] == q[j - 1];
      if i > 0 {
        assert r[i] == q[i - 1];
      }
    }
    forall i | 0 <= i < |r| - 1
      ensures next'[r[i]] == r[i + 1]
    {
      if i > 0 {
        assert r[i] == q[i - 1] && q[i - 1] != x;
      }
    }
    if q != [] {
      assert q[|q| - 1] != x;
    }
  }

  /** The members of several queues, level after level. */
  function Flatten(qs: seq<seq<int>>): (r: seq<int>)
    ensures |qs| == 1 ==> r == qs[0]
  {
    if qs == [] then [] else qs[0] + Flatten(qs[1..])
  }

  /** Replacing one level changes the flattened multiset by exactly that level. */
  lemma {:induction false} FlattenUpdate(qs: seq<seq<int>>, l: int, q': seq<int>)
    requires 0 <= l < |qs|
    ensures multiset(Flatten(qs[l := q'])) + multiset(qs[l]) == multiset(Flatten(qs)) + multiset(q')
  {
    var qs' := qs[l := q'];
    if l > 0 {
      FlattenUpdate(qs[1..], l - 1, q');
      assert qs'[1..] == qs[1..][l - 1 := q'];
      assert qs[1..][l - 1] == qs[l];
      assert qs'[0] == qs[0];
      var a, a' := qs[1..], qs'[1..];
      calc {
        multiset(Flatten(qs')) + multiset(qs[l]);
        multiset(qs[0]) + multiset(Flatten(a')) + multiset(a[l - 1]);
        multiset(qs[0]) + (multiset(Flatten(a')) + multiset(a[l - 1]));
        multiset(qs[0]) + (multiset(Flatten(a)) + multiset(q'));
        multiset(Flatten(qs)) + multiset(q');
      }
    } else {
      assert qs'[1..] == qs[1..];
      assert Flatten(qs') == q' + Flatten(qs[1..]);
    }
  }

  /** Appending `x` to one level adds exactly `x` to the flattened multiset. */
  lemma {:induction false} FlattenSnoc(qs: seq<seq<int>>, l: int, x: int)
    requires 0 <= l < |qs|
    ensures multiset(Flatten(qs[l := qs[l] + [x]])) == multiset(Flatten(qs)) + multiset{x}
  {
    var qs' := qs[l := qs[l] + [x]];
    if l > 0 {
      FlattenSnoc(qs[1..], l - 1, x);
      assert qs'[1..] == qs[1..][l - 1 := qs[1..][l - 1] + [x]];
    } else {
      assert qs'[1..] == qs[1..];
      assert Flatten(qs') == qs[0] + [x] + Flatten(qs[1..]);
    }
  }

  /** Taking the head off one level removes exactly that head from the flattened multiset. */
  lemma {:induction false} FlattenBehead(qs: seq<seq<int>>, l: int)
    requires 0 <= l < |qs| && qs[l] != []
    ensures multiset(Flatten(qs[l := qs[l][1..]])) + multiset{qs[l][0]} == multiset(Flatten(qs))
  {
    var qs' := qs[l := qs[l][1..]];
    if l > 0 {
      FlattenBehead(qs[1..], l - 1);
      assert qs'[1..] == qs[1..][l - 1 := qs[1..][l - 1][1..]];
    } else {
      assert qs'[1..] == qs[1..];
      assert qs[0] == [qs[0][0]] + qs[0][1..];
      assert Flatten(qs) == [qs[0][0]] + (qs[0][1..] + Flatten(qs[1..]));
    }
  }

  /** Cutting the member at position `j` out of one level removes exactly it from the flattened multiset. */
  lemma {:induction false} FlattenCut(qs: seq<seq<int>>, l: int, j: int)
    requires 0 <= l < |qs| && 0 <= j < |qs[l]|
    ensures multiset(Flatten(qs[l := qs[l][..j] + qs[l][j + 1..]])) + multiset{qs[l][j]} == multiset(Flatten(qs))
  {
    var q := qs[l];
    var q' := q[..j] + q[j + 1..];
    FlattenUpdate(qs, l, q');
    assert q == q[..j] + [q[j]] + q[j + 1..];
    assert multiset(q) == multiset(q') + multiset{q[j]};
    var a := multiset(Flatten(qs[l := q']));
    forall x ensures (a + multiset{q[j]})[x] == multiset(Flatten(qs))[x] {
      assert (a + multiset(q))[x] == (multiset(Flatten(qs)) + multiset(q'))[x];
    }
  }

  /** Levels that are all empty flatten to nothing. */
  lemma {:induction false} FlattenEmpty(qs: seq<seq<int>>)
    requires forall l :: 0 <= l < |qs| ==> qs[l] == []
    ensures Flatten(qs) == []
  {
    if qs != [] {
      FlattenEmpty(qs[1..]);
    }
  }

  /** A value on no level is not in the flattened queues. */
  lemma {:induction false} FlattenAbsent(qs: seq<seq<int>>, x: int)
    requires forall l :: 0 <= l < |qs| ==> x !in qs[l]
    ensures x !in Flatten(qs)
  {
    if qs != [] {
      assert x !in qs[0];
      FlattenAbsent(qs[1..], x);
    }
  }

  /** A member of one level is a member of the flattened queues. */
  lemma {:induction false} FlattenMember(qs: seq<seq<int>>, l: int, x: int)
    requires 0 <= l < |qs| && x in qs[l]
    ensures x in Flatten(qs)
  {
    if l > 0 {
      FlattenMember(qs[1..], l - 1, x);
    }
  }

  /** Every member of the flattened queues lies on some level. */
  lemma {:induction false} FlattenWitness(qs: seq<seq<int>>, x: int) returns (l: int)
    requires x in Flatten(qs)
    ensures 0 <= l < |qs| && x in qs[l]
  {
    if x in qs[0] {
      l := 0;
    } else {
      var l' := FlattenWitness(qs[1..], x);
      l := l' + 1;
    }
  }

  /** A value on two different levels occurs at least twice in the flattened queues. */
  lemma FlattenTwice(qs: seq<seq<int>>, l1: int, l2: int, x: int)
    requires 0 <= l1 < |qs| && 0 <= l2 < |qs| && l1 != l2
    requires x in qs[l1] && x in qs[l2]
    ensures multiset(Flatten(qs))[x] >= 2
  {
    var none: seq<int> := [];
    var rest := qs[l1 := none];
    FlattenUpdate(qs, l1, none);
    assert rest[l2] == qs[l2];
    FlattenMember(rest, l2, x);
    assert multiset(none) == multiset{};
    assert multiset(Flatten(rest)) + multiset(qs[l1]) == multiset(Flatten(qs));
    assert multiset(Flatten(rest))[x] >= 1;
    assert multiset(qs[l1])[x] >= 1;
  }
}
