/**
 * The stress-test process C: it counts COUNT_REPORT messages, and on every one
 * whose count is a multiple of 20 it reports to the CRT, arms a 10-second
 * WAKEUP10 and, until that arrives, parks every other message on a local FIFO
 * threaded through the messages' own envelopes.  Parked messages are taken
 * before any new receive.
 */
module Stress {
  import opened Ipc
  import opened Links

  const NULL: int := 0
  const COUNT_REPORT: int := 999
  const WAKEUP10: int := 10

  /** A message received: the address of its MSG_BUF and its contents. */
  datatype Letter = Letter(addr: int, msg: MsgBuf)

  /** The text copyStr writes over a report: "Process C\n\r" and its NUL. */
  const REPORT: seq<char> := ['P', 'r', 'o', 'c', 'e', 's', 's', ' ', 'C', '\n', '\r', '\0']

  /** What procC can handle: a message past an envelope, with room for the report text. */
  predicate Handleable(l: Letter) {
    ENVELOPE_SIZE < l.addr < U32_LIMIT && |l.msg.mtext| >= |REPORT|
  }

  /** A COUNT_REPORT whose count (the first text byte) is a multiple of 20. */
  predicate Triggers(m: MsgBuf) {
    m.mtype == COUNT_REPORT && |m.mtext| > 0 && (m.mtext[0] as int) % 20 == 0
  }

  /** The report procC sends on to the CRT: the same block, made DEFAULT with the report text. */
  function Reported(m: MsgBuf): (r: MsgBuf)
    requires |m.mtext| >= |REPORT|
    ensures r.mtype == DEFAULT && |r.mtext| == |m.mtext| && r.mtext[..|REPORT|] == REPORT
  {
    MsgBuf(DEFAULT, REPORT + m.mtext[|REPORT|..])
  }

  /** The calls made until procC blocks in receive, the parked messages, and whether it waits for WAKEUP10. */
  datatype Outcome = Outcome(actions: seq<Action>, parked: seq<Letter>, waiting: bool)

  function Prefix(a: seq<Action>, o: Outcome): Outcome {
    o.(actions := a + o.actions)
  }

  lemma PrefixPrefix(a: seq<Action>, b: seq<Action>, o: Outcome)
    ensures Prefix(a, Prefix(b, o)) == Prefix(a + b, o)
  {
    assert a + (b + o.actions) == (a + b) + o.actions;
  }

  ghost predicate AllHandleable(ls: seq<Letter>) {
    forall k :: 0 <= k < |ls| ==> Handleable(ls[k])
  }

  /** The main loop: take a parked message if there is one, else receive one. */
  function Run(parked: seq<Letter>, inbox: seq<Letter>): Outcome
    requires AllHandleable(parked) && AllHandleable(inbox)
    decreases 2 * |inbox| + |parked|, 1
  {
    if parked != [] then Handle(parked[0], parked[1..], inbox)
    else if inbox == [] then Outcome([], [], false)
    else Handle(inbox[0], [], inbox[1..])
  }

  /** The rest of the main loop for the message `p` just taken. */
  function Handle(p: Letter, parked: seq<Letter>, inbox: seq<Letter>): Outcome
    requires Handleable(p) && AllHandleable(parked) && AllHandleable(inbox)
    decreases 2 * |inbox| + |parked|, 2
  {
    if Triggers(p.msg) then
      Prefix([Send(PID_CRT, Reported(p.msg)), DelayedSendNew(PID_C, WAKEUP10, 10000)], Wait(parked, inbox))
    else
      Prefix([Release(p.msg)], Run(parked, inbox))
  }

  /** The inner loop: park everything up to the WAKEUP10, release that, resume the main loop. */
  function Wait(parked: seq<Letter>, inbox: seq<Letter>): Outcome
    requires AllHandleable(parked) && AllHandleable(inbox)
    decreases 2 * |inbox| + |parked|, 0
  {
    if inbox == [] then Outcome([], parked, true)
    else if inbox[0].msg.mtype == WAKEUP10 then Prefix([Release(inbox[0].msg)], Run(parked, inbox[1..]))
    else Wait(parked + [inbox[0]], inbox[1..])
  }

  /** A parked message is handled before anything new is received, oldest first. */
  lemma ParkedFirst(parked: seq<Letter>, inbox: seq<Letter>)
    requires AllHandleable(parked) && AllHandleable(inbox) && parked != []
    ensures Triggers(parked[0].msg) ==>
      Run(parked, inbox) == Prefix([Send(PID_CRT, Reported(parked[0].msg)), DelayedSendNew(PID_C, WAKEUP10, 10000)],
                                   Wait(parked[1..], inbox))
    ensures !Triggers(parked[0].msg) ==> Run(parked, inbox) == Prefix([Release(parked[0].msg)], Run(parked[1..], inbox))
  {
  }

  function Releases(ls: seq<Letter>): (r: seq<Action>)
    ensures |r| == |ls| && forall k :: 0 <= k < |ls| ==> r[k] == Release(ls[k].msg)
  {
    if ls == [] then [] else [Release(ls[0].msg)] + Releases(ls[1..])
  }

  /** Parked messages that trigger nothing are released in the order they were parked. */
  lemma {:induction false} ParkedInOrder(parked: seq<Letter>, inbox: seq<Letter>)
    requires AllHandleable(parked) && AllHandleable(inbox)
    requires forall k :: 0 <= k < |parked| ==> !Triggers(parked[k].msg)
    ensures Run(parked, inbox) == Prefix(Releases(parked), Run([], inbox))
    decreases |parked|
  {
    if parked != [] {
      assert AllHandleable(parked[1..]) by {
        forall k | 0 <= k < |parked[1..]| ensures Handleable(parked[1..][k]) {
          assert parked[1..][k] == parked[k + 1];
        }
      }
      assert forall k :: 0 <= k < |parked[1..]| ==> !Triggers(parked[1..][k].msg) by {
        forall k | 0 <= k < |parked[1..]| ensures !Triggers(parked[1..][k].msg) {
          assert parked[1..][k] == parked[k + 1];
        }
      }
      ParkedInOrder(parked[1..], inbox);
      ParkedFirst(parked, inbox);
      PrefixPrefix([Release(parked[0].msg)], Releases(parked[1..]), Run([], inbox));
      assert Releases(parked) == [Release(parked[0].msg)] + Releases(parked[1..]);
    }
  }

  /**
   * While waiting, every message before the WAKEUP10 is parked behind the
   * ones already parked, in arrival order; the WAKEUP10 itself is released.
   */
  lemma {:induction false} WaitParks(parked: seq<Letter>, others: seq<Letter>, wake: Letter, rest: seq<Letter>)
    requires AllHandleable(parked) && AllHandleable(others) && Handleable(wake) && AllHandleable(rest)
    requires forall k :: 0 <= k < |others| ==> others[k].msg.mtype != WAKEUP10
    requires wake.msg.mtype == WAKEUP10
    ensures AllHandleable(others + [wake] + rest)
    ensures Wait(parked, others + [wake] + rest) == Prefix([Release(wake.msg)], Run(parked + others, rest))
    decreases |others|
  {
    var inbox := others + [wake] + rest;
    assert forall k :: 0 <= k < |inbox| ==> inbox[k] == if k < |others| then others[k] else if k == |others| then wake else rest[k - |others| - 1];
    if others == [] {
      assert inbox[1..] == rest;
      assert parked + others == parked;
    } else {
      assert inbox[1..] == others[1..] + [wake] + rest;
      WaitParks(parked + [others[0]], others[1..], wake, rest);
      assert parked + [others[0]] + others[1..] == parked + others;
    }
  }

  /** With no WAKEUP10 to come, everything received is parked and procC stays blocked waiting. */
  lemma {:induction false} WaitBlocked(parked: seq<Letter>, inbox: seq<Letter>)
    requires AllHandleable(parked) && AllHandleable(inbox)
    requires forall k :: 0 <= k < |inbox| ==> inbox[k].msg.mtype != WAKEUP10
    ensures Wait(parked, inbox) == Outcome([], parked + inbox, true)
    decreases |inbox|
  {
    if inbox != [] {
      WaitBlocked(parked + [inbox[0]], inbox[1..]);
      assert parked + [inbox[0]] + inbox[1..] == parked + inbox;
    }
  }

  /** The envelopes of a sequence of messages. */
  function Envs(ls: seq<Letter>): (r: seq<int>)
    ensures |r| == |ls| && forall k :: 0 <= k < |ls| ==> r[k] == MsgBufToEnvelope(ls[k].addr)
  {
    seq(|ls|, k requires 0 <= k < |ls| => MsgBufToEnvelope(ls[k].addr))
  }

  /** The inbox holds distinct blocks, all of which procC can handle. */
  ghost predicate Deliverable(inbox: seq<Letter>) {
    AllHandleable(inbox) && forall i, j :: 0 <= i < j < |inbox| ==> inbox[i].addr != inbox[j].addr
  }

  /** Local state of procC: the parked letters are in the list, their contents in memory, and none is still to come. */
  ghost predicate Loop(inbox: seq<Letter>, i: int, next: map<int, int>, head: int, tail: int,
                       mem: map<int, MsgBuf>, parked: seq<Letter>)
  {
    && 0 <= i <= |inbox|
    && IsList(next, NULL, Ends(head, tail), Envs(parked))
    && AllHandleable(parked)
    && (forall k :: 0 <= k < |parked| ==> parked[k].addr in mem && mem[parked[k].addr] == parked[k].msg)
    && (forall k, j :: 0 <= k < |parked| && i <= j < |inbox| ==> parked[k].addr != inbox[j].addr)
  }

  /** The envelope of a letter procC can handle lies just below its message, and is not NULL. */
  lemma EnvelopeOf(l: Letter)
    requires Handleable(l)
    ensures MsgBufToEnvelope(l.addr) == l.addr - ENVELOPE_SIZE != NULL
  {
  }

  lemma Park(inbox: seq<Letter>, i: int, next: map<int, int>, head: int, tail: int,
             mem: map<int, MsgBuf>, parked: seq<Letter>)
    requires Deliverable(inbox) && Loop(inbox, i, next, head, tail, mem, parked) && i < |inbox|
    ensures var p := inbox[i]; var env := MsgBufToEnvelope(p.addr);
      var next1 := next[env := NULL];
      Loop(inbox, i + 1, if tail == NULL then next1 else next1[tail := env],
           if tail == NULL then env else head, env, mem[p.addr := p.msg], parked + [p])
  {
    var p := inbox[i];
    var env := MsgBufToEnvelope(p.addr);
    var q := Envs(parked);
    EnvelopeOf(p);
    assert env !in q by {
      forall k | 0 <= k < |q| ensures q[k] != env {
        EnvelopeOf(parked[k]);
        assert parked[k].addr != p.addr;
      }
    }
    var next1 := next[env := NULL];
    Frame(next, next1, NULL, Ends(head, tail), q);
    Append(next1, NULL, Ends(head, tail), q, env);
    assert Envs(parked + [p]) == q + [env];
    assert tail == NULL <==> q == [];
    ParkedKept(inbox, i, mem, parked);
  }

  /** Parking `inbox[i]` keeps the parked letters handleable, in memory and apart from those still to come. */
  lemma ParkedKept(inbox: seq<Letter>, i: int, mem: map<int, MsgBuf>, parked: seq<Letter>)
    requires Deliverable(inbox) && 0 <= i < |inbox| && AllHandleable(parked)
    requires forall k :: 0 <= k < |parked| ==> parked[k].addr in mem && mem[parked[k].addr] == parked[k].msg
    requires forall k, j :: 0 <= k < |parked| && i <= j < |inbox| ==> parked[k].addr != inbox[j].addr
    ensures var ps, m := parked + [inbox[i]], mem[inbox[i].addr := inbox[i].msg];
      && AllHandleable(ps)
      && (forall k :: 0 <= k < |ps| ==> ps[k].addr in m && m[ps[k].addr] == ps[k].msg)
      && (forall k, j :: 0 <= k < |ps| && i + 1 <= j < |inbox| ==> ps[k].addr != inbox[j].addr)
  {
    var p := inbox[i];
    var ps, m := parked + [p], mem[p.addr := p.msg];
    forall k | 0 <= k < |ps|
      ensures Handleable(ps[k]) && ps[k].addr in m && m[ps[k].addr] == ps[k].msg
      ensures forall j :: i + 1 <= j < |inbox| ==> ps[k].addr != inbox[j].addr
    {
      if k < |parked| {
        assert ps[k] == parked[k] && parked[k].addr != p.addr;
      }
    }
  }

  /** Taking the oldest parked message from the head of the list. */
  lemma Unpark(inbox: seq<Letter>, i: int, next: map<int, int>, head: int, tail: int,
               mem: map<int, MsgBuf>, parked: seq<Letter>)
    requires Loop(inbox, i, next, head, tail, mem, parked) && head != NULL
    ensures parked != [] && head in next
    ensures EnvelopeToMsgBuf(head) == parked[0].addr && mem[parked[0].addr] == parked[0].msg
    ensures Loop(inbox, i, next, next[head], if next[head] == NULL then NULL else tail, mem, parked[1..])
  {
    Pop(next, NULL, Ends(head, tail), Envs(parked));
    var a := parked[0].addr;
    EnvelopeOf(parked[0]);
    assert head == MsgBufToEnvelope(a);
    assert EnvelopeToMsgBuf(head) == a;
    var rest := parked[1..];
    assert Envs(rest) == Envs(parked)[1..];
    assert forall k :: 0 <= k < |rest| ==> rest[k] == parked[k + 1];
  }

  /** The top of procC's loop: the oldest parked message if there is one, else the next one received. */
  method Take(inbox: seq<Letter>, i0: int, next: map<int, int>, head0: int, tail0: int,
              mem: map<int, MsgBuf>, ghost parked0: seq<Letter>)
    returns (p: Letter, i: int, head: int, tail: int, ghost parked: seq<Letter>)
    requires Deliverable(inbox) && Loop(inbox, i0, next, head0, tail0, mem, parked0)
    requires head0 != NULL || i0 < |inbox|
    ensures Loop(inbox, i, next, head, tail, mem, parked) && Handleable(p)
    ensures 2 * (|inbox| - i) + |parked| < 2 * (|inbox| - i0) + |parked0|
    ensures Run(parked0, inbox[i0..]) == Handle(p, parked, inbox[i..])
  {
    if head0 == NULL {
      assert Envs(parked0) == [];
      p := inbox[i0];
      assert inbox[i0..] == [p] + inbox[i0 + 1..];
      i, head, tail, parked := i0 + 1, head0, tail0, parked0;
    } else {
      Unpark(inbox, i0, next, head0, tail0, mem, parked0);
      var m := EnvelopeToMsgBuf(head0);
      p := Letter(m, mem[m]);
      i, head := i0, next[head0];
      tail := if head == NULL then NULL else tail0;
      parked := parked0[1..];
    }
  }

  /** The inner loop, from the report until the WAKEUP10 arrives or the inbox runs out. */
  method Await(inbox: seq<Letter>, i0: int, next0: map<int, int>, head0: int, tail0: int,
               mem0: map<int, MsgBuf>, ghost parked0: seq<Letter>)
    returns (i: int, next: map<int, int>, head: int, tail: int, mem: map<int, MsgBuf>,
             ghost parked: seq<Letter>, woke: bool, wake: Letter)
    requires Deliverable(inbox) && Loop(inbox, i0, next0, head0, tail0, mem0, parked0)
    ensures Loop(inbox, i, next, head, tail, mem, parked)
    ensures woke ==> Handleable(wake) && wake.msg.mtype == WAKEUP10
    ensures woke ==> 2 * (|inbox| - i) + |parked| < 2 * (|inbox| - i0) + |parked0|
    ensures woke ==> Wait(parked0, inbox[i0..]) == Prefix([Release(wake.msg)], Run(parked, inbox[i..]))
    ensures !woke ==> Wait(parked0, inbox[i0..]) == Outcome([], parked, true)
  {
    i, next, head, tail, mem, parked := i0, next0, head0, tail0, mem0, parked0;
    wake := Letter(0, MsgBuf(0, []));
    while true
      invariant Loop(inbox, i, next, head, tail, mem, parked)
      invariant 2 * (|inbox| - i) + |parked| <= 2 * (|inbox| - i0) + |parked0|
      invariant Wait(parked0, inbox[i0..]) == Wait(parked, inbox[i..])
      decreases |inbox| - i
    {
      if i == |inbox| {
        woke := false;
        return;
      }
      var p := inbox[i];
      assert inbox[i..][1..] == inbox[i + 1..];
      if p.msg.mtype == WAKEUP10 {
        i := i + 1;
        woke, wake := true, p;
        return;
      }
      Park(inbox, i, next, head, tail, mem, parked);
      var env := MsgBufToEnvelope(p.addr);
      next := next[env := NULL];
      if tail == NULL {
        tail := env;
        head := env;
      } else {
        next := next[tail := env];
        tail := env;
      }
      mem := mem[p.addr := p.msg];
      parked := parked + [p];
      i := i + 1;
    }
  }

  /**
   * procC over the messages it receives, up to the receive that finds nothing:
   * the calls it makes and whether it is then waiting for WAKEUP10, as `Run`
   * from an empty local queue says.
   */
  method ProcC(inbox: seq<Letter>) returns (actions: seq<Action>, waiting: bool)
    requires Deliverable(inbox)
    ensures actions == Run([], inbox).actions && waiting == Run([], inbox).waiting
  {
    var msgQHead := NULL;
    var msgQTail := NULL;
    var next: map<int, int> := map[];
    var mem: map<int, MsgBuf> := map[];
    ghost var parked: seq<Letter> := [];
    actions := [];
    waiting := false;
    var i := 0;
    Empty(next, NULL);
    assert inbox[0..] == inbox;
    while true
      invariant Loop(inbox, i, next, msgQHead, msgQTail, mem, parked)
      invariant Run([], inbox) == Prefix(actions, Run(parked, inbox[i..]))
      decreases 2 * (|inbox| - i) + |parked|
    {
      if msgQHead == NULL && i == |inbox| {
        return;
      }
      var p;
      p, i, msgQHead, msgQTail, parked := Take(inbox, i, next, msgQHead, msgQTail, mem, parked);
      assert Run([], inbox) == Prefix(actions, Handle(p, parked, inbox[i..]));
      if p.msg.mtype == COUNT_REPORT && (p.msg.mtext[0] as int) % 20 == 0 {
        var report := MsgBuf(DEFAULT, REPORT + p.msg.mtext[|REPORT|..]);
        var acts := [Send(PID_CRT, report), DelayedSendNew(PID_C, WAKEUP10, 10000)];
        PrefixPrefix(actions, acts, Wait(parked, inbox[i..]));
        actions := actions + acts;
        ghost var w := Wait(parked, inbox[i..]);
        var woke, wake;
        i, next, msgQHead, msgQTail, mem, parked, woke, wake := Await(inbox, i, next, msgQHead, msgQTail, mem, parked);
        if !woke {
          waiting := true;
          return;
        }
        p := wake;
        PrefixPrefix(actions, [Release(p.msg)], Run(parked, inbox[i..]));
      } else {
        PrefixPrefix(actions, [Release(p.msg)], Run(parked, inbox[i..]));
      }
      actions := actions + [Release(p.msg)];
    }
  }
}
