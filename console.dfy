/**
 * The console processes: the keyboard command dispatcher (KCD), which keeps a
 * table of up to 16 registered command identifiers and routes `%<id>...`
 * messages to the registered process, and the CRT process, which disposes of
 * everything it is sent.
 */
module Console {
  import opened Ipc

  /** A string in a buffer: a NUL lies inside the buffer. */
  predicate Terminated(s: seq<char>) {
    Strlen(s) < |s|
  }

  /** The characters copyStr copies: everything up to and including the first NUL. */
  function CText(s: seq<char>): (r: seq<char>)
    requires Terminated(s)
    ensures |r| == Strlen(s) + 1 && r[|r| - 1] == '\0'
    ensures Strlen(r) == Strlen(s)
  {
    s[..Strlen(s) + 1]
  }

  /** copyStr: copies `src` into `dest` up to and including the first NUL; the rest of `dest` stays. */
  method CopyStr(src: seq<char>, dest: array<char>)
    requires Terminated(src) && Strlen(src) < dest.Length
    modifies dest
    ensures dest[..Strlen(src) + 1] == CText(src)
    ensures dest[Strlen(src) + 1..] == old(dest[Strlen(src) + 1..])
  {
    var i := 0;
    while true
      invariant 0 <= i <= Strlen(src)
      invariant dest[..i] == src[..i]
      invariant dest[i..] == old(dest[i..])
      decreases Strlen(src) - i
    {
      ghost var before := dest[..];
      dest[i] := src[i];
      assert dest[i + 1..] == before[i + 1..] == old(dest[i + 1..]);
      assert dest[..i + 1] == src[..i + 1];
      if dest[i] == '\0' {
        assert i == Strlen(src);
        return;
      }
      i := i + 1;
    }
  }

  /**
   * copyMessage: `block` is the block request_memory_block hands out; the copy
   * is that block with the text of `msg` written over its start.  Its type is
   * whatever the block held.
   */
  method CopyMessage(msg: MsgBuf, block: MsgBuf) returns (copy: MsgBuf)
    requires Terminated(msg.mtext) && Strlen(msg.mtext) < |block.mtext|
    ensures copy.mtype == block.mtype && |copy.mtext| == |block.mtext|
    ensures Terminated(copy.mtext) && CText(copy.mtext) == CText(msg.mtext)
    ensures copy.mtext[Strlen(msg.mtext) + 1..] == block.mtext[Strlen(msg.mtext) + 1..]
  {
    var text := new char[|block.mtext|](i requires 0 <= i < |block.mtext| => block.mtext[i]);
    assert text[..] == block.mtext;
    CopyStr(msg.mtext, text);
    copy := MsgBuf(block.mtype, text[..]);
    assert copy.mtext[..Strlen(msg.mtext) + 1] == CText(msg.mtext);
    assert Strlen(copy.mtext) == Strlen(msg.mtext) by {
      var n := Strlen(msg.mtext);
      assert copy.mtext[n] == '\0';
      assert forall i :: 0 <= i < n ==> copy.mtext[i] == msg.mtext[i];
    }
  }

  /** A message received with the id of its sender. */
  datatype Received = Received(sender: int, msg: MsgBuf)

  /** The dispatcher's table: `ids[k]` was registered by `procs[k]`. */
  datatype Table = Table(ids: seq<char>, procs: seq<int>)

  const MAX_IDENTIFIERS: int := 16

  ghost predicate ValidTable(t: Table) {
    |t.ids| == |t.procs| <= MAX_IDENTIFIERS
  }

  /** The pid of the earliest registration of `c`, or -1. */
  function Lookup(t: Table, c: char): (r: int)
    requires |t.ids| == |t.procs|
    ensures (forall i :: 0 <= i < |t.ids| ==> t.ids[i] != c) ==> r == -1
    ensures forall i :: 0 <= i < |t.ids| && t.ids[i] == c && (forall j :: 0 <= j < i ==> t.ids[j] != c)
              ==> r == t.procs[i]
    decreases |t.ids|
  {
    if t.ids == [] then -1
    else if t.ids[0] == c then t.procs[0]
    else
      var r := Lookup(Table(t.ids[1..], t.procs[1..]), c);
      assert forall i :: 1 <= i < |t.ids| ==> t.ids[i] == t.ids[1..][i - 1];
      r
  }

  /** The destination of a non-registration message: a registered pid, or -1. */
  function Route(t: Table, mtext: seq<char>): (r: int)
    requires |t.ids| == |t.procs| && |mtext| >= 2
    ensures (mtext[0] != '%' || forall i :: 0 <= i < |t.ids| ==> t.ids[i] != mtext[1]) ==> r == -1
    ensures mtext[0] == '%' ==>
      forall i :: 0 <= i < |t.ids| && t.ids[i] == mtext[1] && (forall j :: 0 <= j < i ==> t.ids[j] != mtext[1])
        ==> r == t.procs[i]
  {
    if mtext[0] == '%' then Lookup(t, mtext[1]) else -1
  }

  /** What the dispatcher reads of a message: the first two characters, and a NUL to copy up to. */
  predicate Dispatchable(r: Received) {
    |r.msg.mtext| >= 2 && Terminated(r.msg.mtext)
  }

  /** One received message: the new table and the kernel calls made for it, in order. */
  function KcdStep(t: Table, r: Received): (res: (Table, seq<Action>))
    requires ValidTable(t) && Dispatchable(r)
    ensures ValidTable(res.0)
  {
    var msg := r.msg;
    if msg.mtype == KCD_REG then
      var t' := if |t.ids| < MAX_IDENTIFIERS then Table(t.ids + [msg.mtext[1]], t.procs + [r.sender]) else t;
      (t', [Release(msg)])
    else
      var recv := Route(t, msg.mtext);
      var out := msg.(mtype := DEFAULT);
      if recv == -1 then (t, [Send(PID_CRT, out)])
      else (t, [Send(PID_CRT, out), SendCopy(recv, CText(msg.mtext))])
  }

  function KcdRun(t: Table, inbox: seq<Received>): (res: (Table, seq<Action>))
    requires ValidTable(t) && forall i :: 0 <= i < |inbox| ==> Dispatchable(inbox[i])
    ensures ValidTable(res.0)
    decreases |inbox|
  {
    if inbox == [] then (t, [])
    else
      var (t1, a1) := KcdStep(t, inbox[0]);
      var (t2, a2) := KcdRun(t1, inbox[1..]);
      (t2, a1 + a2)
  }

  lemma KcdRunCons(t: Table, r: Received, rest: seq<Received>)
    requires ValidTable(t) && Dispatchable(r) && forall i :: 0 <= i < |rest| ==> Dispatchable(rest[i])
    ensures var s := KcdStep(t, r); var q := KcdRun(s.0, rest);
      KcdRun(t, [r] + rest) == (q.0, s.1 + q.1)
  {
    assert ([r] + rest)[1..] == rest;
  }

  /** The table only grows, by one entry per registration while there is room, and is never full beyond 16. */
  lemma {:induction false} KcdTableGrows(t: Table, inbox: seq<Received>)
    requires ValidTable(t) && forall i :: 0 <= i < |inbox| ==> Dispatchable(inbox[i])
    ensures var t' := KcdRun(t, inbox).0;
      |t.ids| <= |t'.ids| <= MAX_IDENTIFIERS && t'.ids[..|t.ids|] == t.ids && t'.procs[..|t.procs|] == t.procs
    decreases |inbox|
  {
    if inbox != [] {
      var t1 := KcdStep(t, inbox[0]).0;
      KcdTableGrows(t1, inbox[1..]);
      var t2 := KcdRun(t1, inbox[1..]).0;
      assert t1.ids[..|t.ids|] == t.ids && t1.procs[..|t.procs|] == t.procs;
      assert t2.ids[..|t.ids|] == t2.ids[..|t1.ids|][..|t.ids|];
      assert t2.procs[..|t.procs|] == t2.procs[..|t1.procs|][..|t.procs|];
    }
  }

  /**
   * A registration adds (identifier, sender) exactly when the table has room,
   * and the registration message is always released.
   */
  lemma Registration(t: Table, r: Received)
    requires ValidTable(t) && Dispatchable(r) && r.msg.mtype == KCD_REG
    ensures KcdStep(t, r).1 == [Release(r.msg)]
    ensures |t.ids| < MAX_IDENTIFIERS ==> KcdStep(t, r).0 == Table(t.ids + [r.msg.mtext[1]], t.procs + [r.sender])
    ensures |t.ids| == MAX_IDENTIFIERS ==> KcdStep(t, r).0 == t
  {
  }

  /**
   * Any other message goes to the CRT as DEFAULT; when it names a registered
   * identifier a copy of its text also goes to the registered process.
   */
  lemma Dispatch(t: Table, r: Received)
    requires ValidTable(t) && Dispatchable(r) && r.msg.mtype != KCD_REG
    ensures KcdStep(t, r).0 == t
    ensures KcdStep(t, r).1[0] == Send(PID_CRT, MsgBuf(DEFAULT, r.msg.mtext))
    ensures Route(t, r.msg.mtext) == -1 ==> |KcdStep(t, r).1| == 1
    ensures Route(t, r.msg.mtext) != -1 ==>
      KcdStep(t, r).1 == [Send(PID_CRT, MsgBuf(DEFAULT, r.msg.mtext)), SendCopy(Route(t, r.msg.mtext), CText(r.msg.mtext))]
  {
  }

  /** The linear search of the table, over its first `n` entries. */
  method Find(identifiers: array<char>, processes: array<int>, n: int, c: char) returns (recvId: int)
    requires 0 <= n <= identifiers.Length && n <= processes.Length
    ensures recvId == Lookup(Table(identifiers[..n], processes[..n]), c)
  {
    recvId := -1;
    var i := 0;
    while i < n
      invariant 0 <= i <= n
      invariant forall j :: 0 <= j < i ==> identifiers[j] != c
    {
      if identifiers[i] == c {
        recvId := processes[i];
        assert identifiers[..n][i] == c && forall j :: 0 <= j < i ==> identifiers[..n][j] != c;
        return;
      }
      i := i + 1;
    }
  }

  /** The body of kcdProc's receive loop for one message. */
  method KcdHandle(identifiers: array<char>, processes: array<int>, n0: int, r: Received)
    returns (n: int, acts: seq<Action>)
    requires identifiers.Length == MAX_IDENTIFIERS && processes.Length == MAX_IDENTIFIERS
    requires identifiers != processes as object
    requires 0 <= n0 <= MAX_IDENTIFIERS && Dispatchable(r)
    modifies identifiers, processes
    ensures 0 <= n <= MAX_IDENTIFIERS
    ensures (Table(identifiers[..n], processes[..n]), acts)
         == KcdStep(Table(old(identifiers[..n0]), old(processes[..n0])), r)
  {
    n := n0;
    var msg := r.msg;
    if msg.mtype == KCD_REG {
      if n < MAX_IDENTIFIERS {
        identifiers[n] := msg.mtext[1];
        processes[n] := r.sender;
        n := n + 1;
        assert identifiers[..n] == old(identifiers[..n0]) + [msg.mtext[1]];
        assert processes[..n] == old(processes[..n0]) + [r.sender];
      }
      acts := [Release(msg)];
    } else {
      var recvId := -1;
      if msg.mtext[0] == '%' {
        recvId := Find(identifiers, processes, n, msg.mtext[1]);
      }
      msg := msg.(mtype := DEFAULT);
      if recvId == -1 {
        acts := [Send(PID_CRT, msg)];
      } else {
        acts := [Send(PID_CRT, msg), SendCopy(recvId, CText(msg.mtext))];
      }
    }
  }

  /**
   * kcdProc over the messages it receives: the table it ends with and the
   * kernel calls it makes, as `KcdRun` from an empty table.
   */
  method KcdProc(inbox: seq<Received>) returns (ids: seq<char>, procs: seq<int>, actions: seq<Action>)
    requires forall i :: 0 <= i < |inbox| ==> Dispatchable(inbox[i])
    ensures ids == KcdRun(Table([], []), inbox).0.ids && procs == KcdRun(Table([], []), inbox).0.procs
    ensures actions == KcdRun(Table([], []), inbox).1
  {
    var identifiers := new char[MAX_IDENTIFIERS];
    var processes := new int[MAX_IDENTIFIERS];
    var numIdentifiers := 0;
    actions := [];
    var i := 0;
    while i < |inbox|
      invariant 0 <= i <= |inbox| && 0 <= numIdentifiers <= MAX_IDENTIFIERS
      invariant var t := Table(identifiers[..numIdentifiers], processes[..numIdentifiers]);
        KcdRun(t, inbox[i..]).0 == KcdRun(Table([], []), inbox).0
        && actions + KcdRun(t, inbox[i..]).1 == KcdRun(Table([], []), inbox).1
    {
      ghost var t := Table(identifiers[..numIdentifiers], processes[..numIdentifiers]);
      var acts;
      numIdentifiers, acts := KcdHandle(identifiers, processes, numIdentifiers, inbox[i]);
      assert inbox[i..] == [inbox[i]] + inbox[i + 1..];
      KcdRunCons(t, inbox[i], inbox[i + 1..]);
      actions := actions + acts;
      i := i + 1;
    }
    ids, procs := identifiers[..numIdentifiers], processes[..numIdentifiers];
    assert inbox[i..] == [];
    assert KcdRun(Table(ids, procs), inbox[i..]) == (Table(ids, procs), []);
    assert Table(ids, procs) == KcdRun(Table([], []), inbox).0;
    assert actions == KcdRun(Table([], []), inbox).1;
  }

  /** crtProc: every message it receives is released, in the order received. */
  method CrtProc(inbox: seq<MsgBuf>) returns (actions: seq<Action>)
    ensures |actions| == |inbox|
    ensures forall i :: 0 <= i < |inbox| ==> actions[i] == Release(inbox[i])
  {
    actions := [];
    var i := 0;
    while i < |inbox|
      invariant 0 <= i <= |inbox| && |actions| == i
      invariant forall j :: 0 <= j < i ==> actions[j] == Release(inbox[j])
    {
      actions := actions + [Release(inbox[i])];
      i := i + 1;
    }
  }
}
